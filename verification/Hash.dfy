/** The chained hash tables (src/hash.c, src/hash.h): they refine a finite map from strings, and their resumable
    iterator meets every entry once. A chain is modelled as the sequence of its entries. */
module Hashes {
  import opened Basics

  const WORD: nat := 0x1_0000_0000_0000_0000
  const SHIFT_MIN: nat := 4
  const SHIFT_MAX: nat := 56

  datatype Item<V> = Item(key: string, value: V)

  function Pow2(n: nat): (r: nat)
    ensures r > 0
  {
    if n == 0 then 1 else 2 * Pow2(n - 1)
  }

  /** str_hash: one byte after the other, modulo the word. */
  function StrHash(s: string): (h: nat)
    ensures h < WORD
  {
    if s == "" then 0
    else
      var c := s[|s| - 1] as nat % 256;
      (StrHash(s[..|s| - 1]) + 256 * c + c) * 11 % WORD
  }

  /** The chain a key belongs to: masking with 2^shift - 1 is taking the remainder by 2^shift. */
  function Slot(key: string, shift: nat): (i: nat)
    ensures i < Pow2(shift)
  {
    StrHash(key) % Pow2(shift)
  }

  // ---------- chains ----------

  ghost predicate KeysDiffer<V>(c: seq<Item<V>>) {
    forall i, j :: 0 <= i < j < |c| ==> c[i].key != c[j].key
  }

  /** All entries from chain `from` on. */
  function Entries<V>(chains: seq<seq<Item<V>>>, from: nat): seq<Item<V>>
    requires from <= |chains|
    decreases |chains| - from
  {
    if from == |chains| then [] else chains[from] + Entries(chains, from + 1)
  }

  /** Each entry is in the chain of its key, and no chain has a key twice. */
  ghost predicate Placed<V>(chains: seq<seq<Item<V>>>, shift: nat) {
    && |chains| == Pow2(shift)
    && (forall b :: 0 <= b < |chains| ==> KeysDiffer(chains[b]))
    && (forall b, i :: 0 <= b < |chains| && 0 <= i < |chains[b]| ==> Slot(chains[b][i].key, shift) == b)
  }

  /** What a chain says about a key: its first entry for it counts. */
  function In<V>(c: seq<Item<V>>, key: string): Option<V> {
    if c == [] then None else if c[0].key == key then Some(c[0].value) else In(c[1..], key)
  }

  /** What the table maps a key to. */
  function Lookup<V>(chains: seq<seq<Item<V>>>, shift: nat, key: string): Option<V>
    requires |chains| == Pow2(shift)
  {
    In(chains[Slot(key, shift)], key)
  }

  lemma {:induction false} InFirst<V>(c: seq<Item<V>>, key: string, i: nat)
    requires i <= |c| && (forall k :: 0 <= k < i ==> c[k].key != key) && (i < |c| ==> c[i].key == key)
    ensures In(c, key) == if i < |c| then Some(c[i].value) else None
  {
    if i > 0 {
      InFirst(c[1..], key, i - 1);
    }
  }

  lemma {:induction false} InMeans<V>(c: seq<Item<V>>, e: Item<V>)
    requires KeysDiffer(c)
    ensures e in c <==> In(c, e.key) == Some(e.value)
  {
    if c != [] {
      InMeans(c[1..], e);
      assert e in c <==> e == c[0] || e in c[1..];
      if e in c[1..] {
        var k :| 0 <= k < |c[1..]| && c[1..][k] == e;
        assert c[k + 1] == e;
      }
    }
  }

  lemma {:induction false} InReplaced<V>(c: seq<Item<V>>, i: nat, value: V, k: string)
    requires i < |c| && k != c[i].key
    ensures In(c[i := Item(c[i].key, value)], k) == In(c, k)
  {
    if i > 0 {
      assert c[i := Item(c[i].key, value)][1..] == c[1..][i - 1 := Item(c[i].key, value)];
      InReplaced(c[1..], i - 1, value, k);
    }
  }

  ghost predicate InSome<V>(chains: seq<seq<Item<V>>>, from: nat, e: Item<V>)
    requires from <= |chains|
  {
    exists b :: from <= b < |chains| && e in chains[b]
  }

  lemma {:induction false} EntriesHave<V>(chains: seq<seq<Item<V>>>, from: nat, e: Item<V>)
    requires from <= |chains|
    ensures e in Entries(chains, from) <==> InSome(chains, from, e)
    decreases |chains| - from
  {
    if from < |chains| {
      EntriesHave(chains, from + 1, e);
      assert InSome(chains, from, e) <==> e in chains[from] || InSome(chains, from + 1, e);
      hide InSome;
      assert e in Entries(chains, from) <==> e in chains[from] || e in Entries(chains, from + 1);
    }
  }

  lemma {:induction false} EntriesDiffer<V>(chains: seq<seq<Item<V>>>, shift: nat, from: nat)
    requires Placed(chains, shift) && from <= |chains|
    ensures KeysDiffer(Entries(chains, from))
    decreases |chains| - from
  {
    if from < |chains| {
      EntriesDiffer(chains, shift, from + 1);
      var a, b := chains[from], Entries(chains, from + 1);
      forall i, j | 0 <= i < |a| && 0 <= j < |b| ensures a[i].key != b[j].key {
        EntriesHave(chains, from + 1, b[j]);
        var c :| from + 1 <= c < |chains| && b[j] in chains[c];
        var k :| 0 <= k < |chains[c]| && chains[c][k] == b[j];
        assert Slot(a[i].key, shift) == from && Slot(b[j].key, shift) == c;
      }
    }
  }

  /** All entries together are the map: each key once, with its value. */
  lemma EntriesAreMap<V>(chains: seq<seq<Item<V>>>, shift: nat, e: Item<V>)
    requires Placed(chains, shift)
    ensures KeysDiffer(Entries(chains, 0))
    ensures e in Entries(chains, 0) <==> Lookup(chains, shift, e.key) == Some(e.value)
  {
    EntriesDiffer(chains, shift, 0);
    EntriesHave(chains, 0, e);
    InMeans(chains[Slot(e.key, shift)], e);
    if b :| 0 <= b < |chains| && e in chains[b] {
      var k :| 0 <= k < |chains[b]| && chains[b][k] == e;
      assert Slot(e.key, shift) == b;
    }
  }

  /** What an iterator at (i, n) has still to yield: n is where it is in chain i, or nothing at the start of a chain. */
  ghost function Rest<V>(chains: seq<seq<Item<V>>>, i: nat, n: Option<nat>): seq<Item<V>>
    requires i <= |chains| && (n.Some? ==> i < |chains| && n.value < |chains[i]|)
  {
    if n == None then Entries(chains, i) else chains[i][n.value..] + Entries(chains, i + 1)
  }

  class StrTable<V> {
    const shift: nat
    const table: array<seq<Item<V>>>

    ghost predicate Valid()
      reads table
    {
      Placed(table[..], shift)
    }

    /** hash_table_init: the length is the least power of two from 16 on that is at least twice the hint, as far as
        shifts go. */
    constructor (hint: nat)
      ensures Valid() && fresh(table) && forall b :: 0 <= b < table.Length ==> table[b] == []
      ensures SHIFT_MIN <= shift <= SHIFT_MAX && table.Length == Pow2(shift)
      ensures (2 * hint <= table.Length || shift == SHIFT_MAX) && (shift > SHIFT_MIN ==> table.Length < 4 * hint)
    {
      var s, len := SHIFT_MIN, 16;
      while len < 2 * hint && s < SHIFT_MAX
        invariant SHIFT_MIN <= s <= SHIFT_MAX && len == Pow2(s) && (s > SHIFT_MIN ==> len < 4 * hint)
      {
        s, len := s + 1, 2 * len;
      }
      shift := s;
      table := new seq<Item<V>>[len](_ => []);
    }

    /** _str_table_lookup: walk the chain. */
    method Find(key: string) returns (b: nat, i: nat)
      requires Valid()
      ensures b == Slot(key, shift) < table.Length && i <= |table[b]|
      ensures (i < |table[b]| ==> table[b][i].key == key) && forall k :: 0 <= k < i ==> table[b][k].key != key
    {
      b := StrHash(key) % Pow2(shift);
      var c := table[b];
      i := 0;
      while i < |c| && c[i].key != key
        invariant i <= |c| && forall k :: 0 <= k < i ==> c[k].key != key
      {
        i := i + 1;
      }
    }

    /** str_table_ref */
    method Ref(key: string) returns (v: Option<V>)
      requires Valid()
      ensures v == Lookup(table[..], shift, key)
    {
      var b, i := Find(key);
      InFirst(table[b], key, i);
      return if i < |table[b]| then Some(table[b][i].value) else None;
    }

    /** str_table_set: an entry for a new key goes to the head of its chain. */
    method Set(key: string, value: V)
      requires Valid()
      modifies table
      ensures Valid()
      ensures Lookup(table[..], shift, key) == Some(value)
      ensures forall k :: k != key ==> Lookup(table[..], shift, k) == old(Lookup(table[..], shift, k))
    {
      ghost var was := table[..];
      var b, i := Find(key);
      var c := table[b];
      var d := if i < |c| then c[i := Item(key, value)] else [Item(key, value)] + c;
      ChainSet(c, key, value, i, d);
      ChainPlaced(was, shift, key, d);
      forall k | k != key ensures In(c, k) == In(d, k) {
        ChainOther(c, key, value, i, d, k);
      }
      table[b] := d;
      assert table[..] == was[b := d];
    }

    /** str_table_for_each: one more entry, and where to go on. */
    method ForEach(i: nat, n: Option<nat>) returns (found: Option<Item<V>>, i': nat, n': Option<nat>)
      requires Valid() && i <= table.Length && (n.Some? ==> i < table.Length && n.value < |table[i]|)
      ensures i' <= table.Length && (n'.Some? ==> i' < table.Length && n'.value < |table[i']|)
      ensures found == None <==> Rest(table[..], i, n) == []
      ensures found != None ==> Yields(table[..], i, n, found.value, i', n')
      ensures found == None ==> i' == table.Length
    {
      found, i', n' := None, i, n;
      ghost var chains := table[..];
      hide Rest, Entries, Yields;
      while i' < table.Length && found == None
        invariant i' <= table.Length && (n'.Some? ==> i' < table.Length && n'.value < |table[i']|)
        invariant found == None ==> Rest(chains, i', n') == Rest(chains, i, n)
        invariant found != None ==> Rest(chains, i, n) != [] && Yields(chains, i, n, found.value, i', n')
        decreases table.Length - i', if found == None then 1 else 0
      {
        RestSteps(chains, i', n');
        if |table[i']| > 0 {
          NextYields(chains, i, n, i', n');
        }
        if n' == None && |table[i']| > 0 {
          n' := Some(0);
        }
        if n'.Some? {
          found := Some(table[i'][n'.value]);
          n' := if n'.value + 1 < |table[i']| then Some(n'.value + 1) else None;
        }
        if n' == None {
          i' := i' + 1;
        }
      }
      RestEnds(chains, i', n');
    }

    /** domains_get_cb (src/clus.c): calling str_table_for_each from (0, NULL) until it stops yields every
        entry once. */
    method All() returns (out: seq<Item<V>>)
      requires Valid()
      ensures out == Entries(table[..], 0)
    {
      out := [];
      var i: nat, n: Option<nat> := 0, None;
      ghost var chains := table[..];
      ghost var left := Entries(chains, 0);
      hide Entries, KeysDiffer, Slot;
      while true
        invariant i <= table.Length && (n.Some? ==> i < table.Length && n.value < |table[i]|)
        invariant left == Rest(chains, i, n) && out + left == Entries(chains, 0)
        decreases |left|
      {
        var found, i', n' := ForEach(i, n);
        if found == None {
          assert out + [] == out;
          return;
        }
        TakeOne(out, left, found.value, Rest(chains, i', n'));
        out := out + [found.value];
        i, n, left := i', n', Rest(chains, i', n');
      }
    }
  }

  lemma TakeOne<V>(out: seq<Item<V>>, left: seq<Item<V>>, e: Item<V>, rest: seq<Item<V>>)
    requires left == [e] + rest
    ensures out + left == out + [e] + rest && |rest| < |left|
  {
  }

  lemma RestSteps<V>(chains: seq<seq<Item<V>>>, i: nat, n: Option<nat>)
    requires i < |chains| && (n.Some? ==> n.value < |chains[i]|)
    ensures n == None && |chains[i]| > 0 ==> Rest(chains, i, n) == Rest(chains, i, Some(0))
    ensures n == None && |chains[i]| == 0 ==> Rest(chains, i, n) == Rest(chains, i + 1, None)
  {
    assert chains[i][0..] == chains[i];
  }

  lemma RestEnds<V>(chains: seq<seq<Item<V>>>, i: nat, n: Option<nat>)
    requires i <= |chains| && (n.Some? ==> i < |chains| && n.value < |chains[i]|)
    ensures i == |chains| ==> Rest(chains, i, n) == []
  {
  }

  /** From (i, n) comes `e`, and then what comes from (i', n'). */
  ghost predicate Yields<V>(chains: seq<seq<Item<V>>>, i: nat, n: Option<nat>, e: Item<V>, i': nat, n': Option<nat>)
    requires i <= |chains| && (n.Some? ==> i < |chains| && n.value < |chains[i]|)
    requires i' <= |chains| && (n'.Some? ==> i' < |chains| && n'.value < |chains[i']|)
  {
    Rest(chains, i, n) == [e] + Rest(chains, i', n')
  }

  lemma NextYields<V>(chains: seq<seq<Item<V>>>, i0: nat, n0: Option<nat>, i: nat, n: Option<nat>)
    requires i0 <= |chains| && (n0.Some? ==> i0 < |chains| && n0.value < |chains[i0]|)
    requires i < |chains| && (n.Some? ==> n.value < |chains[i]|) && Rest(chains, i, n) == Rest(chains, i0, n0)
    requires |chains[i]| > 0
    ensures Rest(chains, i0, n0) != []
    ensures var k := if n.Some? then n.value else 0;
      Yields(chains, i0, n0, chains[i][k], if k + 1 < |chains[i]| then i else i + 1,
        if k + 1 < |chains[i]| then Some(k + 1) else None)
  {
    RestSteps(chains, i, n);
    Yielded(chains, i, if n.Some? then n.value else 0);
  }

  lemma Yielded<V>(chains: seq<seq<Item<V>>>, i: nat, n: nat)
    requires i < |chains| && n < |chains[i]|
    ensures Rest(chains, i, Some(n)) ==
      [chains[i][n]] + if n + 1 < |chains[i]| then Rest(chains, i, Some(n + 1)) else Rest(chains, i + 1, None)
  {
    hide Entries;
    assert chains[i][n..] == [chains[i][n]] + chains[i][n + 1..];
    assert [chains[i][n]] + chains[i][n + 1..] + Entries(chains, i + 1) ==
      [chains[i][n]] + (chains[i][n + 1..] + Entries(chains, i + 1));
  }

  lemma ChainSet<V>(c: seq<Item<V>>, key: string, value: V, i: nat, d: seq<Item<V>>)
    requires KeysDiffer(c) && i <= |c| && (i < |c| ==> c[i].key == key) && forall k :: 0 <= k < i ==> c[k].key != key
    requires d == if i < |c| then c[i := Item(key, value)] else [Item(key, value)] + c
    ensures KeysDiffer(d) && In(d, key) == Some(value)
  {
    InFirst(d, key, if i < |c| then i else 0);
  }

  lemma ChainOther<V>(c: seq<Item<V>>, key: string, value: V, i: nat, d: seq<Item<V>>, k: string)
    requires i <= |c| && (i < |c| ==> c[i].key == key) && k != key
    requires d == if i < |c| then c[i := Item(key, value)] else [Item(key, value)] + c
    ensures In(d, k) == In(c, k)
  {
    if i < |c| {
      InReplaced(c, i, value, k);
    } else {
      assert d[1..] == c;
    }
  }

  lemma ChainPlaced<V>(chains: seq<seq<Item<V>>>, shift: nat, key: string, d: seq<Item<V>>)
    requires Placed(chains, shift) && KeysDiffer(d)
    requires forall j :: 0 <= j < |d| ==>
      d[j].key == key ||
      exists i :: 0 <= i < |chains[Slot(key, shift)]| && chains[Slot(key, shift)][i].key == d[j].key
    ensures Placed(chains[Slot(key, shift) := d], shift)
  {
  }
}
