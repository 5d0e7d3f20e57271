/** Sort keys on their way from the user to k_top_cmp: parse_sort_key in src/xltop.c, q_k_top_parse and k_top_spec_init
    in src/top.c. */
module SortKeys {
  import opened Basics
  import opened Strings
  import opened Ewma
  import opened Ordering

  const WR_BYTES: nat := 0
  const RD_BYTES: nat := 1
  const NR_REQS: nat := 2

  // ---------- the wire form ----------

  function DigitChar(i: nat): char
    requires i < NR_STATS
  {
    '0' + i as char
  }

  /** One key as the server reads it. */
  function Word(f: Field): string
    requires Known(f)
  {
    match f
    case Pending(i) => ['p', DigitChar(i)]
    case Rate(i) => ['r', DigitChar(i)]
    case Sum(i) => ['s', DigitChar(i)]
    case Time => "t"
  }

  ghost predicate AllKnown(keys: seq<Field>) {
    forall i :: 0 <= i < |keys| ==> Known(keys[i])
  }

  /** Keys joined by commas. */
  ghost function Format(keys: seq<Field>): string
    requires AllKnown(keys) && keys != []
  {
    if |keys| == 1 then Word(keys[0]) else Format(keys[..|keys| - 1]) + "," + Word(keys[|keys| - 1])
  }

  // ---------- the server ----------

  /** atoi: white space, a sign, digits. */
  function Atoi(s: string): int {
    if s == "" then 0
    else if IsSpace(s[0]) then Atoi(s[1..])
    else if s[0] == '-' then 0 - Digits(s[1..], 0)
    else if s[0] == '+' then Digits(s[1..], 0)
    else Digits(s, 0)
  }

  /** One comma-separated word of a sort argument. */
  function KeyOf(u: string): (f: Option<Field>)
    ensures f.Some? ==> Known(f.value)
  {
    if u == "" then None
    else
      var i := Atoi(u[1..]);
      if !(0 <= i < NR_STATS) then None
      else if u[0] == 'p' then Some(Pending(i))
      else if u[0] == 'r' then Some(Rate(i))
      else if u[0] == 's' then Some(Sum(i))
      else if u[0] == 't' then Some(Time)
      else None
  }

  predicate AreKeys(ps: seq<string>) {
    forall i :: 0 <= i < |ps| ==> KeyOf(ps[i]).Some?
  }

  /** t_spec with the keys of `ps` in front. */
  function SlotsOf(ps: seq<string>): (s: Spec)
    requires AreKeys(ps) && |ps| <= SPEC_LEN
  {
    seq(SPEC_LEN, i requires 0 <= i < SPEC_LEN => if i < |ps| then Key(KeyOf(ps[i]).value) else End)
  }

  /** What a sort argument asks for: at most as many words as t_spec has room for, each a key; the rest is filled up. */
  function SpecOf(arg: string): Option<Spec> {
    var ps := Pieces(arg, ",");
    if |ps| <= SPEC_LEN && AreKeys(ps) then Some(SlotsOf(ps)) else None
  }

  /** q_k_top_parse */
  method TopParse(arg: string) returns (spec: Option<Spec>)
    ensures spec == SpecOf(arg)
  {
    hide AreKeys, KeyOf, Pieces, Cut, SpecOf;
    var s: Option<string> := Some(arg);
    var slots: seq<Slot> := [];
    ghost var done: seq<string> := [];
    NoneParsed(arg);
    while |slots| < SPEC_LEN && s != None
      invariant Pieces(arg, ",") == done + (if s.Some? then Pieces(s.value, ",") else [])
      invariant AreKeys(done) && |slots| == |done| <= SPEC_LEN && slots == SlotsOf(done)[..|done|]
      decreases if s.Some? then |s.value| + 1 else 0
    {
      CutShrinks(s.value, ",");
      var (u, more) := Cut(s.value, ",");
      OneParsed(arg, done, s.value);
      s := more;
      var f := KeyOf(u);
      if f == None {
        return None;
      }
      slots := slots + [Key(f.value)];
      done := done + [u];
    }
    AllParsed(arg, done, s);
    if s != None {
      return None;
    }
    var full: Spec := slots + seq(SPEC_LEN - |slots|, i => End);
    assert full == SlotsOf(done);
    return Some(full);
  }

  lemma NoneParsed(arg: string)
    ensures Pieces(arg, ",") == [] + Pieces(arg, ",") && AreKeys([])
  {
  }

  lemma OneParsed(arg: string, done: seq<string>, s: string)
    requires Pieces(arg, ",") == done + Pieces(s, ",") && AreKeys(done) && |done| < SPEC_LEN
    ensures var (u, more) := Cut(s, ",");
      && Pieces(arg, ",") == done + [u] + (if more.Some? then Pieces(more.value, ",") else [])
      && (KeyOf(u) == None ==> SpecOf(arg) == None)
      && (KeyOf(u).Some? ==>
        AreKeys(done + [u]) && SlotsOf(done + [u])[..|done| + 1] == SlotsOf(done)[..|done|] + [Key(KeyOf(u).value)])
  {
    CutShrinks(s, ",");
    assert Pieces(arg, ",")[|done|] == Cut(s, ",").0;
  }

  lemma AllParsed(arg: string, done: seq<string>, s: Option<string>)
    requires Pieces(arg, ",") == done + (if s.Some? then Pieces(s.value, ",") else [])
    requires AreKeys(done) && |done| <= SPEC_LEN && (|done| == SPEC_LEN || s == None)
    ensures SpecOf(arg) == if s == None then Some(SlotsOf(done)) else None
  {
    if s.Some? {
      PiecesSome(s.value, ",");
    } else {
      assert done + [] == done;
    }
  }

  lemma PiecesSome(s: string, seps: string)
    ensures |Pieces(s, seps)| > 0
  {
    CutShrinks(s, seps);
  }

  lemma {:induction false} KeysOf(s: Spec, keys: seq<Field>)
    requires |keys| <= |s| && (|keys| < |s| ==> s[|keys|].End?)
    requires forall i :: 0 <= i < |keys| ==> s[i] == Key(keys[i])
    ensures Ordering.Keys(s) == keys
  {
    if keys != [] {
      KeysOf(s[1..], keys[1..]);
      assert keys == [keys[0]] + keys[1..];
    }
  }

  /** k_top_spec_init: without a sort argument, all rates, then all sums, then all pending amounts, then the time. */
  method DefaultSpec() returns (spec: Spec)
    ensures |spec| == SPEC_LEN
    ensures Ordering.Keys(spec) ==
      [Rate(0), Rate(1), Rate(2), Sum(0), Sum(1), Sum(2), Pending(0), Pending(1), Pending(2), Time]
  {
    var s: seq<Slot> := [];
    for i := 0 to NR_STATS
      invariant s == [Key(Rate(0)), Key(Rate(1)), Key(Rate(2))][..i]
    {
      s := s + [Key(Rate(i))];
    }
    for i := 0 to NR_STATS
      invariant s == [Key(Rate(0)), Key(Rate(1)), Key(Rate(2)), Key(Sum(0)), Key(Sum(1)), Key(Sum(2))][..3 + i]
    {
      s := s + [Key(Sum(i))];
    }
    for i := 0 to NR_STATS
      invariant s == [Key(Rate(0)), Key(Rate(1)), Key(Rate(2)), Key(Sum(0)), Key(Sum(1)), Key(Sum(2)),
                      Key(Pending(0)), Key(Pending(1)), Key(Pending(2))][..6 + i]
    {
      s := s + [Key(Pending(i))];
    }
    spec := s + [Key(Time)];
    KeysOf(spec, [Rate(0), Rate(1), Rate(2), Sum(0), Sum(1), Sum(2), Pending(0), Pending(1), Pending(2), Time]);
  }

  // ---------- there and back ----------

  lemma WordKey(f: Field)
    requires Known(f)
    ensures KeyOf(Word(f)) == Some(f) && Free(Word(f), ",")
  {
    match f
    case Time =>
      assert Atoi("") == 0;
    case _ =>
      var d := DigitChar(f.i);
      assert Word(f)[1..] == [d] && !IsSpace(d);
      assert [d][1..] == "" && Digits("", (d - '0') as nat) == f.i;
      assert Digits([d], 0) == f.i;
  }

  ghost predicate Spells(ps: seq<string>, keys: seq<Field>) {
    |ps| == |keys| && forall i :: 0 <= i < |ps| ==> KeyOf(ps[i]) == Some(keys[i])
  }

  lemma {:induction false} FormatPieces(keys: seq<Field>)
    requires AllKnown(keys) && keys != []
    ensures Spells(Pieces(Format(keys), ","), keys)
  {
    hide KeyOf, Word, Pieces, Known;
    var n := |keys| - 1;
    WordKey(keys[n]);
    if n == 0 {
      PiecesOne(Word(keys[0]), ",");
    } else {
      FormatPieces(keys[..n]);
      PiecesJoin(Format(keys[..n]), ',', Word(keys[n]), ",");
    }
  }

  /** The server compares by exactly the keys the client sent, in that order; it rejects more than ten. */
  lemma SortKeysArrive(keys: seq<Field>)
    requires AllKnown(keys) && keys != []
    ensures SpecOf(Format(keys)).Some? <==> |keys| <= 10
    ensures |keys| <= 10 ==> Ordering.Keys(SpecOf(Format(keys)).value) == keys
    ensures |keys| <= 10 ==> forall a, b :: Cmp(SpecOf(Format(keys)).value, a, b) == Compare(keys, a, b)
  {
    FormatPieces(keys);
    var ps := Pieces(Format(keys), ",");
    assert AreKeys(ps);
    hide Pieces, KeyOf, AreKeys, Format;
    if |keys| <= 10 {
      SlotsSpell(ps, keys);
      KeysOf(SlotsOf(ps), keys);
    }
  }

  lemma SlotsSpell(ps: seq<string>, keys: seq<Field>)
    requires Spells(ps, keys) && AreKeys(ps) && |ps| <= SPEC_LEN
    ensures forall i :: 0 <= i < |keys| ==> SlotsOf(ps)[i] == Key(keys[i])
    ensures |keys| < SPEC_LEN ==> SlotsOf(ps)[|keys|] == End
  {
    hide KeyOf;
  }

  /** The server's words for its keys: a letter and a digit. */
  lemma KeyWords(i: nat)
    requires i < NR_STATS
    ensures KeyOf(['r', "012"[i]]) == Some(Rate(i)) && Word(Rate(i)) == ['r', "012"[i]]
    ensures KeyOf(['s', "012"[i]]) == Some(Sum(i)) && Word(Sum(i)) == ['s', "012"[i]]
    ensures KeyOf(['p', "012"[i]]) == Some(Pending(i)) && Word(Pending(i)) == ['p', "012"[i]]
    ensures KeyOf("t") == Some(Time) && Word(Time) == "t"
  {
    assert i == 0 || i == 1 || i == 2;
    var d := "012"[i];
    assert [d][1..] == "" && !IsSpace(d) && Digits([d], 0) == i;
    assert ['r', d][1..] == ['s', d][1..] == ['p', d][1..] == [d];
    assert "t"[1..] == "" && Atoi("") == 0;
  }

  // ---------- the client ----------

  function SkipSpace(s: string): string {
    if s != "" && IsSpace(s[0]) then SkipSpace(s[1..]) else s
  }

  /** The statistic a user's word names: by its first letter or a letter q anywhere, reading by default. */
  function StatOf(w: string): (i: nat)
    requires w != ""
    ensures i < NR_STATS
  {
    if w[0] == 'w' || w[0] == 'W' then WR_BYTES
    else if 'q' in w || 'Q' in w then NR_REQS
    else RD_BYTES
  }

  /** The key a user's word stands for; blank words stand for none. */
  function UserKey(word: string, wantSums: bool): seq<Field> {
    var w := SkipSpace(word);
    if w == "" then []
    else if '/' in word || !wantSums then [Rate(StatOf(w))] else [Sum(StatOf(w))]
  }

  lemma {:induction false} SkipBlanks(blanks: string, w: string)
    requires (forall i :: 0 <= i < |blanks| ==> IsSpace(blanks[i])) && (w != "" ==> !IsSpace(w[0]))
    ensures SkipSpace(blanks + w) == w
  {
    if blanks == "" {
      assert blanks + w == w;
    } else {
      assert (blanks + w)[1..] == blanks[1..] + w;
      SkipBlanks(blanks[1..], w);
    }
  }

  /** Which key a user's word stands for: 0, bytes written, if it starts with a w; else 2, requests, if there is a q in
      it; else 1, bytes read; as a rate if there is a slash in it or rates are wanted, as a sum otherwise. */
  lemma UserKeyMeans(blanks: string, w: string, wantSums: bool)
    requires (forall i :: 0 <= i < |blanks| ==> IsSpace(blanks[i])) && (w != "" ==> !IsSpace(w[0]))
    ensures w == "" ==> UserKey(blanks + w, wantSums) == []
    ensures w != "" ==>
      var i := if w[0] in "wW" then 0 else if 'q' in w || 'Q' in w then 2 else 1;
      UserKey(blanks + w, wantSums) == [if '/' in w || !wantSums then Rate(i) else Sum(i)]
  {
    SkipBlanks(blanks, w);
    assert "wW"[0] == 'w' && "wW"[1] == 'W';
    forall i | 0 <= i < |blanks| ensures blanks[i] != '/' {
      assert IsSpace(blanks[i]);
    }
    assert '/' in blanks + w <==> '/' in w;
  }

  function UserKeys(words: seq<string>, wantSums: bool): seq<Field> {
    if words == [] then [] else UserKeys(words[..|words| - 1], wantSums) + UserKey(words[|words| - 1], wantSums)
  }

  lemma {:induction false} UserKeysKnown(words: seq<string>, wantSums: bool)
    ensures AllKnown(UserKeys(words, wantSums))
  {
    if words != [] {
      UserKeysKnown(words[..|words| - 1], wantSums);
    }
  }

  ghost function SortArg(keys: seq<Field>): Option<string>
    requires AllKnown(keys)
  {
    if keys == [] then None else Some(Format(keys))
  }

  /** parse_sort_key: the keys of the user's words, formatted for the server; no argument at all if there are none. */
  method ParseSortKey(key: string, wantSums: bool) returns (k: Option<string>)
    ensures AllKnown(UserKeys(Pieces(key, ","), wantSums))
    ensures k == SortArg(UserKeys(Pieces(key, ","), wantSums))
  {
    hide UserKeys, UserKey, SortArg, Pieces, Cut, AllKnown;
    k := None;
    var pos: Option<string> := Some(key);
    ghost var done: seq<string>, keys: seq<Field> := [], [];
    NoWords(key, wantSums);
    while pos.Some?
      invariant Pieces(key, ",") == done + (if pos.Some? then Pieces(pos.value, ",") else [])
      invariant AllKnown(keys) && keys == UserKeys(done, wantSums) && k == SortArg(keys)
      decreases if pos.Some? then |pos.value| + 1 else 0
    {
      CutShrinks(pos.value, ",");
      var (word, more) := Cut(pos.value, ",");
      NextWord(done, pos.value, wantSums);
      pos := more;
      done := done + [word];
      var isRate := '/' in word || !wantSums;
      var w := SkipSpace(word);
      UserKeyIs(word, wantSums, keys);
      keys := keys + UserKey(word, wantSums);
      if w == "" {
        continue;
      }
      var one := [if isRate then 'r' else 's', DigitChar(StatOf(w))];
      k := Some(if k == None then one else k.value + "," + one);
    }
    assert done + [] == done;
  }

  lemma NoWords(key: string, wantSums: bool)
    ensures Pieces(key, ",") == [] + Pieces(key, ",") && UserKeys([], wantSums) == [] && AllKnown([])
    ensures SortArg([]) == None
  {
  }

  lemma NextWord(done: seq<string>, s: string, wantSums: bool)
    ensures var (word, more) := Cut(s, ",");
      && done + Pieces(s, ",") == done + [word] + (if more.Some? then Pieces(more.value, ",") else [])
      && UserKeys(done + [word], wantSums) == UserKeys(done, wantSums) + UserKey(word, wantSums)
  {
    CutShrinks(s, ",");
    var word := Cut(s, ",").0;
    assert (done + [word])[..|done|] == done;
  }

  lemma UserKeyIs(word: string, wantSums: bool, keys: seq<Field>)
    requires AllKnown(keys)
    ensures var w, more := SkipSpace(word), UserKey(word, wantSums);
      && AllKnown(keys + more)
      && (w == "" ==> keys + more == keys)
      && (w != "" ==>
            var one := [if '/' in word || !wantSums then 'r' else 's', DigitChar(StatOf(w))];
            SortArg(keys + more) == Some(if SortArg(keys) == None then one else SortArg(keys).value + "," + one))
  {
    var w := SkipSpace(word);
    if w != "" {
      FormatMore(keys, UserKey(word, wantSums)[0]);
    }
  }

  lemma FormatMore(keys: seq<Field>, f: Field)
    requires AllKnown(keys) && Known(f)
    ensures Format(keys + [f]) == if keys == [] then Word(f) else Format(keys) + "," + Word(f)
  {
    assert (keys + [f])[..|keys|] == keys;
  }
}
