/** What a cycle of the collector reads (collect_all, src/servd.c), place by place: by directory, target and client,
    without reference to how the loops collect it. */
module Places {
  import opened Basics
  import opened Ewma
  import opened Readings

  /** Client number c of target number i below top directory number k. */
  datatype Place = Place(k: nat, i: nat, c: nat)

  /** The order in which collect_all goes. */
  predicate Before(p: Place, q: Place) {
    p.k < q.k || (p.k == q.k && (p.i < q.i || (p.i == q.i && p.c < q.c)))
  }

  /** There is a client there, and it could be read. */
  predicate Shows(w: World, p: Place) {
    && p.k < 3 && w[p.k].Some? && p.i < |w[p.k].value|
    && w[p.k].value[p.i].exports.Some? && p.c < |w[p.k].value[p.i].exports.value|
    && w[p.k].value[p.i].exports.value[p.c].reading.Some?
  }

  /** r is what it shows: that target's, that client's, those counters. */
  ghost predicate Tells<T>(w: World, hash: map<string, T>, p: Place, r: Reading<T>)
    requires Shows(w, p)
  {
    var e := w[p.k].value[p.i];
    var client := e.exports.value[p.c];
    e.name in hash && r == Reading(hash[e.name], client.nid, client.reading.value)
  }

  /** `more` is exactly what is shown at the places before b, which are `at`, in order. */
  ghost predicate ReadUpTo<T>(w: World, hash: map<string, T>, more: seq<Reading<T>>, at: seq<Place>, b: Place) {
    && |at| == |more|
    && (forall n :: 0 <= n < |at| ==> Shows(w, at[n]) && Before(at[n], b) && Tells(w, hash, at[n], more[n]))
    && (forall m, n :: 0 <= m < n < |at| ==> Before(at[m], at[n]))
    && forall p :: Shows(w, p) && Before(p, b) ==> p in at
  }

  /** `more` has exactly one reading for each client of each target of each of the three directories that could be read,
      in the order of directories, targets and clients. */
  ghost predicate AllRead<T>(w: World, hash: map<string, T>, more: seq<Reading<T>>) {
    exists at :: ReadUpTo(w, hash, more, at, Place(3, 0, 0))
  }

  /** Nothing is shown between b and the next place. */
  lemma Nothing<T>(w: World, hash: map<string, T>, more: seq<Reading<T>>, at: seq<Place>, b: Place, b': Place)
    requires ReadUpTo(w, hash, more, at, b) && Before(b, b')
    requires forall p :: Shows(w, p) && Before(p, b') ==> Before(p, b)
    ensures ReadUpTo(w, hash, more, at, b')
  {
    hide Shows, Tells;
  }

  /** One more reading. */
  lemma OneRead<T>(w: World, hash: map<string, T>, more: seq<Reading<T>>, at: seq<Place>, b: Place, b': Place,
                   r: Reading<T>)
    requires ReadUpTo(w, hash, more, at, b) && Shows(w, b) && Tells(w, hash, b, r) && Before(b, b')
    requires forall p :: Shows(w, p) && Before(p, b') ==> Before(p, b) || p == b
    ensures ReadUpTo(w, hash, more + [r], at + [b], b')
  {
    hide Shows, Tells;
    forall p | Shows(w, p) && Before(p, b') ensures p in at + [b] {
      assert (at + [b])[|at|] == b;
    }
  }

  /** The clients of one target, from number c on. */
  lemma {:induction false} ClientsRead<T>(w: World, hash: map<string, T>, more: seq<Reading<T>>, at: seq<Place>, k: nat,
                                          i: nat, c: nat) returns (at': seq<Place>)
    requires k < 3 && w[k].Some? && i < |w[k].value| && w[k].value[i].exports.Some? && w[k].value[i].name in hash
    requires c <= |w[k].value[i].exports.value| && ReadUpTo(w, hash, more, at, Place(k, i, 0))
    ensures var e := w[k].value[i];
      ReadUpTo(w, hash, more + ReadingsOf(hash[e.name], e.exports.value[..c]), at', Place(k, i, c))
  {
    var l, cs := hash[w[k].value[i].name], w[k].value[i].exports.value;
    if c == 0 {
      at' := at;
      assert more + ReadingsOf(l, cs[..0]) == more;
    } else {
      at' := ClientsRead(w, hash, more, at, k, i, c - 1);
      OneMoreReading(l, cs, c - 1);
      var before, b, b' := more + ReadingsOf(l, cs[..c - 1]), Place(k, i, c - 1), Place(k, i, c);
      NextClient(w, b, b');
      if cs[c - 1].reading.Some? {
        var r := Reading(l, cs[c - 1].nid, cs[c - 1].reading.value);
        OneRead(w, hash, before, at', b, b', r);
        at' := at' + [b];
        assert before + [r] == more + ReadingsOf(l, cs[..c]);
      } else {
        Nothing(w, hash, before, at', b, b');
        assert before == more + ReadingsOf(l, cs[..c]);
      }
    }
  }

  lemma NextClient(w: World, b: Place, b': Place)
    requires b' == b.(c := b.c + 1)
    ensures Before(b, b') && forall p :: Shows(w, p) && Before(p, b') ==> Before(p, b) || p == b
    ensures !Shows(w, b) ==> forall p :: Shows(w, p) && Before(p, b') ==> Before(p, b)
  {
    hide Shows;
  }

  /** Target number i. */
  lemma TargetRead<T>(w: World, hash: map<string, T>, more: seq<Reading<T>>, at: seq<Place>, k: nat, i: nat)
    returns (at': seq<Place>)
    requires k < 3 && w[k].Some? && i < |w[k].value| && ReadUpTo(w, hash, more, at, Place(k, i, 0))
    requires w[k].value[i].exports.Some? ==> w[k].value[i].name in hash
    ensures ReadUpTo(w, hash, more + ReadingsIn(hash, w[k].value[i]), at', Place(k, i + 1, 0))
  {
    var e := w[k].value[i];
    if e.exports.Some? {
      var c := |e.exports.value|;
      assert e.exports.value[..c] == e.exports.value;
      NextTarget(w, Place(k, i, c), Place(k, i + 1, 0));
      hide ReadUpTo, Shows, Before;
      at' := ClientsRead(w, hash, more, at, k, i, c);
      Nothing(w, hash, more + ReadingsIn(hash, e), at', Place(k, i, c), Place(k, i + 1, 0));
    } else {
      at' := at;
      assert more + [] == more;
      NextTarget(w, Place(k, i, 0), Place(k, i + 1, 0));
      hide ReadUpTo, Shows, Before;
      Nothing(w, hash, more, at', Place(k, i, 0), Place(k, i + 1, 0));
    }
  }

  /** The targets of one directory, up to number i. */
  lemma {:induction false} TargetsRead<T>(w: World, hash: map<string, T>, more: seq<Reading<T>>, at: seq<Place>, k: nat,
                                          i: nat) returns (at': seq<Place>)
    requires k < 3 && w[k].Some? && i <= |w[k].value| && ReadUpTo(w, hash, more, at, Place(k, 0, 0))
    requires forall j :: 0 <= j < |w[k].value| && w[k].value[j].exports.Some? ==> w[k].value[j].name in hash
    ensures ReadUpTo(w, hash, more + Heard(hash, w[k].value[..i]), at', Place(k, i, 0))
  {
    var es := w[k].value;
    if i == 0 {
      at' := at;
      assert more + Heard(hash, es[..0]) == more;
    } else {
      at' := TargetsRead(w, hash, more, at, k, i - 1);
      HeardOneMore(hash, es, i - 1);
      at' := TargetRead(w, hash, more + Heard(hash, es[..i - 1]), at', k, i - 1);
      Assoc(more, Heard(hash, es[..i - 1]), ReadingsIn(hash, es[i - 1]));
    }
    hide ReadUpTo, ReadingsIn, Heard;
  }

  lemma NextTarget(w: World, b: Place, b': Place)
    requires b' == Place(b.k, b.i + 1, 0) && b.k < 3 && w[b.k].Some? && b.i < |w[b.k].value|
    requires var e := w[b.k].value[b.i]; e.exports.Some? ==> b.c >= |e.exports.value|
    ensures Before(b, b') && forall p :: Shows(w, p) && Before(p, b') ==> Before(p, b)
  {
  }

  lemma NextDir(w: World, b: Place, b': Place)
    requires b' == Place(b.k + 1, 0, 0) && b.k < 3 && (w[b.k].Some? ==> b.i >= |w[b.k].value|)
    ensures Before(b, b') && forall p :: Shows(w, p) && Before(p, b') ==> Before(p, b)
  {
  }

  /** The first k directories. */
  lemma {:induction false} DirsRead<T>(w: World, hash: map<string, T>, k: nat) returns (at: seq<Place>)
    requires k <= 3
    requires forall d, j :: 0 <= d < 3 && w[d].Some? && 0 <= j < |w[d].value| && w[d].value[j].exports.Some? ==>
      w[d].value[j].name in hash
    ensures ReadUpTo(w, hash, Heard(hash, EntriesUpTo(w, k)), at, Place(k, 0, 0))
  {
    if k == 0 {
      at := [];
    } else {
      at := DirsRead(w, hash, k - 1);
      var before := Heard(hash, EntriesUpTo(w, k - 1));
      if w[k - 1].Some? {
        var es := w[k - 1].value;
        at := TargetsRead(w, hash, before, at, k - 1, |es|);
        assert es[..|es|] == es;
        HeardAppend(hash, EntriesUpTo(w, k - 1), es);
        NextDir(w, Place(k - 1, |es|, 0), Place(k, 0, 0));
        Nothing(w, hash, before + Heard(hash, es), at, Place(k - 1, |es|, 0), Place(k, 0, 0));
      } else {
        assert EntriesUpTo(w, k - 1) + [] == EntriesUpTo(w, k - 1);
        NextDir(w, Place(k - 1, 0, 0), Place(k, 0, 0));
        Nothing(w, hash, before, at, Place(k - 1, 0, 0), Place(k, 0, 0));
      }
    }
  }

  // ---------- which targets there are ----------

  /** Target number i below top directory number k has that name. */
  predicate TargetAt(w: World, k: nat, i: nat, name: string) {
    k < 3 && w[k].Some? && i < |w[k].value| && w[k].value[i].name == name
  }

  ghost predicate Found(w: World, name: string) {
    exists k: nat, i: nat :: TargetAt(w, k, i, name)
  }

  /** Somewhere a target of that name could be read. */
  ghost predicate Readable(w: World, name: string) {
    exists k: nat, i: nat :: TargetAt(w, k, i, name) && w[k].value[i].exports.Some?
  }

  /** Directory number k is the first with a target of that name. */
  ghost predicate FirstIn(w: World, name: string, k: nat) {
    (exists i: nat :: TargetAt(w, k, i, name)) && forall d: nat, i: nat :: d < k ==> !TargetAt(w, d, i, name)
  }

  lemma {:induction false} EntryAt(w: World, n: nat, e: Entry)
    requires n <= 3
    ensures e in EntriesUpTo(w, n) <==>
      exists k: nat, i: nat :: k < n && TargetAt(w, k, i, e.name) && w[k].value[i] == e
  {
    if n > 0 {
      EntryAt(w, n - 1, e);
      if w[n - 1].Some? && e in w[n - 1].value {
        var i: nat :| i < |w[n - 1].value| && w[n - 1].value[i] == e;
        assert TargetAt(w, n - 1, i, e.name);
      }
    }
  }

  /** A cycle hears exactly that. */
  lemma CycleRead<T>(w: World, hash: map<string, T>)
    requires forall n :: Readable(w, n) ==> n in hash
    ensures AllRead(w, hash, Heard(hash, Entries(w)))
  {
    forall d, j | 0 <= d < 3 && w[d].Some? && 0 <= j < |w[d].value| && w[d].value[j].exports.Some?
      ensures w[d].value[j].name in hash
    {
      assert TargetAt(w, d, j, w[d].value[j].name);
      assert Readable(w, w[d].value[j].name);
    }
    var at := DirsRead(w, hash, 3);
    hide ReadUpTo, Heard, EntriesUpTo;
  }

  /** The targets kept are those that could be read somewhere, and those found for the first time. */
  lemma SurvivorsAre(known: set<string>, w: World, name: string)
    ensures name in Names(Entries(w)) <==> Found(w, name)
    ensures name in Survivors(known, Entries(w)) <==> Readable(w, name) || (Found(w, name) && name !in known)
  {
    forall e ensures e in Entries(w) <==> exists k: nat, i: nat :: TargetAt(w, k, i, e.name) && w[k].value[i] == e {
      EntryAt(w, 3, e);
    }
    hide EntriesUpTo, Entries;
    var es := Entries(w);
    if name in Names(es) {
      var i :| 0 <= i < |es| && es[i].name == name;
      assert es[i] in es;
    }
    if k: nat, i: nat :| TargetAt(w, k, i, name) {
      assert w[k].value[i] in es;
    }
    if i :| 0 <= i < |es| && es[i].name == name && es[i].exports.Some? {
      assert es[i] in es;
    }
    if k: nat, i: nat :| TargetAt(w, k, i, name) && w[k].value[i].exports.Some? {
      assert w[k].value[i] in es;
    }
  }

  /** The targets after a cycle, in terms of what it shows. */
  ghost predicate Keeps(w: World, known: set<string>, names: set<string>) {
    forall name :: name in names <==> Readable(w, name) || (Found(w, name) && name !in known)
  }

  /** All that a cycle reads and keeps. */
  lemma CycleMeans<T>(w: World, known: set<string>, hash: map<string, T>)
    requires hash.Keys == Survivors(known, Entries(w))
    ensures Keeps(w, known, hash.Keys) && AllRead(w, hash, Heard(hash, Entries(w)))
  {
    forall name ensures name in hash <==> Readable(w, name) || (Found(w, name) && name !in known) {
      SurvivorsAre(known, w, name);
    }
    hide Readable, Found, AllRead, Survivors;
    CycleRead(w, hash);
  }
}
