/** How top queries compare pairs (src/k_heap.c, k_top_cmp): by a list of counters, the first difference deciding. */
module Ordering {
  import opened Ewma
  import opened XNodes

  /** A number of a k_node that results can be sorted by. */
  datatype Field = Pending(i: nat) | Rate(i: nat) | Sum(i: nat) | Time

  /** One entry of t_spec: the offset of a field, or an offset beyond the node, which ends the list. */
  datatype Slot = Key(field: Field) | End

  const SPEC_LEN: nat := 3 * NR_STATS + 1

  predicate Known(f: Field) {
    f.Time? || f.i < NR_STATS
  }

  /** t_spec: every slot names a field or ends the list. */
  type Spec = s: seq<Slot> | forall i :: 0 <= i < |s| && s[i].Key? ==> Known(s[i].field) witness []

  function Value(f: Flow, field: Field): real
    requires Known(field)
  {
    match field
    case Pending(i) => f.pending[i]
    case Rate(i) => f.rate[i]
    case Sum(i) => f.sum[i]
    case Time => f.t
  }

  /** The keys in force: everything before the first End. */
  function Keys(s: Spec): (r: seq<Field>)
    ensures forall i :: 0 <= i < |r| ==> Known(r[i])
  {
    if s == [] || s[0].End? then [] else [s[0].field] + Keys(s[1..])
  }

  function Compare(keys: seq<Field>, a: Flow, b: Flow): int
    requires forall i :: 0 <= i < |keys| ==> Known(keys[i])
  {
    if keys == [] then 0
    else if Value(a, keys[0]) < Value(b, keys[0]) then -1
    else if Value(b, keys[0]) < Value(a, keys[0]) then 1
    else Compare(keys[1..], a, b)
  }

  function Cmp(s: Spec, a: Flow, b: Flow): int {
    Compare(Keys(s), a, b)
  }

  ghost predicate AgreeOn(keys: seq<Field>, a: Flow, b: Flow)
    requires forall i :: 0 <= i < |keys| ==> Known(keys[i])
  {
    forall i :: 0 <= i < |keys| ==> Value(a, keys[i]) == Value(b, keys[i])
  }

  /** The comparison is lexicographic: it says "less" exactly if the first key on which the two differ is less. */
  lemma {:induction false} LessMeans(keys: seq<Field>, a: Flow, b: Flow)
    requires forall i :: 0 <= i < |keys| ==> Known(keys[i])
    ensures Compare(keys, a, b) < 0 <==>
      exists i :: 0 <= i < |keys| && AgreeOn(keys[..i], a, b) && Value(a, keys[i]) < Value(b, keys[i])
    ensures Compare(keys, a, b) == 0 <==> AgreeOn(keys, a, b)
    ensures Compare(keys, a, b) == -Compare(keys, b, a)
  {
    if keys != [] {
      LessMeans(keys[1..], a, b);
      var v, w := Value(a, keys[0]), Value(b, keys[0]);
      if v < w {
        assert AgreeOn(keys[..0], a, b);
      }
      if v == w && Compare(keys, a, b) < 0 {
        var i :| 0 <= i < |keys[1..]| && AgreeOn(keys[1..][..i], a, b) &&
          Value(a, keys[1..][i]) < Value(b, keys[1..][i]);
        assert keys[..i + 1] == [keys[0]] + keys[1..][..i];
        assert AgreeOn(keys[..i + 1], a, b);
      }
      if i :| 0 <= i < |keys| && AgreeOn(keys[..i], a, b) && Value(a, keys[i]) < Value(b, keys[i]) {
        if i > 0 {
          assert keys[..i][0] == keys[0] && v == w;
          assert keys[1..][..i - 1] == keys[..i][1..];
          assert AgreeOn(keys[1..][..i - 1], a, b);
          assert keys[1..][i - 1] == keys[i];
        }
      }
      if AgreeOn(keys, a, b) {
        assert Value(a, keys[0]) == Value(b, keys[0]);
      }
    }
  }

  /** One key, in terms of the node's numbers. */
  lemma OneKey(a: Flow, b: Flow, i: nat)
    requires i < NR_STATS
    ensures Compare([Rate(i)], a, b) == if a.rate[i] < b.rate[i] then -1 else if b.rate[i] < a.rate[i] then 1 else 0
    ensures Compare([Sum(i)], a, b) == if a.sum[i] < b.sum[i] then -1 else if b.sum[i] < a.sum[i] then 1 else 0
    ensures Compare([Pending(i)], a, b) ==
      if a.pending[i] < b.pending[i] then -1 else if b.pending[i] < a.pending[i] then 1 else 0
    ensures Compare([Time], a, b) == if a.t < b.t then -1 else if b.t < a.t then 1 else 0
  {
  }

  /** A total preorder: what the heap needs. */
  lemma {:induction false} CmpTrans(s: Spec, a: Flow, b: Flow, c: Flow)
    requires Cmp(s, a, b) <= 0 && Cmp(s, b, c) <= 0
    ensures Cmp(s, a, c) <= 0
  {
    CompareTrans(Keys(s), a, b, c);
  }

  lemma {:induction false} CompareTrans(keys: seq<Field>, a: Flow, b: Flow, c: Flow)
    requires forall i :: 0 <= i < |keys| ==> Known(keys[i])
    requires Compare(keys, a, b) <= 0 && Compare(keys, b, c) <= 0
    ensures Compare(keys, a, c) <= 0
  {
    if keys != [] && Value(a, keys[0]) == Value(b, keys[0]) == Value(c, keys[0]) {
      CompareTrans(keys[1..], a, b, c);
    }
  }

  lemma {:induction false} CmpTotal(s: Spec, a: Flow, b: Flow)
    ensures Cmp(s, a, b) == -Cmp(s, b, a) && Cmp(s, a, a) == 0
  {
    LessMeans(Keys(s), a, b);
    LessMeans(Keys(s), a, a);
  }

  lemma {:induction false} KeysFrom(s: Spec, i: nat)
    requires i < |s| && forall j :: 0 <= j < i ==> s[j].Key?
    ensures |Keys(s)| >= i && (s[i].End? ==> |Keys(s)| == i)
    ensures s[i].Key? ==> |Keys(s)| > i && Keys(s)[i] == s[i].field
  {
    if i > 0 {
      KeysFrom(s[1..], i - 1);
    }
  }

  lemma {:induction false} CompareSkip(keys: seq<Field>, i: nat, a: Flow, b: Flow)
    requires forall j :: 0 <= j < |keys| ==> Known(keys[j])
    requires i <= |keys| && AgreeOn(keys[..i], a, b)
    ensures Compare(keys, a, b) == Compare(keys[i..], a, b)
  {
    if i > 0 {
      assert keys[..i][0] == keys[0];
      assert AgreeOn(keys[1..][..i - 1], a, b) by {
        assert keys[..i] == [keys[0]] + keys[1..][..i - 1];
        assert keys[..i][1..] == keys[1..][..i - 1];
      }
      CompareSkip(keys[1..], i - 1, a, b);
      assert keys[1..][i - 1..] == keys[i..];
    }
  }

  /** k_top_cmp */
  method KTopCmp(spec: Spec, k0: KNode, k1: KNode) returns (c: int)
    ensures c == Cmp(spec, k0.flow, k1.flow)
  {
    ghost var keys, a, b := Keys(spec), k0.flow, k1.flow;
    for i := 0 to |spec|
      invariant forall j :: 0 <= j < i ==> spec[j].Key?
      invariant i <= |keys| && AgreeOn(keys[..i], a, b)
    {
      KeysFrom(spec, i);
      CompareSkip(keys, i, a, b);
      if spec[i].End? {
        return 0;
      }
      var v0, v1 := Value(k0.flow, spec[i].field), Value(k1.flow, spec[i].field);
      if v0 < v1 {
        return -1;
      }
      if v1 < v0 {
        return 1;
      }
      assert keys[..i + 1] == keys[..i] + [keys[i]];
    }
    CompareSkip(keys, |spec|, a, b);
    AllKeys(spec);
    return 0;
  }

  lemma {:induction false} AllKeys(s: Spec)
    ensures |Keys(s)| <= |s|
  {
    if s != [] && s[0].Key? {
      AllKeys(s[1..]);
    }
  }
}
