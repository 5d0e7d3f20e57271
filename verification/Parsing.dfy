/** query_parse (src/query.c) in place: strsep puts NULs into the string and q_decode shortens what is between them. The
    fields it finds are those that module Queries says, and they stay where they are found. */
module Parsing {
  import opened Basics
  import opened Strings
  import opened Queries
  import opened RoundTrips

  /** The C string at i. */
  function StrAt(m: string, i: nat): string
    requires i <= |m|
  {
    CString(m[i..])
  }

  /** Memory that ends with a NUL. */
  ghost predicate Ends(m: string) {
    m != "" && m[|m| - 1] == '\0'
  }

  lemma {:induction false} CStringUpTo(t: string, rest: string)
    ensures CString(t + "\0" + rest) == CString(t)
  {
    var s := t + "\0" + rest;
    if t == "" {
      assert s[0] == '\0';
    } else {
      assert s[1..] == t[1..] + "\0" + rest;
      CStringUpTo(t[1..], rest);
    }
  }

  lemma {:induction false} CStringEnds(s: string)
    ensures var t := CString(s); |t| <= |s| && s[..|t|] == t && NoNul(t) && (|t| < |s| ==> s[|t|] == '\0')
  {
    if s != "" && s[0] != '\0' {
      CStringEnds(s[1..]);
    }
  }

  /** What lies between i and a NUL at j, as a C string. */
  lemma StrUpTo(m: string, i: nat, j: nat)
    requires i <= j < |m| && m[j] == '\0'
    ensures StrAt(m, i) == CString(m[i..j]) && (NoNul(m[i..j]) ==> StrAt(m, i) == m[i..j])
  {
    assert m[i..] == m[i..j] + "\0" + m[j + 1..];
    CStringUpTo(m[i..j], m[j + 1..]);
    if NoNul(m[i..j]) {
      CStringAll(m[i..j]);
    }
  }

  /** Where a C string ends. */
  lemma StrEnds(m: string, i: nat)
    requires Ends(m) && i < |m|
    ensures var t := StrAt(m, i); i + |t| < |m| && m[i..i + |t|] == t && NoNul(t) && m[i + |t|] == '\0'
  {
    var t := StrAt(m, i);
    CStringEnds(m[i..]);
    assert m[i..][|m| - 1 - i] == '\0';
  }

  /** Changes from w on leave the strings before. */
  lemma StrKept(m: string, m': string, i: nat, w: nat)
    requires Ends(m) && i <= w < |m| == |m'| && m[..w] == m'[..w]
    requires i + |StrAt(m, i)| < w || (i + |StrAt(m, i)| == w && m'[w] == '\0')
    ensures StrAt(m', i) == StrAt(m, i)
  {
    StrEnds(m, i);
    var e := i + |StrAt(m, i)|;
    assert forall k :: 0 <= k < w ==> m[k] == m[..w][k] == m'[..w][k] == m'[k];
    assert m'[i..e] == m[i..e];
    StrUpTo(m', i, e);
  }

  /** Changes before w leave the strings from there on. */
  lemma StrFrom(m: string, m': string, i: nat, w: nat)
    requires w <= i <= |m| == |m'| && m[w..] == m'[w..]
    ensures StrAt(m', i) == StrAt(m, i)
  {
    assert m[i..] == m[w..][i - w..] && m'[i..] == m'[w..][i - w..];
  }

  // ---------- q_decode ----------

  /** Wherever q_decode starts, its string is decoded. It does not see the end of an empty string: then it is the string
      after that which is decoded. */
  ghost predicate Decoded(m: string, v: nat, m': string)
    requires Ends(m) && v + 1 < |m| == |m'|
  {
    var w := if m[v] == '\0' then v + 1 else v;
    && w + |StrAt(m, w)| < |m|
    && m'[..v] == m[..v] && (m[v] == '\0' ==> m'[v] == '\0')
    && StrAt(m', w) == CString(Decode(StrAt(m, w)).0)
    && m'[w + |StrAt(m, w)|..] == m[w + |StrAt(m, w)|..]
  }

  /** An empty string and what follows its NUL, read as one: the NUL stays, and the rest is decoded. */
  lemma OverrunDecodes(more: string)
    ensures Decode("\0" + more) == ("\0" + Decode(more).0, Decode(more).1)
  {
    DecodeStep("\0" + more);
    assert ("\0" + more)[1..] == more;
  }

  lemma DecodedIs(m: string, v: nat, end: nat, stop: nat, m': string)
    requires Ends(m) && v + 1 < |m| == |m'| && v < end < |m| && m[end] == '\0' && NoNul(m[v + 1..end])
    requires v <= stop <= end && m'[stop] == '\0' && m'[v..stop] == Decode(m[v..end]).0
    requires m'[..v] == m[..v] && m'[end..] == m[end..]
    ensures Decoded(m, v, m')
  {
    if m[v] == '\0' {
      var more := m[v + 1..end];
      StrUpTo(m, v + 1, end);
      assert m[v..end] == "\0" + more;
      OverrunDecodes(more);
      hide Decode, CString;
      assert m'[v..stop] == "\0" + Decode(more).0;
      assert stop > v && m'[v] == m'[v..stop][0] == '\0';
      assert m'[v + 1..stop] == m'[v..stop][1..] == Decode(more).0;
      StrUpTo(m', v + 1, stop);
    } else {
      assert NoNul(m[v..end]) by {
        forall i | 0 <= i < end - v ensures m[v..end][i] != '\0' {
          assert i > 0 ==> m[v..end][i] == m[v + 1..end][i - 1];
        }
      }
      StrUpTo(m, v, end);
      StrUpTo(m', v, stop);
    }
  }

  lemma NextNul(m: string, v: nat) returns (end: nat)
    requires Ends(m) && v + 1 < |m|
    ensures v < end < |m| && m[end] == '\0' && NoNul(m[v + 1..end])
    ensures forall i :: v < i < end ==> m[i] != '\0'
  {
    StrEnds(m, v + 1);
    end := v + 1 + |StrAt(m, v + 1)|;
    assert forall i :: v < i < end ==> m[i] == m[v + 1..end][i - (v + 1)];
  }

  method DecodeAt(a: array<char>, v: nat)
    requires Ends(a[..]) && v + 1 < a.Length
    modifies a
    ensures Ends(a[..]) && Decoded(old(a[..]), v, a[..])
  {
    ghost var m := a[..];
    ghost var end := NextNul(m, v);
    assert forall i :: 0 <= i < a.Length ==> a[i] == m[i];
    var ok, stop := QDecode(a, v, end);
    assert a[..v] == m[..v] && a[end..] == m[end..] && a[v..stop] == Decode(m[v..end]).0 by {
      assert m[..v] == old(a[..v]) && m[end..] == old(a[end..]) && m[v..end] == old(a[v..end]);
    }
    ghost var m' := a[..];
    assert m'[..v] == a[..v] && m'[end..] == a[end..] && m'[v..stop] == a[v..stop];
    assert m'[end..][|m| - 1 - end] == m[end..][|m| - 1 - end];
    DecodedIs(m, v, end, stop, m');
  }

  // ---------- strsep ----------

  /** strsep ends the string at i at the first separator, and goes on after it. */
  ghost predicate Separated(m: string, i: nat, seps: string, m': string, next: Option<nat>)
    requires Ends(m) && i < |m|
  {
    var q := StrAt(m, i);
    var (t, more) := Cut(q, seps);
    var k := i + |t|;
    && |m'| == |m| && Ends(m') && k < |m| && m'[..k] == m[..k] && m'[k] == '\0' && m'[k + 1..] == m[k + 1..]
    && StrAt(m', i) == t && (more == None <==> next == None) && (more == None ==> m' == m && |t| == |q|)
    && (more.Some? ==>
          next == Some(k + 1) && k + 1 < |m| && StrAt(m', k + 1) == more.value && |t| + 1 + |more.value| == |q|)
  }

  /** The string at i, cut at a separator at k. */
  lemma CutsAt(m: string, i: nat, seps: string, k: nat)
    requires Ends(m) && i <= k < |m| && Free(m[i..k], seps) && NoNul(m[i..k]) && m[k] != '\0' && m[k] in seps
    ensures k + 1 < |m| && Cut(StrAt(m, i), seps) == (m[i..k], Some(StrAt(m, k + 1)))
    ensures |StrAt(m, i)| == k - i + 1 + |StrAt(m, k + 1)|
  {
    StrEnds(m, k + 1);
    var t, more := m[i..k], StrAt(m, k + 1);
    var e := k + 1 + |more|;
    assert m[i..e] == t + [m[k]] + more;
    assert NoNul(m[i..e]);
    StrUpTo(m, i, e);
    CutAt(t, m[k], more, seps);
  }

  lemma SeparatedIs(m: string, i: nat, seps: string, k: nat, m': string)
    requires Ends(m) && i <= k < |m| && '\0' !in seps && Free(m[i..k], seps) && NoNul(m[i..k])
    requires m[k] == '\0' || m[k] in seps
    requires m' == m[k := '\0']
    ensures Separated(m, i, seps, m', if m[k] == '\0' then None else Some(k + 1))
  {
    var t := m[i..k];
    assert m'[i..k] == t && m'[..k] == m[..k] && m'[k + 1..] == m[k + 1..];
    StrUpTo(m', i, k);
    if m[k] == '\0' {
      StrUpTo(m, i, k);
      CutNot(t, seps);
      assert m' == m;
    } else {
      CutsAt(m, i, seps, k);
      StrFrom(m, m', k + 1, k + 1);
    }
    hide Cut, StrAt;
  }

  /** strsep */
  method StrSep(a: array<char>, i: nat, seps: string) returns (next: Option<nat>)
    requires Ends(a[..]) && i < a.Length && '\0' !in seps
    modifies a
    ensures Ends(a[..]) && Separated(old(a[..]), i, seps, a[..], next)
  {
    ghost var m := a[..];
    var k := i;
    while a[k] != '\0' && a[k] !in seps
      invariant i <= k < a.Length && a[..] == m && Free(m[i..k], seps) && NoNul(m[i..k])
      decreases a.Length - k
    {
      assert m[i..k + 1] == m[i..k] + [a[k]];
      k := k + 1;
    }
    next := if a[k] == '\0' then None else Some(k + 1);
    a[k] := '\0';
    SeparatedIs(m, i, seps, k, a[..]);
  }

  /** strlen */
  method StrLen(a: array<char>, i: nat) returns (n: nat)
    requires Ends(a[..]) && i < a.Length
    ensures n == |StrAt(a[..], i)|
  {
    ghost var m := a[..];
    n := 0;
    while a[i + n] != '\0'
      invariant i + n < a.Length && NoNul(m[i..i + n])
      decreases a.Length - n
    {
      assert m[i..i + n + 1] == m[i..i + n] + [a[i + n]];
      n := n + 1;
    }
    StrUpTo(m, i, i + n);
  }

  // ---------- one piece ----------

  /** There is memory behind the string at i. */
  ghost predicate Gap(m: string, i: nat)
    requires i <= |m|
  {
    i + |StrAt(m, i)| < |m| - 1
  }

  /** The C string t lies between i and `end`. */
  ghost predicate Within(m: string, i: nat, t: string, end: nat) {
    i <= |m| && StrAt(m, i) == t && i + |t| <= end
  }

  /** What one round of query_parse's loop leaves: the field found, in place, and where to go on. */
  ghost predicate Taken(m: string, s: nat, m': string, next: Option<nat>, f: Option<(nat, nat)>, past: bool)
    requires s <= |m|
  {
    var q := StrAt(m, s);
    var (piece, more) := Cut(q, "&;");
    var k := s + |piece|;
    && |m'| == |m| && m'[..s] == m[..s]
    && (past <==> Overruns(piece) && more == None && !Gap(m, s))
    && (next == None <==> more == None)
    && (!past ==> (f == None <==> FieldOf(piece) == None))
    && (!past && f.Some? ==>
          var (n, v) := f.value;
          s <= n <= v && Within(m', n, FieldOf(piece).value.name, k) && Within(m', v, FieldOf(piece).value.value, k))
    && (!past && next.Some? ==>
          && next.value == k + 1 && k + 1 < |m| && StrAt(m', k + 1) == Rest(piece, more).value
          && (Gap(m', k + 1) <==> Gap(m, s) || Gapes(piece, more)))
  }

  /** Both cuts: at the end of the piece, and between name and value. */
  ghost predicate CutTwice(m0: string, s: nat, m1: string, next: Option<nat>, m2: string, v: Option<nat>) {
    && Ends(m0) && s < |m0| && Separated(m0, s, "&;", m1, next)
    && Ends(m1) && s < |m1| && Separated(m1, s, "=", m2, v)
  }

  /** What the memory looks like then. */
  ghost predicate Laid(m: string, s: nat, name: string, value: Option<string>, k: nat, more: Option<string>) {
    var e := s + |name|;
    && Ends(m) && e <= k < |m| && m[k] == '\0' && StrAt(m, s) == name && m[e] == '\0' && NoNul(name)
    && (value == None ==> e == k)
    && (value.Some? ==> e + 1 + |value.value| == k && StrAt(m, e + 1) == value.value)
    && (more.Some? ==> k + 1 < |m| && StrAt(m, k + 1) == more.value)
  }

  lemma SeparatedLeaves(m: string, i: nat, seps: string, m': string, next: Option<nat>, t: string, more: Option<string>)
    requires Ends(m) && i < |m| && Separated(m, i, seps, m', next) && Cut(StrAt(m, i), seps) == (t, more)
    ensures |m'| == |m| && Ends(m') && i + |t| < |m| && m'[..i] == m[..i] && m'[i + |t|] == '\0'
    ensures StrAt(m', i) == t && NoNul(t)
    ensures forall j :: i + |t| < j < |m| ==> m'[j] == m[j] && StrAt(m', j) == StrAt(m, j)
    ensures more == None ==> next == None && m' == m && |t| == |StrAt(m, i)|
    ensures more.Some? ==> next == Some(i + |t| + 1) && i + |t| + 1 < |m| && StrAt(m', i + |t| + 1) == more.value
    ensures more.Some? ==> |t| + 1 + |more.value| == |StrAt(m, i)|
  {
    var k := i + |t|;
    assert m'[..i] == m'[..k][..i] == m[..k][..i] == m[..i];
    StrEnds(m', i);
    forall j | k < j < |m| ensures m'[j] == m[j] && StrAt(m', j) == StrAt(m, j) {
      assert m'[j] == m'[k + 1..][j - k - 1] == m[k + 1..][j - k - 1] == m[j];
      StrFrom(m, m', j, k + 1);
    }
  }

  lemma NamePrefix(piece: string, name: string, value: Option<string>)
    requires Cut(piece, "=") == (name, value)
    ensures |name| <= |piece| && (value == None ==> |name| == |piece|)
    ensures value.Some? ==> |name| + 1 + |value.value| == |piece|
  {
    CutParts(piece, "=");
  }

  lemma CutTwiceLays(m0: string, s: nat, m1: string, next: Option<nat>, m2: string, v: Option<nat>,
                     piece: string, more: Option<string>, name: string, value: Option<string>)
    requires CutTwice(m0, s, m1, next, m2, v)
    requires Cut(StrAt(m0, s), "&;") == (piece, more) && Cut(piece, "=") == (name, value)
    ensures Laid(m2, s, name, value, s + |piece|, more) && |m2| == |m0| && m2[..s] == m0[..s]
    ensures v == if value == None then None else Some(s + |name| + 1)
    ensures next == if more == None then None else Some(s + |piece| + 1)
    ensures more == None ==> (Gap(m0, s) <==> s + |piece| < |m2| - 1)
    ensures more.Some? ==> (Gap(m0, s) <==> Gap(m2, s + |piece| + 1))
  {
    hide Cut, StrAt, Separated, Ends;
    SeparatedLeaves(m0, s, "&;", m1, next, piece, more);
    SeparatedLeaves(m1, s, "=", m2, v, name, value);
    NamePrefix(piece, name, value);
  }

  /** What a C string becomes. */
  function Read(t: string): string {
    CString(Decode(t).0)
  }

  lemma ReadLength(t: string)
    requires NoNul(t)
    ensures |Read(t)| <= |t| && NoNul(Read(t)) && (|Read(t)| == |t| <==> '%' !in t)
  {
    ReadShrinks(t);
    CStringEnds(Decode(t).0);
    if '%' !in t {
      PlainLength(t);
    }
  }

  /** Every escape makes the string shorter. */
  lemma {:induction false} ReadShrinks(t: string)
    ensures |Read(t)| <= |Decode(t).0| <= |t| && ('%' in t ==> |Decode(t).0| < |t|)
    decreases |t|
  {
    CStringShrinks(Decode(t).0);
    DecodeEmpty();
    if t != "" {
      DecodeStep(t);
      ReadShrinks(t[1..]);
      if |t| >= 3 {
        ReadShrinks(t[3..]);
      }
    }
  }

  lemma DecodedLeaves(m: string, v: nat, m': string, w: nat)
    requires Ends(m) && v + 1 < |m| == |m'| && Decoded(m, v, m') && w == if m[v] == '\0' then v + 1 else v
    ensures w + |StrAt(m, w)| < |m| && Ends(m') && m'[..v] == m[..v] && (m[v] == '\0' ==> m'[v] == '\0')
    ensures StrAt(m', w) == Read(StrAt(m, w))
    ensures forall j :: w + |StrAt(m, w)| <= j < |m| ==> m'[j] == m[j] && StrAt(m', j) == StrAt(m, j)
    ensures forall i: nat :: i <= v && i + |StrAt(m, i)| < v ==> StrAt(m', i) == StrAt(m, i)
    ensures forall i: nat :: i <= v && i + |StrAt(m, i)| == v && m[v] == '\0' ==> StrAt(m', i) == StrAt(m, i)
  {
    var e := w + |StrAt(m, w)|;
    forall j | e <= j < |m| ensures m'[j] == m[j] && StrAt(m', j) == StrAt(m, j) {
      assert m'[j] == m'[e..][j - e] == m[e..][j - e] == m[j];
      StrFrom(m, m', j, e);
    }
    forall i: nat | i <= v && (i + |StrAt(m, i)| < v || (i + |StrAt(m, i)| == v && m[v] == '\0'))
      ensures StrAt(m', i) == StrAt(m, i)
    {
      StrKept(m, m', i, v);
    }
  }

  /** After the name is decoded. */
  lemma NameDecoded(m: string, s: nat, name: string, value: Option<string>, k: nat, more: Option<string>, m': string)
    requires Laid(m, s, name, value, k, more) && name != "" && s + 1 < |m| == |m'| && Decoded(m, s, m')
    ensures Ends(m') && m'[..s] == m[..s] && StrAt(m', s) == Read(name) && m'[k] == '\0'
    ensures s + |Read(name)| <= s + |name| <= k < |m'| && m'[s + |Read(name)|] == '\0'
    ensures value.Some? ==> s + |name| + 1 <= k && StrAt(m', s + |name| + 1) == value.value
    ensures more.Some? ==> k + 1 < |m'| && StrAt(m', k + 1) == more.value
  {
    StrEnds(m, s);
    assert m[s] != '\0' by {
      assert m[s] == m[s..s + |name|][0] == name[0];
    }
    hide StrAt;
    ReadLength(name);
    DecodedLeaves(m, s, m', s);
    StrEnds(m', s);
  }

  /** After a value that is decoded within the piece, or whose decoding stays there. */
  lemma ValueDecoded(m: string, s: nat, n: nat, v: nat, k: nat, more: Option<string>, m': string)
    requires Ends(m) && s + n <= v < k < |m| == |m'| && |StrAt(m, s)| == n && m[k] == '\0' && Decoded(m, v, m')
    requires s + n < v || m[v] == '\0'
    requires more.Some? ==> k + 1 < |m| && StrAt(m, k + 1) == more.value
    ensures Ends(m') && m'[..v] == m[..v] && StrAt(m', s) == StrAt(m, s)
    ensures StrAt(m', v) == if m[v] == '\0' then "" else Read(StrAt(m, v))
    ensures more.Some? ==> StrAt(m', k + 1) == more.value
  {
    var w := if m[v] == '\0' then v + 1 else v;
    DecodedLeaves(m, v, m', w);
    StrUpTo(m, w, k);
    CStringEnds(m[w..k]);
    if m[v] == '\0' {
      StrUpTo(m', v, v);
      assert m'[v..v] == "";
    }
    hide StrAt;
  }

  /** After an empty value at the end of the piece: what follows is decoded. */
  lemma ValueOverruns(m: string, s: nat, n: nat, k: nat, more: Option<string>, m': string)
    requires Ends(m) && s + n <= k && k + 1 < |m| == |m'| && |StrAt(m, s)| == n && m[k] == '\0' && Decoded(m, k, m')
    requires more.Some? ==> StrAt(m, k + 1) == more.value
    ensures Ends(m') && m'[..k] == m[..k] && StrAt(m', s) == StrAt(m, s) && StrAt(m', k) == ""
    ensures more.Some? ==> StrAt(m', k + 1) == Read(more.value)
    ensures more.Some? ==> (Gap(m', k + 1) <==> Gap(m, k + 1) || |Read(more.value)| < |more.value|)
  {
    DecodedLeaves(m, k, m', k + 1);
    StrUpTo(m', k, k);
    assert m'[k..k] == "";
    if more.Some? {
      StrEnds(m, k + 1);
      ReadLength(more.value);
    }
    hide StrAt;
  }

  lemma FieldIs(piece: string, name: string, value: Option<string>)
    requires Cut(piece, "=") == (name, value)
    ensures name == "" ==> FieldOf(piece) == None && !Overruns(piece)
    ensures name != "" ==>
      FieldOf(piece) == Some(Field(Read(name), if value == None || value.value == "" then "" else Read(value.value)))
    ensures name != "" ==> (Overruns(piece) <==> if value == None then '%' !in name else value.value == "")
  {
    DecodeEmpty();
  }

  lemma TakenField(m0: string, s: nat, piece: string, more: Option<string>, m': string, v: nat)
    requires s <= |m0| && Cut(StrAt(m0, s), "&;") == (piece, more) && FieldOf(piece).Some?
    requires !(Overruns(piece) && more == None && !Gap(m0, s))
    requires |m'| == |m0| && m'[..s] == m0[..s] && s <= v
    requires var f, k := FieldOf(piece).value, s + |piece|; Within(m', s, f.name, k) && Within(m', v, f.value, k)
    requires more.Some? ==> s + |piece| + 1 < |m0| && StrAt(m', s + |piece| + 1) == Rest(piece, more).value
    requires more.Some? ==> (Gap(m', s + |piece| + 1) <==> Gap(m0, s) || Gapes(piece, more))
    ensures Taken(m0, s, m', if more == None then None else Some(s + |piece| + 1), Some((s, v)), false)
  {
    hide Cut, StrAt, FieldOf, Overruns, Rest, Gapes, Gap, Within;
  }

  /** A piece without a field: it is empty, or its name is. */
  lemma TakenNothing(m0: string, s: nat, piece: string, more: Option<string>, m': string)
    requires s <= |m0| && Cut(StrAt(m0, s), "&;") == (piece, more) && FieldOf(piece) == None
    requires |m'| == |m0| && m'[..s] == m0[..s]
    requires more.Some? ==> s + |piece| + 1 < |m0| && StrAt(m', s + |piece| + 1) == more.value
    requires more.Some? ==> (Gap(m', s + |piece| + 1) <==> Gap(m0, s))
    ensures Taken(m0, s, m', if more == None then None else Some(s + |piece| + 1), None, false)
  {
    var (name, value) := Cut(piece, "=");
    FieldIs(piece, name, value);
    hide Cut, StrAt, FieldOf, Overruns, Gap, Within;
  }

  /** An empty value at the end of the string's memory. */
  lemma TakenPast(m0: string, s: nat, piece: string, m': string, next: Option<nat>, f: Option<(nat, nat)>)
    requires s <= |m0| && Cut(StrAt(m0, s), "&;") == (piece, None) && Overruns(piece) && !Gap(m0, s)
    requires |m'| == |m0| && m'[..s] == m0[..s]
    ensures Taken(m0, s, m', None, f, true)
  {
    hide Cut, StrAt, FieldOf, Overruns, Gap, Within;
  }

  lemma EmptyAt(m: string, i: nat)
    requires Ends(m) && i < |m|
    ensures m[i] == '\0' <==> StrAt(m, i) == ""
    ensures m[i] != '\0' ==> i + 1 < |m|
    ensures Cut("", "=") == ("", None)
  {
  }

  lemma LaidParts(m: string, s: nat, name: string, value: Option<string>, k: nat, more: Option<string>)
    requires Laid(m, s, name, value, k, more)
    ensures Ends(m) && s + |name| <= k < |m| && StrAt(m, s) == name && NoNul(name)
    ensures value == None ==> s + |name| == k
    ensures value.Some? ==> s + |name| + 1 + |value.value| == k
    ensures more.Some? ==> k + 1 < |m| && StrAt(m, k + 1) == more.value
  {
  }

  /** The value overruns exactly if it is at the end of the piece. */
  lemma OverrunsAt(s: nat, piece: string, name: string, value: Option<string>, v: nat)
    requires Cut(piece, "=") == (name, value) && name != "" && NoNul(name)
    requires v == if value == None then s + |Read(name)| else s + |name| + 1
    requires if value == None then |name| == |piece| else |name| + 1 + |value.value| == |piece|
    ensures v <= s + |piece| && (Overruns(piece) <==> v == s + |piece|)
    ensures s + |Read(name)| <= v && (value.Some? ==> s + |Read(name)| < v)
  {
    FieldIs(piece, name, value);
    ReadLength(name);
  }

  lemma RestIs(piece: string, more: Option<string>)
    ensures more.Some? ==> Rest(piece, more) == Some(if Overruns(piece) then Read(more.value) else more.value)
    ensures Gapes(piece, more) <==> Overruns(piece) && more.Some? && |Read(more.value)| < |more.value|
  {
  }

  lemma WithinIs(m: string, i: nat, t: string, end: nat)
    ensures Within(m, i, t, end) <==> i <= |m| && StrAt(m, i) == t && i + |t| <= end
  {
  }

  lemma GapSame(m: string, m': string, i: nat)
    requires i <= |m| == |m'| && StrAt(m, i) == StrAt(m', i)
    ensures Gap(m, i) <==> Gap(m', i)
  {
  }

  /** The last two steps: the name is decoded already, and v is where the value is. */
  method DecodeValue(a: array<char>, s: nat, v: nat, ghost m0: string, ghost piece: string, ghost more: Option<string>,
                     ghost name: string, ghost value: Option<string>) returns (past: bool)
    requires Ends(a[..]) && s <= |m0| == a.Length && a[..][..s] == m0[..s]
    requires Cut(StrAt(m0, s), "&;") == (piece, more) && Cut(piece, "=") == (name, value) && name != "" && NoNul(name)
    requires v == if value == None then s + |Read(name)| else s + |name| + 1
    requires s + |piece| < a.Length && a[s + |piece|] == '\0'
    requires if value == None then |name| == |piece| else |name| + 1 + |value.value| == |piece|
    requires StrAt(a[..], s) == Read(name) && s + |Read(name)| < a.Length && a[s + |Read(name)|] == '\0'
    requires value.Some? ==> StrAt(a[..], s + |name| + 1) == value.value
    requires more.Some? ==> s + |piece| + 1 < a.Length && StrAt(a[..], s + |piece| + 1) == more.value
    requires more.Some? ==> (Gap(m0, s) <==> Gap(a[..], s + |piece| + 1))
    requires more == None ==> (Gap(m0, s) <==> s + |piece| < a.Length - 1)
    modifies a
    ensures Ends(a[..])
    ensures Taken(m0, s, a[..], if more == None then None else Some(s + |piece| + 1), Some((s, v)), past)
  {
    hide *;
    ghost var m3 := a[..];
    ghost var k := s + |piece|;
    OverrunsAt(s, piece, name, value, v);
    FieldIs(piece, name, value);
    RestIs(piece, more);
    if v == a.Length - 1 {
      TakenPast(m0, s, piece, m3, None, Some((s, v)));
      return true;
    }
    DecodeAt(a, v);
    ghost var m4 := a[..];
    EmptyAt(m3, v);
    if v < k {
      StrEnds(m3, v);
      if value.Some? {
        ReadLength(value.value);
      }
      ValueDecoded(m3, s, |Read(name)|, v, k, more, m4);
      if more.Some? {
        GapSame(m3, m4, k + 1);
      }
    } else {
      ValueOverruns(m3, s, |Read(name)|, k, more, m4);
    }
    assert m4[..s] == m4[..v][..s] == m3[..v][..s] == m3[..s];
    WithinIs(m4, s, Read(name), k);
    WithinIs(m4, v, if value == None || value.value == "" then "" else Read(value.value), k);
    TakenField(m0, s, piece, more, m4, v);
    return false;
  }

  lemma PieceEmpty(m0: string, s: nat, piece: string, more: Option<string>, m1: string)
    requires Ends(m0) && s < |m0| == |m1| && m1[..s] == m0[..s]
    requires Cut(StrAt(m0, s), "&;") == (piece, more) && piece == ""
    requires more.Some? ==> s + 1 < |m0| && StrAt(m1, s + 1) == more.value && |more.value| + 1 == |StrAt(m0, s)|
    ensures Taken(m0, s, m1, if more == None then None else Some(s + 1), None, false)
  {
    TakenNothing(m0, s, piece, more, m1);
  }

  lemma SameFrom(m: string, m': string, s: nat, more: Option<string>, k: nat)
    requires more.Some? ==> k + 1 < |m| == |m'| && StrAt(m, k + 1) == more.value == StrAt(m', k + 1)
    ensures more.Some? ==> (Gap(m, k + 1) <==> Gap(m', k + 1))
  {
  }

  lemma CutsTwice(m0: string, s: nat, m1: string, next: Option<nat>, m2: string, v: Option<nat>)
    requires Ends(m0) && s < |m0| && Separated(m0, s, "&;", m1, next)
    requires Ends(m1) && s < |m1| && Separated(m1, s, "=", m2, v)
    ensures CutTwice(m0, s, m1, next, m2, v)
  {
  }

  /** One round of query_parse's loop: cut off a piece, cut it in two, and decode both parts. */
  method Piece(a: array<char>, s: nat) returns (next: Option<nat>, f: Option<(nat, nat)>, past: bool)
    requires Ends(a[..]) && s < a.Length
    modifies a
    ensures Ends(a[..]) && Taken(old(a[..]), s, a[..], next, f, past)
  {
    hide *;
    ghost var m0 := a[..];
    ghost var (piece, more) := Cut(StrAt(m0, s), "&;");
    ghost var (name, value) := Cut(piece, "=");
    FieldIs(piece, name, value);
    next := StrSep(a, s, "&;");
    ghost var m1 := a[..];
    SeparatedLeaves(m0, s, "&;", m1, next, piece, more);
    EmptyAt(m1, s);
    if a[s] == '\0' {
      PieceEmpty(m0, s, piece, more, m1);
      return next, None, false;
    }
    var v := StrSep(a, s, "=");
    ghost var m2 := a[..];
    CutsTwice(m0, s, m1, next, m2, v);
    CutTwiceLays(m0, s, m1, next, m2, v, piece, more, name, value);
    LaidParts(m2, s, name, value, s + |piece|, more);
    EmptyAt(m2, s);
    if a[s] == '\0' {
      TakenNothing(m0, s, piece, more, m2);
      return next, None, false;
    }
    DecodeAt(a, s);
    NameDecoded(m2, s, name, value, s + |piece|, more, a[..]);
    SameFrom(m2, a[..], s, more, s + |piece|);
    if v == None {
      var n := StrLen(a, s);
      v := Some(s + n);
    }
    past := DecodeValue(a, s, v.value, m0, piece, more, name, value);
    f := Some((s, v.value));
  }

  // ---------- query_parse ----------

  /** An entry of a query's table. */
  datatype Known = Known(name: string, required: bool)

  predicate IsKnown(table: seq<Known>, name: string) {
    exists i :: 0 <= i < |table| && table[i].name == name
  }

  ghost predicate Accepted(table: seq<Known>, accepts: Field -> bool, fs: seq<Field>) {
    forall i :: 0 <= i < |fs| ==> IsKnown(table, fs[i].name) && accepts(fs[i])
  }

  ghost predicate Given(fs: seq<Field>, name: string) {
    exists i :: 0 <= i < |fs| && fs[i].name == name
  }

  /** Names in a table are distinct. */
  ghost predicate Table(table: seq<Known>) {
    forall i, j :: 0 <= i < j < |table| ==> table[i].name != table[j].name
  }

  /** What query_parse returns, unless it reads past the end of the string. */
  datatype Verdict = Passed | Rejected | PastEnd

  /** The verdict on the fields of a query: on those found, or on what comes after the last of them. */
  ghost function Judged(table: seq<Known>, accepts: Field -> bool, fs: seq<Field>, past: bool): Verdict {
    if !Accepted(table, accepts, fs) then Rejected
    else if past then PastEnd
    else if forall i :: 0 <= i < |table| && table[i].required ==> Given(fs, table[i].name) then Passed
    else Rejected
  }

  /** A query: none, or a C string with perhaps more memory behind it. */
  ghost predicate IsQuery(m: string, s: Option<nat>) {
    s.Some? ==> Ends(m) && s.value < |m|
  }

  /** The fields query_parse finds in it. */
  ghost function FieldsAt(m: string, s: Option<nat>): (seq<Field>, bool)
    requires IsQuery(m, s)
  {
    match s
    case None => ([], false)
    case Some(i) => Fields(Some(StrAt(m, i)), Gap(m, i))
  }

  /** The fields are in memory, before w. */
  ghost predicate Here(m: string, found: seq<(nat, nat)>, fs: seq<Field>, w: nat) {
    && |found| == |fs| && w <= |m|
    && forall i :: 0 <= i < |fs| ==> Within(m, found[i].0, fs[i].name, w) && Within(m, found[i].1, fs[i].value, w)
  }

  /** What is found stays where it is. */
  lemma HereStill(m: string, m': string, found: seq<(nat, nat)>, fs: seq<Field>, w: nat, s: nat, w': nat)
    requires Ends(m) && Here(m, found, fs, w) && (w < s || fs == []) && s <= w' <= |m| == |m'|
    requires s < |m| && m'[..s] == m[..s]
    ensures Here(m', found, fs, w')
  {
    forall i | 0 <= i < |fs|
      ensures Within(m', found[i].0, fs[i].name, w') && Within(m', found[i].1, fs[i].value, w')
    {
      assert Within(m, found[i].0, fs[i].name, w) && Within(m, found[i].1, fs[i].value, w);
      StrKept(m, m', found[i].0, s);
      StrKept(m, m', found[i].1, s);
    }
  }

  lemma OneMoreHere(m: string, found: seq<(nat, nat)>, fs: seq<Field>, w: nat, f: (nat, nat), field: Field)
    requires Here(m, found, fs, w) && Within(m, f.0, field.name, w) && Within(m, f.1, field.value, w)
    ensures Here(m, found + [f], fs + [field], w)
  {
    hide Within;
  }

  lemma TakenMeans(m: string, s: nat, m': string, next: Option<nat>, f: Option<(nat, nat)>, past: bool,
                   piece: string, more: Option<string>)
    requires s <= |m| && Taken(m, s, m', next, f, past) && Cut(StrAt(m, s), "&;") == (piece, more)
    ensures |m'| == |m| && m'[..s] == m[..s] && (next == None <==> more == None)
    ensures past <==> Overruns(piece) && more == None && !Gap(m, s)
    ensures !past ==> (f == None <==> FieldOf(piece) == None)
    ensures !past && f.Some? ==>
      && s <= f.value.0 <= f.value.1 && Within(m', f.value.0, FieldOf(piece).value.name, s + |piece|)
      && Within(m', f.value.1, FieldOf(piece).value.value, s + |piece|)
    ensures !past && next.Some? ==>
      && next.value == s + |piece| + 1 < |m| && StrAt(m', next.value) == Rest(piece, more).value
      && (Gap(m', next.value) <==> Gap(m, s) || Gapes(piece, more))
  {
    hide StrAt, Cut, FieldOf, Overruns, Gapes, Rest, Gap, Within;
  }

  /** The fields from s on, by the first piece. */
  lemma FirstAt(m: string, s: nat, piece: string, more: Option<string>)
    requires Ends(m) && s < |m| && Cut(StrAt(m, s), "&;") == (piece, more)
    ensures IsQuery(m, Some(s)) && FieldsAt(m, Some(s)) == Fields(Some(StrAt(m, s)), Gap(m, s))
    ensures s + |piece| < |m| && (Rest(piece, more) == None <==> more == None)
    ensures Overruns(piece) && more == None && !Gap(m, s) ==> FieldsAt(m, Some(s)) == ([], true)
    ensures !(Overruns(piece) && more == None && !Gap(m, s)) ==>
      var (fs, past) := Fields(Rest(piece, more), Gap(m, s) || Gapes(piece, more));
      FieldsAt(m, Some(s)) == (match FieldOf(piece) case None => fs case Some(f) => [f] + fs, past)
  {
    StrEnds(m, s);
    CutParts(StrAt(m, s), "&;");
    NextPiece(StrAt(m, s), Gap(m, s));
    RestNone(piece, more);
    hide StrAt, Cut, Fields, FieldOf, Overruns, Gapes, Rest, Gap;
  }

  /** The fields of what is left. */
  lemma RestAt(m: string, next: Option<nat>, rest: Option<string>, gap: bool)
    requires next == None <==> rest == None
    requires next.Some? ==>
      Ends(m) && next.value < |m| && StrAt(m, next.value) == rest.value && (Gap(m, next.value) <==> gap)
    ensures IsQuery(m, next) && FieldsAt(m, next) == Fields(rest, gap)
  {
    FieldsEnd(gap);
    hide StrAt, Fields, Gap;
  }

  /** What one round does for the fields. */
  lemma TakenOn(m: string, s: nat, m': string, next: Option<nat>, f: Option<(nat, nat)>, past: bool)
    requires Ends(m) && s < |m| && Taken(m, s, m', next, f, past) && Ends(m')
    ensures |m'| == |m| && m'[..s] == m[..s] && (!past && next.Some? ==> s < next.value < |m|)
    ensures past ==> FieldsAt(m, Some(s)) == ([], true)
    ensures !past ==> IsQuery(m', next)
    ensures !past && f == None ==> FieldsAt(m, Some(s)) == FieldsAt(m', next)
    ensures !past && f.Some? ==>
      var field := Field(StrAt(m', f.value.0), StrAt(m', f.value.1));
      var w := if next == None then |m| - 1 else next.value - 1;
      && f.value.0 <= f.value.1 < |m| && w >= s
      && Within(m', f.value.0, field.name, w) && Within(m', f.value.1, field.value, w)
      && FieldsAt(m, Some(s)) == ([field] + FieldsAt(m', next).0, FieldsAt(m', next).1)
  {
    var (piece, more) := Cut(StrAt(m, s), "&;");
    hide *;
    TakenMeans(m, s, m', next, f, past, piece, more);
    FirstAt(m, s, piece, more);
    if !past {
      RestAt(m', next, Rest(piece, more), Gap(m, s) || Gapes(piece, more));
      if f.Some? {
        var field, w := FieldOf(piece).value, if next == None then |m| - 1 else next.value - 1;
        WithinIs(m', f.value.0, field.name, s + |piece|);
        WithinIs(m', f.value.1, field.value, s + |piece|);
        WithinIs(m', f.value.0, field.name, w);
        WithinIs(m', f.value.1, field.value, w);
      }
    }
  }

  lemma RestNone(piece: string, more: Option<string>)
    ensures Rest(piece, more) == None <==> more == None
  {
  }

  /** q_is_set */
  ghost predicate IsSet(table: seq<Known>, got: seq<Field>, isSet: seq<bool>) {
    |isSet| == |table| && forall i :: 0 <= i < |table| ==> isSet[i] == Given(got, table[i].name)
  }

  lemma NothingSet(table: seq<Known>, accepts: Field -> bool, isSet: seq<bool>)
    requires |isSet| == |table| && forall i :: 0 <= i < |isSet| ==> !isSet[i]
    ensures IsSet(table, [], isSet) && Accepted(table, accepts, [])
    ensures forall fs: seq<Field> {:trigger [] + fs} :: [] + fs == fs
  {
  }

  lemma Prepend(got: seq<Field>, f: Field, fs: seq<Field>)
    ensures got + ([f] + fs) == got + [f] + fs
  {
  }

  lemma OneMoreField(table: seq<Known>, accepts: Field -> bool, got: seq<Field>, f: Field, i: nat, isSet: seq<bool>)
    requires Table(table) && i < |table| && table[i].name == f.name && accepts(f)
    requires Accepted(table, accepts, got) && IsSet(table, got, isSet)
    ensures Accepted(table, accepts, got + [f]) && IsSet(table, got + [f], isSet[i := true])
  {
    GivenOneMore(table, got, f, i);
    assert IsKnown(table, f.name);
  }

  method Find(table: seq<Known>, name: string) returns (i: nat)
    ensures i <= |table| && (i < |table| ==> table[i].name == name) && (i == |table| ==> !IsKnown(table, name))
  {
    i := 0;
    while i < |table| && table[i].name != name
      invariant i <= |table| && forall j :: 0 <= j < i ==> table[j].name != name
    {
      i := i + 1;
    }
  }

  lemma NotAccepted(table: seq<Known>, accepts: Field -> bool, got: seq<Field>, f: Field, rest: seq<Field>)
    requires !IsKnown(table, f.name) || !accepts(f)
    ensures !Accepted(table, accepts, got + ([f] + rest))
  {
    assert (got + ([f] + rest))[|got|] == f;
  }

  lemma GivenOneMore(table: seq<Known>, got: seq<Field>, f: Field, i: nat)
    requires Table(table) && i < |table| && table[i].name == f.name
    ensures forall j :: 0 <= j < |table| ==> (Given(got + [f], table[j].name) <==> j == i || Given(got, table[j].name))
  {
    var more := got + [f];
    assert more[|got|] == f;
    forall j | 0 <= j < |table| && Given(got, table[j].name) ensures Given(more, table[j].name) {
      var k :| 0 <= k < |got| && got[k].name == table[j].name;
      assert more[k].name == table[j].name;
    }
    forall j | 0 <= j < |table| && Given(more, table[j].name) ensures j == i || Given(got, table[j].name) {
      var k :| 0 <= k < |more| && more[k].name == table[j].name;
      if k < |got| {
        assert got[k].name == table[j].name;
      }
    }
  }

  lemma FieldsAtNone(m: string)
    ensures IsQuery(m, None) && FieldsAt(m, None) == ([], false)
  {
  }

  lemma QueryIs(m: string, s: Option<nat>)
    requires IsQuery(m, s) && s.Some?
    ensures Ends(m) && s.value < |m|
  {
  }

  lemma HereWider(m: string, found: seq<(nat, nat)>, fs: seq<Field>, w: nat)
    requires Here(m, found, fs, w)
    ensures Here(m, found, fs, |m|)
  {
  }

  lemma HereNone(m: string)
    ensures Here(m, [], [], 0)
  {
  }

  /** The first loop of query_parse: what the parsers are given, in order, and where it is. */
  method ParseFields(table: seq<Known>, accepts: Field -> bool, a: array<char>, q: Option<nat>)
    returns (r: Verdict, isSet: seq<bool>, got: seq<Field>, ghost found: seq<(nat, nat)>)
    requires Table(table) && IsQuery(a[..], q)
    modifies a
    ensures var (fs, past) := FieldsAt(old(a[..]), q);
      && (r == Rejected <==> !Accepted(table, accepts, fs))
      && (r == PastEnd <==> Accepted(table, accepts, fs) && past)
      && (r == Passed ==> got == fs && IsSet(table, fs, isSet) && Here(a[..], found, fs, a.Length))
  {
    hide *;
    ghost var m0, all := a[..], FieldsAt(a[..], q);
    var s := q;
    ghost var w: nat := 0;
    isSet, got, found := seq(|table|, i => false), [], [];
    NothingSet(table, accepts, isSet);
    HereNone(m0);
    assert [] + all.0 == all.0;
    if q.Some? {
      QueryIs(m0, q);
    }
    while s.Some?
      invariant IsQuery(a[..], s) && Accepted(table, accepts, got) && IsSet(table, got, isSet) && |isSet| == |table|
      invariant all == (got + FieldsAt(a[..], s).0, FieldsAt(a[..], s).1)
      invariant Here(a[..], found, got, w) && (s.Some? ==> w <= s.value < a.Length && (w < s.value || got == []))
      decreases if s.Some? then a.Length - s.value else 0
    {
      ghost var m := a[..];
      var at := s.value;
      QueryIs(m, s);
      var next, f, past := Piece(a, at);
      TakenOn(m, at, a[..], next, f, past);
      if past {
        assert got + [] == got;
        return PastEnd, isSet, got, found;
      }
      ghost var w' := if next == None then a.Length - 1 else next.value - 1;
      HereStill(m, a[..], found, got, w, at, w');
      s, w := next, w';
      if f.Some? {
        var field := Field(StrAt(a[..], f.value.0), StrAt(a[..], f.value.1));
        var i := Find(table, field.name);
        Prepend(got, field, FieldsAt(a[..], next).0);
        if i == |table| || !accepts(field) {
          NotAccepted(table, accepts, got, field, FieldsAt(a[..], next).0);
          return Rejected, isSet, got, found;
        }
        OneMoreField(table, accepts, got, field, i, isSet);
        OneMoreHere(a[..], found, got, w, f.value, field);
        isSet, got, found := isSet[i := true], got + [field], found + [f.value];
      }
    }
    FieldsAtNone(a[..]);
    assert got + [] == got;
    HereWider(a[..], found, got, w);
    return Passed, isSet, got, found;
  }

  /** query_parse: passes if and only if every field is known and accepted by its parser and every required one is
      given. The fields are then in memory where their parsers saw them. */
  method QueryParse(table: seq<Known>, accepts: Field -> bool, a: array<char>, q: Option<nat>)
    returns (r: Verdict, got: seq<Field>, ghost found: seq<(nat, nat)>)
    requires Table(table) && IsQuery(a[..], q)
    modifies a
    ensures var (fs, past) := FieldsAt(old(a[..]), q);
      r == Judged(table, accepts, fs, past) && (r == Passed ==> got == fs && Here(a[..], found, fs, a.Length))
  {
    ghost var fs := FieldsAt(a[..], q).0;
    hide FieldsAt, Accepted, Given, Here, IsQuery;
    var isSet;
    r, isSet, got, found := ParseFields(table, accepts, a, q);
    if r != Passed {
      return;
    }
    for i := 0 to |table|
      invariant forall j :: 0 <= j < i && table[j].required ==> Given(fs, table[j].name)
    {
      if table[i].required && !isSet[i] {
        return Rejected, got, found;
      }
    }
  }
}
