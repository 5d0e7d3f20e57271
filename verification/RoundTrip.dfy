/** When the server finds exactly the fields a client adds (query_add in src/xltop.c, query_parse in src/query.c), for
    all fields, empty ones included. After an empty value the rest of the string is decoded once too often. */
module RoundTrips {
  import opened Basics
  import opened Strings
  import opened Queries

  /** The query that query_add builds, starting from none. */
  ghost function Query(fs: seq<Field>): Option<string>
    requires Clean(fs)
  {
    if fs == [] then None else Some(Built(fs))
  }

  /** A field that is read the same whether it was escaped or not. */
  ghost predicate Plain(f: Field) {
    f.name != "" && Free(f.name, "&;=%+") && Free(f.value, "&;%+")
  }

  ghost predicate AllPlain(fs: seq<Field>) {
    forall i :: 0 <= i < |fs| ==> Plain(fs[i])
  }

  ghost predicate EndsWell(fs: seq<Field>) {
    fs != [] ==> fs[|fs| - 1].value != ""
  }

  /** A field that needs no escapes. */
  ghost predicate Bare(f: Field) {
    && (forall i :: 0 <= i < |f.name| ==> Unreserved(f.name[i]))
    && forall i :: 0 <= i < |f.value| ==> Unreserved(f.value[i])
  }

  /** After an empty value a field with escapes becomes shorter, and leaves a gap behind the string. */
  ghost predicate LeavesGap(fs: seq<Field>) {
    exists i, j :: 0 <= i < j < |fs| && fs[i].value == "" && !Bare(fs[j])
  }

  /** No name is empty, after an empty value all fields are plain, and the last value is not empty or there is a gap. */
  ghost predicate Survives(fs: seq<Field>) {
    (forall i :: 0 <= i < |fs| ==> fs[i].name != "") && PlainAfter(fs) && (EndsWell(fs) || LeavesGap(fs))
  }

  ghost predicate PlainAfter(fs: seq<Field>) {
    forall i, j :: 0 <= i < j < |fs| && fs[i].value == "" ==> Plain(fs[j])
  }

  // ---------- from the front ----------

  lemma Tail(fs: seq<Field>)
    requires fs != []
    ensures fs == [fs[0]] + fs[1..]
    ensures Clean(fs) ==> Clean(fs[1..]) && Bytes(fs[0].name) && Bytes(fs[0].value)
    ensures AllPlain(fs) <==> Plain(fs[0]) && AllPlain(fs[1..])
    ensures EndsWell(fs) <==> if |fs| == 1 then fs[0].value != "" else EndsWell(fs[1..])
  {
    if AllPlain(fs[1..]) && Plain(fs[0]) {
      forall i | 0 <= i < |fs| ensures Plain(fs[i]) {
        if i > 0 {
          assert fs[i] == fs[1..][i - 1];
        }
      }
    }
  }

  lemma Middle(fs: seq<Field>)
    requires |fs| > 1
    ensures var n := |fs| - 1;
      fs[1..][..n - 1] == fs[..n][1..] && fs[1..][n - 1] == fs[n] && fs[..n][0] == fs[0] && fs[1..][0] == fs[1]
  {
  }

  lemma Regroup(a: string, b: string, c: string)
    ensures a + "&" + b + "&" + c == a + "&" + (b + "&" + c)
  {
  }

  lemma {:induction false} BuiltHead(fs: seq<Field>)
    requires Clean(fs) && |fs| > 1
    ensures Clean(fs[1..]) && Built(fs) == Pair(fs[0]) + "&" + Built(fs[1..])
  {
    var n := |fs| - 1;
    hide *;
    CleanPart(fs);
    BuiltLast(fs);
    Middle(fs);
    if n == 1 {
      BuiltOne(fs[..1]);
      BuiltOne(fs[1..]);
    } else {
      BuiltHead(fs[..n]);
      BuiltLast(fs[1..]);
      Regroup(Pair(fs[0]), Built(fs[..n][1..]), Pair(fs[n]));
    }
  }

  lemma CleanPart(fs: seq<Field>)
    requires Clean(fs) && |fs| > 1
    ensures Clean(fs[1..]) && Clean(fs[..|fs| - 1])
    ensures forall i :: 0 <= i < |fs| ==> Bytes(fs[i].name) && Bytes(fs[i].value)
  {
    hide Bytes;
  }

  lemma BuiltOne(fs: seq<Field>)
    requires Clean(fs) && |fs| == 1
    ensures Built(fs) == Pair(fs[0])
  {
    hide Pair, Bytes;
  }

  lemma BuiltLast(fs: seq<Field>)
    requires Clean(fs) && |fs| > 1 && Clean(fs[..|fs| - 1])
    ensures Built(fs) == Built(fs[..|fs| - 1]) + "&" + Pair(fs[|fs| - 1])
  {
    hide Pair, Bytes;
  }

  ghost function RawPair(f: Field): string {
    f.name + "=" + f.value
  }

  /** The query string as it would be without escapes. */
  ghost function Raw(fs: seq<Field>): string {
    if fs == [] then "" else if |fs| == 1 then RawPair(fs[0]) else RawPair(fs[0]) + "&" + Raw(fs[1..])
  }

  lemma Assoc(a: string, b: string, c: string)
    ensures a + b + c == a + (b + c)
  {
  }

  lemma DecodeSep(c: char, rest: string)
    requires c != '%' && c != '+'
    ensures Decode([c] + rest) == ([c] + Decode(rest).0, Decode(rest).1)
  {
    DecodeStep([c] + rest);
    assert ([c] + rest)[1..] == rest;
  }

  /** Decoding undoes two escapings with a separator between them. */
  lemma DecodeTwo(n: string, c: char, v: string, rest: string)
    requires Bytes(n) && Bytes(v) && c != '%' && c != '+'
    ensures Decode(Escape(n) + [c] + Escape(v) + rest) == (n + [c] + v + Decode(rest).0, Decode(rest).1)
  {
    hide *;
    var e, t, d := Escape(v), Escape(v) + rest, Decode(rest).0;
    DecodeEscape(v, rest);
    DecodeSep(c, t);
    DecodeEscape(n, [c] + t);
    Assoc(Escape(n), [c], t);
    Assoc(Escape(n) + [c], e, rest);
    Assoc(n, [c], v + d);
    Assoc(n + [c], v, d);
  }

  lemma DecodePair(f: Field, rest: string)
    requires Bytes(f.name) && Bytes(f.value)
    ensures Decode(Pair(f) + rest) == (RawPair(f) + Decode(rest).0, Decode(rest).1)
  {
    DecodeTwo(f.name, '=', f.value, rest);
  }

  lemma {:induction false} DecodeBuilt(fs: seq<Field>)
    requires Clean(fs) && fs != []
    ensures Decode(Built(fs)) == (Raw(fs), true)
  {
    Tail(fs);
    if |fs| == 1 {
      DecodeOne(fs);
    } else {
      DecodeBuilt(fs[1..]);
      DecodeMore(fs);
    }
  }

  lemma DecodeOne(fs: seq<Field>)
    requires Clean(fs) && |fs| == 1
    ensures Decode(Built(fs)) == (Raw(fs), true)
  {
    DecodeEmpty();
    DecodePair(fs[0], "");
    hide Decode, Escape, Bytes;
    assert Pair(fs[0]) + "" == Pair(fs[0]) && RawPair(fs[0]) + "" == RawPair(fs[0]);
  }

  lemma RawOne(f: Field)
    ensures Raw([f]) == RawPair(f) == RawPair(f) + ""
  {
  }

  lemma RawMore(fs: seq<Field>)
    requires |fs| > 1
    ensures Raw(fs) == RawPair(fs[0]) + "&" + Raw(fs[1..])
  {
  }

  lemma DecodeMore(fs: seq<Field>)
    requires Clean(fs) && |fs| > 1 && Clean(fs[1..]) && Decode(Built(fs[1..])) == (Raw(fs[1..]), true)
    ensures Decode(Built(fs)) == (Raw(fs), true)
  {
    var f, b, r := fs[0], Built(fs[1..]), Raw(fs[1..]);
    assert Bytes(f.name) && Bytes(f.value);
    hide *;
    BuiltHead(fs);
    RawMore(fs);
    DecodeSep('&', b);
    DecodePair(f, ['&'] + b);
    Assoc(Pair(f), ['&'], b);
    Assoc(RawPair(f), ['&'], r);
    assert ['&'] == "&";
  }

  lemma {:induction false} RawBytes(fs: seq<Field>)
    requires Clean(fs)
    ensures Bytes(Raw(fs)) && CString(Raw(fs)) == Raw(fs)
  {
    if fs != [] {
      Tail(fs);
      RawBytes(fs[1..]);
    }
    CStringWhole(Raw(fs));
  }

  lemma {:induction false} CStringWhole(s: string)
    requires Bytes(s)
    ensures CString(s) == s
  {
    if s != "" {
      CStringWhole(s[1..]);
    }
  }

  // ---------- no more is found than was there ----------

  /** The characters that are not equals signs. */
  function Weight(s: string): nat {
    if s == "" then 0 else (if s[0] == '=' then 0 else 1) + Weight(s[1..])
  }

  function FieldsWeight(fs: seq<Field>): nat {
    if fs == [] then 0 else Weight(fs[0].name) + Weight(fs[0].value) + 1 + FieldsWeight(fs[1..])
  }

  lemma {:induction false} WeightAppend(a: string, b: string)
    ensures Weight(a + b) == Weight(a) + Weight(b)
  {
    if a == "" {
      assert a + b == b;
    } else {
      assert (a + b)[1..] == a[1..] + b;
      WeightAppend(a[1..], b);
    }
  }

  ghost predicate NoNul(s: string) {
    forall i :: 0 <= i < |s| ==> s[i] != '\0'
  }

  lemma {:induction false} CStringFits(s: string)
    ensures Weight(CString(s)) <= Weight(s) && NoNul(CString(s))
    ensures forall seps: string :: Free(s, seps) ==> Free(CString(s), seps)
  {
    if s != "" && s[0] != '\0' {
      CStringFits(s[1..]);
      forall seps: string | Free(s, seps) ensures Free(CString(s), seps) {
        assert Free(s[1..], seps);
      }
    }
  }

  /** Decoding adds nothing, and takes nothing only if there is no escape. */
  lemma {:induction false} DecodeFits(s: string)
    ensures Weight(Decode(s).0) <= Weight(s)
    ensures Weight(Decode(s).0) == Weight(s) ==> Free(s, "%")
    decreases |s|
  {
    DecodeEmpty();
    if s != "" {
      DecodeStep(s);
      DecodeFits(s[1..]);
      hide Decode;
      if s[0] != '%' {
        assert Decode(s).0[1..] == Decode(s[1..]).0;
      } else if |s| >= 3 && IsHex(s[1]) && IsHex(s[2]) {
        DecodeFits(s[3..]);
        assert s[1..][1..] == s[2..] && s[2..][1..] == s[3..];
        assert Decode(s).0[1..] == Decode(s[3..]).0;
      }
    }
  }

  /** Without escapes only plus signs change. */
  lemma {:induction false} DecodePlain(s: string)
    requires Free(s, "%")
    ensures Decode(s).1 && |Decode(s).0| == |s|
    ensures forall i :: 0 <= i < |s| ==> Decode(s).0[i] == if s[i] == '+' then ' ' else s[i]
  {
    if s != "" {
      assert Free(s[1..], "%");
      DecodePlain(s[1..]);
    }
  }

  /** What is decoded from a string without escapes: no plus signs, and none of the separators the string was
      free of. */
  lemma DecodedFree(s: string, seps: string)
    requires Free(s, "%") && Free(s, seps) && ' ' !in seps && NoNul(s)
    ensures var d := CString(Decode(s).0); Free(d, seps) && Free(d, "%+") && (s != "" ==> d != "")
  {
    DecodePlain(s);
    var d := Decode(s).0;
    assert Free(d, seps) && Free(d, "%+");
    CStringFits(d);
    assert s != "" ==> d[0] != '\0';
  }

  lemma {:induction false} DecodeSame(s: string)
    requires Free(s, "%+")
    ensures Decode(s) == (s, true)
  {
    if s != "" {
      assert s[0] !in "%+" && "%+"[0] == '%' && "%+"[1] == '+' && [s[0]] + s[1..] == s;
      DecodeSame(s[1..]);
    }
  }

  /** Where strsep cuts. */
  lemma {:induction false} CutParts(s: string, seps: string)
    ensures var (a, b) := Cut(s, seps);
      && Free(a, seps) && |a| <= |s| && (NoNul(s) ==> NoNul(a) && (b.Some? ==> NoNul(b.value)))
      && match b
         case None => a == s
         case Some(t) => |a| < |s| && s[|a|] in seps && s == a + [s[|a|]] + t && |t| < |s|
  {
    if s != "" && s[0] !in seps {
      CutParts(s[1..], seps);
    }
  }

  lemma CutWeight(s: string, seps: string)
    ensures var (a, b) := Cut(s, seps);
      && (b == None ==> Weight(s) == Weight(a))
      && (b.Some? && seps == "=" ==> Weight(s) == Weight(a) + Weight(b.value))
      && (b.Some? && seps == "&;" ==> Weight(s) == Weight(a) + 1 + Weight(b.value))
  {
    CutParts(s, seps);
    var (a, b) := Cut(s, seps);
    if b.Some? {
      var c := s[|a|];
      WeightAppend(a, [c]);
      WeightAppend(a + [c], b.value);
      assert [c][1..] == "";
    }
  }

  lemma ReadFits(s: string)
    ensures Weight(CString(Decode(s).0)) <= Weight(s)
    ensures Weight(CString(Decode(s).0)) == Weight(s) ==> Free(s, "%")
  {
    DecodeFits(s);
    CStringFits(Decode(s).0);
  }

  /** A field weighs no more than its piece; and only a plain one weighs as much. */
  lemma FieldFits(piece: string)
    requires NoNul(piece) && Free(piece, "&;") && FieldOf(piece).Some?
    ensures var f := FieldOf(piece).value;
      && Weight(f.name) + Weight(f.value) <= Weight(piece)
      && (Weight(f.name) + Weight(f.value) == Weight(piece) ==> Plain(f) && (f.value == "" ==> Overruns(piece)))
  {
    CutParts(piece, "=");
    CutWeight(piece, "=");
    var (n, v) := Cut(piece, "=");
    var w := if v.None? then "" else v.value;
    ReadFits(n);
    ReadFits(w);
    var f := FieldOf(piece).value;
    if Weight(f.name) + Weight(f.value) == Weight(piece) {
      SubFree(piece, n, w);
      DecodedFree(n, "&;=");
      DecodedFree(w, "&;");
      assert Plain(f);
    }
  }

  lemma SubFree(piece: string, n: string, w: string)
    requires Free(piece, "&;") && Free(n, "=") && n <= piece && (w == "" || (|n| < |piece| && w == piece[|n| + 1..]))
    ensures Free(n, "&;=") && Free(w, "&;")
  {
    forall i | 0 <= i < |n| ensures n[i] !in "&;=" {
      assert n[i] == piece[i];
    }
  }

  /** What query_parse finds weighs no more than the string; and as much only if it is all plain. */
  lemma {:induction false} FieldsFit(s: string, gap: bool)
    requires NoNul(s)
    ensures var (gs, past) := Fields(Some(s), gap);
      && FieldsWeight(gs) <= Weight(s) + 1
      && (FieldsWeight(gs) == Weight(s) + 1 && !past ==> gs != [] && AllPlain(gs) && (gap || EndsWell(gs)))
    decreases |s|
  {
    CutParts(s, "&;");
    CutWeight(s, "&;");
    NextPiece(s, gap);
    RestShrinks(s);
    var (piece, more) := Cut(s, "&;");
    var rest, gap' := Rest(piece, more), gap || Gapes(piece, more);
    RestFits(piece, more);
    if rest.Some? {
      FieldsFit(rest.value, gap');
    } else {
      FieldsEnd(gap');
    }
    if FieldOf(piece).Some? {
      FieldFits(piece);
      var f, fs := FieldOf(piece).value, Fields(rest, gap').0;
      assert ([f] + fs)[0] == f && ([f] + fs)[1..] == fs;
      Tail([f] + fs);
    }
  }

  lemma RestFits(piece: string, more: Option<string>)
    ensures Rest(piece, more) == None <==> more == None
    ensures more.Some? ==> Weight(Rest(piece, more).value) <= Weight(more.value)
    ensures more.Some? && NoNul(more.value) ==> NoNul(Rest(piece, more).value)
    ensures more.Some? && NoNul(more.value) && Weight(Rest(piece, more).value) == Weight(more.value) ==>
      !Gapes(piece, more)
  {
    if more.Some? {
      ReadFits(more.value);
      CStringFits(Decode(more.value).0);
      if NoNul(more.value) && Free(more.value, "%") {
        PlainLength(more.value);
      }
    }
  }

  lemma PlainLength(s: string)
    requires NoNul(s) && Free(s, "%")
    ensures |CString(Decode(s).0)| == |s|
  {
    DecodePlain(s);
    CStringAll(Decode(s).0);
  }

  lemma {:induction false} RawWeight(fs: seq<Field>)
    requires fs != []
    ensures FieldsWeight(fs) == Weight(Raw(fs)) + 1
  {
    var f := fs[0];
    WeightAppend(f.name + "=", f.value);
    WeightAppend(f.name, "=");
    assert "="[1..] == "" && "&"[1..] == "";
    if |fs| == 1 {
      assert fs[1..] == [];
    } else {
      RawWeight(fs[1..]);
      WeightAppend(RawPair(f) + "&", Raw(fs[1..]));
      WeightAppend(RawPair(f), "&");
    }
  }

  // ---------- plain fields need no escapes ----------

  lemma CutPair(f: Field, rest: Option<string>)
    requires Free(f.name, "&;=") && Free(f.value, "&;")
    ensures Cut(RawPair(f) + (if rest.Some? then "&" + rest.value else ""), "&;") == (RawPair(f), rest)
    ensures Cut(RawPair(f), "=") == (f.name, Some(f.value))
  {
    var p := RawPair(f);
    assert Free(p, "&;") && Free(f.name, "=");
    CutAt(f.name, '=', f.value, "=");
    match rest
    case None =>
      CutNot(p, "&;");
      assert p + "" == p;
    case Some(r) =>
      CutAt(p, '&', r, "&;");
      assert p + "&" + r == p + ("&" + r);
  }

  lemma PlainField(f: Field)
    requires Plain(f) && Bytes(f.name) && Bytes(f.value)
    ensures FieldOf(RawPair(f)) == Some(f) && (Overruns(RawPair(f)) <==> f.value == "")
  {
    assert Free(f.name, "&;=") && Free(f.name, "%+") && Free(f.value, "&;") && Free(f.value, "%+");
    CutPair(f, None);
    DecodeSame(f.name);
    DecodeSame(f.value);
    CStringWhole(f.name);
    CStringWhole(f.value);
  }

  lemma RawPlain(fs: seq<Field>)
    requires AllPlain(fs)
    ensures Free(Raw(fs), "%+")
  {
    if fs != [] {
      Tail(fs);
      RawPlain(fs[1..]);
      assert Free(fs[0].name, "%+") && Free(fs[0].value, "%+");
      assert Free(RawPair(fs[0]), "%+");
    }
  }

  /** Unescaped fields that are plain are found as they are. */
  lemma {:induction false} RawFound(fs: seq<Field>, gap: bool)
    requires Clean(fs) && fs != [] && AllPlain(fs) && (gap || EndsWell(fs))
    ensures Fields(Some(Raw(fs)), gap) == (fs, false)
  {
    Tail(fs);
    var rest := if |fs| == 1 then None else Some(Raw(fs[1..]));
    if |fs| > 1 {
      RawFound(fs[1..], gap);
    }
    PlainFirst(fs, rest, gap);
    hide *;
    FieldsEnd(gap);
  }

  lemma PlainFirst(fs: seq<Field>, rest: Option<string>, gap: bool)
    requires Clean(fs) && fs != [] && AllPlain(fs) && (gap || EndsWell(fs))
    requires rest == if |fs| == 1 then None else Some(Raw(fs[1..]))
    ensures Fields(Some(Raw(fs)), gap) == ([fs[0]] + Fields(rest, gap).0, Fields(rest, gap).1)
  {
    var f := fs[0];
    Tail(fs);
    PlainField(f);
    PlainParts(f);
    CutPair(f, rest);
    RawSplits(fs, rest);
    NextPiece(Raw(fs), gap);
    if rest.Some? {
      RawPlain(fs[1..]);
      RawBytes(fs[1..]);
      DecodeSame(rest.value);
    }
    hide Fields, FieldOf, Overruns, Raw, RawPair, Cut, Decode;
  }

  lemma PlainParts(f: Field)
    requires Plain(f)
    ensures f.name != ""
    ensures Free(f.name, "&;=") && Free(f.name, "%+") && Free(f.value, "&;") && Free(f.value, "%+")
  {
  }

  /** An ampersand and a semicolon separate fields alike. */
  lemma Separators(f: Field, sep: char, rest: string, gap: bool)
    requires Plain(f) && Bytes(f.name) && Bytes(f.value) && f.value != "" && sep in "&;"
    ensures Fields(Some(f.name + "=" + f.value + [sep] + rest), gap) ==
      ([f] + Fields(Some(rest), gap).0, Fields(Some(rest), gap).1)
  {
    var piece := f.name + "=" + f.value;
    PlainField(f);
    PlainParts(f);
    assert Free(piece, "&;");
    CutAt(piece, sep, rest, "&;");
    NextPiece(piece + [sep] + rest, gap);
    hide Fields, FieldOf, Overruns, Plain, Cut;
  }

  lemma RawSplits(fs: seq<Field>, rest: Option<string>)
    requires fs != [] && rest == if |fs| == 1 then None else Some(Raw(fs[1..]))
    ensures Raw(fs) == RawPair(fs[0]) + if rest.Some? then "&" + rest.value else ""
  {
    if |fs| > 1 {
      RawMore(fs);
    } else {
      RawOne(fs[0]);
      assert fs == [fs[0]];
    }
    hide *;
    if rest.Some? {
      Assoc(RawPair(fs[0]), "&", rest.value);
    }
  }

  /** Unescaped fields are found as they are if and only if they are plain and the last value is not empty or there is
      a gap. */
  lemma RawRead(fs: seq<Field>, gap: bool)
    requires Clean(fs) && fs != []
    ensures Fields(Some(Raw(fs)), gap) == (fs, false) <==> AllPlain(fs) && (gap || EndsWell(fs))
  {
    RawBytes(fs);
    RawWeight(fs);
    FieldsFit(Raw(fs), gap);
    if AllPlain(fs) && (gap || EndsWell(fs)) {
      RawFound(fs, gap);
    }
  }

  // ---------- the round trip ----------

  lemma ReadEscaped(s: string)
    requires Bytes(s)
    ensures CString(Decode(Escape(s)).0) == s && Free(Escape(s), "&;=") && (Escape(s) == "" <==> s == "")
    ensures Free(Escape(s), "=") && Free(Escape(s), "&;")
  {
    EscapeFree(s);
    DecodeEmpty();
    DecodeEscape(s, "");
    CStringWhole(s);
    hide Decode;
    assert Escape(s) + "" == Escape(s) && s + "" == s;
  }

  lemma FieldOfIs(piece: string, name: string, value: Option<string>)
    requires Cut(piece, "=") == (name, value)
    ensures FieldOf(piece) == if name == "" then None
      else Some(Field(CString(Decode(name).0), CString(Decode(if value.None? then "" else value.value).0)))
    ensures value.Some? ==> (Overruns(piece) <==> name != "" && value.value == "")
  {
    hide Cut, CString, Decode;
  }

  lemma EscapedField(f: Field)
    requires Bytes(f.name) && Bytes(f.value)
    ensures FieldOf(Pair(f)) == if f.name == "" then None else Some(f)
    ensures Overruns(Pair(f)) <==> f.name != "" && f.value == ""
    ensures Free(Pair(f), "&;")
  {
    var n, v := Escape(f.name), Escape(f.value);
    assert Pair(f) == n + "=" + v;
    PairFree(f);
    hide *;
    ReadEscaped(f.name);
    ReadEscaped(f.value);
    CutAt(n, '=', v, "=");
    FieldOfIs(Pair(f), n, Some(v));
  }

  lemma PairFree(f: Field)
    requires Bytes(f.name) && Bytes(f.value)
    ensures Free(Pair(f), "&;")
  {
    ReadEscaped(f.name);
    ReadEscaped(f.value);
    hide Escape, Decode;
  }

  lemma {:induction false} EscapeLength(s: string)
    requires Bytes(s)
    ensures |Escape(s)| >= |s|
    ensures |Escape(s)| == |s| <==> forall i :: 0 <= i < |s| ==> Unreserved(s[i])
  {
    if s != "" {
      EscapeLength(s[1..]);
      assert forall i :: 0 < i < |s| ==> s[i] == s[1..][i - 1];
    }
  }

  lemma PairLength(f: Field)
    requires Bytes(f.name) && Bytes(f.value)
    ensures |RawPair(f)| <= |Pair(f)| && (|RawPair(f)| == |Pair(f)| <==> Bare(f))
  {
    EscapeLength(f.name);
    EscapeLength(f.value);
    hide Escape, Unreserved;
  }

  lemma BareMore(fs: seq<Field>)
    requires fs != []
    ensures (forall i :: 0 <= i < |fs| ==> Bare(fs[i])) <==>
      Bare(fs[0]) && forall i :: 0 <= i < |fs[1..]| ==> Bare(fs[1..][i])
  {
    hide Bare;
    assert forall i :: 0 < i < |fs| ==> fs[i] == fs[1..][i - 1];
  }

  /** Fields that need no escapes are sent as they are, and others become longer. */
  lemma {:induction false} RawLength(fs: seq<Field>)
    requires Clean(fs) && fs != []
    ensures |Raw(fs)| <= |Built(fs)|
    ensures |Raw(fs)| == |Built(fs)| <==> forall i :: 0 <= i < |fs| ==> Bare(fs[i])
  {
    hide *;
    Tail(fs);
    PairLength(fs[0]);
    BareMore(fs);
    if |fs| == 1 {
      BuiltOne(fs);
      RawOne(fs[0]);
      assert fs == [fs[0]];
    } else {
      RawLength(fs[1..]);
      BuiltHead(fs);
      RawMore(fs);
    }
  }

  /** Some field is sent with escapes. */
  ghost predicate Escaped(fs: seq<Field>) {
    exists i :: 0 <= i < |fs| && !Bare(fs[i])
  }

  /** What the server finds, by the first field. */
  lemma FoundFirst(fs: seq<Field>)
    requires Clean(fs) && fs != []
    ensures Clean(fs[1..])
    ensures var f, rest := fs[0], fs[1..];
      var (gs, past) := Fields(Query(rest), false);
      && (f.name == "" ==> Fields(Query(fs), false) == (gs, past))
      && (f.name != "" && f.value != "" ==> Fields(Query(fs), false) == ([f] + gs, past))
      && (f.name != "" && f.value == "" && rest == [] ==> Fields(Query(fs), false) == ([], true))
      && (f.name != "" && f.value == "" && rest != [] ==>
            var (hs, past) := Fields(Some(Raw(rest)), Escaped(rest));
            Fields(Query(fs), false) == ([f] + hs, past))
  {
    Tail(fs);
    var f, rest := fs[0], fs[1..];
    var q := Built(fs);
    EscapedField(f);
    NextPiece(q, false);
    FieldsEnd(false);
    if rest == [] {
      CutNot(Pair(f), "&;");
    } else {
      BuiltHead(fs);
      CutAt(Pair(f), '&', Built(rest), "&;");
      assert Cut(q, "&;") == (Pair(f), Some(Built(rest)));
      DecodeBuilt(rest);
      RawBytes(rest);
      RawLength(rest);
      hide Fields, FieldOf, Overruns, Pair, Built, Raw, Bare;
    }
  }

  lemma WeightHead(f: Field, fs: seq<Field>)
    ensures FieldsWeight([f] + fs) == Weight(f.name) + Weight(f.value) + 1 + FieldsWeight(fs)
  {
    assert ([f] + fs)[1..] == fs;
  }

  /** The server never finds more than the client added. */
  lemma {:induction false} FoundFits(fs: seq<Field>)
    requires Clean(fs)
    ensures FieldsWeight(Fields(Query(fs), false).0) <= FieldsWeight(fs)
  {
    if fs == [] {
      FieldsEnd(false);
    } else {
      FoundFirst(fs);
      Tail(fs);
      var f, rest := fs[0], fs[1..];
      FoundFits(rest);
      WeightHead(f, rest);
      WeightHead(f, Fields(Query(rest), false).0);
      if rest != [] {
        RawBytes(rest);
        RawWeight(rest);
        FieldsFit(Raw(rest), Escaped(rest));
        WeightHead(f, Fields(Some(Raw(rest)), Escaped(rest)).0);
      }
      hide Fields, Weight;
    }
  }

  lemma PlainAfterHead(fs: seq<Field>)
    requires fs != []
    ensures PlainAfter(fs) <==> PlainAfter(fs[1..]) && (fs[0].value == "" ==> AllPlain(fs[1..]))
  {
    var rest := fs[1..];
    hide Plain;
    assert forall i :: 0 <= i < |rest| ==> rest[i] == fs[i + 1];
    if PlainAfter(fs) {
      forall i, j | 0 <= i < j < |rest| && rest[i].value == "" ensures Plain(rest[j]) {
        assert fs[i + 1].value == "" && rest[j] == fs[j + 1];
      }
    }
    if PlainAfter(rest) && (fs[0].value == "" ==> AllPlain(rest)) {
      forall i, j | 0 <= i < j < |fs| && fs[i].value == "" ensures Plain(fs[j]) {
        assert fs[j] == rest[j - 1] && (i > 0 ==> rest[i - 1] == fs[i]);
      }
    }
  }

  lemma LeavesGapHead(fs: seq<Field>)
    requires fs != []
    ensures LeavesGap(fs) <==> LeavesGap(fs[1..]) || (fs[0].value == "" && Escaped(fs[1..]))
    ensures LeavesGap(fs[1..]) ==> Escaped(fs[1..])
  {
    var rest := fs[1..];
    hide Bare;
    assert forall i :: 0 <= i < |rest| ==> rest[i] == fs[i + 1];
    if LeavesGap(fs) {
      var i, j :| 0 <= i < j < |fs| && fs[i].value == "" && !Bare(fs[j]);
      assert !Bare(rest[j - 1]) && (i > 0 ==> rest[i - 1].value == "");
    }
    if LeavesGap(rest) {
      var i, j :| 0 <= i < j < |rest| && rest[i].value == "" && !Bare(rest[j]);
      assert fs[i + 1].value == "" && !Bare(fs[j + 1]);
    }
    if fs[0].value == "" && Escaped(rest) {
      var j :| 0 <= j < |rest| && !Bare(rest[j]);
      assert !Bare(fs[j + 1]);
    }
  }

  lemma SurvivesHead(fs: seq<Field>)
    requires fs != []
    ensures Survives(fs) <==>
      && fs[0].name != ""
      && (fs[0].value != "" ==> Survives(fs[1..]))
      && (fs[0].value == "" ==> |fs| > 1 && AllPlain(fs[1..]) && (EndsWell(fs[1..]) || Escaped(fs[1..])))
  {
    var rest := fs[1..];
    Tail(fs);
    PlainAfterHead(fs);
    LeavesGapHead(fs);
    assert forall i :: 0 < i < |fs| ==> rest[i - 1] == fs[i];
    if AllPlain(rest) {
      forall i | 0 < i < |fs| ensures fs[i].name != "" {
        assert Plain(rest[i - 1]);
      }
      assert PlainAfter(rest);
    }
    hide PlainAfter, LeavesGap, Escaped, AllPlain, Plain;
  }

  /** The round trip: the server finds exactly the fields the client added, in order and without reading past the end,
      if and only if no name is empty, every field after an empty value is plain, and the last value is not empty or
      some field after an empty value needs escapes. */
  lemma {:induction false} QueryRoundTrip(fs: seq<Field>)
    requires Clean(fs)
    ensures Fields(Query(fs), false) == (fs, false) <==> Survives(fs)
  {
    if fs == [] {
      FieldsEnd(false);
    } else {
      FoundFirst(fs);
      SurvivesHead(fs);
      Tail(fs);
      var f, rest := fs[0], fs[1..];
      if f.name == "" {
        FoundFits(rest);
        WeightHead(f, rest);
      } else if f.value != "" {
        QueryRoundTrip(rest);
        SameHead(f, Fields(Query(rest), false).0, rest);
      } else if rest != [] {
        RawRead(rest, Escaped(rest));
        SameHead(f, Fields(Some(Raw(rest)), Escaped(rest)).0, rest);
      }
      hide Fields, Survives;
    }
  }

  lemma OneFound(q: string, f: Field, gap: bool)
    requires Cut(q, "&;") == (q, None) && FieldOf(q) == Some(f) && !Overruns(q)
    ensures Fields(Some(q), gap) == ([f], false)
  {
    NextPiece(q, gap);
    FieldsEnd(gap || Gapes(q, None));
    assert Rest(q, None) == None;
    hide *;
    assert [f] + [] == [f];
  }

  lemma ReadTwice()
    ensures Decode("%72") == ("r", true) && CString("r") == "r"
  {
    DecodeStep("%72");
    DecodeEmpty();
    CStringWhole("r");
    hide Decode, CString;
    assert "%72"[3..] == "" && HexValue('7') == 7 && HexValue('2') == 2 && (16 * 7 + 2) as char == 'r';
    assert ['r'] + "" == "r";
  }

  /** An empty value and one more field, which is read without its escapes. */
  lemma EmptyFirst(f: Field, g: Field, value: string)
    requires f.name != "" && f.value == "" && Bytes(f.name) && Plain(Field(g.name, "")) && Bytes(g.name)
    requires Bytes(g.value) && Free(g.value, "&;") && g.value != "" && CString(Decode(g.value).0) == value
    ensures Clean([f, g]) && Fields(Query([f, g]), false) == ([f, Field(g.name, value)], false)
  {
    var q, h := RawPair(g), Field(g.name, value);
    PlainParts(Field(g.name, ""));
    DecodeSame(g.name);
    CStringWhole(g.name);
    CutPair(g, None);
    assert FieldOf(q) == Some(h) && !Overruns(q) && [f, g][1..] == [g] && Clean([f, g]);
    hide *;
    RawOne(g);
    OneFound(q, h, Escaped([g]));
    FoundFirst([f, g]);
    assert [f] + [h] == [f, h];
  }

  /** A concrete case: an empty limit makes the server read the value %72 as r. */
  lemma EmptyValueExample()
    ensures var fs := [Field("limit", ""), Field("sort", "%72")];
      Clean(fs) && Fields(Query(fs), false) == ([Field("limit", ""), Field("sort", "r")], false)
  {
    ReadTwice();
    hide Decode, CString, Fields, Query, Clean;
    EmptyFirst(Field("limit", ""), Field("sort", "%72"), "r");
  }

  /** And one where the last value may be empty: an earlier empty value and an escape have left a gap. */
  lemma GapExample(f: Field, g: Field, h: Field)
    requires Clean([f, g, h]) && f.name != "" && f.value == "" && Plain(g) && !Bare(g) && Plain(h)
    ensures Fields(Query([f, g, h]), false) == ([f, g, h], false)
  {
    var fs := [f, g, h];
    hide Plain, Bare;
    assert fs[0].value == "" && !Bare(fs[1]);
    assert PlainAfter(fs) && LeavesGap(fs);
    assert g.name != "" && h.name != "" by {
      PlainParts(g);
      PlainParts(h);
    }
    hide PlainAfter, LeavesGap, Fields, Query, Clean;
    QueryRoundTrip(fs);
  }

  lemma SameHead(f: Field, gs: seq<Field>, fs: seq<Field>)
    ensures [f] + gs == [f] + fs <==> gs == fs
  {
    assert ([f] + gs)[1..] == gs && ([f] + fs)[1..] == fs;
  }
}
