/** Query strings: what xltop builds (query_escape, query_add, src/xltop.c) and what the server makes of it (q_decode,
    query_parse, src/query.c). Strings are byte strings: characters below 256. */
module Queries {
  import opened Basics
  import opened Strings

  predicate IsByte(c: char) {
    c < 256 as char
  }

  ghost predicate Bytes(s: string) {
    forall i :: 0 <= i < |s| ==> IsByte(s[i]) && s[i] != '\0'
  }

  // ---------- escaping ----------

  /** The unreserved characters of section 2.3 of RFC 3986, which are sent as they are. */
  predicate Unreserved(c: char) {
    'a' <= c <= 'z' || 'A' <= c <= 'Z' || '0' <= c <= '9' || c == '.' || c == '-' || c == '~' || c == '_'
  }

  /** %02hhX */
  function HexDigit(n: nat): char
    requires n < 16
  {
    if n < 10 then '0' + n as char else 'A' + (n - 10) as char
  }

  function EscapeChar(c: char): string
    requires IsByte(c)
  {
    if Unreserved(c) then [c] else ['%', HexDigit(c as nat / 16), HexDigit(c as nat % 16)]
  }

  ghost function Escape(s: string): string
    requires Bytes(s)
  {
    if s == "" then "" else EscapeChar(s[0]) + Escape(s[1..])
  }

  // ---------- decoding ----------

  /** isxdigit */
  predicate IsHex(c: char) {
    '0' <= c <= '9' || 'A' <= c <= 'F' || 'a' <= c <= 'f'
  }

  function HexValue(c: char): (n: nat)
    requires IsHex(c)
    ensures n < 16
  {
    if '0' <= c <= '9' then (c - '0') as nat
    else if 'A' <= c <= 'F' then (c - 'A') as nat + 10
    else (c - 'a') as nat + 10
  }

  /** What q_decode leaves of a string, and whether it got to the end: a plus is a space, %HH a byte, and a percent sign
      without two hexadecimal digits ends the decoding. */
  function Decode(s: string): (string, bool) {
    if s == "" then ("", true)
    else if s[0] != '%' then
      var (t, ok) := Decode(s[1..]);
      ([if s[0] == '+' then ' ' else s[0]] + t, ok)
    else if |s| >= 3 && IsHex(s[1]) && IsHex(s[2]) then
      var (t, ok) := Decode(s[3..]);
      ([(16 * HexValue(s[1]) + HexValue(s[2])) as char] + t, ok)
    else ("", false)
  }

  lemma HexRoundTrip(c: char)
    requires IsByte(c)
    ensures var h, l := HexDigit(c as nat / 16), HexDigit(c as nat % 16);
      IsHex(h) && IsHex(l) && (16 * HexValue(h) + HexValue(l)) as char == c
  {
    var h, l := c as nat / 16, c as nat % 16;
    assert 16 * h + l == c as nat && h < 16 && l < 16;
    assert HexValue(HexDigit(h)) == h && HexValue(HexDigit(l)) == l;
  }

  const UPPER := "0123456789ABCDEF"
  const LOWER := "0123456789abcdef"

  /** Hexadecimal digits of either case are read, and those of upper case written. */
  lemma HexMeans(n: nat)
    requires n < 16
    ensures HexDigit(n) == UPPER[n] && IsHex(UPPER[n]) && IsHex(LOWER[n])
    ensures HexValue(UPPER[n]) == HexValue(LOWER[n]) == n
  {
    if n < 10 {
      HexFigures(n);
    } else {
      HexLetters(n);
    }
  }

  lemma HexFigures(n: nat)
    requires n < 10
    ensures UPPER[n] == LOWER[n] == '0' + n as char
  {
    var i := n as int;
    assert i == 0 || i == 1 || i == 2 || i == 3 || i == 4 || i == 5 || i == 6 || i == 7 || i == 8 || i == 9;
  }

  lemma HexLetters(n: nat)
    requires 10 <= n < 16
    ensures UPPER[n] == 'A' + (n - 10) as char && LOWER[n] == 'a' + (n - 10) as char
  {
    var i := n as int;
    assert i == 10 || i == 11 || i == 12 || i == 13 || i == 14 || i == 15;
  }

  /** A plus is a space; a percent sign and two digits are the byte they stand for, whatever their case; any other
      character but the percent sign is itself. */
  lemma DecodeMeans(c: char, rest: string)
    ensures Decode("+" + rest) == (" " + Decode(rest).0, Decode(rest).1)
    ensures c !in "+%" ==> Decode([c] + rest) == ([c] + Decode(rest).0, Decode(rest).1)
    ensures IsByte(c) ==>
      && Decode(['%', UPPER[c as nat / 16], UPPER[c as nat % 16]] + rest) == ([c] + Decode(rest).0, Decode(rest).1)
      && Decode(['%', LOWER[c as nat / 16], LOWER[c as nat % 16]] + rest) == ([c] + Decode(rest).0, Decode(rest).1)
  {
    assert "+%"[0] == '+' && "+%"[1] == '%';
    assert ("+" + rest)[1..] == rest && ([c] + rest)[1..] == rest;
    DecodeStep("+" + rest);
    DecodeStep([c] + rest);
    if IsByte(c) {
      var h, l := c as nat / 16, c as nat % 16;
      assert 16 * h + l == c as nat && h < 16;
      HexMeans(h);
      HexMeans(l);
      assert (['%', UPPER[h], UPPER[l]] + rest)[3..] == rest && (['%', LOWER[h], LOWER[l]] + rest)[3..] == rest;
      hide Decode, HexValue, IsHex, UPPER, LOWER;
      DecodeStep(['%', UPPER[h], UPPER[l]] + rest);
      DecodeStep(['%', LOWER[h], LOWER[l]] + rest);
    }
  }

  lemma DecodeEmpty()
    ensures Decode("") == ("", true)
  {
  }

  lemma DecodeStep(s: string)
    requires s != ""
    ensures s[0] != '%' ==> Decode(s) == ([if s[0] == '+' then ' ' else s[0]] + Decode(s[1..]).0, Decode(s[1..]).1)
    ensures s[0] == '%' && |s| >= 3 && IsHex(s[1]) && IsHex(s[2]) ==>
      Decode(s) == ([(16 * HexValue(s[1]) + HexValue(s[2])) as char] + Decode(s[3..]).0, Decode(s[3..]).1)
    ensures s[0] == '%' && !(|s| >= 3 && IsHex(s[1]) && IsHex(s[2])) ==> Decode(s) == ("", false)
  {
  }

  lemma DecodeOne(c: char, t: string)
    requires IsByte(c)
    ensures Decode(EscapeChar(c) + t) == ([c] + Decode(t).0, Decode(t).1)
  {
    var e := EscapeChar(c);
    DecodeStep(e + t);
    hide Decode;
    if Unreserved(c) {
      assert (e + t)[1..] == t;
    } else {
      HexRoundTrip(c);
      assert (e + t)[3..] == t;
    }
  }

  /** Decoding undoes escaping, whatever follows. */
  lemma {:induction false} DecodeEscape(s: string, rest: string)
    requires Bytes(s)
    ensures Decode(Escape(s) + rest) == (s + Decode(rest).0, Decode(rest).1)
  {
    hide Decode, EscapeChar;
    if s == "" {
      assert Escape(s) + rest == rest && s + Decode(rest).0 == Decode(rest).0;
    } else {
      var c, e, t := s[0], EscapeChar(s[0]), Escape(s[1..]) + rest;
      assert Escape(s) + rest == e + t;
      DecodeOne(c, t);
      DecodeEscape(s[1..], rest);
      assert [c] + (s[1..] + Decode(rest).0) == s + Decode(rest).0;
    }
  }

  /** Escaped strings contain nothing that separates fields. */
  lemma {:induction false} EscapeFree(s: string)
    requires Bytes(s)
    ensures Free(Escape(s), "&;=") && (s != "" ==> Escape(s) != "")
  {
    if s != "" {
      EscapeFree(s[1..]);
      if !Unreserved(s[0]) {
        HexRoundTrip(s[0]);
      }
    }
  }

  // ---------- the client ----------

  datatype Field = Field(name: string, value: string)

  ghost predicate Clean(fs: seq<Field>) {
    forall i :: 0 <= i < |fs| ==> Bytes(fs[i].name) && Bytes(fs[i].value)
  }

  ghost function Pair(f: Field): string
    requires Bytes(f.name) && Bytes(f.value)
  {
    Escape(f.name) + "=" + Escape(f.value)
  }

  /** The query string that query_add builds, one field after the other. */
  ghost function Built(fs: seq<Field>): string
    requires Clean(fs)
  {
    if |fs| == 0 then ""
    else if |fs| == 1 then Pair(fs[0])
    else Built(fs[..|fs| - 1]) + "&" + Pair(fs[|fs| - 1])
  }

  /** query_escape: a write pointer runs through a buffer three times as long as the string. */
  method QueryEscape(s: string) returns (e: string)
    requires Bytes(s)
    ensures e == Escape(s)
  {
    var buf := new char[3 * |s| + 1];
    var p := 0;
    for i := 0 to |s|
      invariant 0 <= p <= 3 * i && buf[..p] == Escape(s[..i])
    {
      EscapeOneMore(s[..i], s[i]);
      assert s[..i + 1] == s[..i] + [s[i]];
      p := PutEscaped(buf, p, s[i]);
    }
    assert s[..|s|] == s;
    e := buf[..p];
  }

  /** One character, through the write pointer. */
  method PutEscaped(buf: array<char>, p: nat, c: char) returns (q: nat)
    requires IsByte(c) && p + 3 <= buf.Length
    modifies buf
    ensures q <= p + 3 && q <= buf.Length && buf[..q] == old(buf[..p]) + EscapeChar(c)
  {
    if Unreserved(c) {
      buf[p] := c;
      q := p + 1;
    } else {
      buf[p], buf[p + 1], buf[p + 2] := '%', HexDigit(c as nat / 16), HexDigit(c as nat % 16);
      q := p + 3;
    }
  }

  lemma {:induction false} EscapeOneMore(s: string, c: char)
    requires Bytes(s) && IsByte(c) && c != '\0'
    ensures Bytes(s + [c]) && Escape(s + [c]) == Escape(s) + EscapeChar(c)
  {
    if s == "" {
      assert s + [c] == [c] && [c][1..] == "";
    } else {
      EscapeOneMore(s[1..], c);
      assert (s + [c])[1..] == s[1..] + [c];
    }
  }

  /** query_add: no query yet is not the same as an empty one. */
  method QueryAdd(q: Option<string>, f: Field, ghost fs: seq<Field>) returns (r: Option<string>)
    requires Clean(fs) && Clean(fs + [f]) && q == if fs == [] then None else Some(Built(fs))
    ensures r == Some(Built(fs + [f]))
  {
    assert f == (fs + [f])[|fs|] && fs == (fs + [f])[..|fs|];
    var name := QueryEscape(f.name);
    var value := QueryEscape(f.value);
    match q
    case None => r := Some(name + "=" + value);
    case Some(s) => r := Some(s + "&" + name + "=" + value);
      assert s + "&" + name + "=" + value == s + "&" + (name + "=" + value);
  }

  // ---------- the server ----------

  /** One more character: how the read pointer runs through the string. */
  lemma DecodeOn(whole: string, done: string, here: string, c: char, left: string)
    requires Decode(whole) == (done + Decode(here).0, Decode(here).1)
    requires Decode(here) == ([c] + Decode(left).0, Decode(left).1)
    ensures Decode(whole) == (done + [c] + Decode(left).0, Decode(left).1)
  {
    hide Decode;
    assert done + ([c] + Decode(left).0) == done + [c] + Decode(left).0;
  }

  lemma DecodeEnds(whole: string, done: string, here: string, good: bool)
    requires Decode(whole) == (done + Decode(here).0, Decode(here).1) && Decode(here) == ("", good)
    ensures Decode(whole) == (done, good)
  {
    hide Decode;
    assert done + "" == done;
  }

  /** The pointers have parted exactly if an escape has gone by. */
  ghost predicate Parted(all: string, start: nat, p: nat, s: nat)
    requires start <= p <= s <= |all|
  {
    p < s <==> '%' in all[start..p]
  }

  lemma PartedOn(all: string, start: nat, p: nat, s: nat, next: nat)
    requires start <= p <= s < next <= |all| && Parted(all, start, p, s) && (next == s + 1 <==> all[s] != '%')
    ensures Parted(all, start, p + 1, next)
  {
    assert all[start..p + 1] == all[start..p] + [all[p]];
  }

  /** What the read pointer yields next; `all` is the string before the decoding began. */
  method DecodeChar(a: array<char>, s: nat, ghost end: nat, ghost all: string) returns (good: bool, c: char, next: nat)
    requires s < end < a.Length == |all| && a[s..] == all[s..] && a[end] == '\0'
    ensures s <= next <= end && (good ==> s < next && (next == s + 1 <==> all[s] != '%'))
    ensures good ==> Decode(all[s..end]) == ([c] + Decode(all[next..end]).0, Decode(all[next..end]).1)
    ensures !good ==> all[s] == '%' && Decode(all[s..end]) == ("", false)
  {
    ghost var t := all[s..end];
    DecodeStep(t);
    hide Decode;
    assert forall k :: s <= k < |all| ==> a[k] == a[s..][k - s] == all[s..][k - s] == all[k];
    if a[s] != '%' {
      assert t[1..] == all[s + 1..end];
      return true, if a[s] == '+' then ' ' else a[s], s + 1;
    }
    if !(IsHex(a[s + 1]) && IsHex(a[s + 2])) {
      return false, '\0', s;
    }
    assert t[3..] == all[s + 3..end];
    return true, (16 * HexValue(a[s + 1]) + HexValue(a[s + 2])) as char, s + 3;
  }

  /** The write pointer puts a character behind what is `done`; what the read pointer has still to read stays. */
  method PutChar(a: array<char>, start: nat, p: nat, next: nat, c: char, ghost all: string, ghost done: string)
    requires start <= p < next <= a.Length == |all|
    requires a[..start] == all[..start] && a[start..p] == done && a[next..] == all[next..]
    modifies a
    ensures a[..start] == all[..start] && a[start..p + 1] == done + [c] && a[next..] == all[next..]
  {
    ghost var before, after := a[..start], a[next..];
    a[p] := c;
    assert a[..start] == before && a[next..] == after;
    assert a[start..p + 1] == a[start..p] + [a[p]];
  }

  /** The final NUL, and a look at the byte where reading stopped. */
  method PutEnd(a: array<char>, start: nat, p: nat, s: nat, ghost end: nat, ghost all: string, ghost done: string)
    returns (ok: bool)
    requires start <= p <= s <= end < a.Length == |all| && all[end] == '\0'
    requires a[..start] == all[..start] && a[start..p] == done && a[s..] == all[s..]
    modifies a
    ensures a[..start] == all[..start] && a[start..p] == done && a[p] == '\0' && a[end..] == all[end..]
    ensures ok <==> p == s || all[s] == '\0'
  {
    assert a[s] == a[s..][0] == all[s..][0];
    ghost var before, after := a[..start], a[s..][end - s..];
    assert after == a[end..] && after == all[s..][end - s..] == all[end..];
    a[p] := '\0';
    ok := a[s] == '\0';
    assert a[..start] == before && a[start..p] == done;
    assert a[end..] == all[end..];
  }

  lemma DecodeStarts(all: string, start: nat, end: nat)
    requires start <= end <= |all|
    ensures Decode(all[start..end]) == ("" + Decode(all[start..end]).0, Decode(all[start..end]).1)
    ensures Parted(all, start, start, start)
  {
    var (t, ok) := Decode(all[start..end]);
    assert "" + t == t;
  }

  lemma PartedMeans(all: string, start: nat, p: nat, s: nat)
    requires start <= p <= s <= |all| && Parted(all, start, p, s)
    ensures p < s <==> '%' in all[start..p]
  {
  }

  lemma LeftToRead(t: string, all: string, s: nat, next: nat)
    requires s <= next <= |all| && t == all[s..]
    ensures t[next - s..] == all[next..]
  {
  }

  /** q_decode, in place: a read pointer runs ahead of a write pointer, up to the NUL at `end`. The loop looks for the
      end only after the first character, so that an empty string is not noticed: there `end` is the next NUL after it.
      The code reports failure by looking at the byte it stopped at after it has put the final NUL; where the two
      pointers never parted that is the NUL itself, so a malformed escape is only reported after a good one. */
  method QDecode(a: array<char>, start: nat, ghost end: nat) returns (ok: bool, stop: nat)
    requires start < end < a.Length && a[end] == '\0' && forall i :: start < i < end ==> a[i] != '\0'
    modifies a
    ensures start <= stop <= end && a[stop] == '\0'
    ensures a[start..stop] == Decode(old(a[start..end])).0
    ensures ok <==> Decode(old(a[start..end])).1 || '%' !in old(a[start..stop])
    ensures a[..start] == old(a[..start]) && a[end..] == old(a[end..])
  {
    hide Decode, Parted;
    ghost var all, done := a[..], "";
    var p, s, good := start, start, true;
    DecodeStarts(all, start, end);
    while good && (s == start || a[s] != '\0')
      invariant start <= p <= s <= end && |all| == a.Length && Parted(all, start, p, s)
      invariant forall i :: s <= i <= end ==> a[i] == all[i]
      invariant a[..start] == all[..start] && a[start..p] == done && a[s..] == all[s..]
      invariant Decode(all[start..end]) == (done + Decode(all[s..end]).0, Decode(all[s..end]).1)
      invariant !good ==> s < end && all[s] == '%' && Decode(all[s..end]) == ("", false)
      decreases end - s + if good then 1 else 0
    {
      var c, next;
      good, c, next := DecodeChar(a, s, end, all);
      if good {
        DecodeOn(all[start..end], done, all[s..end], c, all[next..end]);
        PartedOn(all, start, p, s, next);
        LeftToRead(a[s..], all, s, next);
        assert a[next..] == a[s..][next - s..];
        PutChar(a, start, p, next, c, all, done);
        done := done + [c];
        p, s := p + 1, next;
      }
    }
    DecodeEmpty();
    assert s == end ==> all[s..end] == "";
    DecodeEnds(all[start..end], done, all[s..end], good);
    PartedMeans(all, start, p, s);
    ok := PutEnd(a, start, p, s, end, all, done);
    stop := p;
  }

  // ---------- fields ----------

  /** What query_parse makes of one piece: nothing if it or the field name is empty. Decoded strings end at a NUL. */
  function FieldOf(piece: string): Option<Field> {
    var (f, v) := Cut(piece, "=");
    if f == "" then None
    else Some(Field(CString(Decode(f).0), CString(Decode(if v.None? then "" else v.value).0)))
  }

  /** The value is empty, so that q_decode runs on from its end: to the end of the name's own remains if the name was
      shortened by an escape, and into what follows the piece if not. */
  predicate Overruns(piece: string) {
    var (f, v) := Cut(piece, "=");
    f != "" && match v case None => '%' !in f case Some(x) => x == ""
  }

  /** What query_parse goes on with after a piece. */
  function Rest(piece: string, more: Option<string>): Option<string> {
    if Overruns(piece) && more.Some? then Some(CString(Decode(more.value).0)) else more
  }

  /** That leaves a gap: between the end of the string and the NUL that ended it before. */
  predicate Gapes(piece: string, more: Option<string>) {
    Overruns(piece) && more.Some? && |CString(Decode(more.value).0)| < |more.value|
  }

  lemma {:induction false} DecodeShrinks(s: string)
    ensures |CString(Decode(s).0)| <= |Decode(s).0| <= |s|
    decreases |s|
  {
    CStringShrinks(Decode(s).0);
    if s != "" {
      DecodeStep(s);
      DecodeShrinks(s[1..]);
      if |s| >= 3 {
        DecodeShrinks(s[3..]);
      }
    }
  }

  lemma {:induction false} CStringShrinks(s: string)
    ensures |CString(s)| <= |s|
  {
    if s != "" {
      CStringShrinks(s[1..]);
    }
  }

  lemma RestShrinks(q: string)
    ensures var (piece, more) := Cut(q, "&;"); Rest(piece, more).Some? ==> |Rest(piece, more).value| < |q|
  {
    var (piece, more) := Cut(q, "&;");
    CutShrinks(q, "&;");
    if more.Some? {
      DecodeShrinks(more.value);
    }
  }

  /** The fields of a query string, in order; and whether in the end q_decode runs past the end of the string's memory.
      With a gap there is more memory than the string takes. */
  function Fields(s: Option<string>, gap: bool): (seq<Field>, bool)
    decreases if s.Some? then |s.value| + 1 else 0
  {
    match s
    case None => ([], false)
    case Some(q) =>
      RestShrinks(q);
      var (piece, more) := Cut(q, "&;");
      if Overruns(piece) && more == None && !gap then ([], true)
      else
        var (fs, past) := Fields(Rest(piece, more), gap || Gapes(piece, more));
        (match FieldOf(piece) case None => fs case Some(f) => [f] + fs, past)
  }

  lemma FieldsEnd(gap: bool)
    ensures Fields(None, gap) == ([], false)
  {
  }

  lemma NextPiece(q: string, gap: bool)
    ensures var (piece, more) := Cut(q, "&;");
      && (Overruns(piece) ==> FieldOf(piece).Some?)
      && (Overruns(piece) && more == None && !gap ==> Fields(Some(q), gap) == ([], true))
      && (!(Overruns(piece) && more == None && !gap) ==>
            var (fs, past) := Fields(Rest(piece, more), gap || Gapes(piece, more));
            Fields(Some(q), gap) == (match FieldOf(piece) case None => fs case Some(f) => [f] + fs, past))
  {
  }
}
