/** C strings and the library functions that take them apart. */
module Strings {
  import opened Basics

  predicate IsSpace(c: char) {
    c == ' ' || c == '\t' || c == '\n' || c == '\U{0B}' || c == '\U{0C}' || c == '\r'
  }

  /** A C string ends at its first NUL. */
  function CString(s: string): string {
    if s == "" || s[0] == '\0' then "" else [s[0]] + CString(s[1..])
  }

  lemma {:induction false} CStringAll(s: string)
    requires '\0' !in s
    ensures CString(s) == s
  {
    if s != "" {
      CStringAll(s[1..]);
      assert s == [s[0]] + s[1..];
    }
  }

  /** The first word of `s`, from its start to the first white space. */
  function Word(s: string): string {
    if s == "" || IsSpace(s[0]) then "" else [s[0]] + Word(s[1..])
  }

  lemma {:induction false} WordFits(s: string)
    ensures |Word(s)| <= |s|
  {
    if s != "" && !IsSpace(s[0]) {
      WordFits(s[1..]);
    }
  }

  /** split: the words of a line. */
  function Words(s: string): seq<string>
    decreases |s|
  {
    if s == "" then []
    else if IsSpace(s[0]) then Words(s[1..])
    else
      WordFits(s);
      [Word(s)] + Words(s[|Word(s)|..])
  }

  /** No white space, and no NUL. */
  predicate Solid(s: string) {
    forall i :: 0 <= i < |s| ==> !IsSpace(s[i]) && s[i] != '\0'
  }

  lemma SolidPlus(a: string, b: string)
    requires Solid(a) && Solid(b)
    ensures Solid(a + b)
  {
  }

  lemma {:induction false} WordOf(w: string, c: char, rest: string)
    requires Solid(w) && IsSpace(c)
    ensures Word(w + [c] + rest) == w
  {
    var s := w + [c] + rest;
    if w != "" {
      WordOf(w[1..], c, rest);
      assert s[1..] == w[1..] + [c] + rest;
      assert w == [w[0]] + w[1..];
    }
  }

  lemma WordsOf(w: string, c: char, rest: string)
    requires Solid(w) && w != "" && IsSpace(c)
    ensures Words(w + [c] + rest) == [w] + Words(rest)
  {
    var s := w + [c] + rest;
    WordOf(w, c, rest);
    assert s[0] == w[0] && s[|w|..] == [c] + rest && ([c] + rest)[1..] == rest;
    hide IsSpace;
  }

  lemma {:induction false} WordWhole(w: string)
    requires Solid(w)
    ensures Word(w) == w
  {
    if w != "" {
      WordWhole(w[1..]);
      assert w == [w[0]] + w[1..];
    }
  }

  /** The last word of a line. */
  lemma WordsLast(w: string)
    requires Solid(w) && w != ""
    ensures Words(w) == [w]
  {
    WordWhole(w);
    WordFits(w);
    assert w[|w|..] == "" && [w] + [] == [w];
    assert Words(w) == [Word(w)] + Words(w[|Word(w)|..]);
  }

  lemma WordsTwo(a: string, b: string)
    requires Solid(a) && a != "" && Solid(b) && b != ""
    ensures Words(a + [' '] + b) == [a, b]
  {
    assert IsSpace(' ');
    hide Words, Solid;
    WordsOf(a, ' ', b);
    WordsLast(b);
  }

  lemma WordsThree(a: string, b: string, c: string)
    requires Solid(a) && a != "" && Solid(b) && b != "" && Solid(c) && c != ""
    ensures Words(a + [' '] + b + [' '] + c) == [a, b, c]
  {
    assert IsSpace(' ');
    assert a + [' '] + (b + [' '] + c) == a + [' '] + b + [' '] + c;
    hide Words, Solid;
    WordsOf(a, ' ', b + [' '] + c);
    WordsTwo(b, c);
  }

  function Lower(s: string): string {
    if s == "" then "" else [if 'A' <= s[0] <= 'Z' then s[0] - 'A' + 'a' else s[0]] + Lower(s[1..])
  }

  /** strcasecmp */
  predicate Same(a: string, b: string) {
    Lower(a) == Lower(b)
  }

  /** The same letter, perhaps in the other case; or the same character. */
  predicate CaseAlike(c: char, d: char) {
    c == d || ('A' <= c <= 'Z' && d == c + 32 as char) || ('A' <= d <= 'Z' && c == d + 32 as char)
  }

  lemma {:induction false} LowerAt(s: string)
    ensures |Lower(s)| == |s|
    ensures forall i :: 0 <= i < |s| ==> Lower(s)[i] == if 'A' <= s[i] <= 'Z' then s[i] + 32 as char else s[i]
  {
    if s != "" {
      LowerAt(s[1..]);
    }
  }

  /** strcasecmp compares character by character, without regard to case. */
  lemma SameMeans(a: string, b: string)
    ensures Same(a, b) <==> |a| == |b| && forall i :: 0 <= i < |a| ==> CaseAlike(a[i], b[i])
  {
    LowerAt(a);
    LowerAt(b);
    hide Lower;
    if |a| == |b| {
      forall i | 0 <= i < |a| ensures CaseAlike(a[i], b[i]) <==> Lower(a)[i] == Lower(b)[i] {
      }
    }
  }

  /** strsep: what comes before the first of the separators, and what comes after if there is one. */
  function Cut(s: string, seps: string): (string, Option<string>) {
    if s == "" then ("", None)
    else if s[0] in seps then ("", Some(s[1..]))
    else
      var (a, b) := Cut(s[1..], seps);
      ([s[0]] + a, b)
  }

  const ULONG: nat := 0x1_0000_0000_0000_0000

  /** The value of the leading decimal digits. */
  function Digits(s: string, n: nat): nat {
    if s == "" || !('0' <= s[0] <= '9') then n else Digits(s[1..], 10 * n + (s[0] - '0') as nat)
  }

  /** strtoul on a word, in base 10 and 64 bits: too large a value saturates, a minus sign negates modulo 2^64. */
  function Strtoul(s: string): (r: nat)
    ensures r < ULONG
  {
    var neg := s != "" && s[0] == '-';
    var v := Digits(if s != "" && (s[0] == '-' || s[0] == '+') then s[1..] else s, 0);
    if v >= ULONG then ULONG - 1 else if neg then (ULONG - v) % ULONG else v
  }

  lemma {:induction false} CutShrinks(s: string, seps: string)
    ensures Cut(s, seps).1.Some? ==> |Cut(s, seps).1.value| < |s|
  {
    if s != "" && s[0] !in seps {
      CutShrinks(s[1..], seps);
    }
  }

  /** No separator is in `s`. */
  predicate Free(s: string, seps: string) {
    forall i :: 0 <= i < |s| ==> s[i] !in seps
  }

  lemma {:induction false} CutAt(a: string, c: char, b: string, seps: string)
    requires c in seps && Free(a, seps)
    ensures Cut(a + [c] + b, seps) == (a, Some(b))
  {
    var s := a + [c] + b;
    if a == "" {
      assert s[1..] == b;
    } else {
      assert s[1..] == a[1..] + [c] + b;
      CutAt(a[1..], c, b, seps);
      assert [a[0]] + a[1..] == a;
    }
  }

  lemma {:induction false} CutNot(s: string, seps: string)
    requires Free(s, seps)
    ensures Cut(s, seps) == (s, None)
  {
    if s != "" {
      CutNot(s[1..], seps);
      assert [s[0]] + s[1..] == s;
    }
  }

  /** strsep again and again. */
  function Pieces(s: string, seps: string): seq<string>
    decreases |s|
  {
    CutShrinks(s, seps);
    var (a, b) := Cut(s, seps);
    match b
    case None => [a]
    case Some(rest) => [a] + Pieces(rest, seps)
  }

  lemma PiecesOne(s: string, seps: string)
    requires Free(s, seps)
    ensures Pieces(s, seps) == [s]
  {
    CutNot(s, seps);
  }

  lemma {:induction false} PiecesJoin(a: string, c: char, b: string, seps: string)
    requires c in seps && Free(b, seps)
    ensures Pieces(a + [c] + b, seps) == Pieces(a, seps) + [b]
    decreases |a|
  {
    CutShrinks(a, seps);
    var s := a + [c] + b;
    var (x, y) := Cut(a, seps);
    CutPrefix(a, [c] + b, seps);
    assert a + ([c] + b) == s;
    match y
    case None =>
      CutAll(a, seps);
      CutNot(a, seps);
      CutAt(a, c, b, seps);
      CutNot(b, seps);
    case Some(rest) =>
      assert rest + ([c] + b) == rest + [c] + b;
      PiecesJoin(rest, c, b, seps);
  }

  lemma {:induction false} CutPrefix(a: string, b: string, seps: string)
    ensures match Cut(a, seps).1
            case None => true
            case Some(rest) => Cut(a + b, seps) == (Cut(a, seps).0, Some(rest + b))
  {
    if a != "" {
      assert (a + b)[1..] == a[1..] + b;
      CutPrefix(a[1..], b, seps);
    }
  }

  lemma {:induction false} CutAll(a: string, seps: string)
    requires Cut(a, seps).1.None?
    ensures Free(a, seps)
  {
    if a != "" {
      CutAll(a[1..], seps);
      assert forall i :: 0 < i < |a| ==> a[i] == a[1..][i - 1];
    }
  }
}
