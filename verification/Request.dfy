/** Requests as text: what a batch parser (src/botz.c) finds in the bytes of a request with any method, target, headers
    and body, and in request lines that are refused. */
module Requests {
  import opened Basics
  import opened Strings
  import opened Http
  import opened Numbers

  // ---------- words ----------

  lemma LineWordsIs(line: string)
    requires '\0' !in line
    ensures LineWords(line) == Words(line)
  {
    CStringAll(line);
  }

  lemma NoWords()
    ensures Words("") == [] && Words("\r") == [] && IsSpace(' ') && IsSpace('\r')
  {
    assert "\r"[1..] == "";
  }

  /** Words with one space between them, and the carriage return before the newline. */
  lemma OneWord(a: string)
    requires Solid(a) && a != ""
    ensures LineWords(a + ['\r']) == [a] && '\n' !in a + ['\r']
  {
    LineWordsIs(a + ['\r']);
    NoWords();
    assert a + ['\r'] + "" == a + ['\r'];
    hide LineWords, Words, Word;
    WordsOf(a, '\r', "");
  }

  lemma TwoWords(a: string, b: string)
    requires Solid(a) && a != "" && Solid(b) && b != ""
    ensures LineWords(a + [' '] + b + ['\r']) == [a, b] && '\n' !in a + [' '] + b + ['\r']
  {
    var line := a + [' '] + b + ['\r'];
    LineWordsIs(line);
    NoWords();
    assert b + ['\r'] + "" == b + ['\r'] && a + [' '] + (b + ['\r']) == line;
    hide LineWords, Words, Word;
    WordsOf(b, '\r', "");
    WordsOf(a, ' ', b + ['\r']);
  }

  lemma ThreeWords(a: string, b: string, c: string)
    requires Solid(a) && a != "" && Solid(b) && b != "" && Solid(c) && c != ""
    ensures var line := a + [' '] + b + [' '] + c + ['\r']; LineWords(line) == [a, b, c] && '\n' !in line
  {
    var line := a + [' '] + b + [' '] + c + ['\r'];
    LineWordsIs(line);
    NoWords();
    assert c + ['\r'] + "" == c + ['\r'] && b + [' '] + (c + ['\r']) == b + [' '] + c + ['\r'];
    assert a + [' '] + (b + [' '] + c + ['\r']) == line;
    hide LineWords, Words, Word;
    WordsOf(c, '\r', "");
    WordsOf(b, ' ', c + ['\r']);
    WordsOf(a, ' ', b + [' '] + c + ['\r']);
  }

  lemma FirstLineIs(line: string, rest: string)
    requires '\n' !in line
    ensures FirstLine(line + "\n" + rest) == Some((line, rest))
  {
    assert '\n' == "\n"[0] && line + ['\n'] + rest == line + "\n" + rest;
    CutAt(line, '\n', rest, "\n");
  }

  // ---------- numbers ----------

  lemma {:induction false} DigitsAppends(s: string, c: char, n: nat)
    requires AllDigits(s) && '0' <= c <= '9'
    ensures Digits(s + [c], n) == 10 * Digits(s, n) + (c - '0') as nat
  {
    if s == "" {
      assert (s + [c])[1..] == "";
    } else {
      assert (s + [c])[1..] == s[1..] + [c];
      DigitsAppends(s[1..], c, 10 * n + (s[0] - '0') as nat);
    }
  }

  lemma {:induction false} DecimalValue(n: nat)
    ensures Digits(Decimal(n), 0) == n && Solid(Decimal(n)) && Decimal(n) != "" && '0' <= Decimal(n)[0] <= '9'
  {
    DecimalDigits(n);
    if n < 10 {
      assert Decimal(n)[1..] == "";
    } else {
      DecimalValue(n / 10);
      DecimalDigits(n / 10);
      DigitsAppends(Decimal(n / 10), '0' + (n % 10) as char, 0);
    }
  }

  /** strtoul reads what %zu writes. */
  lemma LengthRead(n: nat)
    requires n < ULONG
    ensures Strtoul(Decimal(n)) == n
  {
    DecimalValue(n);
    hide Decimal, Digits, Solid;
  }

  // ---------- paths ----------

  /** The names in a path: pathsep skips empty ones, and bp_walk skips dots. */
  function NamesIn(pieces: seq<string>): seq<string> {
    if pieces == [] then []
    else (if pieces[0] in {"", "."} then [] else [pieces[0]]) + NamesIn(pieces[1..])
  }

  // ---------- the request line ----------

  function Verb(m: Method): string {
    match m
    case GET => "GET"
    case POST => "POST"
    case PUT => "PUT"
    case DELETE => "DELETE"
  }

  function Target(path: string, query: Option<string>): string {
    match query
    case None => path
    case Some(q) => path + ['?'] + q
  }

  const VERSION := "HTTP/1.1"

  function StartText(m: Method, path: string, query: Option<string>): string {
    Verb(m) + [' '] + Target(path, query) + [' '] + VERSION + ['\r']
  }

  /** One word without a question mark, and a query string that is none or no more than one word. */
  predicate Targets(path: string, query: Option<string>) {
    Solid(path) && path != "" && '?' !in path && (query.Some? ==> Solid(query.value))
  }

  lemma VerbWord(m: Method)
    ensures Solid(Verb(m)) && Verb(m) != "" && MethodOf(Verb(m)) == Some(m) && Solid(VERSION) && VERSION != ""
  {
  }

  lemma TargetWord(path: string, query: Option<string>)
    requires Targets(path, query)
    ensures var t := Target(path, query); Solid(t) && t != "" && Cut(t, "?") == (path, query)
  {
    assert '?' == "?"[0];
    match query
    case None => CutNot(path, "?");
    case Some(q) => CutAt(path, '?', q, "?");
  }

  lemma StartIs(m: Method, path: string, query: Option<string>)
    requires Targets(path, query)
    ensures StartOf(LineWords(StartText(m, path, query))) == Start.Line(m, path, query)
    ensures '\n' !in StartText(m, path, query)
  {
    VerbWord(m);
    TargetWord(path, query);
    hide Verb, Target, Targets, Solid, LineWords, Cut, MethodOf;
    ThreeWords(Verb(m), Target(path, query), VERSION);
  }

  // ---------- headers ----------

  /** A header line, without its newline, that says nothing about length and closing. */
  predicate Harmless(line: string) {
    && '\n' !in line && LineWords(line) != []
    && !Same(LineWords(line)[0], "Connection:") && !Same(LineWords(line)[0], "Content-Length:")
  }

  predicate AllHarmless(hs: seq<string>) {
    forall i :: 0 <= i < |hs| ==> Harmless(hs[i])
  }

  function Lines(hs: seq<string>): string {
    if hs == [] then "" else hs[0] + "\n" + Lines(hs[1..])
  }

  lemma OneHeader(line: string, rest: string, m: Meta)
    requires '\n' !in line
    ensures var ws := LineWords(line);
      Headers(line + "\n" + rest, m) == if ws == [] then Some((m, rest)) else Headers(rest, HeaderMeta(m, ws))
  {
    FirstLineIs(line, rest);
    CutShrinks(line + "\n" + rest, "\n");
    hide FirstLine, LineWords, HeaderMeta, Cut;
  }

  lemma {:induction false} HarmlessRead(hs: seq<string>, rest: string, m: Meta)
    requires AllHarmless(hs)
    ensures Headers(Lines(hs) + rest, m) == Headers(rest, m)
  {
    if hs == [] {
      assert Lines(hs) + rest == rest;
    } else {
      hide *;
      FirstOfLines(hs, rest);
      FirstHarmless(hs, m);
      HarmlessRead(hs[1..], rest, m);
      OneHeader(hs[0], Lines(hs[1..]) + rest, m);
    }
  }

  lemma FirstOfLines(hs: seq<string>, rest: string)
    requires hs != []
    ensures Lines(hs) + rest == hs[0] + "\n" + (Lines(hs[1..]) + rest)
  {
  }

  lemma FirstHarmless(hs: seq<string>, m: Meta)
    requires AllHarmless(hs) && hs != []
    ensures '\n' !in hs[0] && LineWords(hs[0]) != [] && HeaderMeta(m, LineWords(hs[0])) == m && AllHarmless(hs[1..])
  {
    assert Harmless(hs[0]);
    hide LineWords, Same, Strtoul;
  }

  const LENGTH := "Content-Length:"
  const CONNECTION := "Connection:"

  function LengthText(n: nat): string {
    LENGTH + [' '] + Decimal(n) + ['\r']
  }

  const CLOSE := CONNECTION + [' '] + "close" + ['\r']

  lemma HeaderWords()
    ensures Solid(LENGTH) && Solid(CONNECTION) && Solid("close") && LENGTH != "" && CONNECTION != "" && "close" != ""
    ensures |LENGTH| != |"Connection:"|
  {
  }

  lemma HeaderNames()
    ensures Same(LENGTH, "Content-Length:") && Same(CONNECTION, "Connection:") && Same("close", "close")
    ensures !Same(LENGTH, "Connection:")
  {
    HeaderWords();
    hide Lower, Same, Solid;
    NamesDiffer(LENGTH, "Connection:");
    SameAs(LENGTH);
    SameAs(CONNECTION);
    SameAs("close");
  }

  lemma SameAs(a: string)
    ensures Same(a, a)
  {
    hide Lower;
  }

  lemma NamesDiffer(a: string, b: string)
    requires |a| != |b|
    ensures !Same(a, b)
  {
    LowerKeeps(a);
    LowerKeeps(b);
    hide Lower;
  }

  lemma {:induction false} LowerKeeps(s: string)
    ensures |Lower(s)| == |s|
  {
    if s != "" {
      LowerKeeps(s[1..]);
    }
  }

  /** The length header says how long the body is. */
  lemma LengthHeader(n: nat, rest: string, m: Meta)
    requires n < ULONG
    ensures Headers(LengthText(n) + "\n" + rest, m) == Headers(rest, m.(len := n))
  {
    DecimalValue(n);
    HeaderWords();
    HeaderNames();
    LengthRead(n);
    hide Solid, Decimal, Same, Strtoul, LineWords, Headers, Digits;
    TwoWords(LENGTH, Decimal(n));
    OneHeader(LengthText(n), rest, m);
  }

  lemma CloseHeader(rest: string, m: Meta)
    ensures Headers(CLOSE + "\n" + rest, m) == Headers(rest, m.(close := true))
  {
    HeaderWords();
    HeaderNames();
    hide Solid, Same, LineWords, Headers;
    TwoWords(CONNECTION, "close");
    OneHeader(CLOSE, rest, m);
  }

  lemma BlankHeader(rest: string, m: Meta)
    ensures Headers("\r\n" + rest, m) == Some((m, rest))
  {
    assert "\r" + "\n" + rest == "\r\n" + rest;
    LineWordsIs("\r");
    NoWords();
    hide LineWords, Words, Headers;
    OneHeader("\r", rest, m);
  }

  /** Between request line and end of the headers, exactly this header, in whatever case, makes the connection send the
      note to go on. */
  lemma ExpectRead(x: Exchange, name: string, value: string)
    requires x.inHeaders && Solid(name) && name != "" && Solid(value) && value != ""
    requires !Same(name, "Connection:") && !Same(name, "Content-Length:") && !Same(name, "Cookie:")
    ensures ReadLine(x, name + [' '] + value + ['\r']) ==
      if Same(name, "Expect:") && Same(value, "100-Continue") then x.(want100 := true) else x
  {
    TwoWords(name, value);
    hide Solid, LineWords, Same, Strtoul;
  }

  // ---------- the whole request ----------

  /** A request as a client writes it: the length of its body among harmless headers, perhaps a header that asks for
      the connection to be closed, a blank line, and the body. */
  function Text(m: Method, path: string, query: Option<string>, before: seq<string>, behind: seq<string>, close: bool,
                body: string): string {
    StartText(m, path, query) + "\n" +
    (Lines(before) + (LengthText(|body|) + "\n" + (Lines(behind) + (CloseText(close) + ("\r\n" + body)))))
  }

  function CloseText(close: bool): string {
    if close then CLOSE + "\n" else ""
  }

  lemma HeadersRead(before: seq<string>, behind: seq<string>, close: bool, body: string, rest: string)
    requires AllHarmless(before) && AllHarmless(behind) && |body| < ULONG
    ensures var t := CloseText(close) + ("\r\n" + (body + rest));
      Headers(Lines(before) + (LengthText(|body|) + "\n" + (Lines(behind) + t)), Meta(0, false)) ==
        Some((Meta(|body|, close), body + rest))
  {
    var m := Meta(|body|, false);
    var t := CloseText(close) + ("\r\n" + (body + rest));
    HarmlessRead(before, LengthText(|body|) + "\n" + (Lines(behind) + t), Meta(0, false));
    LengthHeader(|body|, Lines(behind) + t, Meta(0, false));
    HarmlessRead(behind, t, m);
    if close {
      assert t == CLOSE + "\n" + ("\r\n" + (body + rest));
      CloseHeader("\r\n" + (body + rest), m);
    } else {
      assert t == "\r\n" + (body + rest);
    }
    hide Headers, Lines, LengthText, CLOSE;
    BlankHeader(body + rest, Meta(|body|, close));
  }

  lemma TextThen(m: Method, path: string, query: Option<string>, before: seq<string>, behind: seq<string>, close: bool,
                 body: string, rest: string)
    ensures Text(m, path, query, before, behind, close, body) + rest ==
      StartText(m, path, query) + "\n" +
      (Lines(before) + (LengthText(|body|) + "\n" + (Lines(behind) + (CloseText(close) + ("\r\n" + (body + rest))))))
  {
    hide StartText, Lines, LengthText, CloseText;
    var t1, t2 := "\r\n" + body, "\r\n" + (body + rest);
    assert t1 + rest == t2;
    assert CloseText(close) + t1 + rest == CloseText(close) + t2;
  }

  lemma BodyTaken(m: Method, path: string, query: Option<string>, meta: Meta, body: string, rest: string)
    requires meta.len == |body|
    ensures Bodied(m, path, query, meta, body + rest) == Complete(Request(m, path, query, body), meta.close, rest)
  {
    assert (body + rest)[..|body|] == body && (body + rest)[|body|..] == rest;
  }

  lemma StartsMessage(m: Method, path: string, query: Option<string>, rest: string)
    requires Targets(path, query)
    ensures Message(StartText(m, path, query) + "\n" + rest) ==
      match Headers(rest, Meta(0, false))
      case None => Incomplete
      case Some((meta, after)) => Bodied(m, path, query, meta, after)
  {
    StartIs(m, path, query);
    FirstLineIs(StartText(m, path, query), rest);
    CutShrinks(StartText(m, path, query) + "\n" + rest, "\n");
    hide StartText, Targets, FirstLine, LineWords, StartOf, Headers, Bodied, Cut;
  }

  /** A batch parser finds the request as it was written: its method, path and query string, and exactly the bytes of
      its body; what follows is left. */
  lemma RequestRead(m: Method, path: string, query: Option<string>, before: seq<string>, behind: seq<string>,
                    close: bool, body: string, rest: string)
    requires Targets(path, query) && AllHarmless(before) && AllHarmless(behind) && |body| < ULONG
    ensures Message(Text(m, path, query, before, behind, close, body) + rest) ==
      Complete(Request(m, path, query, body), close, rest)
    ensures Batch(Text(m, path, query, before, behind, close, body) + rest) ==
      [Request(m, path, query, body)] + if close then [] else Batch(rest)
  {
    var all := Text(m, path, query, before, behind, close, body) + rest;
    MessageShrinks(all);
    assert Message(all).Complete? ==>
      Batch(all) == [Message(all).asked] + if Message(all).close then [] else Batch(Message(all).rest);
    hide *;
    TextThen(m, path, query, before, behind, close, body, rest);
    HeadersRead(before, behind, close, body, rest);
    StartsMessage(m, path, query, Lines(before) +
      (LengthText(|body|) + "\n" + (Lines(behind) + (CloseText(close) + ("\r\n" + (body + rest))))));
    BodyTaken(m, path, query, Meta(|body|, close), body, rest);
  }

  /** Blank lines before a request are skipped. */
  lemma BlankSkipped(s: string)
    ensures Batch("\r\n" + s) == Batch(s)
  {
    assert "\r" + "\n" + s == "\r\n" + s;
    LineWordsIs("\r");
    NoWords();
    FirstLineIs("\r", s);
    CutShrinks("\r\n" + s, "\n");
    MessageShrinks("\r\n" + s);
    assert Message("\r\n" + s) == Message(s);
    hide FirstLine, LineWords, Message, Cut;
  }

  // ---------- refusals ----------

  lemma RefusedMessage(line: string, status: int, rest: string)
    requires '\n' !in line && StartOf(LineWords(line)) == Bad(status)
    ensures Batch(line + "\n" + rest) == [Refused(status)]
  {
    FirstLineIs(line, rest);
    CutShrinks(line + "\n" + rest, "\n");
    MessageShrinks(line + "\n" + rest);
    hide FirstLine, LineWords, StartOf, Headers, Bodied, Cut;
  }

  lemma FewWords(w: string, target: string)
    ensures StartOf([w]) == StartOf([w, target]) == Bad(400)
  {
  }

  lemma WrongVerb(w: string, target: string)
    ensures w in {"CONNECT", "HEAD", "OPTIONS", "TRACE"} ==> StartOf([w, target, VERSION]) == Bad(405)
    ensures w !in {"GET", "POST", "PUT", "DELETE", "CONNECT", "HEAD", "OPTIONS", "TRACE"} ==>
      StartOf([w, target, VERSION]) == Bad(501)
  {
    hide Cut;
  }

  /** A request line of one or two words is refused with status 400, the methods that HTTP knows and botz does not with
      405, and any other first word with 501; what follows is not looked at. */
  lemma RequestRefused(w: string, target: string, rest: string)
    requires Solid(w) && w != "" && Solid(target) && target != ""
    ensures Batch(w + ['\r'] + "\n" + rest) == [Refused(400)]
    ensures Batch(w + [' '] + target + ['\r'] + "\n" + rest) == [Refused(400)]
    ensures w in {"CONNECT", "HEAD", "OPTIONS", "TRACE"} ==>
      Batch(w + [' '] + target + [' '] + VERSION + ['\r'] + "\n" + rest) == [Refused(405)]
    ensures w !in {"GET", "POST", "PUT", "DELETE", "CONNECT", "HEAD", "OPTIONS", "TRACE"} ==>
      Batch(w + [' '] + target + [' '] + VERSION + ['\r'] + "\n" + rest) == [Refused(501)]
  {
    VerbWord(GET);
    hide *;
    OneWord(w);
    TwoWords(w, target);
    ThreeWords(w, target, VERSION);
    FewWords(w, target);
    WrongVerb(w, target);
    RefusedMessage(w + ['\r'], 400, rest);
    RefusedMessage(w + [' '] + target + ['\r'], 400, rest);
    var line := w + [' '] + target + [' '] + VERSION + ['\r'];
    if w in {"CONNECT", "HEAD", "OPTIONS", "TRACE"} {
      RefusedMessage(line, 405, rest);
    } else if w !in {"GET", "POST", "PUT", "DELETE"} {
      RefusedMessage(line, 501, rest);
    }
  }
}
