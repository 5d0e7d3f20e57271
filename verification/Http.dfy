/** What botz (src/botz.c) makes of the bytes of a connection: a batch parser that sees the whole stream, and the state
    an exchange is in while lines come in one at a time. */
module Http {
  import opened Basics
  import opened Strings

  // ---------- the batch parser ----------

  datatype Method = GET | POST | PUT | DELETE

  const BAD_REQUEST := 400
  const METHOD_NOT_ALLOWED := 405
  const NOT_IMPLEMENTED := 501

  /** What a connection is found to ask for: a request to handle, or something to refuse with a status. */
  datatype Asked =
    | Request(verb: Method, path: string, query: Option<string>, body: string)
    | Refused(status: int)

  /** The first line of `s` without its newline, and what follows. */
  function FirstLine(s: string): Option<(string, string)> {
    var (a, b) := Cut(s, "\n");
    match b
    case None => None
    case Some(rest) => Some((a, rest))
  }

  function LineWords(line: string): seq<string> {
    Words(CString(line))
  }

  datatype Start = Blank | Bad(status: int) | Line(verb: Method, path: string, query: Option<string>)

  function MethodOf(w: string): Option<Method> {
    if w == "GET" then Some(GET)
    else if w == "POST" then Some(POST)
    else if w == "PUT" then Some(PUT)
    else if w == "DELETE" then Some(DELETE)
    else None
  }

  /** A request line: three words, any more being ignored. */
  function StartOf(ws: seq<string>): Start {
    if ws == [] then Blank
    else if |ws| < 3 then Bad(BAD_REQUEST)
    else match MethodOf(ws[0])
      case Some(m) => var (path, query) := Cut(ws[1], "?"); Line(m, path, query)
      case None =>
        if ws[0] in {"CONNECT", "HEAD", "OPTIONS", "TRACE"} then Bad(METHOD_NOT_ALLOWED) else Bad(NOT_IMPLEMENTED)
  }

  /** What the headers say that matters: body length and whether to close. The last Content-Length wins. */
  datatype Meta = Meta(len: nat, close: bool)

  function HeaderMeta(m: Meta, ws: seq<string>): Meta
    requires ws != []
  {
    var value := if |ws| > 1 then ws[1] else "";
    if Same(ws[0], "Connection:") then m.(close := m.close || Same(value, "close"))
    else if Same(ws[0], "Content-Length:") then m.(len := Strtoul(value))
    else m
  }

  /** The header lines up to the blank one. */
  function Headers(s: string, m: Meta): Option<(Meta, string)>
    decreases |s|
  {
    CutShrinks(s, "\n");
    match FirstLine(s)
    case None => None
    case Some((line, rest)) =>
      if LineWords(line) == [] then Some((m, rest)) else Headers(rest, HeaderMeta(m, LineWords(line)))
  }

  datatype Parsed = Incomplete | Complete(asked: Asked, close: bool, rest: string)

  /** A message: blank lines are skipped, then request line, headers and as many bytes of body as the headers say. A bad
      request line ends the connection at once. */
  function Message(s: string): Parsed
    decreases |s|
  {
    CutShrinks(s, "\n");
    match FirstLine(s)
    case None => Incomplete
    case Some((line, rest)) =>
      match StartOf(LineWords(line))
      case Blank => Message(rest)
      case Bad(status) => Complete(Refused(status), true, rest)
      case Line(verb, path, query) =>
        match Headers(rest, Meta(0, false))
        case None => Incomplete
        case Some((m, after)) => Bodied(verb, path, query, m, after)
  }

  function Bodied(verb: Method, path: string, query: Option<string>, m: Meta, s: string): Parsed {
    if |s| < m.len then Incomplete else Complete(Request(verb, path, query, s[..m.len]), m.close, s[m.len..])
  }

  lemma {:induction false} HeadersShrink(s: string, m: Meta)
    ensures Headers(s, m).Some? ==> |Headers(s, m).value.1| < |s|
    decreases |s|
  {
    CutShrinks(s, "\n");
    match FirstLine(s)
    case None =>
    case Some((line, rest)) =>
      if LineWords(line) != [] {
        HeadersShrink(rest, HeaderMeta(m, LineWords(line)));
      }
  }

  lemma {:induction false} MessageShrinks(s: string)
    ensures Message(s).Complete? ==> |Message(s).rest| < |s|
    decreases |s|
  {
    CutShrinks(s, "\n");
    match FirstLine(s)
    case None =>
    case Some((line, rest)) =>
      match StartOf(LineWords(line))
      case Blank => MessageShrinks(rest);
      case Bad(_) =>
      case Line(_, _, _) => HeadersShrink(rest, Meta(0, false));
  }

  /** Everything a whole stream asks for, in order, up to the first message that ends the connection. */
  function Batch(s: string): seq<Asked>
    decreases |s|
  {
    MessageShrinks(s);
    match Message(s)
    case Incomplete => []
    case Complete(asked, close, rest) => [asked] + if close then [] else Batch(rest)
  }

  // ---------- one exchange, line by line ----------

  /** struct botz_x: how far the request has been read, and what has become of the response. */
  datatype Exchange = Exchange(
    inHeaders: bool,                  // x_read_cb: the request line has been read
    start: bool, verb: Method, path: Option<string>, query: Option<string>,
    bodyLen: nat, close: bool, want100: bool, bodyWait: bool, qReady: bool, rReady: bool, rSent: bool, status: int)

  /** bx_reset */
  const FRESH := Exchange(false, false, GET, None, None, 0, false, false, false, false, false, false, 0)

  /** bx_error */
  function Error(x: Exchange, status: int): Exchange {
    var st := if status <= 0 then BAD_REQUEST else status;
    x.(status := if x.status < st then st else x.status, close := true, qReady := true)
  }

  /** bx_read_start, on the words of a line. */
  function ReadStart(x: Exchange, ws: seq<string>): Exchange {
    if ws == [] then x
    else
      var y := x.(inHeaders := true, start := true);
      if |ws| < 3 then Error(y, BAD_REQUEST)
      else match MethodOf(ws[0])
        case Some(m) => y.(verb := m, path := Some(Cut(ws[1], "?").0), query := Cut(ws[1], "?").1)
        case None =>
          Error(y, if ws[0] in {"CONNECT", "HEAD", "OPTIONS", "TRACE"} then METHOD_NOT_ALLOWED else NOT_IMPLEMENTED)
  }

  /** bx_read_header, on the words of a line. */
  function ReadHeader(x: Exchange, ws: seq<string>): Exchange {
    if ws == [] then if x.bodyLen > 0 then x.(bodyWait := true) else x.(qReady := true)
    else
      var value := if |ws| > 1 then ws[1] else "";
      if Same(ws[0], "Connection:") then if Same(value, "close") then x.(close := true) else x
      else if Same(ws[0], "Content-Length:") then x.(bodyLen := Strtoul(value))
      else if Same(ws[0], "Cookie:") then x
      else if Same(ws[0], "Expect:") then if Same(value, "100-Continue") then x.(want100 := true) else x
      else x
  }

  /** The callback x_read_cb. */
  function ReadLine(x: Exchange, line: string): Exchange {
    if x.inHeaders then ReadHeader(x, LineWords(line)) else ReadStart(x, LineWords(line))
  }

  /** Flags that go together while a request is being read. */
  ghost predicate Reading(x: Exchange) {
    && !x.rReady && !x.rSent && x.start == x.inHeaders && 0 <= x.status
    && (!x.inHeaders && !x.qReady ==> x == FRESH)
    && (x.path.None? && (x.inHeaders || x.qReady) ==> x.qReady && x.close && x.bodyLen == 0 && x.status >= 400)
    && (x.bodyWait ==> x.path.Some? && x.bodyLen > 0)
    && (x.path.Some? ==> x.inHeaders && x.status == 0)
    && (x.qReady && x.bodyLen > 0 ==> x.bodyWait)
  }

  function After(p: Parsed): seq<Asked> {
    match p
    case Incomplete => []
    case Complete(asked, close, rest) => [asked] + if close then [] else Batch(rest)
  }

  /** What the exchange asks for, once it is ready: the body is the next bytes of the buffer. */
  function AskedOf(x: Exchange, s: string): Asked
    requires x.bodyLen <= |s|
  {
    if x.path.None? then Refused(x.status) else Request(x.verb, x.path.value, x.query, s[..x.bodyLen])
  }

  /** What a batch parser would still find, from the exchange as it stands and the bytes not yet consumed. */
  function From(x: Exchange, s: string): seq<Asked> {
    if x.rReady then if x.close then [] else Batch(s)
    else if x.qReady then
      if |s| < x.bodyLen then [] else [AskedOf(x, s)] + if x.close then [] else Batch(s[x.bodyLen..])
    else if x.path.None? then Batch(s)
    else if x.bodyWait then After(Bodied(x.verb, x.path.value, x.query, Meta(x.bodyLen, x.close), s))
    else match Headers(s, Meta(x.bodyLen, x.close))
      case None => []
      case Some((m, after)) => After(Bodied(x.verb, x.path.value, x.query, m, after))
  }

  /** Reading one line changes nothing of what a batch parser would find. */
  lemma LineRead(x: Exchange, line: string, rest: string)
    requires Reading(x) && !x.qReady && !x.bodyWait && '\n' !in line
    ensures Reading(ReadLine(x, line))
    ensures From(x, line + "\n" + rest) == From(ReadLine(x, line), rest)
  {
    hide Batch, LineWords;
    if x.inHeaders {
      HeaderRead(x, line, rest);
    } else {
      StartRead(line, rest);
    }
  }

  lemma HeaderKeeps(x: Exchange, ws: seq<string>)
    requires Reading(x) && x.inHeaders && !x.qReady && !x.bodyWait
    ensures var y := ReadHeader(x, ws);
      && Reading(y) && y.verb == x.verb && y.path == x.path && y.query == x.query && y.path.Some?
      && (ws != [] ==> !y.qReady && !y.bodyWait && HeaderMeta(Meta(x.bodyLen, x.close), ws) == Meta(y.bodyLen, y.close))
      && (ws == [] ==> y == if x.bodyLen > 0 then x.(bodyWait := true) else x.(qReady := true))
  {
    hide Same, Strtoul;
  }

  lemma HeadersStep(line: string, rest: string, m: Meta)
    requires '\n' !in line
    ensures var s, ws := line + "\n" + rest, LineWords(line);
      Headers(s, m) == if ws == [] then Some((m, rest)) else Headers(rest, HeaderMeta(m, ws))
  {
    CutAt(line, '\n', rest, "\n");
    assert FirstLine(line + "\n" + rest) == Some((line, rest));
  }

  lemma HeaderRead(x: Exchange, line: string, rest: string)
    requires Reading(x) && x.inHeaders && !x.qReady && !x.bodyWait && '\n' !in line
    ensures Reading(ReadLine(x, line))
    ensures From(x, line + "\n" + rest) == From(ReadLine(x, line), rest)
  {
    var s, ws, m := line + "\n" + rest, LineWords(line), Meta(x.bodyLen, x.close);
    HeadersStep(line, rest, m);
    HeaderKeeps(x, ws);
    hide Batch, LineWords, Headers, ReadHeader, HeaderMeta, Cut, FirstLine;
    assert rest[..0] == "" && rest[0..] == rest;
  }

  lemma StartRead(line: string, rest: string)
    requires '\n' !in line
    ensures Batch(line + "\n" + rest) == From(ReadLine(FRESH, line), rest)
  {
    CutAt(line, '\n', rest, "\n");
    var s := line + "\n" + rest;
    assert FirstLine(s) == Some((line, rest));
    match StartOf(LineWords(line))
    case Blank => assert Message(s) == Message(rest);
    case Bad(_) =>
    case Line(_, _, _) =>
  }

  /** With no complete line, or not all of the body, there is nothing more to find yet. */
  lemma NothingYet(x: Exchange, s: string)
    requires Reading(x) && !x.qReady && if x.bodyWait then |s| < x.bodyLen else '\n' !in s
    ensures From(x, s) == []
  {
    if !x.bodyWait {
      CutNot(s, "\n");
    }
  }

  lemma BodyThere(x: Exchange, s: string)
    requires Reading(x) && x.bodyWait && !x.qReady && x.bodyLen <= |s|
    ensures From(x.(qReady := true), s) == From(x, s)
  {
  }

  /** The incremental parser has found `handled` so far and will find what the batch parser does, whatever
      comes next. */
  ghost predicate Agrees(input: string, handled: seq<Asked>, x: Exchange, s: string) {
    forall more {:trigger Batch(input + more)} {:trigger s + more} :: Batch(input + more) == handled + From(x, s + more)
  }

  lemma AgreesAtStart()
    ensures Agrees("", [], FRESH, "")
  {
    forall more ensures Batch("" + more) == [] + From(FRESH, "" + more) {
      assert "" + more == more;
    }
  }

  lemma AgreesMore(input: string, handled: seq<Asked>, x: Exchange, s: string, chunk: string)
    requires Agrees(input, handled, x, s)
    ensures Agrees(input + chunk, handled, x, s + chunk)
  {
    forall more ensures Batch(input + chunk + more) == handled + From(x, s + chunk + more) {
      assert input + chunk + more == input + (chunk + more) && s + chunk + more == s + (chunk + more);
    }
  }

  lemma AgreesLine(input: string, handled: seq<Asked>, x: Exchange, line: string, rest: string)
    requires Agrees(input, handled, x, line + "\n" + rest)
    requires Reading(x) && !x.qReady && !x.bodyWait && '\n' !in line
    ensures Reading(ReadLine(x, line)) && Agrees(input, handled, ReadLine(x, line), rest)
  {
    hide Batch, From, ReadLine, Reading;
    LineRead(x, line, rest);
    forall more ensures Batch(input + more) == handled + From(ReadLine(x, line), rest + more) {
      assert Batch(input + more) == handled + From(x, line + "\n" + rest + more);
      assert line + "\n" + rest + more == line + "\n" + (rest + more);
      LineRead(x, line, rest + more);
    }
  }

  lemma AgreesBody(input: string, handled: seq<Asked>, x: Exchange, s: string)
    requires Agrees(input, handled, x, s) && Reading(x) && x.bodyWait && !x.qReady && x.bodyLen <= |s|
    ensures Agrees(input, handled, x.(qReady := true), s)
  {
    forall more ensures Batch(input + more) == handled + From(x.(qReady := true), s + more) {
      BodyThere(x, s + more);
    }
  }

  lemma OneHandled(x: Exchange, s: string, more: string, st: int)
    requires Reading(x) && x.qReady && x.bodyLen <= |s|
    ensures From(x, s + more) == [AskedOf(x, s)] + From(x.(rReady := true, status := st), s[x.bodyLen..] + more)
  {
    hide Batch;
    assert (s + more)[..x.bodyLen] == s[..x.bodyLen] && (s + more)[x.bodyLen..] == s[x.bodyLen..] + more;
    assert AskedOf(x, s + more) == AskedOf(x, s);
  }

  lemma Assoc(a: seq<Asked>, b: seq<Asked>, c: seq<Asked>)
    ensures a + (b + c) == a + b + c
  {
  }

  /** Handling the request that is ready: its body is consumed, and the exchange waits for the response to be sent. */
  lemma AgreesHandled(input: string, handled: seq<Asked>, x: Exchange, s: string, st: int)
    requires Agrees(input, handled, x, s) && Reading(x) && x.qReady && x.bodyLen <= |s|
    ensures Agrees(input, handled + [AskedOf(x, s)], x.(rReady := true, status := st), s[x.bodyLen..])
  {
    hide Batch, From, AskedOf, Reading;
    var y := x.(rReady := true, status := st);
    forall more ensures Batch(input + more) == handled + [AskedOf(x, s)] + From(y, s[x.bodyLen..] + more) {
      OneHandled(x, s, more, st);
      Assoc(handled, [AskedOf(x, s)], From(y, s[x.bodyLen..] + more));
    }
  }

  lemma AgreesReset(input: string, handled: seq<Asked>, x: Exchange, s: string)
    requires Agrees(input, handled, x, s) && x.rReady && !x.close
    ensures Agrees(input, handled, FRESH, s)
  {
    forall more ensures Batch(input + more) == handled + From(FRESH, s + more) {
    }
  }
}
