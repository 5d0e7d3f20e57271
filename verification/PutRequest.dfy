/** The collector's PUT over HTTP: from the lines it prints to the bytes of a request, to what a batch parser finds in
    them, and to serv_put_cb, which takes the body out of the connection's own buffer. */
module PutRequests {
  import opened Basics
  import opened Strings
  import opened XNodes
  import opened Machine
  import opened Masters
  import opened Lnets
  import opened Http
  import opened Requests
  import opened NBufs
  import opened Puts
  import Botz
  import EndToEnd
  import MasterRuns
  import Readings
  import TopRequests

  /** The path leads through the directory of servers to the one of that name. */
  predicate AtServ(path: string, serv: string) {
    NamesIn(Pieces(path, "/")) == ["serv", serv]
  }

  /** snprintf(path, .., "/serv/%s", serv_name) */
  function ServPath(serv: string): string {
    "/serv/" + serv
  }

  /** A name that is one word without slashes and question marks, and no dot or two. */
  predicate IsName(serv: string) {
    Solid(serv) && serv !in {"", "."} && '/' !in serv && '?' !in serv
  }

  lemma ServPathIs(serv: string)
    requires IsName(serv)
    ensures Targets(ServPath(serv), None) && AtServ(ServPath(serv), serv)
  {
    assert "" + ['/'] + "serv" == "/serv" && "/serv" + ['/'] + serv == ServPath(serv);
    SolidPlus("/serv/", serv);
    assert '/' == "/"[0];
    PiecesOne("", "/");
    PiecesJoin("", '/', "serv", "/");
    PiecesJoin("/serv", '/', serv, "/");
    hide Pieces, Solid;
    assert [""] + ["serv"] + [serv] == ["", "serv", serv];
    TwoNames(serv);
  }

  lemma TwoNames(serv: string)
    requires serv !in {"", "."}
    ensures NamesIn(["", "serv", serv]) == ["serv", serv]
  {
    assert ["", "serv", serv][1..] == ["serv", serv] && ["serv", serv][1..] == [serv] && [serv][1..] == [];
    assert NamesIn([serv]) == [serv];
    assert NamesIn(["serv", serv]) == ["serv"] + [serv];
  }

  /** The lines arrive: in the bytes of the PUT a batch parser finds a request for the server whose body is read as
      exactly the lines that were printed. */
  lemma PutArrives(serv: string, lines: seq<Readings.Line>, before: seq<string>, behind: seq<string>, close: bool,
                   rest: string, at: real)
    requires IsName(serv) && EndToEnd.AllWords(lines) && |EndToEnd.Body(lines)| < ULONG
    requires AllHarmless(before) && AllHarmless(behind)
    ensures var body := EndToEnd.Body(lines);
      && Batch(Text(PUT, ServPath(serv), None, before, behind, close, body) + rest) ==
         [Request(PUT, ServPath(serv), None, body)] + (if close then [] else Batch(rest))
      && AtServ(ServPath(serv), serv) && LinesIn(body) == EndToEnd.Texts(lines)
      && EndToEnd.Received(PutEvents(serv, LinesIn(body), at), serv) == EndToEnd.Texts(lines)
  {
    hide *;
    ServPathIs(serv);
    EndToEnd.BodyRead(lines);
    EndToEnd.PutDelivers(serv, lines, at);
    RequestRead(PUT, ServPath(serv), None, before, behind, close, EndToEnd.Body(lines), rest);
  }

  lemma Ready(g: Botz.Past, x: Exchange, s: string, r: Botz.Response)
    requires Botz.Open(g, x, s, r) && x.qReady && x.path.Some?
    ensures x.bodyLen <= |s| && AskedOf(x, s) == Request(x.verb, x.path.value, x.query, s[..x.bodyLen])
  {
    hide Botz.OnTrack, Botz.InOrder;
  }

  lemma WindowOf(q: NBuf, n: nat, s: string)
    requires q.Valid() && s == q.Contents() && n <= |s|
    ensures q.start + n <= q.end <= q.buf.Length && q.buf[q.start..q.start + n] == s[..n]
    ensures s == q.buf[..][q.start..q.end]
  {
  }

  lemma Remains(q: NBuf, n: nat, s: string, was: seq<char>)
    requires q.start + n <= q.end <= q.buf.Length && Intact(was, q.buf[..], q.start, q.start + n)
    requires s == was[q.start..q.end]
    ensures q.Valid() && |q.Contents()| == |s| && q.Contents()[n..] == s[n..]
  {
    assert q.Contents()[n..] == q.buf[..][q.start + n..][..q.end - q.start - n];
    assert s[n..] == was[q.start + n..][..q.end - q.start - n];
  }

  /** serv_put_cb on the body, which is the first n bytes of the connection's buffer and shares its memory. */
  method TakeBody(q: NBuf, n: nat, m: Master, l: Lnet, serv: string, scan: string -> Reading, at: real)
    returns (ghost hist: seq<MasterRuns.State>, ghost steps: seq<Option<Step>>)
    requires q.Valid() && n <= |q.Contents()| && m.Valid() && l.Knows(m) && 0.0 < at && m.now <= at
    modifies q.buf, m, l, m.live, m.pool
    ensures q.Valid() && m.Valid() && l.Knows(m)
    ensures |q.Contents()| == |old(q.Contents())| && q.Contents()[n..] == old(q.Contents())[n..]
    ensures MasterRuns.History(hist, PutEvents(serv, LinesIn(old(q.Contents())[..n]), at), scan, steps)
    ensures |hist| > 0 && hist[0] == old(MasterRuns.State(m.S(), l.table))
    ensures hist[|hist| - 1] == MasterRuns.State(m.S(), l.table)
  {
    hide *;
    ghost var s := q.Contents();
    WindowOf(q, n, s);
    m.Parts();
    var body := new NBuf.Window(q.buf, q.start, q.start + n);
    m.Parts();
    ghost var was := q.buf[..];
    hist, steps := ServPutCb(m, l, serv, body, scan, at);
    Remains(q, n, s, was);
  }

  /** bx_handle for a PUT to a server the master knows: the handler takes the body line by line, cutting them in the
      memory of the connection's buffer, and exactly the body leaves the buffer. */
  method Handle(c: Botz.Conn, m: Master, l: Lnet, serv: string, scan: string -> Reading, at: real, reply: Botz.Reply)
    returns (ghost hist: seq<MasterRuns.State>, ghost steps: seq<Option<Step>>)
    requires c.q.Valid() && Botz.Open(c.g, c.x, c.q.Contents(), c.r) && c.x.qReady
    requires c.x.verb == PUT && c.x.path.Some? && AtServ(c.x.path.value, serv) && (Serv, serv) in m.names
    requires m.Valid() && l.Knows(m) && 0.0 < at && m.now <= at
    modifies c`x, c`r, c`g, c.q`start, c.q.buf, m, l, m.live, m.pool
    ensures c.q.Valid() && Botz.Answering(c.g, c.x, c.q.Contents(), c.r) && m.Valid() && l.Knows(m)
    ensures old(c.x).bodyLen <= |old(c.q.Contents())| && c.q.Contents() == old(c.q.Contents())[old(c.x).bodyLen..]
    ensures var asked := AskedOf(old(c.x), old(c.q.Contents()));
      && asked.Request? && asked.verb == PUT && AtServ(asked.path, serv)
      && c.g == Botz.Handled(old(c.g), asked, Botz.Payload(asked, reply))
      && MasterRuns.History(hist, PutEvents(serv, LinesIn(asked.body), at), scan, steps)
    ensures |hist| > 0 && hist[0] == old(MasterRuns.State(m.S(), l.table))
    ensures hist[|hist| - 1] == MasterRuns.State(m.S(), l.table)
  {
    hide *;
    ghost var s := c.q.Contents();
    Ready(c.g, c.x, s, c.r);
    hist, steps := TakeBody(c.q, c.x.bodyLen, m, l, serv, scan, at);
    TopRequests.Respond(c, m, reply, s);
  }
}
