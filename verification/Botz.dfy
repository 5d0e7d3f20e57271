/** A connection of the HTTP server (bc_io_cb and the functions it calls, src/botz.c): incremental and pipelined, with
    one exchange at a time. Callbacks are proved to agree with the batch parser of module Http. */
module Botz {
  import opened Basics
  import opened NBufs
  import opened Strings
  import opened Http

  /** How a write(2) of the response goes: how many bytes of the header and of the body it takes, or an error. */
  datatype Wrote = Wrote(head: nat, body: nat, failed: bool)

  /** One callback: an error condition, room to write, something to read. */
  datatype Events = Events(error: bool, write: Option<Wrote>, read: Option<Got>)

  /** What handling the request of this callback, if there is one, would answer: the header text that br_write_header
      makes, the body and whether to close. Looking up the path and the handler itself are not part of this model. */
  type Reply = r: Answer | r.head != "" witness Answer(200, "H", "", false)
  datatype Answer = Answer(status: int, head: string, body: string, close: bool)

  const CONTINUE := "HTTP/1.1 100 Continue\r\n\r\n"

  /** The exchange is ready and its body is all there. */
  ghost predicate Fits(x: Exchange, s: string) {
    x.qReady ==> x.bodyLen <= |s|
  }

  /** Reading goes on as long as it can: the exchange is ready, or waits for more input. */
  ghost predicate Stuck(x: Exchange, s: string) {
    x.qReady || if x.bodyWait then |s| < x.bodyLen else '\n' !in s
  }

  /** What is left to send of the response: c_r_header, x_r.r_body, and r_close. */
  datatype Response = Response(head: string, body: string, close: bool)

  const NOTHING := Response("", "", false)

  /** History, which no step reads: all bytes read, everything asked for, how many responses are sent, the bytes queued
      for and taken by write(2); `cut` once the input has ended in the middle of a request. */
  datatype Past = Past(input: string, handled: seq<Asked>, answered: nat, produced: string, wrote: string, cut: bool)

  /** Bytes leave in the order they were queued. */
  ghost predicate InOrder(g: Past, x: Exchange, r: Response) {
    g.produced == g.wrote + r.head + r.body && (!x.rReady ==> r.body == "")
  }

  ghost predicate OnTrack(g: Past, x: Exchange, s: string) {
    !g.cut ==> Agrees(g.input, g.handled, x, s)
  }

  /** A request is being read. */
  ghost predicate Open(g: Past, x: Exchange, s: string, r: Response) {
    OnTrack(g, x, s) && InOrder(g, x, r) && |g.handled| == g.answered && Reading(x) && Fits(x, s)
  }

  /** A response is on its way. */
  ghost predicate Answering(g: Past, x: Exchange, s: string, r: Response) {
    OnTrack(g, x, s) && InOrder(g, x, r) && |g.handled| == g.answered + 1 && x.rReady && x.qReady && !x.rSent
  }

  /** At every callback boundary: no response is half accounted for, and at most one is on its way. */
  ghost predicate Settled(g: Past, x: Exchange, s: string, r: Response) {
    if x.rReady then Answering(g, x, s, r) else Open(g, x, s, r) && !x.qReady && Stuck(x, s)
  }

  // ---------- what one callback does ----------

  /** `s` without more than its first n bytes. */
  function Upto(s: string, n: nat): string {
    if n < |s| then s[..n] else s
  }

  /** What write(2) takes of a response. */
  function Written(x: Exchange, r: Response, w: Wrote): string {
    Upto(r.head, w.head) + if !w.failed && x.rReady && |r.head| <= w.head then Upto(r.body, w.body) else ""
  }

  /** With that, the whole response is sent. */
  predicate Sends(x: Exchange, r: Response, w: Option<Wrote>) {
    w.Some? && !w.value.failed && x.rReady && |r.head| <= w.value.head && |r.body| <= w.value.body
  }

  /** Only blank lines, and perhaps the beginning of one more: no request has begun. */
  predicate Idle(s: string)
    decreases |s|
  {
    CutShrinks(s, "\n");
    match FirstLine(s)
    case None => true
    case Some((line, rest)) => LineWords(line) == [] && Idle(rest)
  }

  /** Writing ends the connection: an error, or the last response is out. */
  predicate WriteCloses(x: Exchange, r: Response, w: Option<Wrote>) {
    w.Some? && (w.value.failed || (Sends(x, r, w) && (x.close || r.close)))
  }

  /** Reading ends the connection: an error, no room, or the end of the input where no request has begun. */
  predicate ReadCloses(x: Exchange, s: string, size: nat, read: Option<Got>) {
    read.Some? && (|s| == size || read.value.Failed? || (read.value.EndOfFile? && !x.start && Idle(s)))
  }

  /** The exchange the second half of a callback goes on with, if any. */
  function Next(x: Exchange, r: Response, w: Option<Wrote>): Option<Exchange> {
    if !x.rReady then Some(x) else if Sends(x, r, w) then Some(FRESH) else None
  }

  /** The callback closes the connection. */
  predicate Closes(x: Exchange, r: Response, s: string, size: nat, ev: Events) {
    || ev.error
    || WriteCloses(x, r, ev.write)
    || (Next(x, r, ev.write).Some? && ReadCloses(Next(x, r, ev.write).value, s, size, ev.read))
  }

  /** Reading adds to the input, and may find its end. */
  ghost predicate Receives(g: Past, g': Past) {
    g' == g.(input := g'.input, cut := g'.cut) && g.input <= g'.input && (g.cut ==> g'.cut)
  }

  /** What read(2) adds to the input: as much as there is room for. */
  function Received(s: string, size: nat, read: Option<Got>): string {
    if read.Some? && read.value.Data? && |s| < size then Upto(read.value.bytes, size - |s|) else ""
  }

  /** What is queued for sending when a request is handled. */
  function Payload(asked: Asked, reply: Reply): string {
    reply.head + if asked.Refused? || reply.status == 204 then "" else reply.body
  }

  /** A callback queues the response to what it handles, or else at most a note to go on. */
  ghost predicate Queues(g: Past, g': Past, reply: Reply) {
    || (g'.handled == g.handled && (g'.produced == g.produced || g'.produced == g.produced + CONTINUE))
    || (|g'.handled| == |g.handled| + 1 && g'.produced == g.produced + Payload(g'.handled[|g.handled|], reply))
  }

  lemma StartsWhenNotBlank(x: Exchange, line: string)
    requires Reading(x) && !x.qReady && !x.bodyWait
    ensures ReadLine(x, line).start <==> x.start || LineWords(line) != []
    ensures ReadLine(x, line).qReady ==> ReadLine(x, line).start
  {
    hide LineWords, Cut, Same, Strtoul, MethodOf;
  }

  lemma IdleStep(line: string, rest: string)
    requires '\n' !in line
    ensures Idle(line + "\n" + rest) <==> LineWords(line) == [] && Idle(rest)
  {
    CutAt(line, '\n', rest, "\n");
    assert FirstLine(line + "\n" + rest) == Some((line, rest));
  }

  lemma IdleEnd(s: string)
    requires '\n' !in s
    ensures Idle(s)
  {
    CutNot(s, "\n");
  }

  function Took(g: Past, bytes: string): Past {
    g.(input := g.input + bytes)
  }

  function Answered(x: Exchange, reply: Reply): Exchange {
    x.(rReady := true, status := if x.path.None? then x.status else reply.status)
  }

  function Queued(x: Exchange, r: Response, reply: Reply): Response {
    if x.path.None? then r.(head := r.head + reply.head)
    else Response(r.head + reply.head, if reply.status == 204 then "" else reply.body, reply.close)
  }

  function Handled(g: Past, asked: Asked, more: string): Past {
    g.(handled := g.handled + [asked], produced := g.produced + more)
  }

  lemma TakesMore(g: Past, x: Exchange, s: string, r: Response, bytes: string)
    requires Open(g, x, s, r)
    ensures Open(Took(g, bytes), x, s + bytes, r)
  {
    if !g.cut {
      AgreesMore(g.input, g.handled, x, s, bytes);
    }
  }

  lemma LineReady(x: Exchange, line: string)
    requires Reading(x) && !x.qReady && !x.bodyWait
    ensures ReadLine(x, line).qReady ==> ReadLine(x, line).bodyLen == 0
    ensures !ReadLine(x, line).rReady
  {
    hide LineWords, Cut, Same, Strtoul, MethodOf;
    if x.inHeaders {
      HeaderKeeps(x, LineWords(line));
      hide ReadHeader;
    }
  }

  lemma TakesLine(g: Past, x: Exchange, line: string, rest: string, r: Response)
    requires Open(g, x, line + "\n" + rest, r) && !x.qReady && !x.bodyWait && '\n' !in line
    ensures Open(g, ReadLine(x, line), rest, r)
  {
    LineRead(x, line, rest);
    LineReady(x, line);
    if !g.cut {
      AgreesLine(g.input, g.handled, x, line, rest);
    }
  }

  lemma TakesBody(g: Past, x: Exchange, s: string, r: Response)
    requires Open(g, x, s, r) && !x.qReady && x.bodyWait && x.bodyLen <= |s|
    ensures Open(g, x.(qReady := true), s, r)
  {
    if !g.cut {
      AgreesBody(g.input, g.handled, x, s);
    }
  }

  /** Handling: the request's body is a window of the buffer, consumed whatever the handler reads. */
  lemma TakesRequest(g: Past, x: Exchange, s: string, r: Response, reply: Reply)
    requires Open(g, x, s, r) && x.qReady
    ensures x.bodyLen <= |s|
    ensures var asked := AskedOf(x, s);
      Answering(Handled(g, asked, Payload(asked, reply)), Answered(x, reply), s[x.bodyLen..], Queued(x, r, reply))
  {
    if !g.cut {
      AgreesHandled(g.input, g.handled, x, s, Answered(x, reply).status);
    }
    var r' := Queued(x, r, reply);
    assert r'.body == if AskedOf(x, s).Refused? || reply.status == 204 then "" else reply.body;
    hide Agrees, AskedOf;
    assert g.wrote + r.head + "" + (reply.head + r'.body) == g.wrote + (r.head + reply.head) + r'.body;
  }

  lemma ResponseSent(g: Past, x: Exchange, s: string, r: Response)
    requires Answering(g, x, s, r) && r.head == "" && r.body == "" && !x.close
    ensures Open(g.(answered := g.answered + 1), FRESH, s, NOTHING)
  {
    if !g.cut {
      AgreesReset(g.input, g.handled, x, s);
    }
  }

  /** At the end of a callback that left the connection open: no response pending means everything complete was handled;
      a response pending means that the rest of the input waits its turn. */
  lemma AgreesWithBatch(g: Past, x: Exchange, s: string, r: Response)
    requires Settled(g, x, s, r) && !g.cut
    ensures !x.rReady ==> Batch(g.input) == g.handled
    ensures x.rReady ==> Batch(g.input) == g.handled + if x.close then [] else Batch(s)
  {
    assert g.input + "" == g.input && s + "" == s;
    assert Batch(g.input + "") == g.handled + From(x, s + "");
    if !x.rReady {
      NothingYet(x, s);
    }
  }

  /** How the input was cut into reads, and how writes went in between, does not show in what is handled: of two
      connections with the same input, one has handled what the other has or will go on to, and with no response
      pending both have handled the same. */
  lemma ChunkingInvisible(g1: Past, x1: Exchange, s1: string, r1: Response, g2: Past, x2: Exchange, s2: string,
                          r2: Response)
    requires Settled(g1, x1, s1, r1) && Settled(g2, x2, s2, r2) && !g1.cut && !g2.cut && g1.input == g2.input
    ensures g1.handled <= g2.handled || g2.handled <= g1.handled
    ensures !x1.rReady && !x2.rReady ==> g1.handled == g2.handled
  {
    AgreesWithBatch(g1, x1, s1, r1);
    AgreesWithBatch(g2, x2, s2, r2);
    var b := Batch(g1.input);
    assert g1.handled == b[..|g1.handled|] && g2.handled == b[..|g2.handled|];
  }

  /** What one callback may do to history. */
  ghost predicate Later(g: Past, g': Past) {
    && g.input <= g'.input && g.handled <= g'.handled && |g'.handled| <= |g.handled| + 1
    && g.wrote <= g'.wrote && g.produced <= g'.produced && g.answered <= g'.answered && (g.cut ==> g'.cut)
  }

  /** Exchange discipline: at a callback boundary a request is ready exactly if its response is, no response is half
      accounted for, and at most one request is handled but not answered. */
  lemma ExchangeDiscipline(g: Past, x: Exchange, s: string, r: Response)
    requires Settled(g, x, s, r)
    ensures x.rReady ==> Answering(g, x, s, r)
    ensures !x.rReady ==> Open(g, x, s, r) && !x.qReady
    ensures x.qReady == x.rReady && !x.rSent && InOrder(g, x, r)
    ensures |g.handled| == g.answered + if x.rReady then 1 else 0
  {
  }

  lemma SentKeeps(g: Past, x: Exchange, s: string, r: Response, g': Past, r': Response)
    requires Settled(g, x, s, r) && g' == g.(wrote := g'.wrote) && (InOrder(g, x, r) ==> InOrder(g', x, r'))
    ensures Settled(g', x, s, r')
    ensures x.rReady ==> Answering(g', x, s, r')
    ensures !x.rReady ==> Open(g', x, s, r')
  {
  }

  /** Everything handled is what a batch parser finds first in the input. */
  ghost predicate Founded(g: Past) {
    !g.cut ==> g.handled <= Batch(g.input)
  }

  lemma BecomesSettled(g: Past, x: Exchange, s: string, r: Response)
    requires Answering(g, x, s, r) || (Open(g, x, s, r) && !x.qReady && Stuck(x, s))
    ensures Settled(g, x, s, r)
  {
  }

  lemma OpenFounded(g: Past, x: Exchange, s: string, r: Response)
    requires Open(g, x, s, r)
    ensures Founded(g) && !x.rReady
  {
    assert g.input + "" == g.input && s + "" == s;
    if !g.cut {
      assert Batch(g.input + "") == g.handled + From(x, s + "");
    }
  }

  lemma CutShort(g: Past, x: Exchange, s: string, r: Response)
    requires Open(g, x, s, r)
    ensures Open(g.(cut := true), Error(FRESH, BAD_REQUEST), s, r.(body := "", close := false))
  {
  }

  lemma Continued(g: Past, x: Exchange, s: string, r: Response)
    requires Open(g, x, s, r) && x.want100 && !x.qReady
    ensures Open(g.(produced := g.produced + CONTINUE), x.(want100 := false), s, r.(head := r.head + CONTINUE))
  {
    assert g.wrote + r.head + "" + CONTINUE == g.wrote + (r.head + CONTINUE) + "";
    if !g.cut {
      forall more ensures From(x, s + more) == From(x.(want100 := false), s + more) {
      }
    }
  }

  lemma SettledFounded(g: Past, x: Exchange, s: string, r: Response)
    requires Settled(g, x, s, r)
    ensures Founded(g)
  {
    assert g.input + "" == g.input && s + "" == s;
    if !g.cut {
      assert Batch(g.input + "") == g.handled + From(x, s + "");
    }
  }

  lemma SameFounded(g: Past, g': Past)
    requires Founded(g) && g'.handled == g.handled && g'.input == g.input && (g.cut ==> g'.cut)
    ensures Founded(g')
  {
  }

  lemma LaterTwice(g: Past, g1: Past, g2: Past)
    requires Later(g, g1) && g1.handled == g.handled && Later(g1, g2)
    ensures Later(g, g2)
  {
  }

  class Conn {
    const q: NBuf                 // c_q_buf
    var x: Exchange               // c_x
    var r: Response
    var closed: bool
    ghost var g: Past

    ghost predicate Valid()
      reads this, q, q.buf
    {
      q.Valid() && Settled(g, x, q.Contents(), r)
    }

    constructor (size: nat)
      ensures Valid() && !closed && g == Past("", [], 0, "", "", false) && x == FRESH && fresh(q) && fresh(q.buf)
    {
      q := new NBuf(size);
      x, r, closed := FRESH, NOTHING, false;
      g := Past("", [], 0, "", "", false);
      new;
      AgreesAtStart();
    }

    /** bx_read_start and bx_read_header, until the request is ready or the input is used up. */
    method ReadLines()
      requires q.Valid() && Open(g, x, q.Contents(), r) && !x.qReady
      modifies `x, q`start, q.buf
      ensures q.Valid() && Open(g, x, q.Contents(), r) && Stuck(x, q.Contents())
      ensures x.start <==> old(x).start || !Idle(old(q.Contents()))
    {
      hide Open, Reading, Idle;
      var n := q.Length();
      while n > 0 && !x.qReady
        invariant q.Valid() && Open(g, x, q.Contents(), r) && n == |q.Contents()|
        invariant x.qReady ==> x.start
        invariant x.start || !Idle(q.Contents()) <==> old(x).start || !Idle(old(q.Contents()))
        decreases n
      {
        OpenStarted(g, x, q.Contents(), r);
        if x.bodyWait {
          if x.bodyLen <= n {
            TakesBody(g, x, q.Contents(), r);
            x := x.(qReady := true);
          }
          return;
        }
        var line := q.GetMsg();
        if line == None {
          IdleEnd(q.Contents());
          return;
        }
        TakesLine(g, x, line.value, q.Contents(), r);
        StartsWhenNotBlank(x, line.value);
        IdleStep(line.value, q.Contents());
        x := ReadLine(x, line.value);
        n := q.Length();
      }
      EmptyIsStuck(g, x, q.Contents(), r);
      OpenStarted(g, x, q.Contents(), r);
    }

    method DrainHead(n: nat)
      modifies `r, `g
      ensures g == old(g).(wrote := old(g).wrote + Upto(old(r).head, n)) && r == old(r).(head := r.head)
      ensures r.head == "" <==> |old(r).head| <= n
      ensures InOrder(old(g), x, old(r)) ==> InOrder(g, x, r)
    {
      var k := if n < |r.head| then n else |r.head|;
      assert r.head == r.head[..k] + r.head[k..];
      g := g.(wrote := g.wrote + r.head[..k]);
      r := r.(head := r.head[k..]);
    }

    method DrainBody(n: nat)
      requires r.head == ""
      modifies `r, `g
      ensures g == old(g).(wrote := old(g).wrote + Upto(old(r).body, n)) && r == old(r).(body := r.body)
      ensures r.body == "" <==> |old(r).body| <= n
      ensures InOrder(old(g), x, old(r)) ==> InOrder(g, x, r)
    {
      var k := if n < |r.body| then n else |r.body|;
      assert r.body == r.body[..k] + r.body[k..];
      g := g.(wrote := g.wrote + r.body[..k]);
      r := r.(body := r.body[k..]);
    }

    /** The EV_WRITE branch of bc_io_cb: drain the header, then the body of a ready response. */
    method Send(w: Wrote) returns (err: bool, sent: bool)
      modifies `r, `g
      ensures InOrder(old(g), x, old(r)) ==> InOrder(g, x, r)
      ensures g == old(g).(wrote := old(g).wrote + Written(x, old(r), w)) && r.close == old(r).close
      ensures err == w.failed && sent == Sends(x, old(r), Some(w)) && (sent ==> r.head == "" && r.body == "")
    {
      DrainHead(w.head);
      if w.failed {
        return true, false;
      }
      if r.head == "" && x.rReady {
        DrainBody(w.body);
        return false, r.body == "";
      }
      return false, false;
    }

    /** The end of bx_handle, and br_write_header. The buffer held s before the handler, which may have written to the
        memory of the body. */
    method Handle(reply: Reply, ghost s: string)
      requires q.Valid() && Open(g, x, s, r) && x.qReady
      requires x.bodyLen <= |s| == |q.Contents()| && q.Contents()[x.bodyLen..] == s[x.bodyLen..]
      modifies `x, `r, `g, q`start
      ensures q.Valid() && Answering(g, x, q.Contents(), r) && r.head != ""
      ensures var asked := AskedOf(old(x), s); g == Handled(old(g), asked, Payload(asked, reply))
      ensures x == Answered(old(x), reply) && r == Queued(old(x), old(r), reply)
      ensures q.Contents() == s[old(x).bodyLen..]
    {
      TakesRequest(g, x, s, r, reply);
      hide Open, Answering;
      var window := q.Get(x.bodyLen);
      g := Handled(g, AskedOf(x, s), Payload(AskedOf(x, s), reply));
      r := Queued(x, r, reply);
      x := Answered(x, reply);
    }

    /** The first half of bc_io_cb: get a pending response out. Goes on only with an exchange that is free to read. */
    method Advance(write: Option<Wrote>) returns (go: bool)
      requires Valid() && !closed
      modifies `x, `r, `g, `closed
      ensures go ==> !closed && Open(g, x, q.Contents(), r) && !x.qReady && q.Valid()
      ensures !go && !closed ==> Valid() && x.rReady
      ensures closed <==> WriteCloses(old(x), old(r), write)
      ensures go <==> !closed && Next(old(x), old(r), write).Some?
      ensures go ==> x == Next(old(x), old(r), write).value
      ensures g == old(g).(wrote := g.wrote, answered := old(g).answered + if go && old(x).rReady then 1 else 0)
      ensures g.wrote == old(g).wrote + if write.Some? then Written(old(x), old(r), write.value) else ""
    {
      hide Settled, Written;
      ExchangeDiscipline(g, x, q.Contents(), r);
      if write.Some? {
        ghost var g0, r0 := g, r;
        var err, sent := Send(write.value);
        SentKeeps(g0, x, q.Contents(), r0, g, r);
        if err {
          closed := true;
          return false;
        }
        x := x.(rSent := sent);
      }
      // The branch for a request that is ready while its response is not: at a callback boundary it cannot be taken.
      assert !(x.qReady && !x.rReady);
      if x.rReady && !x.rSent {
        return false;
      }
      if x.rSent {
        if x.close || r.close {
          closed := true;
          return false;
        }
        ResponseSent(g, x.(rSent := false), q.Contents(), r);
        g := g.(answered := g.answered + 1);
        x, r := FRESH, NOTHING;
      }
      return true;
    }

    /** The end of input: an idle connection closes, an incomplete request is refused. */
    method AtEnd()
      requires q.Valid() && Open(g, x, q.Contents(), r) && Stuck(x, q.Contents()) && !closed
      modifies `x, `r, `g, `closed
      ensures closed <==> !old(x).start
      ensures closed ==> g == old(g)
      ensures !closed ==> x.qReady && Open(g, x, q.Contents(), r) && Stuck(x, q.Contents())
      ensures !closed ==> g == old(g).(cut := g.cut) && (old(g).cut ==> g.cut)
    {
      if !x.start {
        closed := true;
        return;
      }
      if !x.qReady {
        CutShort(g, x, q.Contents(), r);
        x, r := FRESH, r.(body := "", close := false);
        x := Error(x, BAD_REQUEST);
        g := g.(cut := true);
      }
    }

    /** Tell a client that waits for it to go on with the body. */
    method Continue() returns (told: bool)
      requires q.Valid() && Open(g, x, q.Contents(), r) && Stuck(x, q.Contents())
      modifies `x, `r, `g
      ensures Open(g, x, q.Contents(), r) && Stuck(x, q.Contents()) && x.qReady == old(x).qReady
      ensures g == old(g).(produced := old(g).produced + if told then CONTINUE else "") && (told ==> r.head != "")
      ensures told <==> old(x).want100 && !old(x).qReady
      ensures x == old(x).(want100 := old(x).want100 && old(x).qReady)
    {
      hide Open, Stuck;
      if !x.qReady {
        NotRefused(g, x, q.Contents(), r);
      }
      told := x.want100 && !x.qReady && x.status < 400;
      if told {
        Continued(g, x, q.Contents(), r);
        g := g.(produced := g.produced + CONTINUE);
        r := r.(head := r.head + CONTINUE);
        x := x.(want100 := false);
      }
    }

    /** Read, and parse as far as possible. */
    method Feed(read: Option<Got>) returns (eof: bool)
      requires q.Valid() && Open(g, x, q.Contents(), r) && !x.qReady && !closed
      modifies `x, `r, `g, `closed, q, q.buf
      ensures closed <==> ReadCloses(old(x), old(q.Contents()), q.buf.Length, read)
      ensures !closed ==> q.Valid() && Open(g, x, q.Contents(), r) && Stuck(x, q.Contents())
      ensures !closed ==> eof == (read == Some(EndOfFile))
      ensures Founded(g) && Receives(old(g), g)
      ensures g.input == old(g).input + Received(old(q.Contents()), q.buf.Length, read)
    {
      hide Open, Stuck, Founded, Idle;
      var err, took := false, "";
      eof := false;
      OpenFounded(g, x, q.Contents(), r);
      if read.Some? {
        ghost var s := q.Contents();
        eof, err, took := q.Fill(read.value);
        TakesMore(g, x, s, r, took);
        assert took == Received(s, q.buf.Length, read) && (took == "" ==> s + took == s);
        if err {
          closed := true;
          return;
        }
        g := Took(g, took);
      }
      ReadLines();
      OpenFounded(g, x, q.Contents(), r);
      if eof {
        AtEnd();
        if !closed {
          OpenFounded(g, x, q.Contents(), r);
        }
      }
    }

    /** The second half of bc_io_cb: read, parse, and handle a request that is complete. */
    method Serve(read: Option<Got>, reply: Reply) returns (wantRead: bool, wantWrite: bool)
      requires q.Valid() && Open(g, x, q.Contents(), r) && !x.qReady && !closed
      modifies `x, `r, `g, `closed, q, q.buf
      ensures !closed ==> Valid()
      ensures closed ==> Founded(g)
      ensures closed <==> ReadCloses(old(x), old(q.Contents()), q.buf.Length, read)
      ensures g.input == old(g).input + Received(old(q.Contents()), q.buf.Length, read)
      ensures Later(old(g), g) && g.wrote == old(g).wrote && g.answered == old(g).answered && Queues(old(g), g, reply)
      ensures !closed && x.rReady ==> wantWrite
      ensures !closed && !x.rReady && read != Some(EndOfFile) ==> wantRead
      ensures !closed && !x.rReady ==> !x.want100
    {
      hide Open, Stuck, Settled, Answering, Payload, AskedOf, ReadCloses, Founded, Received, Agrees, Batch, Reading;
      wantRead, wantWrite := false, false;
      var eof := Feed(read);
      if closed {
        return;
      }
      OpenFounded(g, x, q.Contents(), r);
      var told := Continue();
      if x.qReady {
        TakesRequest(g, x, q.Contents(), r, reply);
        Handle(reply, q.Contents());
      }
      BecomesSettled(g, x, q.Contents(), r);
      wantRead := told || !eof;
      wantWrite := told || r.head != "";
    }

    /** bc_io_cb: whatever mix of reading and partial writing the callbacks bring, each leaves the connection settled,
        so that what was handled so far agrees with the batch parser (AgreesWithBatch), or closes it. */
    method IoCb(ev: Events, reply: Reply) returns (wantRead: bool, wantWrite: bool)
      requires Valid() && !closed
      modifies `x, `r, `g, `closed, q, q.buf
      ensures !closed ==> Valid()
      ensures closed <==> Closes(old(x), old(r), old(q.Contents()), q.buf.Length, ev)
      ensures Founded(g) && Later(old(g), g) && Queues(old(g), g, reply)
      ensures g.input == old(g).input +
        if ev.error || WriteCloses(old(x), old(r), ev.write) || Next(old(x), old(r), ev.write) == None then ""
        else Received(old(q.Contents()), q.buf.Length, ev.read)
      ensures g.wrote == old(g).wrote +
        if !ev.error && ev.write.Some? then Written(old(x), old(r), ev.write.value) else ""
      ensures g.answered == old(g).answered +
        if !ev.error && !WriteCloses(old(x), old(r), ev.write) && Sends(old(x), old(r), ev.write) then 1 else 0
      ensures !closed && x.rReady ==> wantWrite
      ensures !closed && !x.rReady && ev.read != Some(EndOfFile) ==> wantRead
      ensures !closed && !x.rReady ==> !x.want100
    {
      hide Open, Stuck, Settled, Answering, OnTrack, Founded, Idle, Payload, Written, Upto, Received;
      SettledFounded(g, x, q.Contents(), r);
      wantRead, wantWrite := false, false;
      if ev.error {
        closed := true;
        return;
      }
      var go := Advance(ev.write);
      if !go {
        SameFounded(old(g), g);
        return false, true;
      }
      ghost var mid := g;
      wantRead, wantWrite := Serve(ev.read, reply);
      if !closed {
        SettledFounded(g, x, q.Contents(), r);
      }
      LaterTwice(old(g), mid, g);
    }
  }

  lemma NotRefused(g: Past, x: Exchange, s: string, r: Response)
    requires Open(g, x, s, r) && !x.qReady
    ensures x.status == 0
    ensures Stuck(x, s) ==> Stuck(x.(want100 := false), s)
  {
  }

  lemma OpenStarted(g: Past, x: Exchange, s: string, r: Response)
    requires Open(g, x, s, r)
    ensures Reading(x) && (x.bodyWait ==> x.start) && (x.qReady && x.inHeaders ==> x.start) && Idle("")
  {
  }

  lemma EmptyIsStuck(g: Past, x: Exchange, s: string, r: Response)
    requires Open(g, x, s, r) && (|s| == 0 || x.qReady)
    ensures Stuck(x, s)
  {
  }
}