/** A whole PUT of a server: serv_put_cb (src/serv.c) takes the body line by line. */
module Puts {
  import opened Basics
  import opened Strings
  import opened XNodes
  import opened Hierarchy
  import opened FlowTable
  import opened Machine
  import opened Masters
  import opened Lnets
  import opened MasterRuns
  import opened NBufs

  /** The lines of a body; bytes behind the last newline are no line. */
  function LinesIn(s: string): seq<string>
    decreases |s|
  {
    CutShrinks(s, "\n");
    var (a, b) := Cut(s, "\n");
    match b
    case None => []
    case Some(rest) => [a] + LinesIn(rest)
  }

  lemma LinesFirst(line: string, rest: string)
    requires '\n' !in line
    ensures LinesIn(line + "\n" + rest) == [line] + LinesIn(rest)
  {
    assert '\n' == "\n"[0];
    CutAt(line, '\n', rest, "\n");
    assert line + ['\n'] + rest == line + "\n" + rest;
    hide Cut;
  }

  lemma NoLine(s: string)
    requires '\n' !in s
    ensures LinesIn(s) == []
  {
    CutNot(s, "\n");
  }

  /** Each line is an event; what a handler sees of it ends at a NUL. */
  function PutEvents(serv: string, lines: seq<string>, at: real): seq<MasterRuns.Event> {
    seq(|lines|, i requires 0 <= i < |lines| => ServPut(serv, CString(lines[i]), at))
  }

  lemma PutsTimed(serv: string, lines: seq<string>, at: real, now: real)
    requires 0.0 < at && now <= at
    ensures Ordered(PutEvents(serv, lines, at)) && OnTime(now, PutEvents(serv, lines, at), 0)
  {
    hide CString;
  }

  lemma PutsStart(m: Master, l: Lnet, serv: string, lines: seq<string>, scan: string -> Reading, at: real)
    requires m.Valid() && l.Knows(m) && 0.0 < at && m.now <= at
    ensures Ordered(PutEvents(serv, lines, at))
    ensures Ran(m, l, PutEvents(serv, lines, at), 0, scan, [State(m.S(), l.table)], [])
  {
    hide *;
    PutsTimed(serv, lines, at, m.now);
    RanFirst(m, l, PutEvents(serv, lines, at), scan);
  }

  lemma LinesLeft(lines: seq<string>, i: nat, line: string, rest: seq<string>)
    requires i <= |lines| && lines[i..] == [line] + rest
    ensures i < |lines| && lines[i] == line && lines[i + 1..] == rest
  {
    assert lines[i..][0] == line && lines[i..][1..] == rest;
  }

  lemma Taken(before: string, line: Option<string>, after: string)
    requires match line
      case None => '\n' !in before && after == before
      case Some(a) => '\n' !in a && before == a + "\n" + after
    ensures LinesIn(before) == match line case None => [] case Some(a) => [a] + LinesIn(after)
  {
    match line
    case None => NoLine(before);
    case Some(a) => LinesFirst(a, after);
  }

  lemma EventsAt(serv: string, lines: seq<string>, at: real)
    ensures var es := PutEvents(serv, lines, at);
      |es| == |lines| && forall i :: 0 <= i < |lines| ==> es[i] == ServPut(serv, CString(lines[i]), at)
  {
    hide CString;
  }

  lemma AllLines(lines: seq<string>, i: nat)
    requires i <= |lines|
    ensures lines[0..] == lines && (lines[i..] == [] ==> i == |lines|)
  {
    assert |lines[i..]| == |lines| - i;
  }

  lemma ValidIs(m: Master)
    ensures m.Valid() <==> Inv(m.S()) && m.Keyed()
  {
  }

  lemma BufIs(q: NBuf)
    ensures q.Valid() <==> q.start <= q.end <= q.buf.Length
  {
  }

  /** Outside of what lies between the two positions the memory is as it was. */
  ghost predicate Intact(was: seq<char>, now: seq<char>, from: nat, to: nat) {
    from <= to <= |was| == |now| && now[..from] == was[..from] && now[to..] == was[to..]
  }

  lemma IntactOn(a: seq<char>, b: seq<char>, c: seq<char>, from: nat, mid: nat, to: nat)
    requires Intact(a, b, from, to) && Intact(b, c, mid, to) && from <= mid
    ensures Intact(a, c, from, to)
  {
    assert b[..mid][..from] == c[..mid][..from];
    assert b[..mid][..from] == b[..from] && c[..mid][..from] == c[..from];
  }

  lemma IntactIs(was: seq<char>, now: seq<char>, from: nat, to: nat)
    requires from <= to <= |was| == |now| && now[..from] == was[..from] && now[to..] == was[to..]
    ensures Intact(was, now, from, to)
  {
  }

  /** The next line of the body, and what is left of the body has one line less. */
  method NextLine(m: Master, l: Lnet, q: NBuf) returns (line: Option<string>)
    requires q.Valid() && m.Valid() && l.Knows(m)
    modifies q`start, q.buf
    ensures q.Valid() && m.Valid() && l.Knows(m) && m.S() == old(m.S())
    ensures line == None ==> LinesIn(old(q.Contents())) == [] && '\n' !in q.Contents()
    ensures line.Some? ==> LinesIn(old(q.Contents())) == [line.value] + LinesIn(q.Contents())
    ensures old(q.start) <= q.start && Intact(old(q.buf[..]), q.buf[..], old(q.start), q.end)
  {
    hide *;
    BufIs(q);
    ghost var s, was := q.Contents(), q.buf[..];
    m.Parts();
    ValidIs(m);
    line := q.GetMsg();
    m.Parts();
    ValidIs(m);
    BufIs(q);
    IntactIs(was, q.buf[..], old(q.start), q.end);
    Taken(s, line, q.Contents());
  }

  /** One line is one event. */
  method TakeLine(m: Master, l: Lnet, serv: string, line: string, scan: string -> Reading, at: real,
                  ghost events: seq<MasterRuns.Event>, ghost i: nat, ghost hist: seq<State>,
                  ghost steps: seq<Option<Step>>) returns (ghost x: Option<Step>)
    requires Ordered(events) && i < |events| && events[i] == ServPut(serv, CString(line), at)
    requires Ran(m, l, events, i, scan, hist, steps)
    modifies m, l, m.live, m.pool
    ensures Ran(m, l, events, i + 1, scan, hist + [State(m.S(), l.table)], steps + [x])
    ensures fresh(m.live - old(m.live)) && fresh(m.pool - old(m.pool))
  {
    hide *;
    RanMeans(m, l, events, i, scan, hist, steps);
    x := Dispatch(m, l, ServPut(serv, CString(line), at), scan);
    RanOn(m, l, events, i, scan, hist, steps, x);
  }

  /** One round of the loop. */
  method OneLine(m: Master, l: Lnet, serv: string, q: NBuf, line: string, scan: string -> Reading, at: real,
                 ghost events: seq<MasterRuns.Event>, ghost i: nat, ghost hist: seq<State>,
                 ghost steps: seq<Option<Step>>)
    returns (next: Option<string>, ghost b: State, ghost x: Option<Step>)
    requires Ordered(events) && i < |events| && events[i] == ServPut(serv, CString(line), at) && q.Valid()
    requires Ran(m, l, events, i, scan, hist, steps)
    modifies m, l, m.live, m.pool, q`start, q.buf
    ensures q.Valid() && Ran(m, l, events, i + 1, scan, hist + [b], steps + [x])
    ensures next == None ==> LinesIn(old(q.Contents())) == [] && '\n' !in q.Contents()
    ensures next.Some? ==> LinesIn(old(q.Contents())) == [next.value] + LinesIn(q.Contents())
    ensures fresh(m.live - old(m.live)) && fresh(m.pool - old(m.pool))
    ensures old(q.start) <= q.start && Intact(old(q.buf[..]), q.buf[..], old(q.start), q.end)
  {
    hide *;
    x := TakeLine(m, l, serv, line, scan, at, events, i, hist, steps);
    b := State(m.S(), l.table);
    RanMeans(m, l, events, i + 1, scan, hist + [b], steps + [x]);
    next := NextLine(m, l, q);
    RanIs(m, l, events, i + 1, scan, hist + [b], steps + [x]);
  }

  /** serv_put_cb: while there is another line, serv_msg_cb takes it. */
  method ServPutCb(m: Master, l: Lnet, serv: string, q: NBuf, scan: string -> Reading, at: real)
    returns (ghost hist: seq<State>, ghost steps: seq<Option<Step>>)
    requires m.Valid() && l.Knows(m) && 0.0 < at && m.now <= at && q.Valid()
    modifies m, l, m.live, m.pool, q`start, q.buf
    ensures m.Valid() && l.Knows(m) && q.Valid() && '\n' !in q.Contents()
    ensures History(hist, PutEvents(serv, LinesIn(old(q.Contents())), at), scan, steps)
    ensures |hist| == |LinesIn(old(q.Contents()))| + 1
    ensures hist[0] == old(State(m.S(), l.table)) && hist[|hist| - 1] == State(m.S(), l.table)
    ensures fresh(m.live - old(m.live)) && fresh(m.pool - old(m.pool))
    ensures Intact(old(q.buf[..]), q.buf[..], old(q.start), q.end)
  {
    hide *;
    ghost var was := q.buf[..];
    ghost var lines, i := LinesIn(q.Contents()), 0;
    ghost var events := PutEvents(serv, lines, at);
    EventsAt(serv, lines, at);
    AllLines(lines, 0);
    var line := NextLine(m, l, q);
    PutsStart(m, l, serv, lines, scan, at);
    hist, steps := [State(m.S(), l.table)], [];
    while line.Some?
      invariant q.Valid() && i <= |lines| == |events| && |hist| == i + 1
      invariant hist[0] == old(State(m.S(), l.table)) && Ran(m, l, events, i, scan, hist, steps)
      invariant line.Some? ==> lines[i..] == [line.value] + LinesIn(q.Contents())
      invariant line == None ==> lines[i..] == [] && '\n' !in q.Contents()
      invariant fresh(m.live - old(m.live)) && fresh(m.pool - old(m.pool))
      invariant old(q.start) <= q.start && Intact(was, q.buf[..], old(q.start), q.end)
      decreases |lines| - i
    {
      LinesLeft(lines, i, line.value, LinesIn(q.Contents()));
      ghost var before, n := q.buf[..], q.start;
      ghost var b, x;
      line, b, x := OneLine(m, l, serv, q, line.value, scan, at, events, i, hist, steps);
      hist, steps, i := hist + [b], steps + [x], i + 1;
      IntactOn(was, before, q.buf[..], old(q.start), n, q.end);
    }
    AllLines(lines, i);
    RanMeans(m, l, events, i, scan, hist, steps);
  }
}
