/** A collector and the master together: lines that xltop-servd prints (src/servd.c:424) and sends, and what they
    become in xltop-master's table (src/serv.c:33-53). */
module EndToEnd {
  import opened Basics
  import opened Ewma
  import opened Strings
  import opened XNodes
  import opened Hierarchy
  import opened FlowTable
  import opened Machine
  import opened Reachable
  import opened Masters
  import opened Lnets
  import opened MasterRuns
  import opened Puts
  import opened Readings
  import Collectors
  import CollectorRuns
  import Num = Numbers

  // ---------- the line ----------

  /** %PRId64 */
  function Signed(n: int): string {
    if n < 0 then "-" + Num.Decimal(-n) else Num.Decimal(n)
  }

  /** P_FMT */
  function Printed(c: Counters): string {
    Signed(c[0]) + " " + Signed(c[1]) + " " + Signed(c[2])
  }

  function Text(l: Line): string {
    l.nid + " " + Printed(l.stats)
  }

  function Texts(lines: seq<Line>): seq<string> {
    seq(|lines|, i requires 0 <= i < |lines| => Text(lines[i]))
  }

  function Reals(c: Counters): Stats {
    [c[0] as real, c[1] as real, c[2] as real]
  }

  /** sscanf with %lf reads integers as they were printed. */
  ghost predicate ReadsBack(scan: string -> Machine.Reading) {
    forall c :: scan(Printed(c)) == Machine.Reading.Numbers(Reals(c))
  }

  /** One word, as NIDs are. */
  predicate IsWord(s: string) {
    s != "" && Free(s, SPACES) && '\0' !in s
  }

  ghost predicate AllWords(lines: seq<Line>) {
    forall i :: 0 <= i < |lines| ==> IsWord(lines[i].nid)
  }

  /** wsep takes the line apart as it was put together. */
  lemma TextRead(l: Line)
    requires IsWord(l.nid)
    ensures Wsep(Text(l)) == (Some(l.nid), Some(Printed(l.stats)))
  {
    assert ' ' == SPACES[0];
    CutAt(l.nid, ' ', Printed(l.stats), SPACES);
    assert l.nid + [' '] + Printed(l.stats) == Text(l);
  }

  // ---------- lines sent and lines received ----------

  predicate PutOf(e: MasterRuns.Event, serv: string) {
    e.ServPut? && e.serv == serv
  }

  /** The lines that a server's PUTs bring. */
  function Received(events: seq<MasterRuns.Event>, serv: string): seq<string> {
    if events == [] then []
    else
      var n := |events| - 1;
      Received(events[..n], serv) + if PutOf(events[n], serv) then [events[n].msg] else []
  }

  /** The master gets the lines of a server it knows, in order; whatever else happens may come in between. */
  ghost predicate Delivered(hist: seq<State>, events: seq<MasterRuns.Event>, serv: string, lines: seq<Line>) {
    && |hist| == |events| + 1 && Received(events, serv) == Texts(lines)
    && forall k :: 0 <= k < |events| && PutOf(events[k], serv) ==> Known(hist[k], Serv, serv).Some?
  }

  // ---------- the body of a PUT ----------

  /** What print_stats writes into its stream. */
  function Body(lines: seq<Line>): string {
    if lines == [] then "" else Text(lines[0]) + "\n" + Body(lines[1..])
  }

  lemma SignedPlain(n: int)
    ensures '\n' !in Signed(n) && '\0' !in Signed(n)
  {
    Num.DecimalDigits(if n < 0 then -n else n);
  }

  lemma TextPlain(l: Line)
    requires IsWord(l.nid)
    ensures '\n' !in Text(l) && CString(Text(l)) == Text(l)
  {
    assert '\n' == SPACES[2];
    SignedPlain(l.stats[0]);
    SignedPlain(l.stats[1]);
    SignedPlain(l.stats[2]);
    CStringAll(Text(l));
    hide Signed;
  }

  lemma FirstText(lines: seq<Line>)
    requires AllWords(lines) && lines != []
    ensures Texts(lines) == [Text(lines[0])] + Texts(lines[1..]) && IsWord(lines[0].nid) && AllWords(lines[1..])
    ensures Body(lines) == Text(lines[0]) + "\n" + Body(lines[1..])
  {
    hide Text, IsWord;
  }

  /** A body is read as the lines it was made of. */
  lemma {:induction false} BodyRead(lines: seq<Line>)
    requires AllWords(lines)
    ensures LinesIn(Body(lines)) == Texts(lines)
  {
    if lines == [] {
      assert Cut("", "\n").1 == None && |Texts(lines)| == 0;
    } else {
      hide *;
      FirstText(lines);
      TextPlain(lines[0]);
      LinesFirst(Text(lines[0]), Body(lines[1..]));
      BodyRead(lines[1..]);
    }
  }

  lemma LastText(serv: string, lines: seq<Line>, at: real)
    requires AllWords(lines) && lines != []
    ensures var n := |lines| - 1;
      && Texts(lines) == Texts(lines[..n]) + [Text(lines[n])] && IsWord(lines[n].nid) && AllWords(lines[..n])
      && PutEvents(serv, Texts(lines), at) ==
         PutEvents(serv, Texts(lines[..n]), at) + [ServPut(serv, CString(Text(lines[n])), at)]
  {
    hide Text, IsWord, CString;
  }

  lemma ReceivedOn(es: seq<MasterRuns.Event>, e: MasterRuns.Event, serv: string)
    requires e.ServPut? && e.serv == serv
    ensures Received(es + [e], serv) == Received(es, serv) + [e.msg]
  {
    assert (es + [e])[..|es|] == es;
  }

  lemma {:induction false} ReceivedAll(serv: string, lines: seq<Line>, at: real)
    requires AllWords(lines)
    ensures Received(PutEvents(serv, Texts(lines), at), serv) == Texts(lines)
  {
    if lines == [] {
      assert |Texts(lines)| == 0;
    } else {
      hide *;
      var n := |lines| - 1;
      LastText(serv, lines, at);
      TextPlain(lines[n]);
      ReceivedAll(serv, lines[..n], at);
      ReceivedOn(PutEvents(serv, Texts(lines[..n]), at), ServPut(serv, CString(Text(lines[n])), at), serv);
    }
  }

  /** So a PUT delivers the lines that were printed. */
  lemma PutDelivers(serv: string, lines: seq<Line>, at: real)
    requires AllWords(lines)
    ensures Received(PutEvents(serv, LinesIn(Body(lines)), at), serv) == Texts(lines)
  {
    BodyRead(lines);
    ReceivedAll(serv, lines, at);
  }

  /** What the lines of some clients add up to. */
  function SumWhere(lines: seq<Line>, hit: string -> bool, i: nat): int
    requires i < NR_STATS
  {
    if lines == [] then 0
    else
      var n := |lines| - 1;
      SumWhere(lines[..n], hit, i) + if hit(lines[n].nid) then lines[n].stats[i] else 0
  }

  predicate AnyWhere(lines: seq<Line>, hit: string -> bool) {
    exists i :: 0 <= i < |lines| && hit(lines[i].nid)
  }

  // ---------- what the history says about a line's nodes ----------

  lemma InvAt(hist: seq<State>, events: seq<MasterRuns.Event>, scan: string -> Machine.Reading,
              steps: seq<Option<Step>>, k: nat)
    requires History(hist, events, scan, steps) && k <= |events|
    ensures |hist| == |events| + 1 && Inv(hist[k].s)
  {
    hide *;
    LastOne(hist, events, scan, steps);
    if k > 0 {
      TurnAt(hist, events, scan, steps, k - 1);
      TurnsKeepInv(hist[k - 1], events[k - 1], scan, steps[k - 1], hist[k]);
    } else {
      FirstInv(hist, events, scan, steps);
    }
  }

  lemma FirstInv(hist: seq<State>, events: seq<MasterRuns.Event>, scan: string -> Machine.Reading,
                 steps: seq<Option<Step>>)
    requires History(hist, events, scan, steps)
    ensures |hist| > 0 && Inv(hist[0].s)
  {
    hide Inv, Turns;
  }

  lemma KnownNext(a: State, e: MasterRuns.Event, scan: string -> Machine.Reading, x: Option<Step>, b: State,
                  kind: Kind, name: string)
    requires Turns(a, e, scan, x, b) && kind != Job && Known(a, kind, name).Some?
    ensures Known(b, kind, name) == Known(a, kind, name)
  {
    TurnsKeepInv(a, e, scan, x, b);
    hide Turns, Inv, Enabled, Next;
    if x.Some? {
      NamesStay(a.s, x.value);
    }
  }

  /** A name of anything but a job leads to the same node for ever. */
  lemma {:induction false} KnownStays(hist: seq<State>, events: seq<MasterRuns.Event>,
                                      scan: string -> Machine.Reading, steps: seq<Option<Step>>, j: nat, k: nat,
                                      kind: Kind, name: string)
    requires History(hist, events, scan, steps) && j <= k <= |events| && |hist| == |events| + 1
    requires kind != Job && Known(hist[j], kind, name).Some?
    ensures Known(hist[k], kind, name) == Known(hist[j], kind, name)
    decreases k
  {
    hide *;
    if j < k {
      KnownStays(hist, events, scan, steps, j, k - 1, kind, name);
      TurnAt(hist, events, scan, steps, k - 1);
      KnownNext(hist[k - 1], events[k - 1], scan, steps[k - 1], hist[k], kind, name);
    }
  }

  /** A line that counts has its place among the reports. */
  lemma {:induction false} ReportIn(hist: seq<State>, events: seq<MasterRuns.Event>,
                                    scan: string -> Machine.Reading, k: nat, n: nat)
    requires Coherent(hist, events, scan) && k < n <= |events| && |hist| == |events| + 1
    requires Counts(hist[k], events[k], scan)
    ensures Arrived(hist[k], events[k], scan, hist[k + 1])
    ensures ReportOf(hist[k], events[k], scan, hist[k + 1]) in Reports(hist, events, scan, n)
    decreases n
  {
    hide *;
    ReportsNext(hist, events, scan, n);
    if k < n - 1 {
      ReportIn(hist, events, scan, k, n - 1);
    }
  }

  lemma LoggedOk(s: Sys, e: FlowTable.Entry)
    requires Inv(s) && e in s.log
    ensures EntryOk(s.h, e)
  {
    hide Tree, Lifecycle, Table, EntryOk;
  }

  lemma ChainHead(n: Nodes, x: XNode)
    requires Forest(n) && x in n
    ensures Chain(n, x) != [] && Chain(n, x)[0] == x
  {
    hide Forest;
  }

  lemma OneServer(h: Hier, e: FlowTable.Entry, v: XNode, serv: string, sv: XNode, name: string)
    requires Tree(h) && EntryOk(h, e) && e.chain1 != [] && e.chain1[0] == v
    requires (Serv, name) in h.names && h.names[(Serv, name)] == v
    requires (Serv, serv) in h.names && h.names[(Serv, serv)] == sv
    ensures sv in e.chain1 <==> name == serv
  {
    assert NameOk(h, (Serv, name)) && NameOk(h, (Serv, serv));
    hide Forest, Named, OneTop;
  }

  lemma ReportParts(a: State, e: MasterRuns.Event, scan: string -> Machine.Reading, b: State)
    requires Counts(a, e, scan) && Arrived(a, e, scan, b)
    ensures e.ServPut? && Known(a, Serv, e.serv).Some? && Wsep(e.msg).0.Some? && Wsep(e.msg).1.Some?
    ensures var r := ReportOf(a, e, scan, b);
      && r.chain1 != [] && r.chain1[0] == Known(a, Serv, e.serv).value && r.chain0 != []
      && Wsep(e.msg).0.value in b.t && r.chain0[0] == b.t[Wsep(e.msg).0.value]
      && scan(Wsep(e.msg).1.value).Numbers? && r.d == scan(Wsep(e.msg).1.value).d
  {
    ChainHead(b.s.h.nodes, b.t[Wsep(e.msg).0.value]);
    ChainHead(b.s.h.nodes, Known(a, Serv, e.serv).value);
    hide Chain, Forest, Wsep, Known;
  }

  /** A report covers the server it came from, and no other. */
  lemma ReportServer(hist: seq<State>, events: seq<MasterRuns.Event>, scan: string -> Machine.Reading,
                     steps: seq<Option<Step>>, k: nat, serv: string)
    requires History(hist, events, scan, steps) && hist[0].s.log == [] && k < |events|
    requires |hist| == |events| + 1 && Counts(hist[k], events[k], scan)
    requires Known(hist[|events|], Serv, serv).Some?
    ensures Arrived(hist[k], events[k], scan, hist[k + 1])
    ensures var r := ReportOf(hist[k], events[k], scan, hist[k + 1]);
      && EntryOk(hist[|events|].s.h, r)
      && (Known(hist[|events|], Serv, serv).value in r.chain1 <==> PutOf(events[k], serv))
  {
    hide *;
    var end, e := hist[|events|], events[k];
    LogIsReports(hist, events, scan, steps, |events|);
    EmptyFirst(Reports(hist, events, scan, |events|));
    ReportIn(hist, events, scan, k, |events|);
    InvAt(hist, events, scan, steps, |events|);
    var r := ReportOf(hist[k], e, scan, hist[k + 1]);
    LoggedOk(end.s, r);
    ReportParts(hist[k], e, scan, hist[k + 1]);
    KnownStays(hist, events, scan, steps, k, |events|, Serv, e.serv);
    KnownIs(end, Serv, e.serv);
    KnownIs(end, Serv, serv);
    InvTree(end.s);
    OneServer(end.s.h, r, r.chain1[0], serv, Known(end, Serv, serv).value, e.serv);
    PutOfIs(e, serv);
  }

  lemma PutOfIs(e: MasterRuns.Event, serv: string)
    ensures PutOf(e, serv) <==> e.ServPut? && e.serv == serv
  {
  }

  lemma InvTree(s: Sys)
    requires Inv(s)
    ensures Tree(s.h)
  {
    hide Tree;
  }

  lemma EmptyFirst<T>(s: seq<T>)
    ensures [] + s == s
  {
  }

  // ---------- the pair's sums ----------

  /** Among the lines of the server, `a` is an ancestor of the line's host when it comes exactly for the NIDs hit. */
  ghost predicate Routed(hist: seq<State>, events: seq<MasterRuns.Event>, scan: string -> Machine.Reading,
                         serv: string, a: XNode, hit: string -> bool)
    requires |hist| == |events| + 1
  {
    forall k :: 0 <= k < |events| && PutOf(events[k], serv) && Arrived(hist[k], events[k], scan, hist[k + 1]) ==>
      (a in ReportOf(hist[k], events[k], scan, hist[k + 1]).chain0 <==>
       Wsep(events[k].msg).0.Some? && hit(Wsep(events[k].msg).0.value))
  }

  /** Whatever counts covers `sv` exactly if it comes from the server. */
  ghost predicate Heads(hist: seq<State>, events: seq<MasterRuns.Event>, scan: string -> Machine.Reading,
                        serv: string, sv: XNode)
    requires |hist| == |events| + 1
  {
    forall k :: 0 <= k < |events| && Arrived(hist[k], events[k], scan, hist[k + 1]) ==>
      (sv in ReportOf(hist[k], events[k], scan, hist[k + 1]).chain1 <==> PutOf(events[k], serv))
  }

  /** What one line of the server brings. */
  lemma PutReport(a: State, e: MasterRuns.Event, scan: string -> Machine.Reading, b: State, serv: string, l: Line)
    requires PutOf(e, serv) && e.msg == Text(l) && IsWord(l.nid) && ReadsBack(scan) && Known(a, Serv, serv).Some?
    ensures Counts(a, e, scan) && Wsep(e.msg).0 == Some(l.nid)
    ensures Arrived(a, e, scan, b) ==> ReportOf(a, e, scan, b).d == Reals(l.stats)
  {
    TextRead(l);
    assert scan(Printed(l.stats)) == Machine.Reading.Numbers(Reals(l.stats));
    assert Counts(a, e, scan);
    if Arrived(a, e, scan, b) {
      ReportParts(a, e, scan, b);
    }
    hide Known, Wsep, Arrived, ReportOf, Text, IsWord;
  }

  lemma LogSumOn(log: seq<FlowTable.Entry>, r: FlowTable.Entry, a: XNode, b: XNode, i: nat)
    requires i < NR_STATS
    ensures LogSum(log + [r], a, b, i) == LogSum(log, a, b, i) + if Covers(r, a, b) then r.d[i] else 0.0
    ensures Covered(log + [r], a, b) <==> Covered(log, a, b) || Covers(r, a, b)
  {
    var all := log + [r];
    assert all[..|log|] == log && all[|log|] == r;
    assert forall k :: 0 <= k < |log| ==> all[k] == log[k];
    hide Covers;
  }

  lemma SumWhereOn(lines: seq<Line>, hit: string -> bool, i: nat)
    requires i < NR_STATS && lines != []
    ensures var n := |lines| - 1;
      && SumWhere(lines, hit, i) == SumWhere(lines[..n], hit, i) + (if hit(lines[n].nid) then lines[n].stats[i] else 0)
      && (AnyWhere(lines, hit) <==> AnyWhere(lines[..n], hit) || hit(lines[n].nid))
  {
    var n := |lines| - 1;
    assert forall k :: 0 <= k < n ==> lines[..n][k] == lines[k];
    if AnyWhere(lines, hit) && !hit(lines[n].nid) {
      var k :| 0 <= k < |lines| && hit(lines[k].nid);
      assert hit(lines[..n][k].nid);
    }
  }

  lemma RealsAt(c: Counters, i: nat)
    requires i < NR_STATS
    ensures Reals(c)[i] == c[i] as real
  {
  }

  lemma ReceivedUpTo(events: seq<MasterRuns.Event>, n: nat, serv: string)
    requires n < |events|
    ensures Received(events[..n + 1], serv) ==
      Received(events[..n], serv) + if PutOf(events[n], serv) then [events[n].msg] else []
  {
    assert events[..n + 1][..n] == events[..n];
    hide PutOf;
  }

  lemma TextsOn(lines: seq<Line>, before: seq<string>, msg: string)
    requires Texts(lines) == before + [msg]
    ensures lines != [] && before == Texts(lines[..|lines| - 1]) && msg == Text(lines[|lines| - 1])
  {
    var t := Texts(lines);
    assert |t| == |lines| && t[|before|] == msg && t[..|before|] == before;
    hide Text;
  }

  lemma CoheresAt(hist: seq<State>, events: seq<MasterRuns.Event>, scan: string -> Machine.Reading, k: nat)
    requires Coherent(hist, events, scan) && k < |events|
    ensures |hist| == |events| + 1
    ensures Counts(hist[k], events[k], scan) ==> Arrived(hist[k], events[k], scan, hist[k + 1])
  {
    hide Counts, Arrived;
  }

  /** A line of the server counts, and covers the pair if its NID is hit. */
  lemma PutCovers(hist: seq<State>, events: seq<MasterRuns.Event>, scan: string -> Machine.Reading, k: nat,
                  serv: string, l: Line, a: XNode, sv: XNode, hit: string -> bool)
    requires Coherent(hist, events, scan) && k < |events| && |hist| == |events| + 1
    requires PutOf(events[k], serv) && events[k].msg == Text(l) && IsWord(l.nid) && ReadsBack(scan)
    requires Known(hist[k], Serv, serv).Some?
    requires Heads(hist, events, scan, serv, sv) && Routed(hist, events, scan, serv, a, hit)
    ensures Counts(hist[k], events[k], scan) && Arrived(hist[k], events[k], scan, hist[k + 1])
    ensures var r := ReportOf(hist[k], events[k], scan, hist[k + 1]);
      r.d == Reals(l.stats) && (Covers(r, a, sv) <==> hit(l.nid))
  {
    PutReport(hist[k], events[k], scan, hist[k + 1], serv, l);
    CoheresAt(hist, events, scan, k);
    hide Counts, Arrived, ReportOf, Text, IsWord, ReadsBack, Reals, Wsep, PutOf, Known, Coherent;
  }

  /** What counts but is from elsewhere does not. */
  lemma OthersMiss(hist: seq<State>, events: seq<MasterRuns.Event>, scan: string -> Machine.Reading, k: nat,
                   serv: string, a: XNode, sv: XNode)
    requires Coherent(hist, events, scan) && k < |events| && |hist| == |events| + 1
    requires !PutOf(events[k], serv) && Counts(hist[k], events[k], scan) && Heads(hist, events, scan, serv, sv)
    ensures Arrived(hist[k], events[k], scan, hist[k + 1])
    ensures !Covers(ReportOf(hist[k], events[k], scan, hist[k + 1]), a, sv)
  {
    CoheresAt(hist, events, scan, k);
    hide Counts, Arrived, ReportOf, PutOf, Coherent;
  }

  lemma NoLines(lines: seq<Line>, a: XNode, b: XNode, hit: string -> bool, i: nat)
    requires i < NR_STATS && Texts(lines) == []
    ensures SumWhere(lines, hit, i) == 0 && !AnyWhere(lines, hit) && LogSum([], a, b, i) == 0.0 && !Covered([], a, b)
  {
    assert |Texts(lines)| == |lines|;
  }

  lemma NoPuts(events: seq<MasterRuns.Event>, serv: string)
    ensures Received(events[..0], serv) == []
  {
  }

  lemma WordsLess(lines: seq<Line>)
    requires AllWords(lines) && lines != []
    ensures AllWords(lines[..|lines| - 1]) && IsWord(lines[|lines| - 1].nid)
  {
    hide IsWord;
  }

  lemma PlusNothing<T>(s: seq<T>)
    ensures s + [] == s
  {
  }

  /** The pair of `a` and the server sums up exactly the lines of the NIDs hit. */
  lemma {:induction false} SumsUp(hist: seq<State>, events: seq<MasterRuns.Event>, scan: string -> Machine.Reading,
                                  n: nat, serv: string, lines: seq<Line>, a: XNode, sv: XNode, hit: string -> bool,
                                  i: nat)
    requires Coherent(hist, events, scan) && n <= |events| && |hist| == |events| + 1 && i < NR_STATS
    requires Received(events[..n], serv) == Texts(lines) && AllWords(lines) && ReadsBack(scan)
    requires forall k :: 0 <= k < |events| && PutOf(events[k], serv) ==> Known(hist[k], Serv, serv).Some?
    requires Heads(hist, events, scan, serv, sv) && Routed(hist, events, scan, serv, a, hit)
    ensures LogSum(Reports(hist, events, scan, n), a, sv, i) == SumWhere(lines, hit, i) as real
    ensures Covered(Reports(hist, events, scan, n), a, sv) <==> AnyWhere(lines, hit)
    decreases n
  {
    hide *;
    ReportsNext(hist, events, scan, n);
    if n == 0 {
      NoPuts(events, serv);
      NoLines(lines, a, sv, hit, i);
    } else {
      var k, log := n - 1, Reports(hist, events, scan, n - 1);
      ReceivedUpTo(events, k, serv);
      PutOfIs(events[k], serv);
      if PutOf(events[k], serv) {
        var m := |lines| - 1;
        TextsOn(lines, Received(events[..k], serv), events[k].msg);
        WordsLess(lines);
        SumsUp(hist, events, scan, k, serv, lines[..m], a, sv, hit, i);
        PutCovers(hist, events, scan, k, serv, lines[m], a, sv, hit);
        LogSumOn(log, ReportOf(hist[k], events[k], scan, hist[n]), a, sv, i);
        SumWhereOn(lines, hit, i);
        RealsAt(lines[m].stats, i);
      } else {
        PlusNothing(log);
        PlusNothing(Received(events[..k], serv));
        SumsUp(hist, events, scan, k, serv, lines, a, sv, hit, i);
        if Counts(hist[k], events[k], scan) {
          OthersMiss(hist, events, scan, k, serv, a, sv);
          LogSumOn(log, ReportOf(hist[k], events[k], scan, hist[n]), a, sv, i);
        }
      }
    }
  }

  lemma HeadsAll(hist: seq<State>, events: seq<MasterRuns.Event>, scan: string -> Machine.Reading,
                 steps: seq<Option<Step>>, serv: string)
    requires History(hist, events, scan, steps) && hist[0].s.log == [] && |hist| == |events| + 1
    requires Known(hist[|events|], Serv, serv).Some?
    ensures Heads(hist, events, scan, serv, Known(hist[|events|], Serv, serv).value)
  {
    forall k | 0 <= k < |events| && Arrived(hist[k], events[k], scan, hist[k + 1])
      ensures Known(hist[|events|], Serv, serv).value in ReportOf(hist[k], events[k], scan, hist[k + 1]).chain1 <==>
        PutOf(events[k], serv)
    {
      ArrivedCounts(hist[k], events[k], scan, hist[k + 1]);
      ReportServer(hist, events, scan, steps, k, serv);
    }
    hide History, Known, Arrived, ReportOf, PutOf;
  }

  lemma ArrivedCounts(a: State, e: MasterRuns.Event, scan: string -> Machine.Reading, b: State)
    requires Arrived(a, e, scan, b)
    ensures Counts(a, e, scan)
  {
  }

  lemma DeliveredMeans(hist: seq<State>, events: seq<MasterRuns.Event>, serv: string, lines: seq<Line>)
    requires Delivered(hist, events, serv, lines)
    ensures |hist| == |events| + 1 && Received(events[..|events|], serv) == Texts(lines)
    ensures forall k :: 0 <= k < |events| && PutOf(events[k], serv) ==> Known(hist[k], Serv, serv).Some?
  {
    assert events[..|events|] == events;
    hide Received, Texts, PutOf, Known;
  }

  /** The server is live and of the provider side. */
  lemma ServerThere(m: Master, l: Lnet, a: State, serv: string)
    requires m.Valid() && (Serv, serv) in m.names && a == State(m.S(), l.table)
    ensures m.names[(Serv, serv)] in m.live && Which(m.names[(Serv, serv)].kind) == 1
    ensures Known(a, Serv, serv) == Some(m.names[(Serv, serv)])
  {
    hide *;
    m.Parts();
    m.Ready(Serv, serv);
    KnownIs(a, Serv, serv);
    ServSide();
  }

  lemma ServSide()
    ensures Which(Serv) == 1 && 0 < NR_STATS
  {
  }

  /** Lines of a server, and the k_node of any consumer with that server: it is there if and only if a line came for a
      host below the consumer, and its sums are exactly the sums of those lines. */
  lemma LinesArrive(m: Master, l: Lnet, hist: seq<State>, events: seq<MasterRuns.Event>,
                    scan: string -> Machine.Reading, steps: seq<Option<Step>>, serv: string, lines: seq<Line>,
                    a: XNode, hit: string -> bool)
    requires m.Valid() && a in m.live && Which(a.kind) == 0 && (Serv, serv) in m.names
    requires History(hist, events, scan, steps) && hist[0].s.log == [] && hist[|events|] == State(m.S(), l.table)
    requires Delivered(hist, events, serv, lines) && AllWords(lines) && ReadsBack(scan)
    requires Routed(hist, events, scan, serv, a, hit)
    ensures var k := (a, m.names[(Serv, serv)]);
      && (k in m.table <==> AnyWhere(lines, hit))
      && (k in m.table ==> forall i: nat :: i < NR_STATS ==> m.table[k].flow.sum[i] == SumWhere(lines, hit, i) as real)
  {
    hide *;
    var sv := m.names[(Serv, serv)];
    ServSide();
    DeliveredMeans(hist, events, serv, lines);
    ServerThere(m, l, hist[|events|], serv);
    HistoryCoheres(hist, events, scan, steps);
    HeadsAll(hist, events, scan, steps, serv);
    TableIsIndex(m, l, hist, events, scan, steps, a, sv);
    SumsUp(hist, events, scan, |events|, serv, lines, a, sv, hit, 0);
    forall i: nat | i < NR_STATS && (a, sv) in m.table
      ensures m.table[(a, sv)].flow.sum[i] == SumWhere(lines, hit, i) as real
    {
      SumsUp(hist, events, scan, |events|, serv, lines, a, sv, hit, i);
    }
  }

  // ---------- the host's pair, and the universe's ----------

  /** Among the lines of the server, those with the NID are exactly those for the host. */
  ghost predicate LeadsTo(hist: seq<State>, events: seq<MasterRuns.Event>, scan: string -> Machine.Reading,
                          serv: string, nid: string, x: XNode)
    requires |hist| == |events| + 1
  {
    forall k :: 0 <= k < |events| && PutOf(events[k], serv) && Arrived(hist[k], events[k], scan, hist[k + 1]) ==>
      (hist[k + 1].t[Wsep(events[k].msg).0.value] == x <==> Wsep(events[k].msg).0.value == nid)
  }

  lemma {:induction false} NidsStay(hist: seq<State>, events: seq<MasterRuns.Event>,
                                    scan: string -> Machine.Reading, steps: seq<Option<Step>>, j: nat, k: nat,
                                    nid: string)
    requires History(hist, events, scan, steps) && j <= k <= |events| && |hist| == |events| + 1
    requires nid in hist[j].t && forall i :: j <= i < k ==> !events[i].NidFile?
    ensures nid in hist[k].t && hist[k].t[nid] == hist[j].t[nid]
    decreases k
  {
    hide *;
    if j < k {
      NidsStay(hist, events, scan, steps, j, k - 1, nid);
      TurnAt(hist, events, scan, steps, k - 1);
      NidStays(hist[k - 1], events[k - 1], scan, steps[k - 1], hist[k], nid);
    }
  }

  /** No line of a network's file is read once the server's lines have begun to come. */
  ghost predicate FilesFirst(events: seq<MasterRuns.Event>, serv: string) {
    forall k, i :: 0 <= k <= i < |events| && PutOf(events[k], serv) ==> !events[i].NidFile?
  }

  /** In the table `t`, of the NIDs in the server's lines exactly `nid` leads to x. */
  ghost predicate Alone(events: seq<MasterRuns.Event>, serv: string, t: map<string, XNode>, nid: string, x: XNode) {
    forall k :: 0 <= k < |events| && PutOf(events[k], serv) ==>
      match Wsep(events[k].msg).0
      case None => true
      case Some(w) => w in t ==> (t[w] == x <==> w == nid)
  }

  /** Then it can be seen from the table in the end where the lines went. */
  lemma LedByTable(hist: seq<State>, events: seq<MasterRuns.Event>, scan: string -> Machine.Reading,
                   steps: seq<Option<Step>>, serv: string, nid: string, x: XNode)
    requires History(hist, events, scan, steps) && |hist| == |events| + 1 && FilesFirst(events, serv)
    requires Alone(events, serv, hist[|events|].t, nid, x)
    ensures LeadsTo(hist, events, scan, serv, nid, x)
  {
    hide History, Wsep, Forest;
    forall k | 0 <= k < |events| && PutOf(events[k], serv) && Arrived(hist[k], events[k], scan, hist[k + 1])
      ensures hist[k + 1].t[Wsep(events[k].msg).0.value] == x <==> Wsep(events[k].msg).0.value == nid
    {
      ArrivedNid(hist[k], events[k], scan, hist[k + 1]);
      NidsStay(hist, events, scan, steps, k + 1, |events|, Wsep(events[k].msg).0.value);
    }
  }

  lemma ArrivedNid(a: State, e: MasterRuns.Event, scan: string -> Machine.Reading, b: State)
    requires Arrived(a, e, scan, b)
    ensures e.ServPut? && Wsep(e.msg).0.Some? && Wsep(e.msg).0.value in b.t
  {
    hide Wsep;
  }

  /** The only host among a report's ancestors is its own, and the universe is always among them. */
  lemma OneHost(h: Hier, e: FlowTable.Entry, x: XNode)
    requires Tree(h) && EntryOk(h, e) && IsKind(h.nodes, x, Host)
    ensures (x in e.chain0 <==> e.chain0[0] == x) && h.u in e.chain0
  {
    hide Forest, Named, NameOk, OneTop;
  }

  lemma HostRouted(hist: seq<State>, events: seq<MasterRuns.Event>, scan: string -> Machine.Reading,
                   steps: seq<Option<Step>>, serv: string, nid: string, x: XNode, hit: string -> bool)
    requires History(hist, events, scan, steps) && hist[0].s.log == [] && |hist| == |events| + 1
    requires Known(hist[|events|], Serv, serv).Some? && IsKind(hist[|events|].s.h.nodes, x, Host)
    requires LeadsTo(hist, events, scan, serv, nid, x) && forall n :: hit(n) <==> n == nid
    ensures Routed(hist, events, scan, serv, x, hit)
  {
    InvAt(hist, events, scan, steps, |events|);
    InvTree(hist[|events|].s);
    hide History, Known, Arrived, ReportOf, PutOf, Inv, Tree, IsKind, Wsep;
    forall k | 0 <= k < |events| && PutOf(events[k], serv) && Arrived(hist[k], events[k], scan, hist[k + 1])
      ensures x in ReportOf(hist[k], events[k], scan, hist[k + 1]).chain0 <==>
        Wsep(events[k].msg).0.Some? && hit(Wsep(events[k].msg).0.value)
    {
      ArrivedCounts(hist[k], events[k], scan, hist[k + 1]);
      ReportServer(hist, events, scan, steps, k, serv);
      ReportParts(hist[k], events[k], scan, hist[k + 1]);
      OneHost(hist[|events|].s.h, ReportOf(hist[k], events[k], scan, hist[k + 1]), x);
    }
  }

  lemma UniverseRouted(hist: seq<State>, events: seq<MasterRuns.Event>, scan: string -> Machine.Reading,
                       steps: seq<Option<Step>>, serv: string, hit: string -> bool)
    requires History(hist, events, scan, steps) && hist[0].s.log == [] && |hist| == |events| + 1
    requires Known(hist[|events|], Serv, serv).Some? && forall n :: hit(n)
    ensures Routed(hist, events, scan, serv, hist[|events|].s.h.u, hit)
  {
    InvAt(hist, events, scan, steps, |events|);
    InvTree(hist[|events|].s);
    hide History, Known, Arrived, ReportOf, PutOf, Inv, Tree, Wsep;
    forall k | 0 <= k < |events| && PutOf(events[k], serv) && Arrived(hist[k], events[k], scan, hist[k + 1])
      ensures hist[|events|].s.h.u in ReportOf(hist[k], events[k], scan, hist[k + 1]).chain0
      ensures Wsep(events[k].msg).0.Some?
    {
      ArrivedCounts(hist[k], events[k], scan, hist[k + 1]);
      ReportServer(hist, events, scan, steps, k, serv);
      ReportParts(hist[k], events[k], scan, hist[k + 1]);
    }
  }

  lemma {:induction false} OneNid(lines: seq<Line>, nid: string, hit: string -> bool, i: nat)
    requires i < NR_STATS && forall n :: hit(n) <==> n == nid
    ensures SumWhere(lines, hit, i) == LinesSum(lines, nid, i)
  {
    if lines != [] {
      OneNid(lines[..|lines| - 1], nid, hit, i);
    }
  }

  predicate Mentions(lines: seq<Line>, nid: string) {
    exists i :: 0 <= i < |lines| && lines[i].nid == nid
  }

  /** The k_node of a host and a server: it is there if and only if a line with the host's NID came, and sums up exactly
      those lines. */
  lemma HostSums(m: Master, l: Lnet, hist: seq<State>, events: seq<MasterRuns.Event>,
                 scan: string -> Machine.Reading, steps: seq<Option<Step>>, serv: string, lines: seq<Line>,
                 nid: string, x: XNode)
    requires m.Valid() && x in m.live && x.kind == Host && (Serv, serv) in m.names
    requires History(hist, events, scan, steps) && hist[0].s.log == [] && hist[|events|] == State(m.S(), l.table)
    requires Delivered(hist, events, serv, lines) && AllWords(lines) && ReadsBack(scan)
    requires LeadsTo(hist, events, scan, serv, nid, x)
    ensures var k := (x, m.names[(Serv, serv)]);
      && (k in m.table <==> Mentions(lines, nid))
      && (k in m.table ==> forall i: nat :: i < NR_STATS ==> m.table[k].flow.sum[i] == LinesSum(lines, nid, i) as real)
  {
    var hit := (n: string) => n == nid;
    assert AnyWhere(lines, hit) <==> Mentions(lines, nid);
    hide *;
    var k := (x, m.names[(Serv, serv)]);
    HostSide(m, hist[|events|], l, x);
    DeliveredMeans(hist, events, serv, lines);
    ServerThere(m, l, hist[|events|], serv);
    HostRouted(hist, events, scan, steps, serv, nid, x, hit);
    LinesArrive(m, l, hist, events, scan, steps, serv, lines, x, hit);
    forall i: nat | i < NR_STATS && k in m.table
      ensures m.table[k].flow.sum[i] == LinesSum(lines, nid, i) as real
    {
      OneNid(lines, nid, hit, i);
    }
  }

  lemma HostSide(m: Master, a: State, l: Lnet, x: XNode)
    requires m.Valid() && x in m.live && x.kind == Host && a == State(m.S(), l.table)
    ensures IsKind(a.s.h.nodes, x, Host) && Which(x.kind) == 0
  {
    m.Parts();
    m.At(x);
    hide Master.Valid;
  }

  /** What all lines add up to. */
  function Total(lines: seq<Line>, i: nat): int
    requires i < NR_STATS
  {
    if lines == [] then 0 else Total(lines[..|lines| - 1], i) + lines[|lines| - 1].stats[i]
  }

  lemma {:induction false} AllNids(lines: seq<Line>, hit: string -> bool, i: nat)
    requires i < NR_STATS && forall n :: hit(n)
    ensures SumWhere(lines, hit, i) == Total(lines, i)
  {
    if lines != [] {
      AllNids(lines[..|lines| - 1], hit, i);
    }
  }

  /** The k_node of the universe and a server sums up all its lines, wherever the NIDs lead. */
  lemma UniverseSums(m: Master, l: Lnet, hist: seq<State>, events: seq<MasterRuns.Event>,
                     scan: string -> Machine.Reading, steps: seq<Option<Step>>, serv: string, lines: seq<Line>)
    requires m.Valid() && (Serv, serv) in m.names
    requires History(hist, events, scan, steps) && hist[0].s.log == [] && hist[|events|] == State(m.S(), l.table)
    requires Delivered(hist, events, serv, lines) && AllWords(lines) && ReadsBack(scan)
    ensures var k := (m.u, m.names[(Serv, serv)]);
      && (k in m.table <==> lines != [])
      && (k in m.table ==> forall i: nat :: i < NR_STATS ==> m.table[k].flow.sum[i] == Total(lines, i) as real)
  {
    var hit := (n: string) => true;
    assert AnyWhere(lines, hit) <==> lines != [] by {
      assert lines != [] ==> hit(lines[0].nid);
    }
    hide *;
    var k := (m.u, m.names[(Serv, serv)]);
    UniverseSide(m, hist[|events|], l);
    DeliveredMeans(hist, events, serv, lines);
    ServerThere(m, l, hist[|events|], serv);
    UniverseRouted(hist, events, scan, steps, serv, hit);
    LinesArrive(m, l, hist, events, scan, steps, serv, lines, m.u, hit);
    forall i: nat | i < NR_STATS && k in m.table
      ensures m.table[k].flow.sum[i] == Total(lines, i) as real
    {
      AllNids(lines, hit, i);
    }
  }

  lemma UniverseSide(m: Master, a: State, l: Lnet)
    requires m.Valid() && a == State(m.S(), l.table)
    ensures m.u in m.live && Which(m.u.kind) == 0 && a.s.h.u == m.u
  {
    m.Parts();
    m.At(m.u);
    InvTree(m.S());
    hide Master.Valid, Inv;
  }

  /** From the collector's targets to the master's table: if all lines the collector sent arrive, the sums of host and
      server are last counter minus first counter over all lifetimes of the server's targets, but for what the cycles
      missed whose print or PUT failed. */
  lemma CountersArrive(c: Collectors.Collector, cs: seq<CollectorRuns.Cycle>,
                       ids: map<Collectors.Lxt, CollectorRuns.Life>, ls: seq<CollectorRuns.Life>,
                       m: Master, l: Lnet, hist: seq<State>, events: seq<MasterRuns.Event>,
                       scan: string -> Machine.Reading, steps: seq<Option<Step>>, serv: string, nid: string,
                       x: XNode, j: nat)
    requires CollectorRuns.Ran(c, cs, ids) && j < NR_STATS && NoDups(ls)
    requires forall i :: 0 <= i < |CollectorRuns.BookOf(cs).log| ==> CollectorRuns.BookOf(cs).log[i].l in ls
    requires m.Valid() && x in m.live && x.kind == Host && (Serv, serv) in m.names
    requires History(hist, events, scan, steps) && hist[0].s.log == [] && hist[|events|] == State(m.S(), l.table)
    requires Delivered(hist, events, serv, c.sent) && AllWords(c.sent) && ReadsBack(scan)
    requires LeadsTo(hist, events, scan, serv, nid, x)
    ensures var k, log := (x, m.names[(Serv, serv)]), CollectorRuns.BookOf(cs).log;
      var sum, gains := if k in m.table then m.table[k].flow.sum[j] else 0.0, Gains(log, ls, nid, j);
      && sum + CollectorRuns.Missed(cs, CollectorRuns.Sends, nid, j) as real == gains as real
      && (CollectorRuns.All(cs, CollectorRuns.Sends) ==> sum == gains as real)
  {
    hide *;
    HostSums(m, l, hist, events, scan, steps, serv, c.sent, nid, x);
    CollectorRuns.RunTelescopes(c, cs, ids, ls, nid, j);
    NotMentioned(c.sent, nid, j);
  }

  lemma {:induction false} NotMentioned(lines: seq<Line>, nid: string, i: nat)
    requires i < NR_STATS
    ensures !Mentions(lines, nid) ==> LinesSum(lines, nid, i) == 0
  {
    if lines != [] && !Mentions(lines, nid) {
      var n := |lines| - 1;
      assert lines[n].nid != nid && forall k :: 0 <= k < n ==> lines[..n][k] == lines[k];
      NotMentioned(lines[..n], nid, i);
    }
  }
}
