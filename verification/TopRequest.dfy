/** A top request over HTTP: the bytes the client sends, what a batch parser finds in them (src/botz.c), and bx_handle
    with top_get_cb as the handler of /top (src/master.c:412). */
module TopRequests {
  import opened Basics
  import opened Strings
  import opened XNodes
  import opened Masters
  import opened Walks
  import opened Http
  import opened Botz
  import opened Requests
  import opened Queries
  import opened Parsing
  import opened TopQueries
  import opened TopGets
  import Ewma
  import FlowTable
  import Hierarchy
  import Machine
  import Ordering
  import Tops

  // ---------- the request's bytes ----------

  lemma {:induction false} EscapeSolid(s: string)
    requires Bytes(s)
    ensures Solid(Escape(s))
  {
    if s != "" {
      EscapeSolid(s[1..]);
      CharSolid(s[0]);
      SolidPlus(EscapeChar(s[0]), Escape(s[1..]));
    }
  }

  lemma CharSolid(c: char)
    requires IsByte(c)
    ensures Solid(EscapeChar(c))
  {
  }

  /** A query string that query_add builds is one word of the request line. */
  lemma {:induction false} BuiltSolid(fs: seq<Field>)
    requires Clean(fs)
    ensures Solid(Built(fs))
  {
    if fs != [] {
      var n := |fs| - 1;
      EscapeSolid(fs[n].name);
      EscapeSolid(fs[n].value);
      SolidPlus(Escape(fs[n].name), "=");
      SolidPlus(Escape(fs[n].name) + "=", Escape(fs[n].value));
      if n > 0 {
        BuiltSolid(fs[..n]);
        SolidPlus(Built(fs[..n]), "&");
        SolidPlus(Built(fs[..n]) + "&", Queries.Pair(fs[n]));
      }
    }
  }

  /** Whatever headers follow: the batch parser finds the query string as the client built it. */
  lemma RequestFound(fs: seq<Field>, more: string)
    requires Clean(fs)
    ensures Message(StartText(GET, "/top", Some(Built(fs))) + "\n" + more) ==
      match Headers(more, Meta(0, false))
      case None => Incomplete
      case Some((m, after)) => Bodied(GET, "/top", Some(Built(fs)), m, after)
  {
    BuiltSolid(fs);
    hide Built, StartText, Headers, Bodied, Message;
    StartsMessage(GET, "/top", Some(Built(fs)), more);
  }

  // ---------- the handler ----------

  /** The path leads from the root to the entry for top queries, and passes no other. */
  predicate AtTop(path: string) {
    NamesIn(Pieces(path, "/")) == ["top"]
  }

  lemma TopPath()
    ensures AtTop("/top")
  {
    assert "" + ['/'] + "top" == "/top";
    PiecesJoin("", '/', "top", "/");
    PiecesOne("", "/");
    assert [""] + ["top"] == ["", "top"] && ["", "top"][1..] == ["top"];
    hide Pieces;
  }

  predicate TopAsked(asked: Asked) {
    asked.Request? && asked.verb == GET && AtTop(asked.path)
  }

  /** strdup: the query string gets memory of its own, if there is one. */
  function Memory(query: Option<string>): string {
    match query
    case None => ""
    case Some(q) => Copied(CString(q))
  }

  function Pointer(query: Option<string>): Option<nat> {
    match query
    case None => None
    case Some(_) => Some(0)
  }

  /** What a top query with the arguments `g` answers in state s, which it leaves as s1. */
  ghost predicate Listed(s: FlowTable.Sys, s1: FlowTable.Sys, names: Hierarchy.Names, g: Args, at: real,
                         status: Status, out: seq<FlowTable.Pair>, ps: seq<FlowTable.Pair>, spec: Ordering.Spec) {
    && g.x0.Some? && g.x1.Some? && Compares(spec, g.spec)
    && var x0, x1 := NodeFor(names, g.x0.value), NodeFor(names, g.x1.value);
    && (status == if x0 == null || x1 == null then NotFound else OK)
    && (ps == if x0 == null || x1 == null then []
              else Visit(s.h.nodes, s.flows.Keys, x0, g.d0, x1, g.d1, FilterFor(g.owner)))
    && (x0 != null && x1 != null ==> AreSelected(s.h.nodes, s.flows.Keys, x0, g.d0, x1, g.d1, g.owner, ps))
    && Tops.Answers(spec, Tops.Limit(g.limit), s1.flows, ps, out)
    && FlowTable.Inv(s) && Machine.Enabled(s, Machine.Query(Tops.SetOf(ps), at))
    && s1 == Machine.Next(s, Machine.Query(Tops.SetOf(ps), at))
  }

  /** What top_get_cb answers to a query string: a bad one is refused without effect. */
  ghost predicate Served(s: FlowTable.Sys, s1: FlowTable.Sys, names: Hierarchy.Names, query: Option<string>, at: real,
                         status: Status, out: seq<FlowTable.Pair>, ps: seq<FlowTable.Pair>, spec: Ordering.Spec) {
    QueryHere(query);
    var (fs, past) := FieldsAt(Memory(query), Pointer(query));
    match Judged(TABLE, Accepts, fs, past)
    case Passed => Listed(s, s1, names, ArgsOf(fs), at, status, out, ps, spec)
    case Rejected => status == BadRequest && out == [] && s1 == s
    case PastEnd => status == Unknown && out == [] && s1 == s
  }

  lemma AnsweredListed(m: Master, s: FlowTable.Sys, names: Hierarchy.Names, g: Args, at: real, status: Status,
                       out: seq<KNode>, ps: seq<FlowTable.Pair>, spec: Ordering.Spec)
    requires TopGets.Answered(m, s, names, g, at, status, out, ps, spec)
    ensures Listed(s, m.S(), names, g, at, status, Tops.NamesOf(out), ps, spec) && Tops.InTable(m.table, out)
  {
    m.Parts();
    m.SteppedMeans(s, Machine.Query(Tops.SetOf(ps), at));
    hide Master.Stepped, Master.S, Visit, AreSelected, Tops.Answers, Tops.InTable, NodeFor, Compares;
    hide FlowTable.Inv, Machine.Next, Machine.Enabled, Tops.SetOf, Tops.NamesOf, FilterFor;
  }

  lemma ServedIs(m: Master, s: FlowTable.Sys, names: Hierarchy.Names, query: Option<string>, at: real,
                 status: Status, out: seq<KNode>, ps: seq<FlowTable.Pair>, spec: Ordering.Spec)
    requires IsQuery(Memory(query), Pointer(query))
    requires var (fs, past) := FieldsAt(Memory(query), Pointer(query));
      match Judged(TABLE, Accepts, fs, past)
      case Passed => TopGets.Answered(m, s, names, ArgsOf(fs), at, status, out, ps, spec)
      case Rejected => status == BadRequest && out == [] && m.S() == s
      case PastEnd => status == Unknown && out == [] && m.S() == s
    ensures Served(s, m.S(), names, query, at, status, Tops.NamesOf(out), ps, spec) && Tops.InTable(m.table, out)
  {
    var (fs, past) := FieldsAt(Memory(query), Pointer(query));
    if Judged(TABLE, Accepts, fs, past) == Passed {
      AnsweredListed(m, s, names, ArgsOf(fs), at, status, out, ps, spec);
    }
    hide FieldsAt, Judged, TopGets.Answered, ArgsOf, Master.S, Listed, Memory, Pointer;
  }

  lemma QueryHere(query: Option<string>)
    ensures IsQuery(Memory(query), Pointer(query))
  {
    hide CString;
  }

  /** What is printed of a k_node. */
  datatype Row = Row(x0: string, x1: string, flow: Ewma.Flow)

  ghost function RowsOf(out: seq<KNode>): seq<Row>
    reads out
  {
    seq(|out|, i requires 0 <= i < |out| reads out => Row(out[i].x0.name, out[i].x1.name, out[i].flow))
  }

  /** The loop that prints the answer. */
  method Rows(out: seq<KNode>) returns (rows: seq<Row>)
    ensures rows == RowsOf(out)
  {
    rows := [];
    for i := 0 to |out|
      invariant rows == RowsOf(out)[..i]
    {
      rows := rows + [Row(out[i].x0.name, out[i].x1.name, out[i].flow)];
    }
  }

  /** top_get_cb on a request's query string. */
  method Get(m: Master, query: Option<string>, at: real)
    returns (status: Status, out: seq<KNode>, ghost ps: seq<FlowTable.Pair>, ghost spec: Ordering.Spec)
    requires m.Valid() && 0.0 < at && m.now <= at
    modifies m.pool`flow, m`now
    ensures Served(old(m.S()), m.S(), old(m.names), query, at, status, Tops.NamesOf(out), ps, spec)
    ensures Tops.InTable(m.table, out)
  {
    hide *;
    ghost var s, names := m.S(), m.names;
    var text := Memory(query);
    var a := new char[|text|](i requires 0 <= i < |text| => text[i]);
    assert a[..] == text;
    QueryHere(query);
    status, out, ps, spec := TopGet(m, a, Pointer(query), at);
    ServedIs(m, s, names, query, at, status, out, ps, spec);
  }

  lemma AskedIs(g: Past, x: Exchange, s: string, r: Response)
    requires Open(g, x, s, r) && x.qReady
    ensures x.bodyLen <= |s| && (TopAsked(AskedOf(x, s)) <==> IsTop(x))
    ensures IsTop(x) ==> AskedOf(x, s).Request? && AskedOf(x, s).query == x.query
  {
    hide AtTop, OnTrack, InOrder, Reading;
  }

  predicate IsTop(x: Exchange) {
    x.path.Some? && x.verb == GET && AtTop(x.path.value)
  }

  /** bx_handle: top_get_cb for a top query, `other` for anything else; `show` prints the answer. */
  method Answer(x: Exchange, m: Master, at: real, show: (Status, seq<Row>) -> Reply, other: Reply)
    returns (reply: Reply, status: Status, out: seq<KNode>, ghost ps: seq<FlowTable.Pair>, ghost spec: Ordering.Spec)
    requires m.Valid() && 0.0 < at && m.now <= at
    modifies m.pool`flow, m`now
    ensures IsTop(x) ==>
      && Served(old(m.S()), m.S(), old(m.names), x.query, at, status, Tops.NamesOf(out), ps, spec)
      && Tops.InTable(m.table, out) && reply == show(status, RowsOf(out))
    ensures !IsTop(x) ==> reply == other && m.S() == old(m.S())
  {
    status, out, ps, spec := OK, [], [], [];
    if !IsTop(x) {
      return other, status, out, ps, spec;
    }
    hide *;
    status, out, ps, spec := Get(m, x.query, at);
    var rows := Rows(out);
    reply := show(status, rows);
  }

  /** The end of bx_handle, which concerns the connection only. */
  method Respond(c: Conn, m: Master, reply: Reply, ghost s: string)
    requires c.q.Valid() && Open(c.g, c.x, s, c.r) && c.x.qReady
    requires c.x.bodyLen <= |s| == |c.q.Contents()| && c.q.Contents()[c.x.bodyLen..] == s[c.x.bodyLen..]
    modifies c`x, c`r, c`g, c.q`start
    ensures c.q.Valid() && Answering(c.g, c.x, c.q.Contents(), c.r) && c.q.Contents() == s[old(c.x).bodyLen..]
    ensures var asked := AskedOf(old(c.x), s); c.g == Handled(old(c.g), asked, Payload(asked, reply))
    ensures m.S() == old(m.S()) && (old(m.Valid()) ==> m.Valid())
  {
    hide *;
    m.Parts();
    ValidIs(m);
    c.Handle(reply, s);
    m.Parts();
    ValidIs(m);
  }

  /** The whole of bx_handle and br_write_header for the request that is ready. */
  method Handle(c: Conn, m: Master, at: real, show: (Status, seq<Row>) -> Reply, other: Reply)
    returns (ghost reply: Reply, status: Status, out: seq<KNode>, ghost ps: seq<FlowTable.Pair>,
             ghost spec: Ordering.Spec)
    requires c.q.Valid() && Open(c.g, c.x, c.q.Contents(), c.r) && c.x.qReady
    requires m.Valid() && 0.0 < at && m.now <= at
    modifies c`x, c`r, c`g, c.q`start, m.pool`flow, m`now
    ensures c.q.Valid() && Answering(c.g, c.x, c.q.Contents(), c.r)
    ensures old(c.x).bodyLen <= |old(c.q.Contents())|
    ensures var asked := AskedOf(old(c.x), old(c.q.Contents()));
      && c.g == Handled(old(c.g), asked, Payload(asked, reply))
      && (TopAsked(asked) ==>
            && Served(old(m.S()), m.S(), old(m.names), asked.query, at, status, Tops.NamesOf(out), ps, spec)
            && Tops.InTable(m.table, out) && reply == show(status, RowsOf(out)))
      && (!TopAsked(asked) ==> reply == other && m.S() == old(m.S()))
  {
    hide *;
    AskedIs(c.g, c.x, c.q.Contents(), c.r);
    m.Parts();
    var answer;
    answer, status, out, ps, spec := Answer(c.x, m, at, show, other);
    reply := answer;
    Respond(c, m, answer, c.q.Contents());
  }

  // ---------- from the user to the answer ----------

  lemma MemoryOf(fs: seq<Field>)
    requires Clean(fs)
    ensures Memory(Some(Built(fs))) == Copied(Built(fs)) && Pointer(Some(Built(fs))) == Some(0)
  {
    BuiltSolid(fs);
    CStringAll(Built(fs));
    hide Built, Copied;
  }

  ghost predicate IsNamed(names: Hierarchy.Names, kind: Kind, name: string, x: XNode?) {
    x == if (kind, name) in names then names[(kind, name)] else null
  }

  /** The request that goes out over HTTP for what the user asked is answered by the best of the pairs below the nodes
      asked for, in the order asked for, if it has at most ten keys and no empty owner. */
  lemma UserServed(r: TopQueries.Request, s: FlowTable.Sys, s1: FlowTable.Sys, names: Hierarchy.Names, at: real,
                   status: Status, out: seq<FlowTable.Pair>, ps: seq<FlowTable.Pair>, spec: Ordering.Spec,
                   x0: XNode?, x1: XNode?)
    requires Proper(r) && Clean(FieldsOf(r)) && |r.keys| <= 10 && r.owner != Some("")
    requires Served(s, s1, names, Some(Built(FieldsOf(r))), at, status, out, ps, spec)
    requires IsNamed(names, r.t0, r.x0, x0) && IsNamed(names, r.t1, r.x1, x1)
    ensures status == if x0 == null || x1 == null then NotFound else OK
    ensures Ordering.Keys(spec) == if r.keys == [] then DEFAULT_KEYS else r.keys
    ensures x0 == null || x1 == null ==> ps == []
    ensures x0 != null && x1 != null ==>
      && ps == Visit(s.h.nodes, s.flows.Keys, x0, r.d0, x1, r.d1, FilterFor(r.owner))
      && AreSelected(s.h.nodes, s.flows.Keys, x0, r.d0, x1, r.d1, r.owner, ps)
    ensures Tops.Answers(spec, Tops.Limit(r.limit), s1.flows, ps, out)
    ensures FlowTable.Inv(s) && Machine.Enabled(s, Machine.Query(Tops.SetOf(ps), at))
    ensures s1 == Machine.Next(s, Machine.Query(Tops.SetOf(ps), at))
  {
    MemoryOf(FieldsOf(r));
    RequestServed(r, names);
    var (fs, past) := FieldsAt(Copied(Built(FieldsOf(r))), Some(0));
    hide *;
    ServedMeans(s, s1, names, Some(Built(FieldsOf(r))), at, status, out, ps, spec, fs, past);
    IsNamedIs(names, r.t0, r.x0, x0);
    IsNamedIs(names, r.t1, r.x1, x1);
    ListedMeans(s, s1, names, ArgsOf(fs), at, status, out, ps, spec, x0, x1);
  }

  lemma IsNamedIs(names: Hierarchy.Names, kind: Kind, name: string, x: XNode?)
    ensures IsNamed(names, kind, name, x) <==> x == if (kind, name) in names then names[(kind, name)] else null
  {
  }

  lemma ServedMeans(s: FlowTable.Sys, s1: FlowTable.Sys, names: Hierarchy.Names, query: Option<string>, at: real,
                    status: Status, out: seq<FlowTable.Pair>, ps: seq<FlowTable.Pair>, spec: Ordering.Spec,
                    fs: seq<Field>, past: bool)
    requires Served(s, s1, names, query, at, status, out, ps, spec)
    requires IsQuery(Memory(query), Pointer(query)) && FieldsAt(Memory(query), Pointer(query)) == (fs, past)
    requires Judged(TABLE, Accepts, fs, past) == Passed
    ensures Listed(s, s1, names, ArgsOf(fs), at, status, out, ps, spec)
  {
    hide Memory, Pointer, FieldsAt, Judged, Listed, ArgsOf;
  }

  lemma ListedMeans(s: FlowTable.Sys, s1: FlowTable.Sys, names: Hierarchy.Names, g: Args, at: real, status: Status,
                    out: seq<FlowTable.Pair>, ps: seq<FlowTable.Pair>, spec: Ordering.Spec, x0: XNode?, x1: XNode?)
    requires Listed(s, s1, names, g, at, status, out, ps, spec)
    requires g.x0.Some? && g.x1.Some? && x0 == NodeFor(names, g.x0.value) && x1 == NodeFor(names, g.x1.value)
    ensures Compares(spec, g.spec) && status == if x0 == null || x1 == null then NotFound else OK
    ensures ps == if x0 == null || x1 == null then []
                  else Visit(s.h.nodes, s.flows.Keys, x0, g.d0, x1, g.d1, FilterFor(g.owner))
    ensures x0 != null && x1 != null ==> AreSelected(s.h.nodes, s.flows.Keys, x0, g.d0, x1, g.d1, g.owner, ps)
    ensures Tops.Answers(spec, Tops.Limit(g.limit), s1.flows, ps, out)
    ensures FlowTable.Inv(s) && Machine.Enabled(s, Machine.Query(Tops.SetOf(ps), at))
    ensures s1 == Machine.Next(s, Machine.Query(Tops.SetOf(ps), at))
  {
    hide Visit, AreSelected, Tops.Answers, FlowTable.Inv, Machine.Enabled, Machine.Next, NodeFor, Compares;
  }
}
