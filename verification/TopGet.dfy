/** The server's side of a top request: top_get_cb (src/top.c) parses the query and calls top_query_cb. What the user of
    xltop asked for is what is answered. */
module TopGets {
  import opened Basics
  import opened Numbers
  import opened XNodes
  import opened Masters
  import opened Walks
  import opened Queries
  import opened RoundTrips
  import opened Parsing
  import opened TopQueries
  import Tops

  // ---------- the query's table ----------

  /** TOP_QUERY */
  const TABLE: seq<Known> := [
    Known("x0", true), Known("x1", true), Known("d0", false), Known("d1", false), Known("limit", false),
    Known("sort", false), Known("owner", false)]

  /** Of the value parsers only q_k_top_parse refuses anything. */
  predicate Accepts(f: Field) {
    f.name == "sort" ==> SortKeys.SpecOf(f.value).Some?
  }

  /** The types in the order of x_types. */
  const KINDS: seq<Kind> := [Host, Job, Clus, U, Serv, Fs, V]

  /** x_lookup_str, from type number i on: the type whose name comes first, and what follows the colon. */
  function KeyFrom(s: string, i: nat): Option<(Kind, string)>
    requires i <= |KINDS|
    decreases |KINDS| - i
  {
    if i == |KINDS| then None
    else
      var t := TypeName(KINDS[i]);
      if t < s && s[|t|] in ":=" then Some((KINDS[i], s[|t| + 1..])) else KeyFrom(s, i + 1)
  }

  /** The node of that type and name. */
  function NodeFor(names: Hierarchy.Names, s: string): XNode? {
    var k := KeyFrom(s, 0);
    if k.Some? && k.value in names then names[k.value] else null
  }

  /** x_lookup_str: the type whose name comes first, and then the node of that type with the name that follows. */
  method XLookupStr(m: Master, s: string) returns (x: XNode?)
    ensures x == NodeFor(m.names, s)
  {
    for i := 0 to |KINDS|
      invariant KeyFrom(s, 0) == KeyFrom(s, i)
    {
      var t := TypeName(KINDS[i]);
      if t < s && s[|t|] in ":=" {
        x := m.XFind(KINDS[i], s[|t| + 1..]);
        return;
      }
    }
    return null;
  }

  /** What the parsers set: the nodes, the numbers, the comparison, the owner. Without a field its default stays. */
  datatype Args = Args(x0: Option<string>, x1: Option<string>, d0: nat, d1: nat, limit: nat,
                       spec: Option<Ordering.Spec>, owner: Option<string>)

  function Set(g: Args, f: Field): Args {
    if f.name == "x0" then g.(x0 := Some(f.value))
    else if f.name == "x1" then g.(x1 := Some(f.value))
    else if f.name == "d0" then g.(d0 := Strtoull(f.value))
    else if f.name == "d1" then g.(d1 := Strtoull(f.value))
    else if f.name == "limit" then g.(limit := Strtoull(f.value))
    else if f.name == "sort" then g.(spec := SortKeys.SpecOf(f.value))
    else if f.name == "owner" then g.(owner := Some(f.value))
    else g
  }

  function ArgsOf(fs: seq<Field>): Args {
    if fs == [] then NOTHING else Set(ArgsOf(fs[..|fs| - 1]), fs[|fs| - 1])
  }

  // ---------- what the client sent ----------

  lemma NodeArgRead(k: Kind, name: string)
    ensures KeyFrom(NodeArg(k, name), 0) == Some((k, name))
  {
    var s := NodeArg(k, name);
    assert ":="[0] == ':';
    match k
    case Host => KeyHere(s, 0, name);
    case Job => KeyHere(s, 1, name);
    case Clus => KeyHere(s, 2, name);
    case U => KeyHere(s, 3, name);
    case Serv => KeyHere(s, 4, name);
    case Fs => KeyHere(s, 5, name);
    case V => KeyHere(s, 6, name);
  }

  /** The types by their names, with a colon or an equals sign behind. */
  lemma NodeArgMeans(c: char, name: string)
    requires c in ":="
    ensures KeyFrom("host" + [c] + name, 0) == Some((Host, name)) && KeyFrom("job" + [c] + name, 0) == Some((Job, name))
    ensures KeyFrom("clus" + [c] + name, 0) == Some((Clus, name)) && KeyFrom("u" + [c] + name, 0) == Some((U, name))
    ensures KeyFrom("serv" + [c] + name, 0) == Some((Serv, name)) && KeyFrom("fs" + [c] + name, 0) == Some((Fs, name))
    ensures KeyFrom("v" + [c] + name, 0) == Some((V, name))
  {
    KeyAfter("host" + [c] + name, 0, c, name, 0);
    KeyAfter("job" + [c] + name, 1, c, name, 0);
    KeyAfter("clus" + [c] + name, 2, c, name, 0);
    KeyAfter("u" + [c] + name, 3, c, name, 0);
    KeyAfter("serv" + [c] + name, 4, c, name, 0);
    KeyAfter("fs" + [c] + name, 5, c, name, 0);
    KeyAfter("v" + [c] + name, 6, c, name, 0);
  }

  lemma KeyHere(s: string, i: nat, name: string)
    requires i < |KINDS| && s == NodeArg(KINDS[i], name)
    ensures KeyFrom(s, 0) == Some((KINDS[i], name))
  {
    assert ":="[0] == ':';
    assert TypeName(KINDS[i]) + ":" + name == TypeName(KINDS[i]) + [':'] + name;
    KeyAfter(s, i, ':', name, 0);
  }

  /** The first letters of the types' names differ. */
  lemma FirstLetters(i: nat, j: nat)
    requires j < i < |KINDS|
    ensures TypeName(KINDS[i]) != "" && TypeName(KINDS[j]) != "" && TypeName(KINDS[i])[0] != TypeName(KINDS[j])[0]
  {
    assert KINDS[0] == Host && KINDS[1] == Job && KINDS[2] == Clus && KINDS[3] == U && KINDS[4] == Serv;
    assert KINDS[5] == Fs && KINDS[6] == V;
    assert TypeName(Host)[0] == 'h' && TypeName(Job)[0] == 'j' && TypeName(Clus)[0] == 'c' && TypeName(U)[0] == 'u';
    assert TypeName(Serv)[0] == 's' && TypeName(Fs)[0] == 'f' && TypeName(V)[0] == 'v';
  }

  lemma {:induction false} KeyAfter(s: string, i: nat, c: char, name: string, j: nat)
    requires j <= i < |KINDS| && c in ":=" && s == TypeName(KINDS[i]) + [c] + name
    ensures KeyFrom(s, j) == Some((KINDS[i], name))
    decreases i - j
  {
    var t := TypeName(KINDS[j]);
    if j == i {
      assert s[..|t|] == t && s[|t|] == c && s[|t| + 1..] == name;
    } else {
      KeyAfter(s, i, c, name, j + 1);
      FirstLetters(i, j);
      hide TypeName;
      assert t[0] != TypeName(KINDS[i])[0] == s[0];
    }
  }

  lemma ArgsMore(fs: seq<Field>, f: Field)
    ensures ArgsOf(fs + [f]) == Set(ArgsOf(fs), f)
  {
    assert (fs + [f])[..|fs|] == fs;
  }

  /** The comparison a request asks for. */
  ghost function SpecFor(keys: seq<Ordering.Field>): Option<Ordering.Spec>
    requires SortKeys.AllKnown(keys)
  {
    if keys == [] then None else SortKeys.SpecOf(SortKeys.Format(keys))
  }

  ghost function ArgsFor(r: Request): Args
    requires Proper(r)
  {
    Args(Some(NodeArg(r.t0, r.x0)), Some(NodeArg(r.t1, r.x1)), r.d0, r.d1, r.limit, SpecFor(r.keys), r.owner)
  }

  lemma SetIs(g: Args, v: string)
    ensures Set(g, Field("x0", v)) == g.(x0 := Some(v)) && Set(g, Field("x1", v)) == g.(x1 := Some(v))
    ensures Set(g, Field("d0", v)) == g.(d0 := Strtoull(v)) && Set(g, Field("d1", v)) == g.(d1 := Strtoull(v))
    ensures Set(g, Field("limit", v)) == g.(limit := Strtoull(v))
  {
    hide Strtoull, SortKeys.SpecOf;
  }

  const NOTHING := Args(None, None, 0, 0, 0, None, None)

  lemma ArgsOfFive(f0: Field, f1: Field, f2: Field, f3: Field, f4: Field)
    ensures ArgsOf([f0, f1, f2, f3, f4]) == Set(Set(Set(Set(Set(NOTHING, f0), f1), f2), f3), f4)
  {
    hide Set;
    ArgsMore([], f0);
    ArgsMore([f0], f1);
    ArgsMore([f0, f1], f2);
    ArgsMore([f0, f1, f2], f3);
    ArgsMore([f0, f1, f2, f3], f4);
    assert [] + [f0] == [f0] && [f0] + [f1] == [f0, f1] && [f0, f1] + [f2] == [f0, f1, f2];
    assert [f0, f1, f2] + [f3] == [f0, f1, f2, f3] && [f0, f1, f2, f3] + [f4] == [f0, f1, f2, f3, f4];
  }

  lemma SetFive(v0: string, v1: string, v2: string, v3: string, v4: string)
    ensures var g := Set(Set(NOTHING, Field("x0", v0)), Field("d0", v1));
      Set(Set(Set(g, Field("x1", v2)), Field("d1", v3)), Field("limit", v4)) ==
      Args(Some(v0), Some(v2), Strtoull(v1), Strtoull(v3), Strtoull(v4), None, None)
  {
    assert NOTHING.spec == None && NOTHING.owner == None;
    hide *;
    SetIs(NOTHING, v0);
    var g1 := NOTHING.(x0 := Some(v0));
    SetIs(g1, v1);
    var g2 := g1.(d0 := Strtoull(v1));
    SetIs(g2, v2);
    var g3 := g2.(x1 := Some(v2));
    SetIs(g3, v3);
    SetIs(g3.(d1 := Strtoull(v3)), v4);
  }

  lemma FiveArgs(r: Request)
    requires Proper(r)
    ensures var fs := [Field("x0", NodeArg(r.t0, r.x0)), Field("d0", Decimal(r.d0)), Field("x1", NodeArg(r.t1, r.x1)),
                       Field("d1", Decimal(r.d1)), Field("limit", Decimal(r.limit))];
      ArgsOf(fs) == Args(Some(NodeArg(r.t0, r.x0)), Some(NodeArg(r.t1, r.x1)), r.d0, r.d1, r.limit, None, None)
  {
    DecimalRead(r.d0);
    DecimalRead(r.d1);
    DecimalRead(r.limit);
    hide *;
    ArgsOfFive(Field("x0", NodeArg(r.t0, r.x0)), Field("d0", Decimal(r.d0)), Field("x1", NodeArg(r.t1, r.x1)),
               Field("d1", Decimal(r.d1)), Field("limit", Decimal(r.limit)));
    SetFive(NodeArg(r.t0, r.x0), Decimal(r.d0), NodeArg(r.t1, r.x1), Decimal(r.d1), Decimal(r.limit));
  }

  /** The parsers set what the user asked for. */
  lemma ArgsArrive(r: Request)
    requires Proper(r)
    ensures ArgsOf(FieldsOf(r)) == ArgsFor(r)
  {
    var five := [Field("x0", NodeArg(r.t0, r.x0)), Field("d0", Decimal(r.d0)), Field("x1", NodeArg(r.t1, r.x1)),
                 Field("d1", Decimal(r.d1)), Field("limit", Decimal(r.limit))];
    FiveArgs(r);
    hide ArgsOf, NodeArg, Decimal, Strtoull;
    var with := five + SortFields(r.keys);
    if r.keys == [] {
      assert with == five;
    } else {
      ArgsMore(five, Field("sort", SortKeys.Format(r.keys)));
    }
    if r.owner == None {
      assert FieldsOf(r) == with;
    } else {
      ArgsMore(with, Field("owner", r.owner.value));
      assert FieldsOf(r) == with + [Field("owner", r.owner.value)];
    }
  }

  // ---------- the verdict ----------

  /** strdup of a query string. */
  function Copied(q: string): string {
    q + "\0"
  }

  lemma CopiedIs(q: string)
    requires Bytes(q)
    ensures Ends(Copied(q)) && StrAt(Copied(q), 0) == q && !Gap(Copied(q), 0)
  {
    var m := Copied(q);
    assert m[0..|q|] == q;
    StrUpTo(m, 0, |q|);
  }

  lemma BuiltBytes(fs: seq<Field>)
    requires Clean(fs) && fs != []
    ensures Bytes(Built(fs))
    decreases |fs|
  {
    if |fs| == 1 {
      PairBytes(fs[0]);
      BuiltOne(fs);
    } else {
      CleanPart(fs);
      BuiltBytes(fs[..|fs| - 1]);
      PairBytes(fs[|fs| - 1]);
      BuiltLast(fs);
      hide Built, Pair;
    }
  }

  lemma PairBytes(f: Field)
    requires Bytes(f.name) && Bytes(f.value)
    ensures Bytes(Pair(f))
  {
    EscapeBytes(f.name);
    EscapeBytes(f.value);
  }

  lemma {:induction false} EscapeBytes(s: string)
    requires Bytes(s)
    ensures Bytes(Escape(s))
  {
    if s != "" {
      EscapeBytes(s[1..]);
    }
  }

  lemma TableNames()
    ensures Table(TABLE) && TABLE[0].name == "x0" && TABLE[1].name == "x1"
    ensures forall i :: 0 <= i < |TABLE| ==> (TABLE[i].required <==> i < 2)
    ensures IsKnown(TABLE, "x0") && IsKnown(TABLE, "x1") && IsKnown(TABLE, "d0") && IsKnown(TABLE, "d1")
    ensures IsKnown(TABLE, "limit") && IsKnown(TABLE, "sort") && IsKnown(TABLE, "owner")
  {
    assert TABLE[2].name == "d0" && TABLE[3].name == "d1" && TABLE[4].name == "limit";
    assert TABLE[5].name == "sort" && TABLE[6].name == "owner";
  }

  lemma Harmless(f: Field)
    requires f.name in ["x0", "d0", "x1", "d1", "limit", "owner"]
    ensures IsKnown(TABLE, f.name) && Accepts(f)
  {
    TableNames();
    assert f.name[0] != "sort"[0];
    hide IsKnown, SortKeys.SpecOf;
  }

  lemma Sorting(f: Field)
    requires f.name == "sort"
    ensures IsKnown(TABLE, f.name) && (Accepts(f) <==> SortKeys.SpecOf(f.value).Some?)
  {
    TableNames();
    hide IsKnown, SortKeys.SpecOf;
  }

  /** A request's fields are known, and one of them may be refused. */
  lemma FieldAllowed(r: Request, i: nat)
    requires Proper(r) && i < |FieldsOf(r)|
    ensures IsKnown(TABLE, FieldsOf(r)[i].name)
    ensures i != 5 || r.keys == [] ==> Accepts(FieldsOf(r)[i])
    ensures i == 5 && r.keys != [] ==> (Accepts(FieldsOf(r)[i]) <==> |r.keys| <= 10)
  {
    var f, sort := FieldsOf(r)[i], SortKeys.SortArg(r.keys);
    assert sort == if r.keys == [] then None else Some(SortKeys.Format(r.keys));
    hide *;
    FieldsAre(r);
    SixFields(r);
    if i == 5 && r.keys != [] {
      Sorting(f);
      SortKeys.SortKeysArrive(r.keys);
    } else {
      Harmless(f);
    }
  }

  /** Everything is accepted but a list of more than ten keys. */
  lemma RequestAccepted(r: Request, fs: seq<Field>)
    requires Proper(r)
    requires fs == FieldsOf(r) || (r.owner.Some? && fs == FieldsOf(r)[..|FieldsOf(r)| - 1])
    ensures Accepted(TABLE, Accepts, fs) <==> |r.keys| <= 10
  {
    var all := FieldsOf(r);
    SixFields(r);
    forall i | 0 <= i < |fs|
      ensures IsKnown(TABLE, fs[i].name) && (i != 5 || r.keys == [] ==> Accepts(fs[i]))
      ensures i == 5 && r.keys != [] ==> (Accepts(fs[i]) <==> |r.keys| <= 10)
    {
      FieldAllowed(r, i);
      assert fs[i] == all[i];
    }
    hide FieldsOf, IsKnown, Accepts;
    if |r.keys| > 10 {
      assert !Accepts(fs[5]);
    }
  }

  lemma SixFields(r: Request)
    requires Proper(r)
    ensures |FieldsOf(r)| == 5 + (if r.keys != [] then 1 else 0) + (if r.owner.Some? then 1 else 0)
  {
  }

  lemma RequestComplete(r: Request, fs: seq<Field>)
    requires Proper(r)
    requires fs == FieldsOf(r) || (r.owner.Some? && fs == FieldsOf(r)[..|FieldsOf(r)| - 1])
    ensures forall i :: 0 <= i < |TABLE| && TABLE[i].required ==> Given(fs, TABLE[i].name)
  {
    FieldsAre(r);
    TableNames();
    assert fs[0].name == "x0" && fs[2].name == "x1";
  }

  /** What query_parse makes of a request: it is refused exactly if there are more than ten keys, and read past its end
      exactly if an empty owner is given, which is the last of its fields. */
  lemma RequestJudged(r: Request)
    requires Proper(r)
    ensures Clean(FieldsOf(r)) && FieldsOf(r) != [] && Ends(Copied(Built(FieldsOf(r))))
    ensures var (fs, past) := FieldsAt(Copied(Built(FieldsOf(r))), Some(0));
      && fs == (if r.owner == Some("") then FieldsOf(r)[..|FieldsOf(r)| - 1] else FieldsOf(r))
      && (past <==> r.owner == Some(""))
      && Judged(TABLE, Accepts, fs, past) ==
         if |r.keys| > 10 then Rejected else if r.owner == Some("") then PastEnd else Passed
  {
    var all := FieldsOf(r);
    FieldsClean(r);
    BuiltBytes(all);
    CopiedIs(Built(all));
    ValuesArrive(all);
    var m := Copied(Built(all));
    assert RoundTrips.Query(all) == Some(Built(all)) && FieldsAt(m, Some(0)) == Fields(Some(StrAt(m, 0)), Gap(m, 0));
    var fs := if r.owner == Some("") then all[..|all| - 1] else all;
    RequestAccepted(r, fs);
    RequestComplete(r, fs);
    hide FieldsOf, Built, Fields, Accepted, Given, Copied, StrAt, Gap;
  }

  // ---------- the answer ----------

  datatype Status = OK | NotFound | BadRequest | Unknown

  const DEFAULT_KEYS: seq<Ordering.Field> := [
    Ordering.Rate(0), Ordering.Rate(1), Ordering.Rate(2), Ordering.Sum(0), Ordering.Sum(1), Ordering.Sum(2),
    Ordering.Pending(0), Ordering.Pending(1), Ordering.Pending(2), Ordering.Time]

  /** The comparison in force: the one asked for, or by default that of k_top_spec_init. */
  ghost predicate Compares(spec: Ordering.Spec, asked: Option<Ordering.Spec>) {
    match asked
    case Some(s) => spec == s
    case None => Ordering.Keys(spec) == DEFAULT_KEYS
  }

  function FilterFor(owner: Option<string>): Filter {
    if owner == None then All else Owner(owner.value)
  }

  /** What top_query_cb answers to the arguments `g`: the best of what the walk visits, which is what the arguments
      select, as one step of the machine. */
  ghost predicate Answered(m: Master, s: FlowTable.Sys, names: Hierarchy.Names, g: Args, at: real, status: Status,
                           out: seq<KNode>, ps: seq<FlowTable.Pair>, spec: Ordering.Spec)
    reads *
  {
    && g.x0.Some? && g.x1.Some? && Compares(spec, g.spec)
    && var x0, x1 := NodeFor(names, g.x0.value), NodeFor(names, g.x1.value);
    && (status == if x0 == null || x1 == null then NotFound else OK)
    && (ps == if x0 == null || x1 == null then []
              else Visit(s.h.nodes, s.flows.Keys, x0, g.d0, x1, g.d1, FilterFor(g.owner)))
    && (x0 != null && x1 != null ==> AreSelected(s.h.nodes, s.flows.Keys, x0, g.d0, x1, g.d1, g.owner, ps))
    && Tops.InTable(m.table, out)
    && Tops.Answers(spec, Tops.Limit(g.limit), m.Flows(), ps, Tops.NamesOf(out))
    && m.Stepped(s, Machine.Query(Tops.SetOf(ps), at))
  }

  method SpecIn(asked: Option<Ordering.Spec>) returns (spec: Ordering.Spec)
    ensures Compares(spec, asked)
  {
    if asked.Some? {
      return asked.value;
    }
    spec := SortKeys.DefaultSpec();
  }

  lemma ValidIs(m: Master)
    ensures m.Valid() <==> FlowTable.Inv(m.S()) && m.Keyed()
  {
  }

  lemma ArgsComplete(fs: seq<Field>, past: bool)
    requires Judged(TABLE, Accepts, fs, past) == Passed
    ensures ArgsOf(fs).x0.Some? && ArgsOf(fs).x1.Some?
  {
    TableNames();
    assert TABLE[0].required && TABLE[1].required;
    assert Given(fs, TABLE[0].name) && Given(fs, TABLE[1].name);
    GivenSet(fs);
  }

  lemma {:induction false} GivenSet(fs: seq<Field>)
    ensures Given(fs, "x0") ==> ArgsOf(fs).x0.Some?
    ensures Given(fs, "x1") ==> ArgsOf(fs).x1.Some?
  {
    if fs != [] {
      var n := |fs| - 1;
      GivenSet(fs[..n]);
      forall name | Given(fs, name) && fs[n].name != name ensures Given(fs[..n], name) {
        var i :| 0 <= i < |fs| && fs[i].name == name;
        assert fs[..n][i].name == name;
      }
      assert "x0"[1] != "x1"[1];
      hide KeyFrom, Strtoull, SortKeys.SpecOf;
    }
  }

  lemma AnsweredIs(m: Master, s: FlowTable.Sys, names: Hierarchy.Names, g: Args, at: real, status: Status,
                   out: seq<KNode>, ps: seq<FlowTable.Pair>, spec: Ordering.Spec, x0: XNode?, x1: XNode?)
    requires g.x0.Some? && g.x1.Some? && Compares(spec, g.spec)
    requires x0 == NodeFor(names, g.x0.value) && x1 == NodeFor(names, g.x1.value)
    requires status == if x0 == null || x1 == null then NotFound else OK
    requires ps == if x0 == null || x1 == null then []
                   else Visit(s.h.nodes, s.flows.Keys, x0, g.d0, x1, g.d1, FilterFor(g.owner))
    requires Tops.InTable(m.table, out)
    requires Tops.Answers(spec, Tops.Limit(g.limit), m.Flows(), ps, Tops.NamesOf(out))
    requires m.Stepped(s, Machine.Query(Tops.SetOf(ps), at))
    ensures Answered(m, s, names, g, at, status, out, ps, spec)
  {
    m.SteppedMeans(s, Machine.Query(Tops.SetOf(ps), at));
    if x0 != null && x1 != null {
      VisitSelects(s.h.nodes, s.flows.Keys, x0, g.d0, x1, g.d1, g.owner, FilterFor(g.owner));
    }
    hide Visit, AreSelected, Tops.Answers, Tops.InTable, Compares, NodeFor, Master.Stepped;
  }

  /** top_query_cb, with what the parsers set. */
  method TopQueryCb(m: Master, g: Args, at: real)
    returns (status: Status, out: seq<KNode>, ghost ps: seq<FlowTable.Pair>, ghost spec: Ordering.Spec)
    requires m.Valid() && 0.0 < at && m.now <= at && g.x0.Some? && g.x1.Some?
    modifies m.pool`flow, m`now
    ensures Answered(m, old(m.S()), old(m.names), g, at, status, out, ps, spec)
  {
    hide *;
    m.Parts();
    ghost var s, names := m.S(), m.names;
    FlowKeys(m);
    var x0 := XLookupStr(m, g.x0.value);
    var x1 := XLookupStr(m, g.x1.value);
    var order := SpecIn(g.spec);
    var filter := FilterFor(g.owner);
    var found;
    found, out, ps := Tops.TopQuery(m, x0, x1, g.d0, g.d1, g.limit, order, filter, at);
    status := if found == Tops.NotFound then NotFound else OK;
    spec := order;
    StatusIs(found);
    AnsweredIs(m, s, names, g, at, status, out, ps, spec, x0, x1);
  }

  lemma StatusIs(s: Tops.Status)
    ensures s == Tops.OK || s == Tops.NotFound
  {
  }

  lemma FlowKeys(m: Master)
    ensures m.Flows().Keys == m.table.Keys
  {
  }

  /** top_get_cb: a bad query is refused and changes nothing; a good one is answered. */
  method TopGet(m: Master, a: array<char>, q: Option<nat>, at: real)
    returns (status: Status, out: seq<KNode>, ghost ps: seq<FlowTable.Pair>, ghost spec: Ordering.Spec)
    requires m.Valid() && 0.0 < at && m.now <= at && IsQuery(a[..], q)
    modifies a, m.pool`flow, m`now
    ensures var (fs, past) := FieldsAt(old(a[..]), q);
      match Judged(TABLE, Accepts, fs, past)
      case Passed => Answered(m, old(m.S()), old(m.names), ArgsOf(fs), at, status, out, ps, spec)
      case Rejected => status == BadRequest && out == [] && m.S() == old(m.S())
      case PastEnd => status == Unknown && out == [] && m.S() == old(m.S())
  {
    hide *;
    TableNames();
    ValidIs(m);
    m.Parts();
    ghost var (fs, past) := FieldsAt(a[..], q);
    var r, got, found := QueryParse(TABLE, Accepts, a, q);
    m.Parts();
    ValidIs(m);
    ps, spec, out := [], [], [];
    match r {
      case Rejected => status := BadRequest;
      case PastEnd => status := Unknown;
      case Passed =>
        ArgsComplete(fs, past);
        status, out, ps, spec := TopQueryCb(m, ArgsOf(got), at);
    }
  }

  // ---------- a query string's fields ----------

  /** No field of that name comes after number i. */
  ghost predicate LastOf(fs: seq<Field>, i: nat, name: string) {
    i < |fs| && fs[i].name == name && forall j :: i < j < |fs| ==> fs[j].name != name
  }

  ghost predicate NoneOf(fs: seq<Field>, name: string) {
    forall j :: 0 <= j < |fs| ==> fs[j].name != name
  }

  /** A field changes the argument of its name, and no other. */
  lemma SetMeans(g: Args, f: Field)
    ensures Set(g, f).x0 == if f.name == "x0" then Some(f.value) else g.x0
    ensures Set(g, f).x1 == if f.name == "x1" then Some(f.value) else g.x1
    ensures Set(g, f).d0 == if f.name == "d0" then Strtoull(f.value) else g.d0
    ensures Set(g, f).d1 == if f.name == "d1" then Strtoull(f.value) else g.d1
    ensures Set(g, f).limit == if f.name == "limit" then Strtoull(f.value) else g.limit
    ensures Set(g, f).spec == if f.name == "sort" then SortKeys.SpecOf(f.value) else g.spec
    ensures Set(g, f).owner == if f.name == "owner" then Some(f.value) else g.owner
  {
    hide Strtoull, SortKeys.SpecOf;
    assert "x0"[1] != "x1"[1] && "d0"[1] != "d1"[1] && "x0"[0] != "d0"[0];
    assert |"limit"| == |"owner"| && "limit"[0] != "owner"[0];
  }

  /** The last field of a name counts, and without one the default. */
  lemma {:induction false} ArgsMean(fs: seq<Field>, i: nat)
    ensures LastOf(fs, i, "x0") ==> ArgsOf(fs).x0 == Some(fs[i].value)
    ensures LastOf(fs, i, "x1") ==> ArgsOf(fs).x1 == Some(fs[i].value)
    ensures LastOf(fs, i, "d0") ==> ArgsOf(fs).d0 == Strtoull(fs[i].value)
    ensures LastOf(fs, i, "d1") ==> ArgsOf(fs).d1 == Strtoull(fs[i].value)
    ensures LastOf(fs, i, "limit") ==> ArgsOf(fs).limit == Strtoull(fs[i].value)
    ensures LastOf(fs, i, "sort") ==> ArgsOf(fs).spec == SortKeys.SpecOf(fs[i].value)
    ensures LastOf(fs, i, "owner") ==> ArgsOf(fs).owner == Some(fs[i].value)
    ensures NoneOf(fs, "d0") ==> ArgsOf(fs).d0 == 0
    ensures NoneOf(fs, "d1") ==> ArgsOf(fs).d1 == 0
    ensures NoneOf(fs, "limit") ==> ArgsOf(fs).limit == 0
    ensures NoneOf(fs, "sort") ==> ArgsOf(fs).spec == None
    ensures NoneOf(fs, "owner") ==> ArgsOf(fs).owner == None
  {
    if fs != [] {
      var n := |fs| - 1;
      ArgsMean(fs[..n], i);
      SetMeans(ArgsOf(fs[..n]), fs[n]);
      assert ArgsOf(fs) == Set(ArgsOf(fs[..n]), fs[n]);
      hide Set, ArgsOf, Strtoull, SortKeys.SpecOf, NOTHING;
      if i < n {
        assert fs[..n][i] == fs[i];
        assert forall name :: LastOf(fs, i, name) ==> LastOf(fs[..n], i, name) && fs[n].name != name;
      }
      assert forall name :: NoneOf(fs, name) ==> NoneOf(fs[..n], name) && fs[n].name != name;
    }
  }

  /** A query passes if and only if all its fields are among the seven, every sort argument can be read, both nodes are
      given, and its string was not read past its end. */
  lemma PassedMeans(fs: seq<Field>, past: bool)
    ensures Judged(TABLE, Accepts, fs, past) == Passed <==>
      && !past && (exists i :: 0 <= i < |fs| && fs[i].name == "x0") && (exists i :: 0 <= i < |fs| && fs[i].name == "x1")
      && (forall i :: 0 <= i < |fs| ==>
            && fs[i].name in {"x0", "x1", "d0", "d1", "limit", "sort", "owner"}
            && (fs[i].name == "sort" ==> SortKeys.SpecOf(fs[i].value).Some?))
  {
    forall name ensures IsKnown(TABLE, name) <==> name in {"x0", "x1", "d0", "d1", "limit", "sort", "owner"} {
      TableHas(name);
    }
    assert TABLE[0] == Known("x0", true) && TABLE[1] == Known("x1", true);
    assert forall i :: 2 <= i < |TABLE| ==> !TABLE[i].required;
    hide TABLE, IsKnown, SortKeys.SpecOf;
  }

  lemma TableHas(name: string)
    ensures IsKnown(TABLE, name) <==> name in {"x0", "x1", "d0", "d1", "limit", "sort", "owner"}
  {
    assert TABLE[0].name == "x0" && TABLE[1].name == "x1" && TABLE[2].name == "d0" && TABLE[3].name == "d1";
    assert TABLE[4].name == "limit" && TABLE[5].name == "sort" && TABLE[6].name == "owner";
  }

  // ---------- from the user to the answer ----------

  /** A request of at most ten keys and without an empty owner passes, and what top_query_cb is then called with is what
      the user asked for: the nodes of those types and names, the numbers, the owner, and a comparison by exactly those
      keys, or by the default ones if there are none. */
  lemma RequestServed(r: Request, names: Hierarchy.Names)
    requires Proper(r) && |r.keys| <= 10 && r.owner != Some("")
    ensures Clean(FieldsOf(r)) && FieldsOf(r) != [] && Ends(Copied(Built(FieldsOf(r))))
    ensures var (fs, past) := FieldsAt(Copied(Built(FieldsOf(r))), Some(0));
      && fs == FieldsOf(r) && Judged(TABLE, Accepts, fs, past) == Passed
      && var g := ArgsOf(fs);
      && g.x0.Some? && NodeFor(names, g.x0.value) == (if (r.t0, r.x0) in names then names[(r.t0, r.x0)] else null)
      && g.x1.Some? && NodeFor(names, g.x1.value) == (if (r.t1, r.x1) in names then names[(r.t1, r.x1)] else null)
      && g.d0 == r.d0 && g.d1 == r.d1 && g.limit == r.limit && g.owner == r.owner
      && forall spec :: Compares(spec, g.spec) ==> Ordering.Keys(spec) == if r.keys == [] then DEFAULT_KEYS else r.keys
  {
    RequestJudged(r);
    ArgsArrive(r);
    NodeArgRead(r.t0, r.x0);
    NodeArgRead(r.t1, r.x1);
    if r.keys != [] {
      SortKeys.SortKeysArrive(r.keys);
    }
    hide FieldsOf, ArgsOf, FieldsAt, Judged, KeyFrom, NodeArg, SortKeys.SpecOf, SortKeys.Format, Ordering.Keys;
  }
}
