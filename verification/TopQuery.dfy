/** The client's side of a top request: make_top_query (src/xltop.c) puts what the user asks for into a query string. */
module TopQueries {
  import opened Basics
  import opened Strings
  import opened Numbers
  import opened XNodes
  import opened Queries
  import opened RoundTrips
  import Ordering
  import SortKeys

  /** x_type_name */
  function TypeName(k: Kind): string {
    match k
    case Host => "host"
    case Job => "job"
    case Clus => "clus"
    case U => "u"
    case Serv => "serv"
    case Fs => "fs"
    case V => "v"
  }

  /** A node by type and name, as x_lookup_str takes it. */
  function NodeArg(k: Kind, name: string): string {
    TypeName(k) + ":" + name
  }

  /** What the user asks for: the two nodes, how far to go down from each, how many results, by which keys, and perhaps
      whose jobs. */
  datatype Request = Request(t0: Kind, x0: string, d0: nat, t1: Kind, x1: string, d1: nat, limit: nat,
                             keys: seq<Ordering.Field>, owner: Option<string>)

  ghost predicate Proper(r: Request) {
    && Bytes(r.x0) && Bytes(r.x1) && r.d0 < ULONG && r.d1 < ULONG && r.limit < ULONG && SortKeys.AllKnown(r.keys)
    && (r.owner.Some? ==> Bytes(r.owner.value))
  }

  ghost function SortFields(keys: seq<Ordering.Field>): seq<Field>
    requires SortKeys.AllKnown(keys)
  {
    if keys == [] then [] else [Field("sort", SortKeys.Format(keys))]
  }

  ghost function FieldsOf(r: Request): seq<Field>
    requires Proper(r)
  {
    [Field("x0", NodeArg(r.t0, r.x0)), Field("d0", Decimal(r.d0)), Field("x1", NodeArg(r.t1, r.x1)),
     Field("d1", Decimal(r.d1)), Field("limit", Decimal(r.limit))]
    + SortFields(r.keys) + if r.owner.Some? then [Field("owner", r.owner.value)] else []
  }

  lemma WordClean(f: Ordering.Field)
    requires Ordering.Known(f)
    ensures Bytes(SortKeys.Word(f)) && SortKeys.Word(f) != ""
  {
  }

  lemma {:induction false} FormatClean(keys: seq<Ordering.Field>)
    requires SortKeys.AllKnown(keys) && keys != []
    ensures Bytes(SortKeys.Format(keys)) && SortKeys.Format(keys) != ""
  {
    var n := |keys| - 1;
    WordClean(keys[n]);
    if n > 0 {
      FormatClean(keys[..n]);
    }
  }

  lemma NodeArgClean(k: Kind, name: string)
    requires Bytes(name)
    ensures Bytes(NodeArg(k, name)) && NodeArg(k, name) != ""
  {
  }

  lemma DecimalClean(n: nat)
    ensures Bytes(Decimal(n)) && Decimal(n) != ""
  {
    DecimalDigits(n);
  }

  /** Only an owner's name may be empty. */
  lemma FieldsClean(r: Request)
    requires Proper(r)
    ensures var fs := FieldsOf(r);
      && Clean(fs) && |fs| > 0 && (forall i :: 0 <= i < |fs| ==> fs[i].name != "")
      && (forall i :: 0 <= i < |fs| - 1 ==> fs[i].value != "")
      && (fs[|fs| - 1].value == "" <==> r.owner == Some(""))
  {
    NodeArgClean(r.t0, r.x0);
    NodeArgClean(r.t1, r.x1);
    DecimalClean(r.d0);
    DecimalClean(r.d1);
    DecimalClean(r.limit);
    if r.keys != [] {
      FormatClean(r.keys);
    }
    hide Bytes, NodeArg, Decimal;
    assert Bytes("x0") && Bytes("d0") && Bytes("x1") && Bytes("d1") && Bytes("limit");
    assert Bytes("sort") && Bytes("owner");
  }

  /** Fields with values arrive, and without the last one if that is empty. */
  lemma {:induction false} ValuesArrive(fs: seq<Field>)
    requires Clean(fs) && fs != [] && forall i :: 0 <= i < |fs| ==> fs[i].name != ""
    requires forall i :: 0 <= i < |fs| - 1 ==> fs[i].value != ""
    ensures fs[|fs| - 1].value != "" ==> Fields(Query(fs), false) == (fs, false)
    ensures fs[|fs| - 1].value == "" ==> Fields(Query(fs), false) == (fs[..|fs| - 1], true)
  {
    FoundFirst(fs);
    Tail(fs);
    FieldsEnd(false);
    if |fs| > 1 {
      ValuesArrive(fs[1..]);
      assert [fs[0]] + fs[1..][..|fs| - 2] == fs[..|fs| - 1];
    } else {
      assert fs[1..] == [] && Query(fs[1..]) == None;
      assert [fs[0]] + [] == fs && fs[..0] == [];
    }
    hide Fields;
  }

  lemma PrefixClean(fs: seq<Field>, i: nat)
    requires Clean(fs) && i < |fs|
    ensures Clean(fs[..i]) && Clean(fs[..i + 1]) && fs[..i + 1] == fs[..i] + [fs[i]]
  {
  }

  /** query_add once more: field i of `fs`. */
  method Add(q: Option<string>, f: Field, ghost fs: seq<Field>, ghost i: nat) returns (r: Option<string>)
    requires Clean(fs) && i < |fs| && f == fs[i] && Clean(fs[..i]) && q == Query(fs[..i])
    ensures Clean(fs[..i + 1]) && r == Query(fs[..i + 1])
  {
    PrefixClean(fs, i);
    hide Clean, Built;
    r := QueryAdd(q, f, fs[..i]);
  }

  /** The keys the user's words stand for, if there are any words. */
  function KeysOf(key: Option<string>, wantSums: bool): seq<Ordering.Field> {
    if key == None then [] else SortKeys.UserKeys(Pieces(key.value, ","), wantSums)
  }

  lemma FieldsAre(r: Request)
    requires Proper(r)
    ensures var fs, sort := FieldsOf(r), SortKeys.SortArg(r.keys);
      && |fs| == 5 + (if sort.Some? then 1 else 0) + (if r.owner.Some? then 1 else 0)
      && fs[0] == Field("x0", NodeArg(r.t0, r.x0)) && fs[1] == Field("d0", Decimal(r.d0))
      && fs[2] == Field("x1", NodeArg(r.t1, r.x1)) && fs[3] == Field("d1", Decimal(r.d1))
      && fs[4] == Field("limit", Decimal(r.limit))
      && (sort.Some? ==> fs[5] == Field("sort", sort.value))
      && (r.owner.Some? ==> fs[|fs| - 1] == Field("owner", r.owner.value))
      && fs[..|fs|] == fs && Clean(fs)
  {
    FieldsClean(r);
  }

  lemma KeysProper(key: Option<string>, wantSums: bool)
    ensures SortKeys.AllKnown(KeysOf(key, wantSums))
  {
    if key.Some? {
      SortKeys.UserKeysKnown(Pieces(key.value, ","), wantSums);
    }
  }

  /** parse_sort_key and make_top_query: from the user's words to the query string. */
  method MakeTopQuery(t0: Kind, x0: string, d0: nat, t1: Kind, x1: string, d1: nat, limit: nat, key: Option<string>,
                      wantSums: bool, owner: Option<string>)
    returns (q: Option<string>)
    requires Bytes(x0) && Bytes(x1) && d0 < ULONG && d1 < ULONG && limit < ULONG && (owner.Some? ==> Bytes(owner.value))
    ensures var r := Request(t0, x0, d0, t1, x1, d1, limit, KeysOf(key, wantSums), owner);
      Proper(r) && Clean(FieldsOf(r)) && q == Query(FieldsOf(r))
  {
    var s0, s1 := NodeArg(t0, x0), NodeArg(t1, x1);
    var sort := SortArgOf(key, wantSums);
    KeysProper(key, wantSums);
    ghost var r := Request(t0, x0, d0, t1, x1, d1, limit, KeysOf(key, wantSums), owner);
    assert Proper(r);
    hide *;
    FieldsAre(r);
    ghost var fs := FieldsOf(r);
    q := AddFive(s0, d0, s1, d1, limit, fs);
    if sort.Some? {
      q := Add(q, Field("sort", sort.value), fs, 5);
    }
    if owner.Some? {
      q := Add(q, Field("owner", owner.value), fs, |fs| - 1);
    }
  }

  /** query_addz */
  method AddNumber(q: Option<string>, name: string, n: nat, ghost fs: seq<Field>, ghost i: nat)
    returns (r: Option<string>)
    requires Clean(fs) && i < |fs| && fs[i] == Field(name, Decimal(n)) && Clean(fs[..i]) && q == Query(fs[..i])
    ensures Clean(fs[..i + 1]) && r == Query(fs[..i + 1])
  {
    hide *;
    r := Add(q, Field(name, Decimal(n)), fs, i);
  }

  /** The fields every request has. */
  method AddFive(s0: string, d0: nat, s1: string, d1: nat, limit: nat, ghost fs: seq<Field>) returns (q: Option<string>)
    requires Clean(fs) && |fs| >= 5 && fs[0] == Field("x0", s0) && fs[1] == Field("d0", Decimal(d0))
    requires fs[2] == Field("x1", s1) && fs[3] == Field("d1", Decimal(d1)) && fs[4] == Field("limit", Decimal(limit))
    ensures Clean(fs[..5]) && q == Query(fs[..5])
  {
    hide *;
    q := Start(fs);
    q := Add(q, Field("x0", s0), fs, 0);
    q := AddNumber(q, "d0", d0, fs, 1);
    q := Add(q, Field("x1", s1), fs, 2);
    q := AddNumber(q, "d1", d1, fs, 3);
    q := AddNumber(q, "limit", limit, fs, 4);
  }

  /** parse_sort_key is called only if the user gave keys. */
  method SortArgOf(key: Option<string>, wantSums: bool) returns (sort: Option<string>)
    ensures SortKeys.AllKnown(KeysOf(key, wantSums)) && sort == SortKeys.SortArg(KeysOf(key, wantSums))
  {
    if key == None {
      return None;
    }
    sort := SortKeys.ParseSortKey(key.value, wantSums);
  }

  /** No query yet. */
  method Start(ghost fs: seq<Field>) returns (q: Option<string>)
    requires Clean(fs)
    ensures Clean(fs[..0]) && q == Query(fs[..0])
  {
    q := None;
  }
}
