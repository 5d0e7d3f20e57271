/** The two kinds of node that xltop-master keeps (src/x_node.h): consumers and providers of traffic, and the
    counters of one (consumer, provider) pair. */
module XNodes {
  import opened Ewma

  datatype Kind = Host | Job | Clus | U | Serv | Fs | V

  /** x_which: 0 for the consumer side, 1 for the provider side. */
  function Which(k: Kind): nat {
    match k
    case Host | Job | Clus | U => 0
    case Serv | Fs | V => 1
  }

  predicate IsTop(k: Kind) {
    k == U || k == V
  }

  function Level(k: Kind): nat {
    match k
    case Host | Serv => 0
    case Job | Fs => 1
    case Clus | V => 2
    case U => 3
  }

  function Above(k: Kind): Kind
    requires !IsTop(k)
  {
    match k
    case Host => Job
    case Job => Clus
    case Clus => U
    case Serv => Fs
    case Fs => V
  }

  /** The contents of an x_node at one moment. The job and cluster fields belong to the structs that embed the node
      (src/job.h, src/clus.h) and are meaningful for those kinds only. */
  datatype Node = Node(kind: Kind, name: string, parent: XNode?, children: seq<XNode>, nrChild: int,
                       owner: string, fake: bool, zombie: bool, idle: XNode?)

  class XNode {
    const kind: Kind
    const name: string
    var parent: XNode?
    var children: seq<XNode>
    var nrChild: int
    var owner: string
    var fake: bool
    var zombie: bool
    var idle: XNode?

    constructor (kind: Kind, name: string, parent: XNode?, owner: string, fake: bool)
      ensures Contents() == Node(kind, name, parent, [], 0, owner, fake, false, null)
      ensures this.kind == kind && this.name == name && this.parent == parent && children == [] && nrChild == 0
      ensures this.owner == owner && this.fake == fake && !zombie && idle == null
    {
      this.kind, this.name, this.parent := kind, name, parent;
      this.children, this.nrChild := [], 0;
      this.owner, this.fake, this.zombie, this.idle := owner, fake, false, null;
    }

    function Contents(): Node
      reads `parent, `children, `nrChild, `owner, `fake, `zombie, `idle
    {
      Node(kind, name, parent, children, nrChild, owner, fake, zombie, idle)
    }
  }

  /** A k_node: the pair it belongs to and its numbers. */
  class KNode {
    const x0: XNode
    const x1: XNode
    var flow: Flow

    constructor (x0: XNode, x1: XNode)
      ensures this.x0 == x0 && this.x1 == x1 && flow == EMPTY
    {
      this.x0, this.x1, flow := x0, x1, EMPTY;
    }

    /** k_freshen: catch up with all ticks missed since the last call. */
    method Freshen(p: Params, now: real)
      modifies `flow
      ensures flow == Ewma.Freshen(p, old(flow), now)
    {
      if flow.t <= 0.0 {
        flow := flow.(t := now);
      }
      var n := ((now - flow.t) / p.tick).Floor;
      flow := flow.(t := flow.t + (if n > 0 then n else 0) as real * p.tick);
      ghost var f, g := old(flow), Ewma.Freshen(p, old(flow), now);
      for i := 0 to NR_STATS
        invariant flow.t == g.t && flow.sum == f.sum
        invariant forall j :: 0 <= j < i ==> flow.pending[j] == g.pending[j]
        invariant forall j :: 0 <= j < i ==> flow.rate[j] == g.rate[j]
        invariant forall j :: i <= j < NR_STATS ==> flow.pending[j] == f.pending[j] && flow.rate[j] == f.rate[j]
      {
        var rate := flow.rate[i];
        if n > 0 {
          var r := flow.pending[i] / p.tick;
          flow := flow.(pending := flow.pending[i := 0.0]);
          if rate <= 0.0 {
            rate := r;
          } else {
            rate := rate + (rate - r) * (p.q - 1.0);
          }
        }
        if n > 1 {
          rate := rate * Pow(p.q, n - 1);
        }
        flow := flow.(rate := flow.rate[i := rate]);
        assert flow.rate[i] == FreshRate(p, n, f.pending[i], f.rate[i]);
        FreshenParts(p, f, now, i);
      }
      FlowEquality(flow, g);
    }

    /** k_update: freshen, then count one report. */
    method Update(p: Params, now: real, d: Stats)
      modifies `flow
      ensures flow == Ewma.Update(p, old(flow), now, d)
    {
      Freshen(p, now);
      ghost var mid := flow;
      for i := 0 to NR_STATS
        invariant flow.t == mid.t && flow.rate == mid.rate
        invariant forall j :: 0 <= j < i ==>
          flow.sum[j] == mid.sum[j] + d[j] && flow.pending[j] == mid.pending[j] + d[j]
        invariant forall j :: i <= j < NR_STATS ==> flow.sum[j] == mid.sum[j] && flow.pending[j] == mid.pending[j]
      {
        flow := flow.(sum := flow.sum[i := flow.sum[i] + d[i]], pending := flow.pending[i := flow.pending[i] + d[i]]);
      }
      FlowEquality(flow, Ewma.Update(p, old(flow), now, d));
    }
  }
}
