/** The directed trial graph of the package and of the stand-alone class: a
    networkx `DiGraph` whose nodes are locations and decades and whose edges
    go from a location to a decade, carrying the accumulated `weight`
    (trials) and `mortes` (deaths).

    `Graph` is the value a finished graph denotes; `DiGraph` is the object the
    builder mutates, one networkx call per method. */
module Graphs {
  import opened Common

  type Label = string

  /** A directed edge (source, target). */
  type Edge = (Label, Label)

  /** The key an undirected networkx `Graph` gives an edge: its set of
      endpoints, so (u, v) and (v, u) are one edge and a self-loop has one. */
  function Chave(e: Edge): set<Label>
  {
    {e.0, e.1}
  }

  /** `key=lambda x: x[1]`, the sort key of the scripts' (label, value)
      rankings. */
  function Segundo(p: (Label, int)): int
  {
    p.1
  }

  /** The attributes of an edge: `weight` (trials) and `mortes` (deaths). */
  datatype Acc = Acc(julgamentos: int, mortes: int)
  {
    function Plus(o: Acc): Acc
    {
      Acc(julgamentos + o.julgamentos, mortes + o.mortes)
    }
  }

  const Zero := Acc(0, 0)

  lemma PlusZero(a: Acc)
    ensures a.Plus(Zero) == a && Zero.Plus(a) == a
  {
  }

  /** The `tipo` of a node with its attributes: a location carries `lat`,
      `lon` (None when NaN) and `pais`; a decade carries nothing. */
  datatype NodeKind = Local(lat: Option<real>, lon: Option<real>, pais: string) | Decada

  /** A finished graph: nodes in insertion order with their kind, edges in
      creation order with their accumulators. */
  datatype Graph = Graph(
    nodes: seq<Label>,
    kind: map<Label, NodeKind>,
    edges: seq<Edge>,
    acc: map<Edge, Acc>)

  /** What networkx guarantees of every graph: each node and each edge once,
      and both ends of an edge are nodes. */
  predicate Valid(g: Graph)
  {
    && Distinct(g.nodes)
    && (forall n :: n in g.kind ==> n in g.nodes)
    && (forall n :: n in g.nodes ==> n in g.kind)
    && Distinct(g.edges)
    && (forall e :: e in g.acc ==> e in g.edges)
    && (forall e :: e in g.edges ==> e in g.acc)
    && (forall e :: e in g.acc ==> e.0 in g.kind && e.1 in g.kind)
  }

  function EmptyGraph(): Graph
  {
    Graph([], map[], [], map[])
  }

  /** `add_node(n, **attrs)`: a new node goes last; an existing node keeps its
      place and takes the new attributes. */
  function WithNode(g: Graph, n: Label, k: NodeKind): Graph
  {
    Graph(if n in g.kind then g.nodes else g.nodes + [n], g.kind[n := k], g.edges, g.acc)
  }

  /** The edge upsert of the builder: add `a` to an existing edge, or create the
      edge with `a`. */
  function WithCounts(g: Graph, e: Edge, a: Acc): Graph
  {
    if e in g.acc then g.(acc := g.acc[e := g.acc[e].Plus(a)])
    else g.(edges := g.edges + [e], acc := g.acc[e := a])
  }

  lemma WithNodeValid(g: Graph, n: Label, k: NodeKind)
    requires Valid(g)
    ensures Valid(WithNode(g, n, k))
    ensures n in WithNode(g, n, k).kind && WithNode(g, n, k).kind[n] == k
    ensures forall m :: m in g.kind ==> m in WithNode(g, n, k).kind
  {
    if n !in g.kind {
      DistinctAppend(g.nodes, n);
    }
  }

  lemma WithCountsValid(g: Graph, e: Edge, a: Acc)
    requires Valid(g) && e.0 in g.kind && e.1 in g.kind
    ensures Valid(WithCounts(g, e, a))
  {
    if e !in g.acc {
      DistinctAppend(g.edges, e);
    }
  }

  // ---------------------------------------------------------------------------
  // Sums and counts over edges
  // ---------------------------------------------------------------------------

  /** Which edges a sum or a count is over. */
  datatype Selector = OutOf(src: Label) | Into(dst: Label) | Exactly(edge: Edge) | AllEdges

  predicate Selects(s: Selector, e: Edge)
  {
    match s
    case OutOf(n) => e.0 == n
    case Into(n) => e.1 == n
    case Exactly(x) => e == x
    case AllEdges => true
  }

  /** What one edge adds to a sum: its accumulator when selected. */
  function Term(e: Edge, acc: map<Edge, Acc>, s: Selector): Acc
  {
    if Selects(s, e) && e in acc then acc[e] else Zero
  }

  /** The sum of the accumulators of the selected edges of es. */
  function EdgeTotal(es: seq<Edge>, acc: map<Edge, Acc>, s: Selector): Acc
  {
    if es == [] then Zero
    else EdgeTotal(es[..|es| - 1], acc, s).Plus(Term(es[|es| - 1], acc, s))
  }

  /** The number of selected edges of es. */
  function EdgeCount(es: seq<Edge>, s: Selector): nat
  {
    if es == [] then 0
    else EdgeCount(es[..|es| - 1], s) + (if Selects(s, es[|es| - 1]) then 1 else 0)
  }

  /** `sum(weight / mortes over G.out_edges(n))`. */
  function OutSum(g: Graph, n: Label): Acc
  {
    EdgeTotal(g.edges, g.acc, OutOf(n))
  }

  /** `sum(weight / mortes over G.in_edges(n))`. */
  function InSum(g: Graph, n: Label): Acc
  {
    EdgeTotal(g.edges, g.acc, Into(n))
  }

  /** `G.degree(n)` of a DiGraph: out-degree plus in-degree. */
  function Degree(g: Graph, n: Label): nat
  {
    EdgeCount(g.edges, OutOf(n)) + EdgeCount(g.edges, Into(n))
  }

  predicate IsLocal(g: Graph, n: Label)
  {
    n in g.kind && g.kind[n].Local?
  }

  predicate IsDecada(g: Graph, n: Label)
  {
    n in g.kind && g.kind[n].Decada?
  }

  /** Changing the accumulator of an edge that es does not list changes no
      sum over es. */
  lemma {:induction false} EdgeTotalOther(es: seq<Edge>, acc: map<Edge, Acc>, e: Edge, v: Acc, s: Selector)
    requires e !in es
    ensures EdgeTotal(es, acc[e := v], s) == EdgeTotal(es, acc, s)
  {
    if es != [] {
      EdgeTotalOther(es[..|es| - 1], acc, e, v, s);
    }
  }

  /** Adding d to the accumulator of an edge listed at most once in es adds d
      to every sum that selects that edge. */
  lemma {:induction false} EdgeTotalBump(es: seq<Edge>, acc: map<Edge, Acc>, e: Edge, d: Acc, s: Selector)
    requires multiset(es)[e] <= 1 && e in acc
    ensures EdgeTotal(es, acc[e := acc[e].Plus(d)], s)
            == EdgeTotal(es, acc, s).Plus(if Selects(s, e) && e in es then d else Zero)
  {
    if es != [] {
      var p, last := es[..|es| - 1], es[|es| - 1];
      assert es == p + [last];
      assert multiset(es) == multiset(p) + multiset{last};
      if last == e {
        EdgeTotalOther(p, acc, e, acc[e].Plus(d), s);
      } else {
        EdgeTotalBump(p, acc, e, d, s);
      }
    }
  }

  /** The upsert adds the row's counts to every sum that selects its edge. */
  lemma EdgeTotalWithCounts(g: Graph, e: Edge, a: Acc, s: Selector)
    requires Distinct(g.edges) && (forall x :: x in g.acc <==> x in g.edges)
    ensures var h := WithCounts(g, e, a);
            EdgeTotal(h.edges, h.acc, s) == EdgeTotal(g.edges, g.acc, s).Plus(if Selects(s, e) then a else Zero)
  {
    if e in g.acc {
      DistinctCount(g.edges, e);
      EdgeTotalBump(g.edges, g.acc, e, a, s);
    } else {
      EdgeTotalOther(g.edges, g.acc, e, a, s);
      var es := g.edges + [e];
      assert es[..|es| - 1] == g.edges;
    }
  }

  lemma EdgeCountWithCounts(g: Graph, e: Edge, a: Acc, s: Selector)
    requires forall x :: x in g.acc <==> x in g.edges
    ensures var h := WithCounts(g, e, a);
            EdgeCount(h.edges, s) == EdgeCount(g.edges, s) + (if e !in g.acc && Selects(s, e) then 1 else 0)
  {
    if e !in g.acc {
      var es := g.edges + [e];
      assert es[..|es| - 1] == g.edges;
    }
  }

  /** A listed edge that a selector picks makes its count positive. */
  lemma {:induction false} EdgeCountPositive(es: seq<Edge>, s: Selector, e: Edge)
    requires e in es && Selects(s, e)
    ensures EdgeCount(es, s) > 0
  {
    var p := es[..|es| - 1];
    if es[|es| - 1] != e {
      assert es == p + [es[|es| - 1]];
      EdgeCountPositive(p, s, e);
    }
  }

  /** With no selected edge, the count is zero. */
  lemma {:induction false} EdgeCountZero(es: seq<Edge>, s: Selector)
    requires forall e :: e in es ==> !Selects(s, e)
    ensures EdgeCount(es, s) == 0
  {
    if es != [] {
      var p := es[..|es| - 1];
      assert forall e :: e in p ==> e in es;
      EdgeCountZero(p, s);
    }
  }

  // ---------------------------------------------------------------------------
  // The networkx object the builder mutates
  // ---------------------------------------------------------------------------

  /** A networkx `DiGraph` restricted to the calls the builder makes. */
  class DiGraph {
    var nodes: seq<Label>
    var kind: map<Label, NodeKind>
    var edges: seq<Edge>
    var acc: map<Edge, Acc>

    /** The graph this object currently holds. */
    function Model(): Graph
      reads this
    {
      Graph(nodes, kind, edges, acc)
    }

    /** `nx.DiGraph()`. */
    constructor ()
      ensures Model() == EmptyGraph()
    {
      nodes, kind, edges, acc := [], map[], [], map[];
    }

    /** `add_node(n, tipo=..., ...)`: attributes of an existing node are
        replaced, a new node is appended. */
    method AddNode(n: Label, k: NodeKind)
      modifies this
      ensures Model() == WithNode(old(Model()), n, k)
    {
      if n !in kind {
        nodes := nodes + [n];
      }
      kind := kind[n := k];
    }

    /** `has_edge(u, v)`. */
    method HasEdge(u: Label, v: Label) returns (b: bool)
      ensures b <==> (u, v) in Model().acc
    {
      b := (u, v) in acc;
    }

    /** `add_edge(u, v, weight=..., mortes=...)` for an edge between two
        existing nodes that is not there yet. */
    method AddEdge(u: Label, v: Label, a: Acc)
      requires u in kind && v in kind && (u, v) !in acc
      modifies this
      ensures Model() == WithCounts(old(Model()), (u, v), a)
    {
      edges := edges + [(u, v)];
      acc := acc[(u, v) := a];
    }

    /** `edges[(u, v)]['weight'] += ...; edges[(u, v)]['mortes'] += ...` on an
        existing edge. */
    method AccumulateEdge(u: Label, v: Label, a: Acc)
      requires (u, v) in acc
      modifies this
      ensures Model() == WithCounts(old(Model()), (u, v), a)
    {
      acc := acc[(u, v) := acc[(u, v)].Plus(a)];
    }
  }
}
