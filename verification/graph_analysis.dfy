/** The structural report on the trial graph: node and edge counts, average
    degree, weak components, the most central node, the top nodes by degree,
    the isolated nodes, and the node-to-community index used to colour the
    community drawing. The functions only print; each is modelled by the
    values it prints. */
module GraphAnalysis {
  import opened Common
  import opened Graphs
  import opened Preprocessing
  import opened GraphBuilder
  import opened Visualization

  // ---------------------------------------------------------------------------
  // Degrees and the average degree
  // ---------------------------------------------------------------------------

  /** Which end of an edge a count looks at. */
  datatype Dir = Out | In

  function Sel(d: Dir, n: Label): Selector
  {
    if d == Out then OutOf(n) else Into(n)
  }

  function End(d: Dir, e: Edge): Label
  {
    if d == Out then e.0 else e.1
  }

  /** The out-degrees (or in-degrees) of the nodes of ns, added up. */
  function CountSum(es: seq<Edge>, ns: seq<Label>, d: Dir): nat
  {
    if ns == [] then 0
    else CountSum(es, ns[..|ns| - 1], d) + EdgeCount(es, Sel(d, ns[|ns| - 1]))
  }

  /** `sum(dict(G.degree()).values())` over the nodes ns. */
  function DegreeSum(g: Graph, ns: seq<Label>): nat
  {
    if ns == [] then 0
    else DegreeSum(g, ns[..|ns| - 1]) + Degree(g, ns[|ns| - 1])
  }

  /** `grau_medio`: the degree sum over the node count, or 0 without nodes. */
  function GrauMedio(g: Graph): real
  {
    if |g.nodes| == 0 then 0.0 else DegreeSum(g, g.nodes) as real / |g.nodes| as real
  }

  /** One more edge adds one to the count of the node at its end, once per
      occurrence of that node in ns. */
  lemma {:induction false} CountSumStep(es: seq<Edge>, ns: seq<Label>, d: Dir)
    requires es != []
    ensures CountSum(es, ns, d) == CountSum(es[..|es| - 1], ns, d) + multiset(ns)[End(d, es[|es| - 1])]
  {
    if ns != [] {
      var p, n := ns[..|ns| - 1], ns[|ns| - 1];
      CountSumStep(es, p, d);
      assert ns == p + [n];
      assert multiset(ns) == multiset(p) + multiset{n};
    }
  }

  /** Over distinct nodes that include the chosen end of every edge, the
      counts add up to the number of edges. */
  lemma {:induction false} CountSumAll(es: seq<Edge>, ns: seq<Label>, d: Dir)
    requires Distinct(ns)
    requires forall e :: e in es ==> End(d, e) in ns
    ensures CountSum(es, ns, d) == |es|
  {
    if es == [] {
      CountSumNone(ns, d);
    } else {
      var p, e := es[..|es| - 1], es[|es| - 1];
      assert forall x :: x in p ==> x in es;
      CountSumAll(p, ns, d);
      CountSumStep(es, ns, d);
      DistinctCount(ns, End(d, e));
    }
  }

  lemma {:induction false} CountSumNone(ns: seq<Label>, d: Dir)
    ensures CountSum([], ns, d) == 0
  {
    if ns != [] {
      CountSumNone(ns[..|ns| - 1], d);
    }
  }

  lemma {:induction false} DegreeSumSplit(g: Graph, ns: seq<Label>)
    ensures DegreeSum(g, ns) == CountSum(g.edges, ns, Out) + CountSum(g.edges, ns, In)
  {
    if ns != [] {
      DegreeSumSplit(g, ns[..|ns| - 1]);
    }
  }

  /** The handshake lemma for a directed graph: every edge adds one to the
      degree of each end, so the degrees add up to twice the edge count. */
  lemma Handshake(g: Graph)
    requires Valid(g)
    ensures DegreeSum(g, g.nodes) == 2 * |g.edges|
  {
    DegreeSumSplit(g, g.nodes);
    CountSumAll(g.edges, g.nodes, Out);
    CountSumAll(g.edges, g.nodes, In);
  }

  /** The average degree is twice the edges per node, and 0 for the empty
      graph. */
  lemma GrauMedioSpec(g: Graph)
    requires Valid(g)
    ensures |g.nodes| == 0 ==> GrauMedio(g) == 0.0
    ensures |g.nodes| > 0 ==> GrauMedio(g) == (2 * |g.edges|) as real / |g.nodes| as real
  {
    Handshake(g);
  }

  // ---------------------------------------------------------------------------
  // Degree table, most central node, top nodes by degree, isolated nodes
  // ---------------------------------------------------------------------------

  /** An item of `dict(G.degree())`. */
  datatype NoGrau = NoGrau(no: Label, grau: int)

  function GrauOf(p: NoGrau): int
  {
    p.grau
  }

  /** `dict(G.degree()).items()`: every node with its degree, in node order. */
  function Graus(g: Graph, ns: seq<Label>): seq<NoGrau>
  {
    if ns == [] then []
    else Graus(g, ns[..|ns| - 1]) + [NoGrau(ns[|ns| - 1], Degree(g, ns[|ns| - 1]))]
  }

  lemma {:induction false} GrausMembers(g: Graph, ns: seq<Label>)
    ensures forall p :: p in Graus(g, ns) ==> p.no in ns && p.grau == Degree(g, p.no)
  {
    if ns != [] {
      GrausMembers(g, ns[..|ns| - 1]);
      InDropLast(ns);
    }
  }

  lemma {:induction false} GrausSpec(g: Graph, ns: seq<Label>)
    ensures |Graus(g, ns)| == |ns|
    ensures forall i :: 0 <= i < |ns| ==> Graus(g, ns)[i] == NoGrau(ns[i], Degree(g, ns[i]))
  {
    if ns != [] {
      GrausSpec(g, ns[..|ns| - 1]);
    }
  }

  /** `max(centralidade, key=centralidade.get)`: degree centrality is the
      degree over n - 1 (1 for a single node), so its maximum is the first node
      of maximal degree. None without nodes. */
  function MaisCentral(g: Graph): Option<Label>
  {
    var t := Graus(g, g.nodes);
    if t == [] then None else Some(t[ArgMaxFirst(t, GrauOf)].no)
  }

  lemma MaisCentralSpec(g: Graph)
    ensures MaisCentral(g).None? <==> g.nodes == []
    ensures MaisCentral(g).Some? ==>
              exists i :: && 0 <= i < |g.nodes| && g.nodes[i] == MaisCentral(g).value
                          && (forall j :: 0 <= j < |g.nodes| ==> Degree(g, g.nodes[j]) <= Degree(g, g.nodes[i]))
                          && (forall j :: 0 <= j < i ==> Degree(g, g.nodes[j]) < Degree(g, g.nodes[i]))
  {
    var ns := g.nodes;
    GrausSpec(g, ns);
    var t := Graus(g, ns);
    if t != [] {
      var i := ArgMaxFirst(t, GrauOf);
      assert MaisCentral(g).value == t[i].no == ns[i];
      MaiorGrau(g, ns, i);
    }
  }

  /** The first maximum of the degree items is a first node of largest
      degree. */
  lemma MaiorGrau(g: Graph, ns: seq<Label>, i: nat)
    requires ns != [] && i == ArgMaxFirst(Graus(g, ns), GrauOf)
    ensures i < |ns|
    ensures forall j :: 0 <= j < |ns| ==> Degree(g, ns[j]) <= Degree(g, ns[i])
    ensures forall j :: 0 <= j < i ==> Degree(g, ns[j]) < Degree(g, ns[i])
  {
    var t := Graus(g, ns);
    GrausSpec(g, ns);
    forall j | 0 <= j < |ns| ensures Degree(g, ns[j]) <= Degree(g, ns[i]) {
      assert GrauOf(t[j]) <= GrauOf(t[i]);
    }
    forall j | 0 <= j < i ensures Degree(g, ns[j]) < Degree(g, ns[i]) {
      assert GrauOf(t[j]) < GrauOf(t[i]);
    }
  }

  /** `mostrar_nos_com_maior_grau(G, top_n)`: the degree items sorted by
      degree from the largest, ties in node order, cut with `[:top_n]`. */
  function TopPorGrau(g: Graph, topN: int): seq<NoGrau>
  {
    Head(SortDesc(Graus(g, g.nodes), GrauOf), topN)
  }

  /** At most topN entries (for a negative topN, all but the last -topN), by
      degree from the largest, with ties in node order. */
  lemma TopPorGrauOrder(g: Graph, topN: int)
    ensures var t := TopPorGrau(g, topN);
      && (topN >= 0 ==> |t| == if topN < |g.nodes| then topN else |g.nodes|)
      && NonIncreasing(t, GrauOf)
      && forall k :: WithKey(t, GrauOf, k) <= WithKey(Graus(g, g.nodes), GrauOf, k)
  {
    var gs := Graus(g, g.nodes);
    GrausSpec(g, g.nodes);
    var s := SortDesc(gs, GrauOf);
    SortDescSpec(gs, GrauOf);
    var t := Head(s, topN);
    HeadNonIncreasing(s, topN, GrauOf);
    forall k ensures WithKey(t, GrauOf, k) <= WithKey(gs, GrauOf, k) {
      WithKeyPrefix(s, |t|, GrauOf, k);
      assert s[..|t|] == t;
    }
  }

  /** Each entry is a node with its degree, and no node left out has a larger
      degree than one listed. */
  lemma TopPorGrauTop(g: Graph, topN: int)
    ensures var t := TopPorGrau(g, topN);
      && (forall p :: p in t ==> p.no in g.nodes && p.grau == Degree(g, p.no))
      && (forall x, y :: x in t && y in multiset(Graus(g, g.nodes)) - multiset(t) ==> x.grau >= y.grau)
  {
    var gs := Graus(g, g.nodes);
    GrausMembers(g, g.nodes);
    var s := SortDesc(gs, GrauOf);
    SortDescSpec(gs, GrauOf);
    var t := Head(s, topN);
    HeadIsTop(gs, GrauOf, topN);
    assert multiset(gs) - multiset(t) == multiset(s[|t|..]);
    forall x, y | x in t && y in multiset(gs) - multiset(t) ensures x.grau >= y.grau {
      assert y in s[|t|..];
    }
    forall p | p in t ensures p.no in g.nodes && p.grau == Degree(g, p.no) {
      HeadSubMultiset(s, topN);
      assert p in multiset(s);
      assert p in gs;
    }
  }

  /** `[n for n in G.nodes if G.degree(n) == 0]`. */
  function NosSemArestas(g: Graph, ns: seq<Label>): seq<Label>
  {
    if ns == [] then []
    else NosSemArestas(g, ns[..|ns| - 1]) + (if Degree(g, ns[|ns| - 1]) == 0 then [ns[|ns| - 1]] else [])
  }

  /** The isolated nodes are exactly the nodes of degree 0. */
  lemma {:induction false} NosSemArestasSpec(g: Graph, ns: seq<Label>)
    ensures forall n :: n in NosSemArestas(g, ns) <==> n in ns && Degree(g, n) == 0
  {
    if ns != [] {
      NosSemArestasSpec(g, ns[..|ns| - 1]);
      InDropLast(ns);
    }
  }

  /** Without a node of degree 0 there is no isolated node. */
  lemma {:induction false} NosSemArestasNone(g: Graph, ns: seq<Label>)
    requires forall n :: n in ns ==> Degree(g, n) > 0
    ensures NosSemArestas(g, ns) == []
  {
    if ns != [] {
      InDropLast(ns);
      NosSemArestasNone(g, ns[..|ns| - 1]);
    }
  }

  /** A graph built from rows has no isolated node: every node is added
      together with an edge. */
  lemma BuildHasNoIsolated(rows: seq<Row>)
    ensures NosSemArestas(Build(rows), Build(rows).nodes) == []
  {
    var g := Build(rows);
    BuildValid(rows);
    BuildNoIsolated(rows);
    NosSemArestasNone(g, g.nodes);
  }

  // ---------------------------------------------------------------------------
  // Weak components
  // ---------------------------------------------------------------------------

  /** The nodes covered by a list of components. */
  function UnionOf(cs: seq<set<Label>>): set<Label>
  {
    if cs == [] then {} else UnionOf(cs[..|cs| - 1]) + cs[|cs| - 1]
  }

  /** No node is in two components: each is disjoint from those before it. */
  predicate Disjoint(cs: seq<set<Label>>)
  {
    cs == [] || (Disjoint(cs[..|cs| - 1]) && cs[|cs| - 1] !! UnionOf(cs[..|cs| - 1]))
  }

  predicate NonEmpty(cs: seq<set<Label>>)
  {
    forall i :: 0 <= i < |cs| ==> cs[i] != {}
  }

  /** x and y are in the same component. */
  predicate Together(cs: seq<set<Label>>, x: Label, y: Label)
  {
    exists i :: 0 <= i < |cs| && x in cs[i] && y in cs[i]
  }

  /** One component per node, before any edge is looked at. */
  function Singletons(ns: seq<Label>): seq<set<Label>>
  {
    if ns == [] then [] else Singletons(ns[..|ns| - 1]) + [{ns[|ns| - 1]}]
  }

  /** The components that contain neither u nor v, in their order. */
  function Without(cs: seq<set<Label>>, u: Label, v: Label): seq<set<Label>>
  {
    if cs == [] then []
    else
      var c := cs[|cs| - 1];
      Without(cs[..|cs| - 1], u, v) + (if u in c || v in c then [] else [c])
  }

  /** The union of the components that contain u or v. */
  function Touching(cs: seq<set<Label>>, u: Label, v: Label): set<Label>
  {
    if cs == [] then {}
    else
      var c := cs[|cs| - 1];
      Touching(cs[..|cs| - 1], u, v) + (if u in c || v in c then c else {})
  }

  /** Joining the components of the two ends of an edge. */
  function Merge(cs: seq<set<Label>>, u: Label, v: Label): seq<set<Label>>
  {
    Without(cs, u, v) + [Touching(cs, u, v)]
  }

  /** `nx.weakly_connected_components(G)`: start from single nodes and join
      the components of the ends of every edge, ignoring its direction. */
  function Components(ns: seq<Label>, es: seq<Edge>): seq<set<Label>>
  {
    if es == [] then Singletons(ns)
    else
      var e := es[|es| - 1];
      Merge(Components(ns, es[..|es| - 1]), e.0, e.1)
  }

  lemma {:induction false} SingletonsSpec(ns: seq<Label>)
    requires Distinct(ns)
    ensures Disjoint(Singletons(ns)) && NonEmpty(Singletons(ns))
    ensures UnionOf(Singletons(ns)) == set n | n in ns
    ensures |Singletons(ns)| == |ns|
  {
    if ns != [] {
      var p, n := ns[..|ns| - 1], ns[|ns| - 1];
      SingletonsSpec(p);
      InDropLast(ns);
      assert Singletons(ns)[..|ns| - 1] == Singletons(p);
    }
  }

  /** What Without keeps and what Touching gathers between them cover the
      same nodes, and nothing more. */
  lemma {:induction false} SplitCover(cs: seq<set<Label>>, u: Label, v: Label)
    ensures UnionOf(Without(cs, u, v)) + Touching(cs, u, v) == UnionOf(cs)
    ensures u in UnionOf(cs) ==> u in Touching(cs, u, v)
    ensures v in UnionOf(cs) ==> v in Touching(cs, u, v)
    ensures |Without(cs, u, v)| <= |cs|
    ensures u in UnionOf(cs) ==> |Without(cs, u, v)| < |cs|
  {
    if cs != [] {
      var p := cs[..|cs| - 1];
      SplitCover(p, u, v);
      var w := Without(cs, u, v);
      if !(u in cs[|cs| - 1] || v in cs[|cs| - 1]) {
        assert w[..|w| - 1] == Without(p, u, v) && w[|w| - 1] == cs[|cs| - 1];
      } else {
        assert w == Without(p, u, v);
      }
    }
  }

  /** A component that contains neither end is kept; one that contains an
      end is part of the joined component. */
  lemma {:induction false} SplitParts(cs: seq<set<Label>>, u: Label, v: Label)
    ensures forall c :: c in Without(cs, u, v) <==> c in cs && u !in c && v !in c
    ensures forall c :: c in cs && (u in c || v in c) ==> c <= Touching(cs, u, v)
  {
    if cs != [] {
      SplitParts(cs[..|cs| - 1], u, v);
      InDropLast(cs);
    }
  }

  /** Over disjoint components, what is kept stays disjoint. */
  lemma {:induction false} WithoutDisjoint(cs: seq<set<Label>>, u: Label, v: Label)
    requires Disjoint(cs)
    ensures Disjoint(Without(cs, u, v))
  {
    if cs != [] {
      var p, c := cs[..|cs| - 1], cs[|cs| - 1];
      WithoutDisjoint(p, u, v);
      var w := Without(cs, u, v);
      if !(u in c || v in c) {
        SplitCover(p, u, v);
        assert UnionOf(Without(p, u, v)) <= UnionOf(p);
        assert w[..|w| - 1] == Without(p, u, v) && w[|w| - 1] == c;
      } else {
        assert w == Without(p, u, v);
      }
    }
  }

  /** Over disjoint components, what is kept is disjoint from the joined
      component. */
  lemma {:induction false} WithoutTouchingDisjoint(cs: seq<set<Label>>, u: Label, v: Label)
    requires Disjoint(cs)
    ensures UnionOf(Without(cs, u, v)) !! Touching(cs, u, v)
  {
    if cs != [] {
      var p, c := cs[..|cs| - 1], cs[|cs| - 1];
      WithoutTouchingDisjoint(p, u, v);
      SplitCover(p, u, v);
      var w := Without(cs, u, v);
      assert c !! UnionOf(p);
      if !(u in c || v in c) {
        assert w[..|w| - 1] == Without(p, u, v) && w[|w| - 1] == c;
        assert UnionOf(w) == UnionOf(Without(p, u, v)) + c;
        assert Touching(cs, u, v) == Touching(p, u, v);
        assert Touching(p, u, v) <= UnionOf(p);
      } else {
        assert w == Without(p, u, v);
        assert Touching(cs, u, v) == Touching(p, u, v) + c;
        assert UnionOf(Without(p, u, v)) <= UnionOf(p);
      }
    }
  }

  /** Over disjoint components, what is kept stays disjoint and disjoint from
      the joined component. */
  lemma SplitDisjoint(cs: seq<set<Label>>, u: Label, v: Label)
    requires Disjoint(cs)
    ensures Disjoint(Without(cs, u, v))
    ensures UnionOf(Without(cs, u, v)) !! Touching(cs, u, v)
  {
    WithoutDisjoint(cs, u, v);
    WithoutTouchingDisjoint(cs, u, v);
  }

  lemma NonEmptyWithout(cs: seq<set<Label>>, u: Label, v: Label)
    requires NonEmpty(cs)
    ensures NonEmpty(Without(cs, u, v))
  {
    SplitParts(cs, u, v);
    var w := Without(cs, u, v);
    forall i | 0 <= i < |w| ensures w[i] != {} {
      assert w[i] in w;
      var j :| 0 <= j < |cs| && cs[j] == w[i];
    }
  }

  /** Joining keeps a partition of the same nodes, puts the two ends
      together, keeps together what was together, and never adds a
      component. */
  lemma MergeSpec(cs: seq<set<Label>>, u: Label, v: Label)
    requires Disjoint(cs) && NonEmpty(cs) && u in UnionOf(cs) && v in UnionOf(cs)
    ensures var m := Merge(cs, u, v);
      && Disjoint(m) && NonEmpty(m) && UnionOf(m) == UnionOf(cs)
      && Together(m, u, v) && |m| <= |cs|
    ensures forall x, y :: Together(cs, x, y) ==> Together(Merge(cs, u, v), x, y)
  {
    var w, t := Without(cs, u, v), Touching(cs, u, v);
    var m := Merge(cs, u, v);
    SplitCover(cs, u, v);
    SplitDisjoint(cs, u, v);
    NonEmptyWithout(cs, u, v);
    assert m[..|m| - 1] == w && m[|m| - 1] == t;
    assert Disjoint(m);
    assert UnionOf(m) == UnionOf(w) + t;
    forall i | 0 <= i < |m| ensures m[i] != {} {
      if i < |w| {
        assert m[i] == w[i];
      } else {
        assert u in m[i];
      }
    }
    assert Together(m, u, v) by {
      assert u in m[|m| - 1] && v in m[|m| - 1];
    }
    MergeKeepsTogether(cs, u, v);
  }

  /** Joining keeps together what was together. */
  lemma MergeKeepsTogether(cs: seq<set<Label>>, u: Label, v: Label)
    ensures forall x, y :: Together(cs, x, y) ==> Together(Merge(cs, u, v), x, y)
  {
    var w := Without(cs, u, v);
    var m := Merge(cs, u, v);
    SplitParts(cs, u, v);
    assert m[..|m| - 1] == w && m[|m| - 1] == Touching(cs, u, v);
    forall x, y | Together(cs, x, y) ensures Together(m, x, y) {
      var i :| 0 <= i < |cs| && x in cs[i] && y in cs[i];
      var c := cs[i];
      assert c in cs;
      if u in c || v in c {
        assert x in m[|m| - 1] && y in m[|m| - 1];
      } else {
        assert c in w;
        var j :| 0 <= j < |w| && w[j] == c;
        assert m[j] == c;
      }
    }
  }

  /** The components of a graph cover exactly its nodes, no node twice and
      no component empty; the two ends of every edge are in the same
      component; and there are at most as many components as nodes. */
  lemma {:induction false} ComponentsPartition(ns: seq<Label>, es: seq<Edge>)
    requires Distinct(ns)
    requires forall e :: e in es ==> e.0 in ns && e.1 in ns
    ensures var cs := Components(ns, es);
      && Disjoint(cs) && NonEmpty(cs) && UnionOf(cs) == (set n | n in ns) && |cs| <= |ns|
      && forall e :: e in es ==> Together(cs, e.0, e.1)
  {
    if es == [] {
      SingletonsSpec(ns);
    } else {
      var p, e := es[..|es| - 1], es[|es| - 1];
      InDropLast(es);
      ComponentsPartition(ns, p);
      MergeSpec(Components(ns, p), e.0, e.1);
    }
  }

  /** a and b are the two ends of an edge of es, in either direction. */
  predicate Adjacentes(es: seq<Edge>, a: Label, b: Label)
  {
    (a, b) in es || (b, a) in es
  }

  /** p is a walk along edges of es that ignores their direction. */
  predicate Caminho(es: seq<Edge>, p: seq<Label>)
  {
    |p| > 0 && forall i :: 0 <= i < |p| - 1 ==> Adjacentes(es, p[i], p[i + 1])
  }

  /** y can be reached from x along edges of es, ignoring their direction:
      what weak connectivity means. */
  ghost predicate Conectados(es: seq<Edge>, x: Label, y: Label)
  {
    exists p :: Caminho(es, p) && p[0] == x && p[|p| - 1] == y
  }

  lemma ConectadosProprio(es: seq<Edge>, x: Label)
    ensures Conectados(es, x, x)
  {
    assert Caminho(es, [x]);
  }

  lemma ConectadosAresta(es: seq<Edge>, a: Label, b: Label)
    requires Adjacentes(es, a, b)
    ensures Conectados(es, a, b) && Conectados(es, b, a)
  {
    assert Caminho(es, [a, b]);
    assert Caminho(es, [b, a]);
  }

  /** A walk read backwards is a walk. */
  lemma ConectadosVolta(es: seq<Edge>, x: Label, y: Label)
    requires Conectados(es, x, y)
    ensures Conectados(es, y, x)
  {
    var p :| Caminho(es, p) && p[0] == x && p[|p| - 1] == y;
    var q := seq(|p|, i requires 0 <= i < |p| => p[|p| - 1 - i]);
    forall i | 0 <= i < |q| - 1 ensures Adjacentes(es, q[i], q[i + 1]) {
      assert Adjacentes(es, p[|p| - 2 - i], p[|p| - 1 - i]);
    }
    assert Caminho(es, q);
  }

  /** Two walks that meet join into one. */
  lemma ConectadosJunta(es: seq<Edge>, x: Label, y: Label, z: Label)
    requires Conectados(es, x, y) && Conectados(es, y, z)
    ensures Conectados(es, x, z)
  {
    var p :| Caminho(es, p) && p[0] == x && p[|p| - 1] == y;
    var q :| Caminho(es, q) && q[0] == y && q[|q| - 1] == z;
    var r := p + q[1..];
    forall i | 0 <= i < |r| - 1 ensures Adjacentes(es, r[i], r[i + 1]) {
      if i < |p| - 1 {
        assert r[i] == p[i] && r[i + 1] == p[i + 1];
      } else {
        assert r[i] == q[i - |p| + 1] && r[i + 1] == q[i - |p| + 2];
      }
    }
    assert Caminho(es, r);
  }

  /** A walk along some of the edges is a walk along all of them. */
  lemma ConectadosMais(ps: seq<Edge>, es: seq<Edge>, x: Label, y: Label)
    requires forall e :: e in ps ==> e in es
    requires Conectados(ps, x, y)
    ensures Conectados(es, x, y)
  {
    var p :| Caminho(ps, p) && p[0] == x && p[|p| - 1] == y;
    forall i | 0 <= i < |p| - 1 ensures Adjacentes(es, p[i], p[i + 1]) {
      assert Adjacentes(ps, p[i], p[i + 1]);
    }
    assert Caminho(es, p);
  }

  /** A node of the joined component comes from a component holding one of
      the two ends. */
  lemma {:induction false} TouchingFrom(cs: seq<set<Label>>, u: Label, v: Label, x: Label) returns (j: int)
    requires x in Touching(cs, u, v)
    ensures 0 <= j < |cs| && x in cs[j] && (u in cs[j] || v in cs[j])
  {
    var p, c := cs[..|cs| - 1], cs[|cs| - 1];
    if (u in c || v in c) && x in c {
      j := |cs| - 1;
    } else {
      j := TouchingFrom(p, u, v, x);
      assert cs[j] == p[j];
    }
  }

  /** Over disjoint components a node is in one component only. */
  lemma {:induction false} DisjointUnico(cs: seq<set<Label>>, i: int, j: int, x: Label)
    requires Disjoint(cs) && 0 <= i < |cs| && 0 <= j < |cs| && x in cs[i] && x in cs[j]
    ensures i == j
  {
    var p := cs[..|cs| - 1];
    if i < |cs| - 1 && j < |cs| - 1 {
      assert p[i] == cs[i] && p[j] == cs[j];
      DisjointUnico(p, i, j, x);
    } else if i < |cs| - 1 {
      assert p[i] == cs[i];
      UnionContains(p, i);
    } else if j < |cs| - 1 {
      assert p[j] == cs[j];
      UnionContains(p, j);
    }
  }

  /** The nodes of each component are weakly connected by the edges. */
  ghost predicate Conexas(cs: seq<set<Label>>, es: seq<Edge>)
  {
    forall i, x, y :: 0 <= i < |cs| && x in cs[i] && y in cs[i] ==> Conectados(es, x, y)
  }

  /** Joining along the edge (u, v) keeps every component weakly connected. */
  lemma MergeConexas(cs: seq<set<Label>>, ps: seq<Edge>, u: Label, v: Label)
    requires Conexas(cs, ps)
    ensures Conexas(Merge(cs, u, v), ps + [(u, v)])
  {
    var es := ps + [(u, v)];
    var w, m := Without(cs, u, v), Merge(cs, u, v);
    assert forall e :: e in ps ==> e in es;
    SplitParts(cs, u, v);
    forall i, x, y | 0 <= i < |m| && x in m[i] && y in m[i]
      ensures Conectados(es, x, y)
    {
      if i < |w| {
        assert m[i] == w[i] && w[i] in w;
        var j :| 0 <= j < |cs| && cs[j] == w[i];
        ConectadosMais(ps, es, x, y);
      } else {
        assert m[i] == Touching(cs, u, v);
        var jx := TouchingFrom(cs, u, v, x);
        var jy := TouchingFrom(cs, u, v, y);
        var a := if u in cs[jx] then u else v;
        var b := if u in cs[jy] then u else v;
        ConectadosMais(ps, es, x, a);
        ConectadosMais(ps, es, y, b);
        ConectadosVolta(es, y, b);
        if a == b {
          ConectadosJunta(es, x, a, y);
        } else {
          assert (u, v) in es;
          ConectadosAresta(es, u, v);
          ConectadosJunta(es, x, a, b);
          ConectadosJunta(es, x, b, y);
        }
      }
    }
  }

  /** Each component `weakly_connected_components` reports is weakly
      connected. */
  lemma {:induction false} ComponentsConexas(ns: seq<Label>, es: seq<Edge>)
    ensures Conexas(Components(ns, es), es)
  {
    if es == [] {
      var cs := Singletons(ns);
      SingletonsLength(ns);
      forall i, x, y | 0 <= i < |cs| && x in cs[i] && y in cs[i]
        ensures Conectados(es, x, y)
      {
        SingletonOne(ns, i);
        ConectadosProprio(es, x);
      }
    } else {
      var p, e := es[..|es| - 1], es[|es| - 1];
      ComponentsConexas(ns, p);
      assert es == p + [(e.0, e.1)];
      MergeConexas(Components(ns, p), p, e.0, e.1);
    }
  }

  lemma {:induction false} SingletonsLength(ns: seq<Label>)
    ensures |Singletons(ns)| == |ns|
  {
    if ns != [] {
      SingletonsLength(ns[..|ns| - 1]);
    }
  }

  lemma {:induction false} SingletonOne(ns: seq<Label>, i: int)
    requires 0 <= i < |ns|
    ensures |Singletons(ns)| == |ns| && Singletons(ns)[i] == {ns[i]}
  {
    var p := ns[..|ns| - 1];
    SingletonsLength(p);
    if i < |p| {
      SingletonOne(p, i);
    }
  }

  /** The components are exactly the weak components: two nodes of the graph
      share a component if and only if a walk joins them, ignoring the
      direction of the edges. */
  lemma ComponentsWeak(ns: seq<Label>, es: seq<Edge>, x: Label, y: Label)
    requires Distinct(ns)
    requires forall e :: e in es ==> e.0 in ns && e.1 in ns
    requires x in ns
    ensures Together(Components(ns, es), x, y) <==> Conectados(es, x, y)
  {
    var cs := Components(ns, es);
    ComponentsPartition(ns, es);
    ComponentsConexas(ns, es);
    if Conectados(es, x, y) {
      var p :| Caminho(es, p) && p[0] == x && p[|p| - 1] == y;
      assert x in UnionOf(cs);
      var i := InUnion(cs, x);
      var k := 0;
      while k < |p| - 1
        invariant 0 <= k < |p| && p[k] in cs[i]
      {
        var e := if (p[k], p[k + 1]) in es then (p[k], p[k + 1]) else (p[k + 1], p[k]);
        assert e in es;
        assert Together(cs, e.0, e.1);
        var j :| 0 <= j < |cs| && e.0 in cs[j] && e.1 in cs[j];
        DisjointUnico(cs, i, j, p[k]);
        k := k + 1;
      }
    }
  }

  lemma {:induction false} InUnion(cs: seq<set<Label>>, x: Label) returns (i: int)
    requires x in UnionOf(cs)
    ensures 0 <= i < |cs| && x in cs[i]
  {
    if x in cs[|cs| - 1] {
      i := |cs| - 1;
    } else {
      i := InUnion(cs[..|cs| - 1], x);
    }
  }

  /** `nx.weakly_connected_components`: a partition of the nodes, at most
      one block per node, whose blocks are exactly the classes of nodes that
      walks join when the direction of the edges is ignored. */
  lemma ComponentsSpec(ns: seq<Label>, es: seq<Edge>)
    requires Distinct(ns)
    requires forall e :: e in es ==> e.0 in ns && e.1 in ns
    ensures var cs := Components(ns, es);
      && Disjoint(cs) && NonEmpty(cs) && UnionOf(cs) == (set n | n in ns) && |cs| <= |ns|
      && forall x, y :: x in ns ==> (Together(cs, x, y) <==> Conectados(es, x, y))
  {
    ComponentsPartition(ns, es);
    forall x, y | x in ns
      ensures Together(Components(ns, es), x, y) <==> Conectados(es, x, y)
    {
      ComponentsWeak(ns, es, x, y);
    }
  }

  function Size(c: set<Label>): int
  {
    |c|
  }

  // ---------------------------------------------------------------------------
  // `analisar_grafo`
  // ---------------------------------------------------------------------------

  /** What `analisar_grafo` prints: counts, average degree, number of weak
      components, size of the largest one (when there is one), and the most
      central node (when there is one and its name is not empty, since an
      empty string is false in the `if`). */
  datatype Resumo = Resumo(
    numeroNos: nat,
    numeroArestas: nat,
    grauMedio: real,
    componentes: nat,
    maiorComponente: Option<nat>,
    maisCentral: Option<Label>)

  function AnalisarGrafo(g: Graph): Resumo
  {
    var cs := Components(g.nodes, g.edges);
    var central := MaisCentral(g);
    Resumo(
      |g.nodes|, |g.edges|, GrauMedio(g), |cs|,
      if cs == [] then None else Some(|cs[ArgMaxFirst(cs, Size)]|),
      if central.Some? && central.value != "" then central else None)
  }

  /** The counts and the average degree: twice the edge count over the node
      count, or 0 without nodes. */
  lemma AnalisarGrafoDegrees(g: Graph)
    requires Valid(g)
    ensures var r := AnalisarGrafo(g);
      && r.numeroNos == |g.nodes| && r.numeroArestas == |g.edges|
      && (r.numeroNos == 0 ==> r.grauMedio == 0.0)
      && (r.numeroNos > 0 ==> r.grauMedio == (2 * r.numeroArestas) as real / r.numeroNos as real)
  {
    GrauMedioSpec(g);
  }

  /** The count printed is the number of blocks of a partition of the nodes
      whose blocks are the weak components: two nodes share one exactly when
      a walk joins them, ignoring the direction of the edges. There are no
      more components than nodes, none exactly when there are no nodes, and
      the largest reported is at least as large as every component. */
  lemma AnalisarGrafoComponents(g: Graph)
    requires Valid(g)
    ensures var r, cs := AnalisarGrafo(g), Components(g.nodes, g.edges);
      && r.componentes == |cs|
      && Disjoint(cs) && NonEmpty(cs) && UnionOf(cs) == (set n | n in g.nodes)
      && (forall x, y :: x in g.nodes ==> (Together(cs, x, y) <==> Conectados(g.edges, x, y)))
      && r.componentes <= r.numeroNos
      && (r.componentes == 0 <==> r.numeroNos == 0)
      && (r.maiorComponente.Some? <==> r.numeroNos > 0)
      && (r.maiorComponente.Some? ==>
            forall c :: c in Components(g.nodes, g.edges) ==> |c| <= r.maiorComponente.value)
  {
    ComponentsSpec(g.nodes, g.edges);
    var cs := Components(g.nodes, g.edges);
    if g.nodes != [] {
      assert g.nodes[0] in UnionOf(cs);
      if cs != [] {
        var i := ArgMaxFirst(cs, Size);
        forall c | c in cs ensures |c| <= |cs[i]| {
          var j :| 0 <= j < |cs| && cs[j] == c;
          assert Size(cs[j]) <= Size(cs[i]);
        }
      }
    }
  }

  /** The central node printed is a node of maximal degree, printed whenever
      there are nodes and the first of maximal degree has a non-empty name. */
  lemma AnalisarGrafoCentral(g: Graph)
    ensures var r := AnalisarGrafo(g);
      && (r.maisCentral.Some? ==>
            && r.maisCentral.value in g.nodes && r.maisCentral.value != ""
            && forall n :: n in g.nodes ==> Degree(g, n) <= Degree(g, r.maisCentral.value))
      && (r.maisCentral.None? ==> g.nodes == [] || MaisCentral(g) == Some(""))
  {
    MaisCentralSpec(g);
    if MaisCentral(g).Some? {
      var i :| && 0 <= i < |g.nodes| && g.nodes[i] == MaisCentral(g).value
               && (forall j :: 0 <= j < |g.nodes| ==> Degree(g, g.nodes[j]) <= Degree(g, g.nodes[i]));
      forall n | n in g.nodes ensures Degree(g, n) <= Degree(g, g.nodes[i]) {
        var j :| 0 <= j < |g.nodes| && g.nodes[j] == n;
      }
    }
  }

  // ---------------------------------------------------------------------------
  // `detectar_comunidades`
  // ---------------------------------------------------------------------------

  /** `[n for n, d in G.nodes(data=True) if d.get('tipo') == 'local']`. */
  function LocaisDe(g: Graph, ns: seq<Label>): seq<Label>
  {
    if ns == [] then []
    else LocaisDe(g, ns[..|ns| - 1]) + (if IsLocal(g, ns[|ns| - 1]) then [ns[|ns| - 1]] else [])
  }

  lemma {:induction false} LocaisDeSpec(g: Graph, ns: seq<Label>)
    ensures forall n :: n in LocaisDe(g, ns) <==> n in ns && IsLocal(g, n)
  {
    if ns != [] {
      LocaisDeSpec(g, ns[..|ns| - 1]);
      InDropLast(ns);
    }
  }

  /** `G.subgraph(locais).to_undirected()`. */
  function SubgrafoLocal(g: Graph): SubGraph
  {
    var locais := LocaisDe(g, g.nodes);
    SubGraph(map n | n in locais && n in g.kind :: g.kind[n], SubEdges(g, locais))
  }

  /** The map from node to community index after communities 0..|cs|-1 have
      been written, a later community overwriting an earlier one. */
  function Indice(cs: seq<set<Label>>): map<Label, nat>
  {
    if cs == [] then map[] else Stamp(Indice(cs[..|cs| - 1]), cs[|cs| - 1], |cs| - 1)
  }

  /** The map after `node_colors[no] = i` for every node of c. */
  function Stamp(m: map<Label, nat>, c: set<Label>, i: nat): map<Label, nat>
  {
    map x | x in m.Keys + c :: if x in c then i else m[x]
  }

  /** What `detectar_comunidades` computes before drawing: the undirected
      subgraph of the local nodes, and the community index of each node. */
  datatype Comunidades = Comunidades(subgrafo: SubGraph, indice: map<Label, nat>)

  /** `detectar_comunidades(G)`. `particao` is what
      `greedy_modularity_communities` returns for the subgraph; the function
      stops, drawing nothing, when there is no local node. */
  method DetectarComunidades(g: Graph, particao: seq<set<Label>>) returns (r: Option<Comunidades>)
    ensures r.None? <==> forall n :: n in g.nodes ==> !IsLocal(g, n)
    ensures r.Some? ==> r.value.subgrafo == SubgrafoLocal(g) && r.value.indice == Indice(particao)
  {
    var subgrafo := SubgrafoLocal(g);
    SubgrafoLocalEmpty(g);
    if |subgrafo.kind| == 0 {
      return None;
    }
    var cores: map<Label, nat> := map[];
    for i := 0 to |particao|
      invariant cores == Indice(particao[..i])
    {
      assert particao[..i + 1][..i] == particao[..i];
      cores := Pintar(cores, particao[i], i);
    }
    assert particao[..|particao|] == particao;
    r := Some(Comunidades(subgrafo, cores));
  }

  /** `for no in comunidade: node_colors[no] = i`. */
  method Pintar(antes: map<Label, nat>, c: set<Label>, i: nat) returns (cores: map<Label, nat>)
    ensures cores == Stamp(antes, c, i)
  {
    cores := antes;
    var resto := c;
    assert c - resto == {};
    StampNada(antes, i);
    while resto != {}
      invariant resto <= c
      invariant cores == Stamp(antes, c - resto, i)
      decreases resto
    {
      var no :| no in resto;
      assert c - (resto - {no}) == (c - resto) + {no};
      StampMais(antes, c - resto, no, i);
      cores := cores[no := i];
      resto := resto - {no};
    }
    assert c - resto == c;
  }

  lemma StampNada(m: map<Label, nat>, i: nat)
    ensures Stamp(m, {}, i) == m
  {
    assert Stamp(m, {}, i).Keys == m.Keys;
  }

  /** One more node of the community takes index i. */
  lemma StampMais(m: map<Label, nat>, d: set<Label>, no: Label, i: nat)
    ensures Stamp(m, d + {no}, i) == Stamp(m, d, i)[no := i]
  {
    assert Stamp(m, d + {no}, i).Keys == Stamp(m, d, i)[no := i].Keys;
  }

  /** The subgraph has no node exactly when the graph has no local node. */
  lemma SubgrafoLocalEmpty(g: Graph)
    ensures |SubgrafoLocal(g).kind| == 0 <==> forall n :: n in g.nodes ==> !IsLocal(g, n)
  {
    LocaisDeSpec(g, g.nodes);
    var kind := SubgrafoLocal(g).kind;
    if n :| n in g.nodes && IsLocal(g, n) {
      assert n in kind.Keys;
      assert |kind.Keys| > 0;
    }
  }

  /** Every node of a community gets an index, no other node does, and the
      index is that of the last community containing the node. */
  lemma {:induction false} IndiceSpec(cs: seq<set<Label>>)
    ensures forall x :: x in Indice(cs) <==> x in UnionOf(cs)
    ensures forall x :: x in Indice(cs) ==>
              Indice(cs)[x] < |cs| && x in cs[Indice(cs)[x]] &&
              forall j :: Indice(cs)[x] < j < |cs| ==> x !in cs[j]
  {
    if cs != [] {
      IndiceSpec(cs[..|cs| - 1]);
    }
  }

  lemma {:induction false} UnionContains(cs: seq<set<Label>>, i: int)
    requires 0 <= i < |cs|
    ensures cs[i] <= UnionOf(cs)
  {
    if i < |cs| - 1 {
      UnionContains(cs[..|cs| - 1], i);
    }
  }

  /** When the communities are disjoint, a node of community i gets index i. */
  lemma {:induction false} IndiceEm(cs: seq<set<Label>>, x: Label, i: int)
    requires Disjoint(cs) && 0 <= i < |cs| && x in cs[i]
    ensures x in Indice(cs) && Indice(cs)[x] == i
  {
    var p, c := cs[..|cs| - 1], cs[|cs| - 1];
    if i < |cs| - 1 {
      assert p[i] == cs[i];
      IndiceEm(p, x, i);
      UnionContains(p, i);
      assert x !in c;
    }
  }

  /** When the communities are disjoint, as a partition is, a node's index is
      i exactly when the node is in community i. */
  lemma IndiceDePartition(cs: seq<set<Label>>)
    requires Disjoint(cs)
    ensures forall x, i :: 0 <= i < |cs| && x in cs[i] ==> x in Indice(cs) && Indice(cs)[x] == i
  {
    forall x, i | 0 <= i < |cs| && x in cs[i] ensures x in Indice(cs) && Indice(cs)[x] == i {
      IndiceEm(cs, x, i);
    }
  }

  /** On a graph built from rows whose location and decade labels do not
      collide, the undirected subgraph of the local nodes has no edge: every
      edge ends at a decade. */
  lemma LocalSubgraphHasNoEdges(rows: seq<Row>)
    requires LabelsDisjoint(rows)
    ensures SubgrafoLocal(Build(rows)).edges == {}
  {
    var g := Build(rows);
    BuildValid(rows);
    BuildBipartite(rows);
    LocaisDeSpec(g, g.nodes);
    var locais := LocaisDe(g, g.nodes);
    forall e | e in g.edges ensures !(e.0 in locais && e.1 in locais) {
      assert e in g.acc;
      assert !IsLocal(g, e.1);
    }
  }
}
