/** `construir_grafo`: one pass over the preprocessed rows that adds a location
    node, a decade node and a location-to-decade edge per row with a country,
    summing trials and deaths on edges that are already there.

    `Build` is the graph the pass denotes; `ConstruirGrafo` is the pass itself,
    driving a `DiGraph` object, and is proved to produce `Build`. The lemmas
    then say what `Build` holds in terms of the rows alone. */
module GraphBuilder {
  import opened Common
  import opened Preprocessing
  import opened Graphs

  /** The row filter at the top of the loop: a country is present and not empty. */
  predicate Kept(r: Row)
  {
    r.adm0.Some? && r.adm0.value != ""
  }

  /** The edge a row contributes to: location to decade. */
  function Pair(r: Row): Edge
  {
    (r.localizacao, r.decade)
  }

  /** What a row adds to its edge: its trials and its deaths. */
  function Counts(r: Row): Acc
  {
    Acc(r.tried, r.deaths)
  }

  /** The attributes `add_node` gives the location node of a kept row. */
  function LocalKind(r: Row): NodeKind
    requires Kept(r)
  {
    Local(r.lat, r.lon, r.adm0.value)
  }

  /** The two `add_node` calls of one iteration. */
  function AddLabels(g: Graph, r: Row): Graph
    requires Kept(r)
  {
    WithNode(WithNode(g, r.localizacao, LocalKind(r)), r.decade, Decada)
  }

  /** One iteration of the loop. */
  function Step(g: Graph, r: Row): Graph
  {
    if !Kept(r) then g else WithCounts(AddLabels(g, r), Pair(r), Counts(r))
  }

  /** The graph the loop leaves after the given rows. */
  function Build(rows: seq<Row>): Graph
  {
    if rows == [] then EmptyGraph() else Step(Build(rows[..|rows| - 1]), rows[|rows| - 1])
  }

  /** `construir_grafo(df)`. */
  method ConstruirGrafo(df: seq<Row>) returns (g: DiGraph)
    ensures fresh(g)
    ensures g.Model() == Build(df)
  {
    g := new DiGraph();
    for i := 0 to |df|
      invariant g.Model() == Build(df[..i])
    {
      assert df[..i + 1][..i] == df[..i];
      var row := df[i];
      if row.adm0.None? || row.adm0.value == "" {
        continue;
      }
      var origem := row.localizacao;
      var decada := row.decade;
      g.AddNode(origem, Local(row.lat, row.lon, row.adm0.value));
      g.AddNode(decada, Decada);
      var temAresta := g.HasEdge(origem, decada);
      if temAresta {
        g.AccumulateEdge(origem, decada, Acc(row.tried, row.deaths));
      } else {
        g.AddEdge(origem, decada, Acc(row.tried, row.deaths));
      }
    }
    assert df[..|df|] == df;
  }

  // ---------------------------------------------------------------------------
  // What the rows determine, independently of the loop
  // ---------------------------------------------------------------------------

  /** The location keys of the kept rows. */
  function Locais(rows: seq<Row>): set<Label>
  {
    set r | r in rows && Kept(r) :: r.localizacao
  }

  /** The decades of the kept rows. */
  function Decadas(rows: seq<Row>): set<Label>
  {
    set r | r in rows && Kept(r) :: r.decade
  }

  /** The (location, decade) pairs of the kept rows. */
  function Pairs(rows: seq<Row>): set<Edge>
  {
    set r | r in rows && Kept(r) :: Pair(r)
  }

  /** What one row adds to a sum: its counts when kept and selected. */
  function RowTerm(r: Row, s: Selector): Acc
  {
    if Kept(r) && Selects(s, Pair(r)) then Counts(r) else Zero
  }

  /** The trials and deaths of the kept rows whose pair the selector picks. */
  function RowsTotal(rows: seq<Row>, s: Selector): Acc
  {
    if rows == [] then Zero
    else RowsTotal(rows[..|rows| - 1], s).Plus(RowTerm(rows[|rows| - 1], s))
  }

  /** The last kept row with location key l. */
  function LastFor(rows: seq<Row>, l: Label): Option<Row>
  {
    if rows == [] then None
    else
      var r := rows[|rows| - 1];
      if Kept(r) && r.localizacao == l then Some(r) else LastFor(rows[..|rows| - 1], l)
  }

  /** No location key of a kept row is also the decade of a kept row. Real
      decades are numbers and location keys contain ", ", so this holds of the
      data; without it a label would be both kinds and the last `add_node`
      would decide its `tipo`. */
  predicate LabelsDisjoint(rows: seq<Row>)
  {
    forall r, q :: r in rows && q in rows && Kept(r) && Kept(q) ==> r.localizacao != q.decade
  }

  /** The label sets of rows and of rows without their last element. */
  lemma SplitLast(rows: seq<Row>)
    requires rows != []
    ensures var p, r := rows[..|rows| - 1], rows[|rows| - 1];
      && Locais(rows) == Locais(p) + (if Kept(r) then {r.localizacao} else {})
      && Decadas(rows) == Decadas(p) + (if Kept(r) then {r.decade} else {})
      && Pairs(rows) == Pairs(p) + (if Kept(r) then {Pair(r)} else {})
  {
    var p, r := rows[..|rows| - 1], rows[|rows| - 1];
    assert rows == p + [r];
    assert forall x :: x in rows <==> x in p || x == r;
  }

  /** Rows with the same elements have the same label sets. */
  lemma SameElements(a: seq<Row>, b: seq<Row>)
    requires forall r :: r in a <==> r in b
    ensures Locais(a) == Locais(b) && Decadas(a) == Decadas(b) && Pairs(a) == Pairs(b)
  {
    forall x | x in Locais(a) ensures x in Locais(b) {
      var r :| r in a && Kept(r) && r.localizacao == x;
    }
    forall x | x in Locais(b) ensures x in Locais(a) {
      var r :| r in b && Kept(r) && r.localizacao == x;
    }
    forall x | x in Decadas(a) ensures x in Decadas(b) {
      var r :| r in a && Kept(r) && r.decade == x;
    }
    forall x | x in Decadas(b) ensures x in Decadas(a) {
      var r :| r in b && Kept(r) && r.decade == x;
    }
    forall x | x in Pairs(a) ensures x in Pairs(b) {
      var r :| r in a && Kept(r) && Pair(r) == x;
    }
    forall x | x in Pairs(b) ensures x in Pairs(a) {
      var r :| r in b && Kept(r) && Pair(r) == x;
    }
  }

  // ---------------------------------------------------------------------------
  // Properties of the built graph
  // ---------------------------------------------------------------------------

  /** What one kept row does to a graph: both labels become nodes, the decade
      is a `decada` node, the location takes the row's attributes (unless it
      is the same label as the decade), the row's edge is created or bumped,
      and nothing else changes. */
  lemma StepShape(g: Graph, r: Row)
    requires Kept(r)
    ensures var h := Step(g, r);
      && h.kind.Keys == g.kind.Keys + {r.localizacao, r.decade}
      && h.kind[r.decade] == Decada
      && (r.localizacao != r.decade ==> h.kind[r.localizacao] == LocalKind(r))
      && (forall n :: n in g.kind && n != r.localizacao && n != r.decade ==> h.kind[n] == g.kind[n])
      && h.acc.Keys == g.acc.Keys + {Pair(r)}
      && h.acc[Pair(r)] == (if Pair(r) in g.acc then g.acc[Pair(r)].Plus(Counts(r)) else Counts(r))
      && (forall e :: e in g.acc && e != Pair(r) ==> h.acc[e] == g.acc[e])
  {
  }

  /** The node kinds after one kept row. */
  lemma StepKind(g: Graph, r: Row)
    requires Kept(r)
    ensures var k := Step(g, r).kind;
      && k.Keys == g.kind.Keys + {r.localizacao, r.decade}
      && k[r.decade] == Decada
      && (r.localizacao != r.decade ==> k[r.localizacao] == LocalKind(r))
      && (forall n :: n in g.kind && n != r.localizacao && n != r.decade ==> k[n] == g.kind[n])
  {
    StepShape(g, r);
  }

  /** One row keeps a graph well formed. */
  lemma StepValid(g: Graph, r: Row)
    requires Valid(g)
    ensures Valid(Step(g, r))
  {
    if Kept(r) {
      var g1 := WithNode(g, r.localizacao, LocalKind(r));
      WithNodeValid(g, r.localizacao, LocalKind(r));
      WithNodeValid(g1, r.decade, Decada);
      WithCountsValid(AddLabels(g, r), Pair(r), Counts(r));
    }
  }

  /** The graph is well formed: every node and edge once, edges between nodes. */
  lemma {:induction false} BuildValid(rows: seq<Row>)
    ensures Valid(Build(rows))
  {
    if rows != [] {
      var p, r := rows[..|rows| - 1], rows[|rows| - 1];
      BuildValid(p);
      StepValid(Build(p), r);
    }
  }

  /** The nodes are exactly the locations and the decades of the kept rows. */
  lemma {:induction false} BuildNodes(rows: seq<Row>)
    ensures forall n :: n in Build(rows).kind <==> n in Locais(rows) || n in Decadas(rows)
  {
    if rows != [] {
      var p, r := rows[..|rows| - 1], rows[|rows| - 1];
      BuildNodes(p);
      SplitLast(rows);
      if Kept(r) {
        StepShape(Build(p), r);
      }
    }
  }

  /** The edges are exactly the pairs of the kept rows, and each carries the
      sum of the trials and deaths of the rows with that pair; a pair no kept
      row has sums to zero. */
  lemma {:induction false} BuildEdges(rows: seq<Row>)
    ensures forall e :: e in Build(rows).acc <==> e in Pairs(rows)
    ensures forall e :: e in Build(rows).acc ==> Build(rows).acc[e] == RowsTotal(rows, Exactly(e))
    ensures forall e :: e !in Build(rows).acc ==> RowsTotal(rows, Exactly(e)) == Zero
  {
    if rows != [] {
      var p, r := rows[..|rows| - 1], rows[|rows| - 1];
      BuildEdges(p);
      SplitLast(rows);
      var g, h := Build(p), Build(rows);
      assert h == Step(g, r);
      if Kept(r) {
        StepShape(g, r);
      }
      forall e
        ensures e in h.acc <==> e in Pairs(rows)
        ensures e in h.acc ==> h.acc[e] == RowsTotal(rows, Exactly(e))
        ensures e !in h.acc ==> RowsTotal(rows, Exactly(e)) == Zero
      {
        assert RowsTotal(rows, Exactly(e))
               == RowsTotal(p, Exactly(e)).Plus(if Kept(r) && Pair(r) == e then Counts(r) else Zero);
      }
    }
  }

  /** One edge per distinct (location, decade) pair. */
  lemma BuildEdgeCount(rows: seq<Row>)
    ensures |Build(rows).edges| == |Pairs(rows)|
  {
    var g := Build(rows);
    BuildValid(rows);
    BuildEdges(rows);
    DistinctCard(g.edges);
    assert (set e | e in g.edges) == Pairs(rows);
  }

  /** What one row adds to a sum over the edges of a well-formed graph. */
  lemma StepTotal(g: Graph, r: Row, s: Selector)
    requires Distinct(g.edges) && (forall x :: x in g.acc <==> x in g.edges)
    requires Kept(r)
    ensures EdgeTotal(Step(g, r).edges, Step(g, r).acc, s) == EdgeTotal(g.edges, g.acc, s).Plus(RowTerm(r, s))
  {
    var g2 := AddLabels(g, r);
    assert g2.edges == g.edges && g2.acc == g.acc;
    EdgeTotalWithCounts(g2, Pair(r), Counts(r), s);
  }

  /** Every sum over edges equals the sum over the rows whose pair the same
      selector picks. */
  lemma {:induction false} BuildTotals(rows: seq<Row>, s: Selector)
    ensures EdgeTotal(Build(rows).edges, Build(rows).acc, s) == RowsTotal(rows, s)
  {
    if rows != [] {
      var p, r := rows[..|rows| - 1], rows[|rows| - 1];
      BuildTotals(p, s);
      if Kept(r) {
        BuildValid(p);
        StepTotal(Build(p), r, s);
      }
    }
  }

  /** The trials and deaths leaving a location are those of its rows, and the
      ones entering a decade are those of its rows. */
  lemma NodeTotals(rows: seq<Row>, n: Label)
    ensures OutSum(Build(rows), n) == RowsTotal(rows, OutOf(n))
    ensures InSum(Build(rows), n) == RowsTotal(rows, Into(n))
  {
    BuildTotals(rows, OutOf(n));
    BuildTotals(rows, Into(n));
  }

  lemma {:induction false} RowsTotalConcat(a: seq<Row>, b: seq<Row>, s: Selector)
    ensures RowsTotal(a + b, s) == RowsTotal(a, s).Plus(RowsTotal(b, s))
  {
    if b == [] {
      assert a + b == a;
    } else {
      RowsTotalConcat(a, b[..|b| - 1], s);
      ConcatDropLast(a, b);
    }
  }

  /** Taking the row at position i out of a sum takes its term out. */
  lemma RowsTotalRemove(b: seq<Row>, i: int, s: Selector)
    requires 0 <= i < |b|
    ensures RowsTotal(b, s) == RowsTotal(b[..i] + b[i + 1..], s).Plus(RowTerm(b[i], s))
  {
    var b1, x, b2 := b[..i], b[i], b[i + 1..];
    SplitAt(b, i);
    RowsTotalConcat(b1, b2, s);
    RowsTotalConcat(b1 + [x], b2, s);
    RowsTotalConcat(b1, [x], s);
    assert [x][..0] == [];
  }

  /** A sum over rows does not depend on their order. */
  lemma {:induction false} RowsTotalPerm(a: seq<Row>, b: seq<Row>, s: Selector)
    requires multiset(a) == multiset(b)
    ensures RowsTotal(a, s) == RowsTotal(b, s)
  {
    if a == [] {
      PermEmpty(a, b);
    } else {
      var x := a[|a| - 1];
      assert x in multiset(b);
      var i :| 0 <= i < |b| && b[i] == x;
      PermDropLast(a, b, i);
      RowsTotalPerm(a[..|a| - 1], b[..i] + b[i + 1..], s);
      RowsTotalRemove(b, i, s);
    }
  }

  /** Reordering the rows gives the same nodes and the same edge sums; only
      node attributes, which the last row of each location sets, and the
      insertion order can differ. */
  lemma BuildOrderIndependent(a: seq<Row>, b: seq<Row>)
    requires multiset(a) == multiset(b)
    ensures Build(a).kind.Keys == Build(b).kind.Keys
    ensures Build(a).acc == Build(b).acc
  {
    forall r ensures r in a <==> r in b {
      assert r in a <==> r in multiset(a);
      assert r in b <==> r in multiset(b);
    }
    SameElements(a, b);
    BuildNodes(a);
    BuildNodes(b);
    BuildEdges(a);
    BuildEdges(b);
    forall e | e in Pairs(a) ensures Build(a).acc[e] == Build(b).acc[e] {
      RowsTotalPerm(a, b, Exactly(e));
    }
  }

  /** LastFor finds a kept row exactly for the location keys of kept rows. */
  lemma {:induction false} LastForKept(rows: seq<Row>)
    ensures forall l :: LastFor(rows, l).Some? <==> l in Locais(rows)
    ensures forall l :: LastFor(rows, l).Some? ==>
              LastFor(rows, l).value in rows && Kept(LastFor(rows, l).value)
              && LastFor(rows, l).value.localizacao == l
  {
    if rows != [] {
      var p := rows[..|rows| - 1];
      assert rows == p + [rows[|rows| - 1]];
      LastForKept(p);
      SplitLast(rows);
    }
  }

  lemma LabelsDisjointPrefix(rows: seq<Row>)
    requires rows != [] && LabelsDisjoint(rows)
    ensures LabelsDisjoint(rows[..|rows| - 1])
  {
    var p := rows[..|rows| - 1];
    forall x, q | x in p && q in p && Kept(x) && Kept(q) ensures x.localizacao != q.decade {
      assert x in rows && q in rows;
    }
  }

  /** Decades are `decada` nodes. */
  lemma {:induction false} BuildDecadaKinds(rows: seq<Row>)
    requires LabelsDisjoint(rows)
    ensures forall d :: d in Decadas(rows) ==> d in Build(rows).kind && Build(rows).kind[d] == Decada
  {
    if rows != [] {
      var p, r := rows[..|rows| - 1], rows[|rows| - 1];
      assert rows == p + [r];
      LabelsDisjointPrefix(rows);
      BuildDecadaKinds(p);
      SplitLast(rows);
      var g, h := Build(p), Build(rows);
      assert h.kind == Step(g, r).kind;
      if Kept(r) {
        StepKind(g, r);
        forall d | d in Decadas(rows) ensures d in h.kind && h.kind[d] == Decada {
          if d != r.decade {
            var q :| q in p && Kept(q) && q.decade == d;
            assert q in rows && r in rows;
            assert d != r.localizacao;
          }
        }
      } else {
        assert h.kind == g.kind;
      }
    }
  }

  /** Each location node carries the attributes of the last row with that
      location. */
  lemma {:induction false} BuildLocalKinds(rows: seq<Row>)
    requires LabelsDisjoint(rows)
    ensures forall l :: l in Locais(rows) ==>
              && l in Build(rows).kind && LastFor(rows, l).Some? && Kept(LastFor(rows, l).value)
              && Build(rows).kind[l] == LocalKind(LastFor(rows, l).value)
  {
    LastForKept(rows);
    if rows != [] {
      var p, r := rows[..|rows| - 1], rows[|rows| - 1];
      assert rows == p + [r];
      LabelsDisjointPrefix(rows);
      BuildLocalKinds(p);
      SplitLast(rows);
      var g, h := Build(p), Build(rows);
      assert h.kind == Step(g, r).kind;
      if Kept(r) {
        StepKind(g, r);
        assert r.localizacao != r.decade by { assert r in rows; }
        forall l | l in Locais(rows)
          ensures l in h.kind && LastFor(rows, l).Some? && Kept(LastFor(rows, l).value)
          ensures h.kind[l] == LocalKind(LastFor(rows, l).value)
        {
          if l != r.localizacao {
            var q :| q in p && Kept(q) && q.localizacao == l;
            assert q in rows && r in rows;
            assert l != r.decade;
            assert LastFor(rows, l) == LastFor(p, l);
          }
        }
      } else {
        assert h.kind == g.kind;
        forall l | l in Locais(rows) ensures LastFor(rows, l) == LastFor(p, l) {
        }
      }
    }
  }

  /** Decades are `decada` nodes and each location node carries the
      attributes of the last row with that location. */
  lemma BuildKinds(rows: seq<Row>)
    requires LabelsDisjoint(rows)
    ensures forall d :: d in Decadas(rows) ==> d in Build(rows).kind && Build(rows).kind[d] == Decada
    ensures forall l :: l in Locais(rows) ==>
              && l in Build(rows).kind && LastFor(rows, l).Some? && Kept(LastFor(rows, l).value)
              && Build(rows).kind[l] == LocalKind(LastFor(rows, l).value)
  {
    BuildDecadaKinds(rows);
    BuildLocalKinds(rows);
  }

  /** Every edge goes from a location node to a decade node. */
  lemma BuildBipartite(rows: seq<Row>)
    requires LabelsDisjoint(rows)
    ensures forall e :: e in Build(rows).acc ==> IsLocal(Build(rows), e.0) && IsDecada(Build(rows), e.1)
  {
    BuildEdges(rows);
    BuildKinds(rows);
    BuildNodes(rows);
    forall e | e in Build(rows).acc
      ensures IsLocal(Build(rows), e.0) && IsDecada(Build(rows), e.1)
    {
      var r :| r in rows && Kept(r) && Pair(r) == e;
      assert e.0 in Locais(rows) && e.1 in Decadas(rows);
    }
  }

  /** No node is isolated: every node has degree at least one. */
  lemma BuildNoIsolated(rows: seq<Row>)
    ensures forall n :: n in Build(rows).kind ==> Degree(Build(rows), n) > 0
  {
    var g := Build(rows);
    BuildValid(rows);
    BuildNodes(rows);
    BuildEdges(rows);
    forall n | n in g.kind ensures Degree(g, n) > 0 {
      var r :| r in rows && Kept(r) && (r.localizacao == n || r.decade == n);
      assert Pair(r) in Pairs(rows);
      if r.localizacao == n {
        EdgeCountPositive(g.edges, OutOf(n), Pair(r));
      } else {
        EdgeCountPositive(g.edges, Into(n), Pair(r));
      }
    }
  }

  /** Two rows for the same place and decade, (5 trials, 2 deaths) and
      (3, 1), give one edge carrying 8 trials and 3 deaths. */
  lemma TwoRowsOneEdge()
    ensures var r1 := Row(Some("N"), "1600", 5, 2, None, None, Some(true), "X, N");
            var r2 := Row(Some("N"), "1600", 3, 1, None, None, Some(true), "X, N");
            var g := Build([r1, r2]);
            g.edges == [("X, N", "1600")] && g.acc[("X, N", "1600")] == Acc(8, 3)
  {
    var r1 := Row(Some("N"), "1600", 5, 2, None, None, Some(true), "X, N");
    var r2 := Row(Some("N"), "1600", 3, 1, None, None, Some(true), "X, N");
    assert [r1, r2][..1] == [r1];
    assert [r1][..0] == [];
    assert Kept(r1) && Kept(r2);
    var e := ("X, N", "1600");
    var g0 := AddLabels(EmptyGraph(), r1);
    assert g0.edges == [] && g0.acc == map[];
    var g1 := Build([r1]);
    assert Build([r1][..0]) == EmptyGraph();
    assert g1 == Step(EmptyGraph(), r1);
    assert g1 == WithCounts(g0, e, Acc(5, 2));
    assert g1.edges == [e] && g1.acc == map[e := Acc(5, 2)];
  }
}
