/** The exploratory script: an undirected networkx `Graph` built straight from
    the raw CSV rows, the per-region totals over its edges, the same-country
    pairing of locations, the peaks of the decade series and the proximity
    edges between the deadliest regions.

    Labels are strings: a location is the first truthy of a row's city, adm2,
    adm1 and adm0 cells, and a decade, which pandas reads as a number, is
    labelled by its decimal digits and ordered by its value. */
module Teste {
  import opened Common
  import opened Graphs

  // ---------------------------------------------------------------------------
  // The rows and the location rule
  // ---------------------------------------------------------------------------

  /** A raw row of the CSV file; None is pandas' NaN. */
  datatype Linha = Linha(
    city: Option<string>, adm2: Option<string>, adm1: Option<string>, adm0: Option<string>,
    decade: Option<string>, tried: Option<int>, deaths: Option<int>)

  /** Python's truth value of a cell: NaN is a non-zero float and so true; a
      string is true unless it is empty. */
  predicate Verdadeiro(c: Option<string>)
  {
    c.None? || c.value != ""
  }

  /** `c0 or c1 or ...`: the position of the operand Python returns, which is
      the first true one, or the last one when none is true. */
  function Escolha(cs: seq<Option<string>>): (k: nat)
    requires cs != []
    ensures k < |cs|
    ensures forall j :: 0 <= j < k ==> !Verdadeiro(cs[j])
    ensures Verdadeiro(cs[k]) || k == |cs| - 1
  {
    if |cs| == 1 || Verdadeiro(cs[0]) then 0 else 1 + Escolha(cs[1..])
  }

  /** `row['city'] or row['gadm.adm2'] or row['gadm.adm1'] or row['gadm.adm0']`. */
  function LocalDe(l: Linha): Option<string>
  {
    var cs := [l.city, l.adm2, l.adm1, l.adm0];
    cs[Escolha(cs)]
  }

  /** A missing city is NaN, which is true, so it is the location and the row
      is later dropped; a present non-empty city is always the location; an
      empty city gives way to the first present non-empty level after it, and
      with no such level the location is the country cell as it is. */
  lemma LocalDeSpec(l: Linha)
    ensures l.city.None? ==> LocalDe(l).None?
    ensures l.city.Some? && l.city.value != "" ==> LocalDe(l) == l.city
    ensures l.city == Some("") && Verdadeiro(l.adm2) ==> LocalDe(l) == l.adm2
    ensures l.city == Some("") && l.adm2 == Some("") && Verdadeiro(l.adm1) ==> LocalDe(l) == l.adm1
    ensures l.city == Some("") && l.adm2 == Some("") && l.adm1 == Some("") ==> LocalDe(l) == l.adm0
  {
    var cs := [l.city, l.adm2, l.adm1, l.adm0];
    var k := Escolha(cs);
    if k > 0 { assert !Verdadeiro(cs[0]); }
    if k > 1 { assert !Verdadeiro(cs[1]); }
    if k > 2 { assert !Verdadeiro(cs[2]); }
  }

  /** `pd.notna(local) and pd.notna(decada)`: the rows the loop uses. */
  predicate Usada(l: Linha)
  {
    LocalDe(l).Some? && l.decade.Some?
  }

  function Lugar(l: Linha): Label
    requires Usada(l)
  {
    LocalDe(l).value
  }

  function Periodo(l: Linha): Label
    requires Usada(l)
  {
    l.decade.value
  }

  /** `int(row['tried']) if pd.notna(row['tried']) else 0`, and the same for
      deaths. */
  function Contagem(l: Linha): Acc
  {
    Acc(l.tried.GetOr(0), l.deaths.GetOr(0))
  }

  // ---------------------------------------------------------------------------
  // The undirected graph
  // ---------------------------------------------------------------------------

  /** The `tipo` attribute of a node. */
  datatype Tipo = TipoLocal | TipoDecada

  /** An undirected graph: nodes in insertion order with their `tipo`, edges in
      insertion order, each as the pair it was added with, and the
      `julgamentos`/`mortes` attributes per edge key. */
  datatype Rede = Rede(nodes: seq<Label>, tipo: map<Label, Tipo>, edges: seq<Edge>, acc: map<set<Label>, Acc>)

  function RedeVazia(): Rede
  {
    Rede([], map[], [], map[])
  }

  /** `add_node(n, tipo=t)`: the attribute is replaced on an existing node. */
  function ComNo(g: Rede, n: Label, t: Tipo): Rede
  {
    g.(nodes := if n in g.tipo then g.nodes else g.nodes + [n], tipo := g.tipo[n := t])
  }

  /** The edge update of one iteration: add into an existing edge, or add the
      edge with the counts. */
  function ComContagem(g: Rede, u: Label, v: Label, a: Acc): Rede
  {
    var k := Chave((u, v));
    if k in g.acc then g.(acc := g.acc[k := g.acc[k].Plus(a)])
    else g.(edges := g.edges + [(u, v)], acc := g.acc[k := a])
  }

  /** One iteration of the build loop. */
  function Passo(g: Rede, l: Linha): Rede
  {
    if !Usada(l) then g
    else ComContagem(ComNo(ComNo(g, Lugar(l), TipoLocal), Periodo(l), TipoDecada), Lugar(l), Periodo(l), Contagem(l))
  }

  /** The graph the loop leaves after the given rows. */
  function Montar(ls: seq<Linha>): Rede
  {
    if ls == [] then RedeVazia() else Passo(Montar(ls[..|ls| - 1]), ls[|ls| - 1])
  }

  /** A networkx `Graph` restricted to the calls the script makes. */
  class Grafo {
    var nodes: seq<Label>
    var tipo: map<Label, Tipo>
    var edges: seq<Edge>
    var acc: map<set<Label>, Acc>

    function Model(): Rede
      reads this
    {
      Rede(nodes, tipo, edges, acc)
    }

    /** `nx.Graph()`. */
    constructor ()
      ensures Model() == RedeVazia()
    {
      nodes, tipo, edges, acc := [], map[], [], map[];
    }

    /** `add_node(n, tipo=t)`. */
    method AddNode(n: Label, t: Tipo)
      modifies this
      ensures Model() == ComNo(old(Model()), n, t)
    {
      if n !in tipo {
        nodes := nodes + [n];
      }
      tipo := tipo[n := t];
    }

    /** `has_edge(u, v)`, in either direction. */
    method HasEdge(u: Label, v: Label) returns (b: bool)
      ensures b <==> Chave((u, v)) in Model().acc
    {
      b := {u, v} in acc;
    }

    /** `G[u][v]['julgamentos'] += ...; G[u][v]['mortes'] += ...`. */
    method AccumulateEdge(u: Label, v: Label, a: Acc)
      requires Chave((u, v)) in acc
      modifies this
      ensures Model() == ComContagem(old(Model()), u, v, a)
    {
      acc := acc[{u, v} := acc[{u, v}].Plus(a)];
    }

    /** `add_edge(u, v, julgamentos=..., mortes=...)` for a new edge. */
    method AddEdge(u: Label, v: Label, a: Acc)
      requires Chave((u, v)) !in acc
      modifies this
      ensures Model() == ComContagem(old(Model()), u, v, a)
    {
      edges := edges + [(u, v)];
      acc := acc[{u, v} := a];
    }
  }

  /** The module-level build loop of the script. */
  method ConstruirGrafo(df: seq<Linha>) returns (g: Grafo)
    ensures fresh(g)
    ensures g.Model() == Montar(df)
  {
    g := new Grafo();
    for i := 0 to |df|
      invariant g.Model() == Montar(df[..i])
    {
      assert df[..i + 1][..i] == df[..i];
      var row := df[i];
      var local := LocalDe(row);
      var decada := row.decade;
      var julgamentos := if row.tried.Some? then row.tried.value else 0;
      var mortes := if row.deaths.Some? then row.deaths.value else 0;
      if local.Some? && decada.Some? {
        g.AddNode(local.value, TipoLocal);
        g.AddNode(decada.value, TipoDecada);
        var temAresta := g.HasEdge(local.value, decada.value);
        if temAresta {
          g.AccumulateEdge(local.value, decada.value, Acc(julgamentos, mortes));
        } else {
          g.AddEdge(local.value, decada.value, Acc(julgamentos, mortes));
        }
      }
    }
    assert df[..|df|] == df;
  }

  // ---------------------------------------------------------------------------
  // What the rows determine
  // ---------------------------------------------------------------------------

  /** The locations of the used rows. */
  function Lugares(ls: seq<Linha>): set<Label>
  {
    set l | l in ls && Usada(l) :: Lugar(l)
  }

  /** The decades of the used rows. */
  function Periodos(ls: seq<Linha>): set<Label>
  {
    set l | l in ls && Usada(l) :: Periodo(l)
  }

  /** The edge keys of the used rows. */
  function Chaves(ls: seq<Linha>): set<set<Label>>
  {
    set l | l in ls && Usada(l) :: Chave((Lugar(l), Periodo(l)))
  }

  /** No label is both a location and a decade. */
  predicate Separados(ls: seq<Linha>)
  {
    Lugares(ls) !! Periodos(ls)
  }

  /** The locations and decades of the rows grow by those of the last row. */
  lemma UltimaLinhaRotulos(ls: seq<Linha>)
    requires ls != []
    ensures var p, l := ls[..|ls| - 1], ls[|ls| - 1];
      && Lugares(ls) == Lugares(p) + (if Usada(l) then {Lugar(l)} else {})
      && Periodos(ls) == Periodos(p) + (if Usada(l) then {Periodo(l)} else {})
  {
    InDropLast(ls);
  }

  lemma UltimaLinha(ls: seq<Linha>)
    requires ls != []
    ensures var p, l := ls[..|ls| - 1], ls[|ls| - 1];
      && Lugares(ls) == Lugares(p) + (if Usada(l) then {Lugar(l)} else {})
      && Periodos(ls) == Periodos(p) + (if Usada(l) then {Periodo(l)} else {})
      && Chaves(ls) == Chaves(p) + (if Usada(l) then {Chave((Lugar(l), Periodo(l)))} else {})
  {
    UltimaLinhaRotulos(ls);
    InDropLast(ls);
  }

  /** The types after one more row: a used row types its location `local`
      and then its decade `decada`. */
  lemma MontarTipoPasso(ls: seq<Linha>)
    requires ls != []
    ensures var p, l := ls[..|ls| - 1], ls[|ls| - 1];
      Montar(ls).tipo == if Usada(l) then Montar(p).tipo[Lugar(l) := TipoLocal][Periodo(l) := TipoDecada] else Montar(p).tipo
  {
  }

  /** Edge keys in the edge list are pairwise different. */
  predicate ChavesDistintas(es: seq<Edge>)
  {
    forall i, j :: 0 <= i < j < |es| ==> Chave(es[i]) != Chave(es[j])
  }

  /** The node list of a built graph: distinct, and exactly the locations and
      decades of the used rows. */
  ghost predicate FormaNos(g: Rede, ls: seq<Linha>)
  {
    && Distinct(g.nodes)
    && (forall n :: n in g.tipo ==> n in g.nodes)
    && (forall n :: n in g.nodes ==> n in g.tipo)
    && g.tipo.Keys == Lugares(ls) + Periodos(ls)
  }

  /** The edge list of a built graph: one edge per key, from a location to a
      decade, and exactly the keys of the used rows. */
  ghost predicate FormaArestas(g: Rede, ls: seq<Linha>)
  {
    && (forall e :: e in g.edges ==> e.0 in Lugares(ls) && e.1 in Periodos(ls))
    && ChavesDistintas(g.edges)
    && g.acc.Keys == Chaves(ls)
    && g.acc.Keys == set e | e in g.edges :: Chave(e)
  }

  /** `add_node` keeps the node list distinct and in step with the
      attribute map, and adds its node to the map's keys. */
  lemma ComNoNos(g: Rede, n: Label, t: Tipo)
    requires Distinct(g.nodes)
    requires forall m :: m in g.tipo <==> m in g.nodes
    ensures var h := ComNo(g, n, t);
      && Distinct(h.nodes)
      && (forall m :: m in h.tipo <==> m in h.nodes)
      && h.tipo.Keys == g.tipo.Keys + {n}
      && h.edges == g.edges && h.acc == g.acc
  {
    if n !in g.tipo {
      DistinctAppend(g.nodes, n);
    }
  }

  lemma {:induction false} MontarNos(ls: seq<Linha>)
    ensures FormaNos(Montar(ls), ls)
  {
    if ls != [] {
      var p, l := ls[..|ls| - 1], ls[|ls| - 1];
      MontarNos(p);
      UltimaLinhaRotulos(ls);
      if Usada(l) {
        var g := Montar(p);
        ComNoNos(g, Lugar(l), TipoLocal);
        var g1 := ComNo(g, Lugar(l), TipoLocal);
        ComNoNos(g1, Periodo(l), TipoDecada);
        var g2 := ComNo(g1, Periodo(l), TipoDecada);
        MontarNoPasso(ls);
      }
    }
  }

  /** The nodes after a used row are those of the two `add_node` calls. */
  lemma MontarNoPasso(ls: seq<Linha>)
    requires ls != [] && Usada(ls[|ls| - 1])
    ensures var p, l := ls[..|ls| - 1], ls[|ls| - 1];
      var g2 := ComNo(ComNo(Montar(p), Lugar(l), TipoLocal), Periodo(l), TipoDecada);
      Montar(ls).nodes == g2.nodes && Montar(ls).tipo == g2.tipo
  {
  }

  /** The edge update of one iteration keeps one edge per key and adds the
      row's key. */
  lemma ComContagemArestas(g: Rede, u: Label, v: Label, a: Acc)
    requires ChavesDistintas(g.edges)
    requires g.acc.Keys == set e | e in g.edges :: Chave(e)
    ensures var h := ComContagem(g, u, v, a);
      && ChavesDistintas(h.edges)
      && h.acc.Keys == (set e | e in h.edges :: Chave(e))
      && h.acc.Keys == g.acc.Keys + {Chave((u, v))}
      && (forall e :: e in h.edges ==> e in g.edges || e == (u, v))
  {
    if Chave((u, v)) !in g.acc {
      var es := g.edges + [(u, v)];
      forall i, j | 0 <= i < j < |es| ensures Chave(es[i]) != Chave(es[j]) {
        if j == |es| - 1 {
          assert es[i] in g.edges;
        }
      }
      assert (set x | x in es :: Chave(x)) == (set x | x in g.edges :: Chave(x)) + {Chave((u, v))};
    }
  }

  lemma {:induction false} MontarArestas(ls: seq<Linha>)
    ensures FormaArestas(Montar(ls), ls)
  {
    if ls != [] {
      var p, l := ls[..|ls| - 1], ls[|ls| - 1];
      MontarArestas(p);
      UltimaLinha(ls);
      if Usada(l) {
        var g := Montar(p);
        var g2 := ComNo(ComNo(g, Lugar(l), TipoLocal), Periodo(l), TipoDecada);
        assert g2.edges == g.edges && g2.acc == g.acc;
        ComContagemArestas(g2, Lugar(l), Periodo(l), Contagem(l));
        assert Montar(ls) == ComContagem(g2, Lugar(l), Periodo(l), Contagem(l));
      }
    }
  }

  /** With no label both a location and a decade, every location node is
      typed `local` and every decade node `decada`. */
  lemma {:induction false} MontarTipos(ls: seq<Linha>)
    requires Separados(ls)
    ensures forall n :: n in Lugares(ls) ==> n in Montar(ls).tipo && Montar(ls).tipo[n] == TipoLocal
    ensures forall n :: n in Periodos(ls) ==> n in Montar(ls).tipo && Montar(ls).tipo[n] == TipoDecada
  {
    if ls != [] {
      var p, l := ls[..|ls| - 1], ls[|ls| - 1];
      UltimaLinhaRotulos(ls);
      MontarTipoPasso(ls);
      MontarTipos(p);
    }
  }

  // ---------------------------------------------------------------------------
  // Sums over edges
  // ---------------------------------------------------------------------------

  /** The sum of f over a sequence of edges. */
  function Soma(es: seq<Edge>, f: Edge -> Acc): Acc
  {
    if es == [] then Zero else Soma(es[..|es| - 1], f).Plus(f(es[|es| - 1]))
  }

  lemma {:induction false} SomaConcat(a: seq<Edge>, b: seq<Edge>, f: Edge -> Acc)
    ensures Soma(a + b, f) == Soma(a, f).Plus(Soma(b, f))
  {
    if b == [] {
      assert a + b == a;
    } else {
      SomaConcat(a, b[..|b| - 1], f);
      ConcatDropLast(a, b);
    }
  }

  /** The attributes of the edge an entry names (`data`). */
  function Dados(g: Rede, e: Edge): Acc
  {
    if Chave(e) in g.acc then g.acc[Chave(e)] else Zero
  }

  /** The counts of an edge when n is one of its ends. */
  function DeNo(acc: map<set<Label>, Acc>, e: Edge, n: Label): Acc
  {
    if n in Chave(e) && Chave(e) in acc then acc[Chave(e)] else Zero
  }

  /** The counts on the edges at a node (`G.edges(n, data=True)`). */
  function SomaIncidente(acc: map<set<Label>, Acc>, es: seq<Edge>, n: Label): Acc
  {
    if es == [] then Zero else SomaIncidente(acc, es[..|es| - 1], n).Plus(DeNo(acc, es[|es| - 1], n))
  }

  /** The counts of the used rows whose location or decade is n: for a
      location, the trials and deaths of the region; for a decade, those of
      the decade. */
  function TotalDe(ls: seq<Linha>, n: Label): Acc
  {
    if ls == [] then Zero
    else
      var l := ls[|ls| - 1];
      TotalDe(ls[..|ls| - 1], n).Plus(if Usada(l) && (Lugar(l) == n || Periodo(l) == n) then Contagem(l) else Zero)
  }

  lemma {:induction false} SomaIncidenteConcat(acc: map<set<Label>, Acc>, a: seq<Edge>, b: seq<Edge>, n: Label)
    ensures SomaIncidente(acc, a + b, n) == SomaIncidente(acc, a, n).Plus(SomaIncidente(acc, b, n))
    decreases |b|
  {
    if b == [] {
      assert a + b == a;
    } else {
      var b', x := b[..|b| - 1], b[|b| - 1];
      SomaIncidenteConcat(acc, a, b', n);
      ConcatDropLast(a, b);
    }
  }

  /** Changing the counts of a key no edge has changes no sum. */
  lemma {:induction false} SomaIncidenteOutraChave(acc: map<set<Label>, Acc>, es: seq<Edge>, n: Label, k: set<Label>, x: Acc)
    requires forall e :: e in es ==> Chave(e) != k
    ensures SomaIncidente(acc[k := x], es, n) == SomaIncidente(acc, es, n)
    decreases |es|
  {
    if es != [] {
      InDropLast(es);
      SomaIncidenteOutraChave(acc, es[..|es| - 1], n, k, x);
    }
  }

  /** Adding into the counts of the one edge with a key adds to the sum of
      both its ends. */
  lemma SomaIncidenteSobe(acc: map<set<Label>, Acc>, pre: seq<Edge>, e0: Edge, post: seq<Edge>, n: Label, c: Acc)
    requires Chave(e0) in acc
    requires forall e :: e in pre ==> Chave(e) != Chave(e0)
    requires forall e :: e in post ==> Chave(e) != Chave(e0)
    ensures SomaIncidente(acc[Chave(e0) := acc[Chave(e0)].Plus(c)], pre + [e0] + post, n)
         == SomaIncidente(acc, pre + [e0] + post, n).Plus(if n in Chave(e0) then c else Zero)
  {
    var k := Chave(e0);
    var acc2 := acc[k := acc[k].Plus(c)];
    SomaIncidenteConcat(acc2, pre + [e0], post, n);
    SomaIncidenteConcat(acc, pre + [e0], post, n);
    SomaIncidenteOutraChave(acc, pre, n, k, acc[k].Plus(c));
    SomaIncidenteOutraChave(acc, post, n, k, acc[k].Plus(c));
    assert (pre + [e0])[..|pre|] == pre;
  }

  /** With one edge per key, the edges before and after an edge have other
      keys. */
  lemma UmaPorChave(es: seq<Edge>, i: int)
    requires ChavesDistintas(es) && 0 <= i < |es|
    ensures forall e :: e in es[..i] ==> Chave(e) != Chave(es[i])
    ensures forall e :: e in es[i + 1..] ==> Chave(e) != Chave(es[i])
  {
    forall e | e in es[..i] ensures Chave(e) != Chave(es[i]) {
      var j :| 0 <= j < i && es[..i][j] == e;
      assert es[j] == e;
    }
    forall e | e in es[i + 1..] ensures Chave(e) != Chave(es[i]) {
      var j :| 0 <= j < |es| - i - 1 && es[i + 1..][j] == e;
      assert es[i + 1 + j] == e;
    }
  }

  /** A new edge adds its counts to the sums of both its ends. */
  lemma SomaIncidenteNova(acc: map<set<Label>, Acc>, es: seq<Edge>, n: Label, e: Edge, c: Acc)
    requires forall x :: x in es ==> Chave(x) != Chave(e)
    ensures SomaIncidente(acc[Chave(e) := c], es + [e], n) == SomaIncidente(acc, es, n).Plus(if n in Chave(e) then c else Zero)
  {
    SomaIncidenteOutraChave(acc, es, n, Chave(e), c);
    assert (es + [e])[..|es|] == es;
  }

  /** In a built graph, the edge with the key of a location u and a decade v
      is the pair (u, v) itself, as long as u is not a decade and v not a
      location. */
  lemma ArestaDaChave(ls: seq<Linha>, u: Label, v: Label) returns (i: nat)
    requires Chave((u, v)) in Montar(ls).acc
    requires u !in Periodos(ls) && v !in Lugares(ls)
    ensures i < |Montar(ls).edges| && Montar(ls).edges[i] == (u, v)
    ensures ChavesDistintas(Montar(ls).edges)
  {
    MontarArestas(ls);
    var es := Montar(ls).edges;
    var e0 :| e0 in es && Chave(e0) == Chave((u, v));
    i :| 0 <= i < |es| && es[i] == e0;
    assert e0.0 in Lugares(ls) && e0.1 in Periodos(ls);
    assert e0.0 in Chave((u, v)) && e0.1 in Chave((u, v));
    assert u in Chave(e0) && v in Chave(e0);
  }

  /** In a built graph, an edge key that is not there belongs to no edge. */
  lemma ChaveAusente(ls: seq<Linha>, k: set<Label>)
    requires k !in Montar(ls).acc
    ensures forall e :: e in Montar(ls).edges ==> Chave(e) != k
  {
    MontarArestas(ls);
  }

  /** The totals on a node's edges are the totals of the rows that name it:
      repeated rows add into the one edge of their (location, decade) pair. */
  lemma {:induction false} MontarIncidente(ls: seq<Linha>, n: Label)
    requires Separados(ls)
    ensures SomaIncidente(Montar(ls).acc, Montar(ls).edges, n) == TotalDe(ls, n)
  {
    if ls == [] {
      assert Montar(ls) == RedeVazia();
      assert SomaIncidente(Montar(ls).acc, Montar(ls).edges, n) == Zero;
    } else {
      var p, l := ls[..|ls| - 1], ls[|ls| - 1];
      UltimaLinha(ls);
      MontarIncidente(p, n);
      if Usada(l) {
        var g := Montar(p);
        var u, v, c := Lugar(l), Periodo(l), Contagem(l);
        var k := Chave((u, v));
        var g2 := ComNo(ComNo(g, u, TipoLocal), v, TipoDecada);
        assert g2.edges == g.edges && g2.acc == g.acc;
        assert Montar(ls) == ComContagem(g2, u, v, c);
        var es := g.edges;
        var d := if u == n || v == n then c else Zero;
        assert TotalDe(ls, n) == TotalDe(p, n).Plus(d);
        if k in g.acc {
          var i := ArestaDaChave(p, u, v);
          SplitAt(es, i);
          UmaPorChave(es, i);
          SomaIncidenteSobe(g.acc, es[..i], (u, v), es[i + 1..], n, c);
          assert Montar(ls).edges == es && Montar(ls).acc == g.acc[k := g.acc[k].Plus(c)];
          assert SomaIncidente(Montar(ls).acc, Montar(ls).edges, n) == SomaIncidente(g.acc, es, n).Plus(d);
        } else {
          ChaveAusente(p, k);
          SomaIncidenteNova(g.acc, es, n, (u, v), c);
          assert Montar(ls).edges == es + [(u, v)] && Montar(ls).acc == g.acc[k := c];
          assert SomaIncidente(Montar(ls).acc, Montar(ls).edges, n) == SomaIncidente(g.acc, es, n).Plus(d);
        }
        assert SomaIncidente(Montar(ls).acc, Montar(ls).edges, n) == TotalDe(ls, n);
      } else {
        assert Montar(ls) == Montar(p);
        assert TotalDe(ls, n) == TotalDe(p, n).Plus(Zero);
        PlusZero(TotalDe(p, n));
        assert SomaIncidente(Montar(ls).acc, Montar(ls).edges, n) == TotalDe(ls, n);
      }
    }
  }

  // ---------------------------------------------------------------------------
  // `G.edges()`: the order in which networkx reports an undirected graph's edges
  // ---------------------------------------------------------------------------

  predicate Incide(e: Edge, n: Label)
  {
    e.0 == n || e.1 == n
  }

  /** The other end of an edge seen from n. */
  function Outro(e: Edge, n: Label): Label
  {
    if e.0 == n then e.1 else e.0
  }

  /** `G[n]`: the neighbours of n, in the order their edges were added. */
  function Vizinhos(es: seq<Edge>, n: Label): seq<Label>
  {
    if es == [] then []
    else Vizinhos(es[..|es| - 1], n) + (if Incide(es[|es| - 1], n) then [Outro(es[|es| - 1], n)] else [])
  }

  /** The entries reported from n: one per neighbour not visited yet. */
  function Novos(n: Label, ms: seq<Label>, vistos: seq<Label>): seq<Edge>
  {
    if ms == [] then []
    else Novos(n, ms[..|ms| - 1], vistos) + (if ms[|ms| - 1] in vistos then [] else [(n, ms[|ms| - 1])])
  }

  /** `G.edges()`: node by node in insertion order, each edge reported as
      (u, v) from the first of its ends to be visited, u. */
  function Visao(nodes: seq<Label>, es: seq<Edge>): seq<Edge>
  {
    if nodes == [] then []
    else
      var i := |nodes| - 1;
      Visao(nodes[..i], es) + Novos(nodes[i], Vizinhos(es, nodes[i]), nodes[..i])
  }

  /** The edges reported from n, as they were added. */
  function Dono(es: seq<Edge>, n: Label, vistos: seq<Label>): seq<Edge>
  {
    if es == [] then []
    else
      var e := es[|es| - 1];
      Dono(es[..|es| - 1], n, vistos) + (if Incide(e, n) && Outro(e, n) !in vistos then [e] else [])
  }

  /** The sums of f over the edges reported from each node in turn. */
  function SomaDonos(nodes: seq<Label>, es: seq<Edge>, f: Edge -> Acc): Acc
  {
    if nodes == [] then Zero
    else
      var i := |nodes| - 1;
      SomaDonos(nodes[..i], es, f).Plus(Soma(Dono(es, nodes[i], nodes[..i]), f))
  }

  /** f(e) once for every node that reports e. */
  function Vezes(nodes: seq<Label>, e: Edge, f: Edge -> Acc): Acc
  {
    if nodes == [] then Zero
    else
      var i := |nodes| - 1;
      Vezes(nodes[..i], e, f).Plus(if Incide(e, nodes[i]) && Outro(e, nodes[i]) !in nodes[..i] then f(e) else Zero)
  }

  lemma {:induction false} NovosConcat(n: Label, a: seq<Label>, b: seq<Label>, vistos: seq<Label>)
    ensures Novos(n, a + b, vistos) == Novos(n, a, vistos) + Novos(n, b, vistos)
    decreases |b|
  {
    if b == [] {
      assert a + b == a;
    } else {
      NovosConcat(n, a, b[..|b| - 1], vistos);
      ConcatDropLast(a, b);
    }
  }

  /** What a one-neighbour list reports. */
  lemma NovosUm(n: Label, m: Label, vistos: seq<Label>, f: Edge -> Acc)
    ensures Soma(Novos(n, [m], vistos), f) == if m in vistos then Zero else f((n, m))
  {
    assert [m][..0] == [];
    if m !in vistos {
      assert Novos(n, [m], vistos) == [(n, m)];
      assert [(n, m)][..0] == [];
      PlusZero(f((n, m)));
    }
  }

  /** Seen from either end, an edge weighs the same under a sum blind to
      direction. */
  lemma VistaDeN(e: Edge, n: Label, f: Edge -> Acc)
    requires Incide(e, n) && f(e) == f((e.1, e.0))
    ensures f((n, Outro(e, n))) == f(e)
  {
    if e.0 == n {
      assert (n, Outro(e, n)) == e;
    } else {
      assert (n, Outro(e, n)) == (e.1, e.0);
    }
  }

  /** What n reports sums like the edges n owns, for a sum blind to direction. */
  lemma {:induction false} NovosSoma(es: seq<Edge>, n: Label, vistos: seq<Label>, f: Edge -> Acc)
    requires forall e :: e in es ==> f(e) == f((e.1, e.0))
    ensures Soma(Novos(n, Vizinhos(es, n), vistos), f) == Soma(Dono(es, n, vistos), f)
    decreases |es|
  {
    if es != [] {
      var p, e := es[..|es| - 1], es[|es| - 1];
      assert es == p + [e];
      assert forall x :: x in p ==> x in es;
      assert f(e) == f((e.1, e.0));
      NovosSoma(p, n, vistos, f);
      var x := if Incide(e, n) then [Outro(e, n)] else [];
      assert Vizinhos(es, n) == Vizinhos(p, n) + x;
      NovosConcat(n, Vizinhos(p, n), x, vistos);
      SomaConcat(Novos(n, Vizinhos(p, n), vistos), Novos(n, x, vistos), f);
      DonoUltima(p, e, n, vistos, f);
      var d := if Incide(e, n) && Outro(e, n) !in vistos then f(e) else Zero;
      if Incide(e, n) {
        NovosUm(n, Outro(e, n), vistos, f);
        VistaDeN(e, n, f);
        assert Soma(Novos(n, x, vistos), f) == d;
      } else {
        assert Novos(n, x, vistos) == [];
      }
    }
  }

  lemma {:induction false} VisaoDonos(nodes: seq<Label>, es: seq<Edge>, f: Edge -> Acc)
    requires forall e :: e in es ==> f(e) == f((e.1, e.0))
    ensures Soma(Visao(nodes, es), f) == SomaDonos(nodes, es, f)
    decreases |nodes|
  {
    if nodes != [] {
      var i := |nodes| - 1;
      VisaoDonos(nodes[..i], es, f);
      SomaConcat(Visao(nodes[..i], es), Novos(nodes[i], Vizinhos(es, nodes[i]), nodes[..i]), f);
      NovosSoma(es, nodes[i], nodes[..i], f);
    }
  }

  /** One more edge adds f(e) to what n reports when n reports it. */
  lemma DonoUltima(es: seq<Edge>, e: Edge, n: Label, vistos: seq<Label>, f: Edge -> Acc)
    ensures Soma(Dono(es + [e], n, vistos), f)
         == Soma(Dono(es, n, vistos), f).Plus(if Incide(e, n) && Outro(e, n) !in vistos then f(e) else Zero)
  {
    assert (es + [e])[..|es|] == es;
    var d := Dono(es, n, vistos);
    if Incide(e, n) && Outro(e, n) !in vistos {
      assert Dono(es + [e], n, vistos) == d + [e];
      assert (d + [e])[..|d|] == d;
    } else {
      assert Dono(es + [e], n, vistos) == d + [];
      assert d + [] == d;
      PlusZero(Soma(d, f));
    }
  }

  lemma {:induction false} SomaDonosUltima(nodes: seq<Label>, es: seq<Edge>, e: Edge, f: Edge -> Acc)
    ensures SomaDonos(nodes, es + [e], f) == SomaDonos(nodes, es, f).Plus(Vezes(nodes, e, f))
    decreases |nodes|
  {
    if nodes != [] {
      var i := |nodes| - 1;
      SomaDonosUltima(nodes[..i], es, e, f);
      DonoUltima(es, e, nodes[i], nodes[..i], f);
    }
  }

  /** Over distinct nodes, an edge with an end among them is reported exactly
      once. */
  lemma {:induction false} VezesUma(nodes: seq<Label>, e: Edge, f: Edge -> Acc)
    requires Distinct(nodes)
    ensures Vezes(nodes, e, f) == if e.0 in nodes || e.1 in nodes then f(e) else Zero
    decreases |nodes|
  {
    if nodes != [] {
      var i := |nodes| - 1;
      var p, n := nodes[..i], nodes[i];
      VezesUma(p, e, f);
      InDropLast(nodes);
      if e.0 in p || e.1 in p {
        assert !(Incide(e, n) && Outro(e, n) !in p);
        PlusZero(f(e));
      } else {
        PlusZero(Vezes(p, e, f));
        PlusZero(f(e));
      }
    }
  }

  lemma {:induction false} SomaDonosVazia(nodes: seq<Label>, f: Edge -> Acc)
    ensures SomaDonos(nodes, [], f) == Zero
    decreases |nodes|
  {
    if nodes != [] {
      SomaDonosVazia(nodes[..|nodes| - 1], f);
    }
  }

  lemma {:induction false} SomaDonosTotal(nodes: seq<Label>, es: seq<Edge>, f: Edge -> Acc)
    requires Distinct(nodes)
    requires forall e :: e in es ==> e.0 in nodes
    ensures SomaDonos(nodes, es, f) == Soma(es, f)
    decreases |es|
  {
    if es == [] {
      SomaDonosVazia(nodes, f);
    } else {
      var p, e := es[..|es| - 1], es[|es| - 1];
      assert es == p + [e];
      assert e in es;
      SomaDonosTotal(nodes, p, f);
      SomaDonosUltima(nodes, p, e, f);
      VezesUma(nodes, e, f);
    }
  }

  /** `G.edges()` reports every edge exactly once: a sum that does not depend
      on the direction an edge is reported in is the same over the view as
      over the edges. */
  lemma VisaoSoma(nodes: seq<Label>, es: seq<Edge>, f: Edge -> Acc)
    requires Distinct(nodes)
    requires forall e :: e in es ==> e.0 in nodes && e.1 in nodes
    requires forall e :: e in es ==> f(e) == f((e.1, e.0))
    ensures Soma(Visao(nodes, es), f) == Soma(es, f)
  {
    VisaoDonos(nodes, es, f);
    SomaDonosTotal(nodes, es, f);
  }

  // ---------------------------------------------------------------------------
  // `analise_regioes`
  // ---------------------------------------------------------------------------

  /** The `tipo` test of the loop: the end of an entry that is a location,
      the first end first; None when neither is. */
  function LocalDaAresta(g: Rede, e: Edge): Option<Label>
  {
    if e.0 in g.tipo && g.tipo[e.0] == TipoLocal then Some(e.0)
    else if e.1 in g.tipo && g.tipo[e.1] == TipoLocal then Some(e.1)
    else None
  }

  /** The two `defaultdict`s of the loop, which always have the same keys:
      the keys in insertion order and the totals per key. */
  datatype Tabela = Tabela(chaves: seq<Label>, total: map<Label, Acc>)

  /** `regioes_julgamentos[local] += ...; regioes_mortes[local] += ...`. */
  function Somar(t: Tabela, n: Label, a: Acc): Tabela
  {
    if n in t.total then t.(total := t.total[n := t.total[n].Plus(a)])
    else Tabela(t.chaves + [n], t.total[n := a])
  }

  /** The dictionaries after the loop has seen the given entries. */
  function Regioes(g: Rede, v: seq<Edge>): Tabela
    decreases |v|
  {
    if v == [] then Tabela([], map[])
    else
      var t, e := Regioes(g, v[..|v| - 1]), v[|v| - 1];
      match LocalDaAresta(g, e)
      case None => t
      case Some(n) => Somar(t, n, Dados(g, e))
  }

  /** Which of the two dictionaries a ranking sorts. */
  datatype Medida = PorJulgamentos | PorMortes

  function Valor(a: Acc, m: Medida): int
  {
    if m == PorJulgamentos then a.julgamentos else a.mortes
  }

  /** `regioes_<m>.items()`: (region, total) in insertion order. */
  function Itens(t: Tabela, ks: seq<Label>, m: Medida): seq<(Label, int)>
  {
    if ks == [] then []
    else
      var k := ks[|ks| - 1];
      Itens(t, ks[..|ks| - 1], m) + [(k, if k in t.total then Valor(t.total[k], m) else 0)]
  }

  /** The region dictionaries of a graph. */
  function RegioesDe(g: Rede): Tabela
  {
    Regioes(g, Visao(g.nodes, g.edges))
  }

  /** `sorted(regioes_<m>.items(), key=lambda x: x[1], reverse=True)[:10]`. */
  function TopRegioes(g: Rede, m: Medida): seq<(Label, int)>
  {
    var t := RegioesDe(g);
    Head(SortDesc(Itens(t, t.chaves, m), Segundo), 10)
  }

  /** The loop of `analise_regioes` over the given entries of the edge view. */
  method AcumularRegioes(g: Rede, v: seq<Edge>) returns (chaves: seq<Label>, total: map<Label, Acc>)
    ensures Tabela(chaves, total) == Regioes(g, v)
  {
    chaves, total := [], map[];
    for i := 0 to |v|
      invariant Tabela(chaves, total) == Regioes(g, v[..i])
    {
      assert v[..i + 1][..i] == v[..i];
      var u, w := v[i].0, v[i].1;
      var local: Label;
      if u in g.tipo && g.tipo[u] == TipoLocal {
        local := u;
      } else if w in g.tipo && g.tipo[w] == TipoLocal {
        local := w;
      } else {
        continue;
      }
      var dados := Dados(g, v[i]);
      if local in total {
        total := total[local := total[local].Plus(dados)];
      } else {
        chaves := chaves + [local];
        total := total[local := dados];
      }
    }
    assert v[..|v|] == v;
  }

  /** `analise_regioes(G)`: one pass over `G.edges()`, then the two rankings. */
  method AnaliseRegioes(g: Rede) returns (topJulgamentos: seq<(Label, int)>, topMortes: seq<(Label, int)>)
    ensures topJulgamentos == TopRegioes(g, PorJulgamentos)
    ensures topMortes == TopRegioes(g, PorMortes)
  {
    var chaves, total := AcumularRegioes(g, Visao(g.nodes, g.edges));
    var t := Tabela(chaves, total);
    topJulgamentos := Head(SortDesc(Itens(t, chaves, PorJulgamentos), Segundo), 10);
    topMortes := Head(SortDesc(Itens(t, chaves, PorMortes), Segundo), 10);
  }

  /** What the loop adds to region n for one entry of the view. */
  function ParaLocal(g: Rede, n: Label): Edge -> Acc
  {
    e => if LocalDaAresta(g, e) == Some(n) then Dados(g, e) else Zero
  }

  /** One trial for every entry of the view that the loop files under n. */
  function Marca(g: Rede, n: Label): Edge -> Acc
  {
    e => if LocalDaAresta(g, e) == Some(n) then Acc(1, 0) else Zero
  }

  /** The regions the loop files some entry under. */
  function Arquivadas(g: Rede, v: seq<Edge>): set<Label>
    decreases |v|
  {
    if v == [] then {}
    else
      var e := v[|v| - 1];
      Arquivadas(g, v[..|v| - 1]) + (if LocalDaAresta(g, e).Some? then {LocalDaAresta(g, e).value} else {})
  }

  /** A region is filed under exactly when some entry has it as its location. */
  lemma {:induction false} ArquivadasSpec(g: Rede, v: seq<Edge>, n: Label)
    ensures n in Arquivadas(g, v) <==> exists i :: 0 <= i < |v| && LocalDaAresta(g, v[i]) == Some(n)
    decreases |v|
  {
    if v != [] {
      var p := v[..|v| - 1];
      ArquivadasSpec(g, p, n);
      if n in Arquivadas(g, p) {
        var i :| 0 <= i < |p| && LocalDaAresta(g, p[i]) == Some(n);
        assert v[i] == p[i];
      }
      if i :| 0 <= i < |v| && LocalDaAresta(g, v[i]) == Some(n) {
        if i < |p| {
          assert p[i] == v[i];
        }
      }
    }
  }

  /** The marks count the entries filed under n. */
  lemma {:induction false} MarcaConta(g: Rede, v: seq<Edge>, n: Label)
    ensures Soma(v, Marca(g, n)).julgamentos >= 0
    ensures Soma(v, Marca(g, n)).julgamentos > 0 <==> n in Arquivadas(g, v)
    decreases |v|
  {
    if v != [] {
      var p, e := v[..|v| - 1], v[|v| - 1];
      MarcaConta(g, p, n);
      assert Soma(v, Marca(g, n)).julgamentos == Soma(p, Marca(g, n)).julgamentos + Marca(g, n)(e).julgamentos;
    }
  }

  /** A region the loop never files anything under gets nothing. */
  lemma {:induction false} ParaLocalFora(g: Rede, v: seq<Edge>, n: Label)
    requires n !in Arquivadas(g, v)
    ensures Soma(v, ParaLocal(g, n)) == Zero
    decreases |v|
  {
    if v != [] {
      var p, e := v[..|v| - 1], v[|v| - 1];
      ParaLocalFora(g, p, n);
      assert ParaLocal(g, n)(e) == Zero;
      PlusZero(Zero);
    }
  }

  /** The regions filed are exactly those some entry is filed under. */
  lemma {:induction false} RegioesFiled(g: Rede, v: seq<Edge>)
    ensures Regioes(g, v).total.Keys == Arquivadas(g, v)
    decreases |v|
  {
    if v != [] {
      var p, e := v[..|v| - 1], v[|v| - 1];
      RegioesFiled(g, p);
      var t0 := Regioes(g, p);
      if LocalDaAresta(g, e).Some? {
        var n := LocalDaAresta(g, e).value;
        assert Regioes(g, v) == Somar(t0, n, Dados(g, e));
        assert Somar(t0, n, Dados(g, e)).total.Keys == t0.total.Keys + {n};
      }
    }
  }

  /** The order list holds each region once, and exactly the regions filed. */
  lemma {:induction false} RegioesOrdem(g: Rede, v: seq<Edge>)
    ensures var t := Regioes(g, v);
      Distinct(t.chaves) && (forall n :: n in t.chaves <==> n in t.total)
    decreases |v|
  {
    if v != [] {
      var p, e := v[..|v| - 1], v[|v| - 1];
      RegioesOrdem(g, p);
      var t0 := Regioes(g, p);
      if LocalDaAresta(g, e).Some? && LocalDaAresta(g, e).value !in t0.total {
        DistinctAppend(t0.chaves, LocalDaAresta(g, e).value);
      }
    }
  }

  /** The keys of the dictionaries: each region once, in the order it was
      first met, and exactly the regions some entry is filed under. */
  lemma RegioesChaves(g: Rede, v: seq<Edge>)
    ensures var t := Regioes(g, v);
      && Distinct(t.chaves)
      && (forall n :: n in t.chaves <==> n in t.total)
      && t.total.Keys == Arquivadas(g, v)
  {
    RegioesFiled(g, v);
    RegioesOrdem(g, v);
  }

  /** Each region's totals are the counts of the entries filed under it. */
  lemma {:induction false} RegioesTotais(g: Rede, v: seq<Edge>, n: Label)
    requires n in Regioes(g, v).total
    ensures Regioes(g, v).total[n] == Soma(v, ParaLocal(g, n))
    decreases |v|
  {
    var p, e := v[..|v| - 1], v[|v| - 1];
    var f := ParaLocal(g, n);
    var t0, t := Regioes(g, p), Regioes(g, v);
    var antes := Soma(p, f);
    assert Soma(v, f) == antes.Plus(f(e));
    if LocalDaAresta(g, e) == Some(n) {
      assert f(e) == Dados(g, e);
      if n in t0.total {
        assert t.total[n] == t0.total[n].Plus(Dados(g, e));
        RegioesTotais(g, p, n);
      } else {
        assert t.total[n] == Dados(g, e);
        RegioesChaves(g, p);
        ParaLocalFora(g, p, n);
        PlusZero(Dados(g, e));
      }
    } else {
      assert f(e) == Zero;
      assert n in t0.total && t.total[n] == t0.total[n];
      RegioesTotais(g, p, n);
      PlusZero(antes);
    }
  }

  /** The items of the dictionary, one per key, in key order. */
  lemma {:induction false} ItensSpec(t: Tabela, ks: seq<Label>, m: Medida)
    ensures |Itens(t, ks, m)| == |ks|
    ensures forall i :: 0 <= i < |ks| ==> Itens(t, ks, m)[i] == (ks[i], if ks[i] in t.total then Valor(t.total[ks[i]], m) else 0)
  {
    if ks != [] {
      ItensSpec(t, ks[..|ks| - 1], m);
    }
  }

  /** The reported ranking: at most ten regions, in decreasing order, each
      with its total, and tied regions in the order they were first met. */
  lemma TopRegioesOrdem(g: Rede, m: Medida)
    ensures var t, r := RegioesDe(g), TopRegioes(g, m);
      && |r| == (if |t.chaves| < 10 then |t.chaves| else 10)
      && NonIncreasing(r, Segundo)
      && (forall p :: p in r ==> p.0 in t.total && p.1 == Valor(t.total[p.0], m))
      && (forall k :: WithKey(r, Segundo, k) <= WithKey(Itens(t, t.chaves, m), Segundo, k))
  {
    var t := RegioesDe(g);
    var its := Itens(t, t.chaves, m);
    var r := TopRegioes(g, m);
    TopN(its, Segundo, 10);
    TopNStable(its, Segundo, 10);
    RegioesChaves(g, Visao(g.nodes, g.edges));
    ItensSpec(t, t.chaves, m);
    forall p | p in r
      ensures p.0 in t.total && p.1 == Valor(t.total[p.0], m)
    {
      var i :| 0 <= i < |its| && its[i] == p;
    }
  }

  /** No region left out of the ranking has a larger total than one
      reported. */
  lemma TopRegioesTopo(g: Rede, m: Medida, n: Label)
    requires n in RegioesDe(g).total
    requires (n, Valor(RegioesDe(g).total[n], m)) !in TopRegioes(g, m)
    ensures forall p :: p in TopRegioes(g, m) ==> p.1 >= Valor(RegioesDe(g).total[n], m)
  {
    var t := RegioesDe(g);
    var its := Itens(t, t.chaves, m);
    RegioesChaves(g, Visao(g.nodes, g.edges));
    ItensSpec(t, t.chaves, m);
    TopNLeftOut(its, Segundo, 10);
    var i :| 0 <= i < |t.chaves| && t.chaves[i] == n;
    var x := its[i];
    assert x == (n, Valor(t.total[n], m)) && x in its;
    forall p | p in TopRegioes(g, m) ensures p.1 >= x.1 {
      assert Segundo(p) >= Segundo(x);
    }
  }

  /** In a built graph every edge runs from a location node to a decade
      node, so the loop files both of its orientations under its location. */
  lemma OrientacaoMontada(ls: seq<Linha>)
    requires Separados(ls)
    ensures var g := Montar(ls);
      forall e :: e in g.edges ==>
        && e.0 in g.nodes && e.1 in g.nodes
        && LocalDaAresta(g, e) == Some(e.0)
        && LocalDaAresta(g, (e.1, e.0)) == Some(e.0)
  {
    MontarNos(ls);
    MontarArestas(ls);
    MontarTipos(ls);
  }

  /** An entry filed under its first end, whose other end is not n. */
  predicate DaRegiao(g: Rede, e: Edge, n: Label)
  {
    LocalDaAresta(g, e) == Some(e.0) && e.1 != n
  }

  lemma ParaLocalDeNo(g: Rede, e: Edge, n: Label)
    requires DaRegiao(g, e, n)
    ensures ParaLocal(g, n)(e) == DeNo(g.acc, e, n)
  {
    assert (n in Chave(e)) == (e.0 == n);
  }

  /** Over entries filed under their first end, which is never n's partner,
      the region sums are the sums over the edges at the region. */
  lemma {:induction false} SomaLocalIncidente(g: Rede, es: seq<Edge>, n: Label)
    requires forall e :: e in es ==> DaRegiao(g, e, n)
    ensures Soma(es, ParaLocal(g, n)) == SomaIncidente(g.acc, es, n)
    decreases |es|
  {
    if es != [] {
      var p, e := es[..|es| - 1], es[|es| - 1];
      assert es == p + [e];
      SomaLocalIncidente(g, p, n);
      ParaLocalDeNo(g, e, n);
    }
  }

  /** Every location of a used row is the first end of an edge. */
  lemma LugarNasArestas(ls: seq<Linha>, n: Label) returns (i: nat)
    requires Separados(ls) && n in Lugares(ls)
    ensures i < |Montar(ls).edges| && Montar(ls).edges[i].0 == n
  {
    var l :| l in ls && Usada(l) && Lugar(l) == n;
    MontarArestas(ls);
    assert Chave((n, Periodo(l))) in Chaves(ls);
    i := ArestaDaChave(ls, n, Periodo(l));
  }

  /** Both counting functions give an edge and its reverse the same value on
      the built graph, so the view of the edges sums like the edges. */
  lemma MontarSimetrica(ls: seq<Linha>, n: Label)
    requires Separados(ls)
    ensures var g := Montar(ls);
      && Soma(Visao(g.nodes, g.edges), Marca(g, n)) == Soma(g.edges, Marca(g, n))
      && Soma(Visao(g.nodes, g.edges), ParaLocal(g, n)) == Soma(g.edges, ParaLocal(g, n))
  {
    var g := Montar(ls);
    OrientacaoMontada(ls);
    MontarNos(ls);
    forall e | e in g.edges
      ensures ParaLocal(g, n)(e) == ParaLocal(g, n)((e.1, e.0))
      ensures Marca(g, n)(e) == Marca(g, n)((e.1, e.0))
    {
      assert Chave((e.1, e.0)) == Chave(e);
    }
    VisaoSoma(g.nodes, g.edges, Marca(g, n));
    VisaoSoma(g.nodes, g.edges, ParaLocal(g, n));
  }

  /** The regions of the built graph are exactly the locations of the used
      rows. */
  lemma RegioesDoGrafoChaves(ls: seq<Linha>, n: Label)
    requires Separados(ls)
    ensures n in RegioesDe(Montar(ls)).total <==> n in Lugares(ls)
  {
    var g := Montar(ls);
    var v := Visao(g.nodes, g.edges);
    MontarSimetrica(ls, n);
    RegioesChaves(g, v);
    MarcaConta(g, v, n);
    MarcaConta(g, g.edges, n);
    assert n in RegioesDe(g).total <==> n in Arquivadas(g, g.edges);
    OrientacaoMontada(ls);
    MontarArestas(ls);
    ArquivadasSpec(g, g.edges, n);
    if n in Lugares(ls) {
      var i := LugarNasArestas(ls, n);
      assert g.edges[i] in g.edges;
    }
  }

  /** Each region's totals on the built graph are the trials and deaths of
      its rows, summed over all decades. */
  lemma RegioesDoGrafoTotal(ls: seq<Linha>, n: Label)
    requires Separados(ls) && n in RegioesDe(Montar(ls)).total
    ensures RegioesDe(Montar(ls)).total[n] == TotalDe(ls, n)
  {
    var g := Montar(ls);
    var v := Visao(g.nodes, g.edges);
    MontarSimetrica(ls, n);
    RegioesTotais(g, v, n);
    OrientacaoMontada(ls);
    MontarArestas(ls);
    RegioesDoGrafoChaves(ls, n);
    SomaLocalIncidente(g, g.edges, n);
    MontarIncidente(ls, n);
  }

  /** `analise_regioes` on the graph built from the rows: the regions are
      exactly the locations of the used rows, and each region's totals are
      the trials and deaths of its rows, summed over all decades. */
  lemma RegioesDoGrafo(ls: seq<Linha>, n: Label)
    requires Separados(ls)
    ensures n in RegioesDe(Montar(ls)).total <==> n in Lugares(ls)
    ensures n in RegioesDe(Montar(ls)).total ==> RegioesDe(Montar(ls)).total[n] == TotalDe(ls, n)
  {
    RegioesDoGrafoChaves(ls, n);
    if n in RegioesDe(Montar(ls)).total {
      RegioesDoGrafoTotal(ls, n);
    }
  }

  // ---------------------------------------------------------------------------
  // `correlacao_geografica`
  // ---------------------------------------------------------------------------

  /** The nodes of ns with type t, in order. */
  function NosDoTipo(g: Rede, ns: seq<Label>, t: Tipo): seq<Label>
  {
    if ns == [] then []
    else
      var n := ns[|ns| - 1];
      NosDoTipo(g, ns[..|ns| - 1], t) + (if n in g.tipo && g.tipo[n] == t then [n] else [])
  }

  /** `[n for n in G.nodes() if G.nodes[n]['tipo'] == 'local']`. */
  function Locais(g: Rede): seq<Label>
  {
    NosDoTipo(g, g.nodes, TipoLocal)
  }

  lemma {:induction false} NosDoTipoSpec(g: Rede, ns: seq<Label>, t: Tipo)
    ensures forall n :: n in NosDoTipo(g, ns, t) <==> n in ns && n in g.tipo && g.tipo[n] == t
    ensures Distinct(ns) ==> Distinct(NosDoTipo(g, ns, t))
  {
    if ns != [] {
      var p, n := ns[..|ns| - 1], ns[|ns| - 1];
      NosDoTipoSpec(g, p, t);
      assert ns == p + [n];
      if Distinct(ns) {
        assert Distinct(p) && n !in p;
        if n in g.tipo && g.tipo[n] == t {
          assert NosDoTipo(g, ns, t) == NosDoTipo(g, p, t) + [n];
          DistinctAppend(NosDoTipo(g, p, t), n);
        } else {
          assert NosDoTipo(g, ns, t) == NosDoTipo(g, p, t);
        }
      }
    }
  }

  /** Both names have at least two comma-separated parts, and their last
      parts are equal once trimmed: the same country. */
  predicate MesmoPais(a: Label, b: Label)
  {
    var pa, pb := Split(a, ','), Split(b, ',');
    |pa| > 1 && |pb| > 1 && Strip(pa[|pa| - 1]) == Strip(pb[|pb| - 1])
  }

  /** `sum(data['julgamentos'] for _, _, data in G.edges(n, data=True))`. */
  function JulgamentosEm(g: Rede, n: Label): int
  {
    SomaIncidente(g.acc, g.edges, n).julgamentos
  }

  /** The list `correlacoes`: the trial totals of both ends of each edge of
      `geo_graph`, in the order `geo_graph.edges()` reports them. */
  function Correlacoes(g: Rede, v: seq<Edge>): seq<(int, int)>
  {
    if v == [] then []
    else
      var e := v[|v| - 1];
      Correlacoes(g, v[..|v| - 1]) + [(JulgamentosEm(g, e.0), JulgamentosEm(g, e.1))]
  }

  /** `correlacao_geografica(G, df)` without the plot: the nodes and edges of
      `geo_graph`, and `correlacoes`. */
  method CorrelacaoGeografica(g: Rede) returns (nos: seq<Label>, arestas: seq<Edge>, correlacoes: seq<(int, int)>)
    ensures nos == Locais(g)
    ensures arestas == Pares(nos, MesmoPais)
    ensures correlacoes == Correlacoes(g, Visao(nos, arestas))
  {
    nos := Locais(g);
    arestas := Parear(nos, MesmoPais);
    var v := Visao(nos, arestas);
    correlacoes := [];
    for i := 0 to |v|
      invariant correlacoes == Correlacoes(g, v[..i])
    {
      assert v[..i + 1][..i] == v[..i];
      correlacoes := correlacoes + [(JulgamentosEm(g, v[i].0), JulgamentosEm(g, v[i].1))];
    }
    assert v[..|v|] == v;
  }

  lemma SplitAyr()
    ensures Split("Ayr, Fife", ',') == ["Ayr", " Fife"]
  {
    SplitNoSep(" Fife", ',');
    SplitJoin("Ayr", " Fife", ',');
    assert "Ayr, Fife" == "Ayr" + [','] + " Fife";
  }

  lemma SplitLeith()
    ensures Split("Leith,Fife ", ',') == ["Leith", "Fife "]
  {
    SplitNoSep("Fife ", ',');
    SplitJoin("Leith", "Fife ", ',');
    assert "Leith,Fife " == "Leith" + [','] + "Fife ";
  }

  lemma StripFife()
    ensures Strip(" Fife") == "Fife" && Strip("Fife ") == "Fife"
  {
    assert TrimStart(" Fife") == TrimStart("Fife") == "Fife";
    assert TrimEnd("Fife") == "Fife";
    assert TrimStart("Fife ") == "Fife ";
    assert TrimEnd("Fife ") == TrimEnd("Fife");
  }

  /** Two names in the same county once the part after the last comma is
      trimmed; a name without a comma is paired with nothing. */
  lemma MesmoPaisExemplo()
    ensures MesmoPais("Ayr, Fife", "Leith,Fife ")
    ensures !MesmoPais("Fife", "Leith,Fife ")
  {
    SplitAyr();
    SplitLeith();
    StripFife();
    var pa, pb := Split("Ayr, Fife", ','), Split("Leith,Fife ", ',');
    assert |pa| == 2 && pa[1] == " Fife";
    assert |pb| == 2 && pb[1] == "Fife ";
    SplitNoSep("Fife", ',');
    assert |Split("Fife", ',')| == 1;
  }

  function Um(e: Edge): Acc
  {
    Acc(1, 0)
  }

  lemma {:induction false} ContaUm(es: seq<Edge>)
    ensures Soma(es, Um).julgamentos == |es|
  {
    if es != [] {
      ContaUm(es[..|es| - 1]);
    }
  }

  lemma {:induction false} CorrelacoesSpec(g: Rede, v: seq<Edge>)
    ensures |Correlacoes(g, v)| == |v|
    ensures forall k :: 0 <= k < |v| ==> Correlacoes(g, v)[k] == (JulgamentosEm(g, v[k].0), JulgamentosEm(g, v[k].1))
  {
    if v != [] {
      CorrelacoesSpec(g, v[..|v| - 1]);
    }
  }

  /** `correlacoes` has one entry per same-country pair of location nodes,
      however `geo_graph.edges()` orders and orients them. */
  lemma CorrelacaoGeograficaSpec(g: Rede)
    requires Distinct(g.nodes)
    ensures Distinct(Locais(g))
    ensures var nos := Locais(g);
      var ps := Pares(nos, MesmoPais);
      |Correlacoes(g, Visao(nos, ps))| == |ps|
  {
    var nos := Locais(g);
    var ps := Pares(nos, MesmoPais);
    NosDoTipoSpec(g, g.nodes, TipoLocal);
    ParesSpec(nos, MesmoPais);
    forall e | e in ps
      ensures e.0 in nos && e.1 in nos
    {
      var a, b :| 0 <= a < b < |nos| && e == (nos[a], nos[b]) && MesmoPais(nos[a], nos[b]);
    }
    VisaoSoma(nos, ps, Um);
    ContaUm(ps);
    ContaUm(Visao(nos, ps));
    CorrelacoesSpec(g, Visao(nos, ps));
  }

  /** In the graph built from the rows, the location nodes are the locations
      of the used rows, each once. */
  lemma LocaisDoGrafo(ls: seq<Linha>)
    requires Separados(ls)
    ensures Distinct(Locais(Montar(ls)))
    ensures forall n :: n in Locais(Montar(ls)) <==> n in Lugares(ls)
  {
    var g := Montar(ls);
    MontarNos(ls);
    MontarTipos(ls);
    NosDoTipoSpec(g, g.nodes, TipoLocal);
  }

  /** In the graph built from the rows, the trials a node's edges carry are
      the trials of the rows that name it. */
  lemma JulgamentosDoGrafo(ls: seq<Linha>, n: Label)
    requires Separados(ls)
    ensures JulgamentosEm(Montar(ls), n) == TotalDe(ls, n).julgamentos
  {
    MontarIncidente(ls, n);
  }

  // ---------------------------------------------------------------------------
  // `padroes_temporais`
  // ---------------------------------------------------------------------------

  /** The number a decade label stands for. pandas reads the `decade` column
      as numbers, so the script's decade nodes are numbers; the model labels
      each by its decimal digits, and a label that is not all digits, which a
      numeric column never gives, counts as -1. */
  function NumeroDecada(d: Label): int
  {
    if IsDigits(d) then DigitsValue(d) else -1
  }

  /** The label is the decimal form of its number, as `str` writes an int. */
  predicate Canonica(d: Label)
  {
    IsDigits(d) && Decimal(DigitsValue(d)) == d
  }

  /** `sorted([n for n in G.nodes() if G.nodes[n]['tipo'] == 'decada'])`:
      the decades in numeric order. */
  function Decadas(g: Rede): seq<Label>
  {
    SortAsc(NosDoTipo(g, g.nodes, TipoDecada), NumeroDecada)
  }

  /** Sorting different decades by their number keeps them different and the
      same ones, in numeric order. */
  lemma SortDecadasDistinct(ns: seq<Label>)
    requires Distinct(ns)
    ensures var ds := SortAsc(ns, NumeroDecada);
      && NonDecreasing(ds, NumeroDecada) && Distinct(ds)
      && forall x :: x in ds <==> x in ns
  {
    var ds := SortAsc(ns, NumeroDecada);
    SortAscSpec(ns, NumeroDecada);
    forall x ensures multiset(ds)[x] <= 1 {
      DistinctCount(ns, x);
    }
    CountsDistinct(ds);
    forall x ensures x in ds <==> x in ns {
      assert x in ds <==> x in multiset(ds);
      assert x in ns <==> x in multiset(ns);
    }
  }

  /** Two different labels written as `str` writes their numbers have
      different numbers. */
  lemma CanonicasDiferem(a: Label, b: Label)
    requires Canonica(a) && Canonica(b) && a != b
    ensures NumeroDecada(a) != NumeroDecada(b)
  {
  }

  /** Different decades written as `str` writes their numbers have different
      numbers, so a numeric order of them is strictly increasing. */
  lemma CanonicasCrescem(ds: seq<Label>)
    requires NonDecreasing(ds, NumeroDecada) && Distinct(ds)
    requires forall d :: d in ds ==> Canonica(d)
    ensures forall i, j :: 0 <= i < j < |ds| ==> NumeroDecada(ds[i]) < NumeroDecada(ds[j])
  {
    DistinctIndices(ds);
    forall i, j | 0 <= i < j < |ds|
      ensures NumeroDecada(ds[i]) < NumeroDecada(ds[j])
    {
      assert ds[i] in ds && ds[j] in ds && ds[i] != ds[j];
      CanonicasDiferem(ds[i], ds[j]);
    }
  }

  /** The totals on the edges at each node of ds, by one measure. */
  function Serie(g: Rede, ds: seq<Label>, m: Medida): seq<int>
  {
    if ds == [] then []
    else Serie(g, ds[..|ds| - 1], m) + [Valor(SomaIncidente(g.acc, g.edges, ds[|ds| - 1]), m)]
  }

  /** `padroes_temporais(G)` without the plot: the sorted decades and the
      trials and deaths on each decade's edges. */
  method PadroesTemporais(g: Rede) returns (decadas: seq<Label>, julgamentos: seq<int>, mortes: seq<int>)
    ensures decadas == Decadas(g)
    ensures julgamentos == Serie(g, decadas, PorJulgamentos)
    ensures mortes == Serie(g, decadas, PorMortes)
  {
    decadas := Decadas(g);
    julgamentos, mortes := [], [];
    for i := 0 to |decadas|
      invariant julgamentos == Serie(g, decadas[..i], PorJulgamentos)
      invariant mortes == Serie(g, decadas[..i], PorMortes)
    {
      assert decadas[..i + 1][..i] == decadas[..i];
      var total := SomaIncidente(g.acc, g.edges, decadas[i]);
      julgamentos := julgamentos + [total.julgamentos];
      mortes := mortes + [total.mortes];
    }
    assert decadas[..|decadas|] == decadas;
  }

  lemma {:induction false} SerieSpec(g: Rede, ds: seq<Label>, m: Medida)
    ensures |Serie(g, ds, m)| == |ds|
    ensures forall i :: 0 <= i < |ds| ==> Serie(g, ds, m)[i] == Valor(SomaIncidente(g.acc, g.edges, ds[i]), m)
  {
    if ds != [] {
      SerieSpec(g, ds[..|ds| - 1], m);
    }
  }

  /** On the graph built from the rows, the decades are those of the used
      rows, each once and in numeric order (strictly increasing when every
      decade is written as `str` writes its number), and each one's totals
      are the trials and deaths of its rows. */
  lemma PadroesDoGrafo(ls: seq<Linha>, m: Medida)
    requires Separados(ls)
    ensures var ds := Decadas(Montar(ls));
      && NonDecreasing(ds, NumeroDecada)
      && ((forall d :: d in Periodos(ls) ==> Canonica(d)) ==>
            forall i, j :: 0 <= i < j < |ds| ==> NumeroDecada(ds[i]) < NumeroDecada(ds[j]))
      && Distinct(ds)
      && (forall d :: d in ds <==> d in Periodos(ls))
      && |Serie(Montar(ls), ds, m)| == |ds|
      && (forall i :: 0 <= i < |ds| ==> Serie(Montar(ls), ds, m)[i] == Valor(TotalDe(ls, ds[i]), m))
  {
    var g := Montar(ls);
    var ns := NosDoTipo(g, g.nodes, TipoDecada);
    var ds := Decadas(g);
    MontarNos(ls);
    MontarTipos(ls);
    NosDoTipoSpec(g, g.nodes, TipoDecada);
    SortDecadasDistinct(ns);
    if forall d :: d in Periodos(ls) ==> Canonica(d) {
      CanonicasCrescem(ds);
    }
    SerieSpec(g, ds, m);
    forall i | 0 <= i < |ds|
      ensures Serie(g, ds, m)[i] == Valor(TotalDe(ls, ds[i]), m)
    {
      MontarIncidente(ls, ds[i]);
    }
  }

  // ---------------------------------------------------------------------------
  // The peak rule of `padroes_temporais`
  // ---------------------------------------------------------------------------

  /** Position i has a neighbour on both sides and is strictly above both. */
  predicate EhPico(xs: seq<int>, i: int)
  {
    1 <= i < |xs| - 1 && xs[i] > xs[i - 1] && xs[i] > xs[i + 1]
  }

  /** The peaks below position k, in order. */
  function PicosAte(xs: seq<int>, k: nat): seq<nat>
    requires k <= |xs|
  {
    if k == 0 then [] else PicosAte(xs, k - 1) + (if EhPico(xs, k - 1) then [k - 1] else [])
  }

  /** The positions `for i in range(1, len(decadas) - 1)` annotates as a
      peak. */
  function Picos(xs: seq<int>): seq<nat>
  {
    PicosAte(xs, |xs|)
  }

  lemma {:induction false} PicosAteMembro(xs: seq<int>, k: nat, i: int)
    requires k <= |xs|
    ensures i in PicosAte(xs, k) <==> i < k && EhPico(xs, i)
  {
    if k > 0 {
      PicosAteMembro(xs, k - 1, i);
    }
  }

  /** Two peaks below k are never neighbours, and they come in order. */
  lemma {:induction false} PicosAteEspacados(xs: seq<int>, k: nat)
    requires k <= |xs|
    ensures forall a, b :: 0 <= a < b < |PicosAte(xs, k)| ==> PicosAte(xs, k)[a] + 1 < PicosAte(xs, k)[b]
  {
    if k > 0 {
      PicosAteEspacados(xs, k - 1);
      var p := PicosAte(xs, k - 1);
      var t := if EhPico(xs, k - 1) then [k - 1] else [];
      assert PicosAte(xs, k) == p + t;
      forall a, b | 0 <= a < b < |p + t| ensures (p + t)[a] + 1 < (p + t)[b] {
        if b < |p| {
          assert (p + t)[a] == p[a] && (p + t)[b] == p[b];
        } else {
          assert (p + t)[a] == p[a] && (p + t)[b] == k - 1;
          PicosAteMembro(xs, k - 1, p[a]);
          assert p[a] < k - 1 && EhPico(xs, p[a]) && EhPico(xs, k - 1);
        }
      }
    }
  }

  lemma PicosAteSpec(xs: seq<int>, k: nat)
    requires k <= |xs|
    ensures forall i :: i in PicosAte(xs, k) <==> i < k && EhPico(xs, i)
    ensures forall a, b :: 0 <= a < b < |PicosAte(xs, k)| ==> PicosAte(xs, k)[a] + 1 < PicosAte(xs, k)[b]
  {
    forall i ensures i in PicosAte(xs, k) <==> i < k && EhPico(xs, i) {
      PicosAteMembro(xs, k, i);
    }
    PicosAteEspacados(xs, k);
  }

  /** A position is reported exactly when it is a peak, so never the first
      or the last; the peaks come in increasing order and no two are
      neighbours. */
  lemma PicosSpec(xs: seq<int>)
    ensures forall i :: i in Picos(xs) <==> EhPico(xs, i)
    ensures forall i :: i in Picos(xs) ==> 0 < i < |xs| - 1
    ensures forall a, b :: 0 <= a < b < |Picos(xs)| ==> Picos(xs)[a] + 1 < Picos(xs)[b]
  {
    PicosAteSpec(xs, |xs|);
  }

  // ---------------------------------------------------------------------------
  // `regioes_letais_conectadas`
  // ---------------------------------------------------------------------------

  /** The name mentions one of `'Switzerland'`, `'Germany'` or `'Bayern'`. */
  predicate Proximo(n: Label)
  {
    Contains(n, "Switzerland") || Contains(n, "Germany") || Contains(n, "Bayern")
  }

  predicate AmbosProximos(a: Label, b: Label)
  {
    Proximo(a) && Proximo(b)
  }

  /** `[x[0] for x in top_mortes]`. */
  function Primeiros(top: seq<(Label, int)>): (r: seq<Label>)
    ensures |r| == |top| && forall i :: 0 <= i < |top| ==> r[i] == top[i].0
  {
    if top == [] then [] else Primeiros(top[..|top| - 1]) + [top[|top| - 1].0]
  }

  /** The subgraph of the deadliest regions: its nodes, its edge keys, and the
      keys of the edges marked `proximidade`. */
  datatype Subgrafo = Subgrafo(nos: set<Label>, arestas: set<set<Label>>, proximidade: set<set<Label>>)

  /** `G.subgraph(regioes).copy()`: the nodes of G among the regions and the
      edges of G between two of them. */
  function Induzido(g: Rede, regioes: seq<Label>): Subgrafo
  {
    Subgrafo(
      set n | n in g.nodes && n in regioes,
      set e | e in g.edges && e.0 in regioes && e.1 in regioes :: Chave(e),
      {})
  }

  /** `subgraph.add_edge(a, b, tipo='proximidade')` for each pair in turn. */
  function Ligar(s: Subgrafo, ps: seq<Edge>): Subgrafo
  {
    if ps == [] then s
    else
      var t, e := Ligar(s, ps[..|ps| - 1]), ps[|ps| - 1];
      Subgrafo(t.nos + {e.0, e.1}, t.arestas + {Chave(e)}, t.proximidade + {Chave(e)})
  }

  function Conectadas(g: Rede, regioes: seq<Label>): Subgrafo
  {
    Ligar(Induzido(g, regioes), Pares(regioes, AmbosProximos))
  }

  lemma LigarPasso(s: Subgrafo, ps: seq<Edge>, e: Edge)
    ensures Ligar(s, ps + [e]) == Subgrafo(Ligar(s, ps).nos + {e.0, e.1}, Ligar(s, ps).arestas + {Chave(e)}, Ligar(s, ps).proximidade + {Chave(e)})
  {
    assert (ps + [e])[..|ps|] == ps;
  }

  lemma {:induction false} LigarConcat(s: Subgrafo, a: seq<Edge>, b: seq<Edge>)
    ensures Ligar(s, a + b) == Ligar(Ligar(s, a), b)
    decreases |b|
  {
    if b == [] {
      assert a + b == a;
    } else {
      var p, e := b[..|b| - 1], b[|b| - 1];
      LigarConcat(s, a, p);
      assert b == p + [e];
      assert a + b == (a + p) + [e];
      LigarPasso(s, a + p, e);
      LigarPasso(Ligar(s, a), p, e);
    }
  }

  /** The nested loop of `regioes_letais_conectadas`: every pair i < j of
      regions whose names both mention one of the places gets an edge marked
      `proximidade`. */
  method LigarProximas(base: Subgrafo, regioes: seq<Label>) returns (sub: Subgrafo)
    ensures sub == Ligar(base, Pares(regioes, AmbosProximos))
  {
    sub := base;
    for i := 0 to |regioes|
      invariant sub == Ligar(base, ParesAte(regioes, AmbosProximos, i))
    {
      ghost var antes := sub;
      for j := 0 to |regioes|
        invariant sub == Ligar(antes, ParesDe(regioes, AmbosProximos, i, j))
      {
        var a, b := regioes[i], regioes[j];
        ghost var ps := ParesDe(regioes, AmbosProximos, i, j);
        if i < j && Proximo(a) && Proximo(b) {
          assert ParesDe(regioes, AmbosProximos, i, j + 1) == ps + [(a, b)];
          LigarPasso(antes, ps, (a, b));
          sub := Subgrafo(sub.nos + {a, b}, sub.arestas + {Chave((a, b))}, sub.proximidade + {Chave((a, b))});
        } else {
          assert ParesDe(regioes, AmbosProximos, i, j + 1) == ps;
        }
      }
      LigarConcat(base, ParesAte(regioes, AmbosProximos, i), ParesDe(regioes, AmbosProximos, i, |regioes|));
    }
  }

  /** The exception `min(node_colors)` raises on an empty list. */
  datatype Excecao = ValueError

  /** `regioes_letais_conectadas(G, top_mortes)` without the drawing: the
      subgraph, or the `ValueError` of `min(node_colors)` when the subgraph
      has no node to colour. Each node is one of the regions, which are the
      keys of `mortes_dict`, so the lookups that fill `node_colors` never
      fail. */
  method RegioesLetaisConectadas(g: Rede, topMortes: seq<(Label, int)>) returns (r: Result<Subgrafo, Excecao>)
    ensures r.Err? <==> Conectadas(g, Primeiros(topMortes)).nos == {}
    ensures r.Ok? ==> r.value == Conectadas(g, Primeiros(topMortes))
    ensures r.Ok? ==> forall n :: n in r.value.nos ==> n in Primeiros(topMortes)
  {
    var regioes := Primeiros(topMortes);
    var sub := LigarProximas(Induzido(g, regioes), regioes);
    ConectadasArestas(g, regioes);
    if sub.nos == {} {
      return Err(ValueError);
    }
    r := Ok(sub);
  }

  lemma {:induction false} LigarSpec(s: Subgrafo, ps: seq<Edge>)
    ensures Ligar(s, ps).nos == s.nos + (set e | e in ps :: e.0) + (set e | e in ps :: e.1)
    ensures Ligar(s, ps).arestas == s.arestas + (set e | e in ps :: Chave(e))
    ensures Ligar(s, ps).proximidade == s.proximidade + (set e | e in ps :: Chave(e))
  {
    if ps != [] {
      var p, e := ps[..|ps| - 1], ps[|ps| - 1];
      LigarSpec(s, p);
      assert ps == p + [e];
      assert (set x | x in ps :: x.0) == (set x | x in p :: x.0) + {e.0};
      assert (set x | x in ps :: x.1) == (set x | x in p :: x.1) + {e.1};
      assert (set x | x in ps :: Chave(x)) == (set x | x in p :: Chave(x)) + {Chave(e)};
    }
  }

  /** A pair of regions is marked `proximidade` exactly when both names
      mention one of the three places. */
  lemma ConectadasProximidade(g: Rede, regioes: seq<Label>)
    ensures var c := Conectadas(g, regioes);
      && (forall a, b :: 0 <= a < b < |regioes| && Proximo(regioes[a]) && Proximo(regioes[b]) ==>
            Chave((regioes[a], regioes[b])) in c.proximidade)
      && (forall k :: k in c.proximidade ==>
            exists a, b :: 0 <= a < b < |regioes| && k == Chave((regioes[a], regioes[b])) && Proximo(regioes[a]) && Proximo(regioes[b]))
  {
    var ps := Pares(regioes, AmbosProximos);
    LigarSpec(Induzido(g, regioes), ps);
    var prox := Conectadas(g, regioes).proximidade;
    assert prox == set e | e in ps :: Chave(e);
    forall a, b | 0 <= a < b < |regioes| && Proximo(regioes[a]) && Proximo(regioes[b])
      ensures Chave((regioes[a], regioes[b])) in prox
    {
      ParesAteSpec(regioes, AmbosProximos, |regioes|, (regioes[a], regioes[b]));
      assert ParAceito(regioes, AmbosProximos, a, b, (regioes[a], regioes[b]));
    }
    forall k | k in prox
      ensures exists a, b :: 0 <= a < b < |regioes| && k == Chave((regioes[a], regioes[b])) && Proximo(regioes[a]) && Proximo(regioes[b])
    {
      var e :| e in ps && k == Chave(e);
      ParesAteSpec(regioes, AmbosProximos, |regioes|, e);
      var a, b :| a < |regioes| && ParAceito(regioes, AmbosProximos, a, b, e);
    }
  }

  /** The subgraph keeps every edge of G between two regions and adds the
      marked ones; its nodes are the regions that are nodes of G, and the
      regions the marked edges join. */
  lemma ConectadasArestas(g: Rede, regioes: seq<Label>)
    ensures var c := Conectadas(g, regioes);
      && c.arestas == Induzido(g, regioes).arestas + c.proximidade
      && (forall n :: n in c.nos ==> n in regioes)
      && (forall n :: n in g.nodes && n in regioes ==> n in c.nos)
  {
    var ps := Pares(regioes, AmbosProximos);
    var base := Induzido(g, regioes);
    var c := Conectadas(g, regioes);
    LigarSpec(base, ps);
    assert c.arestas == base.arestas + c.proximidade;
    forall n | n in c.nos
      ensures n in regioes
    {
      if n !in base.nos {
        var e :| e in ps && (n == e.0 || n == e.1);
        ParesNoIntervalo(regioes, e);
      }
    }
    forall n | n in g.nodes && n in regioes
      ensures n in c.nos
    {
      assert n in base.nos;
    }
  }

  /** Both ends of a paired edge are among the regions. */
  lemma ParesNoIntervalo(regioes: seq<Label>, e: Edge)
    requires e in Pares(regioes, AmbosProximos)
    ensures e.0 in regioes && e.1 in regioes
  {
    ParesSpec(regioes, AmbosProximos);
    var a, b :| 0 <= a < b < |regioes| && e == (regioes[a], regioes[b]) && AmbosProximos(regioes[a], regioes[b]);
  }

  /** On the graph built from the rows, no two locations are joined, so the
      regions' subgraph has exactly the `proximidade` edges. */
  lemma ConectadasDoGrafo(ls: seq<Linha>, regioes: seq<Label>)
    requires Separados(ls)
    requires forall n :: n in regioes ==> n in Lugares(ls)
    ensures Induzido(Montar(ls), regioes).arestas == {}
    ensures Conectadas(Montar(ls), regioes).arestas == Conectadas(Montar(ls), regioes).proximidade
  {
    MontarArestas(ls);
    ConectadasArestas(Montar(ls), regioes);
  }

  /** On the graph built from the rows, the subgraph of some locations has no
      node exactly when there is no location to take. */
  lemma ConectadasVazias(ls: seq<Linha>, regioes: seq<Label>)
    requires forall n :: n in regioes ==> n in Lugares(ls)
    ensures Conectadas(Montar(ls), regioes).nos == {} <==> regioes == []
  {
    ConectadasArestas(Montar(ls), regioes);
    if regioes != [] {
      MontarNos(ls);
      assert regioes[0] in regioes;
      assert regioes[0] in Conectadas(Montar(ls), regioes).nos;
    }
  }

  /** The regions `top_mortes[:5]` names are locations of the rows, and
      there is one whenever some row was used. */
  lemma CincoLetais(ls: seq<Linha>)
    requires Separados(ls)
    ensures var g := Montar(ls);
      var regioes := Primeiros(Head(TopRegioes(g, PorMortes), 5));
      && (forall n :: n in regioes ==> n in Lugares(ls))
      && (Lugares(ls) != {} ==> regioes != [])
  {
    var g := Montar(ls);
    var top := TopRegioes(g, PorMortes);
    var cinco := Head(top, 5);
    var regioes := Primeiros(cinco);
    TopRegioesOrdem(g, PorMortes);
    forall n | n in regioes
      ensures n in Lugares(ls)
    {
      var i :| 0 <= i < |regioes| && regioes[i] == n;
      assert cinco[i] == top[i] && top[i] in top;
      RegioesDoGrafo(ls, n);
    }
    if n :| n in Lugares(ls) {
      RegioesDoGrafo(ls, n);
      RegioesOrdem(g, Visao(g.nodes, g.edges));
      assert |RegioesDe(g).chaves| > 0;
    }
  }

  /** The script's own call, `regioes_letais_conectadas(G, top_mortes[:5])`:
      the five regions `analise_regioes` ranks first by deaths are locations
      of the rows, so the subgraph has exactly the `proximidade` edges, and
      the call raises `ValueError` exactly when no row was used. */
  lemma RegioesLetaisDoGrafo(ls: seq<Linha>)
    requires Separados(ls)
    ensures var g := Montar(ls);
      var c := Conectadas(g, Primeiros(Head(TopRegioes(g, PorMortes), 5)));
      && c.arestas == c.proximidade
      && (c.nos == {} <==> Lugares(ls) == {})
  {
    var g := Montar(ls);
    var regioes := Primeiros(Head(TopRegioes(g, PorMortes), 5));
    CincoLetais(ls);
    ConectadasDoGrafo(ls, regioes);
    ConectadasVazias(ls, regioes);
    if regioes != [] {
      assert regioes[0] in regioes;
    }
  }
}
