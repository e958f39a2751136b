/** The stand-alone analysis class: it loads the trial table, preprocesses it
    into `df`, builds the graph `G` with the same loop as the package, and
    answers the same queries, each guarded so that an empty graph gives an
    empty table. Loading the CSV file is a parameter: `None` stands for a
    load that raised. */
module Teste3 {
  import opened Common
  import opened Graphs
  import opened Preprocessing
  import opened GraphBuilder
  import opened Visualization
  import opened Analysis

  /** The query results, as in the package, with the empty-graph guard in
      front: a guarded query answers the empty table. */
  function Guarded<T>(g: Graph, r: Result<seq<T>, TableError>): Result<seq<T>, TableError>
  {
    if g.nodes == [] then Ok([]) else r
  }

  /** `calcular_taxas_mortalidade_geral` of the class: three Nones without a
      table or with an empty one; otherwise the totals and the rate, which is
      0 unless the trials are positive. */
  function TaxasClasse(df: Option<seq<Row>>): Taxas
  {
    if df.None? || df.value == [] then Taxas(None, None, None)
    else
      var j, m := TotalJulgamentos(df.value), TotalMortes(df.value);
      Taxas(Some(j), Some(m), Some(Rate(m, j)))
  }

  /** `executar_analise_completa` of the class: the five queries in order, a
      `KeyError` from any of them propagating. */
  function AnaliseClasse(df: Option<seq<Row>>, g: Graph): Result<map<string, Valor>, TableError>
  {
    var paises := Guarded(g, RankTable(GroupRows(g, PorPais), 10));
    var locais := Guarded(g, RankTable(GroupRows(g, PorLocal), 10));
    var temporal := Guarded(g, DecadeTable(g));
    if paises.Err? then Err(paises.error)
    else if locais.Err? then Err(locais.error)
    else if temporal.Err? then Err(temporal.error)
    else Ok(Resultado(paises.value, locais.value, temporal.value,
                      if g.nodes == [] then [] else DistribuirGeograficamente(g), TaxasClasse(df)))
  }

  /** `WitchTrialsAnalysis`. */
  class WitchTrialsAnalysis {
    /** The preprocessed table; None when loading raised before `self.df`
        was set. */
    var df: Option<seq<Row>>
    var G: DiGraph

    /** What the constructor establishes: the graph is the one built from the
        table, or the empty graph when loading failed. */
    predicate Valid()
      reads this, G
    {
      if df.Some? then G.Model() == Build(df.value) else G.Model() == EmptyGraph()
    }

    /** `__init__(arquivo_dados)`: preprocess and build, or, when loading
        raises, keep an empty graph. */
    constructor (arquivo: Option<seq<RawRow>>)
      ensures Valid() && fresh(G)
      ensures arquivo.None? ==> df.None?
      ensures arquivo.Some? ==> df == Some(PreprocessarDados(arquivo.value))
    {
      if arquivo.None? {
        df := None;
        G := new DiGraph();
      } else {
        var tabela := PreprocessarDados(arquivo.value);
        var grafo := ConstruirGrafo(tabela);
        df := Some(tabela);
        G := grafo;
      }
    }

    /** `top_paises(n)`. */
    method TopPaises(n: int) returns (r: Result<seq<RankRow>, TableError>)
      requires Valid()
      ensures r == Guarded(G.Model(), RankTable(GroupRows(G.Model(), PorPais), n))
    {
      if |G.nodes| == 0 {
        return Ok([]);
      }
      r := Rank(G.Model(), PorPais, n);
    }

    /** `top_localizacoes(n)`. */
    method TopLocalizacoes(n: int) returns (r: Result<seq<RankRow>, TableError>)
      requires Valid()
      ensures r == Guarded(G.Model(), RankTable(GroupRows(G.Model(), PorLocal), n))
    {
      if |G.nodes| == 0 {
        return Ok([]);
      }
      r := Rank(G.Model(), PorLocal, n);
    }

    /** `analisar_temporal()`. */
    method AnalisarTemporal() returns (r: Result<seq<DecadeRow>, TableError>)
      requires Valid()
      ensures r == Guarded(G.Model(), DecadeTable(G.Model()))
    {
      if |G.nodes| == 0 {
        return Ok([]);
      }
      r := JulgamentosPorDecada(G.Model());
    }

    /** `analisar_distribuicao_geografica()`: the located nodes in node
        order, each with its out-edge totals. */
    method AnalisarDistribuicaoGeografica() returns (geo: seq<GeoRow>)
      requires Valid()
      ensures geo == (if G.Model().nodes == [] then [] else DistribuirGeograficamente(G.Model()))
    {
      var g := G.Model();
      geo := [];
      for i := 0 to |g.nodes|
        invariant geo == GeoRows(g, g.nodes[..i])
      {
        assert g.nodes[..i + 1][..i] == g.nodes[..i];
        var local := g.nodes[i];
        if HasCoords(g, local) {
          var t := OutSum(g, local);
          geo := geo + [GeoRow(local, t.julgamentos, t.mortes, g.kind[local].lat.value, g.kind[local].lon.value, g.kind[local].pais)];
        }
      }
      assert g.nodes[..|g.nodes|] == g.nodes;
    }

    /** `calcular_taxas_mortalidade_geral()`. */
    method CalcularTaxasMortalidadeGeral() returns (t: Taxas)
      ensures t == TaxasClasse(df)
    {
      if df.None? || |df.value| == 0 {
        return Taxas(None, None, None);
      }
      var j, m := TotalJulgamentos(df.value), TotalMortes(df.value);
      t := Taxas(Some(j), Some(m), Some(if j > 0 then m as real / j as real else 0.0));
    }

    /** `executar_analise_completa()`. */
    method ExecutarAnaliseCompleta() returns (r: Result<map<string, Valor>, TableError>)
      requires Valid()
      ensures r == AnaliseClasse(df, G.Model())
      ensures r == AnaliseClasse(df, if df.None? then EmptyGraph() else Build(df.value))
    {
      var paises := TopPaises(10);
      if paises.Err? {
        return Err(paises.error);
      }
      var locais := TopLocalizacoes(10);
      if locais.Err? {
        return Err(locais.error);
      }
      var temporal := AnalisarTemporal();
      if temporal.Err? {
        return Err(temporal.error);
      }
      var geo := AnalisarDistribuicaoGeografica();
      var taxas := CalcularTaxasMortalidadeGeral();
      r := Ok(Resultado(paises.value, locais.value, temporal.value, geo, taxas));
    }
  }

  // ---------------------------------------------------------------------------
  // What the class's results mean
  // ---------------------------------------------------------------------------

  /** Every row the class keeps has a country, so the build loop's second
      country test never skips one. */
  lemma {:induction false} PreprocessarDadosKept(raw: seq<RawRow>)
    ensures forall r :: r in PreprocessarDados(raw) ==> Kept(r)
  {
    if raw != [] {
      PreprocessarDadosKept(raw[..|raw| - 1]);
    }
  }

  /** A graph built from rows is empty exactly when no row has a country. */
  lemma BuildEmpty(rows: seq<Row>)
    ensures Build(rows).nodes == [] <==> forall r :: r in rows ==> !Kept(r)
  {
    BuildValid(rows);
    BuildNodes(rows);
    var g := Build(rows);
    if r :| r in rows && Kept(r) {
      assert r.localizacao in Locais(rows);
      assert r.localizacao in g.nodes;
    } else if g.nodes != [] {
      assert g.nodes[0] in g.kind;
    }
  }

  /** The class's graph is empty exactly when there is no table or the
      preprocessed table is empty, so the guards answer the empty table just
      for an empty or missing input; on a non-empty table every query is the
      package's. */
  lemma GuardsMeanEmptyInput(raw: Option<seq<RawRow>>)
    ensures var df := if raw.None? then None else Some(PreprocessarDados(raw.value));
      var g := if df.None? then EmptyGraph() else Build(df.value);
      && (g.nodes == [] <==> df.None? || df.value == [])
      && (g.nodes != [] ==> Guarded(g, RankTable(GroupRows(g, PorPais), 10)) == RankTable(GroupRows(g, PorPais), 10))
  {
    if raw.Some? {
      var rows := PreprocessarDados(raw.value);
      PreprocessarDadosKept(raw.value);
      BuildEmpty(rows);
      if rows != [] {
        assert rows[0] in rows;
      }
    }
  }

  /** The class's rate is the package's intended rate whenever the trials
      are not negative, and the two differ only for a negative total. */
  lemma TaxasClasseAgrees(rows: seq<Row>)
    requires rows != []
    ensures TotalJulgamentos(rows) >= 0 ==> TaxasClasse(Some(rows)) == CalcularTaxasMortalidadeGeral(rows)
  {
  }

  /** The full analysis of the class fails exactly when the graph is not
      empty and a ranking or the decade series of the package would fail;
      otherwise it has exactly the five keys. */
  lemma AnaliseClasseSpec(df: Option<seq<Row>>, g: Graph)
    ensures var r := AnaliseClasse(df, g);
      && (r.Err? <==> g.nodes != [] && (GroupRows(g, PorPais) == [] || GroupRows(g, PorLocal) == [] || DecadeTable(g).Err?))
      && (r.Ok? ==> r.value.Keys == Chaves)
  {
    DecadeTableError(g);
    var r := AnaliseClasse(df, g);
    if r.Ok? {
      ResultadoChaves(Guarded(g, RankTable(GroupRows(g, PorPais), 10)).value, Guarded(g, RankTable(GroupRows(g, PorLocal), 10)).value,
        Guarded(g, DecadeTable(g)).value, if g.nodes == [] then [] else DistribuirGeograficamente(g), TaxasClasse(df));
    }
  }
}
