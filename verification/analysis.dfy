/** The package's summary figures: column totals of the preprocessed table,
    the overall death rate, the triple the report returns, and the result
    dictionary of the full analysis. */
module Analysis {
  import opened Common
  import opened Graphs
  import opened Preprocessing
  import opened GraphBuilder
  import opened Visualization

  /** `df['tried'].sum()`. */
  function TotalJulgamentos(rows: seq<Row>): int
  {
    if rows == [] then 0 else TotalJulgamentos(rows[..|rows| - 1]) + rows[|rows| - 1].tried
  }

  /** `df['deaths'].sum()`. */
  function TotalMortes(rows: seq<Row>): int
  {
    if rows == [] then 0 else TotalMortes(rows[..|rows| - 1]) + rows[|rows| - 1].deaths
  }

  predicate Desconhecido(r: Row)
  {
    r.desconhecido == Some(true)
  }

  /** `df['is_desconhecido'].sum()`: the number of rows flagged true. */
  function TotalRegistrosDesconhecidos(rows: seq<Row>): nat
  {
    if rows == [] then 0
    else TotalRegistrosDesconhecidos(rows[..|rows| - 1]) + (if Desconhecido(rows[|rows| - 1]) then 1 else 0)
  }

  /** Column sums split over a split table. */
  lemma {:induction false} TotalsConcat(a: seq<Row>, b: seq<Row>)
    ensures TotalJulgamentos(a + b) == TotalJulgamentos(a) + TotalJulgamentos(b)
    ensures TotalMortes(a + b) == TotalMortes(a) + TotalMortes(b)
    ensures TotalRegistrosDesconhecidos(a + b) == TotalRegistrosDesconhecidos(a) + TotalRegistrosDesconhecidos(b)
  {
    if b == [] {
      assert a + b == a;
    } else {
      TotalsConcat(a, b[..|b| - 1]);
      ConcatDropLast(a, b);
    }
  }

  /** The unknown count is the number of flagged rows, so it is at most the
      row count. */
  lemma {:induction false} DesconhecidosCount(rows: seq<Row>)
    ensures TotalRegistrosDesconhecidos(rows) == |set i | 0 <= i < |rows| && Desconhecido(rows[i])|
    ensures TotalRegistrosDesconhecidos(rows) <= |rows|
  {
    if rows != [] {
      var p := rows[..|rows| - 1];
      DesconhecidosCount(p);
      var n := |rows| - 1;
      var before := set i | 0 <= i < |p| && Desconhecido(p[i]);
      var after := set i | 0 <= i < |rows| && Desconhecido(rows[i]);
      if Desconhecido(rows[n]) {
        assert after == before + {n};
      } else {
        assert after == before;
      }
    }
  }

  /** Over rows that all have a country, the totals are the trials and deaths
      the graph carries on all its edges. */
  lemma {:induction false} TotalsOfKeptRows(rows: seq<Row>)
    requires forall r :: r in rows ==> Kept(r)
    ensures RowsTotal(rows, AllEdges) == Acc(TotalJulgamentos(rows), TotalMortes(rows))
  {
    if rows != [] {
      InDropLast(rows);
      TotalsOfKeptRows(rows[..|rows| - 1]);
    }
  }

  /** The totals of a preprocessed table are the sums over all edges of the
      graph built from it. */
  lemma TotalsMatchGraph(raw: seq<RawRow>)
    requires CoreReady(raw)
    ensures var rows := Preprocessar(raw);
            var g := Build(rows);
            EdgeTotal(g.edges, g.acc, AllEdges) == Acc(TotalJulgamentos(rows), TotalMortes(rows))
  {
    var rows := Preprocessar(raw);
    PreprocessarKeepsCountryRows(raw);
    TotalsOfKeptRows(rows);
    BuildTotals(rows, AllEdges);
  }

  // ---------------------------------------------------------------------------
  // `taxa_mortalidade`
  // ---------------------------------------------------------------------------

  /** A float64 quotient: a finite value, an infinity, or NaN. */
  datatype Quociente = Finito(valor: real) | MaisInfinito | MenosInfinito | NaoNumero

  /** The division as written: both sums are numpy integers, and numpy's
      division by zero returns an infinity or NaN (with a warning) instead of
      raising `ZeroDivisionError`, so the `except` branch is never taken. */
  function TaxaMortalidadeComoEscrita(rows: seq<Row>): Quociente
  {
    var j, m := TotalJulgamentos(rows), TotalMortes(rows);
    if j != 0 then Finito(m as real / j as real)
    else if m > 0 then MaisInfinito
    else if m < 0 then MenosInfinito
    else NaoNumero
  }

  /** A table with a row of no trials and some deaths, and one with no trials
      and no deaths: the division as written gives an infinity and NaN, not
      the 0.0 the `except` branch was meant to return. */
  lemma TaxaMortalidadeSemJulgamentos()
    ensures var r := Row(Some("Scotland"), "1590", 0, 2, None, None, Some(false), "Edinburgh, Scotland");
      && TaxaMortalidadeComoEscrita([r]) == MaisInfinito
      && TaxaMortalidadeComoEscrita([r.(deaths := 0)]) == NaoNumero
  {
    var r := Row(Some("Scotland"), "1590", 0, 2, None, None, Some(false), "Edinburgh, Scotland");
    assert [r][..0] == [];
    assert [r.(deaths := 0)][..0] == [];
  }

  /** `taxa_mortalidade` as intended: deaths over trials, 0.0 when there are
      no trials. */
  function TaxaMortalidade(rows: seq<Row>): (r: real)
    ensures TotalJulgamentos(rows) == 0 ==> r == 0.0
    ensures TotalJulgamentos(rows) != 0 ==> r * TotalJulgamentos(rows) as real == TotalMortes(rows) as real
  {
    var j := TotalJulgamentos(rows);
    if j == 0 then 0.0 else TotalMortes(rows) as real / j as real
  }

  /** Wherever the division as written is defined, the intended rate is its
      value. */
  lemma TaxaMortalidadeAgrees(rows: seq<Row>)
    ensures TotalJulgamentos(rows) != 0 ==> TaxaMortalidadeComoEscrita(rows) == Finito(TaxaMortalidade(rows))
    ensures TotalJulgamentos(rows) == 0 ==> !TaxaMortalidadeComoEscrita(rows).Finito?
  {
  }

  // ---------------------------------------------------------------------------
  // `calcular_taxas_mortalidade_geral` and `executar_analise_completa`
  // ---------------------------------------------------------------------------

  /** The triple `(total_j, total_m, taxa)`; all three are None for an empty
      table. */
  datatype Taxas = Taxas(totalJulgamentos: Option<int>, totalMortes: Option<int>, taxa: Option<real>)

  function CalcularTaxasMortalidadeGeral(rows: seq<Row>): Taxas
  {
    if rows == [] then Taxas(None, None, None)
    else Taxas(Some(TotalJulgamentos(rows)), Some(TotalMortes(rows)), Some(TaxaMortalidade(rows)))
  }

  /** An empty table gives three Nones; otherwise the triple holds the two
      totals and a rate that times the trials gives the deaths (0 without
      trials). */
  lemma CalcularTaxasSpec(rows: seq<Row>)
    ensures var t := CalcularTaxasMortalidadeGeral(rows);
      && (rows == [] <==> t == Taxas(None, None, None))
      && (rows != [] ==>
            && t.totalJulgamentos.Some? && t.totalMortes.Some? && t.taxa.Some?
            && (t.totalJulgamentos.value == 0 ==> t.taxa.value == 0.0)
            && (t.totalJulgamentos.value != 0 ==>
                  t.taxa.value * t.totalJulgamentos.value as real == t.totalMortes.value as real))
  {
  }

  /** A value of the result dictionary. */
  datatype Valor =
    | Ranking(linhas: seq<RankRow>)
    | Serie(decadas: seq<DecadeRow>)
    | Pontos(pontos: seq<GeoRow>)
    | Resumo(taxas: Taxas)

  const Chaves: set<string> :=
    {"top_paises", "top_localizacoes", "analise_temporal", "distribuicao_geografica", "taxas_mortalidade_geral"}

  /** `executar_analise_completa(df, G)`: the five analyses in order, with the
      rankings at their default length 10; a `KeyError` from any of them
      propagates. */
  function ExecutarAnaliseCompleta(rows: seq<Row>, g: Graph): Result<map<string, Valor>, TableError>
  {
    var paises := RankTable(GroupRows(g, PorPais), 10);
    var locais := RankTable(GroupRows(g, PorLocal), 10);
    var temporal := DecadeTable(g);
    if paises.Err? then Err(paises.error)
    else if locais.Err? then Err(locais.error)
    else if temporal.Err? then Err(temporal.error)
    else Ok(Resultado(paises.value, locais.value, temporal.value, DistribuirGeograficamente(g), CalcularTaxasMortalidadeGeral(rows)))
  }

  /** The analysis fails exactly when a ranking has no row with trials or the
      decade series is empty, with the error of the first that fails. */
  lemma ExecutarAnaliseCompletaErro(rows: seq<Row>, g: Graph)
    ensures var r := ExecutarAnaliseCompleta(rows, g);
      && (r.Err? <==> GroupRows(g, PorPais) == [] || GroupRows(g, PorLocal) == [] || DecadeTable(g).Err?)
      && (r.Err? && (GroupRows(g, PorPais) == [] || GroupRows(g, PorLocal) == []) ==> r.error == KeyError("Julgamentos"))
      && (r.Err? && GroupRows(g, PorPais) != [] && GroupRows(g, PorLocal) != [] ==> r.error == KeyError("Década"))
  {
    DecadeTableError(g);
  }

  /** The dictionary the full analysis assembles from its five parts. */
  function Resultado(paises: seq<RankRow>, locais: seq<RankRow>, temporal: seq<DecadeRow>, geo: seq<GeoRow>, taxas: Taxas): map<string, Valor>
  {
    map[
      "top_paises" := Ranking(paises),
      "top_localizacoes" := Ranking(locais),
      "analise_temporal" := Serie(temporal),
      "distribuicao_geografica" := Pontos(geo),
      "taxas_mortalidade_geral" := Resumo(taxas)]
  }

  lemma ResultadoChaves(paises: seq<RankRow>, locais: seq<RankRow>, temporal: seq<DecadeRow>, geo: seq<GeoRow>, taxas: Taxas)
    ensures var m := Resultado(paises, locais, temporal, geo, taxas);
      && m.Keys == Chaves
      && m["top_paises"] == Ranking(paises) && m["top_localizacoes"] == Ranking(locais)
      && m["taxas_mortalidade_geral"] == Resumo(taxas)
  {
  }

  /** Otherwise the result has exactly the five keys, the rankings hold at
      most 10 rows each, and the totals are those of the table. */
  lemma ExecutarAnaliseCompletaChaves(rows: seq<Row>, g: Graph)
    ensures var r := ExecutarAnaliseCompleta(rows, g);
      r.Ok? ==>
        && r.value.Keys == Chaves
        && |r.value["top_paises"].linhas| <= 10
        && |r.value["top_localizacoes"].linhas| <= 10
        && r.value["taxas_mortalidade_geral"].taxas.totalJulgamentos == (if rows == [] then None else Some(TotalJulgamentos(rows)))
        && r.value["taxas_mortalidade_geral"].taxas.totalMortes == (if rows == [] then None else Some(TotalMortes(rows)))
  {
    var r := ExecutarAnaliseCompleta(rows, g);
    if r.Ok? {
      var paises := RankTable(GroupRows(g, PorPais), 10);
      var locais := RankTable(GroupRows(g, PorLocal), 10);
      ResultadoChaves(paises.value, locais.value, DecadeTable(g).value, DistribuirGeograficamente(g), CalcularTaxasMortalidadeGeral(rows));
    }
  }
}
