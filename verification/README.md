# Witch-trial graph analysis in Dafny

The program reads a table of historical witch-trial records. Each record has
a city, up to three administrative levels (`gadm.adm2`, `gadm.adm1`,
`gadm.adm0` = country), a decade, coordinates, a record source, and the
numbers of people tried and executed. From this table it builds a graph of
places and decades and answers questions over it. Which regions had the most
trials and deaths? How did trials move over time? How do the places connect?
What share of the accused were put to death?

The same pipeline exists in four versions, and each one is modelled here:

- **`src/core`** is the package:
  - `preprocessing.py` normalises the table: it drops rows without a country, coerces the counts and builds the location key.
  - `graph_builder.py` builds a directed graph from location to decade, with one edge per pair that accumulates the trials (`weight`) and deaths (`mortes`).
  - `visualization.py` provides the ranked country and location tables, the decade series, the geographic points and the subgraph export.
  - `graph_analysis.py` provides the degree, component and centrality summary, the degree ranking, the isolated nodes and the community index.
  - `analysis.py` provides the totals, the death rate and the full report.
- **`Codigo/teste3.py`** is the same pipeline as a class, `WitchTrialsAnalysis`. It keeps the table and the graph in fields, and guards every query against an empty graph.
- **`Codigo/teste.py`** is a script over an undirected graph. It has these rules:
  - a location falls back as `city or adm2 or adm1 or adm0`;
  - regions are ranked over all incident edges;
  - locations in the same country are paired;
  - peaks in the decade series are detected;
  - "proximity" edges link regions in Switzerland, Germany and Bayern.
- **`pinto/ra.py`** is a script over an undirected graph built from trimmed CSV strings. It has these rules:
  - a count is parsed only when it is all digits;
  - record sources become nodes with `documenta` edges;
  - a "same decade" clique joins locations;
  - it prints the ten locations with the highest degree and the five decades with the most trials.

Files:

| file | module | contents |
|---|---|---|
| `common.dfy` | `Common` | `Option`/`Result`, the stable descending sort behind Python's `sorted(..., reverse=True)[:n]` and pandas' `sort_values(...).head(n)`, digit strings, `split`/`strip`, and the index-pair loops |
| `graph.dfy` | `Graphs` | the directed graph value `Graph` and the networkx `DiGraph` object the builders mutate, with edge sums and counts |
| `preprocessing.dfy` | `Preprocessing` | `preprocessar` of the package and `_preprocessar_dados` of the class |
| `graph_builder.dfy` | `GraphBuilder` | `construir_grafo` and the properties of the graph it builds |
| `visualization.dfy` | `Visualization` | the aggregation queries and `visualizar_subgrafo` |
| `graph_analysis.dfy` | `GraphAnalysis` | `analisar_grafo`, `mostrar_nos_com_maior_grau`, `mostrar_nos_sem_arestas`, `detectar_comunidades` |
| `analysis.dfy` | `Analysis` | totals, `taxa_mortalidade`, `calcular_taxas_mortalidade_geral`, `executar_analise_completa` |
| `teste3.dfy` | `Teste3` | the class `WitchTrialsAnalysis` |
| `teste.dfy` | `Teste` | the script `Codigo/teste.py` |
| `ra.dfy` | `Ra` | the script `pinto/ra.py` |

Code that changes state is modelled as state:

- The networkx graph is modelled as a class with `modifies` clauses. There are three such classes: `Graphs.DiGraph`, `Teste.Grafo` and `Ra.GrafoRa`.
- The build loops, the dictionary-filling loops and the pair loops become methods with loop invariants. Each is proved equal to a specification function over the rows, for example `GraphBuilder.Build`, `Teste.Montar` or `Ra.Construir`.
- The properties the program relies on are proved as lemmas about those functions.
- The read-only queries are functions.

Every kept row calls `add_node` again, so networkx rewrites a location's attributes and the last row wins (`GraphBuilder.BuildKinds`). The package's `pd.to_numeric` keeps a negative count, and the model adds it as-is.

## Model

| member | source | states |
|---|---|---|
| Preprocessing.LocationKeyEndsWithCountry | src/core/preprocessing.py:11-14 | the location key always ends with `", "` followed by the country |
| Preprocessing.LocationKeySplit | src/core/preprocessing.py:11-14 | with no comma inside the fields, splitting the key on commas gives back city, then adm1 (when present and non-empty) and the country, each with the one leading space the key adds |
| Preprocessing.CoreRowSpec | src/core/preprocessing.py:6-14 | a kept row: counts parsed or 0; key `city, adm1, adm0` (with `nan` for a missing city) when adm1 is present and non-empty, else `city, adm0`; `is_desconhecido` true exactly when city or adm1 is missing |
| Preprocessing.PreprocessarConcat | src/core/preprocessing.py:4-14 | preprocessing a split table is the concatenation of the parts: the filter keeps order and rows are independent |
| Preprocessing.PreprocessarKeepsCountryRows | src/core/preprocessing.py:4-14 | every output row has a non-empty country, with one output row per input row that has one; the whole table raises `TypeError` exactly when no row has a country (the empty `apply` result is a float column, and adding `", "` to it fails), otherwise it gives those rows |
| Preprocessing.ClassRowSpec | Codigo/teste3.py:42-52 | a kept row of the class: city defaults to `Desconhecido`, decade to `ND`, counts parsed or 0, coordinates copied, no unknown flag, and the key is city, then adm1 when present and non-empty, then country, joined by `", "` |
| Preprocessing.PreprocessarDadosConcat | Codigo/teste3.py:39 | the class's preprocessing keeps only rows with a country, in order, and splits over concatenation |
| Graphs.WithNodeValid | src/core/graph_builder.py:17-23 | `add_node` keeps the graph well formed and gives the node the new attributes, keeping every old node |
| Graphs.WithCountsValid | src/core/graph_builder.py:26-32 | the edge upsert between two nodes keeps the graph well formed |
| Graphs.EdgeTotalWithCounts | src/core/graph_builder.py:26-32 | the upsert adds the row's trials and deaths to every edge sum that selects its edge and to no other |
| Graphs.EdgeCountWithCounts | src/core/graph_builder.py:29-32 | the upsert adds an edge to a count only when the edge was not there |
| Graphs.EdgeCountPositive | src/core/graph_builder.py:30-32 | a listed edge makes the count of a selector that picks it positive |
| Graphs.EdgeCountZero | src/core/graph_builder.py:30-32 | with no selected edge the count is zero |
| Graphs.DiGraph.constructor | src/core/graph_builder.py:5 | a new `DiGraph` is the empty graph |
| Graphs.DiGraph.AddNode | src/core/graph_builder.py:17-23 | `add_node` appends a new node or replaces an existing node's attributes in place |
| Graphs.DiGraph.HasEdge | src/core/graph_builder.py:26 | `has_edge` is true exactly when the directed edge exists |
| Graphs.DiGraph.AddEdge | src/core/graph_builder.py:30-32 | `add_edge` appends a new edge with its counts |
| Graphs.DiGraph.AccumulateEdge | src/core/graph_builder.py:27-28 | `+=` adds the row's counts to the existing edge |
| GraphBuilder.ConstruirGrafo | src/core/graph_builder.py:4-38 | the loop returns a fresh graph equal to the fold `Build` of the rows |
| GraphBuilder.StepShape | src/core/graph_builder.py:8-32 | one kept row adds its two nodes, types the decade, sets the location's attributes and creates or bumps its edge; a skipped row changes nothing |
| GraphBuilder.StepValid | src/core/graph_builder.py:17-32 | one row keeps the graph well formed |
| GraphBuilder.BuildValid | src/core/graph_builder.py:4-32 | the built graph has every node and edge once, and every edge joins two nodes |
| GraphBuilder.BuildNodes | src/core/graph_builder.py:8-23 | the nodes are exactly the locations and decades of the rows with a country |
| GraphBuilder.BuildEdges | src/core/graph_builder.py:26-32 | the edges are exactly the pairs of kept rows, and each carries the summed trials and deaths of exactly the rows with that pair |
| GraphBuilder.BuildEdgeCount | src/core/graph_builder.py:26-32 | the edge count is the number of distinct (location, decade) pairs |
| GraphBuilder.StepTotal | src/core/graph_builder.py:26-32 | one row adds its counts to every edge sum whose selector picks its pair |
| GraphBuilder.BuildTotals | src/core/graph_builder.py:26-32 | every sum over edges (out of a node, into a node, one edge, all) equals the sum over the kept rows it selects |
| GraphBuilder.NodeTotals | src/core/graph_builder.py:26-32 | the counts leaving a location and entering a decade are those of its rows |
| GraphBuilder.RowsTotalRemove | src/core/graph_builder.py:26-28 | taking one row out of a sum over rows takes out its term |
| GraphBuilder.RowsTotalPerm | src/core/graph_builder.py:26-28 | a sum over rows does not depend on row order |
| GraphBuilder.BuildOrderIndependent | src/core/graph_builder.py:26-28 | reordering the rows gives the same node set, edge set and edge sums |
| GraphBuilder.LastForKept | src/core/graph_builder.py:17-20 | a last kept row exists exactly for the location keys of kept rows |
| GraphBuilder.BuildKinds | src/core/graph_builder.py:17-23 | with disjoint location and decade labels, decades are `decada` nodes and each location node carries the lat, lon and country of the LAST kept row with that key |
| GraphBuilder.BuildDecadaKinds | src/core/graph_builder.py:23 | every decade of a kept row is a `decada` node, when no label is both a location and a decade |
| GraphBuilder.BuildLocalKinds | src/core/graph_builder.py:17-20 | every location of a kept row is a `local` node carrying the lat, lon and country of the last kept row with that location |
| GraphBuilder.BuildBipartite | src/core/graph_builder.py:17-32 | with disjoint location and decade labels every edge goes from a `local` node to a `decada` node |
| GraphBuilder.BuildNoIsolated | src/core/graph_builder.py:17-32 | every node has degree at least one |
| GraphBuilder.TwoRowsOneEdge | src/core/graph_builder.py:26-32 | two rows (5, 2) and (3, 1) for one pair give one edge with 8 trials and 3 deaths |
| Visualization.Rate | src/core/visualization.py:55 | the rate is 0 without positive trials; otherwise, multiplied by the trials, it gives the deaths |
| Visualization.GroupOrderSpec | src/core/visualization.py:43-49 | the dictionary keys are distinct and are exactly the keys of the `local` nodes; a key with no node totals zero |
| Visualization.GroupOrderKeys | src/core/visualization.py:43-45 | a country or location is a key of the defaultdict exactly when some `local` node has it |
| Visualization.GroupOrderDistinct | src/core/visualization.py:42-49 | the keys of the defaultdict, in first-seen order, are never repeated |
| Visualization.GroupTotalZero | src/core/visualization.py:42-49 | a key no `local` node has keeps the zero totals |
| Visualization.TotalsSpec | src/core/visualization.py:42-49 | the defaultdict has an entry for exactly the keys seen, each holding the totals of the out-edges of that key's nodes |
| Visualization.Aggregate | src/core/visualization.py:43-49 | the accumulation loop gives the keys in first-seen order, each with the out-edge totals of its nodes |
| Visualization.RowsFromSpec | src/core/visualization.py:51-56 | each row is one key with positive trials and its rate, and every such key has a row |
| Visualization.RankTableSpec | src/core/visualization.py:56 | raises `KeyError` exactly when no row qualifies; otherwise a prefix of length min(n) of a permutation sorted by trials descending, with no row left out larger |
| Visualization.TopPaises | src/core/visualization.py:41-60 | `top_paises` is the country ranking, or the `KeyError` of an empty list |
| Visualization.TopLocalizacoes | src/core/visualization.py:73-91 | `top_localizacoes` is the location ranking, or the `KeyError` of an empty list |
| Visualization.Rank | src/core/visualization.py:43-56 | the aggregation loop followed by filter, sort and head equals `RankTable(GroupRows(..))` |
| Visualization.CountryRowsSpec | src/core/visualization.py:43-56 | each country row totals the out-edges of that country's `local` nodes and has positive trials; every such country has a row |
| Visualization.LocationTotal | src/core/visualization.py:75-80 | over distinct nodes a location's entry is its own out-edge total |
| Visualization.LocationRowsSpec | src/core/visualization.py:75-87 | one location row per `local` node with positive out-edge trials, keyed by the node |
| Visualization.JulgamentosPorDecada | src/core/visualization.py:106-127 | the decade loop equals the series `DecadeTable` |
| Visualization.DigitDecadesSpec | src/core/visualization.py:107-109 | the selected decades are exactly the all-digit `decada` nodes |
| Visualization.DecadeRowsFromSpec | src/core/visualization.py:113-122 | a row is built exactly for a listed decade with positive incoming trials |
| Visualization.DecadeRowsMembers | src/core/visualization.py:107-122 | the rows are those of the all-digit decade nodes with positive incoming trials |
| Visualization.DecadeTableError | src/core/visualization.py:124 | `set_index` raises exactly when no decade qualifies |
| Visualization.DecadeTableRows | src/core/visualization.py:107-124 | the series is ordered by integer decade, holds each qualifying decade's incoming totals and rate, and misses none |
| Visualization.GeoRowsSpec | src/core/visualization.py:141-157 | the geo rows are exactly the `local` nodes with both coordinates, with their out-edge totals, coordinates and country |
| Visualization.GeoRowsOrder | src/core/visualization.py:141-157 | the geo rows follow node order |
| Visualization.NomeArquivoSpec | src/core/visualization.py:212 | the file is `outputs/` + stem + `.png`; the stem has no space, colon or upper-case letter and is no longer than the title |
| Visualization.CopyNodes | src/core/visualization.py:183-184 | the copied nodes are exactly the given nodes with G's attributes, or `KeyError` when one is not in G |
| Visualization.CopyEdges | src/core/visualization.py:186-188 | the copied edges are exactly the edges of G with both ends among the nodes |
| Visualization.VisualizarSubgrafo | src/core/visualization.py:177-212 | KeyError for a missing node; a warning when the subgraph has no node or no edge; otherwise the derived file name |
| GraphAnalysis.CountSumStep | src/core/graph_analysis.py:10 | one more edge adds one to the degree count of its end |
| GraphAnalysis.CountSumAll | src/core/graph_analysis.py:10 | over all nodes the out-degrees (or in-degrees) add up to the edge count |
| GraphAnalysis.DegreeSumSplit | src/core/graph_analysis.py:10 | the degree sum is the out-degree sum plus the in-degree sum |
| GraphAnalysis.Handshake | src/core/graph_analysis.py:10-11 | the degrees of a graph add up to twice its edge count |
| GraphAnalysis.GrauMedioSpec | src/core/graph_analysis.py:10-11 | the average degree is 2·edges/nodes, and 0 for an empty graph |
| GraphAnalysis.GrausMembers | src/core/graph_analysis.py:27 | every degree item is a node with its degree |
| GraphAnalysis.GrausSpec | src/core/graph_analysis.py:27 | `graus.items()` lists each node with its degree, in node order |
| GraphAnalysis.MaiorGrau | src/core/graph_analysis.py:21-22 | the first maximum of the degree list is a node of largest degree, and every earlier node has a strictly smaller degree |
| GraphAnalysis.MaisCentralSpec | src/core/graph_analysis.py:21-22 | the most central node is the first node of maximal degree, None only for an empty graph |
| GraphAnalysis.TopPorGrauOrder | src/core/graph_analysis.py:27-28 | at most top_n entries (all but the last -top_n for a negative one), degree non-increasing, ties in node order |
| GraphAnalysis.TopPorGrauTop | src/core/graph_analysis.py:27-28 | each entry is a node with its degree, and no node left out has a larger degree |
| GraphAnalysis.NosSemArestasSpec | src/core/graph_analysis.py:34 | the isolated nodes are exactly the nodes of degree 0 |
| GraphAnalysis.NosSemArestasNone | src/core/graph_analysis.py:34-40 | with no node of degree 0 the isolated list is empty |
| GraphAnalysis.BuildHasNoIsolated | src/core/graph_analysis.py:34 | a graph from `construir_grafo` has no isolated node |
| GraphAnalysis.SingletonsSpec | src/core/graph_analysis.py:14 | the starting partition of the components, one singleton per node, is a partition of the nodes |
| GraphAnalysis.MergeSpec | src/core/graph_analysis.py:14 | joining the components of an edge's ends keeps a partition, puts both ends together, keeps together what was together |
| GraphAnalysis.WithoutDisjoint | src/core/graph_analysis.py:14 | joining the components of an edge's ends keeps the untouched components pairwise disjoint |
| GraphAnalysis.WithoutTouchingDisjoint | src/core/graph_analysis.py:14 | the untouched components are disjoint from the joined one |
| GraphAnalysis.MergeKeepsTogether | src/core/graph_analysis.py:14 | two nodes in one component are still in one component after an edge joins two components |
| GraphAnalysis.ComponentsPartition | src/core/graph_analysis.py:14 | the components built edge by edge partition the nodes and hold both ends of every edge together |
| GraphAnalysis.MergeConexas | src/core/graph_analysis.py:14 | joining the components of an edge's ends keeps every component connected by a walk over the edges seen so far |
| GraphAnalysis.ComponentsConexas | src/core/graph_analysis.py:14 | any two nodes of one component are joined by an undirected walk over the edges |
| GraphAnalysis.ComponentsWeak | src/core/graph_analysis.py:14 | two nodes share a component exactly when an undirected walk over the edges joins them |
| GraphAnalysis.ComponentsSpec | src/core/graph_analysis.py:14 | the components are a partition of the nodes into non-empty blocks, at most as many as the nodes, and each block is exactly one class of nodes joined by undirected walks, as `nx.weakly_connected_components` returns them |
| GraphAnalysis.AnalisarGrafoDegrees | src/core/graph_analysis.py:7-11 | the summary's counts, and its average degree of 2·edges/nodes or 0 |
| GraphAnalysis.AnalisarGrafoComponents | src/core/graph_analysis.py:14-19 | the component count is the number of weakly connected components: a partition of the nodes in which two nodes share a block exactly when an undirected walk joins them; none when there are no nodes; the largest is at least as large as every component |
| GraphAnalysis.AnalisarGrafoCentral | src/core/graph_analysis.py:21-24 | the printed central node is a node of maximal degree, printed when its name is non-empty |
| GraphAnalysis.LocaisDeSpec | src/core/graph_analysis.py:73 | the selected nodes are exactly the `local` nodes |
| GraphAnalysis.DetectarComunidades | src/core/graph_analysis.py:69-87 | None when there is no `local` node; otherwise the local subgraph and the node→index map of the given partition |
| GraphAnalysis.SubgrafoLocalEmpty | src/core/graph_analysis.py:73-78 | the local subgraph is empty exactly when no node is `local` |
| GraphAnalysis.IndiceSpec | src/core/graph_analysis.py:84-87 | every node of a community gets an index, no other node does, and the last community containing it wins |
| GraphAnalysis.Pintar | src/core/graph_analysis.py:86-87 | the inner loop maps every node of the community to its index and leaves every other entry unchanged |
| GraphAnalysis.IndiceEm | src/core/graph_analysis.py:84-87 | over disjoint communities, a node of community i is coloured i |
| GraphAnalysis.IndiceDePartition | src/core/graph_analysis.py:84-87 | for disjoint communities a node's index is i exactly when it is in community i |
| GraphAnalysis.LocalSubgraphHasNoEdges | src/core/graph_analysis.py:73-74 | on a built graph with disjoint labels the local subgraph has no edge |
| Analysis.TotalsConcat | src/core/analysis.py:10-17 | the three column sums split over concatenated tables |
| Analysis.DesconhecidosCount | src/core/analysis.py:16-17 | the unknown count is the number of flagged rows, so at most the row count |
| Analysis.TotalsOfKeptRows | src/core/analysis.py:10-14 | over rows with a country the column sums are the graph's all-edge sums of the rows |
| Analysis.TotalsMatchGraph | src/core/analysis.py:10-14 | the table totals equal the sums over all edges of the graph built from it |
| Analysis.TaxaMortalidadeSemJulgamentos | src/core/analysis.py:19-23 | with 0 trials the division as written is an infinity or NaN, never the 0.0 of the except branch |
| Analysis.TaxaMortalidade | src/core/analysis.py:19-23 | the intended rate: 0.0 with no trials, otherwise rate·trials = deaths |
| Analysis.TaxaMortalidadeAgrees | src/core/analysis.py:19-23 | the intended rate equals the quotient as written whenever trials are non-zero, and only then is that quotient finite |
| Analysis.CalcularTaxasSpec | src/core/analysis.py:34-48 | `(None, None, None)` exactly for an empty table; otherwise both totals and the corrected rate `Analysis.TaxaMortalidade`, which is 0.0 for 0 total trials where `analysis.py:41` as written gives inf or NaN (see Findings) |
| Analysis.ExecutarAnaliseCompletaErro | src/core/analysis.py:50-67 | the report raises exactly when a ranking or the decade series raises, with the first error |
| Analysis.ExecutarAnaliseCompletaChaves | src/core/analysis.py:52-67 | a successful report has exactly the five keys, rankings of at most 10 rows and the table's totals |
| Analysis.ResultadoChaves | src/core/analysis.py:52-67 | the result dictionary has exactly the five keys, with the rankings and the rate summary under their names |
| Teste3.WitchTrialsAnalysis.constructor | Codigo/teste3.py:13-28 | the graph is the one built from the preprocessed table, or an empty `DiGraph` when loading failed |
| Teste3.WitchTrialsAnalysis.TopPaises | Codigo/teste3.py:145-178 | the empty table for an empty graph, otherwise the package's country ranking |
| Teste3.WitchTrialsAnalysis.TopLocalizacoes | Codigo/teste3.py:200-231 | the empty table for an empty graph, otherwise the package's location ranking |
| Teste3.WitchTrialsAnalysis.AnalisarTemporal | Codigo/teste3.py:255-289 | the empty table for an empty graph, otherwise the package's decade series |
| Teste3.WitchTrialsAnalysis.AnalisarDistribuicaoGeografica | Codigo/teste3.py:316-343 | the loop gives the located nodes in order with their out-edge totals, or nothing for an empty graph |
| Teste3.WitchTrialsAnalysis.CalcularTaxasMortalidadeGeral | Codigo/teste3.py:375-392 | three Nones without a table or for an empty one, otherwise the totals and a rate of 0 unless trials are positive |
| Teste3.WitchTrialsAnalysis.ExecutarAnaliseCompleta | Codigo/teste3.py:394-400 | the five analyses in order, the first error propagating, on the graph built from the object's own table (or the empty graph when loading failed) |
| Teste3.PreprocessarDadosKept | Codigo/teste3.py:66-68 | every row the class keeps has a country, so the loop's second test never skips |
| Teste3.BuildEmpty | Codigo/teste3.py:66-92 | the built graph is empty exactly when no row has a country |
| Teste3.GuardsMeanEmptyInput | Codigo/teste3.py:150-152 | the class's graph is empty exactly for a missing or empty table, and otherwise the guarded query is the unguarded one |
| Teste3.TaxasClasseAgrees | Codigo/teste3.py:379-382 | for non-negative trials the class's rate triple equals the package's intended one |
| Teste3.AnaliseClasseSpec | Codigo/teste3.py:394-400 | the class's report fails exactly on a non-empty graph whose ranking or series fails, and otherwise has the five keys |
| Teste.Escolha | Codigo/teste.py:13 | Python's `or` chain picks the first truthy operand, or the last one |
| Teste.LocalDeSpec | Codigo/teste.py:13 | a NaN city is truthy and is the location; a non-empty city is the location; an empty one gives way to the next present non-empty level; otherwise the country cell |
| Teste.Grafo.constructor | Codigo/teste.py:9 | a new `Graph` is empty |
| Teste.Grafo.AddNode | Codigo/teste.py:19-20 | `add_node` appends or re-types the node |
| Teste.Grafo.HasEdge | Codigo/teste.py:22 | `has_edge` is true for either orientation of the edge |
| Teste.Grafo.AccumulateEdge | Codigo/teste.py:23-24 | `+=` adds the row's counts to the edge's key |
| Teste.Grafo.AddEdge | Codigo/teste.py:26 | `add_edge` appends a new edge with its counts |
| Teste.ConstruirGrafo | Codigo/teste.py:12-26 | the loop builds the fold `Montar` of the rows |
| Teste.UltimaLinha | Codigo/teste.py:18-26 | one more row adds its location, decade and key exactly when the row is used |
| Teste.UltimaLinhaRotulos | Codigo/teste.py:18 | the locations and decades of the used rows grow by those of the last row, if it is used |
| Teste.MontarTipoPasso | Codigo/teste.py:18-20 | a used row types its location `local` and then its decade `decada`; a skipped row changes no type |
| Teste.MontarNoPasso | Codigo/teste.py:19-20 | after a used row the nodes are those of its two `add_node` calls |
| Teste.ComNoNos | Codigo/teste.py:19-20 | `add_node` keeps the nodes distinct and in step with their types |
| Teste.MontarNos | Codigo/teste.py:18-20 | the nodes are exactly the locations and decades of the used rows, once each |
| Teste.ComContagemArestas | Codigo/teste.py:22-26 | the upsert keeps one edge per key and adds the row's key |
| Teste.MontarArestas | Codigo/teste.py:22-26 | one edge per {location, decade} key of the used rows, from location to decade |
| Teste.MontarTipos | Codigo/teste.py:19-20 | with disjoint labels every location is `local` and every decade `decada` |
| Teste.SomaIncidenteOutraChave | Codigo/teste.py:23-24 | changing the counts of an absent key changes no incident sum |
| Teste.SomaIncidenteSobe | Codigo/teste.py:23-24 | adding into one edge adds to the incident sums of both its ends |
| Teste.SomaIncidenteNova | Codigo/teste.py:26 | a new edge adds its counts to the incident sums of both ends |
| Teste.UmaPorChave | Codigo/teste.py:22-26 | with one edge per key, the other edges have other keys |
| Teste.ArestaDaChave | Codigo/teste.py:22-26 | the edge with the key of a location and a decade is that pair |
| Teste.ChaveAusente | Codigo/teste.py:22-26 | an absent key belongs to no edge |
| Teste.MontarIncidente | Codigo/teste.py:22-26 | the totals on a node's edges are the summed counts of the rows that name it |
| Teste.NovosUm | Codigo/teste.py:33 | what one adjacency entry reports in `G.edges()` |
| Teste.NovosSoma | Codigo/teste.py:33 | what a node reports in `G.edges()` sums like the edges it owns |
| Teste.DonoUltima | Codigo/teste.py:33 | one more edge adds its term to what its owner reports |
| Teste.VezesUma | Codigo/teste.py:33 | over distinct nodes each edge is reported exactly once |
| Teste.VisaoSoma | Codigo/teste.py:33 | `G.edges()` reports every edge once, so a direction-blind sum over the view equals the sum over the edges |
| Teste.AcumularRegioes | Codigo/teste.py:33-42 | the loop's dictionaries are the spec folds over the view entries |
| Teste.AnaliseRegioes | Codigo/teste.py:29-45 | `analise_regioes` is the two rankings of the accumulated totals |
| Teste.ArquivadasSpec | Codigo/teste.py:34-39 | a region is filed under exactly when some entry has it as its location |
| Teste.MarcaConta | Codigo/teste.py:34-42 | the marks count the entries filed under a region |
| Teste.ParaLocalFora | Codigo/teste.py:41-42 | a region nothing is filed under gets no total |
| Teste.RegioesChaves | Codigo/teste.py:41-42 | the dictionary keys are the filed regions, once each, in first-seen order |
| Teste.RegioesTotais | Codigo/teste.py:41-42 | each region's totals are the counts of the entries filed under it |
| Teste.RegioesFiled | Codigo/teste.py:33-42 | the regions with totals are exactly those some edge is filed under |
| Teste.RegioesOrdem | Codigo/teste.py:30-42 | the insertion order of the defaultdict lists each region once, and exactly the regions with totals |
| Teste.ItensSpec | Codigo/teste.py:44-45 | `items()` lists each key once with its value, in key order |
| Teste.TopRegioesOrdem | Codigo/teste.py:44-45 | at most ten regions, non-increasing, each with its total, ties in first-seen order |
| Teste.TopRegioesTopo | Codigo/teste.py:44-45 | no region left out has a larger total than one listed |
| Teste.OrientacaoMontada | Codigo/teste.py:34-37 | every edge of a built graph runs from a location to a decade |
| Teste.ParaLocalDeNo | Codigo/teste.py:41-42 | an entry filed under a region adds that edge's counts |
| Teste.SomaLocalIncidente | Codigo/teste.py:33-42 | the region sums are the sums over the edges at the region |
| Teste.LugarNasArestas | Codigo/teste.py:22-26 | every used location is the first end of an edge |
| Teste.RegioesDoGrafo | Codigo/teste.py:29-42 | on the built graph the regions are the used locations, each with the trials and deaths of its rows over all decades |
| Teste.MontarSimetrica | Codigo/teste.py:33-42 | on the built graph the edge view sums like the edges, for both the filing test and the region totals |
| Teste.RegioesDoGrafoChaves | Codigo/teste.py:18-42 | the regions of the built graph are exactly the locations of the used rows |
| Teste.RegioesDoGrafoTotal | Codigo/teste.py:15-42 | each region's totals are the trials and deaths of its rows over all decades |
| Teste.NosDoTipoSpec | Codigo/teste.py:69 | the selected nodes are exactly those of the given type, listed once when the input is |
| Teste.CorrelacaoGeografica | Codigo/teste.py:66-85 | the pair loop gives `geo_graph` and one `correlacoes` entry per edge view entry |
| Teste.MesmoPaisExemplo | Codigo/teste.py:75-79 | `"Ayr, Fife"` and `"Leith,Fife "` are paired (equal trimmed last parts); `"Fife"`, with no comma, is not |
| Teste.ContaUm | Codigo/teste.py:82-85 | counting one per entry gives the number of entries |
| Teste.CorrelacoesSpec | Codigo/teste.py:82-85 | entry k holds the incident trials of both ends of view entry k |
| Teste.CorrelacaoGeograficaSpec | Codigo/teste.py:72-85 | one entry per same-country pair of distinct location nodes (both with at least two comma parts and equal trimmed last parts) |
| Teste.LocaisDoGrafo | Codigo/teste.py:69 | on the built graph the location nodes are the used locations, once each |
| Teste.JulgamentosDoGrafo | Codigo/teste.py:83-84 | on the built graph a node's incident trials are those of its rows |
| Teste.PadroesTemporais | Codigo/teste.py:105-114 | the decades sorted by numeric value, with the incident trials and deaths of each |
| Teste.SortDecadasDistinct | Codigo/teste.py:106 | sorting the decade nodes by numeric value gives a non-decreasing, duplicate-free list of the same decades |
| Teste.CanonicasCrescem | Codigo/teste.py:106 | distinct canonical decimal labels in non-decreasing numeric order are strictly increasing |
| Teste.SerieSpec | Codigo/teste.py:110-114 | entry i is the incident total of decade i |
| Teste.PadroesDoGrafo | Codigo/teste.py:105-114 | on the built graph the decades are the used decades once each, in non-decreasing numeric order (strictly increasing when every label is a canonical decimal), each with the trials and deaths of its rows |
| Teste.PicosAteSpec | Codigo/teste.py:128-129 | the scan up to k reports exactly the peaks below k, and no two are neighbours |
| Teste.PicosAteMembro | Codigo/teste.py:128-129 | an index is a peak found below k exactly when it is below k and strictly above both neighbours |
| Teste.PicosAteEspacados | Codigo/teste.py:128-129 | the peaks come in increasing order and no two are neighbours |
| Teste.PicosSpec | Codigo/teste.py:128-129 | a position is a peak exactly when strictly greater than both neighbours; never the first or last; increasing and never adjacent |
| Teste.Primeiros | Codigo/teste.py:141 | the region list is the first components of the ranking, in order |
| Teste.LigarProximas | Codigo/teste.py:144-147 | the nested loop adds a `proximidade` edge for every i < j whose names both mention a place |
| Teste.RegioesLetaisConectadas | Codigo/teste.py:140-159 | the induced subgraph on the regions plus the marked edges, all its nodes among the regions; `ValueError` exactly when that subgraph has no node, as `min(node_colors)` raises |
| Teste.LigarSpec | Codigo/teste.py:144-147 | adding the marked pairs adds exactly their ends and their keys |
| Teste.ParesNoIntervalo | Codigo/teste.py:144-147 | both ends of a `proximidade` edge are among the deadliest regions |
| Teste.ConectadasProximidade | Codigo/teste.py:144-147 | a pair is marked exactly when both names mention Switzerland, Germany or Bayern |
| Teste.ConectadasArestas | Codigo/teste.py:142-147 | the subgraph keeps G's edges between the regions and adds the marked ones, and nothing else |
| Teste.ConectadasDoGrafo | Codigo/teste.py:142-147 | on the built graph no two locations are joined, so the subgraph has exactly the marked edges |
| Teste.ConectadasVazias | Codigo/teste.py:142-159 | with regions that are locations of the graph, the subgraph is empty exactly when the region list is |
| Teste.CincoLetais | Codigo/teste.py:183-192 | the first five regions of the deaths ranking are locations of the graph, and there is at least one when the graph has a location |
| Teste.RegioesLetaisDoGrafo | Codigo/teste.py:140-192 | the script's own call on `top_mortes[:5]`: the subgraph has exactly the `proximidade` edges, and it is empty, so the call raises `ValueError`, exactly when no row gave a location |
| Ra.LocalSpec | pinto/ra.py:20-35 | the location is the cell of the level `nivel` names, every finer level is empty, and it is empty exactly when all four are |
| Ra.ContarSpec | pinto/ra.py:41-46 | a number written in decimal reads back as itself; a cell with any non-digit, or empty, reads as 0 |
| Ra.ContarExemplos | pinto/ra.py:41-46 | `"12"` reads 12, while `"-3"` and `"2.5"` read 0 |
| Ra.GrafoRa.constructor | pinto/ra.py:12 | a new `Graph` is empty |
| Ra.GrafoRa.AddNode | pinto/ra.py:35-36 | `add_node` appends or updates `tipo` and `nivel` |
| Ra.GrafoRa.HasEdge | pinto/ra.py:39 | `has_edge` is true for either orientation |
| Ra.GrafoRa.AddEdge | pinto/ra.py:44-46 | `add_edge` updates the attributes of the edge's key, adding it when new |
| Ra.GrafoRa.AddCounts | pinto/ra.py:41-42 | `+=` adds to the edge's counts, or raises `KeyError` with nothing changed when it has none |
| Ra.ConstruirErro | pinto/ra.py:19-55 | once a row has raised, the whole loop has raised with that exception |
| Ra.AdicionarContagem | pinto/ra.py:39-46 | the upsert of the row's counts on the graph object |
| Ra.ProcessarLinha | pinto/ra.py:20-55 | one iteration equals the spec step `Passo` on the three objects |
| Ra.ConstruirRa | pinto/ra.py:19-55 | the loop leaves the three objects of `Construir`, or the exception that ended it |
| Ra.LigarDe | pinto/ra.py:61-63 | the inner loop for one i adds the pairs (i, j>i) not yet joined |
| Ra.LigarPar | pinto/ra.py:62-63 | an existing edge is kept unchanged; otherwise a `mesma_decada` edge carrying the decade is added |
| Ra.LigarDeUm | pinto/ra.py:61-63 | one pass of the inner loop extends the graph by one more pair of the clique |
| Ra.SeguintesPares | pinto/ra.py:61 | the inner loop visits, in order, the pairs of location i with every later location |
| Ra.LigarDecada | pinto/ra.py:59-63 | the pairs of one decade's list |
| Ra.LigarMesmaDecada | pinto/ra.py:58-63 | the clique pass over every decade equals `LigarDecadas` |
| Ra.UltimaLinha | pinto/ra.py:32-55 | one more row adds its location, decade, source, occurrence and keys exactly when it is used or documented |
| Ra.UltimaLinhaMembros | pinto/ra.py:19 | the rows are those of the prefix and the last one |
| Ra.UltimaLinhaRotulos | pinto/ra.py:32-55 | the locations, decades and sources grow by those of the last row, when it is used or documented |
| Ra.UltimaLinhaChaves | pinto/ra.py:39-55 | the location-decade pairs, count keys and source keys grow by those of the last row |
| Ra.ConstruirPrefixo | pinto/ra.py:19-55 | a loop that did not raise raised on no prefix |
| Ra.AplicarUsa | pinto/ra.py:35-55 | the step of a used row, stage by stage |
| Ra.AnotarGrafo | pinto/ra.py:49 | filing into `locais_por_decada` leaves the graph alone |
| Ra.ValidaComNo | pinto/ra.py:35-36 | `add_node` keeps the graph well formed and leaves the edges alone |
| Ra.ComArestaNos | pinto/ra.py:44-54 | adding an edge changes no `tipo` and no `nivel` |
| Ra.ComContagemNos | pinto/ra.py:39-46 | the count update changes no `tipo` and no `nivel` |
| Ra.ComArestaNova | pinto/ra.py:44-46 | a new edge is appended to the edge order with its attributes |
| Ra.AnotarIndepende | pinto/ra.py:49 | filing a location under its decade does not depend on the graph |
| Ra.ValidaComAresta | pinto/ra.py:44-46 | an edge between typed nodes keeps the graph well formed and adds no node |
| Ra.ValidaContagem | pinto/ra.py:39-46 | the count upsert keeps the graph well formed and leaves the nodes alone |
| Ra.ValidaComFonte | pinto/ra.py:52-55 | the source step keeps the graph well formed |
| Ra.ValidaAplicar | pinto/ra.py:32-55 | a step that does not raise keeps the graph well formed |
| Ra.ConstruirValida | pinto/ra.py:19-55 | after rows that do not raise the graph is well formed |
| Ra.ChavesDisjuntas | pinto/ra.py:44-54 | with separate labels no `documenta` key is a location-decade key |
| Ra.ArestasContagem | pinto/ra.py:39-46 | on a key that is not a `documenta` key, the upsert does not raise and the key joins the counted ones |
| Ra.ArestasFonte | pinto/ra.py:52-55 | the source edge on a non-location-decade key |
| Ra.ArestasAplicar | pinto/ra.py:39-55 | a used row whose keys are not of the other kind adds exactly its keys |
| Ra.ArestasPasso | pinto/ra.py:19-55 | one row under separate labels raises nothing and gives the edges of the rows so far |
| Ra.ConstruirOk | pinto/ra.py:19-55 | under separate labels the loop raises on no row, with one counted edge per location-decade pair and one `documenta` edge per source and location |
| Ra.ContagensComFonte | pinto/ra.py:53-54 | `documenta` edges never change counts |
| Ra.ContagensComContagem | pinto/ra.py:39-46 | the upsert adds the counts to the key of u and v and to no other |
| Ra.AplicarContagens | pinto/ra.py:39-46 | a used row adds its counts to its own key and no other |
| Ra.AplicarNos | pinto/ra.py:35-53 | a used row sets the `tipo` of its location, decade and source in that order, and its location's `nivel` |
| Ra.AplicarIndice | pinto/ra.py:49 | a used row files its location under its decade |
| Ra.ConstruirContagens | pinto/ra.py:39-46 | each location-decade key carries the summed counts of exactly its rows; other keys carry none |
| Ra.TiposSobreLinha | pinto/ra.py:35-53 | setting one row's node types keeps the types right when no label has two kinds |
| Ra.TiposAplicar | pinto/ra.py:35-53 | the node types after one used row, at the level of its cells |
| Ra.TiposPasso | pinto/ra.py:35-53 | one more row keeps the node types those of the rows |
| Ra.ConstruirTipos | pinto/ra.py:35-53 | under separate labels the nodes are exactly the locations, decades and sources, with their kinds |
| Ra.ConstruirNivel | pinto/ra.py:35 | `nivel` is the level of the last row at a location; only locations have one |
| Ra.IndiceAnotar | pinto/ra.py:49 | filing keeps `locais_por_decada` the index of the occurrences so far |
| Ra.ConstruirIndice | pinto/ra.py:49 | `locais_por_decada` files each location under exactly its decades; its keys are the decades, once each |
| Ra.PeriodosOcorrencias | pinto/ra.py:49 | a decade is a key exactly when some location occurs in it |
| Ra.ConstruirDecadas | pinto/ra.py:58-59 | the clique pass visits the decades of the rows once each, each with its locations once each |
| Ra.JulgamentosUm | pinto/ra.py:164 | changing one edge changes a decade sum by the change of its term |
| Ra.TotalArestas | pinto/ra.py:164 | the totals depend on the edges alone |
| Ra.TotalUmaChave | pinto/ra.py:164 | a change to one edge moves a total by the change of its term |
| Ra.TotalSemContagem | pinto/ra.py:52-63 | an edge without counts leaves every total as it was |
| Ra.TotalComContagem | pinto/ra.py:39-46 | the upsert adds the row's trials to the totals of its location and decade only |
| Ra.TotalNovaContagem | pinto/ra.py:44-46 | a new location-decade edge adds the row's trials to its decade's total and to no other |
| Ra.TotalMaisContagem | pinto/ra.py:39-42 | an existing count edge adds the row's trials to its decade's total and to no other |
| Ra.TotalAplicar | pinto/ra.py:39-55 | a used row adds its trials to its decade's total and to no label but its location |
| Ra.ConstruirTotal | pinto/ra.py:39-46 | the total of a decade that is no location is the trials of its rows |
| Ra.LigarParesSpec | pinto/ra.py:60-63 | one decade's pairs: no node changes, the pair keys join the edges, existing edges keep their attributes, new ones are `mesma_decada` edges of that decade, totals unchanged |
| Ra.PrimeiraSpec | pinto/ra.py:58-63 | `Primeira` is the first decade whose pairs give a key, None when none does |
| Ra.PrimeiraNenhuma | pinto/ra.py:58-63 | no decade adds an edge for a key exactly when no decade's pairs give that key |
| Ra.PrimeiraIndice | pinto/ra.py:58-63 | the decade that adds a key is the first one whose pairs give it |
| Ra.LigarDecadasSpec | pinto/ra.py:58-63 | the whole pass adds exactly the keys some decade gives, each carrying the first such decade; old edges keep their attributes; totals unchanged |
| Ra.LigaSpec | pinto/ra.py:60-61 | over a list without repeats the index pairs i < j give exactly the keys of two different listed locations |
| Ra.LigaSo | pinto/ra.py:60-61 | a key the pairs give joins two different locations of the list |
| Ra.LigaTodas | pinto/ra.py:60-61 | any two different locations of the list are joined by the pairs |
| Ra.LigaForma | pinto/ra.py:60-61 | every key the pairs give joins two different listed locations |
| Ra.ConstruirLugares | pinto/ra.py:35 | every location of the rows is a node |
| Ra.ScriptArestas | pinto/ra.py:58-63 | after the clique every two locations sharing a decade are adjacent, the rows' edges keep their attributes, and each new edge is a `mesma_decada` edge of a decade both ends share |
| Ra.ScriptValida | pinto/ra.py:19-63 | the final graph is well formed |
| Ra.ScriptMantem | pinto/ra.py:58-63 | the clique keeps every edge of the row loop |
| Ra.ScriptJunta | pinto/ra.py:58-63 | two locations with rows in a common decade end up joined |
| Ra.ScriptSoDecada | pinto/ra.py:62-63 | every edge the clique adds is a count-free `mesma_decada` edge whose two locations have rows in the decade it carries |
| Ra.NosDoTipoSpec | pinto/ra.py:154-161 | the selected nodes are exactly those of the type, once each when the input is |
| Ra.GrauEmSpec | pinto/ra.py:155 | the degree over distinct keys counts the keys at the node, a self-loop twice |
| Ra.GrauSpec | pinto/ra.py:155 | the degree of n is the number of edges at n, a loop counted twice |
| Ra.JulgamentosPorDecada | pinto/ra.py:161-165 | the loop lists the decade nodes in node order, each with its total |
| Ra.GrausSpec | pinto/ra.py:155 | entry i is node i with its degree |
| Ra.TotaisSpec | pinto/ra.py:163-165 | entry i is decade i with its total |
| Common.TopN | pinto/ra.py:155 | `sorted(..., reverse=True)[:n]`: min(n, len) entries, non-increasing, drawn from the input, none left out larger |
| Ra.TopLocaisSpec | pinto/ra.py:154-155 | at most ten location nodes with their degrees, non-increasing, no location left out larger |
| Ra.TopDecadasSpec | pinto/ra.py:161-167 | at most five decade nodes with their totals, non-increasing, no decade left out larger |
| Ra.ScriptDecadas | pinto/ra.py:19-63 | under separate labels the script's graph has the rows' node kinds, and each decade's total is the trials of its rows |
| Ra.NosDoTipoCard | pinto/ra.py:154-161 | the nodes of a kind are as many as the labels of that kind |
| Ra.ScriptTopDecadas | pinto/ra.py:160-168 | under separate labels the report lists min(5, decades) decades of the rows with the trials of their rows, non-increasing, none left out larger |
| Ra.IncidenteContagem | pinto/ra.py:44 | a counted edge at a location joins it to one of its decades |
| Ra.IncidenteFonte | pinto/ra.py:54 | a `documenta` edge at a location joins it to one of its sources |
| Ra.IncidenteClique | pinto/ra.py:63 | a clique edge at a location joins it to a location sharing a decade |
| Ra.IncidenteForma | pinto/ra.py:44-63 | every edge at a location joins it to one of its decades, sources or companions |
| Ra.IncidenteDe | pinto/ra.py:44-63 | the script joins a location to each of its decades, sources and companions |
| Ra.IncidenteDecada | pinto/ra.py:44 | a location is joined to each decade of its rows |
| Ra.IncidenteDocumento | pinto/ra.py:54 | a location is joined to each source documenting it |
| Ra.IncidenteCompanheira | pinto/ra.py:63 | a location is joined to each location sharing a decade with it |
| Ra.ScriptIncidentes | pinto/ra.py:44-63 | the edges at a location are exactly those to its decades, sources and co-decade locations |
| Ra.VizinhosSeparados | pinto/ra.py:44-63 | the three kinds of neighbours are disjoint and never the location itself |
| Ra.ScriptGrau | pinto/ra.py:155 | a location's degree is its decades plus its sources plus the other locations sharing a decade |
| Ra.ScriptTopLocais | pinto/ra.py:153-157 | under separate labels the report lists min(10, locations) locations with the degree `ScriptGrau` counts, non-increasing, none left out larger |
| Ra.ExecutarRa | pinto/ra.py:7-168 | the whole script: the loop, the clique and the two rankings equal the spec functions, or the exception of the loop |

## Left out

- Rendering is not modelled: matplotlib, layouts, colours, node sizes, edge widths, `savefig` and `plt.show`. This covers `visualizar_grafo` and the plotting tails of every query in `src/core/visualization.py`, `_visualizar_grafo` in `Codigo/teste3.py`, and the drawing code in `Codigo/teste.py` and `pinto/ra.py:66-145`. Drawing does not change any result, with one exception the model keeps: `min(node_colors)` in `Codigo/teste.py:159` raises `ValueError` on an empty subgraph (`Teste.RegioesLetaisConectadas`).
- File input, printing and directory creation are not modelled. CSV loading (`src/core/data_loader.py`, `read_csv`, `DictReader`) becomes a parameter holding the rows. A failed load in the class is a `None` table.
- `src/main.py` and `src/core/ml_analysis.py` are not part of this model. The first is a driver; the second is library statistics.
- `analisar_centralidades` and `densidade_rede` in `src/core/graph_analysis.py:42-66` are not modelled. They print float centralities and the density computed by networkx. `GraphAnalysis.MaisCentralSpec` uses the fact that degree centrality is degree/(n-1), so its maximiser is the node of maximal degree.
- `greedy_modularity_communities` is not modelled. `GraphAnalysis.DetectarComunidades` takes its partition as a parameter.
- `np.corrcoef` in `Codigo/teste.py:95` is float statistics and is not modelled. The coordinate pairs it receives are modelled.
- Death rates are exact `real` quotients, not IEEE doubles.
- `pd.to_numeric(..., errors='coerce').fillna(0).astype(int)` is modelled as a raw count that either parses to an integer or becomes 0. Float strings and truncation are not modelled. In `Codigo/teste.py:15-16`, `int(row['tried'])` and `int(row['deaths'])` raise `ValueError` on a non-numeric string cell and truncate a float; the model takes these cells as already-parsed integers, so neither the error nor the truncation is modelled.
- `strip` removes Python's whitespace set (`Common.IsSpace`). `str.isdigit` and `lower` are modelled for ASCII only. Unicode digits and case folding are not.
- Analysis.CalcularTaxasSpec: this report, and `Analysis.ExecutarAnaliseCompleta` built on it, use the corrected rate `Analysis.TaxaMortalidade`. For 0 total trials it promises 0.0 where `src/core/analysis.py:41` as written yields inf or NaN; the as-written quotient is `Analysis.TaxaMortalidadeComoEscrita`, and `Analysis.TaxaMortalidadeSemJulgamentos` exhibits the difference (see Findings).
- Teste.PadroesDoGrafo: pandas reads the decade column as numbers and networkx sorts those numbers. The model labels a decade by its decimal digits and orders by `Teste.NumeroDecada`, the value of those digits; the order is strictly numeric for canonical labels (no leading zeros). A label that is not all digits is given the value -1, which the numeric source cannot have. Float decade columns, which would print as `1560.0`, are not modelled.
- Visualization.RankTableSpec: pandas `sort_values` uses quicksort, which is not stable. The model uses a stable sort, and the contract claims only descending order, a prefix of a permutation, and "none left out larger". The tie order is not claimed.
- Preprocessing.CoreRowSpec: `Preprocessing.CoreReady` excludes two kinds of row with a country, because neither gives a string label: a missing decade, which the package leaves NaN, and a missing city with a missing or empty adm1, whose key is NaN. A missing city with a present adm1 is modelled: the f-string writes it as `nan`. The same precondition is inherited by `Preprocessing.PreprocessarConcat`, `Preprocessing.PreprocessarKeepsCountryRows` and `Analysis.TotalsMatchGraph`.
- GraphBuilder.BuildBipartite: like `GraphBuilder.BuildKinds`, `Teste.MontarTipos` and `GraphAnalysis.LocalSubgraphHasNoEdges`, it assumes that no label is both a location and a decade. With a collision, the later `add_node` retypes the node.
- Ra.ScriptDecadas: the node-kind, total and degree theorems about `pinto/ra.py` assume `Separados`, meaning no label is two of location, decade and source. Without it, `add_node` retypes the node and `+=` on a `documenta` edge raises `KeyError`. The model keeps that error path (`Ra.GrafoRa.AddCounts`, `Ra.ConstruirErro`), but the theorems do not describe it.
- The iteration order of Python sets and of networkx adjacency is modelled as insertion order. This affects `list(locais)` in `pinto/ra.py:59` and the edge views of `nx.Graph`. Sums, degrees and the set of clique edges do not depend on it. Which decade a clique edge records does depend on the order of decades, and the model records the first one in insertion order.
- The induced subgraphs in `Codigo/teste.py:142` and `src/core/visualization.py:183-188` are modelled as sets of nodes and edge keys. Their networkx order is not modelled.
- Ra.JulgamentosPorDecada: when selecting nodes by `tipo`, the model skips a label that has no `tipo`, where networkx would raise `KeyError`. In a well-formed graph every node has a `tipo`.
- The exact layout of a pandas DataFrame (index, dtypes) is not modelled. A table is a sequence of row records.
- Visualization.DecadeTableRows and Teste3.WitchTrialsAnalysis.AnalisarTemporal: decades are modelled as digit strings. One blank decade cell makes pandas read the column as floats, so `str(n)` gives `1560.0`; then `str(n).isdigit()` at `src/core/visualization.py:109` and `Codigo/teste3.py:268` selects no decade and `set_index('Década')` raises. That float column is not modelled.

## Findings

| source | as written | input that shows it | evidently intended | confidence | as-written member | corrected member |
|---|---|---|---|---|---|---|
| src/core/analysis.py:19-23 | divides two numpy integer sums inside `try/except ZeroDivisionError`; numpy division by zero returns inf or nan with a warning and does not raise | one row with 0 trials and 2 deaths gives `inf`; 0 trials and 0 deaths gives `nan` | 0.0 when the total of trials is 0 | not executed | Analysis.TaxaMortalidadeSemJulgamentos | Analysis.TaxaMortalidade |
