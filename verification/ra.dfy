/** The second exploratory script: an undirected networkx `Graph` built
    straight from the rows of a `csv.DictReader`, with location, decade and
    source nodes, `julgamentos`/`mortes` counts on the location-decade edges,
    `documenta` edges from a source to a location, and, after the rows, a
    clique of `mesma_decada` edges among the locations of each decade; then
    the ten best-connected locations and the five decades with most trials.

    Every cell is trimmed; a location is the first non-empty of the city,
    adm2, adm1 and adm0 cells, and a count is read only when it is all
    digits. */
module Ra {
  import opened Common
  import opened Graphs

  // ---------------------------------------------------------------------------
  // The rows
  // ---------------------------------------------------------------------------

  /** A row of `csv.DictReader`: the cell under each header key. A key the
      header lacks is absent; a line with fewer cells than the header has None
      (the reader's `restval`) under the keys it lacks. */
  type LinhaCsv = map<string, Option<string>>

  /** The exceptions the loops can raise. */
  datatype Erro =
    | AttributeError   // `.strip()` on the None of a short line
    | KeyError(chave: string)   // `+=` on an edge without the counts

  /** `linha.get(k, padrao).strip()`; None where `.strip()` raises. */
  function Ler(l: LinhaCsv, k: string, padrao: string): Option<string>
  {
    if k !in l then Some(Strip(padrao))
    else if l[k].None? then None
    else Some(Strip(l[k].value))
  }

  /** The eight trimmed cells of a row. */
  datatype Campos = Campos(
    cidade: string, regiao: string, estado: string, pais: string,
    decada: string, fonte: string, julgamentos: string, mortes: string)

  /** The first eight statements of the loop body; None when one of them
      raises. */
  function LerCampos(l: LinhaCsv): Option<Campos>
  {
    var cidade, regiao, estado, pais := Ler(l, "city", ""), Ler(l, "gadm.adm2", ""), Ler(l, "gadm.adm1", ""), Ler(l, "gadm.adm0", "");
    var decada, fonte := Ler(l, "decade", ""), Ler(l, "record.source", "");
    var julgamentos, mortes := Ler(l, "tried", "0"), Ler(l, "deaths", "0");
    if cidade.None? || regiao.None? || estado.None? || pais.None? || decada.None? || fonte.None? || julgamentos.None? || mortes.None? then None
    else Some(Campos(cidade.value, regiao.value, estado.value, pais.value, decada.value, fonte.value, julgamentos.value, mortes.value))
  }

  /** The `nivel` attribute of a location node: the level that supplied it. */
  datatype Nivel = Cidade | Regiao | Estado | Pais

  /** The cell a level reads. */
  function CampoDe(c: Campos, n: Nivel): string
  {
    match n
    case Cidade => c.cidade
    case Regiao => c.regiao
    case Estado => c.estado
    case Pais => c.pais
  }

  /** The levels from the finest to the coarsest. */
  function Ordem(n: Nivel): nat
  {
    match n
    case Cidade => 0
    case Regiao => 1
    case Estado => 2
    case Pais => 3
  }

  /** `cidade or regiao or estado or pais`. */
  function Local(c: Campos): string
  {
    if c.cidade != "" then c.cidade
    else if c.regiao != "" then c.regiao
    else if c.estado != "" then c.estado
    else c.pais
  }

  /** `'cidade' if cidade else 'regiao' if regiao else 'estado' if estado
      else 'pais'`. */
  function NivelDe(c: Campos): Nivel
  {
    if c.cidade != "" then Cidade
    else if c.regiao != "" then Regiao
    else if c.estado != "" then Estado
    else Pais
  }

  /** The location is the cell of the level `nivel` names, every finer level
      is empty, and the location is empty exactly when all four cells are. */
  lemma LocalSpec(c: Campos)
    ensures Local(c) == CampoDe(c, NivelDe(c))
    ensures forall n :: Ordem(n) < Ordem(NivelDe(c)) ==> CampoDe(c, n) == ""
    ensures Local(c) == "" <==> forall n :: CampoDe(c, n) == ""
  {
    if Local(c) == "" {
      forall n ensures CampoDe(c, n) == "" {
        match n
        case Cidade =>
        case Regiao =>
        case Estado =>
        case Pais =>
      }
    } else {
      assert CampoDe(c, NivelDe(c)) != "";
    }
  }

  /** `int(x) if x.isdigit() else 0`. */
  function Contar(s: string): nat
  {
    if IsDigits(s) then DigitsValue(s) else 0
  }

  /** A count written by `str` reads back as itself; a cell with any other
      character, a sign or a point included, and the empty cell read as 0. */
  lemma ContarSpec(s: string, n: nat)
    ensures Contar(Decimal(n)) == n
    ensures (exists i :: 0 <= i < |s| && !IsDigit(s[i])) ==> Contar(s) == 0
    ensures s == "" ==> Contar(s) == 0
  {
    DecimalValue(n);
  }

  /** Three cells as a CSV file holds them. */
  lemma ContarExemplos()
    ensures Contar("12") == 12 && Contar("-3") == 0 && Contar("2.5") == 0
  {
    assert "12"[..1] == "1";
    assert "12"[..1][..0] == "";
    assert !IsDigit("-3"[0]);
    assert !IsDigit("2.5"[1]);
  }

  // ---------------------------------------------------------------------------
  // The undirected graph
  // ---------------------------------------------------------------------------

  /** The `tipo` attribute of a node. */
  datatype TipoNo = NoLocal | NoDecada | NoFonte

  /** The `tipo` attribute of an edge. */
  datatype TipoAresta = Documenta | MesmaDecada

  /** The attribute dict of an edge: the `julgamentos`/`mortes` counts (set
      together), `tipo` and `decada`; None is a key the dict lacks. */
  datatype Atributos = Atributos(contagem: Option<Acc>, tipo: Option<TipoAresta>, decada: Option<Label>)

  /** `dict.update(b)`: what b sets replaces a's value, the rest stays. */
  function Atualizar(a: Atributos, b: Atributos): Atributos
  {
    Atributos(
      if b.contagem.Some? then b.contagem else a.contagem,
      if b.tipo.Some? then b.tipo else a.tipo,
      if b.decada.Some? then b.decada else a.decada)
  }

  /** An undirected graph: nodes in insertion order with their `tipo` and
      `nivel`, edge keys (`Chave`) in insertion order, and each key's
      attributes. */
  datatype RedeRa = RedeRa(
    nodes: seq<Label>, tipo: map<Label, TipoNo>, nivel: map<Label, Nivel>,
    arestas: seq<set<Label>>, dados: map<set<Label>, Atributos>)

  /** What every graph of the script satisfies: nodes and edge keys are
      listed once, every node has a `tipo`, every key has attributes, and
      every edge joins nodes. */
  ghost predicate Valida(g: RedeRa)
  {
    && Distinct(g.nodes)
    && (forall n :: n in g.tipo <==> n in g.nodes)
    && Distinct(g.arestas)
    && (forall k :: k in g.dados <==> k in g.arestas)
    && (forall k, n :: k in g.dados && n in k ==> n in g.tipo)
  }

  function RedeVazia(): RedeRa
  {
    RedeRa([], map[], map[], [], map[])
  }

  /** `add_node(n, tipo=t[, nivel=nv])`: the attributes given replace the
      old ones, the others stay. */
  function ComNo(g: RedeRa, n: Label, t: TipoNo, nv: Option<Nivel>): RedeRa
  {
    g.(nodes := if n in g.nodes then g.nodes else g.nodes + [n],
       tipo := g.tipo[n := t],
       nivel := if nv.Some? then g.nivel[n := nv.value] else g.nivel)
  }

  /** The node `add_edge` creates for an absent endpoint, with no attribute. */
  function ComVertice(g: RedeRa, n: Label): RedeRa
  {
    if n in g.nodes then g else g.(nodes := g.nodes + [n])
  }

  /** `add_edge(u, v, **attr)`: the endpoints are added when absent, then the
      edge's dict is updated with the attributes, or created with them. */
  function ComAresta(g: RedeRa, u: Label, v: Label, attr: Atributos): RedeRa
  {
    var h := ComVertice(ComVertice(g, u), v);
    var k := Chave((u, v));
    if k in h.dados then h.(dados := h.dados[k := Atualizar(h.dados[k], attr)])
    else h.(arestas := h.arestas + [k], dados := h.dados[k := attr])
  }

  /** `G[u][v]['julgamentos'] += ...; G[u][v]['mortes'] += ...` on an edge
      that has the counts. */
  function Acumular(g: RedeRa, k: set<Label>, a: Acc): RedeRa
    requires k in g.dados && g.dados[k].contagem.Some?
  {
    g.(dados := g.dados[k := g.dados[k].(contagem := Some(g.dados[k].contagem.value.Plus(a)))])
  }

  /** A networkx `Graph` restricted to the calls the script makes. */
  class GrafoRa {
    var nodes: seq<Label>
    var tipo: map<Label, TipoNo>
    var nivel: map<Label, Nivel>
    var arestas: seq<set<Label>>
    var dados: map<set<Label>, Atributos>

    function Model(): RedeRa
      reads this
    {
      RedeRa(nodes, tipo, nivel, arestas, dados)
    }

    /** `nx.Graph()`. */
    constructor ()
      ensures Model() == RedeVazia()
    {
      nodes, tipo, nivel, arestas, dados := [], map[], map[], [], map[];
    }

    /** `add_node(n, tipo=t[, nivel=nv])`. */
    method AddNode(n: Label, t: TipoNo, nv: Option<Nivel>)
      modifies this
      ensures Model() == ComNo(old(Model()), n, t, nv)
    {
      if n !in nodes {
        nodes := nodes + [n];
      }
      tipo := tipo[n := t];
      if nv.Some? {
        nivel := nivel[n := nv.value];
      }
    }

    /** `has_edge(u, v)`, in either direction. */
    method HasEdge(u: Label, v: Label) returns (b: bool)
      ensures b <==> Chave((u, v)) in Model().dados
    {
      b := {u, v} in dados;
    }

    /** `add_edge(u, v, **attr)`. */
    method AddEdge(u: Label, v: Label, attr: Atributos)
      modifies this
      ensures Model() == ComAresta(old(Model()), u, v, attr)
    {
      if u !in nodes {
        nodes := nodes + [u];
      }
      if v !in nodes {
        nodes := nodes + [v];
      }
      var k := {u, v};
      if k in dados {
        dados := dados[k := Atualizar(dados[k], attr)];
      } else {
        arestas := arestas + [k];
        dados := dados[k := attr];
      }
    }

    /** `self[u][v]['julgamentos'] += ...; self[u][v]['mortes'] += ...` on an
        existing edge: a `KeyError`, with nothing changed, when the edge has
        no counts. */
    method AddCounts(u: Label, v: Label, a: Acc) returns (erro: Option<Erro>)
      requires Chave((u, v)) in dados
      modifies this
      ensures old(dados[{u, v}]).contagem.None? ==> erro == Some(KeyError("julgamentos")) && Model() == old(Model())
      ensures old(dados[{u, v}]).contagem.Some? ==> erro.None? && Model() == Acumular(old(Model()), Chave((u, v)), a)
    {
      var k := {u, v};
      if dados[k].contagem.None? {
        return Some(KeyError("julgamentos"));
      }
      dados := dados[k := dados[k].(contagem := Some(dados[k].contagem.value.Plus(a)))];
      erro := None;
    }
  }

  // ---------------------------------------------------------------------------
  // The build loop
  // ---------------------------------------------------------------------------

  /** The loop's state: the graph, `locais_por_decada` (its keys in insertion
      order in `decadas`, each set as the list of its locations in insertion
      order) and `fontes_por_local`, which is keyed by source. */
  datatype Objetos = Objetos(g: RedeRa, decadas: seq<Label>, locais: map<Label, seq<Label>>, fontes: map<Label, set<Label>>)

  function Inicial(): Objetos
  {
    Objetos(RedeVazia(), [], map[], map[])
  }

  /** `locais_por_decada[decada].add(local)`. */
  function Anotar(st: Objetos, d: Label, l: Label): Objetos
  {
    if d !in st.locais then st.(decadas := st.decadas + [d], locais := st.locais[d := [l]])
    else if l in st.locais[d] then st
    else st.(locais := st.locais[d := st.locais[d] + [l]])
  }

  /** `fontes_por_local[fonte].add(local)`. */
  function Documentar(st: Objetos, f: Label, l: Label): Objetos
  {
    st.(fontes := st.fontes[f := (if f in st.fontes then st.fontes[f] else {}) + {l}])
  }

  /** Lines 39-46: add into the location-decade edge, or create it with the
      counts; a `KeyError` when the existing edge has none. */
  function ComContagem(g: RedeRa, local: Label, decada: Label, a: Acc): Result<RedeRa, Erro>
  {
    var k := Chave((local, decada));
    if k !in g.dados then Ok(ComAresta(g, local, decada, Atributos(Some(a), None, None)))
    else if g.dados[k].contagem.None? then Err(KeyError("julgamentos"))
    else Ok(Acumular(g, k, a))
  }

  /** Lines 52-55 for a non-empty source. */
  function ComFonte(st: Objetos, f: Label, local: Label): Objetos
  {
    var g := ComAresta(ComNo(st.g, f, NoFonte, None), f, local, Atributos(None, Some(Documenta), None));
    Documentar(st.(g := g), f, local)
  }

  /** A row whose location and decade are not empty: the rows the loop
      does not skip. */
  predicate Usa(c: Campos)
  {
    Local(c) != "" && c.decada != ""
  }

  /** The counts of a row's cells. */
  function Contagens(c: Campos): Acc
  {
    Acc(Contar(c.julgamentos), Contar(c.mortes))
  }

  /** The loop body once the cells are read. */
  function Aplicar(st: Objetos, c: Campos): Result<Objetos, Erro>
  {
    if !Usa(c) then Ok(st)
    else
      var local, decada := Local(c), c.decada;
      var g := ComNo(ComNo(st.g, local, NoLocal, Some(NivelDe(c))), decada, NoDecada, None);
      var r := ComContagem(g, local, decada, Contagens(c));
      if r.Err? then Err(r.error)
      else
        var st := Anotar(st.(g := r.value), decada, local);
        if c.fonte == "" then Ok(st) else Ok(ComFonte(st, c.fonte, local))
  }

  /** One iteration of the loop over the rows. */
  function Passo(st: Objetos, l: LinhaCsv): Result<Objetos, Erro>
  {
    var lido := LerCampos(l);
    if lido.None? then Err(AttributeError) else Aplicar(st, lido.value)
  }

  /** The state after the given rows, or the exception that stopped the
      loop. */
  function Construir(ls: seq<LinhaCsv>): Result<Objetos, Erro>
  {
    if ls == [] then Ok(Inicial())
    else
      var r := Construir(ls[..|ls| - 1]);
      if r.Err? then r else Passo(r.value, ls[|ls| - 1])
  }

  /** Once a row has raised, the whole loop has raised with that exception. */
  lemma {:induction false} ConstruirErro(ls: seq<LinhaCsv>, i: nat)
    requires i <= |ls| && Construir(ls[..i]).Err?
    ensures Construir(ls) == Construir(ls[..i])
    decreases |ls| - i
  {
    if i < |ls| {
      assert ls[..i + 1][..i] == ls[..i];
      ConstruirErro(ls, i + 1);
    } else {
      assert ls[..i] == ls;
    }
  }

  /** Lines 39-46 on the graph object. */
  method AdicionarContagem(grafo: GrafoRa, local: Label, decada: Label, a: Acc) returns (erro: Option<Erro>)
    modifies grafo
    ensures var r := ComContagem(old(grafo.Model()), local, decada, a);
      if r.Err? then erro == Some(r.error) else erro.None? && grafo.Model() == r.value
  {
    var temAresta := grafo.HasEdge(local, decada);
    if temAresta {
      erro := grafo.AddCounts(local, decada, a);
    } else {
      grafo.AddEdge(local, decada, Atributos(Some(a), None, None));
      erro := None;
    }
  }

  /** One iteration of the loop, on the graph object and the two dicts. */
  method ProcessarLinha(grafo: GrafoRa, decadas: seq<Label>, locais: map<Label, seq<Label>>, fontes: map<Label, set<Label>>, linha: LinhaCsv)
    returns (decadas': seq<Label>, locais': map<Label, seq<Label>>, fontes': map<Label, set<Label>>, erro: Option<Erro>)
    modifies grafo
    ensures var r := Passo(Objetos(old(grafo.Model()), decadas, locais, fontes), linha);
      if r.Err? then erro == Some(r.error) else erro.None? && r.value == Objetos(grafo.Model(), decadas', locais', fontes')
  {
    decadas', locais', fontes', erro := decadas, locais, fontes, None;
    var lido := LerCampos(linha);
    if lido.None? {
      erro := Some(AttributeError);
      return;
    }
    var c := lido.value;
    var local, decada := Local(c), c.decada;
    if local == "" || decada == "" {
      return;
    }
    grafo.AddNode(local, NoLocal, Some(NivelDe(c)));
    grafo.AddNode(decada, NoDecada, None);
    erro := AdicionarContagem(grafo, local, decada, Acc(Contar(c.julgamentos), Contar(c.mortes)));
    if erro.Some? {
      return;
    }
    if decada !in locais {
      decadas' := decadas + [decada];
      locais' := locais[decada := [local]];
    } else if local !in locais[decada] {
      locais' := locais[decada := locais[decada] + [local]];
    }
    if c.fonte != "" {
      grafo.AddNode(c.fonte, NoFonte, None);
      grafo.AddEdge(c.fonte, local, Atributos(None, Some(Documenta), None));
      fontes' := fontes[c.fonte := (if c.fonte in fontes then fontes[c.fonte] else {}) + {local}];
    }
  }

  /** The module-level loop over the rows, with the three objects it fills;
      `erro` is the exception that ended it early. */
  method ConstruirRa(dados: seq<LinhaCsv>)
    returns (grafo: GrafoRa, decadas: seq<Label>, locais: map<Label, seq<Label>>, fontes: map<Label, set<Label>>, erro: Option<Erro>)
    ensures fresh(grafo)
    ensures Construir(dados).Err? ==> erro == Some(Construir(dados).error)
    ensures Construir(dados).Ok? ==> erro.None? && Construir(dados).value == Objetos(grafo.Model(), decadas, locais, fontes)
  {
    grafo := new GrafoRa();
    decadas, locais, fontes, erro := [], map[], map[], None;
    for i := 0 to |dados|
      invariant erro.None? && Construir(dados[..i]) == Ok(Objetos(grafo.Model(), decadas, locais, fontes))
    {
      assert dados[..i + 1][..i] == dados[..i];
      decadas, locais, fontes, erro := ProcessarLinha(grafo, decadas, locais, fontes, dados[i]);
      if erro.Some? {
        ConstruirErro(dados, i + 1);
        return;
      }
    }
    assert dados[..|dados|] == dados;
  }

  // ---------------------------------------------------------------------------
  // The same-decade clique
  // ---------------------------------------------------------------------------

  /** The inner test of the clique loops: every pair i < j is tried. */
  predicate Sempre(a: Label, b: Label)
  {
    true
  }

  /** `if not grafo.has_edge(a, b): grafo.add_edge(a, b, tipo='mesma_decada',
      decada=d)` for each pair in turn. */
  function LigarPares(g: RedeRa, ps: seq<Edge>, d: Label): RedeRa
  {
    if ps == [] then g
    else
      var h, p := LigarPares(g, ps[..|ps| - 1], d), ps[|ps| - 1];
      if Chave(p) in h.dados then h else ComAresta(h, p.0, p.1, Atributos(None, Some(MesmaDecada), Some(d)))
  }

  /** The clique loops over `locais_por_decada.items()`. */
  function LigarDecadas(g: RedeRa, ds: seq<Label>, locais: map<Label, seq<Label>>): RedeRa
    requires forall d :: d in ds ==> d in locais
  {
    if ds == [] then g
    else
      var d := ds[|ds| - 1];
      LigarPares(LigarDecadas(g, ds[..|ds| - 1], locais), Pares(locais[d], Sempre), d)
  }

  lemma {:induction false} LigarParesConcat(g: RedeRa, a: seq<Edge>, b: seq<Edge>, d: Label)
    ensures LigarPares(g, a + b, d) == LigarPares(LigarPares(g, a, d), b, d)
    decreases |b|
  {
    if b == [] {
      assert a + b == a;
    } else {
      LigarParesConcat(g, a, b[..|b| - 1], d);
      assert (a + b)[..|a + b| - 1] == a + b[..|b| - 1];
    }
  }

  /** `for j in range(i + 1, len(locais))` for one i. */
  method LigarDe(grafo: GrafoRa, locs: seq<Label>, i: nat, d: Label)
    requires i < |locs|
    modifies grafo
    ensures grafo.Model() == LigarPares(old(grafo.Model()), ParesDe(locs, Sempre, i, |locs|), d)
  {
    ghost var g0 := grafo.Model();
    ghost var ps: seq<Edge> := [];
    for j := i + 1 to |locs|
      invariant ps == Seguintes(locs, i, j)
      invariant grafo.Model() == LigarPares(g0, ps, d)
    {
      LigarDeUm(grafo, g0, ps, locs[i], locs[j], d);
      ps := ps + [(locs[i], locs[j])];
    }
    SeguintesPares(locs, i, |locs|);
  }

  /** The pairs of locs[i] with each later location below j, in order. */
  function Seguintes(locs: seq<Label>, i: nat, j: nat): seq<Edge>
    requires i < |locs| && j <= |locs|
    decreases j
  {
    if j <= i + 1 then [] else Seguintes(locs, i, j - 1) + [(locs[i], locs[j - 1])]
  }

  /** The inner loop of the clique tries every later location. */
  lemma {:induction false} SeguintesPares(locs: seq<Label>, i: nat, j: nat)
    requires i < |locs| && j <= |locs|
    ensures Seguintes(locs, i, j) == ParesDe(locs, Sempre, i, j)
    decreases j
  {
    if j <= i + 1 {
      ParesDeInicio(locs, Sempre, i, j);
    } else {
      SeguintesPares(locs, i, j - 1);
    }
  }

  /** One pass of the inner loop: pair a with b after the pairs ps. */
  method LigarDeUm(grafo: GrafoRa, ghost g0: RedeRa, ghost ps: seq<Edge>, a: Label, b: Label, d: Label)
    requires grafo.Model() == LigarPares(g0, ps, d)
    modifies grafo
    ensures grafo.Model() == LigarPares(g0, ps + [(a, b)], d)
  {
    LigarParesPasso(g0, ps, (a, b), d);
    LigarPar(grafo, a, b, d);
  }

  /** `if not grafo.has_edge(a, b): grafo.add_edge(a, b, tipo='mesma_decada',
      decada=d)`. */
  method LigarPar(grafo: GrafoRa, a: Label, b: Label, d: Label)
    modifies grafo
    ensures grafo.Model() == if Chave((a, b)) in old(grafo.Model()).dados then old(grafo.Model())
                             else ComAresta(old(grafo.Model()), a, b, Atributos(None, Some(MesmaDecada), Some(d)))
  {
    var existe := grafo.HasEdge(a, b);
    if !existe {
      grafo.AddEdge(a, b, Atributos(None, Some(MesmaDecada), Some(d)));
    }
  }

  /** One more pair: its edge is added unless the two are already joined. */
  lemma LigarParesPasso(g: RedeRa, ps: seq<Edge>, p: Edge, d: Label)
    ensures var h := LigarPares(g, ps, d);
      LigarPares(g, ps + [p], d) == if Chave(p) in h.dados then h else ComAresta(h, p.0, p.1, Atributos(None, Some(MesmaDecada), Some(d)))
  {
    assert (ps + [p])[..|ps|] == ps;
  }

  /** The pairs of one decade. */
  method LigarDecada(grafo: GrafoRa, locs: seq<Label>, d: Label)
    modifies grafo
    ensures grafo.Model() == LigarPares(old(grafo.Model()), Pares(locs, Sempre), d)
  {
    ghost var g0 := grafo.Model();
    for i := 0 to |locs|
      invariant grafo.Model() == LigarPares(g0, ParesAte(locs, Sempre, i), d)
    {
      LigarDe(grafo, locs, i, d);
      LigarParesConcat(g0, ParesAte(locs, Sempre, i), ParesDe(locs, Sempre, i, |locs|), d);
    }
  }

  /** `for decada, locais in locais_por_decada.items(): ...`, with each set
      listed in insertion order. */
  method LigarMesmaDecada(grafo: GrafoRa, decadas: seq<Label>, locais: map<Label, seq<Label>>)
    requires forall d :: d in decadas ==> d in locais
    modifies grafo
    ensures grafo.Model() == LigarDecadas(old(grafo.Model()), decadas, locais)
  {
    ghost var g0 := grafo.Model();
    for k := 0 to |decadas|
      invariant grafo.Model() == LigarDecadas(g0, decadas[..k], locais)
    {
      assert decadas[..k + 1][..k] == decadas[..k];
      LigarDecada(grafo, locais[decadas[k]], decadas[k]);
    }
    assert decadas[..|decadas|] == decadas;
  }

  /** The graph the script draws: the rows, then the clique. */
  function Script(ls: seq<LinhaCsv>): Result<RedeRa, Erro>
  {
    var r := Construir(ls);
    if r.Err? then Err(r.error)
    else
      ConstruirDecadas(ls);
      Ok(LigarDecadas(r.value.g, r.value.decadas, r.value.locais))
  }

  // ---------------------------------------------------------------------------
  // What the rows determine
  // ---------------------------------------------------------------------------

  /** A row the loop uses: its cells read, and its location and decade are
      not empty. */
  predicate Usada(l: LinhaCsv)
  {
    LerCampos(l).Some? && Usa(LerCampos(l).value)
  }

  function Lugar(l: LinhaCsv): Label
    requires Usada(l)
  {
    Local(LerCampos(l).value)
  }

  function Periodo(l: LinhaCsv): Label
    requires Usada(l)
  {
    LerCampos(l).value.decada
  }

  function Fonte(l: LinhaCsv): Label
    requires Usada(l)
  {
    LerCampos(l).value.fonte
  }

  /** The counts a used row adds to its edge. */
  function Contagem(l: LinhaCsv): Acc
    requires Usada(l)
  {
    Contagens(LerCampos(l).value)
  }

  /** A used row with a source. */
  predicate Documentada(l: LinhaCsv)
  {
    Usada(l) && Fonte(l) != ""
  }

  function Lugares(ls: seq<LinhaCsv>): set<Label>
  {
    set l | l in ls && Usada(l) :: Lugar(l)
  }

  function Periodos(ls: seq<LinhaCsv>): set<Label>
  {
    set l | l in ls && Usada(l) :: Periodo(l)
  }

  function Fontes(ls: seq<LinhaCsv>): set<Label>
  {
    set l | l in ls && Documentada(l) :: Fonte(l)
  }

  /** The (location, decade) pairs of the used rows. */
  function Ocorrencias(ls: seq<LinhaCsv>): set<(Label, Label)>
  {
    set l | l in ls && Usada(l) :: (Lugar(l), Periodo(l))
  }

  /** The keys of the location-decade edges. */
  function ChavesContagem(ls: seq<LinhaCsv>): set<set<Label>>
  {
    set l | l in ls && Usada(l) :: Chave((Lugar(l), Periodo(l)))
  }

  /** The keys of the `documenta` edges. */
  function ChavesFonte(ls: seq<LinhaCsv>): set<set<Label>>
  {
    set l | l in ls && Documentada(l) :: Chave((Fonte(l), Lugar(l)))
  }

  /** Every row's cells read, and no label is two of a location, a decade
      and a source: the condition under which the loop cannot raise. */
  predicate Separados(ls: seq<LinhaCsv>)
  {
    && (forall l :: l in ls ==> LerCampos(l).Some?)
    && Lugares(ls) !! Periodos(ls)
    && Fontes(ls) !! Lugares(ls)
    && Fontes(ls) !! Periodos(ls)
  }

  /** The rows are those of the prefix and the last one. */
  lemma UltimaLinhaMembros(ls: seq<LinhaCsv>)
    requires ls != []
    ensures forall l :: l in ls <==> l in ls[..|ls| - 1] || l == ls[|ls| - 1]
  {
    assert ls == ls[..|ls| - 1] + [ls[|ls| - 1]];
  }

  /** The labels of the rows grow by those of the last row. */
  lemma UltimaLinhaRotulos(ls: seq<LinhaCsv>)
    requires ls != []
    ensures var p, l := ls[..|ls| - 1], ls[|ls| - 1];
      && Lugares(ls) == Lugares(p) + (if Usada(l) then {Lugar(l)} else {})
      && Periodos(ls) == Periodos(p) + (if Usada(l) then {Periodo(l)} else {})
      && Fontes(ls) == Fontes(p) + (if Documentada(l) then {Fonte(l)} else {})
  {
    UltimaLinhaMembros(ls);
  }

  /** The pairs and keys of the rows grow by those of the last row. */
  lemma UltimaLinhaChaves(ls: seq<LinhaCsv>)
    requires ls != []
    ensures var p, l := ls[..|ls| - 1], ls[|ls| - 1];
      && Ocorrencias(ls) == Ocorrencias(p) + (if Usada(l) then {(Lugar(l), Periodo(l))} else {})
      && ChavesContagem(ls) == ChavesContagem(p) + (if Usada(l) then {Chave((Lugar(l), Periodo(l)))} else {})
      && ChavesFonte(ls) == ChavesFonte(p) + (if Documentada(l) then {Chave((Fonte(l), Lugar(l)))} else {})
  {
    UltimaLinhaMembros(ls);
  }

  lemma UltimaLinha(ls: seq<LinhaCsv>)
    requires ls != []
    ensures var p, l := ls[..|ls| - 1], ls[|ls| - 1];
      && Lugares(ls) == Lugares(p) + (if Usada(l) then {Lugar(l)} else {})
      && Periodos(ls) == Periodos(p) + (if Usada(l) then {Periodo(l)} else {})
      && Fontes(ls) == Fontes(p) + (if Documentada(l) then {Fonte(l)} else {})
      && Ocorrencias(ls) == Ocorrencias(p) + (if Usada(l) then {(Lugar(l), Periodo(l))} else {})
      && ChavesContagem(ls) == ChavesContagem(p) + (if Usada(l) then {Chave((Lugar(l), Periodo(l)))} else {})
      && ChavesFonte(ls) == ChavesFonte(p) + (if Documentada(l) then {Chave((Fonte(l), Lugar(l)))} else {})
  {
    UltimaLinhaRotulos(ls);
    UltimaLinhaChaves(ls);
  }

  lemma SeparadosPrefixo(ls: seq<LinhaCsv>)
    requires ls != [] && Separados(ls)
    ensures Separados(ls[..|ls| - 1])
  {
    UltimaLinhaRotulos(ls);
    forall l | l in ls[..|ls| - 1] ensures LerCampos(l).Some? {
      assert l in ls;
    }
  }

  /** The loop raised on no row of a prefix of a loop that did not raise. */
  lemma ConstruirPrefixo(ls: seq<LinhaCsv>)
    requires ls != [] && Construir(ls).Ok?
    ensures Construir(ls[..|ls| - 1]).Ok?
    ensures Passo(Construir(ls[..|ls| - 1]).value, ls[|ls| - 1]) == Construir(ls)
  {
  }

  /** The step of a used row, with its stages named. */
  lemma AplicarUsa(st: Objetos, c: Campos)
    requires Usa(c)
    ensures var g := ComNo(ComNo(st.g, Local(c), NoLocal, Some(NivelDe(c))), c.decada, NoDecada, None);
      var r := ComContagem(g, Local(c), c.decada, Contagens(c));
      && g.dados == st.g.dados && g.arestas == st.g.arestas
      && (r.Err? ==> Aplicar(st, c) == Err(r.error))
      && (r.Ok? && c.fonte == "" ==> Aplicar(st, c) == Ok(Anotar(st.(g := r.value), c.decada, Local(c))))
      && (r.Ok? && c.fonte != "" ==> Aplicar(st, c) == Ok(ComFonte(Anotar(st.(g := r.value), c.decada, Local(c)), c.fonte, Local(c))))
  {
  }

  /** `locais_por_decada` is not the graph. */
  lemma AnotarGrafo(st: Objetos, d: Label, l: Label)
    ensures Anotar(st, d, l).g == st.g
  {
  }

  // ---------------------------------------------------------------------------
  // The graph stays well formed
  // ---------------------------------------------------------------------------

  lemma ValidaComNo(g: RedeRa, n: Label, t: TipoNo, nv: Option<Nivel>)
    requires Valida(g)
    ensures Valida(ComNo(g, n, t, nv))
    ensures ComNo(g, n, t, nv).arestas == g.arestas && ComNo(g, n, t, nv).dados == g.dados
  {
    if n !in g.nodes {
      DistinctAppend(g.nodes, n);
    }
  }

  /** An edge between two nodes that have a `tipo` adds no node. */
  lemma ValidaComAresta(g: RedeRa, u: Label, v: Label, attr: Atributos)
    requires Valida(g) && u in g.tipo && v in g.tipo
    ensures var h := ComAresta(g, u, v, attr);
      && Valida(h)
      && h.nodes == g.nodes && h.tipo == g.tipo && h.nivel == g.nivel
  {
    var k := Chave((u, v));
    if k !in g.dados {
      DistinctAppend(g.arestas, k);
    }
  }

  lemma ValidaContagem(g: RedeRa, u: Label, v: Label, a: Acc)
    requires Valida(g) && u in g.tipo && v in g.tipo && ComContagem(g, u, v, a).Ok?
    ensures var h := ComContagem(g, u, v, a).value;
      Valida(h) && h.nodes == g.nodes && h.tipo == g.tipo && h.nivel == g.nivel
  {
    if Chave((u, v)) !in g.dados {
      ValidaComAresta(g, u, v, Atributos(Some(a), None, None));
    }
  }

  lemma ValidaComFonte(st: Objetos, f: Label, local: Label)
    requires Valida(st.g) && local in st.g.tipo
    ensures Valida(ComFonte(st, f, local).g)
  {
    ValidaComNo(st.g, f, NoFonte, None);
    ValidaComAresta(ComNo(st.g, f, NoFonte, None), f, local, Atributos(None, Some(Documenta), None));
  }

  /** A step that does not raise keeps the graph well formed. */
  lemma ValidaAplicar(st: Objetos, c: Campos)
    requires Valida(st.g) && Aplicar(st, c).Ok?
    ensures Valida(Aplicar(st, c).value.g)
  {
    if Usa(c) {
      AplicarUsa(st, c);
      ValidaComNo(st.g, Local(c), NoLocal, Some(NivelDe(c)));
      var g1 := ComNo(st.g, Local(c), NoLocal, Some(NivelDe(c)));
      ValidaComNo(g1, c.decada, NoDecada, None);
      var g := ComNo(g1, c.decada, NoDecada, None);
      ValidaContagem(g, Local(c), c.decada, Contagens(c));
      var h := ComContagem(g, Local(c), c.decada, Contagens(c)).value;
      assert Valida(h) && Local(c) in h.tipo;
      var st2 := Anotar(st.(g := h), c.decada, Local(c));
      AnotarGrafo(st.(g := h), c.decada, Local(c));
      if c.fonte != "" {
        ValidaComFonte(st2, c.fonte, Local(c));
      }
    }
  }

  /** The graph after any rows that do not raise is well formed. */
  lemma {:induction false} ConstruirValida(ls: seq<LinhaCsv>)
    requires Construir(ls).Ok?
    ensures Valida(Construir(ls).value.g)
  {
    if ls != [] {
      ConstruirPrefixo(ls);
      ConstruirValida(ls[..|ls| - 1]);
      ValidaAplicar(Construir(ls[..|ls| - 1]).value, LerCampos(ls[|ls| - 1]).value);
    }
  }

  // ---------------------------------------------------------------------------
  // The edges the rows make
  // ---------------------------------------------------------------------------

  /** The attributes of a location-decade edge: the counts and nothing else. */
  predicate DeContagem(a: Atributos)
  {
    a.contagem.Some? && a.tipo.None? && a.decada.None?
  }

  /** The attributes of a `documenta` edge. */
  const DeFonte := Atributos(None, Some(Documenta), None)

  /** The edges of g are exactly the keys cc, carrying counts, and the keys
      cf, carrying `tipo='documenta'` alone. */
  ghost predicate Arestas(g: RedeRa, cc: set<set<Label>>, cf: set<set<Label>>)
  {
    && (forall k :: k in g.dados <==> k in cc || k in cf)
    && (forall k :: k in cc ==> k in g.dados && DeContagem(g.dados[k]))
    && (forall k :: k in cf ==> k in g.dados && g.dados[k] == DeFonte)
  }

  /** Under separate labels no `documenta` key is a location-decade key. */
  lemma ChavesDisjuntas(ls: seq<LinhaCsv>)
    requires Separados(ls)
    ensures ChavesContagem(ls) !! ChavesFonte(ls)
  {
    forall r, q | r in ls && Usada(r) && q in ls && Documentada(q)
      ensures Chave((Lugar(r), Periodo(r))) != Chave((Fonte(q), Lugar(q)))
    {
      assert Fonte(q) in Fontes(ls);
      assert Lugar(r) in Lugares(ls);
      assert Periodo(r) in Periodos(ls);
    }
  }

  /** Lines 39-46 on a key that is not a `documenta` key: no `KeyError`, and
      the key joins the counted ones. */
  lemma ArestasContagem(g: RedeRa, cc: set<set<Label>>, cf: set<set<Label>>, u: Label, v: Label, a: Acc)
    requires Arestas(g, cc, cf) && Chave((u, v)) !in cf
    ensures ComContagem(g, u, v, a).Ok?
    ensures Arestas(ComContagem(g, u, v, a).value, cc + {Chave((u, v))}, cf)
  {
  }

  /** Lines 52-55 on a key that is not a location-decade key. */
  lemma ArestasFonte(g: RedeRa, cc: set<set<Label>>, cf: set<set<Label>>, f: Label, l: Label)
    requires Arestas(g, cc, cf) && Chave((f, l)) !in cc
    ensures Arestas(ComAresta(ComNo(g, f, NoFonte, None), f, l, DeFonte), cc, cf + {Chave((f, l))})
  {
  }

  /** A used row whose keys are not of the other kind. */
  lemma ArestasAplicar(st: Objetos, c: Campos, cc: set<set<Label>>, cf: set<set<Label>>)
    requires Usa(c) && Arestas(st.g, cc, cf)
    requires Chave((Local(c), c.decada)) !in cf
    requires c.fonte != "" ==> Chave((c.fonte, Local(c))) !in cc + {Chave((Local(c), c.decada))}
    ensures Aplicar(st, c).Ok?
    ensures Arestas(Aplicar(st, c).value.g, cc + {Chave((Local(c), c.decada))},
                    cf + (if c.fonte != "" then {Chave((c.fonte, Local(c)))} else {}))
  {
    AplicarUsa(st, c);
    var g := ComNo(ComNo(st.g, Local(c), NoLocal, Some(NivelDe(c))), c.decada, NoDecada, None);
    var k := Chave((Local(c), c.decada));
    ArestasContagem(g, cc, cf, Local(c), c.decada, Contagens(c));
    var h := ComContagem(g, Local(c), c.decada, Contagens(c)).value;
    AnotarGrafo(st.(g := h), c.decada, Local(c));
    if c.fonte != "" {
      ArestasFonte(h, cc + {k}, cf, c.fonte, Local(c));
    }
  }

  /** One row under separate labels: no exception, and the edges are those
      of the rows so far. */
  lemma ArestasPasso(ls: seq<LinhaCsv>, st: Objetos)
    requires ls != [] && Separados(ls)
    requires Arestas(st.g, ChavesContagem(ls[..|ls| - 1]), ChavesFonte(ls[..|ls| - 1]))
    ensures Passo(st, ls[|ls| - 1]).Ok?
    ensures Arestas(Passo(st, ls[|ls| - 1]).value.g, ChavesContagem(ls), ChavesFonte(ls))
  {
    var p, l := ls[..|ls| - 1], ls[|ls| - 1];
    UltimaLinhaChaves(ls);
    ChavesDisjuntas(ls);
    assert l in ls;
    if Usada(l) {
      var k := Chave((Lugar(l), Periodo(l)));
      assert k in ChavesContagem(ls);
      if Documentada(l) {
        assert Chave((Fonte(l), Lugar(l))) in ChavesFonte(ls);
      }
      ArestasAplicar(st, LerCampos(l).value, ChavesContagem(p), ChavesFonte(p));
    }
  }

  /** Under separate labels the loop raises on no row, and its edges are one
      per location-decade pair, with the counts, and one per source and
      location, with `tipo='documenta'` alone. */
  lemma {:induction false} ConstruirOk(ls: seq<LinhaCsv>)
    requires Separados(ls)
    ensures Construir(ls).Ok?
    ensures Arestas(Construir(ls).value.g, ChavesContagem(ls), ChavesFonte(ls))
  {
    if ls != [] {
      SeparadosPrefixo(ls);
      ConstruirOk(ls[..|ls| - 1]);
      ArestasPasso(ls, Construir(ls[..|ls| - 1]).value);
    }
  }

  // ---------------------------------------------------------------------------
  // One step, part by part
  // ---------------------------------------------------------------------------

  /** The counts of the edge with key k, None without the edge or the
      counts. */
  function ContagemDe(g: RedeRa, k: set<Label>): Option<Acc>
  {
    if k in g.dados then g.dados[k].contagem else None
  }

  /** `documenta` edges never change counts: an existing edge keeps its
      counts and a new one has none. */
  lemma ContagensComFonte(st: Objetos, f: Label, local: Label)
    ensures forall j :: ContagemDe(ComFonte(st, f, local).g, j) == ContagemDe(st.g, j)
  {
  }

  /** Lines 39-46 add the counts to the key of u and v and to no other. */
  lemma ContagensComContagem(g: RedeRa, u: Label, v: Label, a: Acc)
    requires ComContagem(g, u, v, a).Ok?
    ensures var k, h := Chave((u, v)), ComContagem(g, u, v, a).value;
      && ContagemDe(h, k) == Some(ContagemDe(g, k).GetOr(Zero).Plus(a))
      && forall j :: j != k ==> ContagemDe(h, j) == ContagemDe(g, j)
  {
    PlusZero(a);
  }

  /** A used row adds its counts to its own key and to no other. */
  lemma AplicarContagens(st: Objetos, c: Campos)
    requires Usa(c) && Aplicar(st, c).Ok?
    ensures var k, g := Chave((Local(c), c.decada)), Aplicar(st, c).value.g;
      && ContagemDe(g, k) == Some(ContagemDe(st.g, k).GetOr(Zero).Plus(Contagens(c)))
      && forall j :: j != k ==> ContagemDe(g, j) == ContagemDe(st.g, j)
  {
    AplicarUsa(st, c);
    var g := ComNo(ComNo(st.g, Local(c), NoLocal, Some(NivelDe(c))), c.decada, NoDecada, None);
    assert forall j :: ContagemDe(g, j) == ContagemDe(st.g, j);
    ContagensComContagem(g, Local(c), c.decada, Contagens(c));
    var h := ComContagem(g, Local(c), c.decada, Contagens(c)).value;
    var st2 := Anotar(st.(g := h), c.decada, Local(c));
    AnotarGrafo(st.(g := h), c.decada, Local(c));
    if c.fonte != "" {
      ContagensComFonte(st2, c.fonte, Local(c));
      assert Aplicar(st, c).value.g == ComFonte(st2, c.fonte, Local(c)).g;
    } else {
      assert Aplicar(st, c).value.g == h;
    }
  }

  /** Adding an edge leaves every `tipo` and `nivel` as it was. */
  lemma ComArestaNos(g: RedeRa, u: Label, v: Label, attr: Atributos)
    ensures ComAresta(g, u, v, attr).tipo == g.tipo && ComAresta(g, u, v, attr).nivel == g.nivel
  {
    var h := ComVertice(ComVertice(g, u), v);
    assert h.tipo == g.tipo && h.nivel == g.nivel;
  }

  /** The count update of lines 39-46 leaves every `tipo` and `nivel` as it
      was. */
  lemma ComContagemNos(g: RedeRa, u: Label, v: Label, a: Acc)
    requires ComContagem(g, u, v, a).Ok?
    ensures ComContagem(g, u, v, a).value.tipo == g.tipo && ComContagem(g, u, v, a).value.nivel == g.nivel
  {
    if Chave((u, v)) !in g.dados {
      ComArestaNos(g, u, v, Atributos(Some(a), None, None));
    }
  }

  /** A used row sets the `tipo` of its location, decade and source, in that
      order, and the `nivel` of its location. */
  lemma AplicarNos(st: Objetos, c: Campos)
    requires Usa(c) && Aplicar(st, c).Ok?
    ensures var g, t := Aplicar(st, c).value.g, st.g.tipo[Local(c) := NoLocal][c.decada := NoDecada];
      && g.tipo == (if c.fonte != "" then t[c.fonte := NoFonte] else t)
      && g.nivel == st.g.nivel[Local(c) := NivelDe(c)]
  {
    AplicarUsa(st, c);
    var g := ComNo(ComNo(st.g, Local(c), NoLocal, Some(NivelDe(c))), c.decada, NoDecada, None);
    var h := ComContagem(g, Local(c), c.decada, Contagens(c)).value;
    ComContagemNos(g, Local(c), c.decada, Contagens(c));
    var st2 := Anotar(st.(g := h), c.decada, Local(c));
    AnotarGrafo(st.(g := h), c.decada, Local(c));
    if c.fonte != "" {
      assert Aplicar(st, c).value.g == ComFonte(st2, c.fonte, Local(c)).g;
    } else {
      assert Aplicar(st, c).value.g == h;
    }
  }

  /** A used row files its location under its decade. */
  lemma AplicarIndice(st: Objetos, c: Campos)
    requires Usa(c) && Aplicar(st, c).Ok?
    ensures var r, a := Aplicar(st, c).value, Anotar(st, c.decada, Local(c));
      r.decadas == a.decadas && r.locais == a.locais
  {
    var g := ComNo(ComNo(st.g, Local(c), NoLocal, Some(NivelDe(c))), c.decada, NoDecada, None);
    var h := ComContagem(g, Local(c), c.decada, Contagens(c)).value;
    AnotarIndepende(st, h, c.decada, Local(c));
    var st2 := Anotar(st.(g := h), c.decada, Local(c));
    assert Aplicar(st, c).value == if c.fonte == "" then st2 else ComFonte(st2, c.fonte, Local(c));
  }

  /** Filing a location under a decade does not look at the graph. */
  lemma AnotarIndepende(st: Objetos, h: RedeRa, d: Label, l: Label)
    ensures Anotar(st.(g := h), d, l).decadas == Anotar(st, d, l).decadas
    ensures Anotar(st.(g := h), d, l).locais == Anotar(st, d, l).locais
  {
  }

  // ---------------------------------------------------------------------------
  // The counts on the edges
  // ---------------------------------------------------------------------------

  /** The counts of the used rows whose location-decade key is k. */
  function SomaChave(ls: seq<LinhaCsv>, k: set<Label>): Acc
  {
    if ls == [] then Zero
    else
      var l := ls[|ls| - 1];
      SomaChave(ls[..|ls| - 1], k).Plus(if Usada(l) && Chave((Lugar(l), Periodo(l))) == k then Contagem(l) else Zero)
  }

  lemma {:induction false} SomaChaveAusente(ls: seq<LinhaCsv>, k: set<Label>)
    requires k !in ChavesContagem(ls)
    ensures SomaChave(ls, k) == Zero
  {
    if ls != [] {
      UltimaLinhaRotulos(ls);
      SomaChaveAusente(ls[..|ls| - 1], k);
    }
  }

  /** When the loop does not raise, each location-decade key carries the sum
      of the counts of exactly the rows with that location and decade, and
      every other key carries no counts: one edge per pair, accumulating. */
  lemma {:induction false} ConstruirContagens(ls: seq<LinhaCsv>, k: set<Label>)
    requires Construir(ls).Ok?
    ensures ContagemDe(Construir(ls).value.g, k) == if k in ChavesContagem(ls) then Some(SomaChave(ls, k)) else None
  {
    if ls != [] {
      var p, l := ls[..|ls| - 1], ls[|ls| - 1];
      ConstruirPrefixo(ls);
      ConstruirContagens(p, k);
      UltimaLinhaChaves(ls);
      var st := Construir(p).value;
      PlusZero(SomaChave(p, k));
      if Usada(l) {
        AplicarContagens(st, LerCampos(l).value);
        if Chave((Lugar(l), Periodo(l))) == k && k !in ChavesContagem(p) {
          SomaChaveAusente(p, k);
          PlusZero(Contagem(l));
        }
      }
    }
  }

  // ---------------------------------------------------------------------------
  // The nodes
  // ---------------------------------------------------------------------------

  /** The node kinds: each of lu `local`, each of pe `decada`, each of fo
      `fonte`, and no other node. */
  ghost predicate TiposSobre(t: map<Label, TipoNo>, lu: set<Label>, pe: set<Label>, fo: set<Label>)
  {
    && (forall n :: n in t <==> n in lu || n in pe || n in fo)
    && (forall n :: n in lu ==> t[n] == NoLocal)
    && (forall n :: n in pe ==> t[n] == NoDecada)
    && (forall n :: n in fo ==> t[n] == NoFonte)
  }

  /** The node kinds the rows give. */
  ghost predicate Tipos(t: map<Label, TipoNo>, ls: seq<LinhaCsv>)
  {
    TiposSobre(t, Lugares(ls), Periodos(ls), Fontes(ls))
  }

  /** Setting the kinds of a row's location, decade and source keeps the
      kinds right when no label has two kinds. */
  lemma TiposSobreLinha(t: map<Label, TipoNo>, lu: set<Label>, pe: set<Label>, fo: set<Label>, x: Label, d: Label, f: Option<Label>)
    requires TiposSobre(t, lu, pe, fo)
    requires var fo' := if f.Some? then fo + {f.value} else fo;
      (lu + {x}) !! (pe + {d}) && fo' !! (lu + {x}) && fo' !! (pe + {d})
    ensures var t' := t[x := NoLocal][d := NoDecada];
      TiposSobre(if f.Some? then t'[f.value := NoFonte] else t', lu + {x}, pe + {d}, if f.Some? then fo + {f.value} else fo)
  {
  }

  /** One used row's nodes, at the level of its cells. */
  lemma TiposAplicar(st: Objetos, c: Campos, lu: set<Label>, pe: set<Label>, fo: set<Label>)
    requires Usa(c) && Aplicar(st, c).Ok? && TiposSobre(st.g.tipo, lu, pe, fo)
    requires var fo' := if c.fonte != "" then fo + {c.fonte} else fo;
      (lu + {Local(c)}) !! (pe + {c.decada}) && fo' !! (lu + {Local(c)}) && fo' !! (pe + {c.decada})
    ensures TiposSobre(Aplicar(st, c).value.g.tipo, lu + {Local(c)}, pe + {c.decada}, if c.fonte != "" then fo + {c.fonte} else fo)
  {
    AplicarNos(st, c);
    TiposSobreLinha(st.g.tipo, lu, pe, fo, Local(c), c.decada, if c.fonte != "" then Some(c.fonte) else None);
  }

  lemma TiposPasso(ls: seq<LinhaCsv>, st: Objetos)
    requires ls != [] && Separados(ls) && Passo(st, ls[|ls| - 1]).Ok?
    requires Tipos(st.g.tipo, ls[..|ls| - 1])
    ensures Tipos(Passo(st, ls[|ls| - 1]).value.g.tipo, ls)
  {
    var p, l := ls[..|ls| - 1], ls[|ls| - 1];
    UltimaLinhaRotulos(ls);
    assert l in ls;
    var c := LerCampos(l).value;
    var t := Aplicar(st, c).value.g.tipo;
    assert Passo(st, l).value.g.tipo == t;
    if Usada(l) {
      var fo := if c.fonte != "" then Fontes(p) + {c.fonte} else Fontes(p);
      assert Lugares(ls) == Lugares(p) + {Local(c)};
      assert Periodos(ls) == Periodos(p) + {c.decada};
      assert Fontes(ls) == fo;
      TiposAplicar(st, c, Lugares(p), Periodos(p), Fontes(p));
      assert TiposSobre(t, Lugares(ls), Periodos(ls), Fontes(ls));
    } else {
      assert t == st.g.tipo;
      assert Lugares(ls) == Lugares(p) && Periodos(ls) == Periodos(p) && Fontes(ls) == Fontes(p);
    }
  }

  /** Under separate labels the nodes are exactly the locations, decades and
      sources of the used rows, with their kinds. */
  lemma {:induction false} ConstruirTipos(ls: seq<LinhaCsv>)
    requires Separados(ls)
    ensures Construir(ls).Ok? && Tipos(Construir(ls).value.g.tipo, ls)
  {
    ConstruirOk(ls);
    if ls != [] {
      SeparadosPrefixo(ls);
      ConstruirTipos(ls[..|ls| - 1]);
      TiposPasso(ls, Construir(ls[..|ls| - 1]).value);
    }
  }

  /** The level of the last used row at location n. */
  function UltimoNivel(ls: seq<LinhaCsv>, n: Label): Option<Nivel>
  {
    if ls == [] then None
    else
      var l := ls[|ls| - 1];
      if Usada(l) && Lugar(l) == n then Some(NivelDe(LerCampos(l).value)) else UltimoNivel(ls[..|ls| - 1], n)
  }

  /** `nivel` is rewritten by every row at a location, so it is the level of
      the last one; only locations have one. */
  lemma {:induction false} ConstruirNivel(ls: seq<LinhaCsv>, n: Label)
    requires Construir(ls).Ok?
    ensures var g := Construir(ls).value.g;
      && (n in g.nivel <==> n in Lugares(ls))
      && (n in g.nivel ==> UltimoNivel(ls, n) == Some(g.nivel[n]))
  {
    if ls != [] {
      var p, l := ls[..|ls| - 1], ls[|ls| - 1];
      ConstruirPrefixo(ls);
      ConstruirNivel(p, n);
      UltimaLinhaRotulos(ls);
      if Usada(l) {
        AplicarNos(Construir(p).value, LerCampos(l).value);
      }
    }
  }

  // ---------------------------------------------------------------------------
  // `locais_por_decada`
  // ---------------------------------------------------------------------------

  /** `decadas` lists the keys of `locais` once each, every list is a set
      without repeats, and the dict files exactly the pairs oc. */
  ghost predicate Indice(st: Objetos, oc: set<(Label, Label)>)
  {
    && Distinct(st.decadas)
    && (forall d :: d in st.decadas <==> d in st.locais)
    && (forall d :: d in st.locais ==> st.locais[d] != [] && Distinct(st.locais[d]))
    && (forall x, d :: (x, d) in oc <==> d in st.locais && x in st.locais[d])
  }

  lemma IndiceAnotar(st: Objetos, oc: set<(Label, Label)>, d: Label, x: Label)
    requires Indice(st, oc)
    ensures Indice(Anotar(st, d, x), oc + {(x, d)})
  {
    if d !in st.locais {
      DistinctAppend(st.decadas, d);
      assert Distinct([x]) by { assert [x][..0] == []; }
    } else if x !in st.locais[d] {
      DistinctAppend(st.locais[d], x);
    }
  }

  /** When the loop does not raise, `locais_por_decada` files each location
      under each decade it has a row in, and nothing else, and its keys are
      the decades of the used rows, each once. */
  lemma {:induction false} ConstruirIndice(ls: seq<LinhaCsv>)
    requires Construir(ls).Ok?
    ensures Indice(Construir(ls).value, Ocorrencias(ls))
  {
    if ls != [] {
      var p, l := ls[..|ls| - 1], ls[|ls| - 1];
      ConstruirPrefixo(ls);
      ConstruirIndice(p);
      UltimaLinhaChaves(ls);
      if Usada(l) {
        var st := Construir(p).value;
        AplicarIndice(st, LerCampos(l).value);
        IndiceAnotar(st, Ocorrencias(p), Periodo(l), Lugar(l));
      }
    }
  }

  lemma PeriodosOcorrencias(ls: seq<LinhaCsv>, d: Label)
    ensures d in Periodos(ls) <==> exists x :: (x, d) in Ocorrencias(ls)
  {
    if d in Periodos(ls) {
      var l :| l in ls && Usada(l) && Periodo(l) == d;
      assert (Lugar(l), d) in Ocorrencias(ls);
    }
  }

  /** The decades the clique pass visits are the decades of the used rows,
      each once, and each one's list holds its locations once each. */
  lemma ConstruirDecadas(ls: seq<LinhaCsv>)
    requires Construir(ls).Ok?
    ensures var st := Construir(ls).value;
      && Distinct(st.decadas)
      && (forall d :: d in st.decadas <==> d in Periodos(ls))
      && (forall d :: d in st.decadas ==> d in st.locais && Distinct(st.locais[d]))
      && (forall d, x :: d in st.decadas ==> (x in st.locais[d] <==> (x, d) in Ocorrencias(ls)))
  {
    var st := Construir(ls).value;
    ConstruirIndice(ls);
    forall d ensures d in st.decadas <==> d in Periodos(ls) {
      PeriodosOcorrencias(ls, d);
      if d in st.decadas {
        assert (st.locais[d][0], d) in Ocorrencias(ls);
      }
    }
  }

  // ---------------------------------------------------------------------------
  // The trials at a decade node
  // ---------------------------------------------------------------------------

  /** What the edge with key k adds to the total of d: its trials when it is
      an edge at d with the counts. */
  function Termo(g: RedeRa, k: set<Label>, d: Label): int
  {
    if d in k && k in g.dados && g.dados[k].contagem.Some? then g.dados[k].contagem.value.julgamentos else 0
  }

  function JulgamentosEm(g: RedeRa, ks: seq<set<Label>>, d: Label): int
  {
    if ks == [] then 0 else JulgamentosEm(g, ks[..|ks| - 1], d) + Termo(g, ks[|ks| - 1], d)
  }

  /** `sum(data['julgamentos'] for _, _, data in grafo.edges(d, data=True)
      if 'julgamentos' in data)`: every edge at d once, a loop at d included. */
  function TotalDecada(g: RedeRa, d: Label): int
  {
    JulgamentosEm(g, g.arestas, d)
  }

  lemma {:induction false} JulgamentosIguais(g: RedeRa, h: RedeRa, ks: seq<set<Label>>, d: Label)
    requires forall k :: k in ks ==> Termo(g, k, d) == Termo(h, k, d)
    ensures JulgamentosEm(g, ks, d) == JulgamentosEm(h, ks, d)
  {
    if ks != [] {
      InDropLast(ks);
      JulgamentosIguais(g, h, ks[..|ks| - 1], d);
    }
  }

  /** Changing the edge k alone changes the sum by the change of its term. */
  lemma {:induction false} JulgamentosUm(g: RedeRa, h: RedeRa, ks: seq<set<Label>>, d: Label, k: set<Label>)
    requires Distinct(ks) && k in ks
    requires forall j :: j in ks && j != k ==> Termo(g, j, d) == Termo(h, j, d)
    ensures JulgamentosEm(h, ks, d) == JulgamentosEm(g, ks, d) + Termo(h, k, d) - Termo(g, k, d)
  {
    var p := ks[..|ks| - 1];
    InDropLast(ks);
    if ks[|ks| - 1] == k {
      JulgamentosIguais(g, h, p, d);
    } else {
      JulgamentosUm(g, h, p, d, k);
    }
  }

  /** The totals depend on the edges alone. */
  lemma TotalArestas(g: RedeRa, h: RedeRa, d: Label)
    requires h.arestas == g.arestas && h.dados == g.dados
    ensures TotalDecada(h, d) == TotalDecada(g, d)
  {
    JulgamentosIguais(g, h, g.arestas, d);
  }

  /** A change to one edge, existing or new, moves the total by the change of
      its term. */
  lemma TotalUmaChave(g: RedeRa, h: RedeRa, k: set<Label>, d: Label)
    requires Valida(g)
    requires k in g.dados ==> h.arestas == g.arestas
    requires k !in g.dados ==> h.arestas == g.arestas + [k]
    requires forall j :: j in g.dados && j != k ==> j in h.dados && h.dados[j] == g.dados[j]
    ensures TotalDecada(h, d) == TotalDecada(g, d) + Termo(h, k, d) - Termo(g, k, d)
  {
    if k in g.dados {
      JulgamentosUm(g, h, g.arestas, d, k);
    } else {
      assert (g.arestas + [k])[..|g.arestas|] == g.arestas;
      JulgamentosIguais(g, h, g.arestas, d);
    }
  }

  /** An edge added without counts leaves every total as it was. */
  lemma TotalSemContagem(g: RedeRa, u: Label, v: Label, attr: Atributos, d: Label)
    requires Valida(g) && attr.contagem.None?
    ensures TotalDecada(ComAresta(g, u, v, attr), d) == TotalDecada(g, d)
  {
    var h := ComVertice(ComVertice(g, u), v);
    assert h.arestas == g.arestas && h.dados == g.dados;
    TotalUmaChave(g, ComAresta(g, u, v, attr), Chave((u, v)), d);
  }

  /** Lines 39-46 add the row's trials to the totals of its location and its
      decade and to no other. */
  lemma TotalComContagem(g: RedeRa, u: Label, v: Label, a: Acc, d: Label)
    requires Valida(g) && ComContagem(g, u, v, a).Ok?
    ensures TotalDecada(ComContagem(g, u, v, a).value, d) == TotalDecada(g, d) + (if d == u || d == v then a.julgamentos else 0)
  {
    var k := Chave((u, v));
    if k !in g.dados {
      TotalNovaContagem(g, u, v, a, d);
    } else {
      TotalMaisContagem(g, u, v, a, d);
    }
  }

  /** A new location-decade edge carries the row's counts. */
  lemma TotalNovaContagem(g: RedeRa, u: Label, v: Label, a: Acc, d: Label)
    requires Valida(g) && Chave((u, v)) !in g.dados
    ensures TotalDecada(ComAresta(g, u, v, Atributos(Some(a), None, None)), d) == TotalDecada(g, d) + (if d == u || d == v then a.julgamentos else 0)
  {
    var k := Chave((u, v));
    var h := ComAresta(g, u, v, Atributos(Some(a), None, None));
    ComArestaNova(g, u, v, Atributos(Some(a), None, None));
    TotalUmaChave(g, h, k, d);
    assert Termo(g, k, d) == 0;
    assert Termo(h, k, d) == if d == u || d == v then a.julgamentos else 0;
  }

  /** A new edge is appended with its attributes. */
  lemma ComArestaNova(g: RedeRa, u: Label, v: Label, attr: Atributos)
    requires Chave((u, v)) !in g.dados
    ensures ComAresta(g, u, v, attr).arestas == g.arestas + [Chave((u, v))]
    ensures ComAresta(g, u, v, attr).dados == g.dados[Chave((u, v)) := attr]
  {
    var h0 := ComVertice(ComVertice(g, u), v);
    assert h0.arestas == g.arestas && h0.dados == g.dados;
  }

  /** An existing location-decade edge with counts adds the row's counts. */
  lemma TotalMaisContagem(g: RedeRa, u: Label, v: Label, a: Acc, d: Label)
    requires Valida(g) && Chave((u, v)) in g.dados && g.dados[Chave((u, v))].contagem.Some?
    ensures TotalDecada(Acumular(g, Chave((u, v)), a), d) == TotalDecada(g, d) + (if d == u || d == v then a.julgamentos else 0)
  {
    var k := Chave((u, v));
    TotalUmaChave(g, Acumular(g, k, a), k, d);
  }

  /** A used row adds its trials to the total of its decade, and to no other
      label than its location. */
  lemma TotalAplicar(st: Objetos, c: Campos, d: Label)
    requires Valida(st.g) && Usa(c) && Aplicar(st, c).Ok? && d != Local(c)
    ensures TotalDecada(Aplicar(st, c).value.g, d) == TotalDecada(st.g, d) + (if d == c.decada then Contagens(c).julgamentos else 0)
  {
    AplicarUsa(st, c);
    ValidaComNo(st.g, Local(c), NoLocal, Some(NivelDe(c)));
    var g1 := ComNo(st.g, Local(c), NoLocal, Some(NivelDe(c)));
    ValidaComNo(g1, c.decada, NoDecada, None);
    var g := ComNo(g1, c.decada, NoDecada, None);
    TotalArestas(st.g, g, d);
    TotalComContagem(g, Local(c), c.decada, Contagens(c), d);
    ValidaContagem(g, Local(c), c.decada, Contagens(c));
    var h := ComContagem(g, Local(c), c.decada, Contagens(c)).value;
    var st2 := Anotar(st.(g := h), c.decada, Local(c));
    AnotarGrafo(st.(g := h), c.decada, Local(c));
    if c.fonte != "" {
      var h1 := ComNo(h, c.fonte, NoFonte, None);
      ValidaComNo(h, c.fonte, NoFonte, None);
      TotalArestas(h, h1, d);
      TotalSemContagem(h1, c.fonte, Local(c), DeFonte, d);
      assert Aplicar(st, c).value.g == ComFonte(st2, c.fonte, Local(c)).g;
    } else {
      assert Aplicar(st, c).value.g == h;
    }
  }

  /** The trials of the used rows of decade d. */
  function SomaDecada(ls: seq<LinhaCsv>, d: Label): int
  {
    if ls == [] then 0
    else
      var l := ls[|ls| - 1];
      SomaDecada(ls[..|ls| - 1], d) + (if Usada(l) && Periodo(l) == d then Contagem(l).julgamentos else 0)
  }

  /** The total of a decade that is no row's location is the trials of the
      rows of that decade. */
  lemma {:induction false} ConstruirTotal(ls: seq<LinhaCsv>, d: Label)
    requires Construir(ls).Ok? && d !in Lugares(ls)
    ensures TotalDecada(Construir(ls).value.g, d) == SomaDecada(ls, d)
  {
    if ls != [] {
      var p, l := ls[..|ls| - 1], ls[|ls| - 1];
      ConstruirPrefixo(ls);
      UltimaLinhaRotulos(ls);
      ConstruirTotal(p, d);
      if Usada(l) {
        ConstruirValida(p);
        TotalAplicar(Construir(p).value, LerCampos(l).value, d);
      }
    }
  }

  // ---------------------------------------------------------------------------
  // The same-decade clique, what it adds
  // ---------------------------------------------------------------------------

  /** The edge keys of a list of pairs. */
  function ChavesDe(ps: seq<Edge>): set<set<Label>>
  {
    set p | p in ps :: Chave(p)
  }

  /** The attributes of a `mesma_decada` edge of decade d. */
  function DaDecada(d: Option<Label>): Atributos
  {
    Atributos(None, Some(MesmaDecada), d)
  }

  /** One decade's pairs between existing nodes: no node is added or
      changed, the keys of the pairs join the edges, an existing edge keeps
      its attributes (the `has_edge` test), a new one is a `mesma_decada`
      edge of d, and no decade's total changes. */
  lemma {:induction false} LigarParesSpec(g: RedeRa, ps: seq<Edge>, d: Label)
    requires Valida(g)
    requires forall p :: p in ps ==> p.0 in g.tipo && p.1 in g.tipo
    ensures var h := LigarPares(g, ps, d);
      && Valida(h) && h.nodes == g.nodes && h.tipo == g.tipo && h.nivel == g.nivel
      && (forall k :: k in h.dados <==> k in g.dados || k in ChavesDe(ps))
      && (forall k :: k in g.dados ==> h.dados[k] == g.dados[k])
      && (forall k :: k in h.dados && k !in g.dados ==> h.dados[k] == DaDecada(Some(d)))
      && (forall e :: TotalDecada(h, e) == TotalDecada(g, e))
  {
    if ps != [] {
      var q, p := ps[..|ps| - 1], ps[|ps| - 1];
      InDropLast(ps);
      LigarParesSpec(g, q, d);
      var h := LigarPares(g, q, d);
      assert ChavesDe(ps) == ChavesDe(q) + {Chave(p)};
      if Chave(p) !in h.dados {
        ValidaComAresta(h, p.0, p.1, DaDecada(Some(d)));
        forall e ensures TotalDecada(LigarPares(g, ps, d), e) == TotalDecada(g, e) {
          TotalSemContagem(h, p.0, p.1, DaDecada(Some(d)), e);
        }
      }
    }
  }

  /** The pairs of the locations locs give the key k. */
  predicate Liga(locs: seq<Label>, k: set<Label>)
  {
    k in ChavesDe(Pares(locs, Sempre))
  }

  /** The first of the decades ds whose pairs give the key k. */
  function Primeira(ds: seq<Label>, locais: map<Label, seq<Label>>, k: set<Label>): Option<Label>
    requires forall d :: d in ds ==> d in locais
  {
    if ds == [] then None
    else
      var r := Primeira(ds[..|ds| - 1], locais, k);
      if r.Some? then r
      else if Liga(locais[ds[|ds| - 1]], k) then Some(ds[|ds| - 1])
      else None
  }

  /** Primeira names a decade whose pairs give k and before which none does;
      None means that no decade's pairs give k. */
  lemma PrimeiraSpec(ds: seq<Label>, locais: map<Label, seq<Label>>, k: set<Label>)
    requires forall d :: d in ds ==> d in locais
    ensures var r := Primeira(ds, locais, k);
      && (r.None? <==> forall i :: 0 <= i < |ds| ==> !Liga(locais[ds[i]], k))
      && (r.Some? ==> exists i :: 0 <= i < |ds| && ds[i] == r.value && Liga(locais[ds[i]], k)
                        && forall j :: 0 <= j < i ==> !Liga(locais[ds[j]], k))
  {
    PrimeiraNenhuma(ds, locais, k);
    if Primeira(ds, locais, k).Some? {
      var i := PrimeiraIndice(ds, locais, k);
    }
  }

  /** Primeira is None exactly when no decade's pairs give k. */
  lemma {:induction false} PrimeiraNenhuma(ds: seq<Label>, locais: map<Label, seq<Label>>, k: set<Label>)
    requires forall d :: d in ds ==> d in locais
    ensures Primeira(ds, locais, k).None? <==> forall i :: 0 <= i < |ds| ==> !Liga(locais[ds[i]], k)
  {
    if ds != [] {
      var q, d := ds[..|ds| - 1], ds[|ds| - 1];
      InDropLast(ds);
      PrimeiraNenhuma(q, locais, k);
      if Primeira(ds, locais, k).None? {
        forall i | 0 <= i < |ds| ensures !Liga(locais[ds[i]], k) {
          if i < |q| {
            assert ds[i] == q[i];
          }
        }
      } else if Primeira(q, locais, k).Some? {
        var i :| 0 <= i < |q| && Liga(locais[q[i]], k);
        assert ds[i] == q[i];
      } else {
        assert ds[|q|] == d;
      }
    }
  }

  /** The position of the decade Primeira names: its pairs give k and no
      earlier decade's do. */
  lemma {:induction false} PrimeiraIndice(ds: seq<Label>, locais: map<Label, seq<Label>>, k: set<Label>) returns (i: nat)
    requires forall d :: d in ds ==> d in locais
    requires Primeira(ds, locais, k).Some?
    ensures i < |ds| && ds[i] == Primeira(ds, locais, k).value && Liga(locais[ds[i]], k)
    ensures forall j :: 0 <= j < i ==> !Liga(locais[ds[j]], k)
  {
    var q, d := ds[..|ds| - 1], ds[|ds| - 1];
    InDropLast(ds);
    if Primeira(q, locais, k).Some? {
      i := PrimeiraIndice(q, locais, k);
      assert ds[i] == q[i];
      forall j | 0 <= j < i ensures !Liga(locais[ds[j]], k) {
        assert ds[j] == q[j];
      }
    } else {
      PrimeiraNenhuma(q, locais, k);
      i := |q|;
      forall j | 0 <= j < i ensures !Liga(locais[ds[j]], k) {
        assert ds[j] == q[j];
      }
    }
  }

  /** The clique pass over the decades ds: no node is added or changed, the
      edges it adds are the keys some decade's pairs give, each a
      `mesma_decada` edge of the first such decade, an existing edge keeps
      its attributes, and no decade's total changes. */
  lemma {:induction false} LigarDecadasSpec(g: RedeRa, ds: seq<Label>, locais: map<Label, seq<Label>>)
    requires Valida(g) && (forall d :: d in ds ==> d in locais)
    requires forall d, x :: d in ds && x in locais[d] ==> x in g.tipo
    ensures var h := LigarDecadas(g, ds, locais);
      && Valida(h) && h.nodes == g.nodes && h.tipo == g.tipo && h.nivel == g.nivel
      && (forall k :: k in h.dados <==> k in g.dados || Primeira(ds, locais, k).Some?)
      && (forall k :: k in g.dados ==> h.dados[k] == g.dados[k])
      && (forall k :: k in h.dados && k !in g.dados ==> h.dados[k] == DaDecada(Primeira(ds, locais, k)))
      && (forall e :: TotalDecada(h, e) == TotalDecada(g, e))
  {
    if ds != [] {
      var q, d := ds[..|ds| - 1], ds[|ds| - 1];
      InDropLast(ds);
      LigarDecadasSpec(g, q, locais);
      var h := LigarDecadas(g, q, locais);
      var ps := Pares(locais[d], Sempre);
      ParesSpec(locais[d], Sempre);
      forall p | p in ps ensures p.0 in h.tipo && p.1 in h.tipo {
        var a, b :| 0 <= a < b < |locais[d]| && p == (locais[d][a], locais[d][b]) && Sempre(locais[d][a], locais[d][b]);
      }
      LigarParesSpec(h, ps, d);
    }
  }

  /** A key the pairs give joins two different locations of the list. */
  lemma LigaSo(locs: seq<Label>, x: Label, y: Label)
    requires Distinct(locs) && Liga(locs, Chave((x, y)))
    ensures x != y && x in locs && y in locs
  {
    var p :| p in Pares(locs, Sempre) && Chave(p) == Chave((x, y));
    var a, b := ParesAteForma(locs, Sempre, |locs|, p);
    DistinctIndices(locs);
    assert p.0 == locs[a] && p.1 == locs[b] && locs[a] != locs[b];
    assert x in Chave(p) && y in Chave(p);
  }

  /** Two different locations of the list are joined by the pairs. */
  lemma LigaTodas(locs: seq<Label>, x: Label, y: Label)
    requires x != y && x in locs && y in locs
    ensures Liga(locs, Chave((x, y)))
  {
    var a :| 0 <= a < |locs| && locs[a] == x;
    var b :| 0 <= b < |locs| && locs[b] == y;
    if a < b {
      ParesAteTem(locs, Sempre, |locs|, a, b);
      assert Chave((x, y)) in ChavesDe(Pares(locs, Sempre));
    } else {
      ParesAteTem(locs, Sempre, |locs|, b, a);
      assert Chave((y, x)) == Chave((x, y));
      assert Chave((y, x)) in ChavesDe(Pares(locs, Sempre));
    }
  }

  /** With locations listed once, the pairs give exactly the keys of two
      different locations of the list. */
  lemma LigaSpec(locs: seq<Label>, x: Label, y: Label)
    requires Distinct(locs)
    ensures Liga(locs, Chave((x, y))) <==> x != y && x in locs && y in locs
  {
    if Liga(locs, Chave((x, y))) {
      LigaSo(locs, x, y);
    }
    if x != y && x in locs && y in locs {
      LigaTodas(locs, x, y);
    }
  }

  /** Every key the pairs give joins two different locations of the list. */
  lemma LigaForma(locs: seq<Label>, k: set<Label>) returns (x: Label, y: Label)
    requires Liga(locs, k)
    ensures k == Chave((x, y))
  {
    var p :| p in Pares(locs, Sempre) && Chave(p) == k;
    x, y := p.0, p.1;
  }

  /** Every location of the rows is a node of the graph. */
  lemma {:induction false} ConstruirLugares(ls: seq<LinhaCsv>)
    requires Construir(ls).Ok?
    ensures forall x :: x in Lugares(ls) ==> x in Construir(ls).value.g.tipo
  {
    if ls != [] {
      var p, l := ls[..|ls| - 1], ls[|ls| - 1];
      ConstruirPrefixo(ls);
      UltimaLinhaRotulos(ls);
      ConstruirLugares(p);
      if Usada(l) {
        AplicarNos(Construir(p).value, LerCampos(l).value);
      }
    }
  }

  /** Two different locations with rows in a common decade. */
  predicate MesmaDecadaEm(ls: seq<LinhaCsv>, x: Label, y: Label, d: Label)
  {
    x != y && (x, d) in Ocorrencias(ls) && (y, d) in Ocorrencias(ls)
  }

  /** The clique of the script: it adds no node and changes none, keeps every
      edge of the rows with its attributes and every total, joins every two
      locations with rows in a common decade, and adds nothing else: each
      new edge is a `mesma_decada` edge whose two locations have rows in the
      decade it carries. */
  lemma ScriptArestas(ls: seq<LinhaCsv>)
    requires Construir(ls).Ok?
    ensures Script(ls).Ok?
    ensures var g, h := Construir(ls).value.g, Script(ls).value;
      && Valida(h) && h.nodes == g.nodes && h.tipo == g.tipo && h.nivel == g.nivel
      && (forall k :: k in g.dados ==> k in h.dados && h.dados[k] == g.dados[k])
      && (forall e :: TotalDecada(h, e) == TotalDecada(g, e))
      && (forall x, y, d :: MesmaDecadaEm(ls, x, y, d) ==> Chave((x, y)) in h.dados)
      && (forall k :: k in h.dados && k !in g.dados ==>
            && h.dados[k].contagem.None? && h.dados[k].tipo == Some(MesmaDecada) && h.dados[k].decada.Some?
            && exists x, y :: k == Chave((x, y)) && MesmaDecadaEm(ls, x, y, h.dados[k].decada.value))
  {
    var st := Construir(ls).value;
    ScriptLigar(ls);
    LigarDecadasSpec(st.g, st.decadas, st.locais);
    ScriptJunta(ls);
    ScriptSoDecada(ls);
  }

  /** The drawn graph is well formed. */
  lemma ScriptValida(ls: seq<LinhaCsv>)
    requires Construir(ls).Ok?
    ensures Script(ls).Ok? && Valida(Script(ls).value)
  {
    var st := Construir(ls).value;
    ScriptLigar(ls);
    LigarDecadasSpec(st.g, st.decadas, st.locais);
  }

  /** The clique's requirements hold on the graph of the rows: every decade
      has its list of locations, and each of them is a node. */
  lemma ScriptLigar(ls: seq<LinhaCsv>)
    requires Construir(ls).Ok?
    ensures var st := Construir(ls).value;
      && Valida(st.g) && (forall d :: d in st.decadas ==> d in st.locais)
      && (forall d, x :: d in st.decadas && x in st.locais[d] ==> x in st.g.tipo)
  {
    var st := Construir(ls).value;
    ConstruirDecadas(ls);
    ConstruirValida(ls);
    ConstruirLugares(ls);
    forall d, x | d in st.decadas && x in st.locais[d] ensures x in st.g.tipo {
      assert (x, d) in Ocorrencias(ls);
      assert x in Lugares(ls);
    }
  }

  /** The clique joins every two locations with rows in a common decade. */
  lemma ScriptJunta(ls: seq<LinhaCsv>)
    requires Construir(ls).Ok?
    ensures Script(ls).Ok?
    ensures forall x, y, d :: MesmaDecadaEm(ls, x, y, d) ==> Chave((x, y)) in Script(ls).value.dados
  {
    var st := Construir(ls).value;
    var g, h := st.g, Script(ls).value;
    ConstruirDecadas(ls);
    ScriptLigar(ls);
    LigarDecadasSpec(g, st.decadas, st.locais);
    forall x, y, d | MesmaDecadaEm(ls, x, y, d) ensures Chave((x, y)) in h.dados {
      JuntaPar(ls, x, y, d);
    }
  }

  /** Two locations with rows in a common decade are paired in some decade. */
  lemma JuntaPar(ls: seq<LinhaCsv>, x: Label, y: Label, d: Label)
    requires Construir(ls).Ok? && MesmaDecadaEm(ls, x, y, d)
    ensures var st := Construir(ls).value;
      (forall e :: e in st.decadas ==> e in st.locais) && Primeira(st.decadas, st.locais, Chave((x, y))).Some?
  {
    var st := Construir(ls).value;
    ConstruirDecadas(ls);
    var l :| l in ls && Usada(l) && (Lugar(l), Periodo(l)) == (x, d);
    assert d in Periodos(ls);
    LigaSpec(st.locais[d], x, y);
    var i :| 0 <= i < |st.decadas| && st.decadas[i] == d;
    PrimeiraSpec(st.decadas, st.locais, Chave((x, y)));
  }

  /** Each edge the clique adds is a `mesma_decada` edge whose two locations
      have rows in the decade it carries. */
  lemma ScriptSoDecada(ls: seq<LinhaCsv>)
    requires Construir(ls).Ok?
    ensures Script(ls).Ok?
    ensures var g, h := Construir(ls).value.g, Script(ls).value;
      forall k :: k in h.dados && k !in g.dados ==>
        && h.dados[k].contagem.None? && h.dados[k].tipo == Some(MesmaDecada) && h.dados[k].decada.Some?
        && exists x, y :: k == Chave((x, y)) && MesmaDecadaEm(ls, x, y, h.dados[k].decada.value)
  {
    var st := Construir(ls).value;
    var g, h := st.g, Script(ls).value;
    ConstruirDecadas(ls);
    ScriptLigar(ls);
    LigarDecadasSpec(g, st.decadas, st.locais);
    forall k | k in h.dados && k !in g.dados
      ensures && h.dados[k].contagem.None? && h.dados[k].tipo == Some(MesmaDecada) && h.dados[k].decada.Some?
        && exists x, y :: k == Chave((x, y)) && MesmaDecadaEm(ls, x, y, h.dados[k].decada.value)
    {
      PrimeiraSpec(st.decadas, st.locais, k);
      var d := Primeira(st.decadas, st.locais, k).value;
      assert h.dados[k] == DaDecada(Some(d));
      var x, y := LigaForma(st.locais[d], k);
      LigaSpec(st.locais[d], x, y);
    }
  }

  // ---------------------------------------------------------------------------
  // The report: the best-connected locations and the decades with most trials
  // ---------------------------------------------------------------------------

  /** `[n for n in grafo.nodes() if grafo.nodes[n]['tipo'] == t]` over the
      nodes ns. */
  function NosDoTipo(g: RedeRa, ns: seq<Label>, t: TipoNo): seq<Label>
  {
    if ns == [] then []
    else
      var n := ns[|ns| - 1];
      NosDoTipo(g, ns[..|ns| - 1], t) + (if n in g.tipo && g.tipo[n] == t then [n] else [])
  }

  lemma {:induction false} NosDoTipoSpec(g: RedeRa, ns: seq<Label>, t: TipoNo)
    ensures forall n :: n in NosDoTipo(g, ns, t) <==> n in ns && n in g.tipo && g.tipo[n] == t
    ensures Distinct(ns) ==> Distinct(NosDoTipo(g, ns, t))
  {
    if ns != [] {
      var p, n := ns[..|ns| - 1], ns[|ns| - 1];
      NosDoTipoSpec(g, p, t);
      InDropLast(ns);
      if Distinct(ns) {
        assert Distinct(p) && n !in p;
        if n in g.tipo && g.tipo[n] == t {
          DistinctAppend(NosDoTipo(g, p, t), n);
        } else {
          assert NosDoTipo(g, ns, t) == NosDoTipo(g, p, t);
        }
      }
    }
  }

  /** What the edge k adds to the degree of n: a loop at n counts twice. */
  function Ponta(k: set<Label>, n: Label): nat
  {
    if k == {n} then 2 else if n in k then 1 else 0
  }

  function GrauEm(ks: seq<set<Label>>, n: Label): nat
  {
    if ks == [] then 0 else GrauEm(ks[..|ks| - 1], n) + Ponta(ks[|ks| - 1], n)
  }

  /** `grafo.degree(n)`. */
  function Grau(g: RedeRa, n: Label): nat
  {
    GrauEm(g.arestas, n)
  }

  lemma {:induction false} GrauEmSpec(ks: seq<set<Label>>, n: Label)
    requires Distinct(ks)
    ensures GrauEm(ks, n) == |set k | k in ks && n in k| + (if {n} in ks then 1 else 0)
  {
    if ks != [] {
      var p, u := ks[..|ks| - 1], ks[|ks| - 1];
      GrauEmSpec(p, n);
      InDropLast(ks);
      if n in u {
        assert (set k | k in ks && n in k) == (set k | k in p && n in k) + {u};
      } else {
        assert (set k | k in ks && n in k) == (set k | k in p && n in k);
      }
    }
  }

  /** The degree of n is the number of edges at n, a loop at n counted
      twice. */
  lemma GrauSpec(g: RedeRa, n: Label)
    requires Valida(g)
    ensures Grau(g, n) == |set k | k in g.dados && n in k| + (if {n} in g.dados then 1 else 0)
  {
    GrauEmSpec(g.arestas, n);
    assert (set k | k in g.dados && n in k) == (set k | k in g.arestas && n in k);
  }

  /** `[(n, grafo.degree(n)) for n in ns]`. */
  function Graus(g: RedeRa, ns: seq<Label>): seq<(Label, int)>
  {
    if ns == [] then [] else Graus(g, ns[..|ns| - 1]) + [(ns[|ns| - 1], Grau(g, ns[|ns| - 1]))]
  }

  /** Lines 154-155: the location nodes by degree, largest first, ties in
      node order, at most ten. */
  function TopLocais(g: RedeRa): seq<(Label, int)>
  {
    Head(SortDesc(Graus(g, NosDoTipo(g, g.nodes, NoLocal)), Segundo), 10)
  }

  /** `[(d, total) for d in ds]`, the list the loop of lines 162-165 fills. */
  function Totais(g: RedeRa, ds: seq<Label>): seq<(Label, int)>
  {
    if ds == [] then [] else Totais(g, ds[..|ds| - 1]) + [(ds[|ds| - 1], TotalDecada(g, ds[|ds| - 1]))]
  }

  /** Lines 161-165: the decade nodes with their trials, in node order. */
  method JulgamentosPorDecada(g: RedeRa) returns (lista: seq<(Label, int)>)
    ensures lista == Totais(g, NosDoTipo(g, g.nodes, NoDecada))
  {
    var decadas := [];
    for i := 0 to |g.nodes|
      invariant decadas == NosDoTipo(g, g.nodes[..i], NoDecada)
    {
      assert g.nodes[..i + 1][..i] == g.nodes[..i];
      var n := g.nodes[i];
      if n in g.tipo && g.tipo[n] == NoDecada {
        decadas := decadas + [n];
      }
    }
    assert g.nodes[..|g.nodes|] == g.nodes;
    lista := [];
    for i := 0 to |decadas|
      invariant lista == Totais(g, decadas[..i])
    {
      assert decadas[..i + 1][..i] == decadas[..i];
      var total := TotalDecada(g, decadas[i]);
      lista := lista + [(decadas[i], total)];
    }
    assert decadas[..|decadas|] == decadas;
  }

  /** Line 167: the five decades with most trials, ties in node order. */
  function TopDecadas(g: RedeRa): seq<(Label, int)>
  {
    Head(SortDesc(Totais(g, NosDoTipo(g, g.nodes, NoDecada)), Segundo), 5)
  }

  lemma {:induction false} GrausSpec(g: RedeRa, ns: seq<Label>)
    ensures |Graus(g, ns)| == |ns|
    ensures forall i :: 0 <= i < |ns| ==> Graus(g, ns)[i] == (ns[i], Grau(g, ns[i]))
  {
    if ns != [] {
      GrausSpec(g, ns[..|ns| - 1]);
    }
  }

  lemma {:induction false} TotaisSpec(g: RedeRa, ds: seq<Label>)
    ensures |Totais(g, ds)| == |ds|
    ensures forall i :: 0 <= i < |ds| ==> Totais(g, ds)[i] == (ds[i], TotalDecada(g, ds[i]))
  {
    if ds != [] {
      TotaisSpec(g, ds[..|ds| - 1]);
    }
  }


  /** The ranked locations: at most ten location nodes, each with its
      degree, largest first, and no location left out has a larger degree
      than one kept. */
  lemma TopLocaisSpec(g: RedeRa)
    ensures var r := TopLocais(g);
      && |r| <= 10
      && NonIncreasing(r, Segundo)
      && (forall p :: p in r ==> p.0 in g.nodes && p.0 in g.tipo && g.tipo[p.0] == NoLocal && p.1 == Grau(g, p.0))
      && (forall p, n :: p in r && n in g.nodes && n in g.tipo && g.tipo[n] == NoLocal && (n, Grau(g, n)) !in r ==> p.1 >= Grau(g, n))
  {
    var ls := NosDoTipo(g, g.nodes, NoLocal);
    var its := Graus(g, ls);
    NosDoTipoSpec(g, g.nodes, NoLocal);
    GrausSpec(g, ls);
    TopN(its, Segundo, 10);
    forall p | p in its ensures p.0 in ls && p.1 == Grau(g, p.0) {
      var i :| 0 <= i < |its| && its[i] == p;
    }
    forall n | n in ls ensures (n, Grau(g, n)) in its {
      var i :| 0 <= i < |ls| && ls[i] == n;
      assert its[i] == (n, Grau(g, n));
    }
    var r := TopLocais(g);
    forall p, n | p in r && n in g.nodes && n in g.tipo && g.tipo[n] == NoLocal && (n, Grau(g, n)) !in r
      ensures p.1 >= Grau(g, n)
    {
      assert Segundo(p) >= Segundo((n, Grau(g, n)));
    }
  }

  /** The ranked decades: at most five decade nodes, each with its total,
      largest first, and no decade left out has a larger total than one
      kept. */
  lemma TopDecadasSpec(g: RedeRa)
    ensures var r := TopDecadas(g);
      && |r| <= 5
      && NonIncreasing(r, Segundo)
      && (forall p :: p in r ==> p.0 in g.nodes && p.0 in g.tipo && g.tipo[p.0] == NoDecada && p.1 == TotalDecada(g, p.0))
      && (forall p, d :: p in r && d in g.nodes && d in g.tipo && g.tipo[d] == NoDecada && (d, TotalDecada(g, d)) !in r ==> p.1 >= TotalDecada(g, d))
  {
    var ds := NosDoTipo(g, g.nodes, NoDecada);
    var its := Totais(g, ds);
    NosDoTipoSpec(g, g.nodes, NoDecada);
    TotaisSpec(g, ds);
    TopN(its, Segundo, 5);
    forall p | p in its ensures p.0 in ds && p.1 == TotalDecada(g, p.0) {
      var i :| 0 <= i < |its| && its[i] == p;
    }
    forall d | d in ds ensures (d, TotalDecada(g, d)) in its {
      var i :| 0 <= i < |ds| && ds[i] == d;
      assert its[i] == (d, TotalDecada(g, d));
    }
    var r := TopDecadas(g);
    forall p, d | p in r && d in g.nodes && d in g.tipo && g.tipo[d] == NoDecada && (d, TotalDecada(g, d)) !in r
      ensures p.1 >= TotalDecada(g, d)
    {
      assert Segundo(p) >= Segundo((d, TotalDecada(g, d)));
    }
  }

  // ---------------------------------------------------------------------------
  // The report in terms of the rows
  // ---------------------------------------------------------------------------

  /** Under separate labels the script's graph has the node kinds of the
      rows, and each decade's total is the trials of its rows. */
  lemma ScriptDecadas(ls: seq<LinhaCsv>)
    requires Separados(ls)
    ensures Script(ls).Ok?
    ensures var h := Script(ls).value;
      && Valida(h) && Tipos(h.tipo, ls)
      && (forall d :: d in Periodos(ls) ==> TotalDecada(h, d) == SomaDecada(ls, d))
  {
    ConstruirTipos(ls);
    ScriptArestas(ls);
    forall d | d in Periodos(ls) ensures TotalDecada(Script(ls).value, d) == SomaDecada(ls, d) {
      ConstruirTotal(ls, d);
    }
  }

  /** The nodes of a kind, listed once each, are as many as the labels of
      that kind. */
  lemma NosDoTipoCard(g: RedeRa, t: TipoNo, xs: set<Label>)
    requires Valida(g)
    requires forall n :: n in g.tipo && g.tipo[n] == t <==> n in xs
    ensures |NosDoTipo(g, g.nodes, t)| == |xs|
  {
    var ns := NosDoTipo(g, g.nodes, t);
    NosDoTipoSpec(g, g.nodes, t);
    DistinctCard(ns);
    assert (set x | x in ns) == xs;
  }

  /** Lines 160-168 on the rows: under separate labels the report lists
      min(5, number of decades) decades of the rows, each with the trials of
      its rows, largest first, and no decade left out has more trials than
      one listed. */
  lemma ScriptTopDecadas(ls: seq<LinhaCsv>)
    requires Separados(ls)
    ensures Script(ls).Ok?
    ensures var r := TopDecadas(Script(ls).value);
      && |r| == (if |Periodos(ls)| < 5 then |Periodos(ls)| else 5)
      && NonIncreasing(r, Segundo)
      && (forall p :: p in r ==> p.0 in Periodos(ls) && p.1 == SomaDecada(ls, p.0))
      && (forall p, d :: p in r && d in Periodos(ls) && (d, SomaDecada(ls, d)) !in r ==> p.1 >= SomaDecada(ls, d))
  {
    ScriptDecadas(ls);
    var h := Script(ls).value;
    TopDecadasSpec(h);
    NosDoTipoCard(h, NoDecada, Periodos(ls));
    TopN(Totais(h, NosDoTipo(h, h.nodes, NoDecada)), Segundo, 5);
    TotaisSpec(h, NosDoTipo(h, h.nodes, NoDecada));
  }

  /** The decades of the rows of location x. */
  function DecadasDe(ls: seq<LinhaCsv>, x: Label): set<Label>
  {
    set l | l in ls && Usada(l) && Lugar(l) == x :: Periodo(l)
  }

  /** The sources of the rows of location x. */
  function FontesDe(ls: seq<LinhaCsv>, x: Label): set<Label>
  {
    set l | l in ls && Documentada(l) && Lugar(l) == x :: Fonte(l)
  }

  /** The other locations with a row in a decade of x. */
  function CompanheirasDe(ls: seq<LinhaCsv>, x: Label): set<Label>
  {
    set l | l in ls && Usada(l) && Lugar(l) != x && (x, Periodo(l)) in Ocorrencias(ls) :: Lugar(l)
  }

  function VizinhosDe(ls: seq<LinhaCsv>, x: Label): set<Label>
  {
    DecadasDe(ls, x) + FontesDe(ls, x) + CompanheirasDe(ls, x)
  }

  /** The keys of the edges from x to each of ms. */
  function Leque(x: Label, ms: set<Label>): set<set<Label>>
  {
    set m | m in ms :: Chave((x, m))
  }

  lemma LequeCard(x: Label, ms: set<Label>)
    requires x !in ms
    ensures |Leque(x, ms)| == |ms|
    decreases ms
  {
    if ms != {} {
      var m :| m in ms;
      LequeCard(x, ms - {m});
      forall n | n in ms - {m} ensures Chave((x, n)) != Chave((x, m)) {
        assert n in Chave((x, n));
      }
      assert Leque(x, ms) == Leque(x, ms - {m}) + {Chave((x, m))};
    }
  }

  lemma IncidenteContagem(ls: seq<LinhaCsv>, x: Label, k: set<Label>) returns (m: Label)
    requires Separados(ls) && x in Lugares(ls) && k in ChavesContagem(ls) && x in k
    ensures m in DecadasDe(ls, x) && m != x && k == Chave((x, m))
  {
    var l :| l in ls && Usada(l) && k == Chave((Lugar(l), Periodo(l)));
    assert Periodo(l) in Periodos(ls);
    m := Periodo(l);
  }

  lemma IncidenteFonte(ls: seq<LinhaCsv>, x: Label, k: set<Label>) returns (m: Label)
    requires Separados(ls) && x in Lugares(ls) && k in ChavesFonte(ls) && x in k
    ensures m in FontesDe(ls, x) && m != x && k == Chave((x, m))
  {
    var l :| l in ls && Documentada(l) && k == Chave((Fonte(l), Lugar(l)));
    assert Fonte(l) in Fontes(ls);
    m := Fonte(l);
  }

  lemma IncidenteClique(ls: seq<LinhaCsv>, x: Label, k: set<Label>, d: Label, y: Label, z: Label) returns (m: Label)
    requires k == Chave((y, z)) && MesmaDecadaEm(ls, y, z, d) && x in k
    ensures m in CompanheirasDe(ls, x) && m != x && k == Chave((x, m))
  {
    m := if y == x then z else y;
    var l :| l in ls && Usada(l) && (Lugar(l), Periodo(l)) == (m, d);
  }

  /** Under separate labels every edge of the script at a location x joins
      it to one of its decades, its sources or its companions. */
  lemma IncidenteForma(ls: seq<LinhaCsv>, x: Label, k: set<Label>) returns (m: Label)
    requires Separados(ls) && x in Lugares(ls)
    requires Script(ls).Ok? && k in Script(ls).value.dados && x in k
    ensures m in VizinhosDe(ls, x) && m != x && k == Chave((x, m))
  {
    ConstruirOk(ls);
    var g := Construir(ls).value.g;
    ScriptArestas(ls);
    if k in g.dados {
      if k in ChavesContagem(ls) {
        m := IncidenteContagem(ls, x, k);
      } else {
        m := IncidenteFonte(ls, x, k);
      }
    } else {
      var d := Script(ls).value.dados[k].decada.value;
      var y, z :| k == Chave((y, z)) && MesmaDecadaEm(ls, y, z, d);
      m := IncidenteClique(ls, x, k, d, y, z);
    }
  }

  /** The clique keeps every edge of the loop. */
  lemma ScriptMantem(ls: seq<LinhaCsv>)
    requires Construir(ls).Ok?
    ensures Script(ls).Ok?
    ensures forall k :: k in Construir(ls).value.g.dados ==> k in Script(ls).value.dados
  {
    var st := Construir(ls).value;
    ScriptLigar(ls);
    LigarDecadasSpec(st.g, st.decadas, st.locais);
  }

  lemma IncidenteDecada(ls: seq<LinhaCsv>, x: Label, m: Label)
    requires Separados(ls) && m in DecadasDe(ls, x)
    ensures Script(ls).Ok? && Chave((x, m)) in Script(ls).value.dados
  {
    ConstruirOk(ls);
    ScriptMantem(ls);
    var l :| l in ls && Usada(l) && Lugar(l) == x && Periodo(l) == m;
    assert Chave((Lugar(l), Periodo(l))) in ChavesContagem(ls);
  }

  lemma IncidenteDocumento(ls: seq<LinhaCsv>, x: Label, m: Label)
    requires Separados(ls) && m in FontesDe(ls, x)
    ensures Script(ls).Ok? && Chave((x, m)) in Script(ls).value.dados
  {
    ConstruirOk(ls);
    ScriptMantem(ls);
    var l :| l in ls && Documentada(l) && Lugar(l) == x && Fonte(l) == m;
    assert Chave((Fonte(l), Lugar(l))) in ChavesFonte(ls);
    assert Chave((Fonte(l), Lugar(l))) == Chave((x, m));
  }

  lemma IncidenteCompanheira(ls: seq<LinhaCsv>, x: Label, m: Label)
    requires Separados(ls) && m in CompanheirasDe(ls, x)
    ensures Script(ls).Ok? && Chave((x, m)) in Script(ls).value.dados
  {
    ConstruirOk(ls);
    ScriptJunta(ls);
    var l :| l in ls && Usada(l) && Lugar(l) != x && (x, Periodo(l)) in Ocorrencias(ls) && Lugar(l) == m;
    assert MesmaDecadaEm(ls, x, m, Periodo(l));
  }

  /** Under separate labels the script joins a location to each of its
      decades, sources and companions. */
  lemma IncidenteDe(ls: seq<LinhaCsv>, x: Label, m: Label)
    requires Separados(ls) && m in VizinhosDe(ls, x)
    ensures Script(ls).Ok? && Chave((x, m)) in Script(ls).value.dados
  {
    if m in DecadasDe(ls, x) {
      IncidenteDecada(ls, x, m);
    } else if m in FontesDe(ls, x) {
      IncidenteDocumento(ls, x, m);
    } else {
      IncidenteCompanheira(ls, x, m);
    }
  }

  /** The three kinds of neighbours of a location are labels of three
      different kinds, none of them the location. */
  lemma VizinhosSeparados(ls: seq<LinhaCsv>, x: Label)
    requires Separados(ls) && x in Lugares(ls)
    ensures |VizinhosDe(ls, x)| == |DecadasDe(ls, x)| + |FontesDe(ls, x)| + |CompanheirasDe(ls, x)|
    ensures x !in VizinhosDe(ls, x)
  {
    var ds, fs, cs := DecadasDe(ls, x), FontesDe(ls, x), CompanheirasDe(ls, x);
    assert ds <= Periodos(ls);
    assert fs <= Fontes(ls);
    assert cs <= Lugares(ls);
    assert ds * fs == {};
    assert (ds + fs) * cs == {};
  }

  /** Lines 154-155 on the rows: under separate labels the degree of a
      location is the number of its decades, plus the number of its sources,
      plus the number of other locations with a row in one of its decades. */
  lemma ScriptGrau(ls: seq<LinhaCsv>, x: Label)
    requires Separados(ls) && x in Lugares(ls)
    ensures Script(ls).Ok?
    ensures Grau(Script(ls).value, x) == |DecadasDe(ls, x)| + |FontesDe(ls, x)| + |CompanheirasDe(ls, x)|
  {
    ConstruirOk(ls);
    ScriptValida(ls);
    var h := Script(ls).value;
    var vs := VizinhosDe(ls, x);
    ScriptIncidentes(ls, x);
    GrauSpec(h, x);
    VizinhosSeparados(ls, x);
    LequeCard(x, vs);
    assert {x} !in Leque(x, vs);
    assert {x} !in h.dados by {
      assert x in {x};
    }
  }

  /** The edges of the drawn graph at a location are exactly its edges to
      its neighbours on the rows. */
  lemma ScriptIncidentes(ls: seq<LinhaCsv>, x: Label)
    requires Separados(ls) && x in Lugares(ls)
    ensures Script(ls).Ok?
    ensures (set k | k in Script(ls).value.dados && x in k) == Leque(x, VizinhosDe(ls, x))
  {
    ConstruirOk(ls);
    ScriptArestas(ls);
    var h := Script(ls).value;
    var vs := VizinhosDe(ls, x);
    forall k | k in h.dados && x in k ensures k in Leque(x, vs) {
      var m := IncidenteForma(ls, x, k);
    }
    forall k | k in Leque(x, vs) ensures k in h.dados && x in k {
      var m :| m in vs && k == Chave((x, m));
      IncidenteDe(ls, x, m);
    }
  }

  /** Lines 153-157 on the rows: under separate labels the report lists
      min(10, number of locations) locations of the rows, each with the
      degree ScriptGrau counts, largest first, and no location left out has
      a larger degree than one listed. */
  lemma ScriptTopLocais(ls: seq<LinhaCsv>)
    requires Separados(ls)
    ensures Script(ls).Ok?
    ensures var h, r := Script(ls).value, TopLocais(Script(ls).value);
      && |r| == (if |Lugares(ls)| < 10 then |Lugares(ls)| else 10)
      && NonIncreasing(r, Segundo)
      && (forall p :: p in r ==> p.0 in Lugares(ls) && p.1 == Grau(h, p.0))
      && (forall p, x :: p in r && x in Lugares(ls) && (x, Grau(h, x)) !in r ==> p.1 >= Grau(h, x))
  {
    ScriptDecadas(ls);
    var h := Script(ls).value;
    TopLocaisSpec(h);
    NosDoTipoCard(h, NoLocal, Lugares(ls));
    TopN(Graus(h, NosDoTipo(h, h.nodes, NoLocal)), Segundo, 10);
    GrausSpec(h, NosDoTipo(h, h.nodes, NoLocal));
  }

  // ---------------------------------------------------------------------------
  // The script as a whole
  // ---------------------------------------------------------------------------

  /** The module-level code: the loop over the rows, the clique, and the two
      rankings it prints (the drawing is not modelled). */
  method ExecutarRa(dados: seq<LinhaCsv>)
    returns (grafo: GrafoRa, erro: Option<Erro>, topLocais: seq<(Label, int)>, topDecadas: seq<(Label, int)>)
    ensures fresh(grafo)
    ensures Script(dados).Err? ==> erro == Some(Script(dados).error)
    ensures Script(dados).Ok? ==>
      && erro.None? && grafo.Model() == Script(dados).value
      && topLocais == TopLocais(grafo.Model()) && topDecadas == TopDecadas(grafo.Model())
  {
    var decadas, locais, fontes;
    grafo, decadas, locais, fontes, erro := ConstruirRa(dados);
    topLocais, topDecadas := [], [];
    if erro.Some? {
      return;
    }
    ConstruirDecadas(dados);
    LigarMesmaDecada(grafo, decadas, locais);
    var g := grafo.Model();
    var nos := NosDoTipo(g, g.nodes, NoLocal);
    topLocais := Head(SortDesc(Graus(g, nos), Segundo), 10);
    var lista := JulgamentosPorDecada(g);
    topDecadas := Head(SortDesc(lista, Segundo), 5);
  }
}
