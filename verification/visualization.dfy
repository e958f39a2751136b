/** The table-building parts of the package's report functions: the country
    and location rankings, the decade series, the geographic table, and the
    subgraph with its output file name. Plotting is not modelled; each
    function's result is the table it would plot and return. */
module Visualization {
  import opened Common
  import opened Graphs

  /** pandas' `KeyError` for a missing column or index. */
  datatype TableError = KeyError(coluna: string)

  /** `mortes / julgamentos if julgamentos > 0 else 0`, as an exact ratio. */
  function Rate(mortes: int, julgamentos: int): (r: real)
    ensures julgamentos > 0 ==> r * (julgamentos as real) == mortes as real
    ensures julgamentos <= 0 ==> r == 0.0
  {
    if julgamentos > 0 then mortes as real / julgamentos as real else 0.0
  }

  // ---------------------------------------------------------------------------
  // `top_paises` and `top_localizacoes`
  // ---------------------------------------------------------------------------

  /** A row of a ranking: the country or location, trials, deaths, rate. */
  datatype RankRow = RankRow(chave: string, julgamentos: int, mortes: int, taxa: real)

  function Trials(r: RankRow): int
  {
    r.julgamentos
  }

  /** What the defaultdict is keyed by: the node's `pais`, or the node itself. */
  datatype Grouping = PorPais | PorLocal

  function GroupKey(g: Graph, n: Label, grp: Grouping): string
    requires IsLocal(g, n)
  {
    match grp
    case PorPais => g.kind[n].pais
    case PorLocal => n
  }

  /** The keys in the order the defaultdict first sees them. */
  function GroupOrder(g: Graph, ns: seq<Label>, grp: Grouping): seq<string>
  {
    if ns == [] then []
    else
      var o := GroupOrder(g, ns[..|ns| - 1], grp);
      var n := ns[|ns| - 1];
      if IsLocal(g, n) && GroupKey(g, n, grp) !in o then o + [GroupKey(g, n, grp)] else o
  }

  /** What a node of ns adds to the entry for key c. */
  function GroupTerm(g: Graph, n: Label, grp: Grouping, c: string): Acc
  {
    if IsLocal(g, n) && GroupKey(g, n, grp) == c then OutSum(g, n) else Zero
  }

  /** The out-edge trials and deaths of the local nodes of ns with key c. */
  function GroupTotal(g: Graph, ns: seq<Label>, grp: Grouping, c: string): Acc
  {
    if ns == [] then Zero
    else GroupTotal(g, ns[..|ns| - 1], grp, c).Plus(GroupTerm(g, ns[|ns| - 1], grp, c))
  }

  /** The keys are never repeated. */
  lemma {:induction false} GroupOrderDistinct(g: Graph, ns: seq<Label>, grp: Grouping)
    ensures Distinct(GroupOrder(g, ns, grp))
  {
    if ns != [] {
      var p, n := ns[..|ns| - 1], ns[|ns| - 1];
      GroupOrderDistinct(g, p, grp);
      var o := GroupOrder(g, p, grp);
      if IsLocal(g, n) && GroupKey(g, n, grp) !in o {
        DistinctAppend(o, GroupKey(g, n, grp));
      }
    }
  }

  /** A key is listed exactly when some local node of ns has it. */
  lemma {:induction false} GroupOrderKeys(g: Graph, ns: seq<Label>, grp: Grouping, c: string)
    ensures c in GroupOrder(g, ns, grp) <==> exists n :: n in ns && IsLocal(g, n) && GroupKey(g, n, grp) == c
  {
    if ns != [] {
      var p, n := ns[..|ns| - 1], ns[|ns| - 1];
      GroupOrderKeys(g, p, grp, c);
      assert ns == p + [n];
      var o := GroupOrder(g, p, grp);
      assert c in GroupOrder(g, ns, grp) <==> c in o || (IsLocal(g, n) && GroupKey(g, n, grp) == c);
      if c in o {
        var m :| m in p && IsLocal(g, m) && GroupKey(g, m, grp) == c;
        assert m in ns;
      } else if IsLocal(g, n) && GroupKey(g, n, grp) == c {
        assert n in ns;
      }
      if m :| m in ns && IsLocal(g, m) && GroupKey(g, m, grp) == c {
        if m != n {
          assert m in p;
        }
      }
    }
  }

  /** A key with no local node has a zero total. */
  lemma {:induction false} GroupTotalZero(g: Graph, ns: seq<Label>, grp: Grouping, c: string)
    requires c !in GroupOrder(g, ns, grp)
    ensures GroupTotal(g, ns, grp, c) == Zero
  {
    if ns != [] {
      var p, n := ns[..|ns| - 1], ns[|ns| - 1];
      var o := GroupOrder(g, p, grp);
      assert c !in o;
      GroupTotalZero(g, p, grp, c);
      assert GroupTerm(g, n, grp, c) == Zero;
    }
  }

  /** The keys are distinct and are exactly the keys of the local nodes; a key
      with no local node has a zero total. */
  lemma GroupOrderSpec(g: Graph, ns: seq<Label>, grp: Grouping)
    ensures Distinct(GroupOrder(g, ns, grp))
    ensures forall c :: c in GroupOrder(g, ns, grp) <==>
              exists n :: n in ns && IsLocal(g, n) && GroupKey(g, n, grp) == c
    ensures forall c :: c !in GroupOrder(g, ns, grp) ==> GroupTotal(g, ns, grp, c) == Zero
  {
    GroupOrderDistinct(g, ns, grp);
    forall c ensures c in GroupOrder(g, ns, grp) <==> exists n :: n in ns && IsLocal(g, n) && GroupKey(g, n, grp) == c {
      GroupOrderKeys(g, ns, grp, c);
    }
    forall c | c !in GroupOrder(g, ns, grp) ensures GroupTotal(g, ns, grp, c) == Zero {
      GroupTotalZero(g, ns, grp, c);
    }
  }

  /** The defaultdict after the nodes ns: each local node adds its out-edge
      sums to the entry of its key, which starts at zero. */
  function Totals(g: Graph, ns: seq<Label>, grp: Grouping): map<string, Acc>
  {
    if ns == [] then map[]
    else
      var t, n := Totals(g, ns[..|ns| - 1], grp), ns[|ns| - 1];
      if IsLocal(g, n) then
        var c := GroupKey(g, n, grp);
        t[c := (if c in t then t[c] else Zero).Plus(OutSum(g, n))]
      else t
  }

  /** The defaultdict has an entry for exactly the keys in first-seen order,
      and each entry is the total of its key. */
  lemma {:induction false} TotalsSpec(g: Graph, ns: seq<Label>, grp: Grouping)
    ensures forall c :: c in Totals(g, ns, grp) <==> c in GroupOrder(g, ns, grp)
    ensures forall c :: c in Totals(g, ns, grp) ==> Totals(g, ns, grp)[c] == GroupTotal(g, ns, grp, c)
  {
    if ns != [] {
      var p, n := ns[..|ns| - 1], ns[|ns| - 1];
      TotalsSpec(g, p, grp);
      assert ns == p + [n];
      GroupStep(g, p, n, grp);
      var t := Totals(g, p, grp);
      if IsLocal(g, n) {
        var k := GroupKey(g, n, grp);
        assert (if k in t then t[k] else Zero) == GroupTotal(g, p, grp, k);
      }
    }
  }

  /** The two loops of the aggregation shared by both rankings: per node,
      add its out-edge sums to the entry of its key. */
  method Aggregate(g: Graph, grp: Grouping) returns (keys: seq<string>, tot: map<string, Acc>)
    ensures keys == GroupOrder(g, g.nodes, grp)
    ensures forall c :: c in tot <==> c in keys
    ensures forall c :: c in tot ==> tot[c] == GroupTotal(g, g.nodes, grp, c)
  {
    keys, tot := [], map[];
    for i := 0 to |g.nodes|
      invariant keys == GroupOrder(g, g.nodes[..i], grp)
      invariant tot == Totals(g, g.nodes[..i], grp)
    {
      var no := g.nodes[i];
      ghost var ns := g.nodes[..i];
      assert g.nodes[..i + 1] == ns + [no];
      assert (ns + [no])[..i] == ns;
      TotalsSpec(g, ns, grp);
      if IsLocal(g, no) {
        var chave := GroupKey(g, no, grp);
        ghost var antes := if chave in tot then tot[chave] else Zero;
        if chave !in tot {
          keys := keys + [chave];
          tot := tot[chave := Zero];
        }
        tot := tot[chave := tot[chave].Plus(OutSum(g, no))];
        assert tot == Totals(g, ns, grp)[chave := antes.Plus(OutSum(g, no))];
      }
    }
    assert g.nodes[..|g.nodes|] == g.nodes;
    TotalsSpec(g, g.nodes, grp);
  }

  /** One more node: its key joins the order if it is new, and its out-edge
      sums join its key's total and no other. */
  lemma GroupStep(g: Graph, ns: seq<Label>, n: Label, grp: Grouping)
    ensures var o := GroupOrder(g, ns, grp);
      GroupOrder(g, ns + [n], grp) == if IsLocal(g, n) && GroupKey(g, n, grp) !in o then o + [GroupKey(g, n, grp)] else o
    ensures forall c :: c !in GroupOrder(g, ns, grp) ==> GroupTotal(g, ns, grp, c) == Zero
    ensures forall c :: GroupTotal(g, ns + [n], grp, c) ==
              if IsLocal(g, n) && GroupKey(g, n, grp) == c then GroupTotal(g, ns, grp, c).Plus(OutSum(g, n))
              else GroupTotal(g, ns, grp, c)
  {
    assert (ns + [n])[..|ns|] == ns;
    GroupOrderSpec(g, ns, grp);
    forall c ensures GroupTotal(g, ns + [n], grp, c) ==
              if IsLocal(g, n) && GroupKey(g, n, grp) == c then GroupTotal(g, ns, grp, c).Plus(OutSum(g, n))
              else GroupTotal(g, ns, grp, c)
    {
      PlusZero(GroupTotal(g, ns, grp, c));
    }
  }

  /** The table rows for the given keys: keys with positive trials only. */
  function RowsFrom(g: Graph, keys: seq<string>, grp: Grouping): seq<RankRow>
  {
    if keys == [] then []
    else
      var c := keys[|keys| - 1];
      var t := GroupTotal(g, g.nodes, grp, c);
      RowsFrom(g, keys[..|keys| - 1], grp)
        + (if t.julgamentos > 0 then [RankRow(c, t.julgamentos, t.mortes, Rate(t.mortes, t.julgamentos))] else [])
  }

  /** The rows of the data frame before it is sorted. */
  function GroupRows(g: Graph, grp: Grouping): seq<RankRow>
  {
    RowsFrom(g, GroupOrder(g, g.nodes, grp), grp)
  }

  /** `pd.DataFrame(rows).sort_values('Julgamentos', ascending=False).head(n)`:
      an empty list has no `Julgamentos` column, so the sort raises. */
  function RankTable(rows: seq<RankRow>, n: int): Result<seq<RankRow>, TableError>
  {
    if rows == [] then Err(KeyError("Julgamentos")) else Ok(Head(SortDesc(rows, Trials), n))
  }

  /** Each row is the total of one key with positive trials and its rate, and
      every key with positive trials has a row. */
  lemma {:induction false} RowsFromSpec(g: Graph, keys: seq<string>, grp: Grouping)
    ensures forall r :: r in RowsFrom(g, keys, grp) ==>
              && r.chave in keys && r.julgamentos > 0
              && Acc(r.julgamentos, r.mortes) == GroupTotal(g, g.nodes, grp, r.chave)
              && r.taxa == Rate(r.mortes, r.julgamentos)
    ensures forall c :: c in keys && GroupTotal(g, g.nodes, grp, c).julgamentos > 0 ==>
              exists r :: r in RowsFrom(g, keys, grp) && r.chave == c
  {
    if keys != [] {
      var p, c := keys[..|keys| - 1], keys[|keys| - 1];
      RowsFromSpec(g, p, grp);
      assert keys == p + [c];
      var t := GroupTotal(g, g.nodes, grp, c);
      if t.julgamentos > 0 {
        var last := RankRow(c, t.julgamentos, t.mortes, Rate(t.mortes, t.julgamentos));
        assert last in RowsFrom(g, keys, grp);
      }
    }
  }

  /** The ranking raises exactly when no key qualifies; otherwise it holds at
      most n rows (for a negative n, all but the last -n), sorted by trials
      from the largest, drawn from the input, and no row left out has more
      trials than a row kept. */
  lemma RankTableSpec(rows: seq<RankRow>, n: int)
    ensures RankTable(rows, n).Err? <==> rows == []
    ensures RankTable(rows, n).Err? ==> RankTable(rows, n).error == KeyError("Julgamentos")
    ensures RankTable(rows, n).Ok? ==>
              var t := RankTable(rows, n).value;
              && NonIncreasing(t, Trials)
              && multiset(t) <= multiset(rows)
              && (n >= 0 ==> |t| == if n < |rows| then n else |rows|)
              && forall x, y :: x in t && y in multiset(rows) - multiset(t) ==> x.julgamentos >= y.julgamentos
  {
    if rows != [] {
      var s := SortDesc(rows, Trials);
      SortDescSpec(rows, Trials);
      HeadNonIncreasing(s, n, Trials);
      HeadIsTop(rows, Trials, n);
      var h := Head(s, n);
      assert multiset(rows) - multiset(h) == multiset(s[|h|..]);
      forall x, y | x in h && y in multiset(rows) - multiset(h) ensures x.julgamentos >= y.julgamentos {
        assert y in s[|h|..];
      }
    }
  }

  /** `top_paises(df, G, n)`. */
  method TopPaises(g: Graph, n: int) returns (r: Result<seq<RankRow>, TableError>)
    ensures r == RankTable(GroupRows(g, PorPais), n)
  {
    r := Rank(g, PorPais, n);
  }

  /** `top_localizacoes(df, G, n)`. */
  method TopLocalizacoes(g: Graph, n: int) returns (r: Result<seq<RankRow>, TableError>)
    ensures r == RankTable(GroupRows(g, PorLocal), n)
  {
    r := Rank(g, PorLocal, n);
  }

  /** Aggregation, row building and ranking, common to both functions. */
  method Rank(g: Graph, grp: Grouping, n: int) returns (r: Result<seq<RankRow>, TableError>)
    ensures r == RankTable(GroupRows(g, grp), n)
  {
    var keys, tot := Aggregate(g, grp);
    var rows: seq<RankRow> := [];
    for k := 0 to |keys|
      invariant rows == RowsFrom(g, keys[..k], grp)
    {
      assert keys[..k + 1][..k] == keys[..k];
      var c := keys[k];
      var dados := tot[c];
      if dados.julgamentos > 0 {
        rows := rows + [RankRow(c, dados.julgamentos, dados.mortes, Rate(dados.mortes, dados.julgamentos))];
      }
    }
    assert keys[..|keys|] == keys;
    if |rows| == 0 {
      r := Err(KeyError("Julgamentos"));
    } else {
      r := Ok(Head(SortDesc(rows, Trials), n));
    }
  }

  /** Every country row totals the out-edges of the local nodes of that
      country and has positive trials; every country of a local node whose
      total is positive has a row. */
  lemma CountryRowsSpec(g: Graph)
    ensures forall r :: r in GroupRows(g, PorPais) ==>
              && r.julgamentos > 0 && r.taxa == Rate(r.mortes, r.julgamentos)
              && Acc(r.julgamentos, r.mortes) == GroupTotal(g, g.nodes, PorPais, r.chave)
              && exists n :: n in g.nodes && IsLocal(g, n) && g.kind[n].pais == r.chave
    ensures forall n :: n in g.nodes && IsLocal(g, n) && GroupTotal(g, g.nodes, PorPais, g.kind[n].pais).julgamentos > 0 ==>
              exists r :: r in GroupRows(g, PorPais) && r.chave == g.kind[n].pais
  {
    GroupOrderSpec(g, g.nodes, PorPais);
    RowsFromSpec(g, GroupOrder(g, g.nodes, PorPais), PorPais);
    forall r | r in GroupRows(g, PorPais)
      ensures exists n :: n in g.nodes && IsLocal(g, n) && g.kind[n].pais == r.chave
    {
      var n :| n in g.nodes && IsLocal(g, n) && GroupKey(g, n, PorPais) == r.chave;
    }
    forall n | n in g.nodes && IsLocal(g, n) && GroupTotal(g, g.nodes, PorPais, g.kind[n].pais).julgamentos > 0
      ensures exists r :: r in GroupRows(g, PorPais) && r.chave == g.kind[n].pais
    {
      assert GroupKey(g, n, PorPais) in GroupOrder(g, g.nodes, PorPais);
    }
  }

  /** Over distinct nodes, the entry of a location is that node's own out-edge
      total. */
  lemma {:induction false} LocationTotal(g: Graph, ns: seq<Label>, l: Label)
    requires Distinct(ns)
    ensures GroupTotal(g, ns, PorLocal, l) == if l in ns && IsLocal(g, l) then OutSum(g, l) else Zero
  {
    if ns != [] {
      var p, n := ns[..|ns| - 1], ns[|ns| - 1];
      InDropLast(ns);
      LocationTotal(g, p, l);
      if l == n {
        assert l !in p;
      }
    }
  }

  /** The location rows are the local nodes with positive out-edge trials,
      one row each, keyed by the node and carrying its out-edge totals. */
  lemma LocationRowsSpec(g: Graph)
    requires Valid(g)
    ensures forall r :: r in GroupRows(g, PorLocal) ==>
              && r.chave in g.nodes && IsLocal(g, r.chave) && r.julgamentos > 0
              && Acc(r.julgamentos, r.mortes) == OutSum(g, r.chave)
    ensures forall n :: n in g.nodes && IsLocal(g, n) && OutSum(g, n).julgamentos > 0 ==>
              exists r :: r in GroupRows(g, PorLocal) && r.chave == n
  {
    GroupOrderSpec(g, g.nodes, PorLocal);
    RowsFromSpec(g, GroupOrder(g, g.nodes, PorLocal), PorLocal);
    forall r | r in GroupRows(g, PorLocal)
      ensures r.chave in g.nodes && IsLocal(g, r.chave) && Acc(r.julgamentos, r.mortes) == OutSum(g, r.chave)
    {
      var n :| n in g.nodes && IsLocal(g, n) && GroupKey(g, n, PorLocal) == r.chave;
      LocationTotal(g, g.nodes, r.chave);
    }
    forall n | n in g.nodes && IsLocal(g, n) && OutSum(g, n).julgamentos > 0
      ensures exists r :: r in GroupRows(g, PorLocal) && r.chave == n
    {
      LocationTotal(g, g.nodes, n);
      assert GroupKey(g, n, PorLocal) in GroupOrder(g, g.nodes, PorLocal);
    }
  }

  // ---------------------------------------------------------------------------
  // `julgamentos_por_decada`
  // ---------------------------------------------------------------------------

  /** A row of the decade series: the decade as an integer, trials, deaths, rate. */
  datatype DecadeRow = DecadeRow(decada: int, julgamentos: int, mortes: int, taxa: real)

  function DecadeOf(r: DecadeRow): int
  {
    r.decada
  }

  /** `int(x)` for the all-digit labels the series keeps. */
  function DecadeKey(d: Label): int
  {
    if IsDigits(d) then DigitsValue(d) else -1
  }

  /** The `decada` nodes of ns whose label is all digits, in node order. */
  function DigitDecades(g: Graph, ns: seq<Label>): seq<Label>
  {
    if ns == [] then []
    else
      var n := ns[|ns| - 1];
      DigitDecades(g, ns[..|ns| - 1]) + (if IsDecada(g, n) && IsDigits(n) then [n] else [])
  }

  function DecadeRowOf(g: Graph, d: Label): DecadeRow
  {
    var t := InSum(g, d);
    DecadeRow(DecadeKey(d), t.julgamentos, t.mortes, Rate(t.mortes, t.julgamentos))
  }

  /** The loop body: a row for each decade with positive incoming trials. */
  function DecadeRowsFrom(g: Graph, ds: seq<Label>): seq<DecadeRow>
  {
    if ds == [] then []
    else
      var d := ds[|ds| - 1];
      DecadeRowsFrom(g, ds[..|ds| - 1]) + (if InSum(g, d).julgamentos > 0 then [DecadeRowOf(g, d)] else [])
  }

  /** The selected decades in increasing integer order. */
  function SortedDecades(g: Graph): seq<Label>
  {
    SortAsc(DigitDecades(g, g.nodes), DecadeKey)
  }

  /** The whole function: select, sort by integer value, build rows, then
      `set_index('Década').sort_index()`, which raises on an empty list. */
  function DecadeTable(g: Graph): Result<seq<DecadeRow>, TableError>
  {
    var rows := DecadeRowsFrom(g, SortedDecades(g));
    if rows == [] then Err(KeyError("Década")) else Ok(SortAsc(rows, DecadeOf))
  }

  /** `julgamentos_por_decada(df, G)`. */
  method JulgamentosPorDecada(g: Graph) returns (r: Result<seq<DecadeRow>, TableError>)
    ensures r == DecadeTable(g)
  {
    var decadas: seq<Label> := [];
    for i := 0 to |g.nodes|
      invariant decadas == DigitDecades(g, g.nodes[..i])
    {
      assert g.nodes[..i + 1][..i] == g.nodes[..i];
      var n := g.nodes[i];
      if IsDecada(g, n) && IsDigits(n) {
        decadas := decadas + [n];
      }
    }
    assert g.nodes[..|g.nodes|] == g.nodes;
    decadas := SortAsc(decadas, DecadeKey);
    assert decadas == SortedDecades(g);
    var ts: seq<DecadeRow> := [];
    for k := 0 to |decadas|
      invariant ts == DecadeRowsFrom(g, decadas[..k])
    {
      assert decadas[..k + 1][..k] == decadas[..k];
      var decada := decadas[k];
      var t := InSum(g, decada);
      if t.julgamentos > 0 {
        ts := ts + [DecadeRow(DecadeKey(decada), t.julgamentos, t.mortes, Rate(t.mortes, t.julgamentos))];
      }
    }
    assert decadas[..|decadas|] == decadas;
    if |ts| == 0 {
      r := Err(KeyError("Década"));
    } else {
      r := Ok(SortAsc(ts, DecadeOf));
    }
  }

  lemma {:induction false} DigitDecadesSpec(g: Graph, ns: seq<Label>)
    ensures forall d :: d in DigitDecades(g, ns) <==> d in ns && IsDecada(g, d) && IsDigits(d)
  {
    if ns != [] {
      DigitDecadesSpec(g, ns[..|ns| - 1]);
      assert ns == ns[..|ns| - 1] + [ns[|ns| - 1]];
    }
  }

  lemma {:induction false} DecadeRowsFromSpec(g: Graph, ds: seq<Label>)
    ensures forall r :: r in DecadeRowsFrom(g, ds) <==>
              exists d :: d in ds && InSum(g, d).julgamentos > 0 && r == DecadeRowOf(g, d)
  {
    if ds != [] {
      DecadeRowsFromSpec(g, ds[..|ds| - 1]);
      assert ds == ds[..|ds| - 1] + [ds[|ds| - 1]];
    }
  }

  /** The rows the loop builds are those of the all-digit `decada` nodes
      with positive incoming trials. */
  lemma DecadeRowsMembers(g: Graph)
    ensures forall r :: r in DecadeRowsFrom(g, SortedDecades(g)) ==>
              exists d :: d in g.nodes && IsDecada(g, d) && IsDigits(d) && InSum(g, d).julgamentos > 0 && r == DecadeRowOf(g, d)
    ensures forall d :: d in g.nodes && IsDecada(g, d) && IsDigits(d) && InSum(g, d).julgamentos > 0 ==>
              DecadeRowOf(g, d) in DecadeRowsFrom(g, SortedDecades(g))
  {
    var sel := DigitDecades(g, g.nodes);
    var ds := SortedDecades(g);
    DigitDecadesSpec(g, g.nodes);
    SortAscSpec(sel, DecadeKey);
    forall d ensures d in ds <==> d in sel {
      assert d in ds <==> d in multiset(ds);
      assert d in sel <==> d in multiset(sel);
    }
    DecadeRowsFromSpec(g, ds);
  }

  /** The series raises exactly when no all-digit `decada` node has positive
      incoming trials. */
  lemma DecadeTableError(g: Graph)
    ensures DecadeTable(g).Err? <==>
              forall d :: d in g.nodes && IsDecada(g, d) && IsDigits(d) ==> InSum(g, d).julgamentos <= 0
    ensures DecadeTable(g).Err? ==> DecadeTable(g).error == KeyError("Década")
  {
    DecadeRowsMembers(g);
    var rows := DecadeRowsFrom(g, SortedDecades(g));
    if rows != [] {
      assert rows[0] in rows;
    }
  }

  /** Otherwise the series is ordered by decade; each row is an all-digit
      `decada` node read as an integer, with its incoming totals and their
      rate; and every such node with positive trials has its row. */
  lemma DecadeTableRows(g: Graph)
    ensures DecadeTable(g).Ok? ==>
              && NonDecreasing(DecadeTable(g).value, DecadeOf)
              && (forall r :: r in DecadeTable(g).value ==>
                    exists d :: && d in g.nodes && IsDecada(g, d) && IsDigits(d) && r.decada == DigitsValue(d)
                                && r.julgamentos == InSum(g, d).julgamentos > 0 && r.mortes == InSum(g, d).mortes
                                && r.taxa == Rate(r.mortes, r.julgamentos))
              && (forall d :: d in g.nodes && IsDecada(g, d) && IsDigits(d) && InSum(g, d).julgamentos > 0 ==>
                    DecadeRowOf(g, d) in DecadeTable(g).value)
  {
    DecadeRowsMembers(g);
    var rows := DecadeRowsFrom(g, SortedDecades(g));
    if rows != [] {
      SortAscSpec(rows, DecadeOf);
      var out := SortAsc(rows, DecadeOf);
      assert DecadeTable(g).value == out;
      forall r ensures r in out <==> r in rows {
        assert r in out <==> r in multiset(out);
        assert r in rows <==> r in multiset(rows);
      }
      forall r | r in out
        ensures exists d :: && d in g.nodes && IsDecada(g, d) && IsDigits(d) && r.decada == DigitsValue(d)
                            && r.julgamentos == InSum(g, d).julgamentos > 0 && r.mortes == InSum(g, d).mortes
                            && r.taxa == Rate(r.mortes, r.julgamentos)
      {
        var d :| d in g.nodes && IsDecada(g, d) && IsDigits(d) && InSum(g, d).julgamentos > 0 && r == DecadeRowOf(g, d);
      }
    }
  }

  // ---------------------------------------------------------------------------
  // `distribuir_geograficamente`
  // ---------------------------------------------------------------------------

  /** A row of the geographic table. */
  datatype GeoRow = GeoRow(local: Label, julgamentos: int, mortes: int, latitude: real, longitude: real, pais: string)

  /** A `local` node with both coordinates present. */
  predicate HasCoords(g: Graph, n: Label)
  {
    IsLocal(g, n) && g.kind[n].lat.Some? && g.kind[n].lon.Some?
  }

  function GeoRowOf(g: Graph, n: Label): GeoRow
    requires HasCoords(g, n)
  {
    GeoRow(n, OutSum(g, n).julgamentos, OutSum(g, n).mortes, g.kind[n].lat.value, g.kind[n].lon.value, g.kind[n].pais)
  }

  /** The rows for the nodes of ns, in their order. */
  function GeoRows(g: Graph, ns: seq<Label>): seq<GeoRow>
  {
    if ns == [] then []
    else
      var n := ns[|ns| - 1];
      GeoRows(g, ns[..|ns| - 1]) + (if HasCoords(g, n) then [GeoRowOf(g, n)] else [])
  }

  /** `distribuir_geograficamente(df, G)`: one row per located node, in node
      order; no located node gives the empty table. */
  function DistribuirGeograficamente(g: Graph): seq<GeoRow>
  {
    GeoRows(g, g.nodes)
  }

  /** The rows are exactly the located nodes, each with its out-edge totals,
      coordinates and country. */
  lemma {:induction false} GeoRowsSpec(g: Graph, ns: seq<Label>)
    ensures forall r :: r in GeoRows(g, ns) ==>
              r.local in ns && HasCoords(g, r.local) && r == GeoRowOf(g, r.local)
    ensures forall n :: n in ns && HasCoords(g, n) ==> GeoRowOf(g, n) in GeoRows(g, ns)
  {
    if ns != [] {
      var p, n := ns[..|ns| - 1], ns[|ns| - 1];
      GeoRowsSpec(g, p);
      InDropLast(ns);
      var rp := GeoRows(g, p);
      assert GeoRows(g, ns) == rp + (if HasCoords(g, n) then [GeoRowOf(g, n)] else []);
    }
  }

  /** The rows follow the order of ns: of two rows, the earlier one's node
      comes earlier in ns. */
  lemma {:induction false} GeoRowsOrder(g: Graph, ns: seq<Label>)
    ensures forall i, j :: 0 <= i < j < |GeoRows(g, ns)| ==>
              exists a, b :: 0 <= a < b < |ns| && ns[a] == GeoRows(g, ns)[i].local && ns[b] == GeoRows(g, ns)[j].local
  {
    if ns != [] {
      var p, n := ns[..|ns| - 1], ns[|ns| - 1];
      GeoRowsOrder(g, p);
      GeoRowsSpec(g, p);
      var rp := GeoRows(g, p);
      var r := GeoRows(g, ns);
      assert r == rp + (if HasCoords(g, n) then [GeoRowOf(g, n)] else []);
      forall i, j | 0 <= i < j < |r|
        ensures exists a, b :: 0 <= a < b < |ns| && ns[a] == r[i].local && ns[b] == r[j].local
      {
        if j < |rp| {
          assert r[i] == rp[i] && r[j] == rp[j];
          var a, b :| 0 <= a < b < |p| && p[a] == rp[i].local && p[b] == rp[j].local;
          assert ns[a] == p[a] && ns[b] == p[b];
        } else {
          assert r[i] == rp[i] && r[j] == GeoRowOf(g, n);
          assert rp[i] in rp;
          var a :| 0 <= a < |p| && p[a] == rp[i].local;
          assert ns[a] == p[a] && ns[|ns| - 1] == n;
        }
      }
    } else {
      assert GeoRows(g, ns) == [];
    }
  }

  // ---------------------------------------------------------------------------
  // `visualizar_subgrafo`
  // ---------------------------------------------------------------------------

  /** The undirected subgraph: the chosen nodes with their attributes, and an
      edge {u, v} for each edge of G with both ends chosen. */
  datatype SubGraph = SubGraph(kind: map<Label, NodeKind>, edges: set<set<Label>>)

  /** How the function ends: a warning, or an image saved under a file name. */
  datatype Desfecho = Aviso | Salvo(arquivo: string)

  /** The edges of G with both ends in nodes, without direction. */
  function SubEdges(g: Graph, nodes: seq<Label>): set<set<Label>>
  {
    set e | e in g.edges && e.0 in nodes && e.1 in nodes :: {e.0, e.1}
  }

  /** `f"outputs/{titulo.lower().replace(' ', '_').replace(':', '')}.png"`. */
  function NomeArquivo(titulo: string): string
  {
    "outputs/" + RemoveChar(ReplaceChar(Lower(titulo), ' ', '_'), ':') + ".png"
  }

  /** The file lies in `outputs/`, ends in `.png`, and its stem has no space,
      no colon and no upper-case letter, and is no longer than the title. */
  lemma NomeArquivoSpec(titulo: string)
    ensures var f := NomeArquivo(titulo);
      && |f| >= 12 && f[..8] == "outputs/" && f[|f| - 4..] == ".png"
      && var stem := f[8..|f| - 4];
         && ' ' !in stem && ':' !in stem && |stem| <= |titulo|
         && forall c :: c in stem ==> !('A' <= c <= 'Z')
  {
    var low := Lower(titulo);
    var rep := ReplaceChar(low, ' ', '_');
    var stem := RemoveChar(rep, ':');
    var f := NomeArquivo(titulo);
    assert f == "outputs/" + stem + ".png";
    assert f[8..|f| - 4] == stem;
    forall c | c in stem ensures !('A' <= c <= 'Z') {
      assert c in rep;
      if c != '_' {
        assert c in low;
      }
    }
  }

  /** `subG.add_nodes_from((n, G.nodes[n]) for n in nodes)`: the attributes
      of the chosen nodes, or `KeyError` at the first node not in G. */
  method CopyNodes(g: Graph, nodes: seq<Label>) returns (r: Result<map<Label, NodeKind>, TableError>)
    ensures r.Err? <==> exists n :: n in nodes && n !in g.kind
    ensures r.Err? ==> exists i :: && 0 <= i < |nodes| && nodes[i] !in g.kind && r.error == KeyError(nodes[i])
                                   && forall j :: 0 <= j < i ==> nodes[j] in g.kind
    ensures r.Ok? ==> (forall n :: n in r.value <==> n in nodes)
                      && forall n :: n in r.value ==> r.value[n] == g.kind[n]
  {
    var kind: map<Label, NodeKind> := map[];
    for i := 0 to |nodes|
      invariant forall j :: 0 <= j < i ==> nodes[j] in g.kind
      invariant forall n :: n in kind <==> n in nodes[..i]
      invariant forall n :: n in kind ==> n in g.kind && kind[n] == g.kind[n]
    {
      var n := nodes[i];
      if n !in g.kind {
        return Err(KeyError(n));
      }
      assert nodes[..i + 1] == nodes[..i] + [n];
      kind := kind[n := g.kind[n]];
    }
    assert nodes[..|nodes|] == nodes;
    r := Ok(kind);
  }

  /** The edge loop: each edge of G with both ends chosen becomes {u, v}. */
  method CopyEdges(g: Graph, nodes: seq<Label>) returns (edges: set<set<Label>>)
    ensures edges == SubEdges(g, nodes)
  {
    edges := {};
    for k := 0 to |g.edges|
      invariant edges == set e | e in g.edges[..k] && e.0 in nodes && e.1 in nodes :: {e.0, e.1}
    {
      var (u, v) := g.edges[k];
      assert g.edges[..k + 1] == g.edges[..k] + [(u, v)];
      if u in nodes && v in nodes {
        edges := edges + {{u, v}};
      }
    }
    assert g.edges[..|g.edges|] == g.edges;
  }

  /** `visualizar_subgrafo(G, nodes, titulo)`: copy the chosen nodes (a node
      not in G raises `KeyError`), copy the edges between them, and warn
      instead of drawing when there is no node or no edge. */
  method VisualizarSubgrafo(g: Graph, nodes: seq<Label>, titulo: string)
    returns (r: Result<(SubGraph, Desfecho), TableError>)
    ensures r.Err? <==> exists n :: n in nodes && n !in g.kind
    ensures r.Err? ==> exists i :: && 0 <= i < |nodes| && nodes[i] !in g.kind && r.error == KeyError(nodes[i])
                                   && forall j :: 0 <= j < i ==> nodes[j] in g.kind
    ensures r.Ok? ==>
              && (forall n :: n in r.value.0.kind <==> n in nodes)
              && (forall n :: n in r.value.0.kind ==> r.value.0.kind[n] == g.kind[n])
              && r.value.0.edges == SubEdges(g, nodes)
              && r.value.1 == if nodes == [] || SubEdges(g, nodes) == {} then Aviso else Salvo(NomeArquivo(titulo))
  {
    var copied := CopyNodes(g, nodes);
    if copied.Err? {
      return Err(copied.error);
    }
    var kind := copied.value;
    var edges := CopyEdges(g, nodes);
    var sub := SubGraph(kind, edges);
    if |kind| == 0 || |edges| == 0 {
      assert |kind| == 0 ==> nodes == [] by {
        if nodes != [] { assert nodes[0] in kind; }
      }
      r := Ok((sub, Aviso));
    } else {
      assert nodes != [] by {
        var n :| n in kind;
      }
      r := Ok((sub, Salvo(NomeArquivo(titulo))));
    }
  }
}
