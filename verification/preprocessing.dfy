/** The row filter and per-row column maps applied to the trial table before
    the graph is built: `preprocessar` in the package and
    `_preprocessar_dados` in the stand-alone analysis class. Nothing is carried
    from one row to the next, so both are functions over the row sequence. */
module Preprocessing {
  import opened Common

  /** A count cell after pandas' `to_numeric(errors='coerce')`: `None` when the
      cell is missing or does not parse as a number. */
  type RawCount = Option<int>

  /** One row of the trial table, with the columns the pipeline reads
      (`city`, `gadm.adm1`, `gadm.adm0`, `decade`, `tried`, `deaths`, `lat`,
      `lon`). A missing (NaN) cell is `None`. */
  datatype RawRow = RawRow(
    city: Option<string>,
    adm1: Option<string>,
    adm0: Option<string>,
    decade: Option<string>,
    tried: RawCount,
    deaths: RawCount,
    lat: Option<real>,
    lon: Option<real>)

  /** One preprocessed row, as the graph builder and the totals read it.
      `desconhecido` is the `is_desconhecido` column, which only the package's
      preprocessing adds (`None` for rows of the stand-alone class). */
  datatype Row = Row(
    adm0: Option<string>,
    decade: string,
    tried: int,
    deaths: int,
    lat: Option<real>,
    lon: Option<real>,
    desconhecido: Option<bool>,
    localizacao: string)

  /** The country filter: the country cell is present and not empty. */
  predicate HasCountry(r: RawRow)
  {
    r.adm0.Some? && r.adm0.value != ""
  }

  /** `to_numeric(...).fillna(0).astype(int)`: parse or 0. */
  function Coerce(c: RawCount): int
  {
    c.GetOr(0)
  }

  /** The location key `"city, adm1, adm0"`, or `"city, adm0"` when adm1 is
      missing or empty. */
  function LocationKey(city: string, adm1: Option<string>, adm0: string): string
  {
    (if adm1.Some? && adm1.value != "" then city + ", " + adm1.value else city) + ", " + adm0
  }

  /** The key always ends with the country, after a comma and a space. */
  lemma LocationKeyEndsWithCountry(city: string, adm1: Option<string>, adm0: string)
    ensures var k := LocationKey(city, adm1, adm0);
            |k| >= |adm0| + 2 && k[|k| - |adm0| - 2..] == ", " + adm0
  {
  }

  /** When no field contains a comma, splitting the key on commas gives back
      the fields, each after the first with the single space the key adds. */
  lemma {:induction false} LocationKeySplit(city: string, adm1: Option<string>, adm0: string)
    requires ',' !in city && ',' !in adm0
    requires adm1.Some? ==> ',' !in adm1.value
    ensures adm1.Some? && adm1.value != "" ==>
              Split(LocationKey(city, adm1, adm0), ',') == [city, " " + adm1.value, " " + adm0]
    ensures !(adm1.Some? && adm1.value != "") ==>
              Split(LocationKey(city, adm1, adm0), ',') == [city, " " + adm0]
  {
    var k := LocationKey(city, adm1, adm0);
    var tail := " " + adm0;
    assert ',' !in tail by {
      forall i | 0 <= i < |tail| ensures tail[i] != ',' {
        if i > 0 { assert tail[i] == adm0[i - 1]; }
      }
    }
    SplitNoSep(tail, ',');
    if adm1.Some? && adm1.value != "" {
      var mid := " " + adm1.value;
      assert ',' !in mid by {
        forall i | 0 <= i < |mid| ensures mid[i] != ',' {
          if i > 0 { assert mid[i] == adm1.value[i - 1]; }
        }
      }
      assert k == city + [','] + (mid + [','] + tail);
      SplitJoin(city, mid + [','] + tail, ',');
      SplitJoin(mid, tail, ',');
    } else {
      assert k == city + [','] + tail;
      SplitJoin(city, tail, ',');
    }
  }

  // ---------------------------------------------------------------------------
  // The package's `preprocessar`
  // ---------------------------------------------------------------------------

  /** The row has a string location key: the f-string writes a missing city
      as `nan` when adm1 is present and not empty, but with no such adm1 the
      key is the city cell itself, and a missing one stays NaN. */
  predicate HasKey(r: RawRow)
  {
    r.city.Some? || (r.adm1.Some? && r.adm1.value != "")
  }

  /** The package's preprocessing does not fill a missing decade, and a
      missing city without adm1 gives a NaN key; neither is a string label.
      The model takes tables where every row with a country has a decade and
      a key. */
  predicate CoreReady(rows: seq<RawRow>)
  {
    forall i :: 0 <= i < |rows| && HasCountry(rows[i]) ==> HasKey(rows[i]) && rows[i].decade.Some?
  }

  /** The column maps of `preprocessar` on one kept row. */
  function CoreRow(r: RawRow): Row
    requires HasCountry(r) && HasKey(r) && r.decade.Some?
  {
    Row(r.adm0, r.decade.value, Coerce(r.tried), Coerce(r.deaths), r.lat, r.lon,
        Some(r.city.None? || r.adm1.None? || r.adm0.None?),
        LocationKey(r.city.GetOr("nan"), r.adm1, r.adm0.value))
  }

  /** The row maps of `preprocessar`: drop the rows without a country, then
      map each kept row. */
  function Preprocessar(rows: seq<RawRow>): seq<Row>
    requires CoreReady(rows)
  {
    if rows == [] then []
    else
      var last := rows[|rows| - 1];
      Preprocessar(rows[..|rows| - 1]) + (if HasCountry(last) then [CoreRow(last)] else [])
  }

  /** What one kept row becomes: counts parsed or 0, the location key built
      from city (`nan` when missing), adm1 and adm0, and `is_desconhecido`
      true exactly when city or adm1 is missing (the country is present on a
      kept row). */
  lemma CoreRowSpec(r: RawRow)
    requires HasCountry(r) && HasKey(r) && r.decade.Some?
    ensures var o := CoreRow(r);
      && o.adm0 == r.adm0 && o.decade == r.decade.value
      && (r.tried.Some? ==> o.tried == r.tried.value) && (r.tried.None? ==> o.tried == 0)
      && (r.deaths.Some? ==> o.deaths == r.deaths.value) && (r.deaths.None? ==> o.deaths == 0)
      && o.desconhecido == Some(r.city.None? || r.adm1.None?)
      && (r.adm1.Some? && r.adm1.value != "" && r.city.Some? ==>
            o.localizacao == r.city.value + ", " + r.adm1.value + ", " + r.adm0.value)
      && (r.adm1.Some? && r.adm1.value != "" && r.city.None? ==>
            o.localizacao == "nan, " + r.adm1.value + ", " + r.adm0.value)
      && (!(r.adm1.Some? && r.adm1.value != "") ==>
            o.localizacao == r.city.value + ", " + r.adm0.value)
  {
  }

  /** The exception `preprocessar` raises. */
  datatype PreprocessError = TypeError

  /** `preprocessar` on a whole table. When no row has a country the filtered
      frame is empty; pandas' `apply` then yields an empty float column, and
      adding `", "` to it raises `TypeError`. Otherwise the row maps. */
  function PreprocessarTabela(rows: seq<RawRow>): Result<seq<Row>, PreprocessError>
    requires CoreReady(rows)
  {
    if forall i | 0 <= i < |rows| :: !HasCountry(rows[i]) then Err(TypeError)
    else Ok(Preprocessar(rows))
  }

  /** The output is the concatenation of the outputs of the parts: rows keep
      their order and no row depends on another. */
  lemma {:induction false} PreprocessarConcat(a: seq<RawRow>, b: seq<RawRow>)
    requires CoreReady(a) && CoreReady(b)
    ensures CoreReady(a + b)
    ensures Preprocessar(a + b) == Preprocessar(a) + Preprocessar(b)
  {
    assert CoreReady(a + b) by {
      forall i | 0 <= i < |a + b| && HasCountry((a + b)[i])
        ensures HasKey((a + b)[i]) && (a + b)[i].decade.Some?
      {
        if i < |a| { assert (a + b)[i] == a[i]; } else { assert (a + b)[i] == b[i - |a|]; }
      }
    }
    if b == [] {
      assert a + b == a;
    } else {
      var b' := b[..|b| - 1];
      assert CoreReady(b') by {
        forall i | 0 <= i < |b'| && HasCountry(b'[i]) ensures HasKey(b'[i]) && b'[i].decade.Some? {
          assert b'[i] == b[i];
        }
      }
      PreprocessarConcat(a, b');
      assert (a + b)[..|a + b| - 1] == a + b';
      assert (a + b)[|a + b| - 1] == b[|b| - 1];
    }
  }

  /** Every output row has a country, and there is one output row per input
      row that has one; the table raises `TypeError` exactly when that leaves
      no row, and otherwise gives the mapped rows. */
  lemma {:induction false} PreprocessarKeepsCountryRows(rows: seq<RawRow>)
    requires CoreReady(rows)
    ensures forall o :: o in Preprocessar(rows) ==> o.adm0.Some? && o.adm0.value != ""
    ensures |Preprocessar(rows)| == |set i | 0 <= i < |rows| && HasCountry(rows[i])|
    ensures PreprocessarTabela(rows).Err? <==> Preprocessar(rows) == []
    ensures PreprocessarTabela(rows).Ok? ==> PreprocessarTabela(rows).value == Preprocessar(rows)
  {
    PreprocessarCount(rows);
    var kept := set i | 0 <= i < |rows| && HasCountry(rows[i]);
    if i :| 0 <= i < |rows| && HasCountry(rows[i]) {
      assert i in kept;
      assert |Preprocessar(rows)| > 0;
    } else {
      assert kept == {};
    }
  }

  lemma {:induction false} PreprocessarCount(rows: seq<RawRow>)
    requires CoreReady(rows)
    ensures forall o :: o in Preprocessar(rows) ==> o.adm0.Some? && o.adm0.value != ""
    ensures |Preprocessar(rows)| == |set i | 0 <= i < |rows| && HasCountry(rows[i])|
  {
    if rows != [] {
      var p := rows[..|rows| - 1];
      assert CoreReady(p) by {
        forall i | 0 <= i < |p| && HasCountry(p[i]) ensures HasKey(p[i]) && p[i].decade.Some? {
          assert p[i] == rows[i];
        }
      }
      PreprocessarCount(p);
      var n := |rows| - 1;
      var before := set i | 0 <= i < |p| && HasCountry(p[i]);
      var after := set i | 0 <= i < |rows| && HasCountry(rows[i]);
      if HasCountry(rows[n]) {
        assert after == before + {n};
      } else {
        assert after == before;
      }
    }
  }

  // ---------------------------------------------------------------------------
  // The stand-alone class's `_preprocessar_dados`
  // ---------------------------------------------------------------------------

  /** The column maps of `_preprocessar_dados` on one kept row: a missing city
      becomes 'Desconhecido' and a missing decade 'ND'. */
  function ClassRow(r: RawRow): Row
    requires HasCountry(r)
  {
    Row(r.adm0, r.decade.GetOr("ND"), Coerce(r.tried), Coerce(r.deaths), r.lat, r.lon,
        None, LocationKey(r.city.GetOr("Desconhecido"), r.adm1, r.adm0.value))
  }

  /** `_preprocessar_dados`: drop the rows without a country, then map each
      kept row. */
  function PreprocessarDados(rows: seq<RawRow>): seq<Row>
  {
    if rows == [] then []
    else
      var last := rows[|rows| - 1];
      PreprocessarDados(rows[..|rows| - 1]) + (if HasCountry(last) then [ClassRow(last)] else [])
  }

  /** What one kept row becomes in the stand-alone class: missing city and
      decade filled with their defaults, counts parsed or 0, and the location
      key "city, adm1, adm0", without the adm1 part when adm1 is missing or
      empty. */
  lemma ClassRowSpec(r: RawRow)
    requires HasCountry(r)
    ensures var o := ClassRow(r);
      && o.adm0 == r.adm0
      && (r.decade.None? ==> o.decade == "ND") && (r.decade.Some? ==> o.decade == r.decade.value)
      && (r.tried.Some? ==> o.tried == r.tried.value) && (r.tried.None? ==> o.tried == 0)
      && (r.deaths.Some? ==> o.deaths == r.deaths.value) && (r.deaths.None? ==> o.deaths == 0)
      && o.lat == r.lat && o.lon == r.lon && o.desconhecido.None?
      && (r.adm1.Some? && r.adm1.value != "" ==>
            o.localizacao == r.city.GetOr("Desconhecido") + ", " + r.adm1.value + ", " + r.adm0.value)
      && (!(r.adm1.Some? && r.adm1.value != "") ==>
            o.localizacao == r.city.GetOr("Desconhecido") + ", " + r.adm0.value)
  {
  }

  /** Every output row of the stand-alone class's preprocessing has a country,
      and rows keep their order. */
  lemma {:induction false} PreprocessarDadosConcat(a: seq<RawRow>, b: seq<RawRow>)
    ensures PreprocessarDados(a + b) == PreprocessarDados(a) + PreprocessarDados(b)
    ensures forall o :: o in PreprocessarDados(a) ==> o.adm0.Some? && o.adm0.value != ""
  {
    if b == [] {
      assert a + b == a;
    } else {
      PreprocessarDadosConcat(a, b[..|b| - 1]);
      assert (a + b)[..|a + b| - 1] == a + b[..|b| - 1];
    }
    if a != [] {
      PreprocessarDadosConcat(a[..|a| - 1], []);
    }
  }
}
