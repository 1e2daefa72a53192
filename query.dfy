/**
 * The request shaping of the Nominatim client: for each of the four
 * endpoints, the path it resolves against the base URL and the raw query
 * string it hands to `Url::set_query`.
 *
 * Each builder is read back by Params and ParamValue: split the raw query
 * at `&`, then take the first `key=value` pair with the given key. This
 * reader does no percent-decoding; the only decoding modelled is `+` to
 * space (SpaceForPlus), so the read-backs are about the raw query string.
 */
module Query {
  import opened Wrappers
  import opened Strings

  /** Rust's `u8`. */
  type u8 = n: nat | n < 256

  /** Where a request goes: the base URL itself, or a path joined onto it. */
  datatype Target = Root | Path(path: string)

  /** What one endpoint call contributes to its URL. */
  datatype Endpoint = Endpoint(target: Target, query: string)

  /** `status`: `status.php?format=json`. */
  const STATUS: Endpoint := Endpoint(Path("status.php"), "format=json")

  /** `search`: the base URL itself, with the free text, spaces as `+`, as the `q` pair. */
  function Search(q: string): (e: Endpoint)
    ensures e.target == Root
    ensures |e.query| == 31 + |q| + 12
    ensures "addressdetails=1&extratags=1&q=" <= e.query
    ensures e.query[|e.query| - 12..] == "&format=json"
  {
    Endpoint(Root, "addressdetails=1&extratags=1&q=" + PlusForSpace(q) + "&format=json")
  }

  /** `reverse`: latitude and longitude without spaces, and `zoom` only when one is given. */
  function Reverse(lat: string, lon: string, zoom: Option<u8>): (e: Endpoint)
    ensures e.target == Path("reverse")
    ensures "addressdetails=1&extratags=1&format=json&lat=" <= e.query
  {
    match zoom
    case Some(z) =>
      Endpoint(Path("reverse"),
               "addressdetails=1&extratags=1&format=json&lat=" + RemoveSpaces(lat)
               + "&lon=" + RemoveSpaces(lon) + "&zoom=" + Decimal(z))
    case None =>
      Endpoint(Path("reverse"),
               "addressdetails=1&extratags=1&format=json&lat=" + RemoveSpaces(lat)
               + "&lon=" + RemoveSpaces(lon))
  }

  /** `lookup`: the OSM ids joined with commas as the `osm_ids` pair. */
  function Lookup(ids: seq<string>): (e: Endpoint)
    ensures e.target == Path("lookup")
    ensures |e.query| == 8 + |Join(ids, ',')| + 41
    ensures "osm_ids=" <= e.query
    ensures e.query[|e.query| - 41..] == "&addressdetails=1&extratags=1&format=json"
  {
    Endpoint(Path("lookup"), "osm_ids=" + Join(ids, ',') + "&addressdetails=1&extratags=1&format=json")
  }

  /** The `key=value` pairs of a query, in order. */
  function Params(query: string): seq<string> {
    Split(query, '&')
  }

  /** The value of the first pair named `key`, if there is one. */
  function ParamValue(pairs: seq<string>, key: string): (v: Option<string>)
    ensures v.Some? ==> exists i :: 0 <= i < |pairs| && pairs[i] == key + "=" + v.value
  {
    if pairs == [] then None
    else if |key| + 1 <= |pairs[0]| && pairs[0][..|key| + 1] == key + "=" then
      assert pairs[0] == key + "=" + pairs[0][|key| + 1..];
      Some(pairs[0][|key| + 1..])
    else ParamValue(pairs[1..], key)
  }

  /** The zoom level a query asks for: its `zoom` value read as a decimal number. */
  function ZoomOf(query: string): Option<nat> {
    match ParamValue(Params(query), "zoom")
    case None => None
    case Some(v) => if forall i :: 0 <= i < |v| ==> IsDigit(v[i]) then Some(ParseDecimal(v)) else None
  }

  /** The pairs joined into a query are what Params reads back, if none holds `&`. */
  lemma ParamsOfJoin(query: string, pairs: seq<string>)
    requires |pairs| > 0
    requires forall i :: 0 <= i < |pairs| ==> '&' !in pairs[i]
    requires query == Join(pairs, '&')
    ensures Params(query) == pairs
  {
    SplitInvertsJoin(pairs, '&');
  }

  /** `pair` is not a `key=…` pair, so ParamValue passes over it. */
  predicate Mismatch(pair: string, key: string) {
    !(|key| + 1 <= |pair| && pair[..|key| + 1] == key + "=")
  }

  /** A pair that differs from the key at some position of the key is passed over. */
  lemma MismatchAt(pair: string, key: string, m: nat)
    requires m < |key| && m < |pair| && pair[m] != key[m]
    ensures Mismatch(pair, key)
  {
    if |key| + 1 <= |pair| {
      assert pair[..|key| + 1][m] != (key + "=")[m];
    }
  }

  /** ParamValue finds the pair at position `k` when it passes over every pair before it. */
  lemma {:induction false} ParamValueAt(pairs: seq<string>, key: string, k: nat, value: string)
    requires k < |pairs| && pairs[k] == key + "=" + value
    requires forall j :: 0 <= j < k ==> Mismatch(pairs[j], key)
    ensures ParamValue(pairs, key) == Some(value)
  {
    if k == 0 {
      assert pairs[0][..|key| + 1] == key + "=";
    } else {
      ParamValueAt(pairs[1..], key, k - 1, value);
    }
  }

  /** ParamValue finds nothing when it passes over every pair. */
  lemma {:induction false} ParamValueAbsent(pairs: seq<string>, key: string)
    requires forall j :: 0 <= j < |pairs| ==> Mismatch(pairs[j], key)
    ensures ParamValue(pairs, key) == None
  {
    if pairs != [] {
      ParamValueAbsent(pairs[1..], key);
    }
  }

  /** The `key=` prefixes the builders write, spelled as key and `=`. */
  lemma KeyLiterals()
    ensures "osm_ids=" == "osm_ids" + "="
    ensures "lat=" == "lat" + "="
    ensures "lon=" == "lon" + "="
    ensures "zoom=" == "zoom" + "="
    ensures "q=" == "q" + "="
  {
  }

  // Shapes of the joins the builders write out, on arbitrary parts.

  lemma JoinShape4(a: string, b: string, c: string, d: string)
    ensures Join([a, b, c, d], '&') == a + "&" + b + "&" + c + "&" + d
  {
    JoinFront(c, [d], '&');
    assert [b, c, d] == [b] + [c, d];
    JoinFront(b, [c, d], '&');
    assert [a, b, c, d] == [a] + [b, c, d];
    JoinFront(a, [b, c, d], '&');
  }

  lemma SearchShape(a: string, b: string, key: string, text: string, d: string)
    ensures Join([a, b, key + text, d], '&') == a + "&" + b + "&" + key + text + ("&" + d)
  {
    JoinShape4(a, b, key + text, d);
  }

  lemma LookupShape(key: string, ids: string, a: string, b: string, d: string)
    ensures Join([key + ids, a, b, d], '&') == key + ids + ("&" + a + "&" + b + "&" + d)
  {
    JoinShape4(key + ids, a, b, d);
  }

  lemma ReverseShape(a: string, b: string, c: string, latKey: string, lat: string,
                     lonKey: string, lon: string)
    ensures Join([a, b, c, latKey + lat, lonKey + lon], '&')
         == a + "&" + b + "&" + c + "&" + latKey + lat + ("&" + lonKey) + lon
  {
    JoinShape4(b, c, latKey + lat, lonKey + lon);
    JoinFront(a, [b, c, latKey + lat, lonKey + lon], '&');
    assert [a, b, c, latKey + lat, lonKey + lon] == [a] + [b, c, latKey + lat, lonKey + lon];
  }

  // search

  /** The pairs of the search query. */
  function SearchPairs(q: string): seq<string> {
    ["addressdetails=1", "extratags=1", "q=" + PlusForSpace(q), "format=json"]
  }

  /** The search query is its pairs joined by `&`. */
  lemma SearchQueryIsJoin(q: string)
    ensures Search(q).query == Join(SearchPairs(q), '&')
  {
    assert "addressdetails=1&extratags=1&q=" == "addressdetails=1" + "&" + "extratags=1" + "&" + "q=";
    assert "&format=json" == "&" + "format=json";
    SearchShape("addressdetails=1", "extratags=1", "q=", PlusForSpace(q), "format=json");
  }

  /** A text without `&` makes search pairs without `&`. */
  lemma SearchPairsHaveNoAmpersand(q: string)
    requires '&' !in q
    ensures forall i :: 0 <= i < |SearchPairs(q)| ==> '&' !in SearchPairs(q)[i]
  {
    PlusForSpaceAddsNothing(q, '&');
    assert '&' !in "q=";
  }

  /**
   * The search query is the four pairs `addressdetails=1`, `extratags=1`,
   * `q=<text with + for space>` and `format=json`, provided the text holds
   * no `&` (nothing in the client escapes one).
   */
  lemma SearchParams(q: string)
    requires '&' !in q
    ensures Params(Search(q).query)
         == ["addressdetails=1", "extratags=1", "q=" + PlusForSpace(q), "format=json"]
  {
    SearchPairsHaveNoAmpersand(q);
    SearchQueryIsJoin(q);
    ParamsOfJoin(Search(q).query, SearchPairs(q));
  }

  /** The `q` pair of the search pairs carries the encoded text. */
  lemma SearchPairsRead(q: string)
    ensures ParamValue(SearchPairs(q), "q") == Some(PlusForSpace(q))
  {
    var pairs := SearchPairs(q);
    KeyLiterals();
    MismatchAt(pairs[0], "q", 0);
    MismatchAt(pairs[1], "q", 0);
    ParamValueAt(pairs, "q", 2, PlusForSpace(q));
  }

  /**
   * Reading `q` from the raw query and turning `+` back into space gives the
   * caller's text back, provided the text holds neither `&` nor `+`.
   */
  lemma SearchTextReadBack(q: string)
    requires '&' !in q && '+' !in q
    ensures ParamValue(Params(Search(q).query), "q") == Some(PlusForSpace(q))
    ensures SpaceForPlus(PlusForSpace(q)) == q
  {
    SearchParams(q);
    SearchPairsRead(q);
    SpaceForPlusInvertsPlusForSpace(q);
  }

  // reverse

  /** The reverse query with a zoom is the one without, followed by `&zoom=<z>`. */
  lemma ReverseZoomExtends(lat: string, lon: string, z: u8)
    ensures Reverse(lat, lon, Some(z)).query
         == Reverse(lat, lon, None).query + "&zoom=" + Decimal(z)
    ensures |Reverse(lat, lon, None).query| < |Reverse(lat, lon, Some(z)).query|
  {
  }

  /** The pairs of the reverse query: `zoom` last, and only when a zoom is given. */
  function ReversePairs(lat: string, lon: string, zoom: Option<u8>): seq<string> {
    ["addressdetails=1", "extratags=1", "format=json",
     "lat=" + RemoveSpaces(lat), "lon=" + RemoveSpaces(lon)]
    + (if zoom.Some? then ["zoom=" + Decimal(zoom.value)] else [])
  }

  /** The constant parts of the reverse format string, cut at `&`. */
  lemma ReverseLiterals()
    ensures "addressdetails=1&extratags=1&format=json&lat="
         == "addressdetails=1" + "&" + "extratags=1" + "&" + "format=json" + "&" + "lat="
    ensures "&lon=" == "&" + "lon="
  {
  }

  /** Without a zoom, the reverse query is its five pairs joined by `&`. */
  lemma ReverseNoneIsJoin(lat: string, lon: string)
    ensures Reverse(lat, lon, None).query == Join(ReversePairs(lat, lon, None), '&')
  {
    assert ReversePairs(lat, lon, None)
        == ["addressdetails=1", "extratags=1", "format=json",
            "lat=" + RemoveSpaces(lat), "lon=" + RemoveSpaces(lon)];
    ReverseLiterals();
    ReverseShape("addressdetails=1", "extratags=1", "format=json",
                 "lat=", RemoveSpaces(lat), "lon=", RemoveSpaces(lon));
  }

  /** The reverse query is its pairs joined by `&`. */
  lemma ReverseQueryIsJoin(lat: string, lon: string, zoom: Option<u8>)
    ensures Reverse(lat, lon, zoom).query == Join(ReversePairs(lat, lon, zoom), '&')
  {
    ReverseNoneIsJoin(lat, lon);
    if zoom.Some? {
      var d := Decimal(zoom.value);
      var none := Reverse(lat, lon, None).query;
      ReverseZoomExtends(lat, lon, zoom.value);
      assert "&zoom=" == "&" + "zoom=";
      JoinSnoc(ReversePairs(lat, lon, None), "zoom=" + d, '&');
      assert ReversePairs(lat, lon, zoom) == ReversePairs(lat, lon, None) + ["zoom=" + d];
    }
  }

  /** Coordinates without `&` make reverse pairs without `&`. */
  lemma ReversePairsHaveNoAmpersand(lat: string, lon: string, zoom: Option<u8>)
    requires '&' !in lat && '&' !in lon
    ensures forall i :: 0 <= i < |ReversePairs(lat, lon, zoom)| ==> '&' !in ReversePairs(lat, lon, zoom)[i]
  {
    RemoveSpacesAddsNothing(lat, '&');
    RemoveSpacesAddsNothing(lon, '&');
    if zoom.Some? {
      DecimalHasOnlyDigits(zoom.value, '&');
    }
  }

  /**
   * The reverse query is the pairs `addressdetails=1`, `extratags=1`,
   * `format=json`, `lat=…`, `lon=…`, and then `zoom=<z>` exactly when a zoom
   * is given, provided latitude and longitude hold no `&`.
   */
  lemma ReverseParams(lat: string, lon: string, zoom: Option<u8>)
    requires '&' !in lat && '&' !in lon
    ensures Params(Reverse(lat, lon, zoom).query)
         == ["addressdetails=1", "extratags=1", "format=json",
             "lat=" + RemoveSpaces(lat), "lon=" + RemoveSpaces(lon)]
            + (if zoom.Some? then ["zoom=" + Decimal(zoom.value)] else [])
  {
    ReversePairsHaveNoAmpersand(lat, lon, zoom);
    ReverseQueryIsJoin(lat, lon, zoom);
    ParamsOfJoin(Reverse(lat, lon, zoom).query, ReversePairs(lat, lon, zoom));
  }

  /** Reading the reverse pairs by key. */
  lemma ReversePairsRead(lat: string, lon: string, zoom: Option<u8>)
    ensures ParamValue(ReversePairs(lat, lon, zoom), "lat") == Some(RemoveSpaces(lat))
    ensures ParamValue(ReversePairs(lat, lon, zoom), "lon") == Some(RemoveSpaces(lon))
    ensures ParamValue(ReversePairs(lat, lon, zoom), "zoom")
         == if zoom.Some? then Some(Decimal(zoom.value)) else None
  {
    var pairs := ReversePairs(lat, lon, zoom);
    KeyLiterals();
    forall j | 0 <= j < 3 ensures Mismatch(pairs[j], "lat") && Mismatch(pairs[j], "lon") {
      MismatchAt(pairs[j], "lat", 0);
      MismatchAt(pairs[j], "lon", 0);
    }
    MismatchAt(pairs[3], "lon", 1);
    ParamValueAt(pairs, "lat", 3, RemoveSpaces(lat));
    ParamValueAt(pairs, "lon", 4, RemoveSpaces(lon));
    forall j | 0 <= j < 5 ensures Mismatch(pairs[j], "zoom") {
      MismatchAt(pairs[j], "zoom", 0);
    }
    if zoom.Some? {
      ParamValueAt(pairs, "zoom", 5, Decimal(zoom.value));
    } else {
      ParamValueAbsent(pairs, "zoom");
    }
  }

  /**
   * Reading the reverse query back gives latitude and longitude without their
   * spaces, and the zoom level exactly when one was given.
   */
  lemma ReverseReadBack(lat: string, lon: string, zoom: Option<u8>)
    requires '&' !in lat && '&' !in lon
    ensures ParamValue(Params(Reverse(lat, lon, zoom).query), "lat") == Some(RemoveSpaces(lat))
    ensures ParamValue(Params(Reverse(lat, lon, zoom).query), "lon") == Some(RemoveSpaces(lon))
    ensures ZoomOf(Reverse(lat, lon, zoom).query) == if zoom.Some? then Some(zoom.value as nat) else None
  {
    ReverseParams(lat, lon, zoom);
    ReversePairsRead(lat, lon, zoom);
    if zoom.Some? {
      ParseDecimalInvertsDecimal(zoom.value);
    }
  }

  // lookup

  /** The pairs of the lookup query. */
  function LookupPairs(ids: seq<string>): seq<string> {
    ["osm_ids=" + Join(ids, ','), "addressdetails=1", "extratags=1", "format=json"]
  }

  /** The constant part of the lookup format string, cut at `&`, in two steps. */
  lemma LookupLiteralsTail()
    ensures "&extratags=1&format=json" == "&" + "extratags=1" + "&" + "format=json"
  {
  }

  lemma LookupLiteralsHead()
    ensures "&addressdetails=1&extratags=1&format=json"
         == "&" + "addressdetails=1" + "&extratags=1&format=json"
  {
  }

  /** The lookup query is its pairs joined by `&`. */
  lemma LookupQueryIsJoin(ids: seq<string>)
    ensures Lookup(ids).query == Join(LookupPairs(ids), '&')
  {
    LookupLiteralsTail();
    LookupLiteralsHead();
    LookupShape("osm_ids=", Join(ids, ','), "addressdetails=1", "extratags=1", "format=json");
  }

  /**
   * The lookup query is the pairs `osm_ids=<ids joined by commas>`,
   * `addressdetails=1`, `extratags=1` and `format=json`, provided no id holds
   * an `&`.
   */
  lemma LookupParams(ids: seq<string>)
    requires forall i :: 0 <= i < |ids| ==> '&' !in ids[i]
    ensures Params(Lookup(ids).query)
         == ["osm_ids=" + Join(ids, ','), "addressdetails=1", "extratags=1", "format=json"]
  {
    LookupPairsHaveNoAmpersand(ids);
    LookupQueryIsJoin(ids);
    ParamsOfJoin(Lookup(ids).query, LookupPairs(ids));
  }

  /** Ids without `&` make pairs without `&`. */
  lemma LookupPairsHaveNoAmpersand(ids: seq<string>)
    requires forall i :: 0 <= i < |ids| ==> '&' !in ids[i]
    ensures forall i :: 0 <= i < |LookupPairs(ids)| ==> '&' !in LookupPairs(ids)[i]
  {
    JoinAddsOnlySeparators(ids, ',', '&');
    assert '&' !in "osm_ids=";
  }

  /**
   * Reading `osm_ids` back and splitting it at commas gives the ids in their
   * order, provided there is at least one and none holds `,` or `&`; no ids
   * give an empty value.
   */
  lemma LookupReadBack(ids: seq<string>)
    requires forall i :: 0 <= i < |ids| ==> '&' !in ids[i] && ',' !in ids[i]
    ensures ParamValue(Params(Lookup(ids).query), "osm_ids") == Some(Join(ids, ','))
    ensures ids == [] ==> Join(ids, ',') == []
    ensures ids != [] ==> Split(Join(ids, ','), ',') == ids
  {
    LookupParams(ids);
    KeyLiterals();
    ParamValueAt(LookupPairs(ids), "osm_ids", 0, Join(ids, ','));
    if ids != [] {
      SplitInvertsJoin(ids, ',');
    }
  }

  // status

  /** The status query is the single pair `format=json`. */
  lemma StatusParams()
    ensures STATUS.target == Path("status.php")
    ensures Params(STATUS.query) == ["format=json"]
  {
    ParamsOfJoin(STATUS.query, ["format=json"]);
  }
}
