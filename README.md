# tag-nominatim request shaping, in Dafny

A model of the core of the `tag-nominatim` Rust crate, a client for the
Nominatim geocoding API. The model covers two parts:

- the request each endpoint method (`status`, `search`, `reverse`,
  `lookup`) builds, as a pure function from the caller's arguments to an
  `Endpoint`. An `Endpoint` holds the path joined onto the base URL and the
  raw query string handed to `Url::set_query`;
- the `Client` configuration state, as a class with an identification, a
  base URL and a timeout. `Client::new` sets the defaults, and
  `set_base_url` is a fallible update that keeps the old base URL when the
  conversion fails.

The raw queries are read back by a simple reader: `Params` splits at `&`
and `ParamValue` takes the first `key=value` pair. This reader is the partner
the builders are proved against. It does no percent-decoding. The only
decoding modelled is `+` back to space. Each string operation also has its
inverse:

- `PlusForSpace` (`replace(' ', "+")`) is undone by `SpaceForPlus`, which
  turns `+` back into space;
- `Join` (`join(",")`) is undone by `Split` (`str::split`);
- `Decimal` (`Display` of a `u8`) is undone by `ParseDecimal`.

Files:

- `wrappers.dfy`: `Option` and `Result`.
- `strings.dfy`: the standard-library string operations the client uses, with
  their inverses.
- `query.dfy`: the four endpoint builders and the query reader.
- `client.dfy`: `Url`, `Duration`, `Request` and the `Client` class.

## Model

| member | source | states |
|---|---|---|
| Strings.PlusForSpace | src/lib.rs:94 | The search text encoding keeps the length. It leaves no space, and at each position it puts `+` where the text has a space and keeps every other character. |
| Strings.SpaceForPlusInvertsPlusForSpace | src/lib.rs:94 | Turning `+` back into space recovers the search text exactly, provided the text has no `+` of its own. |
| Strings.PlusForSpaceAddsNothing | src/lib.rs:94 | The encoding introduces no character other than `+`. |
| Strings.RemoveSpaces | src/lib.rs:141-142 | Deleting spaces from a coordinate leaves no space and never lengthens it. |
| Strings.RemoveSpacesKeepsOthers | src/lib.rs:141-142 | Every character other than a space occurs as often after deletion as before. |
| Strings.RemoveSpacesConcat | src/lib.rs:149-150 | Deleting spaces distributes over concatenation, so the kept characters stay in their order. |
| Strings.RemoveSpacesKeepsSpaceFree | src/lib.rs:141-142 | A coordinate without spaces is passed through unchanged. |
| Strings.RemoveSpacesIdempotent | src/lib.rs:149-150 | Deleting spaces twice is the same as deleting them once. |
| Strings.RemoveSpacesAddsNothing | src/lib.rs:141-142 | Deleting spaces introduces no character. |
| Strings.Join | src/lib.rs:191-195 | Joining no ids gives the empty text. The rest of its contract is completed by `JoinSnoc`, `SplitInvertsJoin` and `JoinInvertsSplit`. |
| Strings.JoinAddsOnlySeparators | src/lib.rs:191-195 | Joining ids with commas introduces no character other than the comma. |
| Strings.JoinSnoc | src/lib.rs:195 | Appending one part to a non-empty join appends a separator and that part. |
| Strings.IndexOf | src/lib.rs:195 | The first occurrence of the separator: it holds the separator, and nothing before it does. |
| Strings.IndexOfUnique | src/lib.rs:195 | That first occurrence is the only position with no separator before it. |
| Strings.Split | src/lib.rs:195 | Splitting yields at least one piece, and no piece holds the separator. |
| Strings.SplitAppend | src/lib.rs:195 | Splitting across one separator splits each side independently. |
| Strings.SplitInvertsJoin | src/lib.rs:191-195 | Splitting the comma-join of non-empty lists of comma-free ids gives the ids back in order. |
| Strings.JoinInvertsSplit | src/lib.rs:195 | Joining the pieces of a split gives the text back. |
| Strings.Decimal | src/lib.rs:140-143 | The zoom renders as one or more decimal digits with no leading zero. |
| Strings.DecimalHasOnlyDigits | src/lib.rs:140-143 | The rendered zoom holds no character other than a digit. |
| Strings.ParseDecimalInvertsDecimal | src/lib.rs:140-143 | Reading the rendered zoom as a decimal number gives the zoom back. |
| Strings.DecimalInjective | src/lib.rs:140-143 | Different zoom levels render differently. |
| Query.Search | src/lib.rs:91-95 | A search goes to the base URL itself, with no path joined. Its query starts with the fixed prefix `addressdetails=1&extratags=1&q=` and ends with the fixed suffix `&format=json`, and between them sits exactly as many characters as the text has. |
| Query.Reverse | src/lib.rs:135-153 | A reverse request goes to `reverse` under the base URL, and its query starts with the fixed prefix `addressdetails=1&extratags=1&format=json&lat=` whether or not a zoom is given. |
| Query.Lookup | src/lib.rs:191-201 | A lookup goes to `lookup` under the base URL. Its query starts with the fixed prefix `osm_ids=` and ends with the fixed suffix `&addressdetails=1&extratags=1&format=json`, with the comma-joined ids between them. |
| Query.ParamValue | src/lib.rs:92-95 | A value found for a key comes from a `key=value` pair of the query. |
| Query.ParamsOfJoin | src/lib.rs:92-95 | Pairs joined with `&`, none holding `&`, are exactly what the reader splits back out. |
| Query.ParamValueAt | src/lib.rs:92-95 | The reader finds the value of the first pair for a key when it passes over every earlier pair. |
| Query.ParamValueAbsent | src/lib.rs:146-151 | The reader finds nothing for a key that no pair carries. |
| Query.SearchQueryIsJoin | src/lib.rs:92-95 | The search query is `addressdetails=1`, `extratags=1`, `q=<encoded text>` and `format=json`, joined by `&`. |
| Query.SearchPairsHaveNoAmpersand | src/lib.rs:92-95 | A search text without `&` makes search pairs without `&`. |
| Query.SearchParams | src/lib.rs:92-95 | A search text without `&` makes the query exactly those four pairs, in that order. |
| Query.SearchPairsRead | src/lib.rs:92-95 | The `q` pair of the search pairs carries the encoded text. |
| Query.SearchTextReadBack | src/lib.rs:92-95 | Reading `q` from the raw query and turning `+` back into space gives the caller's text back, if it holds neither `&` nor `+`. |
| Query.ReverseZoomExtends | src/lib.rs:137-153 | With a zoom, the query is the no-zoom query followed by `&zoom=<decimal zoom>`, so the no-zoom query is a strict prefix of it. |
| Query.ReverseNoneIsJoin | src/lib.rs:147-151 | Without a zoom, the reverse query is its five pairs joined by `&`. |
| Query.ReverseQueryIsJoin | src/lib.rs:137-153 | The reverse query is its pairs joined by `&`, with `zoom=<z>` as a sixth pair exactly when a zoom is given. |
| Query.ReversePairsHaveNoAmpersand | src/lib.rs:137-153 | Coordinates without `&` make reverse pairs without `&`, zoom included. |
| Query.ReverseParams | src/lib.rs:137-153 | If the coordinates hold no `&`, the query is `addressdetails=1`, `extratags=1`, `format=json`, `lat=<lat without spaces>`, `lon=<lon without spaces>`, plus `zoom=<z>` exactly when a zoom is given. |
| Query.ReversePairsRead | src/lib.rs:137-153 | Read by key, the reverse pairs give the space-free coordinates. They give a zoom value exactly when a zoom is given. |
| Query.ReverseReadBack | src/lib.rs:137-153 | Reading the raw reverse query gives both coordinates without spaces. It reads the zoom level as the given number when there is one, and finds no zoom otherwise. |
| Query.LookupQueryIsJoin | src/lib.rs:197-201 | The lookup query is `osm_ids=<ids joined by commas>`, `addressdetails=1`, `extratags=1` and `format=json`, joined by `&`. |
| Query.LookupPairsHaveNoAmpersand | src/lib.rs:191-201 | If no id holds `&`, no lookup pair holds one. |
| Query.LookupParams | src/lib.rs:191-201 | If no id holds `&`, the lookup query is exactly those four pairs, in that order. |
| Query.LookupReadBack | src/lib.rs:191-201 | Reading `osm_ids` from the raw query gives the comma-joined ids. Splitting that value at commas gives back the non-empty list of comma-free ids in order, and an empty list gives an empty value. |
| Query.STATUS | src/lib.rs:58-59 | The status endpoint: path `status.php` and the constant query `format=json`. Its read-back is stated by `StatusParams`. |
| Query.StatusParams | src/lib.rs:58-59 | A status request goes to `status.php`, and its query is the single pair `format=json`. |
| Nominatim.Client.constructor | src/lib.rs:25-37 | A new client keeps the given identification. Its base URL is `https://nominatim.openstreetmap.org/` and its timeout is 10 seconds. |
| Nominatim.Client.SetBaseUrl | src/lib.rs:40-44 | A failed conversion returns its error and keeps the base URL. A successful one returns `Ok(())` and sets the base URL to the converted value. The timeout and identification never change. |
| Nominatim.Client.Status | src/lib.rs:57-59 | The status request uses the client's base URL, identification and timeout, with the status endpoint. |
| Nominatim.Client.Search | src/lib.rs:90-95 | The search request uses the client's base URL unjoined, with its identification, timeout and the search query. |
| Nominatim.Client.Reverse | src/lib.rs:129-153 | The reverse request uses the client's base URL, identification and timeout, with the reverse endpoint. |
| Nominatim.Client.Lookup | src/lib.rs:187-201 | The lookup request uses the client's base URL, identification and timeout, with the lookup endpoint. |

## Left out

- Sending the request, awaiting the response and applying the timeout through `reqwest` (src/lib.rs:68-75 and its copies in each endpoint). This is network I/O. The model stops at the `Request` value an endpoint hands over.
- JSON deserialisation of `Status`, `Place`, `Address` and `ExtraTags`. It is generated by serde derive macros, and `importance` is a floating-point number.
- URL parsing, the resolution rules of `Url::join` and the percent-encoding `Url::set_query` applies. `Url` is opaque here and the join is recorded as a `Target`. The query is the raw string passed to `set_query`, so the `.unwrap()` on `join` is not modelled.
- The conversion behind `set_base_url`'s `TryInto<Url>` is a caller-supplied function, because it belongs to the `url` crate.
- Building the request headers from the identification method. The `ident` module is not part of this model, so the identification is a type parameter `I` that is stored and passed through.
- Building the `reqwest::Client` inside `Client::new`. It is a foreign call whose only failure is a panic on `unwrap`.
- `Into<String>` on the endpoint arguments. It is an identity on the text and is taken as already applied.
- Query.SearchParams, Query.SearchTextReadBack, Query.ReverseParams, Query.ReverseReadBack, Query.LookupParams and Query.LookupReadBack assume no `&` in the values. The source escapes nothing, so a value with `&` really is read back as several pairs.
- Query.SearchTextReadBack, Query.ReverseReadBack and Query.LookupReadBack hold for the raw query only. `Url::set_query` does not escape `%`, and a real server percent-decodes, so a value holding a `%XX` sequence reaches the server changed (`100%2B` is read as `100+`).
- Query.SearchTextReadBack assumes the text has no `+`, because a literal `+` would decode to a space.
- Query.LookupReadBack recovers the ids only when there is at least one and no id holds a comma. `str::split` on an empty value yields one empty piece, not an empty list.
