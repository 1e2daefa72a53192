/**
 * The `Client` of the Nominatim crate: its configuration state (who it says
 * it is, the base URL every request resolves against, the request timeout),
 * the one update of that state (`set_base_url`), and the request each
 * endpoint method builds from it before handing it to the HTTP layer.
 */
module Nominatim {
  import opened Wrappers
  import Query

  /** A parsed URL, opaque here: only its serialisation is observed. */
  datatype Url = Url(serialization: string)

  /** The public instance the client talks to unless told otherwise. */
  const DEFAULT_BASE_URL: Url := Url("https://nominatim.openstreetmap.org/")

  type SubsecNanos = n: nat | n < 1_000_000_000

  /** `std::time::Duration`: whole seconds and the nanoseconds beyond them. */
  datatype Duration = Duration(secs: nat, nanos: SubsecNanos)

  /** The timeout a new client applies to each request: `Duration::from_secs(10)`. */
  const DEFAULT_TIMEOUT: Duration := Duration(10, 0)

  /**
   * What an endpoint method hands to the HTTP layer: the base URL with the
   * endpoint's target and query, the identification that becomes the request
   * header, and the timeout of the request.
   */
  datatype Request<I> = Request(base: Url, endpoint: Query.Endpoint, ident: I, timeout: Duration)

  /**
   * The client. `I` stands for the identification method, whose header
   * rendering is not part of this model; the client never changes it.
   */
  class Client<I> {
    const ident: I
    var baseUrl: Url
    var timeout: Duration

    /** `Client::new`: the given identification, the public instance, ten seconds. */
    constructor (ident: I)
      ensures this.ident == ident
      ensures baseUrl == DEFAULT_BASE_URL
      ensures timeout == DEFAULT_TIMEOUT && timeout.secs == 10 && timeout.nanos == 0
    {
      this.ident := ident;
      baseUrl := DEFAULT_BASE_URL;
      timeout := DEFAULT_TIMEOUT;
    }

    /**
     * `set_base_url`: converts `url` with its `TryInto<Url>` conversion
     * `tryInto`. On failure the conversion's error is returned and the base
     * URL is kept; on success the converted URL replaces it. The timeout and
     * the identification are never touched.
     */
    method SetBaseUrl<U, E>(url: U, tryInto: U -> Result<Url, E>) returns (r: Result<(), E>)
      modifies this
      ensures tryInto(url).Err? ==> r == Err(tryInto(url).error) && baseUrl == old(baseUrl)
      ensures tryInto(url).Ok? ==> r == Ok(()) && baseUrl == tryInto(url).value
      ensures r.Ok? <==> tryInto(url).Ok?
      ensures timeout == old(timeout)
    {
      var converted := tryInto(url);
      if converted.Err? {
        return Err(converted.error);
      }
      baseUrl := converted.value;
      return Ok(());
    }

    /** The request `status` sends: `status.php?format=json` under the base URL. */
    method Status() returns (req: Request<I>)
      ensures req.base == baseUrl && req.ident == ident && req.timeout == timeout
      ensures req.endpoint == Query.STATUS
      ensures req.endpoint.target == Query.Path("status.php")
    {
      req := Request(baseUrl, Query.STATUS, ident, timeout);
    }

    /** The request `search` sends: the base URL itself, with the search query. */
    method Search(q: string) returns (req: Request<I>)
      ensures req.base == baseUrl && req.ident == ident && req.timeout == timeout
      ensures req.endpoint == Query.Search(q)
      ensures req.endpoint.target == Query.Root
    {
      req := Request(baseUrl, Query.Search(q), ident, timeout);
    }

    /** The request `reverse` sends: `reverse` under the base URL, with the reverse query. */
    method Reverse(lat: string, lon: string, zoom: Option<Query.u8>) returns (req: Request<I>)
      ensures req.base == baseUrl && req.ident == ident && req.timeout == timeout
      ensures req.endpoint == Query.Reverse(lat, lon, zoom)
      ensures req.endpoint.target == Query.Path("reverse")
    {
      req := Request(baseUrl, Query.Reverse(lat, lon, zoom), ident, timeout);
    }

    /** The request `lookup` sends: `lookup` under the base URL, with the ids as `osm_ids`. */
    method Lookup(ids: seq<string>) returns (req: Request<I>)
      ensures req.base == baseUrl && req.ident == ident && req.timeout == timeout
      ensures req.endpoint == Query.Lookup(ids)
      ensures req.endpoint.target == Query.Path("lookup")
    {
      req := Request(baseUrl, Query.Lookup(ids), ident, timeout);
    }
  }
}
