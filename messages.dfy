/** The values that flow into and out of a resource rule: request bodies, response objects,
    the user-replaceable hooks, and the keys of a compiled path template. */
module Messages {
  import opened Wrappers
  import opened Values
  import opened Records

  /** A request body after parsing: an object, an array of objects, or none (`null`). */
  datatype Body = Object(fields: Record) | Array(elements: seq<Record>) | NoBody

  /** The `data` property of a response object. */
  datatype Payload =
    | Scalar(value: Value)
    | Item(record: Record)
    | Items(records: seq<Record>)
    | Envelope(collectionKey: string, items: seq<Record>, countKey: string, total: nat)

  /** A response object `{status, data, headers, contentType}`; an absent property is
      `None`, `[]` or undefined respectively. */
  datatype Response = Response(status: Option<int>, data: Payload, headers: Record, contentType: Value)

  /** The `{status, data}` object every standard operation builds. */
  function Reply(status: int, data: Payload): Response {
    Response(Some(status), data, [], Undefined)
  }

  /** The parts of the raw request the hooks may look at. */
  datatype Request = Request(verb: string, url: string)

  /** What `prefilter` returns: `{params, data}`. */
  datatype Prefiltered = Prefiltered(params: Record, data: Body)

  /** `handler(params, data, req)`; it may return undefined. */
  type Handler = (Record, Body, Request) -> Option<Response>

  /** `prefilter(params, data, req)`. */
  type Prefilter = (Record, Body, Request) -> Prefiltered

  /** `postfilter(params, response, req)`; it may return undefined. */
  type Postfilter = (Record, Response, Request) -> Option<Response>

  /** An entry of `paramFilters`: `{param, filter(item, value)}`. */
  datatype ParamFilter = ParamFilter(param: string, filter: (Record, Value) -> bool)

  /** A key of a compiled path template: a named parameter, or an unnamed group (`name` 0, 1, ...). */
  datatype PathKey = Named(name: string) | Positional(index: nat)

  /** What `exec` returns for a matching url: the matched text (`parsed[0]`) and the groups
      `parsed[1]`, `parsed[2]`, ...; a group that took no part in the match is undefined. */
  datatype Captures = Captures(whole: string, groups: seq<Option<string>>)

  /** A compiled path template, as `pathToRegexp` returns it: its keys (missing when the
      rule was given something without them) and its matcher, `None` for a url it rejects. */
  datatype Pattern = Pattern(keys: Option<seq<PathKey>>, exec: string -> Option<Captures>)

  /** The default `prefilter`: `{params: params, data: data}`. */
  function IdentityPrefilter(params: Record, data: Body, req: Request): Prefiltered {
    Prefiltered(params, data)
  }

  /** The default `postfilter`: the response as it is. */
  function IdentityPostfilter(params: Record, response: Response, req: Request): Option<Response> {
    Some(response)
  }
}
