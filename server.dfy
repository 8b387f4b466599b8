/** The middleware object of index.js: the list of rules, `addResource`, the `/_reset`
    endpoint, and the chain `getMiddleware` builds. Each rule's middleware matches the url
    against the rule's compiled template, reads the parameters off the url, routes the
    request method to one of the rule's nine operations, and writes the response it gets
    back. The template compiler (`pathToRegexp`), the query-string parser (`url.parse`) and
    the body reader (`anyBody`) are outside the model and arrive as parameters. */
module Server {
  import opened Wrappers
  import opened Values
  import opened Records
  import opened Messages
  import opened Slots
  import opened Operations
  import opened Rule

  /** The template suffix `addResource` appends to every path: an optional `:id` segment
      and an optional unnamed group that swallows a query string. */
  const IdSuffix := "/:id?(\\?.*)?"

  const ResetUrl := "/_reset"

  /** What reaches the client: the status code, the headers set, and the body, if any. */
  datatype Written = Written(status: int, headers: Record, body: Option<Payload>)

  /** What one middleware of the chain does with a request: answer it, pass it on with
      `next()`, or take a path this model does not cover (see README). */
  datatype Step = Responded(written: Written) | Next | Unmodelled

  // ---------------------------------------------------------------------------------------
  // getId

  /** Position of the first path key named `id`, or the number of keys when none is. */
  function IdKeyIndex(keys: seq<PathKey>): (i: nat)
    ensures i <= |keys|
    ensures i < |keys| ==> keys[i] == Named("id")
    ensures forall j :: 0 <= j < i ==> keys[j] != Named("id")
  {
    if keys == [] then 0 else if keys[0] == Named("id") then 0 else 1 + IdKeyIndex(keys[1..])
  }

  /** `parsed[i + 1]`: the capture of the `i`-th key, undefined past the end. */
  function CaptureAt(m: Captures, i: nat): Option<string> {
    if i < |m.groups| then m.groups[i] else None
  }

  /** The id `getId` finds: the capture of the `id` key, unless it is missing or empty, or
      is a query string that the optional `:id` segment left to the last group. */
  function IdOf(m: Captures, keys: seq<PathKey>): Option<string> {
    var capture := CaptureAt(m, IdKeyIndex(keys));
    if capture.None? || capture.value == "" || capture.value[0] == '?' then None else capture
  }

  /** `getId(parsed, pathKeys)`: the loop finds the index of the `id` key, then the capture
      after it is checked. */
  method GetId(parsed: Captures, pathKeys: seq<PathKey>) returns (id: Option<string>)
    ensures id == IdOf(parsed, pathKeys)
  {
    var idIndex := 0;
    while idIndex < |pathKeys|
      invariant 0 <= idIndex <= |pathKeys|
      invariant forall j :: 0 <= j < idIndex ==> pathKeys[j] != Named("id")
    {
      if pathKeys[idIndex] == Named("id") {
        break;
      }
      idIndex := idIndex + 1;
    }
    assert idIndex == IdKeyIndex(pathKeys);
    var capture := if idIndex < |parsed.groups| then parsed.groups[idIndex] else None;
    if capture.None? || capture.value == "" {
      return None;
    }
    if capture.value[0] == '?' {
      return None;
    }
    return capture;
  }

  /** On a template built by `addResource` (the caller's keys, then `id`, then the query
      group), the id is the capture of the segment after the caller's path. */
  lemma IdOfResourcePath(m: Captures, declared: seq<PathKey>, n: nat)
    requires forall j :: 0 <= j < |declared| ==> declared[j] != Named("id")
    ensures IdKeyIndex(declared + [Named("id"), Positional(n)]) == |declared|
    ensures var c := CaptureAt(m, |declared|);
      IdOf(m, declared + [Named("id"), Positional(n)]) == (if c.Some? && c.value != "" && c.value[0] != '?' then c else None)
  {
    var keys := declared + [Named("id"), Positional(n)];
    assert keys[|declared|] == Named("id");
    assert forall j :: 0 <= j < |declared| ==> keys[j] == declared[j];
  }

  // ---------------------------------------------------------------------------------------
  // parseParams

  /** The property name of a key: its name, or the decimal form of an unnamed group's number. */
  function KeyName(k: PathKey): string {
    match k
    case Named(n) => n
    case Positional(i) => NatToString(i)
  }

  /** `key.name !== 0 && key.name !== 'id'`: the keys the `reduce` copies. */
  predicate Mapped(k: PathKey) {
    k != Positional(0) && k != Named("id")
  }

  /** `parsed[i + 1]` as a property value. */
  function CaptureValue(m: Captures, i: nat): Value {
    match CaptureAt(m, i)
    case Some(s) => Str(s)
    case None => Undefined
  }

  /** The `reduce` over the path keys: every copied key gets its capture, and a later key of
      the same name overwrites an earlier one. */
  function MapCaptures(m: Captures, keys: seq<PathKey>): Record {
    if keys == [] then []
    else
      var r := MapCaptures(m, keys[..|keys| - 1]);
      var k := keys[|keys| - 1];
      if Mapped(k) then Put(r, KeyName(k), CaptureValue(m, |keys| - 1)) else r
  }

  /** A name that no copied key carries stays undefined. */
  lemma {:induction false} MapCapturesUnset(m: Captures, keys: seq<PathKey>, k: string)
    requires forall i :: 0 <= i < |keys| && Mapped(keys[i]) ==> KeyName(keys[i]) != k
    ensures Get(MapCaptures(m, keys), k) == Undefined
  {
    if keys != [] {
      var pre := keys[..|keys| - 1];
      assert forall j :: 0 <= j < |pre| ==> pre[j] == keys[j];
      MapCapturesUnset(m, pre, k);
    }
  }

  /** The last copied key of a name gives that name its capture. */
  lemma {:induction false} MapCapturesLast(m: Captures, keys: seq<PathKey>, i: nat)
    requires i < |keys| && Mapped(keys[i])
    requires forall j :: i < j < |keys| && Mapped(keys[j]) ==> KeyName(keys[j]) != KeyName(keys[i])
    ensures Get(MapCaptures(m, keys), KeyName(keys[i])) == CaptureValue(m, i)
  {
    if i < |keys| - 1 {
      var pre := keys[..|keys| - 1];
      assert forall j :: 0 <= j < |pre| ==> pre[j] == keys[j];
      MapCapturesLast(m, pre, i);
    }
  }

  /** `{id: getId(...)}` when an id was found, `{}` otherwise. */
  function IdFields(id: Option<string>): Record {
    if id.Some? then [Field("id", Str(id.value))] else []
  }

  /** `parseParams`: the copied captures, then the id, then the query of the matched text,
      each later source overwriting the earlier ones where it is defined. */
  function Params(m: Captures, keys: seq<PathKey>, query: Record): Record {
    Extend(Extend(MapCaptures(m, keys), IdFields(IdOf(m, keys))), query)
  }

  /** No key the `reduce` copies is called `id`: unnamed groups are named by digits. */
  lemma NoMappedId(keys: seq<PathKey>)
    ensures forall i :: 0 <= i < |keys| && Mapped(keys[i]) ==> KeyName(keys[i]) != "id"
  {
    forall i | 0 <= i < |keys| && Mapped(keys[i]) ensures KeyName(keys[i]) != "id" {
      if keys[i].Positional? {
        assert IsDigit(KeyName(keys[i])[0]);
      }
    }
  }

  /** Where each parameter comes from: a defined query value wins; otherwise `id` is the id
      `getId` found and every other name is the capture of its key. */
  lemma ParamsSources(m: Captures, keys: seq<PathKey>, query: Record, k: string)
    ensures Get(query, k) != Undefined ==> Get(Params(m, keys, query), k) == Get(query, k)
    ensures Get(query, "id") == Undefined ==>
      Get(Params(m, keys, query), "id") == if IdOf(m, keys).Some? then Str(IdOf(m, keys).value) else Undefined
    ensures k != "id" && Get(query, k) == Undefined ==> Get(Params(m, keys, query), k) == Get(MapCaptures(m, keys), k)
  {
    NoMappedId(keys);
    MapCapturesUnset(m, keys, "id");
    var id := IdOf(m, keys);
    var idFields := IdFields(id);
    if id.Some? {
      assert Get(idFields, "id") == Str(id.value) by {
        assert idFields[0] == Field("id", Str(id.value));
      }
    }
    assert k != "id" ==> !HasKey(idFields, k);
  }

  // ---------------------------------------------------------------------------------------
  // Routing

  datatype Operation =
    | GetItemOp | GetCollectionOp | AddItemOp
    | ReplaceItemOp | ReplaceCollectionOp | ExtendItemOp | ExtendCollectionOp
    | DeleteItemOp | DeleteCollectionOp

  datatype Route = Invoke(op: Operation) | NotAllowed

  /** The `if` chain on `req.method`, choosing the item operation when `params.id` is truthy. */
  function RouteOf(verb: string, hasId: bool): Route {
    if verb == "GET" || verb == "HEAD" then Invoke(if hasId then GetItemOp else GetCollectionOp)
    else if verb == "POST" then Invoke(AddItemOp)
    else if verb == "PUT" then Invoke(if hasId then ReplaceItemOp else ReplaceCollectionOp)
    else if verb == "PATCH" then Invoke(if hasId then ExtendItemOp else ExtendCollectionOp)
    else if verb == "DELETE" then Invoke(if hasId then DeleteItemOp else DeleteCollectionOp)
    else NotAllowed
  }

  /** The operations whose request body is read first. */
  predicate ReadsBody(op: Operation) {
    op.AddItemOp? || op.ReplaceItemOp? || op.ReplaceCollectionOp? || op.ExtendItemOp? || op.ExtendCollectionOp?
  }

  /** The operations on one record. */
  predicate ItemLevel(op: Operation) {
    op.GetItemOp? || op.ReplaceItemOp? || op.ExtendItemOp? || op.DeleteItemOp?
  }

  /** Six methods are served and every other one is refused; exactly POST, PUT and PATCH
      read a body; apart from POST, which always adds, the id decides between the item and
      the collection operation. */
  lemma RouteFacts(verb: string, hasId: bool)
    ensures RouteOf(verb, hasId).NotAllowed? <==> verb !in ["GET", "HEAD", "POST", "PUT", "PATCH", "DELETE"]
    ensures RouteOf(verb, hasId).Invoke? ==> (ReadsBody(RouteOf(verb, hasId).op) <==> verb in ["POST", "PUT", "PATCH"])
    ensures RouteOf(verb, hasId).Invoke? && verb != "POST" ==> (ItemLevel(RouteOf(verb, hasId).op) <==> hasId)
    ensures verb == "POST" ==> RouteOf(verb, hasId) == Invoke(AddItemOp)
  {
  }

  // ---------------------------------------------------------------------------------------
  // handleResponse

  const ContentType := "Content-Type"

  /** `if (response.data)`: an object or array is always truthy. */
  predicate PayloadTruthy(p: Payload) {
    match p
    case Scalar(v) => Truthy(v)
    case _ => true
  }

  /** `handleResponse(response)`: undefined becomes `{}`, a falsy status becomes 200, the
      headers are `Content-Type` (from `contentType`, by default JSON) extended with the
      response's own, and the body is written only when `data` is truthy. */
  function HandleResponse(response: Option<Response>): (w: Written) {
    var r := if response.Some? then response.value else Response(None, Scalar(Undefined), [], Undefined);
    var status := if r.status.Some? && r.status.value != 0 then r.status.value else 200;
    var contentType := if Truthy(r.contentType) then r.contentType else Str("application/json");
    Written(status, Extend([Field(ContentType, contentType)], r.headers), if PayloadTruthy(r.data) then Some(r.data) else None)
  }

  /** A handler that returns nothing still produces a 200 JSON response without a body. */
  lemma HandleResponseOfNothing()
    ensures HandleResponse(None).status == 200
    ensures Get(HandleResponse(None).headers, ContentType) == Str("application/json")
    ensures forall k :: k != ContentType ==> Get(HandleResponse(None).headers, k) == Undefined
    ensures HandleResponse(None).body == None
  {
    var h := HandleResponse(None).headers;
    assert Get([Field(ContentType, Str("application/json"))], ContentType) == Str("application/json") by {
      assert [Field(ContentType, Str("application/json"))][0].key == ContentType;
    }
  }

  /** The response's own headers win, `Content-Type` included; the legacy `contentType`
      property only fills in a missing `Content-Type`; `Content-Type` is set first. */
  lemma HandleResponseHeaders(r: Response, k: string)
    ensures var w := HandleResponse(Some(r));
      && w.headers[0].key == ContentType
      && (k != ContentType ==> Get(w.headers, k) == Get(r.headers, k))
      && Get(w.headers, ContentType) ==
           (if Get(r.headers, ContentType) != Undefined then Get(r.headers, ContentType)
            else if Truthy(r.contentType) then r.contentType else Str("application/json"))
  {
    var ct := if Truthy(r.contentType) then r.contentType else Str("application/json");
    var base: Record := [Field(ContentType, ct)];
    assert base[0].key == ContentType;
    assert Get(base, ContentType) == ct;
    assert forall k' :: k' != ContentType ==> !HasKey(base, k');
  }

  /** The status is the response's own unless it is absent or 0, and the body is written
      exactly when `data` is truthy. */
  lemma HandleResponseStatusAndBody(r: Response)
    ensures HandleResponse(Some(r)).status == (if r.status.Some? && r.status.value != 0 then r.status.value else 200)
    ensures HandleResponse(Some(r)).body.Some? <==> PayloadTruthy(r.data)
    ensures HandleResponse(Some(r)).body.Some? ==> HandleResponse(Some(r)).body.value == r.data
  {
  }

  /** The response to a body that could not be read. */
  function BadRequest(message: string): Response {
    Response(Some(400), Scalar(Str("Invalid request. " + message)), [Field(ContentType, Str("text/plain"))], Undefined)
  }

  /** `res.writeHead(405); res.end()`: no headers, no body. */
  const MethodNotAllowed := Written(405, [], None)

  /** `res.end('Reset successful')`: the default status, no headers. */
  const ResetReply := Written(200, [], Some(Scalar(Str("Reset successful"))))

  /** A body error is reported as a plain-text 400 that carries the reader's message. */
  lemma BadRequestWritten(message: string)
    ensures HandleResponse(Some(BadRequest(message))).status == 400
    ensures Get(HandleResponse(Some(BadRequest(message))).headers, ContentType) == Str("text/plain")
    ensures HandleResponse(Some(BadRequest(message))).body == Some(Scalar(Str("Invalid request. " + message)))
  {
    var own: Record := [Field(ContentType, Str("text/plain"))];
    assert own[0].key == ContentType;
    assert Get(own, ContentType) == Str("text/plain");
  }

  // ---------------------------------------------------------------------------------------
  // One rule's middleware

  /** Whether the model covers the operation on this body once the hooks have run: the item
      writes need an object, the collection writes need a body at all. */
  predicate Admits(rule: MiddlewareRule, op: Operation, params: Record, data: Body, req: Request)
    reads rule
  {
    rule.handler.None? ==>
      match op
      case AddItemOp => rule.prefilter(params, data, req).data.Object?
      case ReplaceItemOp => data.Object?
      case ExtendItemOp => !rule.prefilter(params, data, req).data.Array?
      case ReplaceCollectionOp => !rule.prefilter(params, data, req).data.NoBody?
      case ExtendCollectionOp => !rule.prefilter(params, data, req).data.NoBody? || Compact(rule.collection) == []
      case _ => true
  }

  /** The collection an operation leaves and the response object it returns. */
  datatype Effect = Effect(slots: Slots, response: Option<Response>)

  /** What each operation of the rule does, read off the rule's current state. */
  function EffectOf(rule: MiddlewareRule, op: Operation, params: Record, data: Body, req: Request): Effect
    requires Admits(rule, op, params, data, req)
    reads rule
  {
    var c := rule.collection;
    if rule.handler.Some? then Effect(c, rule.handler.value(params, data, req))
    else
      var post := rule.postfilter;
      var filtered := rule.prefilter(params, data, req);
      var id := Get(filtered.params, "id");
      match op
      case GetItemOp => Effect(c, post(params, GetItemResult(c, rule.idKey, id), req))
      case GetCollectionOp =>
        Effect(c, post(params, GetCollectionResult(c, rule.collectionKey, rule.countKey, rule.aliases,
                                                   rule.paramFilters, rule.path.keys, filtered.params), req))
      case AddItemOp =>
        var o := AddItemResult(c, filtered.data.fields);
        Effect(o.slots, post(params, o.response, req))
      case ReplaceItemOp =>
        var o := ReplaceItemResult(c, rule.idKey, id, data.fields);
        Effect(o.slots, post(params, o.response, req))
      case ReplaceCollectionOp =>
        var o := ReplaceCollectionResult(rule.collectionKey, rule.countKey, filtered.data);
        Effect(o.slots, post(params, o.response, req))
      case ExtendItemOp =>
        var o := ExtendItemResult(c, rule.idKey, id, BodyFields(filtered.data));
        Effect(o.slots, post(params, o.response, req))
      case ExtendCollectionOp =>
        var o := ExtendCollectionResult(c, rule.idKey, filtered.data);
        Effect(o.slots, post(params, o.response, req))
      case DeleteItemOp =>
        var o := DeleteItemResult(c, rule.idKey, id);
        Effect(o.slots, post(params, o.response, req))
      case DeleteCollectionOp =>
        var o := DeleteCollectionResult(rule.collectionKey, rule.countKey);
        Effect(o.slots, post(params, o.response, req))
  }

  /** `rule[name](params, data, req)` for the routed operation. */
  method Perform(rule: MiddlewareRule, op: Operation, params: Record, data: Body, req: Request)
    returns (r: Option<Response>)
    requires Admits(rule, op, params, data, req)
    modifies rule`collection
    ensures var e := old(EffectOf(rule, op, params, data, req)); rule.collection == e.slots && r == e.response
  {
    match op
    case GetItemOp => r := rule.GetItem(params, data, req);
    case GetCollectionOp => r := rule.GetCollection(params, data, req);
    case AddItemOp => r := rule.AddItem(params, data, req);
    case ReplaceItemOp => r := rule.ReplaceItem(params, data, req);
    case ReplaceCollectionOp => r := rule.ReplaceCollection(params, data, req);
    case ExtendItemOp => r := rule.ExtendItem(params, data, req);
    case ExtendCollectionOp => r := rule.ExtendCollection(params, data, req);
    case DeleteItemOp => r := rule.DeleteItem(params, data, req);
    case DeleteCollectionOp => r := rule.DeleteCollection(params, data, req);
  }

  /** The collection a rule's middleware leaves and the step it takes. */
  datatype Served = Served(slots: Slots, step: Step)

  /** What the middleware of `rule` does with a request: pass on a url the template rejects;
      otherwise read the parameters, refuse an unknown method with 405, report an unreadable
      body with 400, and answer with the routed operation's response. `body` is what the
      body reader delivers and `query` is the query-string parser. */
  function ServeSpec(rule: MiddlewareRule, req: Request, body: Result<Body, string>, query: string -> Record): Served
    reads rule
  {
    var c := rule.collection;
    match rule.path.exec(req.url)
    case None => Served(c, Next)
    case Some(m) =>
      if rule.path.keys.None? then Served(c, Unmodelled)
      else
        var params := Params(m, rule.path.keys.value, query(m.whole));
        match RouteOf(req.verb, Truthy(Get(params, "id")))
        case NotAllowed => Served(c, Responded(MethodNotAllowed))
        case Invoke(op) =>
          if ReadsBody(op) && body.Failure? then Served(c, Responded(HandleResponse(Some(BadRequest(body.error)))))
          else
            var data := if ReadsBody(op) then body.value else NoBody;
            if !Admits(rule, op, params, data, req) then Served(c, Unmodelled)
            else
              var e := EffectOf(rule, op, params, data, req);
              Served(e.slots, Responded(HandleResponse(e.response)))
  }

  /** The function `getMiddleware` builds for one rule. */
  method Serve(rule: MiddlewareRule, req: Request, body: Result<Body, string>, query: string -> Record)
    returns (s: Step)
    modifies rule`collection
    ensures var e := old(ServeSpec(rule, req, body, query)); rule.collection == e.slots && s == e.step
  {
    var parsed := rule.path.exec(req.url);
    if parsed.None? {
      return Next;
    }
    if rule.path.keys.None? {
      return Unmodelled;
    }
    var m, keys := parsed.value, rule.path.keys.value;
    var id := GetId(m, keys);
    var params := Extend(Extend(MapCaptures(m, keys), IdFields(id)), query(m.whole));
    var route := RouteOf(req.verb, Truthy(Get(params, "id")));
    if route.NotAllowed? {
      return Responded(MethodNotAllowed);
    }
    var op := route.op;
    var data := NoBody;
    if ReadsBody(op) {
      if body.Failure? {
        return Responded(HandleResponse(Some(BadRequest(body.error))));
      }
      data := body.value;
    }
    if !Admits(rule, op, params, data, req) {
      return Unmodelled;
    }
    var r := Perform(rule, op, params, data, req);
    s := Responded(HandleResponse(r));
  }

  /** A url the template rejects is passed on untouched. */
  lemma RejectedUrlFallsThrough(rule: MiddlewareRule, req: Request, body: Result<Body, string>, query: string -> Record)
    requires rule.path.exec(req.url).None?
    ensures ServeSpec(rule, req, body, query) == Served(rule.collection, Next)
  {
  }

  /** GET and HEAD never change the collection. */
  lemma ReadsDoNotWrite(rule: MiddlewareRule, req: Request, body: Result<Body, string>, query: string -> Record)
    requires req.verb == "GET" || req.verb == "HEAD"
    ensures ServeSpec(rule, req, body, query).slots == rule.collection
  {
    match rule.path.exec(req.url)
    case None =>
    case Some(m) =>
      if rule.path.keys.Some? {
        var params := Params(m, rule.path.keys.value, query(m.whole));
        var route := RouteOf(req.verb, Truthy(Get(params, "id")));
        ReadKeepsCollection(rule, route.op, params, NoBody, req);
      }
  }

  /** A matched request with any other method than the six is refused with 405 and changes
      nothing. */
  lemma UnknownMethodRefused(rule: MiddlewareRule, req: Request, body: Result<Body, string>, query: string -> Record)
    requires req.verb !in ["GET", "HEAD", "POST", "PUT", "PATCH", "DELETE"]
    requires rule.path.exec(req.url).Some? && rule.path.keys.Some?
    ensures ServeSpec(rule, req, body, query) == Served(rule.collection, Responded(MethodNotAllowed))
  {
    var m := rule.path.exec(req.url).value;
    var params := Params(m, rule.path.keys.value, query(m.whole));
    RouteFacts(req.verb, Truthy(Get(params, "id")));
  }

  /** The two reads return the collection as it was. */
  lemma ReadKeepsCollection(rule: MiddlewareRule, op: Operation, params: Record, data: Body, req: Request)
    requires op.GetItemOp? || op.GetCollectionOp?
    ensures Admits(rule, op, params, data, req)
    ensures EffectOf(rule, op, params, data, req).slots == rule.collection
  {
  }

  /** An unreadable body on POST, PUT or PATCH yields the 400 and changes nothing. */
  lemma BodyErrorChangesNothing(rule: MiddlewareRule, req: Request, message: string, query: string -> Record)
    requires req.verb in ["POST", "PUT", "PATCH"]
    requires rule.path.exec(req.url).Some? && rule.path.keys.Some?
    ensures ServeSpec(rule, req, Failure(message), query)
            == Served(rule.collection, Responded(HandleResponse(Some(BadRequest(message)))))
  {
    var m := rule.path.exec(req.url).value;
    var params := Params(m, rule.path.keys.value, query(m.whole));
    var route := RouteOf(req.verb, Truthy(Get(params, "id")));
    assert route.Invoke? && ReadsBody(route.op);
  }

  // ---------------------------------------------------------------------------------------
  // The middleware object

  /** Index of the first rule whose template matches the url, or the number of rules. */
  function FirstServing(rules: seq<MiddlewareRule>, url: string): (k: nat)
    ensures k <= |rules|
    ensures k < |rules| ==> rules[k].path.exec(url).Some?
    ensures forall j :: 0 <= j < k ==> rules[j].path.exec(url).None?
  {
    if rules == [] then 0
    else if rules[0].path.exec(url).Some? then 0
    else 1 + FirstServing(rules[1..], url)
  }

  class Middleware {
    var rules: seq<MiddlewareRule>

    constructor()
      ensures rules == []
    {
      rules := [];
    }

    /** `addResource(path, collection, opts)`: the path and the collection are required; the
        new rule's template is the path with `IdSuffix` compiled by `compile`. */
    method AddResource(path: Option<string>, collection: Option<seq<Record>>, opts: Options,
                       compile: string -> Pattern)
      returns (r: Result<MiddlewareRule, string>)
      modifies this`rules
      ensures path.None? ==> r == Failure("A path must be passed to addResource()") && rules == old(rules)
      ensures path.Some? && collection.None? ==>
        r == Failure("A collection must be passed to addResource()") && rules == old(rules)
      ensures path.Some? && collection.Some? ==>
        && r.Success? && fresh(r.value) && rules == old(rules) + [r.value]
        && r.value.path == compile(path.value + IdSuffix)
        && r.value.collection == Present(collection.value)
        && r.value.originalCollection == CopyAll(collection.value)
        && r.value.idKey == ChooseIdKey(opts.idKey, collection.value)
        && r.value.collectionKey == OrDefault(opts.collectionKey, "items")
        && r.value.countKey == OrDefault(opts.countKey, "total")
        && r.value.aliases == AliasesOf(opts)
        && r.value.paramFilters == [] && r.value.handler.None?
        && r.value.prefilter == IdentityPrefilter && r.value.postfilter == IdentityPostfilter
    {
      if path.None? {
        return Failure("A path must be passed to addResource()");
      }
      if collection.None? {
        return Failure("A collection must be passed to addResource()");
      }
      var rule := new MiddlewareRule(compile(path.value + IdSuffix), collection.value, opts);
      rules := rules + [rule];
      return Success(rule);
    }

    /** `resetMiddleware`: only the url `/_reset` resets, and then every rule is reset. */
    method ResetMiddleware(url: string) returns (s: Step)
      modifies rules`collection
      ensures url != ResetUrl ==> s == Next
      ensures url != ResetUrl ==> forall i :: 0 <= i < |rules| ==> rules[i].collection == old(rules[i].collection)
      ensures url == ResetUrl ==> s == Responded(ResetReply)
      ensures url == ResetUrl ==>
        forall i :: 0 <= i < |rules| ==> rules[i].collection == Present(CopyAll(rules[i].originalCollection))
    {
      if url != ResetUrl {
        return Next;
      }
      for i := 0 to |rules|
        invariant forall j :: 0 <= j < i ==> rules[j].collection == Present(CopyAll(rules[j].originalCollection))
        invariant forall j :: i <= j < |rules| && rules[j] !in rules[..i] ==> rules[j].collection == old(rules[j].collection)
      {
        rules[i].Reset();
      }
      return Responded(ResetReply);
    }

    /** The chain `getMiddleware` returns, applied to one request: the rules in the order
        they were added, then the reset endpoint, then the pass-through to the next
        middleware of the application. The first rule whose template matches the url
        handles the request, so a rule can shadow `/_reset`. */
    method Handle(req: Request, body: Result<Body, string>, query: string -> Record) returns (s: Step)
      modifies rules`collection
      ensures var k := FirstServing(rules, req.url);
        k < |rules| ==> var e := old(ServeSpec(rules[k], req, body, query)); rules[k].collection == e.slots && s == e.step
      ensures var k := FirstServing(rules, req.url);
        k < |rules| ==> forall j :: 0 <= j < |rules| && rules[j] != rules[k] ==> rules[j].collection == old(rules[j].collection)
      ensures FirstServing(rules, req.url) == |rules| && req.url != ResetUrl ==> s == Next
      ensures FirstServing(rules, req.url) == |rules| && req.url != ResetUrl ==>
        forall j :: 0 <= j < |rules| ==> rules[j].collection == old(rules[j].collection)
      ensures FirstServing(rules, req.url) == |rules| && req.url == ResetUrl ==> s == Responded(ResetReply)
      ensures FirstServing(rules, req.url) == |rules| && req.url == ResetUrl ==>
        forall j :: 0 <= j < |rules| ==> rules[j].collection == Present(CopyAll(rules[j].originalCollection))
    {
      for i := 0 to |rules|
        invariant forall j :: 0 <= j < i ==> rules[j].path.exec(req.url).None?
      {
        if rules[i].path.exec(req.url).Some? {
          assert FirstServing(rules, req.url) == i;
          s := Serve(rules[i], req, body, query);
          return;
        }
      }
      s := ResetMiddleware(req.url);
    }
  }
}
