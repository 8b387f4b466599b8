/** `MiddlewareRule` (middlewarerule.js): one in-memory REST resource. It owns a mutable
    collection and the snapshot it was built from, and answers the nine operations. Each
    operation defers to `handler` when one is set; otherwise it passes its input through
    `prefilter`, does its work, and hands the `{status, data}` object to `postfilter`
    together with the ORIGINAL parameters. */
module Rule {
  import opened Wrappers
  import opened Values
  import opened Records
  import opened Messages
  import opened Slots
  import opened Sorting
  import opened Listing
  import opened Operations

  /** A special-parameter option: absent, one name, or a list of names. */
  datatype AliasOption = Unset | Name(name: string) | Names(names: seq<string>)

  /** The options object of the constructor. An empty string stands for an absent or falsy
      `idKey`, `collectionKey` or `countKey`. */
  datatype Options = Options(idKey: string, collectionKey: string, countKey: string,
                             offsetParam: AliasOption, limitParam: AliasOption, queryParam: AliasOption,
                             sortByParam: AliasOption, sortDirParam: AliasOption)

  /** `opts || {}`. */
  const NoOptions := Options("", "", "", Unset, Unset, Unset, Unset, Unset)

  /** `if (opts.xParam) { this.xParams = getStringOrArray(opts.xParam); }` falling back to the
      prototype's default: a list is used as given (even an empty one, which is truthy), a
      non-empty name becomes a one-element list. */
  function GetStringOrArray(opt: AliasOption, default: seq<string>): (names: seq<string>)
    ensures opt.Names? ==> names == opt.names
    ensures opt.Name? && opt.name != "" ==> names == [opt.name]
    ensures opt.Unset? || opt == Name("") ==> names == default
  {
    match opt
    case Unset => default
    case Name(s) => if s == "" then default else [s]
    case Names(xs) => xs
  }

  /** The special-parameter names a rule built with `opts` uses. */
  function AliasesOf(opts: Options): Aliases {
    Aliases(GetStringOrArray(opts.offsetParam, DefaultAliases.offset),
            GetStringOrArray(opts.limitParam, DefaultAliases.limit),
            GetStringOrArray(opts.queryParam, DefaultAliases.query),
            GetStringOrArray(opts.sortByParam, DefaultAliases.sortBy),
            GetStringOrArray(opts.sortDirParam, DefaultAliases.sortDir))
  }

  /** A non-empty option string, or the default. */
  function OrDefault(s: string, default: string): string {
    if s != "" then s else default
  }

  /** Without options a rule uses the prototype's names. */
  lemma AliasesWithoutOptions()
    ensures AliasesOf(NoOptions) == Aliases(["offset"], ["limit"], ["q", "query"], ["sortBy"], ["sortDir"])
    ensures OrDefault(NoOptions.collectionKey, "items") == "items" && OrDefault(NoOptions.countKey, "total") == "total"
  {
  }

  /** The position of the first key ending in `Id`, the key the `reduce` settles on. */
  function FirstIdLikeKey(fs: seq<Field>): (i: nat)
    ensures i <= |fs|
    ensures i < |fs| ==> EndsWith(fs[i].key, "Id")
    ensures forall j :: 0 <= j < i ==> !EndsWith(fs[j].key, "Id")
  {
    if fs == [] then 0 else if EndsWith(fs[0].key, "Id") then 0 else 1 + FirstIdLikeKey(fs[1..])
  }

  /** `guessIdProp(item)`: `id` when the record defines it; otherwise the first key, in key
      order, that ends in `Id`; otherwise the first key if it is not empty; otherwise `id`. */
  function GuessIdProp(item: Record): (k: string)
    ensures Get(item, "id") != Undefined ==> k == "id"
  {
    if Get(item, "id") != Undefined then "id"
    else
      var i := FirstIdLikeKey(item);
      if i < |item| then item[i].key
      else if |item| > 0 && item[0].key != "" then item[0].key
      else "id"
  }

  /** The order of the rules: a defined `id` first, then the first key ending in `Id`, then
      a non-empty first key, then `id`. */
  lemma GuessIdPropRules(item: Record)
    ensures Get(item, "id") != Undefined ==> GuessIdProp(item) == "id"
    ensures Get(item, "id") == Undefined ==>
      forall i :: (0 <= i < |item| && EndsWith(item[i].key, "Id") &&
                   (forall j :: 0 <= j < i ==> !EndsWith(item[j].key, "Id"))) ==> GuessIdProp(item) == item[i].key
    ensures Get(item, "id") == Undefined && (forall i :: 0 <= i < |item| ==> !EndsWith(item[i].key, "Id")) ==>
      GuessIdProp(item) == if |item| > 0 && item[0].key != "" then item[0].key else "id"
  {
    var f := FirstIdLikeKey(item);
    forall i | 0 <= i < |item| && EndsWith(item[i].key, "Id") && (forall j :: 0 <= j < i ==> !EndsWith(item[j].key, "Id"))
      ensures f == i
    {
    }
  }

  /** The guess is always `id` or one of the record's own keys. */
  lemma GuessIsAKey(item: Record)
    ensures GuessIdProp(item) == "id" || HasKey(item, GuessIdProp(item))
  {
    if Get(item, "id") == Undefined {
      var f := FirstIdLikeKey(item);
      if f < |item| {
        assert KeyIndex(item, item[f].key) <= f;
      } else if |item| > 0 {
        assert KeyIndex(item, item[0].key) == 0;
      }
    }
  }

  /** An `id` property wins over an earlier key ending in `Id`. */
  lemma GuessPrefersId()
    ensures GuessIdProp([Field("userId", Num(1)), Field("id", Num(2))]) == "id"
  {
    var r := [Field("userId", Num(1)), Field("id", Num(2))];
    assert r[1].key == "id";
  }

  /** Without `id`, the first key ending in `Id` wins over later ones and over the first key. */
  lemma GuessPrefersFirstIdLikeKey()
    ensures GuessIdProp([Field("name", Str("a")), Field("userId", Num(1)), Field("groupId", Num(2))]) == "userId"
  {
    var r := [Field("name", Str("a")), Field("userId", Num(1)), Field("groupId", Num(2))];
    assert !EndsWith("name", "Id") && EndsWith("userId", "Id");
    assert !HasKey(r, "id") by {
      assert forall i :: 0 <= i < |r| ==> r[i].key != "id";
    }
  }

  /** Without `id` or a key ending in `Id`, the first key is taken; an empty record gives `id`. */
  lemma GuessFallsBackToFirstKey()
    ensures GuessIdProp([Field("name", Str("a")), Field("age", Num(3))]) == "name"
    ensures GuessIdProp([]) == "id"
  {
    var r := [Field("name", Str("a")), Field("age", Num(3))];
    assert !EndsWith("name", "Id") && !EndsWith("age", "Id");
    assert !HasKey(r, "id") by {
      assert forall i :: 0 <= i < |r| ==> r[i].key != "id";
    }
  }

  /** `opts.idKey || guessIdProp(collection[0] || {})`. */
  function ChooseIdKey(optIdKey: string, collection: seq<Record>): (k: string)
    ensures optIdKey != "" ==> k == optIdKey
    ensures optIdKey == "" && collection == [] ==> k == "id"
    ensures optIdKey == "" && collection != [] ==> k == GuessIdProp(collection[0])
  {
    if optIdKey != "" then optIdKey
    else GuessIdProp(if collection == [] then [] else collection[0])
  }

  /** `extend(true, [], rs)`: a deep copy of every record. */
  function CopyAll(rs: seq<Record>): (cs: seq<Record>)
    ensures |cs| == |rs|
    ensures forall i, k :: 0 <= i < |rs| ==> Get(cs[i], k) == Get(rs[i], k)
    ensures forall i :: 0 <= i < |rs| ==> DefinedValues(cs[i])
  {
    seq(|rs|, i requires 0 <= i < |rs| => DeepCopy(rs[i]))
  }

  class MiddlewareRule {
    /** `this.path.keys` and the template's matcher. */
    const path: Pattern
    /** The snapshot `reset` restores. */
    const originalCollection: seq<Record>
    var collection: Slots
    const idKey: string
    const collectionKey: string
    const countKey: string
    const aliases: Aliases
    var paramFilters: seq<ParamFilter>
    var handler: Option<Handler>
    var prefilter: Prefilter
    var postfilter: Postfilter

    constructor(path: Pattern, collection: seq<Record>, opts: Options)
      ensures this.path == path
      ensures originalCollection == CopyAll(collection)
      ensures this.collection == Present(collection)
      ensures idKey == ChooseIdKey(opts.idKey, collection)
      ensures collectionKey == OrDefault(opts.collectionKey, "items")
      ensures countKey == OrDefault(opts.countKey, "total")
      ensures aliases == AliasesOf(opts)
      ensures paramFilters == [] && handler == None
      ensures prefilter == IdentityPrefilter && postfilter == IdentityPostfilter
    {
      this.path := path;
      originalCollection := CopyAll(collection);
      this.collection := Present(collection);
      idKey := ChooseIdKey(opts.idKey, collection);
      collectionKey := OrDefault(opts.collectionKey, "items");
      countKey := OrDefault(opts.countKey, "total");
      aliases := AliasesOf(opts);
      paramFilters := [];
      handler := None;
      prefilter := IdentityPrefilter;
      postfilter := IdentityPostfilter;
    }

    /** `reset()`: the collection becomes a fresh deep copy of the snapshot. */
    method Reset()
      modifies this`collection
      ensures collection == Present(CopyAll(originalCollection))
    {
      collection := Present(CopyAll(originalCollection));
    }

    /** `getItem`. */
    method GetItem(params: Record, data: Body, req: Request) returns (r: Option<Response>)
      ensures handler.Some? ==> r == handler.value(params, data, req)
      ensures handler.None? ==>
        r == postfilter(params, GetItemResult(collection, idKey, Get(prefilter(params, data, req).params, "id")), req)
    {
      if handler.Some? {
        return handler.value(params, data, req);
      }
      var filtered := prefilter(params, data, req);
      var id := Get(filtered.params, "id");
      var matched: seq<Record> := [];
      var i := 0;
      while i < |collection|
        invariant 0 <= i <= |collection|
        invariant matched == [] <==> FirstMatch(collection, idKey, id) >= i
        invariant matched != [] ==> Some(matched[0]) == collection[FirstMatch(collection, idKey, id)]
      {
        if Matches(collection[i], idKey, id) {
          matched := matched + [collection[i].value];
        }
        i := i + 1;
      }
      var response := if matched != [] then Reply(200, Item(matched[0])) else Reply(404, Scalar(Undefined));
      r := postfilter(params, response, req);
    }

    /** `addItem`: the prefiltered body is pushed. */
    method AddItem(params: Record, data: Body, req: Request) returns (r: Option<Response>)
      requires handler.None? ==> prefilter(params, data, req).data.Object?
      modifies this`collection
      ensures handler.Some? ==> r == handler.value(params, data, req) && collection == old(collection)
      ensures handler.None? ==>
        var o := AddItemResult(old(collection), prefilter(params, data, req).data.fields);
        collection == o.slots && r == postfilter(params, o.response, req)
    {
      if handler.Some? {
        return handler.value(params, data, req);
      }
      var filtered := prefilter(params, data, req);
      var item := filtered.data.fields;
      collection := collection + [Some(item)];
      r := postfilter(params, Reply(200, Item(item)), req);
    }

    /** `deleteCollection`: `prefilter` runs but its result is not used. */
    method DeleteCollection(params: Record, data: Body, req: Request) returns (r: Option<Response>)
      modifies this`collection
      ensures handler.Some? ==> r == handler.value(params, data, req) && collection == old(collection)
      ensures handler.None? ==>
        var o := DeleteCollectionResult(collectionKey, countKey);
        collection == o.slots && r == postfilter(params, o.response, req)
    {
      if handler.Some? {
        return handler.value(params, data, req);
      }
      collection := [];
      r := postfilter(params, EnvelopeReply(collectionKey, countKey, [], |collection|), req);
    }

    /** `deleteItem`: a `forEach` that deletes every matching slot and remembers the last one. */
    method DeleteItem(params: Record, data: Body, req: Request) returns (r: Option<Response>)
      modifies this`collection
      ensures handler.Some? ==> r == handler.value(params, data, req) && collection == old(collection)
      ensures handler.None? ==>
        var o := DeleteItemResult(old(collection), idKey, Get(prefilter(params, data, req).params, "id"));
        collection == o.slots && r == postfilter(params, o.response, req)
    {
      if handler.Some? {
        return handler.value(params, data, req);
      }
      var filtered := prefilter(params, data, req);
      var id := Get(filtered.params, "id");
      ghost var c0 := collection;
      var found: Option<Record> := None;
      for i := 0 to |collection|
        invariant |collection| == |c0|
        invariant forall j :: 0 <= j < i ==> collection[j] == if Matches(c0[j], idKey, id) then None else c0[j]
        invariant forall j :: i <= j < |c0| ==> collection[j] == c0[j]
        invariant found == LastMatch(c0[..i], idKey, id)
      {
        LastMatchSnoc(c0, i, idKey, id);
        ghost var before := collection;
        if Matches(collection[i], idKey, id) {
          found := collection[i];
          collection := collection[i := None];
        }
        assert collection == before[i := if Matches(c0[i], idKey, id) then None else c0[i]];
      }
      assert c0[..|c0|] == c0;
      assert collection == DeleteMatching(c0, idKey, id);
      r := postfilter(params, FoundReply(found), req);
    }

    /** `replaceItem`: every matching slot is assigned the RAW body, not the prefiltered one. */
    method ReplaceItem(params: Record, data: Body, req: Request) returns (r: Option<Response>)
      requires handler.None? ==> data.Object?
      modifies this`collection
      ensures handler.Some? ==> r == handler.value(params, data, req) && collection == old(collection)
      ensures handler.None? ==>
        var o := ReplaceItemResult(old(collection), idKey, Get(prefilter(params, data, req).params, "id"), data.fields);
        collection == o.slots && r == postfilter(params, o.response, req)
    {
      if handler.Some? {
        return handler.value(params, data, req);
      }
      var filtered := prefilter(params, data, req);
      var id := Get(filtered.params, "id");
      ghost var c0 := collection;
      var found: Option<Record> := None;
      for i := 0 to |collection|
        invariant |collection| == |c0|
        invariant forall j :: 0 <= j < i ==> collection[j] == if Matches(c0[j], idKey, id) then Some(data.fields) else c0[j]
        invariant forall j :: i <= j < |c0| ==> collection[j] == c0[j]
        invariant found == if LastMatch(c0[..i], idKey, id).Some? then Some(data.fields) else None
      {
        LastMatchSnoc(c0, i, idKey, id);
        ghost var before := collection;
        if Matches(collection[i], idKey, id) {
          found := Some(data.fields);
          collection := collection[i := found];
        }
        assert collection == before[i := if Matches(c0[i], idKey, id) then Some(data.fields) else c0[i]];
      }
      assert c0[..|c0|] == c0;
      assert collection == ReplaceMatching(c0, idKey, id, data.fields);
      r := postfilter(params, FoundReply(found), req);
    }

    /** `extendItem`: the prefiltered body is merged into every matching record. */
    method ExtendItem(params: Record, data: Body, req: Request) returns (r: Option<Response>)
      requires handler.None? ==> !prefilter(params, data, req).data.Array?
      modifies this`collection
      ensures handler.Some? ==> r == handler.value(params, data, req) && collection == old(collection)
      ensures handler.None? ==>
        var filtered := prefilter(params, data, req);
        var o := ExtendItemResult(old(collection), idKey, Get(filtered.params, "id"), BodyFields(filtered.data));
        collection == o.slots && r == postfilter(params, o.response, req)
    {
      if handler.Some? {
        return handler.value(params, data, req);
      }
      var filtered := prefilter(params, data, req);
      var id := Get(filtered.params, "id");
      var fields := BodyFields(filtered.data);
      var found := MergeMatching(id, fields);
      r := postfilter(params, FoundReply(found), req);
    }

    /** The `map` of `extendItem`: `found = extend(this.collection[i], data)` for every
        matching slot. */
    method MergeMatching(id: Value, fields: Record) returns (found: Option<Record>)
      modifies this`collection
      ensures collection == ExtendMatching(old(collection), idKey, id, fields)
      ensures found == MergedFound(LastMatch(old(collection), idKey, id), fields)
    {
      var c := collection;
      ghost var c0 := c;
      found := None;
      for i := 0 to |c|
        invariant |c| == |c0|
        invariant forall j :: 0 <= j < i ==> c[j] == MergeSlot(c0[j], idKey, id, fields)
        invariant forall j :: i <= j < |c| ==> c[j] == c0[j]
        invariant found == MergedFound(LastMatch(c0[..i], idKey, id), fields)
      {
        MergedFoundSnoc(c0, i, idKey, id, fields);
        ghost var before := c;
        if Matches(c[i], idKey, id) {
          var merged := MergeSlot(c[i], idKey, id, fields);
          c := c[i := merged];
          found := merged;
        }
        assert c == before[i := MergeSlot(c0[i], idKey, id, fields)];
      }
      assert c0[..|c0|] == c0;
      collection := c;
    }

    /** `replaceCollection`: the prefiltered body becomes the collection. */
    method ReplaceCollection(params: Record, data: Body, req: Request) returns (r: Option<Response>)
      requires handler.None? ==> !prefilter(params, data, req).data.NoBody?
      modifies this`collection
      ensures handler.Some? ==> r == handler.value(params, data, req) && collection == old(collection)
      ensures handler.None? ==>
        var o := ReplaceCollectionResult(collectionKey, countKey, prefilter(params, data, req).data);
        collection == o.slots && r == postfilter(params, o.response, req)
    {
      if handler.Some? {
        return handler.value(params, data, req);
      }
      var filtered := prefilter(params, data, req);
      var records := BodyRecords(filtered.data);
      collection := Present(records);
      r := postfilter(params, EnvelopeReply(collectionKey, countKey, records, |records|), req);
    }

    /** One pass of the inner `forEach` of `extendCollection` for the body element `e`. */
    method MergeElement(e: Record) returns (positions: seq<nat>)
      modifies this`collection
      ensures collection == ExtendMatching(old(collection), idKey, Get(e, idKey), e)
      ensures positions == MatchIndices(old(collection), idKey, Get(e, idKey))
    {
      var c := collection;
      ghost var c0 := c;
      var eid := Get(e, idKey);
      positions := [];
      for i := 0 to |c|
        invariant |c| == |c0|
        invariant forall j :: 0 <= j < i ==> c[j] == MergeSlot(c0[j], idKey, eid, e)
        invariant forall j :: i <= j < |c| ==> c[j] == c0[j]
        invariant positions == MatchIndices(c0[..i], idKey, eid)
      {
        MatchIndicesSnoc(c0, i, idKey, eid);
        ghost var before := c;
        if Matches(c[i], idKey, eid) {
          c := c[i := MergeSlot(c[i], idKey, eid, e)];
          positions := positions + [i];
        }
        assert c == before[i := MergeSlot(c0[i], idKey, eid, e)];
      }
      assert c0[..|c0|] == c0;
      collection := c;
    }

    /** `extendCollection`: for each body element in order, every record its id matches is
      merged with it and pushed onto `found`. A missing body is served only on a collection
      with no record, where the loops do nothing. */
    method ExtendCollection(params: Record, data: Body, req: Request) returns (r: Option<Response>)
      requires handler.None? ==> !prefilter(params, data, req).data.NoBody? || Compact(collection) == []
      modifies this`collection
      ensures handler.Some? ==> r == handler.value(params, data, req) && collection == old(collection)
      ensures handler.None? ==>
        var o := ExtendCollectionResult(old(collection), idKey, prefilter(params, data, req).data);
        collection == o.slots && r == postfilter(params, o.response, req)
    {
      if handler.Some? {
        return handler.value(params, data, req);
      }
      var filtered := prefilter(params, data, req);
      if filtered.data.NoBody? {
        // The one element is undefined and the collection has no record to compare it with.
        return postfilter(params, Reply(200, Items([])), req);
      }
      var es := BodyRecords(filtered.data);
      ghost var c0 := collection;
      var found: seq<nat> := [];
      for n := 0 to |es|
        invariant Merged(collection, found) == ExtendEach(c0, idKey, es[..n])
      {
        assert es[..n + 1][..n] == es[..n];
        var positions := MergeElement(es[n]);
        found := found + positions;
      }
      assert es[..|es|] == es;
      ghost var m := ExtendEach(c0, idKey, es);
      assert collection == m.slots && found == m.found;
      r := postfilter(params, Reply(200, Items(Resolve(collection, found))), req);
    }

    /** `getCollection`: filter with `MatchesAll`, sort the filtered records (`SortedBy`) when
        asked, then slice. */
    method GetCollection(params: Record, data: Body, req: Request) returns (r: Option<Response>)
      ensures handler.Some? ==> r == handler.value(params, data, req)
      ensures handler.None? ==>
        r == postfilter(params, GetCollectionResult(collection, collectionKey, countKey, aliases, paramFilters,
                                                    path.keys, prefilter(params, data, req).params), req)
    {
      if handler.Some? {
        return handler.value(params, data, req);
      }
      var fp := prefilter(params, data, req).params;
      var crit := CriteriaOf(fp, aliases, paramFilters, path.keys);
      var selected: seq<Record> := [];
      for i := 0 to |collection|
        invariant selected == Select(collection[..i], crit)
      {
        assert collection[..i + 1][..i] == collection[..i];
        if collection[i].Some? {
          var keep := MatchesAll(collection[i].value, crit);
          if keep {
            selected := selected + [collection[i].value];
          }
        }
      }
      assert collection[..|collection|] == collection;
      var arranged := selected;
      var sortBy := GetFirstParamValue(fp, aliases.sortBy);
      if Truthy(sortBy) {
        arranged := SortedBy(selected, ToStr(sortBy), Descending(fp, aliases));
      }
      assert arranged == Arranged(selected, fp, aliases);
      var offset := CountParam(GetFirstParamValue(fp, aliases.offset), 0);
      var limit := CountParam(GetFirstParamValue(fp, aliases.limit), |collection|);
      var items := Slice(arranged, offset, Add(offset, limit));
      assert Listed(items, |selected|) == List(collection, aliases, paramFilters, path.keys, fp);
      r := postfilter(params, EnvelopeReply(collectionKey, countKey, items, |selected|), req);
    }
  }

  /** The snapshot is a copy: after `reset`, every record holds the values it was built
      with, whatever happened in between. */
  lemma ResetRestores(rs: seq<Record>, i: nat, k: string)
    requires i < |rs|
    ensures Present(CopyAll(CopyAll(rs)))[i] == Some(CopyAll(CopyAll(rs))[i])
    ensures Get(CopyAll(CopyAll(rs))[i], k) == Get(rs[i], k)
  {
  }
}
