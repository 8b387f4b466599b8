/** What each of the nine operations of a rule computes once the hooks are out of the way:
    the collection afterwards and the `{status, data}` object handed to `postfilter`. The
    methods of `MiddlewareRule` are proved to compute exactly these; the lemmas here relate
    the operations to one another. */
module Operations {
  import opened Wrappers
  import opened Values
  import opened Records
  import opened Messages
  import opened Slots
  import opened Listing

  /** The collection after an operation, and the response object it builds. */
  datatype Outcome = Outcome(slots: Slots, response: Response)

  /** `{[collectionKey]: items, [countKey]: total}` with status 200. */
  function EnvelopeReply(collectionKey: string, countKey: string, items: seq<Record>, total: nat): Response {
    Reply(200, Envelope(collectionKey, items, countKey, total))
  }

  /** `found ? 200 : 404` with `data: found`, where `found` starts as `null`. */
  function FoundReply(found: Option<Record>): (r: Response)
    ensures found.Some? ==> r == Reply(200, Item(found.value))
    ensures found.None? ==> r == Reply(404, Scalar(Null))
  {
    match found
    case Some(x) => Reply(200, Item(x))
    case None => Reply(404, Scalar(Null))
  }

  /** The records a collection-level body stands for: an array as it is, any other body as a
      one-element array. A missing body is not a record (see README). */
  function BodyRecords(data: Body): (rs: seq<Record>)
    requires !data.NoBody?
    ensures data.Array? ==> rs == data.elements
    ensures data.Object? ==> rs == [data.fields]
  {
    if data.Array? then data.elements else [data.fields]
  }

  /** The properties `extend` copies from an item-level body: those of an object, none for
      a missing body (`extend` skips `null` and `undefined` sources). */
  function BodyFields(data: Body): (fs: Record)
    requires !data.Array?
    ensures data.Object? ==> fs == data.fields
    ensures data.NoBody? ==> fs == []
  {
    if data.Object? then data.fields else []
  }

  /** `getItem`: 200 with the first present record whose id matches, otherwise 404 with
      undefined data. */
  function GetItemResult(c: Slots, idKey: string, id: Value): (r: Response)
    ensures r.status == Some(200) <==> exists i :: 0 <= i < |c| && Matches(c[i], idKey, id)
    ensures r.status == Some(200) ==> exists i :: (0 <= i < |c| && Matches(c[i], idKey, id) &&
      (forall j :: 0 <= j < i ==> !Matches(c[j], idKey, id)) && r.data == Item(c[i].value))
    ensures r.status != Some(200) ==> r == Reply(404, Scalar(Undefined))
  {
    var i := FirstMatch(c, idKey, id);
    if i < |c| then Reply(200, Item(c[i].value)) else Reply(404, Scalar(Undefined))
  }

  /** `addItem`: the body is pushed as the new last slot and returned. */
  function AddItemResult(c: Slots, item: Record): (o: Outcome)
    ensures |o.slots| == |c| + 1 && o.slots[..|c|] == c && o.slots[|c|] == Some(item)
    ensures o.response == Reply(200, Item(item))
  {
    Outcome(c + [Some(item)], Reply(200, Item(item)))
  }

  /** `deleteCollection`: the collection becomes empty, and so does the envelope. */
  function DeleteCollectionResult(collectionKey: string, countKey: string): (o: Outcome)
    ensures o.slots == [] && o.response == EnvelopeReply(collectionKey, countKey, [], 0)
  {
    Outcome([], EnvelopeReply(collectionKey, countKey, [], 0))
  }

  /** `deleteItem`: every matching slot becomes a hole; the last matching record is returned. */
  function DeleteItemResult(c: Slots, idKey: string, id: Value): (o: Outcome)
    ensures |o.slots| == |c|
    ensures forall i :: 0 <= i < |c| ==> o.slots[i] == if Matches(c[i], idKey, id) then None else c[i]
    ensures o.response == FoundReply(LastMatch(c, idKey, id))
  {
    Outcome(DeleteMatching(c, idKey, id), FoundReply(LastMatch(c, idKey, id)))
  }

  /** `replaceItem`: every matching slot is overwritten with the raw body, which is returned
      when anything matched. */
  function ReplaceItemResult(c: Slots, idKey: string, id: Value, data: Record): (o: Outcome)
    ensures |o.slots| == |c|
    ensures forall i :: 0 <= i < |c| ==> o.slots[i] == if Matches(c[i], idKey, id) then Some(data) else c[i]
    ensures o.response == FoundReply(if LastMatch(c, idKey, id).Some? then Some(data) else None)
  {
    Outcome(ReplaceMatching(c, idKey, id, data),
            FoundReply(if LastMatch(c, idKey, id).Some? then Some(data) else None))
  }

  /** `extendItem`: the body's properties are merged into every matching record; the last
      merged record is returned. */
  function ExtendItemResult(c: Slots, idKey: string, id: Value, data: Record): (o: Outcome)
    ensures |o.slots| == |c|
    ensures forall i :: 0 <= i < |c| ==> o.slots[i] == if Matches(c[i], idKey, id) then Some(Extend(c[i].value, data)) else c[i]
    ensures o.response == FoundReply(MergedFound(LastMatch(c, idKey, id), data))
  {
    Outcome(ExtendMatching(c, idKey, id, data), FoundReply(MergedFound(LastMatch(c, idKey, id), data)))
  }

  /** `extend(found, data)` for a record that was found, `null` otherwise. */
  function MergedFound(found: Option<Record>, data: Record): (m: Option<Record>)
    ensures m.Some? <==> found.Some?
    ensures found.Some? ==> m.value == Extend(found.value, data)
  {
    match found
    case Some(r) => Some(Extend(r, data))
    case None => None
  }

  /** `found` after one more slot of `extendItem`'s traversal: the merged slot when it
      matches, the earlier answer otherwise. */
  lemma MergedFoundSnoc(c: Slots, i: nat, idKey: string, id: Value, data: Record)
    requires i < |c|
    ensures MergedFound(LastMatch(c[..i + 1], idKey, id), data)
      == if Matches(c[i], idKey, id) then MergeSlot(c[i], idKey, id, data) else MergedFound(LastMatch(c[..i], idKey, id), data)
  {
    LastMatchSnoc(c, i, idKey, id);
  }

  /** `replaceCollection`: the body (wrapped when it is not an array) becomes the collection. */
  function ReplaceCollectionResult(collectionKey: string, countKey: string, data: Body): (o: Outcome)
    requires !data.NoBody?
    ensures o.slots == Present(BodyRecords(data))
    ensures o.response == EnvelopeReply(collectionKey, countKey, BodyRecords(data), |BodyRecords(data)|)
  {
    var rs := BodyRecords(data);
    Outcome(Present(rs), EnvelopeReply(collectionKey, countKey, rs, |rs|))
  }

  /** The records at the given positions, read when the response is serialised: `found`
      holds references, so later merges into a record show in every entry for it. */
  function Resolve(c: Slots, found: seq<nat>): (rs: seq<Record>)
    requires forall k :: 0 <= k < |found| ==> found[k] < |c| && c[found[k]].Some?
    ensures |rs| == |found| && forall k :: 0 <= k < |found| ==> Some(rs[k]) == c[found[k]]
  {
    seq(|found|, k requires 0 <= k < |found| => c[found[k]].value)
  }

  /** `extendCollection`: each body element is merged into the records its id matches, and
      every merge pushes the record onto `found`. Without a body the one element is undefined,
      which no record can be compared with; on a collection with no record the inner loop
      never runs, so nothing changes and the answer is an empty list. */
  function ExtendCollectionResult(c: Slots, idKey: string, data: Body): (o: Outcome)
    requires !data.NoBody? || Compact(c) == []
    ensures !data.NoBody? ==> o.slots == ExtendEach(c, idKey, BodyRecords(data)).slots
    ensures data.NoBody? ==> o.slots == c && o.response.data == Items([])
    ensures o.response.status == Some(200) && o.response.data.Items?
  {
    if data.NoBody? then Outcome(c, Reply(200, Items([])))
    else
      var m := ExtendEach(c, idKey, BodyRecords(data));
      Outcome(m.slots, Reply(200, Items(Resolve(m.slots, m.found))))
  }

  /** `getCollection`: the envelope of the listing pipeline's page and total. */
  function GetCollectionResult(c: Slots, collectionKey: string, countKey: string, a: Aliases,
                               filters: seq<ParamFilter>, pathKeys: Option<seq<PathKey>>,
                               params: Record): (r: Response)
    ensures r.status == Some(200) && r.data.Envelope?
    ensures r.data.collectionKey == collectionKey && r.data.countKey == countKey
    ensures r.data.total == |Select(c, CriteriaOf(params, a, filters, pathKeys))|
    ensures forall x :: x in r.data.items ==> Some(x) in c && Keep(x, CriteriaOf(params, a, filters, pathKeys))
  {
    var l := List(c, a, filters, pathKeys, params);
    EnvelopeReply(collectionKey, countKey, l.items, l.total)
  }

  /** `getCollection` with `?offset=o&limit=l`: the page `slice(o, o + l)` of the filtered,
      arranged records, and the total of all that pass the filters. */
  lemma GetCollectionPage(c: Slots, collectionKey: string, countKey: string, a: Aliases,
                          filters: seq<ParamFilter>, pathKeys: Option<seq<PathKey>>,
                          params: Record, o: nat, l: nat)
    requires GetFirstParamValue(params, a.offset) == Str(NatToString(o))
    requires GetFirstParamValue(params, a.limit) == Str(NatToString(l))
    ensures var selected := Select(c, CriteriaOf(params, a, filters, pathKeys));
      var s := Arranged(selected, params, a);
      var r := GetCollectionResult(c, collectionKey, countKey, a, filters, pathKeys, params);
      r.data.items == s[AtMost(o, |s|)..AtMost(o + l, |s|)] && r.data.total == |selected|
  {
    ListPage(c, a, filters, pathKeys, params, o, l);
  }

  /** `?offset=1&limit=1` on a collection of at least two records, without custom filters,
      lists its second record and counts them all. */
  lemma SecondRecordPage(rs: seq<Record>, collectionKey: string, countKey: string,
                         pathKeys: Option<seq<PathKey>>)
    requires |rs| >= 2
    ensures GetCollectionResult(Present(rs), collectionKey, countKey, DefaultAliases, [], pathKeys, PagingQuery(1, 1))
            == EnvelopeReply(collectionKey, countKey, [rs[1]], |rs|)
  {
    PageOfAll(Present(rs), pathKeys, 1, 1);
    CompactPresent(rs);
    SliceOne(rs, 1);
  }

  // ---- How the operations relate ----

  /** A record added under a fresh id is what `getItem` then finds for that id. */
  lemma AddThenGet(c: Slots, idKey: string, item: Record)
    requires forall i :: 0 <= i < |c| ==> !Matches(c[i], idKey, Get(item, idKey))
    ensures GetItemResult(AddItemResult(c, item).slots, idKey, Get(item, idKey)) == Reply(200, Item(item))
  {
    var c' := AddItemResult(c, item).slots;
    assert Matches(c'[|c|], idKey, Get(item, idKey));
    assert FirstMatch(c', idKey, Get(item, idKey)) == |c|;
  }

  /** After `deleteItem`, the id is gone: `getItem` answers 404, and a second delete too. */
  lemma DeleteThenGet(c: Slots, idKey: string, id: Value)
    ensures GetItemResult(DeleteItemResult(c, idKey, id).slots, idKey, id) == Reply(404, Scalar(Undefined))
    ensures DeleteItemResult(DeleteItemResult(c, idKey, id).slots, idKey, id)
            == Outcome(DeleteItemResult(c, idKey, id).slots, Reply(404, Scalar(Null)))
  {
    var d := DeleteItemResult(c, idKey, id).slots;
    assert forall i :: 0 <= i < |d| ==> !Matches(d[i], idKey, id);
    assert DeleteMatching(d, idKey, id) == d;
  }

  /** After `replaceItem` with a body carrying the same id, `getItem` returns the body. */
  lemma ReplaceThenGet(c: Slots, idKey: string, id: Value, data: Record)
    requires exists i :: 0 <= i < |c| && Matches(c[i], idKey, id)
    requires AreEqual(Get(data, idKey), id)
    ensures ReplaceItemResult(c, idKey, id, data).response == Reply(200, Item(data))
    ensures GetItemResult(ReplaceItemResult(c, idKey, id, data).slots, idKey, id) == Reply(200, Item(data))
  {
    var c' := ReplaceItemResult(c, idKey, id, data).slots;
    var i :| 0 <= i < |c| && Matches(c[i], idKey, id);
    assert Matches(c'[i], idKey, id);
    var f := FirstMatch(c', idKey, id);
    assert c'[f] == Some(data);
  }

  /** `extendItem` keeps every property the body does not carry and takes the others from it. */
  lemma ExtendItemMerges(c: Slots, idKey: string, id: Value, data: Record, i: nat, k: string)
    requires i < |c| && Matches(c[i], idKey, id)
    ensures ExtendItemResult(c, idKey, id, data).slots[i].Some?
    ensures Get(ExtendItemResult(c, idKey, id, data).slots[i].value, k)
            == if Get(data, k) != Undefined then Get(data, k) else Get(c[i].value, k)
  {
  }

  /** Item-level writes never move a record or change the collection's length; a slot whose
      id does not match is left as it was. */
  lemma ItemWritesStayInPlace(c: Slots, idKey: string, id: Value, data: Record, i: nat)
    requires i < |c| && !Matches(c[i], idKey, id)
    ensures DeleteItemResult(c, idKey, id).slots[i] == c[i]
    ensures ReplaceItemResult(c, idKey, id, data).slots[i] == c[i]
    ensures ExtendItemResult(c, idKey, id, data).slots[i] == c[i]
  {
  }

  /** `extendCollection` keeps the length and the holes, answers with the merged records in
      body order and then collection order, and merges into each record exactly the body
      elements whose id matches its own. */
  lemma ExtendCollectionFacts(c: Slots, idKey: string, data: Body)
    requires !data.NoBody?
    ensures ExtendEach(c, idKey, BodyRecords(data)).found == FoundOrder(c, idKey, BodyRecords(data))
    ensures var o := ExtendCollectionResult(c, idKey, data);
      |o.slots| == |c| &&
      (forall i :: 0 <= i < |c| ==> o.slots[i] == if c[i].Some? then Some(MergeInto(c[i].value, idKey, BodyRecords(data))) else None) &&
      o.response.data == Items(Resolve(o.slots, FoundOrder(c, idKey, BodyRecords(data))))
  {
    ExtendEachFacts(c, idKey, BodyRecords(data));
  }

  /** After `replaceCollection`, an unfiltered listing returns exactly the new records and
      counts them. */
  lemma ReplaceThenList(collectionKey: string, countKey: string, data: Body, a: Aliases,
                        pathKeys: Option<seq<PathKey>>)
    requires !data.NoBody?
    ensures var rs := BodyRecords(data);
      GetCollectionResult(ReplaceCollectionResult(collectionKey, countKey, data).slots,
                          collectionKey, countKey, a, [], pathKeys, [])
      == EnvelopeReply(collectionKey, countKey, rs, |rs|)
  {
    var rs := BodyRecords(data);
    ListEverything(Present(rs), a, pathKeys);
    CompactPresent(rs);
  }

  /** After `deleteCollection` every listing is empty. */
  lemma DeleteThenList(collectionKey: string, countKey: string, a: Aliases, filters: seq<ParamFilter>,
                       pathKeys: Option<seq<PathKey>>, params: Record)
    ensures GetCollectionResult(DeleteCollectionResult(collectionKey, countKey).slots,
                                collectionKey, countKey, a, filters, pathKeys, params)
            == EnvelopeReply(collectionKey, countKey, [], 0)
  {
  }
}
