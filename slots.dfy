/** The live collection of a rule. It is a JavaScript array that `deleteItem` punches holes
    into (`delete this.collection[i]`), so a slot is a record or a hole. `forEach`, `filter`
    and `map` skip holes, so a hole never matches an id. This module states, as functions on
    the whole collection, what the per-slot loops of the item operations compute. */
module Slots {
  import opened Wrappers
  import opened Values
  import opened Records

  type Slots = seq<Option<Record>>

  /** The slot holds a record whose `idKey` property equals `id` by string form. */
  predicate Matches(slot: Option<Record>, idKey: string, id: Value) {
    slot.Some? && AreEqual(Get(slot.value, idKey), id)
  }

  /** A dense array of records as a collection. */
  function Present(rs: seq<Record>): (c: Slots)
    ensures |c| == |rs| && forall i :: 0 <= i < |rs| ==> c[i] == Some(rs[i])
  {
    seq(|rs|, i requires 0 <= i < |rs| => Some(rs[i]))
  }

  /** The records a traversal visits: the present slots, in order. */
  function Compact(c: Slots): (rs: seq<Record>)
    ensures |rs| <= |c|
    ensures forall r :: r in rs <==> Some(r) in c
  {
    if c == [] then []
    else
      var rest := Compact(c[..|c| - 1]);
      assert c == c[..|c| - 1] + [c[|c| - 1]];
      if c[|c| - 1].Some? then rest + [c[|c| - 1].value] else rest
  }

  /** One slot: a present record is visited, a hole is skipped. */
  lemma CompactOne(x: Option<Record>)
    ensures Compact([x]) == if x.Some? then [x.value] else []
  {
    assert [x][..0] == [];
  }

  /** Traversal distributes over concatenation: the records of `c1`, in order, come before
      those of `c2`. With `CompactOne` this fixes order and multiplicity. */
  lemma {:induction false} CompactAppend(c1: Slots, c2: Slots)
    ensures Compact(c1 + c2) == Compact(c1) + Compact(c2)
    decreases |c2|
  {
    if c2 == [] {
      assert c1 + c2 == c1;
    } else {
      var init := c2[..|c2| - 1];
      assert (c1 + c2)[..|c1 + c2| - 1] == c1 + init;
      assert (c1 + c2)[|c1 + c2| - 1] == c2[|c2| - 1];
      CompactAppend(c1, init);
    }
  }

  /** A collection without holes is visited whole. */
  lemma {:induction false} CompactPresent(rs: seq<Record>)
    ensures Compact(Present(rs)) == rs
  {
    if rs != [] {
      assert Present(rs)[..|rs| - 1] == Present(rs[..|rs| - 1]);
      CompactPresent(rs[..|rs| - 1]);
      assert rs == rs[..|rs| - 1] + [rs[|rs| - 1]];
    }
  }

  /** Index of the first slot matching `id`, or `|c|` when none does. */
  function FirstMatch(c: Slots, idKey: string, id: Value): (i: nat)
    ensures i <= |c|
    ensures i < |c| ==> Matches(c[i], idKey, id)
    ensures forall j :: 0 <= j < i ==> !Matches(c[j], idKey, id)
  {
    if c == [] then 0 else if Matches(c[0], idKey, id) then 0 else 1 + FirstMatch(c[1..], idKey, id)
  }

  /** Slot `i` matches `id` and no later slot does. */
  predicate LastMatchAt(c: Slots, idKey: string, id: Value, i: int) {
    0 <= i < |c| && Matches(c[i], idKey, id) && forall j :: i < j < |c| ==> !Matches(c[j], idKey, id)
  }

  /** Index of the last slot matching `id`, or `-1` when none does. */
  function LastMatchIndex(c: Slots, idKey: string, id: Value): (i: int)
    ensures -1 <= i < |c|
    ensures i >= 0 ==> Matches(c[i], idKey, id)
    ensures forall j :: i < j < |c| ==> !Matches(c[j], idKey, id)
  {
    if c == [] then -1
    else if Matches(c[|c| - 1], idKey, id) then |c| - 1
    else
      var i := LastMatchIndex(c[..|c| - 1], idKey, id);
      assert forall j :: 0 <= j < |c| - 1 ==> c[..|c| - 1][j] == c[j];
      i
  }

  /** The record in the last slot matching `id`, the one a `forEach` that keeps overwriting
      `found` ends with. */
  function LastMatch(c: Slots, idKey: string, id: Value): (r: Option<Record>)
    ensures r.None? <==> forall j :: 0 <= j < |c| ==> !Matches(c[j], idKey, id)
    ensures r.Some? ==> exists i :: LastMatchAt(c, idKey, id, i) && c[i] == r
  {
    var i := LastMatchIndex(c, idKey, id);
    if i >= 0 then
      assert LastMatchAt(c, idKey, id, i);
      c[i]
    else None
  }

  /** The positions of the slots matching `id`, in increasing order. */
  function MatchIndices(c: Slots, idKey: string, id: Value): seq<nat> {
    if c == [] then []
    else MatchIndices(c[..|c| - 1], idKey, id) + if Matches(c[|c| - 1], idKey, id) then [|c| - 1] else []
  }

  /** `MatchIndices` lists only matching positions, in increasing order. */
  lemma {:induction false} MatchIndicesSound(c: Slots, idKey: string, id: Value)
    ensures forall k :: 0 <= k < |MatchIndices(c, idKey, id)| ==>
      MatchIndices(c, idKey, id)[k] < |c| && Matches(c[MatchIndices(c, idKey, id)[k]], idKey, id)
    ensures forall k, l :: 0 <= k < l < |MatchIndices(c, idKey, id)| ==>
      MatchIndices(c, idKey, id)[k] < MatchIndices(c, idKey, id)[l]
  {
    if c != [] {
      var pre := c[..|c| - 1];
      var rest := MatchIndices(pre, idKey, id);
      MatchIndicesSound(pre, idKey, id);
      assert forall j :: 0 <= j < |pre| ==> pre[j] == c[j];
      var ix := MatchIndices(c, idKey, id);
      assert forall k :: 0 <= k < |rest| ==> ix[k] == rest[k];
    }
  }

  /** `MatchIndices` lists every matching position. */
  lemma {:induction false} MatchIndicesComplete(c: Slots, idKey: string, id: Value)
    ensures forall i :: 0 <= i < |c| && Matches(c[i], idKey, id) ==> i in MatchIndices(c, idKey, id)
  {
    if c != [] {
      var pre := c[..|c| - 1];
      MatchIndicesComplete(pre, idKey, id);
      assert forall j :: 0 <= j < |pre| ==> pre[j] == c[j];
    }
  }

  lemma {:induction false} NoMatchNoIndices(c: Slots, idKey: string, id: Value)
    requires forall i :: 0 <= i < |c| ==> !Matches(c[i], idKey, id)
    ensures MatchIndices(c, idKey, id) == []
  {
    if c != [] {
      NoMatchNoIndices(c[..|c| - 1], idKey, id);
    }
  }

  /** `LastMatch` of one more slot, as a left-to-right traversal updates `found`. */
  lemma LastMatchSnoc(c: Slots, i: nat, idKey: string, id: Value)
    requires i < |c|
    ensures LastMatch(c[..i + 1], idKey, id) == if Matches(c[i], idKey, id) then c[i] else LastMatch(c[..i], idKey, id)
  {
    assert c[..i + 1][..i] == c[..i];
    if !Matches(c[i], idKey, id) {
      var k := LastMatchIndex(c[..i], idKey, id);
      assert LastMatchIndex(c[..i + 1], idKey, id) == k;
      assert k >= 0 ==> c[..i + 1][k] == c[..i][k];
    }
  }

  /** `MatchIndices` of one more slot, as a left-to-right traversal pushes positions. */
  lemma MatchIndicesSnoc(c: Slots, i: nat, idKey: string, id: Value)
    requires i < |c|
    ensures MatchIndices(c[..i + 1], idKey, id) == MatchIndices(c[..i], idKey, id) + if Matches(c[i], idKey, id) then [i] else []
  {
    assert c[..i + 1][..i] == c[..i];
  }

  /** Two collections whose slots match the same ids have the same match positions. */
  lemma {:induction false} MatchIndicesAgree(c: Slots, d: Slots, idKey: string, id: Value)
    requires |c| == |d|
    requires forall i :: 0 <= i < |c| ==> (Matches(c[i], idKey, id) <==> Matches(d[i], idKey, id))
    ensures MatchIndices(c, idKey, id) == MatchIndices(d, idKey, id)
  {
    if c != [] {
      MatchIndicesAgree(c[..|c| - 1], d[..|d| - 1], idKey, id);
    }
  }

  /** `deleteItem`'s loop: every matching slot becomes a hole, nothing moves. */
  function DeleteMatching(c: Slots, idKey: string, id: Value): (c': Slots)
    ensures |c'| == |c|
    ensures forall i :: 0 <= i < |c| ==> c'[i] == if Matches(c[i], idKey, id) then None else c[i]
  {
    seq(|c|, i requires 0 <= i < |c| => if Matches(c[i], idKey, id) then None else c[i])
  }

  /** `replaceItem`'s loop: every matching slot is overwritten with `data`. */
  function ReplaceMatching(c: Slots, idKey: string, id: Value, data: Record): (c': Slots)
    ensures |c'| == |c|
    ensures forall i :: 0 <= i < |c| ==> c'[i] == if Matches(c[i], idKey, id) then Some(data) else c[i]
  {
    seq(|c|, i requires 0 <= i < |c| => if Matches(c[i], idKey, id) then Some(data) else c[i])
  }

  /** One slot under `extendItem`'s loop: merged when it matches, untouched otherwise. */
  function MergeSlot(slot: Option<Record>, idKey: string, id: Value, data: Record): Option<Record> {
    if Matches(slot, idKey, id) then Some(Extend(slot.value, data)) else slot
  }

  /** `extendItem`'s loop: `data` is merged into every matching record. */
  function ExtendMatching(c: Slots, idKey: string, id: Value, data: Record): (c': Slots)
    ensures |c'| == |c|
    ensures forall i :: 0 <= i < |c| ==> c'[i] == MergeSlot(c[i], idKey, id, data)
  {
    seq(|c|, i requires 0 <= i < |c| => MergeSlot(c[i], idKey, id, data))
  }

  /** Merging a body element into the records its own id matches keeps every slot's id
      string: a slot matches any id afterwards exactly when it did before. */
  lemma ExtendMatchingKeepsIds(c: Slots, idKey: string, e: Record, other: Value)
    ensures forall i :: 0 <= i < |c| ==>
      (Matches(ExtendMatching(c, idKey, Get(e, idKey), e)[i], idKey, other) <==> Matches(c[i], idKey, other))
  {
  }

  /** The state of `extendCollection` after some body elements: the collection, and the
      positions pushed onto `found` (the source pushes references to these slots). */
  datatype Merged = Merged(slots: Slots, found: seq<nat>)

  /** `extendCollection`'s nested loops over the body elements `es`, in order. */
  function ExtendEach(c: Slots, idKey: string, es: seq<Record>): (m: Merged)
    ensures |m.slots| == |c|
    ensures forall i :: 0 <= i < |c| ==> (m.slots[i].Some? <==> c[i].Some?)
    ensures forall k :: 0 <= k < |m.found| ==> m.found[k] < |c| && m.slots[m.found[k]].Some?
  {
    if es == [] then Merged(c, [])
    else
      var m := ExtendEach(c, idKey, es[..|es| - 1]);
      var e := es[|es| - 1];
      var ix := MatchIndices(m.slots, idKey, Get(e, idKey));
      MatchIndicesSound(m.slots, idKey, Get(e, idKey));
      var found := m.found + ix;
      assert forall k :: |m.found| <= k < |found| ==> found[k] == ix[k - |m.found|];
      Merged(ExtendMatching(m.slots, idKey, Get(e, idKey), e), found)
  }

  /** What one record becomes under `extendCollection`: every body element whose id matches
      the record's own id is merged into it, in body order. */
  function MergeInto(r: Record, idKey: string, es: seq<Record>): (m: Record)
    ensures ToStr(Get(m, idKey)) == ToStr(Get(r, idKey))
    ensures forall k :: Get(r, k) != Undefined ==> Get(m, k) != Undefined
  {
    if es == [] then r
    else
      var e := es[|es| - 1];
      var m := MergeInto(r, idKey, es[..|es| - 1]);
      if AreEqual(Get(r, idKey), Get(e, idKey)) then Extend(m, e) else m
  }

  /** The concatenation, over the body elements in order, of the positions each one matches
      in the collection as it was before the call. */
  function FoundOrder(c: Slots, idKey: string, es: seq<Record>): (ix: seq<nat>)
  {
    if es == [] then []
    else FoundOrder(c, idKey, es[..|es| - 1]) + MatchIndices(c, idKey, Get(es[|es| - 1], idKey))
  }

  /** `extendCollection` never changes which ids a slot matches, so each body element meets
      the same slots it would have met in the original collection. */
  lemma {:induction false} ExtendEachFacts(c: Slots, idKey: string, es: seq<Record>)
    ensures forall i :: 0 <= i < |c| ==>
      ExtendEach(c, idKey, es).slots[i] == if c[i].Some? then Some(MergeInto(c[i].value, idKey, es)) else None
    ensures ExtendEach(c, idKey, es).found == FoundOrder(c, idKey, es)
  {
    if es != [] {
      var b, e := es[..|es| - 1], es[|es| - 1];
      ExtendEachFacts(c, idKey, b);
      var m := ExtendEach(c, idKey, b);
      forall i | 0 <= i < |c|
        ensures Matches(m.slots[i], idKey, Get(e, idKey)) <==> Matches(c[i], idKey, Get(e, idKey))
      {
      }
      MatchIndicesAgree(m.slots, c, idKey, Get(e, idKey));
    }
  }

  /** A body element whose id matches no record leaves the collection and `found` alone. */
  lemma UnmatchedElementIsInert(c: Slots, idKey: string, es: seq<Record>, e: Record)
    requires forall i :: 0 <= i < |c| ==> !Matches(c[i], idKey, Get(e, idKey))
    ensures ExtendEach(c, idKey, es + [e]).slots == ExtendEach(c, idKey, es).slots
    ensures ExtendEach(c, idKey, es + [e]).found == ExtendEach(c, idKey, es).found
  {
    assert (es + [e])[..|es|] == es;
    ExtendEachFacts(c, idKey, es);
    ExtendEachFacts(c, idKey, es + [e]);
    var m, m' := ExtendEach(c, idKey, es), ExtendEach(c, idKey, es + [e]);
    forall i | 0 <= i < |c| ensures m'.slots[i] == m.slots[i] {
      if c[i].Some? {
        assert MergeInto(c[i].value, idKey, es + [e]) == MergeInto(c[i].value, idKey, es);
      }
    }
    NoMatchNoIndices(c, idKey, Get(e, idKey));
  }
}
