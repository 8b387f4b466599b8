/** The fixed pipeline of `getCollection` (middlewarerule.js): text search, equality filters
    on the remaining query parameters, custom `paramFilters`, an optional sort, and an
    offset/limit slice of the result, with the size of the filtered set reported beside it. */
module Listing {
  import opened Wrappers
  import opened Values
  import opened Records
  import opened Messages
  import opened Slots
  import opened Sorting

  /** The parameter names each special parameter may be given under. */
  datatype Aliases = Aliases(offset: seq<string>, limit: seq<string>, query: seq<string>,
                             sortBy: seq<string>, sortDir: seq<string>)

  /** The names used when a rule's options set none. */
  const DefaultAliases := Aliases(["offset"], ["limit"], ["q", "query"], ["sortBy"], ["sortDir"])

  /** `getFirstParamValue(obj, searchKeys)`: the value of the first property of `obj`, in
      property order, whose name is one of `searchKeys`; undefined when there is none. */
  function GetFirstParamValue(obj: seq<Field>, searchKeys: seq<string>): (v: Value)
    ensures (forall j :: 0 <= j < |obj| ==> obj[j].key !in searchKeys) ==> v == Undefined
    ensures forall i :: (0 <= i < |obj| && obj[i].key in searchKeys &&
                         (forall j :: 0 <= j < i ==> obj[j].key !in searchKeys)) ==> v == obj[i].value
  {
    if obj == [] then Undefined
    else if obj[0].key in searchKeys then obj[0].value
    else
      var v := GetFirstParamValue(obj[1..], searchKeys);
      assert forall j :: 1 <= j < |obj| ==> obj[1..][j - 1] == obj[j];
      v
  }

  /** With a single name the search is an ordinary property lookup. */
  lemma FirstParamOfOneName(obj: Record, k: string)
    ensures GetFirstParamValue(obj, [k]) == Get(obj, k)
  {
    if HasKey(obj, k) {
      var i := KeyIndex(obj, k);
      assert forall j :: 0 <= j < i ==> obj[j].key !in [k];
    } else {
      assert forall j :: 0 <= j < |obj| ==> obj[j].key !in [k];
    }
  }

  /** The parameters' order decides, not the aliases' order: `?query=a&q=b` searches for
      `a` although `q` is listed first among the search aliases. */
  lemma ParamOrderWins()
    ensures GetFirstParamValue([Field("query", Str("a")), Field("q", Str("b"))], ["q", "query"]) == Str("a")
  {
    var obj := [Field("query", Str("a")), Field("q", Str("b"))];
    assert obj[0].key in ["q", "query"];
  }

  /** `specialParams`: every alias of every special parameter. */
  function SpecialParams(a: Aliases): (names: seq<string>)
    ensures forall k :: k in names <==> k in a.offset || k in a.limit || k in a.query || k in a.sortBy || k in a.sortDir
  {
    a.offset + a.limit + a.query + a.sortBy + a.sortDir
  }

  /** The parameter names the custom filters read. */
  function FilterParams(filters: seq<ParamFilter>): (names: seq<string>)
    ensures |names| == |filters| && forall i :: 0 <= i < |filters| ==> names[i] == filters[i].param
  {
    seq(|filters|, i requires 0 <= i < |filters| => filters[i].param)
  }

  /** `k` names a parameter of the rule's path template. Unnamed groups have numeric names,
      which never equal a property name under `!==`. A rule built without compiled keys
      (`path.keys` missing) has no path parameters to exclude. */
  predicate IsPathParam(pathKeys: Option<seq<PathKey>>, k: string) {
    pathKeys.Some? && Named(k) in pathKeys.value
  }

  /** A name that is an ordinary equality filter: not special, not read by a custom filter,
      not a path parameter. */
  predicate IsPlainParam(k: string, special: seq<string>, custom: seq<string>, pathKeys: Option<seq<PathKey>>) {
    k !in special && k !in custom && !IsPathParam(pathKeys, k)
  }

  /** The three `filter` calls over `Object.keys(filteredParams)`, applied to `keys`. */
  function PlainKeys(keys: seq<string>, special: seq<string>, custom: seq<string>,
                     pathKeys: Option<seq<PathKey>>): (ks: seq<string>)
    ensures forall k :: k in ks <==> k in keys && IsPlainParam(k, special, custom, pathKeys)
    ensures |ks| <= |keys|
  {
    if keys == [] then []
    else
      var rest := PlainKeys(keys[..|keys| - 1], special, custom, pathKeys);
      var k := keys[|keys| - 1];
      assert keys == keys[..|keys| - 1] + [k];
      if IsPlainParam(k, special, custom, pathKeys) then rest + [k] else rest
  }

  /** `nonSpecialParams`. */
  function NonSpecialKeys(params: Record, a: Aliases, filters: seq<ParamFilter>,
                          pathKeys: Option<seq<PathKey>>): (ks: seq<string>)
    ensures forall k :: k in ks <==> HasKey(params, k) && IsPlainParam(k, SpecialParams(a), FilterParams(filters), pathKeys)
    ensures |ks| <= |params|
  {
    var ks := PlainKeys(Keys(params), SpecialParams(a), FilterParams(filters), pathKeys);
    assert forall k :: k in Keys(params) <==> HasKey(params, k) by {
      forall k ensures k in Keys(params) <==> HasKey(params, k) {
        if k in Keys(params) {
          var i :| 0 <= i < |params| && Keys(params)[i] == k;
          assert KeyIndex(params, k) <= i;
        }
        if HasKey(params, k) {
          assert Keys(params)[KeyIndex(params, k)] == k;
        }
      }
    }
    ks
  }

  /** What the `filter` callback over the collection tests. */
  datatype Criteria = Criteria(search: Option<string>, equal: seq<string>, params: Record,
                               filters: seq<ParamFilter>)

  /** The text query occurs in the string form of some property of the record. */
  predicate PassesSearch(item: Record, search: Option<string>) {
    search.None? || exists i :: 0 <= i < |item| && Contains(ToStr(item[i].value), search.value)
  }

  /** Every plain parameter whose value is defined equals the record's property by string form. */
  predicate PassesEquality(item: Record, keys: seq<string>, params: Record) {
    forall k :: k in keys ==> Get(params, k) == Undefined || AreEqual(Get(item, k), Get(params, k))
  }

  /** Every custom filter accepts the record, given its parameter's value (undefined when absent). */
  predicate PassesCustom(item: Record, filters: seq<ParamFilter>, params: Record) {
    forall i :: 0 <= i < |filters| ==> filters[i].filter(item, Get(params, filters[i].param))
  }

  /** `matchesAll` for one record. */
  predicate Keep(item: Record, crit: Criteria) {
    PassesSearch(item, crit.search) && PassesEquality(item, crit.equal, crit.params)
    && PassesCustom(item, crit.filters, crit.params)
  }

  /** The `filter` callback over the collection, step by step: the text search over the
      record's keys (`some`, which stops at the first hit), then one `&&` per plain
      parameter, then one per custom filter. */
  method MatchesAll(item: Record, crit: Criteria) returns (matchesAll: bool)
    ensures matchesAll == Keep(item, crit)
  {
    matchesAll := true;
    if crit.search.Some? {
      matchesAll := SomePropertyContains(item, crit.search.value);
    }
    for n := 0 to |crit.equal|
      invariant matchesAll <==> (PassesSearch(item, crit.search) &&
        forall m :: 0 <= m < n ==> (Get(crit.params, crit.equal[m]) == Undefined ||
                                   AreEqual(Get(item, crit.equal[m]), Get(crit.params, crit.equal[m]))))
    {
      var key := crit.equal[n];
      matchesAll := matchesAll && (Get(crit.params, key) == Undefined || AreEqual(Get(item, key), Get(crit.params, key)));
    }
    for n := 0 to |crit.filters|
      invariant matchesAll <==> (PassesSearch(item, crit.search) && PassesEquality(item, crit.equal, crit.params) &&
        forall m :: 0 <= m < n ==> crit.filters[m].filter(item, Get(crit.params, crit.filters[m].param)))
    {
      var val := Get(crit.params, crit.filters[n].param);
      matchesAll := matchesAll && crit.filters[n].filter(item, val);
    }
  }

  /** `Object.keys(item).some(key => String(item[key]).indexOf(text) > -1)`, stopping at the
      first property that contains the text. */
  method SomePropertyContains(item: Record, text: string) returns (hit: bool)
    ensures hit <==> exists j :: 0 <= j < |item| && Contains(ToStr(item[j].value), text)
  {
    hit := false;
    var i := 0;
    while i < |item| && !hit
      invariant 0 <= i <= |item|
      invariant hit <==> exists j :: 0 <= j < i && Contains(ToStr(item[j].value), text)
    {
      hit := Contains(ToStr(item[i].value), text);
      i := i + 1;
    }
  }

  /** `getFirstParamValue(filteredParams, queryParams) || null`, used when truthy, and
      compared by `indexOf`, which takes its argument's string form. */
  function TextSearch(params: Record, a: Aliases): (s: Option<string>)
    ensures s.Some? <==> Truthy(GetFirstParamValue(params, a.query))
    ensures s.Some? ==> s.value == ToStr(GetFirstParamValue(params, a.query)) && s.value != ""
  {
    var q := GetFirstParamValue(params, a.query);
    if Truthy(q) then Some(ToStr(q)) else None
  }

  /** The criteria the collection is filtered by, read off the prefiltered parameters. */
  function CriteriaOf(params: Record, a: Aliases, filters: seq<ParamFilter>,
                      pathKeys: Option<seq<PathKey>>): Criteria {
    Criteria(TextSearch(params, a), NonSpecialKeys(params, a, filters, pathKeys), params, filters)
  }

  /** `this.collection.filter(...)`: the present records that pass, in collection order. */
  function Select(c: Slots, crit: Criteria): (rs: seq<Record>)
    ensures forall r :: r in rs <==> Some(r) in c && Keep(r, crit)
    ensures |rs| <= |c|
  {
    if c == [] then []
    else
      var rest := Select(c[..|c| - 1], crit);
      var last := c[|c| - 1];
      assert c == c[..|c| - 1] + [last];
      if last.Some? && Keep(last.value, crit) then rest + [last.value] else rest
  }

  /** A filter every record passes selects exactly the records a traversal visits. */
  lemma {:induction false} SelectEverything(c: Slots, crit: Criteria)
    requires forall r :: Some(r) in c ==> Keep(r, crit)
    ensures Select(c, crit) == Compact(c)
  {
    if c != [] {
      assert forall r :: Some(r) in c[..|c| - 1] ==> Some(r) in c;
      SelectEverything(c[..|c| - 1], crit);
      assert c[|c| - 1] in c;
    }
  }

  /** One slot: a present record is selected when it passes; a hole never is. */
  lemma SelectOne(x: Option<Record>, crit: Criteria)
    ensures Select([x], crit) == if x.Some? && Keep(x.value, crit) then [x.value] else []
  {
    assert [x][..0] == [];
  }

  /** Filtering distributes over concatenation: what `c1` contributes, in order, comes before
      what `c2` contributes. With `SelectOne` this fixes order and multiplicity. */
  lemma {:induction false} SelectAppend(c1: Slots, c2: Slots, crit: Criteria)
    ensures Select(c1 + c2, crit) == Select(c1, crit) + Select(c2, crit)
    decreases |c2|
  {
    if c2 == [] {
      assert c1 + c2 == c1;
    } else {
      var init := c2[..|c2| - 1];
      assert (c1 + c2)[..|c1 + c2| - 1] == c1 + init;
      assert (c1 + c2)[|c1 + c2| - 1] == c2[|c2| - 1];
      SelectAppend(c1, init, crit);
    }
  }

  /** `Select` keeps no more records than `Compact`, and keeps them all only when every
      present record passes. */
  lemma {:induction false} SelectAtMostCompact(c: Slots, crit: Criteria)
    ensures |Select(c, crit)| <= |Compact(c)|
    ensures Select(c, crit) == Compact(c) ==> forall r :: Some(r) in c ==> Keep(r, crit)
  {
    if c != [] {
      SelectAtMostCompact(c[..|c| - 1], crit);
    }
  }

  /** The direction: `(sortDir || 'asc').toLowerCase() === 'desc'`. */
  function Descending(params: Record, a: Aliases): (desc: bool)
    ensures desc <==> var d := GetFirstParamValue(params, a.sortDir); d.Str? && Lower(d.s) == "desc"
  {
    var d := GetFirstParamValue(params, a.sortDir);
    var dir := if Truthy(d) then d else Str("asc");
    dir.Str? && Lower(dir.s) == "desc"
  }

  /** Without a direction parameter the sort is ascending; `DESC` in any case is descending. */
  lemma DescendingCases(params: Record, a: Aliases)
    ensures (forall i :: 0 <= i < |params| ==> params[i].key !in a.sortDir) ==> !Descending(params, a)
    ensures forall i :: (0 <= i < |params| && params[i].key in a.sortDir && params[i].value == Str("DESC") &&
                         (forall j :: 0 <= j < i ==> params[j].key !in a.sortDir)) ==> Descending(params, a)
  {
    assert Lower("asc") != "desc" by {
      assert Lower("asc")[0] == 'a';
    }
    assert Lower("DESC") == "desc";
  }

  /** The filtered records in the order they are returned: sorted by the property named by
      the `sortBy` parameter when it is truthy, in collection order otherwise. */
  function Arranged(selected: seq<Record>, params: Record, a: Aliases): (s: seq<Record>)
    ensures multiset(s) == multiset(selected) && |s| == |selected|
    ensures forall x :: x in s <==> x in selected
  {
    var sortBy := GetFirstParamValue(params, a.sortBy);
    if Truthy(sortBy) then
      SortPermutes(selected, ToStr(sortBy), Descending(params, a));
      SortKeepsMembers(selected, ToStr(sortBy), Descending(params, a));
      SortedBy(selected, ToStr(sortBy), Descending(params, a))
    else selected
  }

  /** A JavaScript number as far as paging needs one: an integer, or NaN. */
  datatype Number = Finite(n: int) | NaN

  predicate IsSpace(c: char) {
    c == ' ' || c == '\t' || c == '\n' || c == '\r' || c == '\U{000B}' || c == '\U{000C}'
  }

  /** The number of leading characters of `s` satisfying the digit test. */
  function DigitPrefix(s: string): (n: nat)
    ensures n <= |s| && AllDigits(s[..n]) && (n < |s| ==> !IsDigit(s[n]))
  {
    if s == [] || !IsDigit(s[0]) then 0
    else
      var n := DigitPrefix(s[1..]);
      assert s[..n + 1] == [s[0]] + s[1..][..n];
      1 + n
  }

  /** `parseInt(s, 10)`: leading white space is skipped, an optional sign is read, then the
      longest run of decimal digits; NaN when there are no digits. */
  function ParseInt(s: string): (r: Number)
    decreases |s|
  {
    if s != [] && IsSpace(s[0]) then ParseInt(s[1..])
    else
      var neg := s != [] && s[0] == '-';
      var body := if s != [] && (s[0] == '-' || s[0] == '+') then s[1..] else s;
      var n := DigitPrefix(body);
      if n == 0 then NaN
      else if neg then Finite(0 - DigitsValue(body[..n]) as int)
      else Finite(DigitsValue(body[..n]))
  }

  /** The digit prefix of digits followed by a non-digit is all of them. */
  lemma DigitPrefixOfDigits(d: string, rest: string)
    requires AllDigits(d) && (rest == [] || !IsDigit(rest[0]))
    ensures DigitPrefix(d + rest) == |d|
    decreases |d|
  {
    if d != [] {
      assert (d + rest)[1..] == d[1..] + rest;
      DigitPrefixOfDigits(d[1..], rest);
    }
  }

  /** `parseInt(String(n) + rest)` reads back `n` when `rest` does not continue the digits:
      a numeric parameter, or text such as `10px`. */
  lemma ParseIntReadsNumber(n: int, rest: string)
    requires rest == [] || !IsDigit(rest[0])
    ensures ParseInt(ToStr(Num(n)) + rest) == Finite(n)
  {
    var m: nat := if n < 0 then -n else n;
    var d := NatToString(m);
    DigitPrefixOfDigits(d, rest);
    DigitsRoundTrip(m);
    assert (d + rest)[..|d|] == d;
    if n < 0 {
      assert ToStr(Num(n)) + rest == "-" + (d + rest);
      assert ("-" + (d + rest))[1..] == d + rest;
    }
  }

  /** Text with no digit after the optional sign reads as NaN. */
  lemma ParseIntNaN(s: string)
    requires s != [] && !IsSpace(s[0]) && !IsDigit(s[0]) && s[0] != '-' && s[0] != '+'
    ensures ParseInt(s) == NaN
  {
  }

  /** `v ? parseInt(v, 10) : d`. */
  function CountParam(v: Value, d: int): (r: Number)
    ensures !Truthy(v) ==> r == Finite(d)
    ensures v.Num? && v.n != 0 ==> r == Finite(v.n)
  {
    if !Truthy(v) then Finite(d)
    else if v.Num? then
      ParseIntReadsNumber(v.n, []);
      assert ToStr(v) + [] == ToStr(v);
      ParseInt(ToStr(v))
    else ParseInt(ToStr(v))
  }

  /** `offset + limit`. */
  function Add(x: Number, y: Number): Number {
    if x.Finite? && y.Finite? then Finite(x.n + y.n) else NaN
  }

  /** Where `slice` starts or stops for an argument: NaN counts as 0, a negative value counts
      from the end, and the result is clamped to the array. */
  function SliceIndex(x: Number, len: nat): (i: nat)
    ensures i <= len
    ensures x == NaN ==> i == 0
    ensures x.Finite? && 0 <= x.n ==> i == if x.n < len then x.n else len
    ensures x.Finite? && x.n < 0 ==> i == if len + x.n < 0 then 0 else len + x.n
  {
    match x
    case NaN => 0
    case Finite(n) =>
      if n < 0 then (if len + n < 0 then 0 else len + n)
      else if n < len then n else len
  }

  /** `items` is the run of `s` that starts at position `from`. */
  predicate WindowAt(items: seq<Record>, s: seq<Record>, from: nat) {
    from + |items| <= |s| && items == s[from..from + |items|]
  }

  /** `s.slice(start, end)`. */
  function Slice(s: seq<Record>, start: Number, end: Number): (r: seq<Record>)
    ensures var from, to := SliceIndex(start, |s|), SliceIndex(end, |s|);
      |r| == (if from < to then to - from else 0) && WindowAt(r, s, from)
    ensures forall x :: x in r ==> x in s
  {
    var from, to := SliceIndex(start, |s|), SliceIndex(end, |s|);
    if from < to then s[from..to] else []
  }

  /** Paging from offset 0 with a limit covering the whole sequence returns it whole. */
  lemma SliceWhole(s: seq<Record>, limit: int)
    requires |s| <= limit
    ensures Slice(s, Finite(0), Add(Finite(0), Finite(limit))) == s
  {
    assert s[0..|s|] == s;
  }

  /** What `getCollection` returns: the page of records and the size of the filtered set. */
  datatype Listed = Listed(items: seq<Record>, total: nat)

  /** The list pipeline, over the collection `c` and the prefiltered parameters. */
  function List(c: Slots, a: Aliases, filters: seq<ParamFilter>, pathKeys: Option<seq<PathKey>>,
                params: Record): (r: Listed)
    ensures r.total == |Select(c, CriteriaOf(params, a, filters, pathKeys))|
    ensures forall x :: x in r.items ==> Some(x) in c && Keep(x, CriteriaOf(params, a, filters, pathKeys))
    ensures exists from :: WindowAt(r.items, Arranged(Select(c, CriteriaOf(params, a, filters, pathKeys)), params, a), from)
    ensures var offset := CountParam(GetFirstParamValue(params, a.offset), 0);
      var limit := CountParam(GetFirstParamValue(params, a.limit), |c|);
      r.items == Slice(Arranged(Select(c, CriteriaOf(params, a, filters, pathKeys)), params, a), offset, Add(offset, limit))
  {
    var selected := Select(c, CriteriaOf(params, a, filters, pathKeys));
    var arranged := Arranged(selected, params, a);
    var offset := CountParam(GetFirstParamValue(params, a.offset), 0);
    var limit := CountParam(GetFirstParamValue(params, a.limit), |c|);
    var items := Slice(arranged, offset, Add(offset, limit));
    Listed(items, |selected|)
  }

  /** Without paging parameters the whole filtered, arranged set is returned: offset 0 and
      a limit of the collection's length (holes included), which is never short. */
  lemma ListWithoutPaging(c: Slots, a: Aliases, filters: seq<ParamFilter>, pathKeys: Option<seq<PathKey>>,
                          params: Record)
    requires forall i :: 0 <= i < |params| ==> params[i].key !in a.offset && params[i].key !in a.limit
    ensures List(c, a, filters, pathKeys, params).items
            == Arranged(Select(c, CriteriaOf(params, a, filters, pathKeys)), params, a)
  {
    var arranged := Arranged(Select(c, CriteriaOf(params, a, filters, pathKeys)), params, a);
    SliceWhole(arranged, |c|);
  }

  /** A request without parameters, on a rule without custom filters, lists every record
      of the collection in order, and counts them. */
  lemma ListEverything(c: Slots, a: Aliases, pathKeys: Option<seq<PathKey>>)
    ensures List(c, a, [], pathKeys, []) == Listed(Compact(c), |Compact(c)|)
  {
    var crit := CriteriaOf([], a, [], pathKeys);
    assert crit.search == None;
    assert crit.equal == [];
    forall r | Some(r) in c ensures Keep(r, crit) {
    }
    SelectEverything(c, crit);
    ListWithoutPaging(c, a, [], pathKeys, []);
  }

  /** `x`, or `len` when `x` lies beyond it. */
  function AtMost(x: nat, len: nat): (r: nat)
    ensures r <= len && r <= x && (r == x || r == len)
  {
    if x < len then x else len
  }

  /** The parameter text `String(n)` of a non-negative `n` reads as `n`, whatever the default. */
  lemma DecimalCount(n: nat, d: int)
    ensures CountParam(Str(NatToString(n)), d) == Finite(n)
  {
    ParseIntReadsNumber(n, []);
    assert NatToString(n) + [] == NatToString(n);
  }

  /** `s.slice(o, o + l)` for non-negative `o` and `l`: from `o` up to, not including,
      `o + l`, both clamped to the end. */
  lemma SliceFinite(s: seq<Record>, o: nat, l: nat)
    ensures Slice(s, Finite(o), Add(Finite(o), Finite(l))) == s[AtMost(o, |s|)..AtMost(o + l, |s|)]
  {
    assert s[|s|..|s|] == [];
  }

  /** A slice of length one is the element. */
  lemma SliceOne(s: seq<Record>, i: nat)
    requires i < |s|
    ensures s[i..i + 1] == [s[i]]
  {
  }

  /** A slice up to the length is the suffix. */
  lemma SliceToEnd(s: seq<Record>, i: nat)
    requires i <= |s|
    ensures s[i..|s|] == s[i..]
  {
  }

  /** The page paging selects: with offset `o` and limit `l` the records of the filtered,
      arranged set from position `o` up to, not including, `o + l`, both clamped to its end. */
  lemma ListWindow(c: Slots, a: Aliases, filters: seq<ParamFilter>, pathKeys: Option<seq<PathKey>>,
                   params: Record, o: nat, l: nat)
    requires CountParam(GetFirstParamValue(params, a.offset), 0) == Finite(o)
    requires CountParam(GetFirstParamValue(params, a.limit), |c|) == Finite(l)
    ensures var s := Arranged(Select(c, CriteriaOf(params, a, filters, pathKeys)), params, a);
      List(c, a, filters, pathKeys, params).items == s[AtMost(o, |s|)..AtMost(o + l, |s|)]
  {
    var s := Arranged(Select(c, CriteriaOf(params, a, filters, pathKeys)), params, a);
    SliceFinite(s, o, l);
  }

  /** `?offset=o&limit=l` lists `arranged.slice(o, o + l)`. */
  lemma ListPage(c: Slots, a: Aliases, filters: seq<ParamFilter>, pathKeys: Option<seq<PathKey>>,
                 params: Record, o: nat, l: nat)
    requires GetFirstParamValue(params, a.offset) == Str(NatToString(o))
    requires GetFirstParamValue(params, a.limit) == Str(NatToString(l))
    ensures var s := Arranged(Select(c, CriteriaOf(params, a, filters, pathKeys)), params, a);
      List(c, a, filters, pathKeys, params).items == s[AtMost(o, |s|)..AtMost(o + l, |s|)]
  {
    DecimalCount(o, 0);
    DecimalCount(l, |c|);
    ListWindow(c, a, filters, pathKeys, params, o, l);
  }

  /** An offset without a limit lists everything from the offset on: the default limit, the
      collection's length, always reaches the end. */
  lemma ListFromOffset(c: Slots, a: Aliases, filters: seq<ParamFilter>, pathKeys: Option<seq<PathKey>>,
                       params: Record, o: nat)
    requires GetFirstParamValue(params, a.offset) == Str(NatToString(o))
    requires !Truthy(GetFirstParamValue(params, a.limit))
    ensures var s := Arranged(Select(c, CriteriaOf(params, a, filters, pathKeys)), params, a);
      List(c, a, filters, pathKeys, params).items == s[AtMost(o, |s|)..]
  {
    var selected := Select(c, CriteriaOf(params, a, filters, pathKeys));
    var s := Arranged(selected, params, a);
    assert |s| == |selected| <= |c|;
    DecimalCount(o, 0);
    assert CountParam(GetFirstParamValue(params, a.limit), |c|) == Finite(|c|);
    ListWindow(c, a, filters, pathKeys, params, o, |c|);
    assert AtMost(o + |c|, |s|) == |s|;
    SliceToEnd(s, AtMost(o, |s|));
  }

  /** A limit without an offset lists the first `l` records: the default offset is 0. */
  lemma ListFirst(c: Slots, a: Aliases, filters: seq<ParamFilter>, pathKeys: Option<seq<PathKey>>,
                  params: Record, l: nat)
    requires !Truthy(GetFirstParamValue(params, a.offset))
    requires GetFirstParamValue(params, a.limit) == Str(NatToString(l))
    ensures var s := Arranged(Select(c, CriteriaOf(params, a, filters, pathKeys)), params, a);
      List(c, a, filters, pathKeys, params).items == s[..AtMost(l, |s|)]
  {
    DecimalCount(l, |c|);
    ListWindow(c, a, filters, pathKeys, params, 0, l);
  }

  /** An offset or a limit that does not read as a number (`?offset=abc`) makes the end of
      the slice NaN, which `slice` takes as 0: the page is empty, the total is not. */
  lemma ListNaNPage(c: Slots, a: Aliases, filters: seq<ParamFilter>, pathKeys: Option<seq<PathKey>>,
                    params: Record)
    requires || (var v := GetFirstParamValue(params, a.offset); Truthy(v) && ParseInt(ToStr(v)) == NaN)
             || (var v := GetFirstParamValue(params, a.limit); Truthy(v) && ParseInt(ToStr(v)) == NaN)
    ensures List(c, a, filters, pathKeys, params).items == []
    ensures List(c, a, filters, pathKeys, params).total == |Select(c, CriteriaOf(params, a, filters, pathKeys))|
  {
  }

  /** Parameters that only page, with no custom filters, select every present record and
      keep collection order. */
  lemma PagingOnlyKeepsAll(c: Slots, a: Aliases, pathKeys: Option<seq<PathKey>>, params: Record)
    requires forall k :: HasKey(params, k) ==> k in a.offset || k in a.limit
    requires !Truthy(GetFirstParamValue(params, a.query)) && !Truthy(GetFirstParamValue(params, a.sortBy))
    ensures Arranged(Select(c, CriteriaOf(params, a, [], pathKeys)), params, a) == Compact(c)
  {
    var crit := CriteriaOf(params, a, [], pathKeys);
    assert forall k :: k !in crit.equal;
    forall r | Some(r) in c ensures Keep(r, crit) {
    }
    SelectEverything(c, crit);
  }

  /** The parameters of the query `?offset=o&limit=l`, which under the default parameter
      names only page. */
  function PagingQuery(o: nat, l: nat): (params: Record)
    ensures forall k :: HasKey(params, k) ==> k in DefaultAliases.offset || k in DefaultAliases.limit
    ensures !Truthy(GetFirstParamValue(params, DefaultAliases.query))
    ensures !Truthy(GetFirstParamValue(params, DefaultAliases.sortBy))
    ensures GetFirstParamValue(params, DefaultAliases.offset) == Str(NatToString(o))
    ensures GetFirstParamValue(params, DefaultAliases.limit) == Str(NatToString(l))
  {
    var params: Record := [Field("offset", Str(NatToString(o))), Field("limit", Str(NatToString(l)))];
    assert forall k :: HasKey(params, k) ==> params[KeyIndex(params, k)].key == k;
    params
  }

  /** `?offset=o&limit=l` and nothing else, without custom filters: the page `slice(o, o + l)`
      of the present records in collection order, out of all of them. */
  lemma PageOfAll(c: Slots, pathKeys: Option<seq<PathKey>>, o: nat, l: nat)
    ensures var all := Compact(c);
      List(c, DefaultAliases, [], pathKeys, PagingQuery(o, l))
      == Listed(all[AtMost(o, |all|)..AtMost(o + l, |all|)], |all|)
  {
    PagingOnlyKeepsAll(c, DefaultAliases, pathKeys, PagingQuery(o, l));
    ListPage(c, DefaultAliases, [], pathKeys, PagingQuery(o, l), o, l);
  }

  /** A run of an ordered sequence is ordered. */
  lemma WindowOrdered(items: seq<Record>, s: seq<Record>, from: nat, key: string, desc: bool)
    requires WindowAt(items, s, from) && Ordered(s, key, desc)
    ensures Ordered(items, key, desc)
  {
    forall i, j | 0 <= i < j < |items| ensures Compare(items[i], items[j], key, desc) <= 0 {
      assert items[i] == s[from + i] && items[j] == s[from + j];
    }
  }

  /** With a truthy `sortBy`, the page is ordered by that property whenever the filtered
      records' values of it are all numbers, all strings or all booleans. */
  lemma ListOrdered(c: Slots, a: Aliases, filters: seq<ParamFilter>, pathKeys: Option<seq<PathKey>>,
                    params: Record)
    requires Truthy(GetFirstParamValue(params, a.sortBy))
    requires UniformKeys(Select(c, CriteriaOf(params, a, filters, pathKeys)), ToStr(GetFirstParamValue(params, a.sortBy)))
    ensures Ordered(List(c, a, filters, pathKeys, params).items,
                    ToStr(GetFirstParamValue(params, a.sortBy)), Descending(params, a))
  {
    var key, desc := ToStr(GetFirstParamValue(params, a.sortBy)), Descending(params, a);
    var selected := Select(c, CriteriaOf(params, a, filters, pathKeys));
    SortOrders(selected, key, desc);
    var r := List(c, a, filters, pathKeys, params);
    var from :| WindowAt(r.items, Arranged(selected, params, a), from);
    WindowOrdered(r.items, Arranged(selected, params, a), from, key, desc);
  }

  /** The sort is stable: records with equal sort values keep their collection order. */
  lemma ArrangedStable(selected: seq<Record>, params: Record, a: Aliases, v: Value)
    requires Truthy(GetFirstParamValue(params, a.sortBy))
    ensures var key := ToStr(GetFirstParamValue(params, a.sortBy));
      WithKey(Arranged(selected, params, a), key, v) == WithKey(selected, key, v)
  {
    SortStable(selected, ToStr(GetFirstParamValue(params, a.sortBy)), Descending(params, a), v);
  }

  /** A custom filter runs even when its parameter is absent, and then sees undefined: a
      record it rejects for undefined is listed by no request without that parameter. */
  lemma CustomFilterWithoutParam(c: Slots, a: Aliases, filters: seq<ParamFilter>,
                                 pathKeys: Option<seq<PathKey>>, params: Record, n: nat, x: Record)
    requires n < |filters| && !HasKey(params, filters[n].param)
    requires !filters[n].filter(x, Undefined)
    ensures x !in List(c, a, filters, pathKeys, params).items
    ensures x !in Select(c, CriteriaOf(params, a, filters, pathKeys))
  {
  }

  /** An equality filter compares string forms: the parameter text `42` selects a record
      whose property holds the number 42. */
  lemma NumericEqualityFilter(item: Record, k: string, params: Record, n: nat)
    requires Get(item, k) == Num(n) && Get(params, k) == Str(NatToString(n))
    ensures PassesEquality(item, [k], params)
  {
  }
}
