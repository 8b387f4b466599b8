# mock-rest-middleware, modelled in Dafny

mock-rest-middleware is a Connect/Express middleware that serves in-memory REST resources.
`addResource(path, collection, opts)` registers a **rule**: an object that owns a mutable
collection of records, a deep-copied snapshot of it, and the key (`idKey`) records are
identified by. Each request runs down a chain of middlewares. First comes one per rule, in
the order the rules were added. Then comes the `/_reset` endpoint, which restores every rule's
snapshot. Last comes a pass-through to the application's next middleware.

A rule's middleware does the following, in order:
- It matches the url against the rule's compiled path template.
- It reads parameters from the path captures, the id segment and the query string.
- It routes the request method to one of nine operations. GET and HEAD route to `getItem` or
  `getCollection`, POST to `addItem`, PUT to `replaceItem` or `replaceCollection`, PATCH to
  `extendItem` or `extendCollection`, and DELETE to `deleteItem` or `deleteCollection`. Any
  other method gets 405.
- It writes the resulting response object.

Every operation defers entirely to a user `handler` when one is set. Otherwise it runs:
1. `prefilter` on the parameters and the body;
2. the operation itself;
3. `postfilter` on the `{status, data}` object it builds.

`getCollection` does the most work:
- a text search over the string forms of a record's properties;
- equality filters, by string form, on the remaining query parameters;
- custom `paramFilters`;
- an optional stable sort on one property, ascending or descending;
- an `offset`/`limit` slice, computed with `parseInt`/`slice` semantics, NaN included.

It returns the page together with the size of the filtered set.

The Dafny project has these modules:

| module | contents |
|---|---|
| `Values` | JavaScript primitives, `String()`, truthiness, loose equality by string form |
| `Records` | objects as ordered, uniquely keyed field lists, with `extend` and deep copy |
| `Messages` | bodies, responses, hooks, compiled templates |
| `Slots` | the collection as an array with holes, and what each loop does to it, as functions |
| `Sorting` | the comparator and the stable sort |
| `Listing` | the `getCollection` pipeline |
| `Operations` | the outcome of each operation, and how the operations relate |
| `Rule` | the class `MiddlewareRule`, whose methods update `collection` in place |
| `Server` | index.js: a `Middleware` class with the rule list, parameter parsing, routing and response writing |

## Model

| member | source | states |
|---|---|---|
| Rule.GetStringOrArray | middlewarerule.js:37-58 | A list option is used as given. A non-empty name becomes a one-element list. An absent or empty option keeps the prototype default. |
| Rule.AliasesWithoutOptions | middlewarerule.js:61-67 | Without options: `offset`, `limit`, `q`/`query`, `sortBy`, `sortDir`, `items` and `total`. |
| Rule.GuessIdProp | middlewarerule.js:15-29 | A record with a defined `id` is keyed by `id`. |
| Rule.GuessIdPropRules | middlewarerule.js:15-29 | The full order of the guess: `id`, then the first key ending in `Id`, then a non-empty first key, then `id`. |
| Rule.GuessIsAKey | middlewarerule.js:15-29 | The guess is `id` or one of the record's own keys. |
| Rule.GuessPrefersId | middlewarerule.js:17 | `id` beats an earlier `userId`. |
| Rule.GuessPrefersFirstIdLikeKey | middlewarerule.js:20-25 | Of `name`, `userId` and `groupId`, `userId` wins. |
| Rule.GuessFallsBackToFirstKey | middlewarerule.js:28 | Of `name` and `age`, `name` wins. The empty record gives `id`. |
| Rule.ChooseIdKey | middlewarerule.js:30 | An option `idKey` wins. Otherwise the guess on the first record, or on `{}` for an empty collection. |
| Rule.CopyAll | middlewarerule.js:10 | The snapshot has the same length and the same property values. |
| Rule.MiddlewareRule.constructor | middlewarerule.js:8-67 | Path, snapshot, live collection, id key, envelope keys, aliases. No filters, no handler, identity hooks. |
| Rule.MiddlewareRule.Reset | middlewarerule.js:82-84 | The collection becomes a fresh deep copy of the snapshot. |
| Rule.ResetRestores | middlewarerule.js:10 | After a reset every record holds the values it was built with. |
| Rule.MiddlewareRule.GetItem | middlewarerule.js:305-319 | The loop's response is the handler's, or `postfilter` of `GetItemResult` on the prefiltered `id`. |
| Rule.MiddlewareRule.AddItem | middlewarerule.js:104-115 | The new collection and the response are those of `AddItemResult`, on the prefiltered body. |
| Rule.MiddlewareRule.DeleteCollection | middlewarerule.js:117-130 | The collection becomes empty. An empty envelope is answered. |
| Rule.MiddlewareRule.DeleteItem | middlewarerule.js:132-151 | The loop makes a hole of every matching slot. It answers the last match, or 404 with `null`. |
| Rule.MiddlewareRule.ReplaceItem | middlewarerule.js:335-352 | The loop stores the raw body, not the prefiltered one, in every matching slot. |
| Rule.MiddlewareRule.ExtendItem | middlewarerule.js:174-193 | The result is `ExtendItemResult` of the prefiltered body. |
| Rule.MiddlewareRule.MergeMatching | middlewarerule.js:181-188 | The `map` merges into every matching slot. `found` is the last merged record. |
| Rule.MiddlewareRule.ReplaceCollection | middlewarerule.js:321-333 | The wrapped or array body becomes the collection. It is answered in the envelope. |
| Rule.MiddlewareRule.MergeElement | middlewarerule.js:161-166 | The inner `forEach` merges one element into its matches. It returns their positions in order. |
| Rule.MiddlewareRule.ExtendCollection | middlewarerule.js:153-172 | The nested loops compute `ExtendEach` over the body elements. A missing body on a collection with no record answers an empty list. |
| Rule.MiddlewareRule.GetCollection | middlewarerule.js:195-303 | The filter loop, optional sort and slice answer `postfilter` of `GetCollectionResult`, whose page is fixed by `Operations.GetCollectionPage`. |
| Operations.GetItemResult | middlewarerule.js:312-318 | 200 exactly when some slot matches, with the FIRST matching record. Otherwise 404 with undefined data. |
| Operations.DeleteItemResult | middlewarerule.js:139-150 | Length kept. Exactly the matching slots become holes. The answer is the LAST match. |
| Operations.ReplaceItemResult | middlewarerule.js:340-351 | Length kept. Exactly the matching slots hold the body. 200 with the body if anything matched. |
| Operations.ExtendItemResult | middlewarerule.js:181-192 | Length kept. Exactly the matching records are extended. The answer is the last merged record. |
| Operations.AddItemResult | middlewarerule.js:110-114 | The old slots stay as they were, and the item is the new last slot. |
| Operations.DeleteCollectionResult | middlewarerule.js:120-129 | The collection becomes empty and the answer is the envelope with no items and a count of 0. |
| Operations.ReplaceCollectionResult | middlewarerule.js:324-332 | The body, wrapped when it is one object, becomes the collection, and the envelope lists exactly those records with their count. |
| Operations.Resolve | middlewarerule.js:164-170 | The records at the pushed positions, read from the final collection, one per position and in order. |
| Operations.ExtendCollectionResult | middlewarerule.js:157-171 | The slots are the result of the merges, and the answer is a 200 list. Without a body, on a collection with no record, nothing changes and the list is empty. |
| Operations.GetCollectionResult | middlewarerule.js:296-302 | The envelope keys are the rule's. The total is the size of the filtered set. Every listed record is present and passes the filters. |
| Operations.GetCollectionPage | middlewarerule.js:290-302 | With `offset=o&limit=l` the items are the arranged filtered records from `o` to `o + l`, clamped to the end. The total counts every filtered record. |
| Operations.SecondRecordPage | middlewarerule.js:290-302 | `offset=1&limit=1` on two or more records lists the second record, with the total equal to the collection's length. |
| Operations.MergedFoundSnoc | middlewarerule.js:182-188 | One more slot of the `map` changes `found` only on a match. |
| Operations.AddThenGet | middlewarerule.js:104-115 | A record added under a fresh id is what `getItem` then returns. |
| Operations.DeleteThenGet | middlewarerule.js:132-151 | After a delete, `getItem` gives 404, and a second delete changes nothing and gives 404. |
| Operations.ReplaceThenGet | middlewarerule.js:335-352 | After replacing with a body of the same id, `getItem` returns that body. |
| Operations.ExtendItemMerges | middlewarerule.js:184 | A merged record takes the body's defined properties and keeps all others. |
| Operations.ItemWritesStayInPlace | middlewarerule.js:141-146 | The item writes leave every non-matching slot as it was. |
| Operations.ExtendCollectionFacts | middlewarerule.js:153-172 | Holes and length are kept. Each record absorbs exactly the body elements matching its id. The answer lists the merged records in body order, then collection order. |
| Operations.ReplaceThenList | middlewarerule.js:321-333 | After a replace, a plain listing returns exactly the new records and their count. |
| Operations.DeleteThenList | middlewarerule.js:117-130 | After `deleteCollection`, every listing is empty. |
| Slots.Compact | middlewarerule.js:244 | The records a traversal visits are exactly the present ones. |
| Slots.CompactOne | middlewarerule.js:244 | A present slot is visited once. A hole is skipped. |
| Slots.CompactAppend | middlewarerule.js:244 | A traversal of two parts is the first part's records, in order, then the second's. |
| Slots.CompactPresent | middlewarerule.js:244 | A collection without holes is visited whole and in order. |
| Slots.FirstMatch | middlewarerule.js:312-317 | The first matching slot, with no match before it. |
| Slots.LastMatchIndex | middlewarerule.js:141-146 | The last matching slot, with no match after it. |
| Slots.LastMatch | middlewarerule.js:141-146 | None exactly when nothing matches. Otherwise the content of the last matching slot. |
| Slots.DeleteMatching | middlewarerule.js:141-146 | Same length. Exactly the matching slots become holes, and every other slot is kept. |
| Slots.ReplaceMatching | middlewarerule.js:341-347 | Same length. Exactly the matching slots hold the given record, and every other slot is kept. |
| Slots.ExtendMatching | middlewarerule.js:182-188 | Same length. Exactly the matching records are merged with the given record, and every other slot is kept. |
| Slots.MatchIndicesSound | middlewarerule.js:161-166 | The positions pushed are matching ones and strictly increasing. |
| Slots.MatchIndicesComplete | middlewarerule.js:161-166 | Every matching position is pushed. |
| Slots.NoMatchNoIndices | middlewarerule.js:161-166 | No match pushes nothing. |
| Slots.LastMatchSnoc | middlewarerule.js:141-146 | One more slot of a traversal changes the last match only on a match. |
| Slots.MatchIndicesSnoc | middlewarerule.js:161-166 | One more slot pushes its position only on a match. |
| Slots.MatchIndicesAgree | middlewarerule.js:161-166 | Slots that match the same ids give the same positions. |
| Slots.ExtendMatchingKeepsIds | middlewarerule.js:162-163 | Merging an element into its id's matches keeps every slot's id match. |
| Slots.ExtendEach | middlewarerule.js:160-167 | Length and holes are kept. Every entry of `found` points at a present record. |
| Slots.MergeInto | middlewarerule.js:162-163 | A record keeps its id's string form and every defined property. |
| Slots.ExtendEachFacts | middlewarerule.js:160-167 | Each record is merged with exactly the elements matching it. `found` is the per-element positions in body order. |
| Slots.UnmatchedElementIsInert | middlewarerule.js:160-167 | An element matching no record changes neither the collection nor `found`. |
| Listing.GetFirstParamValue | middlewarerule.js:204-211 | The value of the first parameter, in parameter order, that has one of the names. Undefined when none does. |
| Listing.FirstParamOfOneName | middlewarerule.js:204-211 | With one name this is a plain lookup. |
| Listing.ParamOrderWins | middlewarerule.js:206-208 | `?query=a&q=b` searches for `a`. |
| Listing.SpecialParams | middlewarerule.js:213-219 | A name is special exactly when it is an alias of one of the five. |
| Listing.PlainKeys | middlewarerule.js:226-239 | A key is kept exactly when it is not special, not a custom filter's and not a path key. |
| Listing.NonSpecialKeys | middlewarerule.js:226-239 | The same, stated by the parameters' own keys. |
| Listing.PassesSearch | middlewarerule.js:248-255 | Without a search, true. Otherwise true exactly when the text occurs in the string form of some property of the record. |
| Listing.PassesEquality | middlewarerule.js:258-262 | True when every plain key whose parameter is defined has the same string form in the record as in the parameters. |
| Listing.PassesCustom | middlewarerule.js:265-268 | True when every custom filter accepts the record, given its parameter's value or undefined. |
| Listing.Keep | middlewarerule.js:244-271 | A record is kept exactly when it passes the search, every equality and every custom filter. |
| Listing.MatchesAll | middlewarerule.js:244-271 | The loops compute `Keep`: the search, then every plain equality, then every custom filter. |
| Listing.SomePropertyContains | middlewarerule.js:249-254 | The early-stopping loop answers true exactly when some property's string form contains the text. |
| Listing.TextSearch | middlewarerule.js:221 | A search exactly when the first query alias is truthy, by its string form. |
| Listing.Select | middlewarerule.js:244-271 | The kept records are exactly the present records that pass. |
| Listing.SelectEverything | middlewarerule.js:244-271 | A filter everything passes keeps the whole traversal. |
| Listing.SelectOne | middlewarerule.js:244-271 | One slot is kept once when it holds a passing record. Otherwise nothing is kept. |
| Listing.SelectAppend | middlewarerule.js:244-271 | Filtering two parts gives the first part's kept records, in order, then the second's. |
| Listing.SelectAtMostCompact | middlewarerule.js:244-271 | Never more than the traversal. Equal to it only when everything passes. |
| Listing.Descending | middlewarerule.js:276 | The direction is descending exactly when the first `sortDir` value is a string that lower-cases to `desc`. |
| Listing.DescendingCases | middlewarerule.js:276-279 | With no direction the sort is ascending. `DESC` in capitals is descending. |
| Listing.Arranged | middlewarerule.js:273-288 | The sort step permutes the filtered records. String keys compare by UTF-16 code units, as JavaScript's `<` does. |
| Listing.ArrangedStable | middlewarerule.js:278-287 | Records with equal sort values keep their collection order. |
| Listing.DigitPrefix | middlewarerule.js:291 | The longest run of leading digits. |
| Listing.ParseInt | middlewarerule.js:291 | Definition of `parseInt(s, 10)`: leading white space is skipped, one optional sign is read, then the longest run of digits. No digits gives NaN. |
| Listing.ParseIntReadsNumber | middlewarerule.js:291-293 | `parseInt` reads a number's own text back, with anything non-digit after it. |
| Listing.ParseIntNaN | middlewarerule.js:291-293 | Text without leading digits is NaN. |
| Listing.CountParam | middlewarerule.js:290-293 | A falsy value gives the default. A non-zero number is itself. |
| Listing.SliceIndex | middlewarerule.js:295 | NaN counts as 0. A negative index counts from the end. The result is clamped to the array. |
| Listing.Slice | middlewarerule.js:295 | The result is the window from the start index to the end index, possibly empty. |
| Listing.SliceWhole | middlewarerule.js:290-295 | Offset 0 with a covering limit is the whole sequence. |
| Listing.List | middlewarerule.js:244-298 | The page is a window of the arranged filtered records. The total is the filtered count. `Listing.ListWindow` fixes which window. |
| Listing.DecimalCount | middlewarerule.js:290-293 | A parameter given as a natural's decimal text reads as that natural. |
| Listing.SliceFinite | middlewarerule.js:295 | `slice(o, o + l)` runs from `o` to `o + l`, both clamped to the length. |
| Listing.ListWindow | middlewarerule.js:290-295 | With offset `o` and limit `l`, the page is the arranged filtered records from `o` to `o + l`, clamped to the end. |
| Listing.ListPage | middlewarerule.js:290-295 | The window of `ListWindow` for offset and limit given as decimal text. |
| Listing.ListFromOffset | middlewarerule.js:290-295 | An offset without a limit lists every arranged filtered record from the offset on. |
| Listing.ListFirst | middlewarerule.js:290-295 | A limit without an offset lists the first `l` arranged filtered records. |
| Listing.ListNaNPage | middlewarerule.js:290-295 | An offset or limit that is not a number gives an empty page. The total is unchanged. |
| Listing.PagingOnlyKeepsAll | middlewarerule.js:244-288 | Parameters that only page, with no custom filters, keep every present record in collection order. |
| Listing.PageOfAll | middlewarerule.js:244-298 | With only `offset=o&limit=l` under the default names and no custom filters, the page is the records from `o` to `o + l`, and the total is the record count. |
| Listing.PagingQuery | middlewarerule.js:290-293 | The parameters of `offset=o&limit=l` only page, and read as `o` and `l`. |
| Listing.ListWithoutPaging | middlewarerule.js:290-295 | Without paging parameters every filtered record is listed. The limit is the collection's length, holes included. |
| Listing.ListEverything | middlewarerule.js:195-303 | No parameters and no custom filters list every record in order. |
| Listing.WindowOrdered | middlewarerule.js:295 | A slice of an ordered list is ordered. |
| Listing.ListOrdered | middlewarerule.js:273-295 | With sort values that are all numbers, all strings or all booleans, the page is ordered by the comparator. |
| Listing.CustomFilterWithoutParam | middlewarerule.js:265-268 | A custom filter runs without its parameter and sees undefined. |
| Listing.NumericEqualityFilter | middlewarerule.js:260 | The parameter text `42` selects the number 42. |
| Sorting.CodeUnits | middlewarerule.js:280-284 | A string's UTF-16 code units: at least one per character, and none only for the empty string. |
| Sorting.Utf16Prefix | middlewarerule.js:280-284 | A character's code units determine the character and where its units end. |
| Sorting.CodeUnitsInjective | middlewarerule.js:280-284 | Distinct strings have distinct code-unit sequences. |
| Sorting.UnitsLessIrreflexive | middlewarerule.js:280-284 | Code-unit order is irreflexive. |
| Sorting.UnitsLessTrans | middlewarerule.js:280-284 | Code-unit order is transitive. |
| Sorting.UnitsLessTotal | middlewarerule.js:280-284 | Code-unit order is total. |
| Sorting.SupplementaryBeforeHighBmp | middlewarerule.js:280-284 | U+10000 sorts before U+FFFF, because its first code unit is a high surrogate. |
| Sorting.CharOrderBelowSupplementary | middlewarerule.js:280-284 | Strings whose first characters differ and lie below U+10000 compare by those characters. |
| Sorting.StrLessIrreflexive | middlewarerule.js:280-284 | `<` on strings is irreflexive. |
| Sorting.StrLessTrans | middlewarerule.js:280-284 | `<` on strings is transitive. |
| Sorting.StrLessTotal | middlewarerule.js:280-284 | `<` on strings is total. |
| Sorting.StrLessAsym | middlewarerule.js:280-284 | `<` on strings is asymmetric. |
| Sorting.JsLess | middlewarerule.js:280-284 | Definition of `<` on sort values: numbers by value, strings by UTF-16 code units, `false` before `true`. Any other pair is unordered. |
| Sorting.Compare | middlewarerule.js:278-287 | The comparator: -1 when `a` goes first, 1 when `b` goes first, 0 when neither key is less. Descending swaps the roles of `<` and `>`. |
| Sorting.SortedBy | middlewarerule.js:278-287 | The stable insertion sort under `Compare`, of the same length as its input. Its order, stability and permutation are stated by `SortOrders`, `SortStable` and `SortPermutes`. |
| Sorting.JsLessIrreflexive | middlewarerule.js:280-284 | JavaScript's `<` on one value is false. |
| Sorting.JsLessAsym | middlewarerule.js:280-284 | JavaScript's `<` never holds both ways. |
| Sorting.CompareAntisymmetric | middlewarerule.js:278-287 | Swapping the arguments negates the comparator. |
| Sorting.StrNotLessTrans | middlewarerule.js:280-284 | Not-less on strings is transitive. |
| Sorting.CompareTransitive | middlewarerule.js:278-287 | With one-typed keys, the comparator's "not after" is transitive. |
| Sorting.InsertPermutes | middlewarerule.js:278 | One insertion adds exactly its element. |
| Sorting.SortPermutes | middlewarerule.js:278 | The sort is a permutation. |
| Sorting.SortKeepsMembers | middlewarerule.js:278 | The sort keeps exactly its records. |
| Sorting.OrderedSnoc | middlewarerule.js:278 | An ordered list stays ordered when a record that compares after all of it is appended. |
| Sorting.InsertOrdered | middlewarerule.js:278 | Inserting into an ordered list keeps it ordered. |
| Sorting.SortOrders | middlewarerule.js:278-287 | With one-typed keys the output is ordered. |
| Sorting.WithKeySnoc | middlewarerule.js:278 | The records with a key value, for a list with one more record at the end. |
| Sorting.InsertStable | middlewarerule.js:278 | An insertion keeps the order among equal keys. |
| Sorting.SameKeyTies | middlewarerule.js:286 | Equal keys compare 0. |
| Sorting.SortStable | middlewarerule.js:278 | For every key value, the records with that value keep their relative order. |
| Sorting.FalseSortsFirst | middlewarerule.js:278-287 | Ascending by a boolean property puts `false` before `true`. |
| Values.Truthy | middlewarerule.js:291 | Definition of truthiness: the empty string, 0, `false`, `null` and undefined are falsy, every other value is truthy. |
| Values.ToStr | middlewarerule.js:87 | Definition of `String(v)`: a string is itself, an integer its decimal text with a leading `-` when negative, and the rest `true`, `false`, `null` or `undefined`. |
| Values.AreEqual | middlewarerule.js:86-88 | Definition of `areEqual`: the two values have the same `ToStr` text. |
| Values.Lower | middlewarerule.js:276 | Same length, with every ASCII capital replaced by its small letter and every other character kept. |
| Values.DigitsRoundTrip | middlewarerule.js:87 | The decimal text of a natural reads back as that natural. |
| Values.NatToStringInjective | middlewarerule.js:87 | Distinct naturals have distinct texts. |
| Values.NumbersEqualIff | middlewarerule.js:86-88 | `areEqual` on two numbers holds exactly when they are equal. |
| Values.SignedFormDiffers | middlewarerule.js:87 | A negative number's text is never a natural's. |
| Values.NumberMatchesItsText | middlewarerule.js:86-88 | A number matches its own text, the case of a numeric id read from a path. |
| Values.OccursInTail | middlewarerule.js:251 | An occurrence in the tail is one place further right in the whole. |
| Values.OccursAtStart | middlewarerule.js:251 | An occurrence at 0 is exactly a prefix. |
| Values.Contains | middlewarerule.js:251 | `indexOf(t) > -1` exactly when `t` occurs as a contiguous substring. |
| Records.KeyIndex | middlewarerule.js:20-24 | The first position with the key, and none before it. |
| Records.KeyIndexUnique | middlewarerule.js:20-24 | Those properties determine the position. |
| Records.Get | middlewarerule.js:142 | The value of the field with the key, or undefined. |
| Records.GetCons | middlewarerule.js:206-208 | A lookup is the first field or a lookup in the rest. |
| Records.Put | index.js:91 | A write sets one key and leaves the others. An existing key keeps its place, and a new one goes last. |
| Records.Extend | middlewarerule.js:184 | Each key takes the source's value if defined, else the target's. The target's keys keep their places. |
| Records.ExtendIdempotent | middlewarerule.js:163 | Merging the same source again changes nothing. |
| Records.DeepCopy | middlewarerule.js:83 | A copy with the same values. |
| Server.IdKeyIndex | index.js:22-28 | The first key named `id`, or the number of keys. |
| Server.IdOf | index.js:20-37 | Definition of `getId`: the capture after the `id` key, or none when it is missing, empty or starts with `?`. |
| Server.GetId | index.js:20-37 | The loop and the checks compute `IdOf`: a missing or empty capture, or one starting with `?`, gives no id. |
| Server.IdOfResourcePath | index.js:20-37 | On a template built by `addResource` the id is the capture after the caller's keys, unless it is empty or a query string. |
| Server.MapCapturesUnset | index.js:89-94 | A name that no copied key carries stays undefined. |
| Server.MapCapturesLast | index.js:89-94 | The last copied key of a name gives it its capture. |
| Server.NoMappedId | index.js:90 | No copied key is named `id`. |
| Server.Params | index.js:87-100 | Definition of `parseParams`: the copied captures, extended with the id when there is one, extended with the query, each later source winning where it is defined. |
| Server.ParamsSources | index.js:95-99 | A defined query value wins. Otherwise `id` is the found id, and every other name is its path capture. |
| Server.RouteOf | index.js:129-177 | Definition of the method dispatch: GET and HEAD read, POST adds, PUT replaces, PATCH extends, DELETE deletes, with the item operation when the id is truthy. Any other method is refused. |
| Server.RouteFacts | index.js:129-177 | Six methods are served and the rest refused. Exactly POST, PUT and PATCH read a body. POST always adds. Otherwise `params.id` chooses item or collection. |
| Server.HandleResponse | index.js:101-123 | Definition of `handleResponse`: an absent response counts as `{}`, an absent or 0 status as 200. The headers are `Content-Type` extended with the response's own. The body is written only when `data` is truthy. |
| Server.HandleResponseOfNothing | index.js:101-123 | An undefined response is written as 200 with JSON `Content-Type` and no body. |
| Server.HandleResponseHeaders | index.js:110-116 | Own headers win. `contentType` only fills a missing `Content-Type`, and `Content-Type` is set first. |
| Server.HandleResponseStatusAndBody | index.js:104-122 | The status defaults to 200 when absent or 0. The body is written exactly when `data` is truthy. |
| Server.BadRequestWritten | index.js:133-141 | A body error is written as a plain-text 400 with the reader's message. |
| Server.ReadKeepsCollection | index.js:129-131 | The two reads never change the collection. |
| Server.EffectOf | index.js:129-173 | The collection and the response of the routed operation: the handler's answer with the collection unchanged, or the operation's outcome with `prefilter` applied before it and `postfilter` after. |
| Server.Perform | index.js:129-173 | The rule's routed method, with its effect on the collection. |
| Server.ServeSpec | index.js:86-180 | What one rule's middleware does: `next()` on a rejected url, 405 for an unknown method, 400 for an unreadable body, else the written response of the routed operation and the collection it leaves. |
| Server.Serve | index.js:86-180 | The one-rule middleware computes `ServeSpec`: next, 405, 400 or the routed operation's written response. |
| Server.RejectedUrlFallsThrough | index.js:124-179 | A url the template rejects calls `next()` and changes nothing. |
| Server.ReadsDoNotWrite | index.js:129-131 | GET and HEAD never change the collection. |
| Server.UnknownMethodRefused | index.js:175-177 | Any other method is answered 405 with no headers and no body, and changes nothing. |
| Server.BodyErrorChangesNothing | index.js:132-170 | A body error on POST, PUT or PATCH gives the 400 and changes nothing. |
| Server.FirstServing | index.js:124 | The first rule whose template matches the url. |
| Server.Middleware.constructor | index.js:10-18 | No rules. |
| Server.Middleware.AddResource | index.js:44-65 | A missing path fails first, then a missing collection, each with its own message. Otherwise a fresh rule is built on `path + '/:id?(\\?.*)?'` and appended. It has the options' keys and aliases, no parameter filters or handler, and identity pre- and postfilters. |
| Server.Middleware.ResetMiddleware | index.js:72-81 | Only `/_reset` resets, and then every rule is reset and `Reset successful` is written. Any other url calls `next()` and changes nothing. Only the rules' collections may change. |
| Server.Middleware.Handle | index.js:83-185 | The first matching rule serves, and no other rule changes. With no match, `/_reset` resets all rules; anything else falls through untouched. Only the rules' collections may change. |

## Left out

- HTTP machinery is outside the model:
  - `res.setHeader`, `writeHead` and `end`: a response is the value `Written` (status, headers, body payload).
  - `JSON.stringify` of the body.
  - The suppression of HEAD bodies by Node.
  - `useWith`, which registers the chain with an app.
  - The chain is applied to the rules as they are now. `getMiddleware` snapshots the rule list when it is called.
- `pathToRegexp` is a parameter of `AddResource` (`compile`). Its templates' matching is not modelled, and neither is the reserved `:id` placeholder.
- `url.parse(..., true).query` is a parameter of `Serve` (`query`).
- `anyBody` is outside the model. Its outcome is the parameter `body`: a parsed body or an error message.
- Logging (`minilog`) is not modelled.
- test-server.js is not part of this model.
- Numbers are exact integers of any magnitude. JavaScript numbers are doubles, which differ in two ways:
  - integers are exact there only below 2^53 in magnitude;
  - from 10^21 on, `String` writes exponent form (`"1e+21"`). So `areEqual` on such a number and its decimal digits holds here but not in JavaScript.
- Floats, `Infinity`, `-0`, and their string forms are not modelled.
- Property values are primitives. Nested objects and arrays inside records are not modelled, nor are their string forms in the text search and `areEqual`.
- Object property order follows insertion. JavaScript's ordering of integer-like keys first is not modelled.
- A JSON body that is a scalar (a number, string, boolean or `null`) is not representable: `Body` is an object, an array of objects, or no body.
- A JSON array with elements that are not objects (`[1]`, `[null]`) is not representable either. `replaceCollection` stores such an array as the collection (middlewarerule.js:325), and the later lookups on its elements are not modelled.
- An alias option that is truthy but neither a string nor an array is not representable. For one, `getStringOrArray` returns undefined and a later lookup throws.
- Reading the body is asynchronous in the source (`anyBody`'s callback). Requests are modelled one at a time, each to completion, so the interleaving of concurrent requests is not modelled.
- `toLowerCase` lowers ASCII letters only. `parseInt`'s white space is the ASCII set.
- The sort comparator's `<`/`>` compares numbers with numbers, strings with strings and booleans with booleans (`false` first). Every other pair compares as unordered. JavaScript orders many of them by converting both sides to numbers. None of these conversions is modelled. Examples, not a complete list:
  - `null` against a number (`null` counts as 0);
  - a string against a number (the string is read as a number);
  - a boolean against a number;
  - `null` against a boolean (`null < true`);
  - `null` against a numeric string (`null < "1"`);
  - a boolean against a numeric string (`true < "2"`).
- A truthy `sortDir` that is not a string is taken as ascending. JavaScript would throw on its `toLowerCase`.
- A JavaScript engine's sort algorithm is its own. It is specified here as a stable sort, the one ES2019 requires. Ordering is proved only for one-typed keys (`ListOrdered`).
- `Rule.MiddlewareRule.AddItem` and `Rule.MiddlewareRule.ReplaceItem` require an object body, and `Rule.MiddlewareRule.ExtendItem` a non-array body. The source stores or merges whatever it gets, and a later lookup on a stored `null` throws. `Server.Serve` returns `Unmodelled` for such a request.
- `Rule.MiddlewareRule.ReplaceCollection` requires a body. Without one the source stores the one-element array of the missing body as the collection. `Server.Serve` returns `Unmodelled` for such a request.
- `Rule.MiddlewareRule.ExtendCollection` without a body is modelled only on a collection with no record. There the source answers 200 `[]` and changes nothing, and so does the model. On any other collection the source throws, because it reads the id of the missing body, and `Server.Serve` returns `Unmodelled`.
- A template without `keys` makes `parseParams` throw. `Server.Serve` returns `Unmodelled`.
- Thrown exceptions are modelled as `Failure` results: `addResource`'s two messages are.
- Aliasing between the caller's array and the live collection is not modelled. The source keeps the array passed to `addResource`, so the caller sees later writes.
- `extendCollection` answers `found`, whose entries are references into the collection. Later merges into a record show in earlier entries. This is modelled as positions resolved at the end (`Operations.Resolve`).
- The envelope's `collectionKey` and `countKey` are kept apart as two fields. When they are equal, JavaScript keeps only the count.
- HTTP header names are case-insensitive on the wire. `Server.HandleResponseHeaders` treats `Content-Type` in exact case only.
- The `idKey`, `collectionKey` and `countKey` options are strings, with `""` standing for falsy. Other types are not modelled.
- `Operations.ExtendCollectionResult`: its own contract states only the slots and a 200 list. The exact answer is stated by `Operations.ExtendCollectionFacts`.
