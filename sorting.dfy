/** The sort step of `getCollection`: `filteredCollection.sort(comparator)`, ordering records
    by the property named by the `sortBy` parameter. The sort itself is the JavaScript
    engine's, which is stable; the model states it as the stable insertion sort `SortedBy`
    under the source's comparator, and proves that it permutes, orders and keeps ties. */
module Sorting {
  import opened Values
  import opened Records

  /** The UTF-16 code units of one character: the character itself below U+10000,
      otherwise its surrogate pair. */
  function Utf16(c: char): (u: seq<int>)
    ensures |u| == if (c as int) < 0x1_0000 then 1 else 2
  {
    if (c as int) < 0x1_0000 then [c as int]
    else
      var v := c as int - 0x1_0000;
      [0xD800 + v / 0x400, 0xDC00 + v % 0x400]
  }

  /** The code units of a string, the sequence JavaScript's `<` on strings compares. */
  function CodeUnits(s: string): (u: seq<int>)
    ensures |u| >= |s|
    ensures u == [] <==> s == []
  {
    if s == [] then [] else Utf16(s[0]) + CodeUnits(s[1..])
  }

  /** A character's code units determine it, and where they end: no character's units
      begin another's. */
  lemma Utf16Prefix(x: char, y: char, r1: seq<int>, r2: seq<int>)
    requires Utf16(x) + r1 == Utf16(y) + r2
    ensures x == y && r1 == r2
  {
    var ux, uy := Utf16(x), Utf16(y);
    assert ux[0] == (ux + r1)[0] == uy[0];
    if (x as int) < 0x1_0000 && (y as int) < 0x1_0000 {
      assert r1 == (ux + r1)[1..] == (uy + r2)[1..] == r2;
    } else {
      assert 0x1_0000 <= x as int && 0x1_0000 <= y as int;
      assert ux[1] == (ux + r1)[1] == uy[1];
      assert r1 == (ux + r1)[2..] == (uy + r2)[2..] == r2;
    }
  }

  /** Distinct strings have distinct code units. */
  lemma {:induction false} CodeUnitsInjective(a: string, b: string)
    requires CodeUnits(a) == CodeUnits(b)
    ensures a == b
  {
    if a != [] {
      Utf16Prefix(a[0], b[0], CodeUnits(a[1..]), CodeUnits(b[1..]));
      CodeUnitsInjective(a[1..], b[1..]);
      assert a == [a[0]] + a[1..] && b == [b[0]] + b[1..];
    }
  }

  /** Lexicographic order on code-unit sequences. */
  predicate UnitsLess(a: seq<int>, b: seq<int>) {
    if a == [] then b != []
    else if b == [] then false
    else if a[0] != b[0] then a[0] < b[0]
    else UnitsLess(a[1..], b[1..])
  }

  lemma {:induction false} UnitsLessIrreflexive(a: seq<int>)
    ensures !UnitsLess(a, a)
  {
    if a != [] {
      UnitsLessIrreflexive(a[1..]);
    }
  }

  lemma {:induction false} UnitsLessTrans(a: seq<int>, b: seq<int>, c: seq<int>)
    requires UnitsLess(a, b) && UnitsLess(b, c)
    ensures UnitsLess(a, c)
  {
    if a != [] && b != [] && c != [] && a[0] == b[0] == c[0] {
      UnitsLessTrans(a[1..], b[1..], c[1..]);
    }
  }

  lemma {:induction false} UnitsLessTotal(a: seq<int>, b: seq<int>)
    ensures a == b || UnitsLess(a, b) || UnitsLess(b, a)
  {
    if a != [] && b != [] && a[0] == b[0] {
      UnitsLessTotal(a[1..], b[1..]);
      if a[1..] == b[1..] {
        assert a == [a[0]] + a[1..] && b == [b[0]] + b[1..];
      }
    }
  }

  /** JavaScript's `<` on strings: lexicographic order on UTF-16 code units. */
  predicate StrLess(a: string, b: string) {
    UnitsLess(CodeUnits(a), CodeUnits(b))
  }

  lemma StrLessIrreflexive(a: string)
    ensures !StrLess(a, a)
  {
    UnitsLessIrreflexive(CodeUnits(a));
  }

  lemma StrLessTrans(a: string, b: string, c: string)
    requires StrLess(a, b) && StrLess(b, c)
    ensures StrLess(a, c)
  {
    UnitsLessTrans(CodeUnits(a), CodeUnits(b), CodeUnits(c));
  }

  lemma StrLessTotal(a: string, b: string)
    ensures a == b || StrLess(a, b) || StrLess(b, a)
  {
    UnitsLessTotal(CodeUnits(a), CodeUnits(b));
    if CodeUnits(a) == CodeUnits(b) {
      CodeUnitsInjective(a, b);
    }
  }

  lemma StrLessAsym(a: string, b: string)
    requires StrLess(a, b)
    ensures !StrLess(b, a)
  {
    if StrLess(b, a) {
      StrLessTrans(a, b, a);
      StrLessIrreflexive(a);
    }
  }

  /** A character above U+FFFF sorts before U+FFFF: its first code unit is a high
      surrogate, 0xD800 to 0xDBFF. Code-point order would put it after. */
  lemma SupplementaryBeforeHighBmp()
    ensures StrLess("\U{10000}", "\U{FFFF}") && !StrLess("\U{FFFF}", "\U{10000}")
  {
    assert CodeUnits("\U{10000}") == [0xD800, 0xDC00];
    assert CodeUnits("\U{FFFF}") == [0xFFFF];
  }

  /** Below U+10000 the order is the characters' own: `"B" < "a"`, `"a" < "ab"`. */
  lemma CharOrderBelowSupplementary(x: char, y: char, r1: string, r2: string)
    requires (x as int) < 0x1_0000 && (y as int) < 0x1_0000 && x != y
    ensures StrLess([x] + r1, [y] + r2) <==> x < y
  {
    assert ([x] + r1)[1..] == r1 && ([y] + r2)[1..] == r2;
  }

  /** JavaScript's `x < y` on the values the sort compares: numbers by value, strings by
      UTF-16 code units, booleans with `false` before `true`. Pairs of different types, and `null`
      or undefined, are treated as unordered (both `<` and `>` false); see README. */
  predicate JsLess(x: Value, y: Value) {
    match (x, y)
    case (Num(a), Num(b)) => a < b
    case (Str(a), Str(b)) => StrLess(a, b)
    case (Bool(a), Bool(b)) => !a && b
    case _ => false
  }

  lemma JsLessIrreflexive(x: Value)
    ensures !JsLess(x, x)
  {
    if x.Str? {
      StrLessIrreflexive(x.s);
    }
  }

  lemma JsLessAsym(x: Value, y: Value)
    ensures !(JsLess(x, y) && JsLess(y, x))
  {
    if x.Str? && y.Str? && StrLess(x.s, y.s) {
      StrLessAsym(x.s, y.s);
    }
  }

  /** The comparator passed to `sort`: negative puts `a` first, positive puts `b` first. */
  function Compare(a: Record, b: Record, key: string, desc: bool): int {
    var x, y := Get(a, key), Get(b, key);
    if desc then
      if JsLess(y, x) then -1 else if JsLess(x, y) then 1 else 0
    else
      if JsLess(x, y) then -1 else if JsLess(y, x) then 1 else 0
  }

  /** Every record's sort key is a number, or every one is a string, or every one is a boolean. */
  predicate UniformKeys(s: seq<Record>, key: string) {
    || (forall r :: r in s ==> Get(r, key).Num?)
    || (forall r :: r in s ==> Get(r, key).Str?)
    || (forall r :: r in s ==> Get(r, key).Bool?)
  }

  /** No later record compares before an earlier one. */
  predicate Ordered(s: seq<Record>, key: string, desc: bool) {
    forall i, j :: 0 <= i < j < |s| ==> Compare(s[i], s[j], key, desc) <= 0
  }

  lemma CompareAntisymmetric(a: Record, b: Record, key: string, desc: bool)
    ensures Compare(a, b, key, desc) == -Compare(b, a, key, desc)
  {
    JsLessAsym(Get(a, key), Get(b, key));
  }

  /** Not-less is transitive on strings, which is what makes a sort by string keys consistent. */
  lemma StrNotLessTrans(x: string, y: string, z: string)
    requires !StrLess(y, x) && !StrLess(z, y)
    ensures !StrLess(z, x)
  {
    if StrLess(z, x) {
      StrLessTotal(x, y);
      if StrLess(x, y) {
        StrLessTrans(z, x, y);
      }
    }
  }

  lemma CompareTransitive(a: Record, b: Record, c: Record, key: string, desc: bool)
    requires UniformKeys([a, b, c], key)
    requires Compare(a, b, key, desc) <= 0 && Compare(b, c, key, desc) <= 0
    ensures Compare(a, c, key, desc) <= 0
  {
    var x, y, z := Get(a, key), Get(b, key), Get(c, key);
    assert a in [a, b, c] && b in [a, b, c] && c in [a, b, c];
    JsLessAsym(x, y);
    JsLessAsym(y, z);
    JsLessAsym(x, z);
    if x.Str? && y.Str? && z.Str? {
      if desc {
        StrNotLessTrans(z.s, y.s, x.s);
      } else {
        StrNotLessTrans(x.s, y.s, z.s);
      }
    }
  }

  /** One step of insertion sort: `x` is placed after every record of `s`, moving left past
      those that compare after it, scanning from the right. */
  function Insert(x: Record, s: seq<Record>, key: string, desc: bool): (r: seq<Record>)
    ensures |r| == |s| + 1
  {
    if s == [] || Compare(s[|s| - 1], x, key, desc) <= 0 then s + [x]
    else Insert(x, s[..|s| - 1], key, desc) + [s[|s| - 1]]
  }

  /** The stable sort of `s` under `Compare`. */
  function SortedBy(s: seq<Record>, key: string, desc: bool): (r: seq<Record>)
    ensures |r| == |s|
  {
    if s == [] then [] else Insert(s[|s| - 1], SortedBy(s[..|s| - 1], key, desc), key, desc)
  }

  lemma {:induction false} InsertPermutes(x: Record, s: seq<Record>, key: string, desc: bool)
    ensures multiset(Insert(x, s, key, desc)) == multiset(s) + multiset{x}
  {
    if s != [] && Compare(s[|s| - 1], x, key, desc) > 0 {
      InsertPermutes(x, s[..|s| - 1], key, desc);
      assert s == s[..|s| - 1] + [s[|s| - 1]];
    }
  }

  /** The sort returns a permutation of its input. */
  lemma {:induction false} SortPermutes(s: seq<Record>, key: string, desc: bool)
    ensures multiset(SortedBy(s, key, desc)) == multiset(s)
  {
    if s != [] {
      var b, last := s[..|s| - 1], s[|s| - 1];
      var sb := SortedBy(b, key, desc);
      SortPermutes(b, key, desc);
      InsertPermutes(last, sb, key, desc);
      assert s == b + [last];
      calc {
        multiset(SortedBy(s, key, desc));
        multiset(Insert(last, sb, key, desc));
        multiset(sb) + multiset{last};
        multiset(b) + multiset{last};
        multiset(b + [last]);
      }
    }
  }

  /** The sort keeps exactly the records it was given. */
  lemma SortKeepsMembers(s: seq<Record>, key: string, desc: bool)
    ensures forall x :: x in SortedBy(s, key, desc) <==> x in s
  {
    SortPermutes(s, key, desc);
    forall x ensures x in SortedBy(s, key, desc) <==> x in s {
      assert x in SortedBy(s, key, desc) <==> x in multiset(SortedBy(s, key, desc));
      assert x in s <==> x in multiset(s);
    }
  }

  /** An ordered sequence stays ordered when a record that compares after all of it is appended. */
  lemma OrderedSnoc(r: seq<Record>, y: Record, key: string, desc: bool)
    requires Ordered(r, key, desc)
    requires forall i :: 0 <= i < |r| ==> Compare(r[i], y, key, desc) <= 0
    ensures Ordered(r + [y], key, desc)
  {
    var ry := r + [y];
    forall i, j | 0 <= i < j < |ry| ensures Compare(ry[i], ry[j], key, desc) <= 0 {
      if j < |r| {
        assert ry[i] == r[i] && ry[j] == r[j];
      }
    }
  }

  lemma {:induction false} InsertOrdered(x: Record, s: seq<Record>, key: string, desc: bool)
    requires Ordered(s, key, desc) && UniformKeys(s + [x], key)
    ensures Ordered(Insert(x, s, key, desc), key, desc)
  {
    if s == [] {
    } else if Compare(s[|s| - 1], x, key, desc) <= 0 {
      forall i | 0 <= i < |s| ensures Compare(s[i], x, key, desc) <= 0 {
        if i < |s| - 1 {
          assert UniformKeys([s[i], s[|s| - 1], x], key) by {
            assert s[i] in s + [x] && s[|s| - 1] in s + [x];
          }
          CompareTransitive(s[i], s[|s| - 1], x, key, desc);
        }
      }
      OrderedSnoc(s, x, key, desc);
    } else {
      var b := s[..|s| - 1];
      var last := s[|s| - 1];
      assert UniformKeys(b + [x], key) by {
        forall r | r in b + [x] ensures r in s + [x] {
        }
      }
      InsertOrdered(x, b, key, desc);
      var ins := Insert(x, b, key, desc);
      InsertPermutes(x, b, key, desc);
      CompareAntisymmetric(last, x, key, desc);
      forall i | 0 <= i < |ins| ensures Compare(ins[i], last, key, desc) <= 0 {
        assert ins[i] in multiset(b) + multiset{x};
      }
      OrderedSnoc(ins, last, key, desc);
    }
  }

  /** Under keys of one type, the sort's output is ordered by the comparator. */
  lemma {:induction false} SortOrders(s: seq<Record>, key: string, desc: bool)
    requires UniformKeys(s, key)
    ensures Ordered(SortedBy(s, key, desc), key, desc)
  {
    if s != [] {
      var b := s[..|s| - 1];
      assert UniformKeys(b, key) by {
        forall r | r in b ensures r in s {
        }
      }
      SortOrders(b, key, desc);
      SortPermutes(b, key, desc);
      var sb := SortedBy(b, key, desc);
      assert UniformKeys(sb + [s[|s| - 1]], key) by {
        forall r | r in sb + [s[|s| - 1]] ensures r in s {
          if r in sb {
            assert r in multiset(b);
          }
        }
      }
      InsertOrdered(s[|s| - 1], sb, key, desc);
    }
  }

  /** The records of `s` whose sort key is exactly `v`, in order. */
  function WithKey(s: seq<Record>, key: string, v: Value): seq<Record> {
    if s == [] then []
    else WithKey(s[..|s| - 1], key, v) + (if Get(s[|s| - 1], key) == v then [s[|s| - 1]] else [])
  }

  /** The records with key `v` of a sequence with one more record at the end. */
  lemma WithKeySnoc(s: seq<Record>, x: Record, key: string, v: Value)
    ensures WithKey(s + [x], key, v) == WithKey(s, key, v) + (if Get(x, key) == v then [x] else [])
  {
    assert (s + [x])[..|s|] == s;
  }

  lemma {:induction false} InsertStable(x: Record, s: seq<Record>, key: string, desc: bool, v: Value)
    ensures WithKey(Insert(x, s, key, desc), key, v) == WithKey(s, key, v) + (if Get(x, key) == v then [x] else [])
  {
    if s == [] || Compare(s[|s| - 1], x, key, desc) <= 0 {
      WithKeySnoc(s, x, key, v);
    } else {
      var b, last := s[..|s| - 1], s[|s| - 1];
      var ins := Insert(x, b, key, desc);
      InsertStable(x, b, key, desc, v);
      WithKeySnoc(ins, last, key, v);
      WithKeySnoc(b, last, key, v);
      assert s == b + [last];
      SameKeyTies(last, x, key, desc);
      var lv, xv := if Get(last, key) == v then [last] else [], if Get(x, key) == v then [x] else [];
      var w := WithKey(b, key, v);
      if lv == [] {
        assert w + xv + lv == w + xv && w + lv == w;
      } else {
        assert xv == [];
        assert w + xv == w && w + lv + xv == w + lv;
      }
    }
  }

  /** Records with the same sort key compare equal, so the sort never swaps them. */
  lemma SameKeyTies(a: Record, b: Record, key: string, desc: bool)
    ensures Get(a, key) == Get(b, key) ==> Compare(a, b, key, desc) == 0
  {
    JsLessIrreflexive(Get(a, key));
  }

  /** Stability: for every key value, the records with that key keep their relative order. */
  lemma {:induction false} SortStable(s: seq<Record>, key: string, desc: bool, v: Value)
    ensures WithKey(SortedBy(s, key, desc), key, v) == WithKey(s, key, v)
  {
    if s != [] {
      SortStable(s[..|s| - 1], key, desc, v);
      InsertStable(s[|s| - 1], SortedBy(s[..|s| - 1], key, desc), key, desc, v);
    }
  }

  /** Booleans sort `false` first: `[{id: 1, active: true}, {id: 2, active: false}]` sorted
      ascending by `active` puts the second record first. */
  lemma FalseSortsFirst(t: Record, f: Record, key: string)
    requires Get(t, key) == Bool(true) && Get(f, key) == Bool(false)
    ensures SortedBy([t, f], key, false) == [f, t]
  {
    assert [t, f][..1] == [t] && [t][..0] == [];
    assert SortedBy([t], key, false) == Insert(t, [], key, false) == [t];
    assert SortedBy([t, f], key, false) == Insert(f, [t], key, false);
    assert JsLess(Get(f, key), Get(t, key)) && !JsLess(Get(t, key), Get(f, key));
    assert Compare(t, f, key, false) == 1;
    assert Insert(f, [t], key, false) == Insert(f, [], key, false) + [t] == [f, t];
  }
}
