/** A JavaScript object with primitive-valued properties, as an ordered list of fields with
    unique keys. Key order matters to the source: `Object.keys` order drives the id-key guess,
    the text search and the order in which `extend` adds new properties. */
module Records {
  import opened Values

  datatype Field = Field(key: string, value: Value)

  predicate UniqueKeys(fs: seq<Field>) {
    forall i, j :: 0 <= i < j < |fs| ==> fs[i].key != fs[j].key
  }

  type Record = fs: seq<Field> | UniqueKeys(fs)

  /** Position of the field named `k`, or `|r|` when there is none. */
  function KeyIndex(r: seq<Field>, k: string): (i: nat)
    ensures i <= |r|
    ensures i < |r| ==> r[i].key == k
    ensures forall j :: 0 <= j < i ==> r[j].key != k
  {
    if r == [] then 0 else if r[0].key == k then 0 else 1 + KeyIndex(r[1..], k)
  }

  /** The three properties of KeyIndex determine it. */
  lemma KeyIndexUnique(r: seq<Field>, k: string, i: nat)
    requires i <= |r|
    requires i < |r| ==> r[i].key == k
    requires forall j :: 0 <= j < i ==> r[j].key != k
    ensures KeyIndex(r, k) == i
  {
  }

  predicate HasKey(r: Record, k: string) {
    KeyIndex(r, k) < |r|
  }

  /** `r[k]`: the property's value, or undefined when the object lacks it. */
  function Get(r: Record, k: string): (v: Value)
    ensures forall i :: 0 <= i < |r| && r[i].key == k ==> v == r[i].value
    ensures !HasKey(r, k) ==> v == Undefined
  {
    var i := KeyIndex(r, k);
    if i < |r| then r[i].value else Undefined
  }

  /** Looking a key up in a non-empty object: its first field, or the rest. */
  lemma GetCons(r: Record, k: string)
    requires |r| > 0
    ensures UniqueKeys(r[1..])
    ensures Get(r, k) == if k == r[0].key then r[0].value else Get(r[1..], k)
  {
    assert forall i, j :: 0 <= i < j < |r[1..]| ==> r[1..][i] == r[i + 1] && r[1..][j] == r[j + 1];
  }

  /** The object's keys in `Object.keys` order. */
  function Keys(r: Record): (ks: seq<string>)
    ensures |ks| == |r| && forall i :: 0 <= i < |r| ==> ks[i] == r[i].key
  {
    seq(|r|, i requires 0 <= i < |r| => r[i].key)
  }

  /** No property holds undefined. */
  predicate DefinedValues(r: Record) {
    forall i :: 0 <= i < |r| ==> r[i].value != Undefined
  }

  /** `r[k] = v`: an existing property keeps its place, a new one is added last. */
  function Put(r: Record, k: string, v: Value): (r': Record)
    ensures Get(r', k) == v
    ensures forall k' :: k' != k ==> Get(r', k') == Get(r, k')
    ensures |r| <= |r'| <= |r| + 1
    ensures forall i :: 0 <= i < |r| ==> r'[i].key == r[i].key
    ensures |r'| == |r| + 1 ==> r'[|r|].key == k
    ensures v != Undefined && DefinedValues(r) ==> DefinedValues(r')
  {
    var i := KeyIndex(r, k);
    if i < |r| then
      var r': seq<Field> := r[i := Field(k, v)];
      assert forall j :: 0 <= j < |r| ==> r'[j].key == r[j].key;
      assert r'[i] == Field(k, v);
      forall k' | k' != k ensures Get(r', k') == Get(r, k') {
        KeyIndexUnique(r', k', KeyIndex(r, k'));
      }
      r'
    else
      var r': seq<Field> := r + [Field(k, v)];
      assert r'[|r|] == Field(k, v);
      forall k' | k' != k ensures Get(r', k') == Get(r, k') {
        var j := KeyIndex(r, k');
        if j < |r| {
          KeyIndexUnique(r', k', j);
        } else {
          KeyIndexUnique(r', k', |r'|);
        }
      }
      r'
  }

  /** `extend(target, source)`: a shallow merge in which every property of `source` whose
      value is not undefined overwrites or is added to `target`; the other properties of
      `target` are kept where they are. */
  function Extend(target: Record, source: Record): (r: Record)
    ensures forall k :: Get(r, k) == if Get(source, k) != Undefined then Get(source, k) else Get(target, k)
    ensures |target| <= |r| && forall i :: 0 <= i < |target| ==> r[i].key == target[i].key
    ensures DefinedValues(target) ==> DefinedValues(r)
    decreases |source|
  {
    if source == [] then target
    else
      var f := source[0];
      GetCons(source, f.key);
      var rest: Record := source[1..];
      var next := if f.value == Undefined then target else Put(target, f.key, f.value);
      var r := Extend(next, rest);
      forall k ensures Get(r, k) == if Get(source, k) != Undefined then Get(source, k) else Get(target, k) {
        GetCons(source, k);
      }
      r
  }

  /** Merging the same source twice changes nothing more. */
  lemma ExtendIdempotent(target: Record, source: Record)
    ensures forall k :: Get(Extend(Extend(target, source), source), k) == Get(Extend(target, source), k)
  {
  }

  /** The per-object part of `extend(true, [], collection)`: a deep copy, made (like any
      `extend`) by merging into an empty object, so it skips properties whose value is
      undefined. */
  function DeepCopy(r: Record): (c: Record)
    ensures forall k :: Get(c, k) == Get(r, k)
    ensures DefinedValues(c)
  {
    Extend([], r)
  }
}
