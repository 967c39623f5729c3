/**
 * PHP values and PHP arrays, as far as the converter needs them.
 *
 * A PHP array is an ordered map. It is modelled by its iteration order `keys`
 * and its contents `vals`; `Valid` is the invariant every PHP array keeps
 * (each key once, and the order lists exactly the stored keys). Keys are
 * either strings or integers, as in PHP.
 */
module PhpArrays {
  import opened Wrappers

  datatype Key = Name(name: string) | Index(index: int)

  /** A PHP value. `Obj` stands for any object (a bound entity, a violation list). */
  datatype Value =
    | Null
    | Bool(b: bool)
    | Int(i: int)
    | Str(s: string)
    | Arr(a: PhpArray)
    | Obj(handle: nat)

  datatype PhpArray = PhpArray(keys: seq<Key>, vals: map<Key, Value>)

  /** `[]` */
  const Empty: PhpArray := PhpArray([], map[])

  /** Each key occurs once in the iteration order. */
  predicate NoDuplicates(ks: seq<Key>) {
    ks == [] || (ks[0] !in ks[1..] && NoDuplicates(ks[1..]))
  }

  lemma {:induction false} NoDuplicatesAppend(ks: seq<Key>, k: Key)
    requires NoDuplicates(ks) && k !in ks
    ensures NoDuplicates(ks + [k])
  {
    if ks != [] {
      assert (ks + [k])[1..] == ks[1..] + [k];
      NoDuplicatesAppend(ks[1..], k);
    }
  }

  predicate Valid(a: PhpArray) {
    && NoDuplicates(a.keys)
    && (forall k :: k in a.vals ==> k in a.keys)
    && (forall k :: k in a.keys ==> k in a.vals)
  }

  /** Every array reachable from `v` is a well-formed PHP array. */
  predicate DeepValid(v: Value)
    decreases v
  {
    match v
    case Arr(a) => Valid(a) && forall k :: k in a.vals ==> DeepValid(a.vals[k])
    case _ => true
  }

  /** The value stored under `k`, if any. */
  function Get(a: PhpArray, k: Key): Option<Value> {
    if k in a.vals then Some(a.vals[k]) else None
  }

  /** PHP's `isset` on an element: the key is present and its value is not null. */
  predicate IsSet(a: PhpArray, k: Key) {
    k in a.vals && a.vals[k] != Null
  }

  /** An array whose keys are all strings (no integer keys). */
  predicate HasOnlyNames(a: PhpArray) {
    forall k :: k in a.vals ==> k.Name?
  }

  /** The values stored under integer keys, in iteration order. */
  function ListValues(ks: seq<Key>, vals: map<Key, Value>): seq<Value>
    requires forall k :: k in ks ==> k in vals
  {
    if ks == [] then []
    else (if ks[0].Index? then [vals[ks[0]]] else []) + ListValues(ks[1..], vals)
  }

  function Positional(a: PhpArray): seq<Value>
    requires Valid(a)
  {
    ListValues(a.keys, a.vals)
  }

  /** The invariant of the result built so far: its integer keys are exactly 0 .. next-1. */
  predicate Dense(acc: PhpArray, next: int) {
    && Valid(acc)
    && 0 <= next
    && (forall k :: k in acc.vals && k.Index? ==> 0 <= k.index < next)
    && (forall j :: 0 <= j < next ==> Index(j) in acc.vals)
  }

  /**
   * One element of `array_merge`: an integer-keyed element is appended under
   * the next free index; a string-keyed element overwrites an existing key in
   * place or is appended.
   */
  function MergeElement(acc: PhpArray, next: int, k: Key, v: Value): (r: (PhpArray, int))
    requires Dense(acc, next)
    ensures Dense(r.0, r.1)
    ensures k.Index? ==> r.0.vals == acc.vals[Index(next) := v] && r.1 == next + 1
    ensures k.Name? ==> r.0.vals == acc.vals[k := v] && r.1 == next
  {
    match k
    case Index(_) =>
      NoDuplicatesAppend(acc.keys, Index(next));
      (PhpArray(acc.keys + [Index(next)], acc.vals[Index(next) := v]), next + 1)
    case Name(_) =>
      if k in acc.vals then (PhpArray(acc.keys, acc.vals[k := v]), next)
      else
        NoDuplicatesAppend(acc.keys, k);
        (PhpArray(acc.keys + [k], acc.vals[k := v]), next)
  }

  /**
   * Appends the elements `ks` (with contents `vals`) onto `acc`, in order,
   * returning the new array and the next free integer index.
   */
  function MergeAll(acc: PhpArray, next: int, ks: seq<Key>, vals: map<Key, Value>): (r: (PhpArray, int))
    requires Dense(acc, next)
    requires forall k :: k in ks ==> k in vals
    ensures Dense(r.0, r.1)
    ensures r.1 == next + |ListValues(ks, vals)|
    decreases |ks|
  {
    if ks == [] then (acc, next)
    else
      var step := MergeElement(acc, next, ks[0], vals[ks[0]]);
      MergeAll(step.0, step.1, ks[1..], vals)
  }

  /** String keys: the later element wins, and no string key is lost or invented. */
  lemma {:induction false} MergeAllNames(acc: PhpArray, next: int, ks: seq<Key>, vals: map<Key, Value>, k: Key)
    requires Dense(acc, next)
    requires forall k :: k in ks ==> k in vals
    requires k.Name?
    ensures var r := MergeAll(acc, next, ks, vals).0;
      && (k in r.vals <==> k in acc.vals || k in ks)
      && (k in r.vals ==> r.vals[k] == if k in ks then vals[k] else acc.vals[k])
    decreases |ks|
  {
    if ks != [] {
      var step := MergeElement(acc, next, ks[0], vals[ks[0]]);
      MergeAllNames(step.0, step.1, ks[1..], vals, k);
      assert k in ks <==> k == ks[0] || k in ks[1..];
    }
  }

  /** Integer keys already present keep their values. */
  lemma {:induction false} MergeAllKeepsIndex(acc: PhpArray, next: int, ks: seq<Key>, vals: map<Key, Value>, j: int)
    requires Dense(acc, next)
    requires forall k :: k in ks ==> k in vals
    requires 0 <= j < next
    ensures MergeAll(acc, next, ks, vals).0.vals[Index(j)] == acc.vals[Index(j)]
    decreases |ks|
  {
    if ks != [] {
      var step := MergeElement(acc, next, ks[0], vals[ks[0]]);
      assert step.0.vals[Index(j)] == acc.vals[Index(j)];
      MergeAllKeepsIndex(step.0, step.1, ks[1..], vals, j);
    }
  }

  /** The integer-keyed elements of `ks` land, in order, under next, next+1, ... */
  lemma {:induction false} MergeAllIndices(acc: PhpArray, next: int, ks: seq<Key>, vals: map<Key, Value>, j: int)
    requires Dense(acc, next)
    requires forall k :: k in ks ==> k in vals
    requires next <= j < next + |ListValues(ks, vals)|
    ensures MergeAll(acc, next, ks, vals).0.vals[Index(j)] == ListValues(ks, vals)[j - next]
    decreases |ks|
  {
    var v := vals[ks[0]];
    var step := MergeElement(acc, next, ks[0], v);
    if ks[0].Index? && j == next {
      IndexHead(acc, next, ks, vals);
    } else {
      IndexTail(acc, next, ks, vals, j);
      MergeAllIndices(step.0, step.1, ks[1..], vals, j);
    }
  }

  /** The first element of `ks`, when integer-keyed, lands under `next`. */
  lemma IndexHead(acc: PhpArray, next: int, ks: seq<Key>, vals: map<Key, Value>)
    requires Dense(acc, next)
    requires forall k :: k in ks ==> k in vals
    requires ks != [] && ks[0].Index?
    ensures |ListValues(ks, vals)| > 0
    ensures MergeAll(acc, next, ks, vals).0.vals[Index(next)] == ListValues(ks, vals)[0]
  {
    var step := MergeElement(acc, next, ks[0], vals[ks[0]]);
    MergeAllKeepsIndex(step.0, step.1, ks[1..], vals, next);
  }

  /** Past the first element, the merge and the list values both continue with `ks[1..]`. */
  lemma IndexTail(acc: PhpArray, next: int, ks: seq<Key>, vals: map<Key, Value>, j: int)
    requires Dense(acc, next)
    requires forall k :: k in ks ==> k in vals
    requires next <= j < next + |ListValues(ks, vals)|
    requires !(ks[0].Index? && j == next)
    ensures var step := MergeElement(acc, next, ks[0], vals[ks[0]]);
      && step.1 <= j < step.1 + |ListValues(ks[1..], vals)|
      && MergeAll(acc, next, ks, vals) == MergeAll(step.0, step.1, ks[1..], vals)
      && ListValues(ks, vals)[j - next] == ListValues(ks[1..], vals)[j - step.1]
  {
  }

  /**
   * PHP's `array_merge` of two arrays: string keys of `b` override those of `a`; the
   * integer-keyed elements of both are renumbered 0, 1, 2, ... in order,
   * first those of `a`, then those of `b`.
   */
  function ArrayMerge(a: PhpArray, b: PhpArray): (r: PhpArray)
    requires Valid(a) && Valid(b)
    ensures Valid(r)
  {
    var first := MergeAll(Empty, 0, a.keys, a.vals);
    MergeAll(first.0, first.1, b.keys, b.vals).0
  }

  /** On string keys `array_merge` is a union in which the second array wins. */
  lemma MergeNames(a: PhpArray, b: PhpArray, k: Key)
    requires Valid(a) && Valid(b)
    requires k.Name?
    ensures k in ArrayMerge(a, b).vals <==> k in a.vals || k in b.vals
    ensures k in ArrayMerge(a, b).vals ==>
      ArrayMerge(a, b).vals[k] == if k in b.vals then b.vals[k] else a.vals[k]
  {
    var first := MergeAll(Empty, 0, a.keys, a.vals);
    MergeAllNames(Empty, 0, a.keys, a.vals, k);
    MergeAllNames(first.0, first.1, b.keys, b.vals, k);
  }

  /** On integer keys `array_merge` is list concatenation, renumbered from 0. */
  lemma MergeIndices(a: PhpArray, b: PhpArray, j: int)
    requires Valid(a) && Valid(b)
    ensures Index(j) in ArrayMerge(a, b).vals <==> 0 <= j < |Positional(a) + Positional(b)|
    ensures 0 <= j < |Positional(a) + Positional(b)| ==>
      ArrayMerge(a, b).vals[Index(j)] == (Positional(a) + Positional(b))[j]
  {
    var first := MergeAll(Empty, 0, a.keys, a.vals);
    var r := MergeAll(first.0, first.1, b.keys, b.vals);
    assert ArrayMerge(a, b) == r.0;
    var pa, pb := Positional(a), Positional(b);
    assert first.1 == |pa| && r.1 == |pa| + |pb|;
    if 0 <= j < |pa| {
      MergeAllIndices(Empty, 0, a.keys, a.vals, j);
      MergeAllKeepsIndex(first.0, first.1, b.keys, b.vals, j);
      assert (pa + pb)[j] == pa[j];
    } else if |pa| <= j < |pa| + |pb| {
      MergeAllIndices(first.0, first.1, b.keys, b.vals, j);
      assert (pa + pb)[j] == pb[j - |pa|];
    }
  }

  /** An array without integer keys has no positional part. */
  lemma {:induction false} NoIndexNoListValues(ks: seq<Key>, vals: map<Key, Value>)
    requires forall k :: k in ks ==> k in vals
    requires forall k :: k in ks ==> k.Name?
    ensures ListValues(ks, vals) == []
    decreases |ks|
  {
    if ks != [] {
      assert ks[0] in ks;
      NoIndexNoListValues(ks[1..], vals);
    }
  }

  /**
   * Merging a string-keyed array into `[]` gives back the same contents.
   * (With integer keys it would not: they are renumbered from 0.)
   */
  lemma MergeIntoEmpty(b: PhpArray)
    requires Valid(b) && HasOnlyNames(b)
    ensures ArrayMerge(Empty, b).vals == b.vals
  {
    var r := ArrayMerge(Empty, b);
    NoIndexNoListValues(Empty.keys, Empty.vals);
    NoIndexNoListValues(b.keys, b.vals);
    forall k | k in r.vals || k in b.vals
      ensures k in r.vals && k in b.vals && r.vals[k] == b.vals[k]
    {
      match k
      case Name(_) => MergeNames(Empty, b, k);
      case Index(j) => MergeIndices(Empty, b, j);
    }
  }
}
