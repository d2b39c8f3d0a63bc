/**
 * Decoded JSON documents and their leaves. A leaf is what the encoder stores as one value: a
 * scalar, null, or an array of scalars of one kind.
 */
module Document {
  import opened Decimal
  import opened Options

  /** The last three forms are the typed slices that the encoder makes out of arrays. */
  datatype Value =
    | Null | Bool(b: bool) | Num(n: real) | Str(s: string)
    | Arr(items: seq<Value>) | Obj(fields: map<string, Value>)
    | Strs(strs: seq<string>) | Nums(nums: seq<real>) | Bools(bools: seq<bool>)

  predicate AllObjects(items: seq<Value>) {
    forall i | 0 <= i < |items| :: items[i].Obj?
  }

  /** An array that starts with a string, number or boolean holds nothing else. */
  predicate Homogeneous(items: seq<Value>) {
    items != [] ==>
      && (items[0].Str? ==> forall i | 0 <= i < |items| :: items[i].Str?)
      && (items[0].Num? ==> forall i | 0 <= i < |items| :: items[i].Num?)
      && (items[0].Bool? ==> forall i | 0 <= i < |items| :: items[i].Bool?)
  }

  /** No type assertion fails anywhere the encoder goes; it does not enter arrays within arrays. */
  predicate PanicFree(v: Value) {
    match v
    case Obj(fields) => forall k | k in fields :: PanicFree(fields[k])
    case Arr(items) => Homogeneous(items) && forall i | 0 <= i < |items| :: items[i].Obj? ==> PanicFree(items[i])
    case _ => true
  }

  /** The one value that an array is stored as, if it is. */
  function ArrayLeaf(items: seq<Value>): Option<Value> {
    if items == [] || !Homogeneous(items) then None else
    match items[0]
    case Str(_) => Some(Strs(seq(|items|, i requires 0 <= i < |items| && items[i].Str? => items[i].s)))
    case Num(_) => Some(Nums(seq(|items|, i requires 0 <= i < |items| && items[i].Num? => items[i].n)))
    case Bool(_) => Some(Bools(seq(|items|, i requires 0 <= i < |items| && items[i].Bool? => items[i].b)))
    case _ => None
  }

  /** The leaf under a path of field names and array indices. */
  function LeafAt(v: Value, path: seq<string>): Option<Value>
    decreases v
  {
    match v
    case Obj(fields) => if path == [] || path[0] !in fields then None else LeafAt(fields[path[0]], path[1..])
    case Arr(items) =>
      if path == [] then ArrayLeaf(items) else
      var i := IndexOf(path[0], |items|);
      if i.None? || !items[i.value].Obj? then None else LeafAt(items[i.value], path[1..])
    case _ => if path == [] then Some(v) else None
  }

  /** The index below `n` that is printed as `s`. */
  function IndexOf(s: string, n: nat): (r: Option<nat>)
    ensures r.Some? ==> r.value < n && Itoa(r.value) == s
    ensures r.None? ==> forall i | 0 <= i < n :: Itoa(i) != s
  {
    var r := ParseInt(s, 0, n - 1);
    assert forall i | 0 <= i < n && Itoa(i) == s :: r == Some(i) by {
      forall i | 0 <= i < n && Itoa(i) == s ensures r == Some(i) { ItoaRoundTrip(i, 0, n - 1); }
    }
    if r.Some? && Itoa(r.value) == s then Some(r.value) else None
  }

  function Dotted(path: seq<string>): string
    requires path != []
  {
    if |path| == 1 then path[0] else path[0] + "." + Dotted(path[1..])
  }

  predicate NoDot(s: string) {
    forall c | c in s :: c != '.'
  }

  /** Field names hold no dots, wherever the encoder goes. */
  predicate DotFree(v: Value) {
    match v
    case Obj(fields) => forall k | k in fields :: NoDot(k) && DotFree(fields[k])
    case Arr(items) => forall i | 0 <= i < |items| :: items[i].Obj? ==> DotFree(items[i])
    case _ => true
  }

  /** Dotted addresses of dot-free paths are unambiguous. */
  lemma {:induction false} DottedInjective(p: seq<string>, q: seq<string>)
    requires p != [] && q != [] && Dotted(p) == Dotted(q)
    requires (forall x | x in p :: NoDot(x)) && (forall x | x in q :: NoDot(x))
    ensures p == q
  {
    assert p[0] in p && q[0] in q;
    var s := Dotted(p);
    if |p| > 1 { assert s[|p[0]|] == '.'; }
    if |q| > 1 { assert s[|q[0]|] == '.'; }
    FirstDot(s, p[0], q[0]);
    assert p[0] == s[..|p[0]|] && q[0] == s[..|q[0]|];
    if |p| > 1 && |q| > 1 {
      assert Dotted(p[1..]) == s[|p[0]| + 1..] && Dotted(q[1..]) == s[|q[0]| + 1..];
      DottedInjective(p[1..], q[1..]);
      assert p == [p[0]] + p[1..] && q == [q[0]] + q[1..];
    } else {
      assert p == [p[0]] && q == [q[0]];
    }
  }

  lemma FirstDot(s: string, a: string, b: string)
    requires NoDot(a) && a <= s && (|a| < |s| ==> s[|a|] == '.')
    requires NoDot(b) && b <= s && (|b| < |s| ==> s[|b|] == '.')
    ensures |a| == |b|
  {
    assert forall i | 0 <= i < |a| :: s[i] == a[i] && a[i] in a;
    assert forall i | 0 <= i < |b| :: s[i] == b[i] && b[i] in b;
  }

  /** The segments of a leaf's path hold no dots: they are field names or printed indices. */
  lemma {:induction false} LeafPathIsDotFree(v: Value, path: seq<string>)
    requires DotFree(v) && LeafAt(v, path).Some?
    ensures forall x | x in path :: NoDot(x)
    decreases v
  {
    if path != [] {
      match v
      case Obj(fields) =>
        LeafPathIsDotFree(fields[path[0]], path[1..]);
      case Arr(items) =>
        var i := IndexOf(path[0], |items|).value;
        assert NoDot(Itoa(i)) by { assert Itoa(i) == Digits(i); }
        LeafPathIsDotFree(items[i], path[1..]);
      assert path == [path[0]] + path[1..];
    }
  }

  /** Different leaves of a dot-free document have different addresses. */
  lemma LeavesDoNotCollide(v: Value, p: seq<string>, q: seq<string>)
    requires DotFree(v) && LeafAt(v, p).Some? && LeafAt(v, q).Some? && p != [] && q != []
    ensures Dotted(p) == Dotted(q) ==> p == q
  {
    LeafPathIsDotFree(v, p);
    LeafPathIsDotFree(v, q);
    if Dotted(p) == Dotted(q) {
      DottedInjective(p, q);
    }
  }

  predicate SameItems<T(==)>(items: seq<Value>, xs: seq<T>, wrap: T -> Value) {
    xs != [] && |xs| == |items| && forall i | 0 <= i < |items| :: items[i] == wrap(xs[i])
  }

  /** The typed slice holds the items of the array, all of them and in order. */
  predicate IsSliceOf(items: seq<Value>, slice: Value) {
    match slice
    case Strs(ss) => SameItems(items, ss, s => Str(s))
    case Nums(ns) => SameItems(items, ns, n => Num(n))
    case Bools(bs) => SameItems(items, bs, b => Bool(b))
    case _ => false
  }

  lemma SliceIsLeaf(items: seq<Value>, slice: Value)
    requires IsSliceOf(items, slice)
    ensures ArrayLeaf(items) == Some(slice)
  {
    assert items[0] in items;
    match slice
    case Strs(ss) => assert ss == ArrayLeaf(items).value.strs;
    case Nums(ns) => assert ns == ArrayLeaf(items).value.nums;
    case Bools(bs) => assert bs == ArrayLeaf(items).value.bools;
  }

  /**
   * An array is stored as the slice of its items, in order; there is one exactly for arrays of only
   * strings, numbers or booleans.
   */
  lemma ArrayLeafIff(items: seq<Value>, slice: Value)
    ensures ArrayLeaf(items) == Some(slice) <==> IsSliceOf(items, slice)
    ensures ArrayLeaf(items) == None <==>
              items == [] || !((forall i | 0 <= i < |items| :: items[i].Str?)
                               || (forall i | 0 <= i < |items| :: items[i].Num?)
                               || forall i | 0 <= i < |items| :: items[i].Bool?)
  {
    if IsSliceOf(items, slice) {
      SliceIsLeaf(items, slice);
    }
  }

  /** A type assertion fails for an array exactly if it begins with a scalar and there is no slice of it. */
  lemma HomogeneousIff(items: seq<Value>)
    ensures Homogeneous(items) <==>
              items == [] || !(items[0].Str? || items[0].Num? || items[0].Bool?) || exists slice ::
                IsSliceOf(items, slice)
  {
    if slice :| IsSliceOf(items, slice) {
      SliceIsLeaf(items, slice);
    }
    if ArrayLeaf(items).Some? {
      ArrayLeafIff(items, ArrayLeaf(items).value);
    }
  }

  /** The part of a document that the encoder finds under a path: of arrays it enters the objects only. */
  function PartAt(v: Value, path: seq<string>): Option<Value>
    decreases v
  {
    if path == [] then Some(v) else
    match v
    case Obj(fields) => if path[0] in fields then PartAt(fields[path[0]], path[1..]) else None
    case Arr(items) =>
      var i := IndexOf(path[0], |items|);
      if i.None? || !items[i.value].Obj? then None else PartAt(items[i.value], path[1..])
    case _ => None
  }

  /** What a part is stored as. */
  predicate IsStoredAs(part: Value, leaf: Value) {
    match part
    case Obj(_) => false
    case Arr(items) => IsSliceOf(items, leaf)
    case _ => part == leaf
  }

  /** The leaves are the parts that are no objects, arrays as their slices. */
  lemma {:induction false} LeafAtIff(v: Value, path: seq<string>, leaf: Value)
    ensures LeafAt(v, path) == Some(leaf) <==> PartAt(v, path).Some? && IsStoredAs(PartAt(v, path).value, leaf)
    decreases v
  {
    hide ArrayLeaf, IsSliceOf;
    match v
    case Obj(fields) =>
      if path != [] && path[0] in fields {
        LeafAtIff(fields[path[0]], path[1..], leaf);
      }
    case Arr(items) =>
      if path == [] {
        ArrayLeafIff(items, leaf);
      } else {
        var i := IndexOf(path[0], |items|);
        if i.Some? && items[i.value].Obj? {
          LeafAtIff(items[i.value], path[1..], leaf);
        }
      }
    case _ =>
  }

  ghost predicate ArraysAreHomogeneous(v: Value) {
    forall path, items | PartAt(v, path) == Some(Arr(items)) :: Homogeneous(items)
  }

  /** A document can be encoded exactly if no array that the encoder finds fails a type assertion. */
  lemma {:induction false} PanicFreeIff(v: Value)
    ensures PanicFree(v) <==> ArraysAreHomogeneous(v)
    decreases v
  {
    hide Homogeneous;
    match v
    case Obj(fields) =>
      forall k | k in fields
        ensures PanicFree(fields[k]) <==> ArraysAreHomogeneous(fields[k])
      {
        PanicFreeIff(fields[k]);
      }
      PartsOfFields(fields);
    case Arr(items) =>
      forall i | 0 <= i < |items| && items[i].Obj? ensures PanicFree(items[i]) <==> ArraysAreHomogeneous(items[i]) {
        PanicFreeIff(items[i]);
      }
      PartsOfItems(items);
    case _ =>
      assert forall path :: PartAt(v, path) == if path == [] then Some(v) else None;
  }

  lemma PartsOfFields(fields: map<string, Value>)
    ensures ArraysAreHomogeneous(Obj(fields)) <==> forall k | k in fields :: ArraysAreHomogeneous(fields[k])
  {
    hide Homogeneous;
    if ArraysAreHomogeneous(Obj(fields)) {
      forall k, path, items | k in fields && PartAt(fields[k], path) == Some(Arr(items)) ensures Homogeneous(items) {
        assert ([k] + path)[1..] == path && PartAt(Obj(fields), [k] + path) == Some(Arr(items));
      }
    }
    if forall k | k in fields :: ArraysAreHomogeneous(fields[k]) {
      forall path, items | PartAt(Obj(fields), path) == Some(Arr(items)) ensures Homogeneous(items) {
        assert PartAt(fields[path[0]], path[1..]) == Some(Arr(items));
      }
    }
  }

  lemma PartsOfItems(items: seq<Value>)
    ensures ArraysAreHomogeneous(Arr(items)) <==>
              Homogeneous(items) && forall i | 0 <= i < |items| && items[i].Obj? :: ArraysAreHomogeneous(items[i])
  {
    hide Homogeneous, Itoa;
    if ArraysAreHomogeneous(Arr(items)) {
      assert PartAt(Arr(items), []) == Some(Arr(items));
      forall i, path, inner | 0 <= i < |items| && items[i].Obj? && PartAt(items[i], path) == Some(Arr(inner))
        ensures Homogeneous(inner)
      {
        ItemPart(items, i, path);
        assert PartAt(Arr(items), [Itoa(i)] + path) == Some(Arr(inner));
      }
    }
    if Homogeneous(items) && forall i | 0 <= i < |items| && items[i].Obj? :: ArraysAreHomogeneous(items[i]) {
      forall path, inner | PartAt(Arr(items), path) == Some(Arr(inner)) ensures Homogeneous(inner) {
        if path != [] {
          var i := IndexOf(path[0], |items|).value;
          assert ArraysAreHomogeneous(items[i]) && PartAt(items[i], path[1..]) == Some(Arr(inner));
        }
      }
    }
  }

  /** The object at index `i` is found under the printed index. */
  lemma ItemPart(items: seq<Value>, i: nat, path: seq<string>)
    requires i < |items| && items[i].Obj?
    ensures PartAt(Arr(items), [Itoa(i)] + path) == PartAt(items[i], path)
  {
    var j := IndexOf(Itoa(i), |items|);
    assert j.Some?;
    ItoaInjective(i, j.value);
    assert ([Itoa(i)] + path)[1..] == path;
  }

  /** An address has its segments in order, with a dot between any two. */
  lemma {:induction false} DottedConcat(p: seq<string>, q: seq<string>)
    requires p != [] && q != []
    ensures Dotted([p[0]]) == p[0] && Dotted(p + q) == Dotted(p) + "." + Dotted(q)
  {
    assert (p + q)[1..] == p[1..] + q;
    if |p| > 1 {
      DottedConcat(p[1..], q);
    } else {
      assert p[1..] + q == q;
    }
  }
}
