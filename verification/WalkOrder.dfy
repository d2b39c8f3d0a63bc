/** Where the order of walking a document shows: in the writes that can come last. */
module WalkOrder {
  import opened Decimal
  import opened Options
  import opened Document
  import opened Writes

  function To(ws: seq<Write>, at: Location): set<Write> {
    set w | w in ws && LocationOf(w) == at
  }

  /**
   * The writes to one place that can come last in a walk of a field: one of any field of an object,
   * but only of the last item that has any.
   */
  ghost function LastWrites(task: Task, at: Location, prefix: string, k: string, v: Value): set<Write>
    decreases v, 1, 0
  {
    match v
    case Obj(fields) => FieldLastWrites(task, at, prefix + k + ".", v, fields.Keys)
    case Arr(items) =>
      var own := To(SliceWrites(task, prefix, k, items), at);
      if own != {} then own else ItemLastWrites(task, at, prefix + k, items, |items|)
    case _ => To(LeafWrites(task, Leaf(prefix + k, k, v)), at)
  }

  ghost function FieldLastWrites(task: Task, at: Location, prefix: string, v: Value, names: set<string>): set<Write>
    requires v.Obj? && names <= v.fields.Keys
    decreases v, 0, 0
  {
    set k, w | k in names && w in LastWrites(task, at, prefix, k, v.fields[k]) :: w
  }

  ghost function ItemLastWrites(task: Task, at: Location, address: string, items: seq<Value>, n: nat): set<Write>
    requires n <= |items|
    decreases Arr(items), 0, n
  {
    if n == 0 then {} else
    var item := items[n - 1];
    var own := if item.Obj? then FieldLastWrites(task, at, address + "." + Itoa(n - 1) + ".", item, item.fields.Keys)
        else {};
    if own != {} then own else ItemLastWrites(task, at, address, items, n - 1)
  }

  /** The last write to one place. */
  function LastTo(ws: seq<Write>, at: Location): (w: Option<Write>)
    ensures w.None? <==> forall x | x in ws :: LocationOf(x) != at
    ensures w.Some? ==> w.value in ws && LocationOf(w.value) == at
  {
    if ws == [] then None else
    var last := ws[|ws| - 1];
    if LocationOf(last) == at then Some(last) else LastTo(ws[..|ws| - 1], at)
  }

  lemma {:induction false} LastToConcat(a: seq<Write>, b: seq<Write>, at: Location)
    ensures LastTo(a + b, at) == if LastTo(b, at).Some? then LastTo(b, at) else LastTo(a, at)
  {
    if b == [] {
      assert a + b == a;
    } else {
      assert (a + b)[..|a + b| - 1] == a + b[..|b| - 1];
      LastToConcat(a, b[..|b| - 1], at);
    }
  }

  /** A leaf writes to a place at most once. */
  lemma LastOfLeaf(task: Task, leaf: Leaf, at: Location)
    ensures IsLastOf(To(LeafWrites(task, leaf), at), LeafWrites(task, leaf), at)
    ensures forall w | w in To(LeafWrites(task, leaf), at) :: LastTo(LeafWrites(task, leaf), at) == Some(w)
  {
  }

  /** The last write of `ws`, if any, is one of the writes `last`; without any there are none of those. */
  ghost predicate IsLastOf(last: set<Write>, ws: seq<Write>, at: Location) {
    match LastTo(ws, at)
    case None => last == {}
    case Some(w) => w in last
  }

  lemma LastOfSlice(task: Task, prefix: string, k: string, items: seq<Value>, at: Location)
    ensures var ws := SliceWrites(task, prefix, k, items);
            IsLastOf(To(ws, at), ws, at) && forall w | w in To(ws, at) :: LastTo(ws, at) == Some(w)
  {
    if ArrayLeaf(items).Some? {
      LastOfLeaf(task, Leaf(prefix + k, k, ArrayLeaf(items).value), at);
    }
  }

  lemma FieldLastStep(task: Task, at: Location, prefix: string, v: Value, names: set<string>, k: string)
    requires v.Obj? && names <= v.fields.Keys && k in names
    ensures FieldLastWrites(task, at, prefix, v, names)
            == FieldLastWrites(task, at, prefix, v, names - {k}) + LastWrites(task, at, prefix, k, v.fields[k])
  {
  }

  /** The last writes that the item before `n` has of its own. */
  ghost function OwnLastWrites(task: Task, at: Location, address: string, items: seq<Value>, n: nat): set<Write>
    requires 0 < n <= |items| && items[n - 1].Obj?
    decreases items[n - 1], 0, 1
  {
    FieldLastWrites(task, at, address + "." + Itoa(n - 1) + ".", items[n - 1], items[n - 1].fields.Keys)
  }

  lemma ItemLastStep(task: Task, at: Location, address: string, items: seq<Value>, n: nat)
    requires 0 < n <= |items| && items[n - 1].Obj?
    ensures ItemLastWrites(task, at, address, items, n)
            == if OwnLastWrites(task, at, address, items, n) != {} then OwnLastWrites(task, at, address, items, n)
               else ItemLastWrites(task, at, address, items, n - 1)
  {
  }

  lemma LastOfBoth(s: set<Write>, a: seq<Write>, t: set<Write>, b: seq<Write>, at: Location)
    requires IsLastOf(s, a, at) && IsLastOf(t, b, at)
    ensures IsLastOf(s + t, a + b, at) && IsLastOf(if t != {} then t else s, a + b, at)
  {
    LastToConcat(a, b, at);
    hide LastTo;
  }

  /** What comes last in a walk is one of these writes. */
  lemma {:induction false} WalkEnds(task: Task, at: Location, prefix: string, k: string, v: Value, ws: seq<Write>)
    requires IsWalk(task, prefix, k, v, ws)
    ensures IsLastOf(LastWrites(task, at, prefix, k, v), ws, at)
    decreases v, 1, 0
  {
    match v
    case Obj(fields) => FieldWalkEnds(task, at, prefix + k + ".", v, fields.Keys, ws);
    case Arr(items) =>
      var own := SliceWrites(task, prefix, k, items);
      var a :| IsItemWalk(task, prefix + k, items, |items|, a) && ws == a + own;
      ItemWalkEnds(task, at, prefix + k, items, |items|, a);
      hide IsItemWalk, LastTo, LeafWrites;
      LastToConcat(a, own, at);
      LastOfSlice(task, prefix, k, items, at);
    case _ => LastOfLeaf(task, Leaf(prefix + k, k, v), at);
  }

  lemma {:induction false} FieldWalkEnds(task: Task, at: Location, prefix: string, v: Value, names: set<string>,
                                         ws: seq<Write>)
    requires v.Obj? && names <= v.fields.Keys && IsFieldWalk(task, prefix, v, names, ws)
    ensures IsLastOf(FieldLastWrites(task, at, prefix, v, names), ws, at)
    decreases v, 0, |names|
  {
    if names != {} {
      var k, a, b := SplitFieldWalk(task, prefix, v, names, ws);
      hide *;
      FieldWalkEnds(task, at, prefix, v, names - {k}, a);
      WalkEnds(task, at, prefix, k, v.fields[k], b);
      FieldLastStep(task, at, prefix, v, names, k);
      LastOfBoth(FieldLastWrites(task, at, prefix, v, names - {k}), a, LastWrites(task, at, prefix, k, v.fields[k]),
                 b, at);
    }
  }

  lemma {:induction false} ItemWalkEnds(task: Task, at: Location, address: string, items: seq<Value>, n: nat,
                                        ws: seq<Write>)
    requires n <= |items| && IsItemWalk(task, address, items, n, ws)
    ensures IsLastOf(ItemLastWrites(task, at, address, items, n), ws, at)
    decreases Arr(items), 0, n
  {
    if n > 0 {
      if items[n - 1].Obj? {
        var a, b := SplitItemWalk(task, address, items, n, ws);
        hide *;
        ItemWalkEnds(task, at, address, items, n - 1, a);
        FieldWalkEnds(task, at, address + "." + Itoa(n - 1) + ".", items[n - 1], items[n - 1].fields.Keys, b);
        JoinItemEnds(task, at, address, items, n, a, b);
      } else {
        ItemWalkEnds(task, at, address, items, n - 1, ws);
        hide IsLastOf, IsItemWalk;
      }
    }
  }

  lemma JoinItemEnds(task: Task, at: Location, address: string, items: seq<Value>, n: nat, a: seq<Write>, b: seq<Write>)
    requires 0 < n <= |items| && items[n - 1].Obj?
    requires IsLastOf(ItemLastWrites(task, at, address, items, n - 1), a, at)
    requires var inner := address + "." + Itoa(n - 1) + ".";
             IsLastOf(FieldLastWrites(task, at, inner, items[n - 1], items[n - 1].fields.Keys), b, at)
    ensures IsLastOf(ItemLastWrites(task, at, address, items, n), a + b, at)
  {
    hide IsLastOf, FieldLastWrites, ItemLastWrites, Itoa;
    ItemLastStep(task, at, address, items, n);
    LastOfBoth(ItemLastWrites(task, at, address, items, n - 1), a, OwnLastWrites(task, at, address, items, n), b, at);
  }

  lemma {:induction false} SomeWalk(task: Task, prefix: string, k: string, v: Value) returns (ws: seq<Write>)
    ensures IsWalk(task, prefix, k, v, ws)
    decreases v, 1, 0
  {
    match v
    case Obj(fields) => ws := SomeFieldWalk(task, prefix + k + ".", v, fields.Keys);
    case Arr(items) =>
      var a := SomeItemWalk(task, prefix + k, items, |items|);
      ws := a + SliceWrites(task, prefix, k, items);
    case _ => ws := LeafWrites(task, Leaf(prefix + k, k, v));
  }

  lemma {:induction false} SomeFieldWalk(task: Task, prefix: string, v: Value, names: set<string>)
    returns (ws: seq<Write>)
    requires v.Obj? && names <= v.fields.Keys
    ensures IsFieldWalk(task, prefix, v, names, ws)
    decreases v, 0, |names|
  {
    if names == {} {
      ws := [];
    } else {
      var k :| k in names;
      var a := SomeFieldWalk(task, prefix, v, names - {k});
      var b := SomeWalk(task, prefix, k, v.fields[k]);
      ws := a + b;
    }
  }

  lemma {:induction false} SomeItemWalk(task: Task, address: string, items: seq<Value>, n: nat) returns (ws: seq<Write>)
    requires n <= |items|
    ensures IsItemWalk(task, address, items, n, ws)
    decreases Arr(items), 0, n
  {
    if n == 0 {
      ws := [];
    } else {
      ws := SomeItemWalk(task, address, items, n - 1);
      if items[n - 1].Obj? {
        var b := SomeFieldWalk(task, address + "." + Itoa(n - 1) + ".", items[n - 1], items[n - 1].fields.Keys);
        ws := ws + b;
      }
    }
  }

  /** And each of them comes last in some walk. */
  lemma {:induction false} LastIsReached(task: Task, at: Location, prefix: string, k: string, v: Value, w: Write)
    returns (ws: seq<Write>)
    requires w in LastWrites(task, at, prefix, k, v)
    ensures IsWalk(task, prefix, k, v, ws) && LastTo(ws, at) == Some(w)
    decreases v, 1, 0
  {
    match v
    case Obj(fields) => ws := FieldLastIsReached(task, at, prefix + k + ".", v, fields.Keys, w);
    case Arr(items) =>
      var own := SliceWrites(task, prefix, k, items);
      LastOfSlice(task, prefix, k, items, at);
      var a;
      if To(own, at) != {} {
        a := SomeItemWalk(task, prefix + k, items, |items|);
      } else {
        a := ItemLastIsReached(task, at, prefix + k, items, |items|, w);
      }
      ws := a + own;
      LastToConcat(a, own, at);
    case _ =>
      ws := LeafWrites(task, Leaf(prefix + k, k, v));
      LastOfLeaf(task, Leaf(prefix + k, k, v), at);
  }

  lemma {:induction false} FieldLastIsReached(task: Task, at: Location, prefix: string, v: Value, names: set<string>,
                                              w: Write)
    returns (ws: seq<Write>)
    requires v.Obj? && names <= v.fields.Keys && w in FieldLastWrites(task, at, prefix, v, names)
    ensures IsFieldWalk(task, prefix, v, names, ws) && LastTo(ws, at) == Some(w)
    decreases v, 0, 0
  {
    var k :| k in names && w in LastWrites(task, at, prefix, k, v.fields[k]);
    var a := SomeFieldWalk(task, prefix, v, names - {k});
    var b := LastIsReached(task, at, prefix, k, v.fields[k], w);
    ws := a + b;
    LastToConcat(a, b, at);
  }

  lemma {:induction false} ItemLastIsReached(task: Task, at: Location, address: string, items: seq<Value>, n: nat,
                                             w: Write)
    returns (ws: seq<Write>)
    requires n <= |items| && w in ItemLastWrites(task, at, address, items, n)
    ensures IsItemWalk(task, address, items, n, ws) && LastTo(ws, at) == Some(w)
    decreases Arr(items), 0, n
  {
    if !items[n - 1].Obj? {
      ws := ItemLastIsReached(task, at, address, items, n - 1, w);
    } else {
      var fields, inner := items[n - 1].fields.Keys, address + "." + Itoa(n - 1) + ".";
      ItemLastStep(task, at, address, items, n);
      hide LastTo, FieldLastWrites, ItemLastWrites, IsFieldWalk, Itoa;
      var a, b;
      if OwnLastWrites(task, at, address, items, n) != {} {
        a := SomeItemWalk(task, address, items, n - 1);
        b := FieldLastIsReached(task, at, inner, items[n - 1], fields, w);
      } else {
        a := ItemLastIsReached(task, at, address, items, n - 1, w);
        b := SomeFieldWalk(task, inner, items[n - 1], fields);
        FieldWalkEnds(task, at, inner, items[n - 1], fields, b);
      }
      ws := a + b;
      LastToConcat(a, b, at);
    }
  }

  /** An entity holds the last write to each place, and is as before where there is none. */
  lemma {:induction false} LastStays(e: EntityState, ws: seq<Write>, at: Location)
    ensures match LastTo(ws, at) case Some(w) => Holds(PutAll(e, ws), w) case None => Agree(e, PutAll(e, ws), at)
  {
    if ws != [] {
      LastStays(e, ws[..|ws| - 1], at);
    }
  }

  lemma SameLastSameEntity(e: EntityState, a: seq<Write>, b: seq<Write>)
    requires forall at: Location :: LastTo(a, at) == LastTo(b, at)
    ensures PutAll(e, a) == PutAll(e, b)
  {
    forall at: Location ensures Agree(PutAll(e, a), PutAll(e, b), at) {
      LastStays(e, a, at);
      LastStays(e, b, at);
      assert LastTo(a, at) == LastTo(b, at);
      if LastTo(a, at).Some? {
        HoldsDecides(PutAll(e, a), PutAll(e, b), LastTo(a, at).value);
      }
    }
    AgreeEverywhere(PutAll(e, a), PutAll(e, b));
  }

  /** What an array writes to a place is settled: it comes from the last of its items that writes there. */
  lemma LastItemCounts(task: Task, at: Location, prefix: string, k: string, items: seq<Value>, n: nat, ws: seq<Write>,
                       e: EntityState)
    requires IsWalk(task, prefix, k, Arr(items), ws)
    requires 0 < n <= |items| && items[n - 1].Obj? && OwnLastWrites(task, at, prefix + k, items, n) != {}
    requires forall m | n < m <= |items| && items[m - 1].Obj? :: OwnLastWrites(task, at, prefix + k, items, m) == {}
    ensures exists w | w in OwnLastWrites(task, at, prefix + k, items, n) ::
            LastTo(ws, at) == Some(w) && Holds(PutAll(e, ws), w)
  {
    assert ArrayLeaf(items) == None by {
      assert !items[n - 1].Str? && !items[n - 1].Num? && !items[n - 1].Bool?;
    }
    WalkEnds(task, at, prefix, k, Arr(items), ws);
    LastStays(e, ws, at);
    hide *;
    NoSliceNoWrites(task, at, prefix, k, items);
    LaterItemsAreSilent(task, at, prefix + k, items, n, |items|);
    LastIsThere(OwnLastWrites(task, at, prefix + k, items, n), ws, at);
  }

  lemma LastIsThere(last: set<Write>, ws: seq<Write>, at: Location)
    requires IsLastOf(last, ws, at) && last != {}
    ensures LastTo(ws, at).Some? && LastTo(ws, at).value in last
  {
  }

  lemma NoSliceNoWrites(task: Task, at: Location, prefix: string, k: string, items: seq<Value>)
    requires ArrayLeaf(items) == None
    ensures LastWrites(task, at, prefix, k, Arr(items)) == ItemLastWrites(task, at, prefix + k, items, |items|)
  {
  }

  lemma {:induction false} LaterItemsAreSilent(task: Task, at: Location, address: string, items: seq<Value>, n: nat,
                                               m: nat)
    requires 0 < n <= m <= |items| && items[n - 1].Obj? && OwnLastWrites(task, at, address, items, n) != {}
    requires forall i | n < i <= m && items[i - 1].Obj? :: OwnLastWrites(task, at, address, items, i) == {}
    ensures ItemLastWrites(task, at, address, items, m) == OwnLastWrites(task, at, address, items, n)
  {
    if n < m {
      LaterItemsAreSilent(task, at, address, items, n, m - 1);
    }
    if items[m - 1].Obj? {
      ItemLastStep(task, at, address, items, m);
    }
  }
}
