/** The array the right lines print is the array the library makes when the positions of the deltas
    are in step. */
module DiffArrays {
  import opened Options
  import opened JsonDoc
  import opened DiffLines
  import opened DiffApply
  import opened DiffPlaces
  import opened DiffMerge

  // ---------- the array the right lines print

  ghost function WalkedItems(items: seq<Json>, i: nat, ds: seq<Delta>): seq<Json>
    requires i <= |items|
    decreases |items| - i
  {
    if i == |items| then [] else WalkedAt(items[i], At(ds, i)) + WalkedItems(items, i + 1, ds)
  }

  ghost function WalkedAt(v: Json, found: seq<Delta>): seq<Json> {
    if found == [] then [v] else WalkedFound(v, found)
  }

  /** The walk stops at a Moved, which it refuses. */
  ghost function WalkedFound(v: Json, found: seq<Delta>): seq<Json> {
    if found == [] || found[0].Moved? then []
    else (if found[0].Deleted? then [] else [PostValue(Some(v), found).value]) + WalkedFound(v, found[1..])
  }

  function ValuesOf(ds: seq<Delta>): seq<Json>
    requires forall d :: d in ds ==> d.Added?
  {
    if ds == [] then [] else [ds[0].added] + ValuesOf(ds[1..])
  }

  /** The value a delta leaves in an array does not depend on what is ordered after it. */
  lemma PostValueHead(old_: Option<Json>, s: seq<Delta>)
    requires s != []
    ensures PostValue(old_, s) == PostValue(old_, [s[0]])
  {
  }

  lemma {:induction false} WalkedPosts(v: Json, found: seq<Delta>)
    requires |Posts(found)| <= 1
    ensures WalkedFound(v, found) ==
      if Posts(found) == [] || Posts(found)[0].Moved? then [] else [PostValue(Some(v), Posts(found)).value]
  {
    if found != [] {
      WalkedPosts(v, found[1..]);
      PostValueHead(Some(v), found);
      if !found[0].Deleted? {
        assert Posts(found) == [found[0]];
      }
    }
  }

  lemma WalkedOne(v: Json, ds: seq<Delta>, i: int)
    requires Separate(ds)
    ensures Untouched(ds, i) ==> WalkedAt(v, At(ds, i)) == [v]
    ensures Silent(ds, i) ==> WalkedAt(v, At(ds, i)) == []
    ensures Placed(ds, i) && !IsMoved(ds, i) ==> WalkedAt(v, At(ds, i)) == [PostValue(Some(v), Posts(At(ds, i))).value]
  {
    assert AtMostOne(ds, i);
    WalkedPosts(v, At(ds, i));
    UntouchedIff(ds, i);
  }

  // ---------- what is yet to come

  /** The ordered deltas the library has yet to apply when the formatter is at index i: a Moved
      waits until the formatter comes by its item. */
  ghost predicate Pending(s: seq<Delta>, ds: seq<Delta>, i: int) {
    && Ascends(s)
    && forall d :: d in s <==> d in ds && !d.Deleted? && Waits(d, i)
  }

  predicate Waits(d: Delta, i: int) {
    if d.Moved? then d.from.Index? && d.from.index >= i else d.at.Index? && d.at.index >= i
  }

  lemma PendingAll(ds: seq<Delta>)
    requires Separate(ds)
    ensures Pending(PostOrder(ds), ds, 0)
  {
    PostOrderAscends(ds);
    PostOrderHas(ds);
  }

  /** Nothing waits for index i. */
  lemma PendingSame(s: seq<Delta>, ds: seq<Delta>, i: int)
    requires Pending(s, ds, i)
    requires forall d :: d in ds && !d.Deleted? && Waits(d, i) ==> Waits(d, i + 1)
    ensures Pending(s, ds, i + 1)
  {
    forall d | d in ds && !d.Deleted? && Waits(d, i + 1) ensures Waits(d, i) {
    }
  }

  /** The first delta waits for index i, and no other. */
  lemma PendingNext(s: seq<Delta>, ds: seq<Delta>, i: int)
    requires Pending(s, ds, i) && s != [] && !Waits(s[0], i + 1)
    requires forall d :: d in ds && !d.Deleted? && Waits(d, i) ==> d == s[0] || Waits(d, i + 1)
    ensures Pending(s[1..], ds, i + 1)
  {
    HeadIsLeast(s);
    assert s == [s[0]] + s[1..];
    forall d | d in s[1..] ensures d in ds && !d.Deleted? && Waits(d, i + 1) {
      assert s[0].at.index < d.at.index;
    }
  }

  /** The delta that comes before all others comes first. */
  lemma LeastFirst(s: seq<Delta>, d: Delta)
    requires Ascends(s) && d in s && forall e :: e in s ==> e == d || d.at.index < e.at.index
    ensures s[0] == d
  {
    assert s[0] in s;
    var k :| 0 <= k < |s| && s[k] == d;
    if k > 0 {
      assert s[0].at.index < s[k].at.index;
    }
  }

  /** The state of the sweep: the formatter at index i, the library at its place. */
  ghost predicate Sweeping(ds: seq<Delta>, n: nat, i: nat, s: seq<Delta>) {
    InStep(ds, n) && i <= n && Pending(s, ds, i)
  }

  /** An untouched item that stays. */
  lemma AtStaying(ds: seq<Delta>, n: nat, i: nat, s: seq<Delta>)
    requires Sweeping(ds, n, i, s) && i < n && Untouched(ds, i) && !Leaves(ds, i)
    ensures Debt(ds, i) == 0 && !Gone(ds, i) && Rest(ds, i, n) == Rest(ds, i + 1, n) + 1
    ensures Pending(s, ds, i + 1) && (s != [] ==> Place(ds, i) < s[0].at.index)
  {
    assert Balanced(ds, n, i);
    RestStep(ds, i, n);
    UntouchedIff(ds, i);
    PendingSame(s, ds, i);
    if s != [] {
      assert s[0] in s;
      PlaceLags(ds, i);
      if s[0].Moved? {
        assert InReach(ds, s[0], n);
        PlaceGrows(ds, i, s[0].from.index);
      }
    }
  }

  /** An untouched item that moves. */
  lemma AtLeaving(ds: seq<Delta>, n: nat, i: nat, s: seq<Delta>)
    requires Sweeping(ds, n, i, s) && i < n && Untouched(ds, i) && Leaves(ds, i)
    ensures Rest(ds, i, n) == Rest(ds, i + 1, n)
    ensures s != [] && s[0] in ds && s[0].Moved? && s[0].from == Index(i) && s[0].at == Index(Place(ds, i))
    ensures Pending(s[1..], ds, i + 1)
  {
    RestStep(ds, i, n);
    UntouchedIff(ds, i);
    GoneIff(ds, i);
    PlaceLags(ds, i);
    assert AtMostOne(ds, i);
    var d :| d in ds && d.Moved? && d.from == Index(i);
    assert InReach(ds, d, n) && Removes(d, i);
    forall e | e in s ensures e == d || (d.at.index < e.at.index && Waits(e, i + 1)) {
      if e.Moved? && e != d {
        assert !Removes(e, i);
        assert InReach(ds, e, n);
        PlaceGrows(ds, i, e.from.index);
      }
    }
    LeastFirst(s, d);
    PendingNext(s, ds, i);
  }

  /** An index where the formatter is silent. */
  lemma AtSilent(ds: seq<Delta>, n: nat, i: nat, s: seq<Delta>)
    requires Sweeping(ds, n, i, s) && i < n && Silent(ds, i)
    ensures Rest(ds, i, n) == Rest(ds, i + 1, n) && Pending(s, ds, i + 1)
  {
    RestStep(ds, i, n);
    PlacedIff(ds, i);
    assert AtMostOne(ds, i);
    hide Posts, At, Debt, Rest, Climbs, NewOnes, Staying, Gone;
    forall d | d in ds && !d.Deleted? && Waits(d, i) ensures Waits(d, i + 1) {
      if d.Moved? { assert InReach(ds, d, n); }
    }
    PendingSame(s, ds, i);
  }

  /** An index where something is put or changed. */
  lemma AtPlaced(ds: seq<Delta>, n: nat, i: nat, s: seq<Delta>)
    requires Sweeping(ds, n, i, s) && i < n && Placed(ds, i) && !IsMoved(ds, i)
    ensures s != [] && s[0] == Posts(At(ds, i))[0] && s[0].at == Index(i) && !s[0].Moved? && !s[0].Deleted?
    ensures Pending(s[1..], ds, i + 1)
    ensures Rest(ds, i, n) == Rest(ds, i + 1, n) + if s[0].Added? then 0 else 1
    ensures Place(ds, i) == i || (s[0].Added? && Rest(ds, i, n) == 0)
    ensures s[0].ObjectDelta? || s[0].ArrayDelta? ==> Debt(ds, i) == 0 && !Gone(ds, i)
  {
    hide *;
    PlacedFirst(ds, n, i, s);
    PlacedFacts(ds, n, i, s);
  }

  /** What is put at an index is next in line. */
  lemma PlacedFirst(ds: seq<Delta>, n: nat, i: nat, s: seq<Delta>)
    requires Sweeping(ds, n, i, s) && i < n && Placed(ds, i) && !IsMoved(ds, i)
    ensures s != [] && s[0] == Posts(At(ds, i))[0] && s[0].at == Index(i) && !s[0].Moved? && !s[0].Deleted?
    ensures Pending(s[1..], ds, i + 1)
  {
    PlacedIff(ds, i);
    UntouchedIff(ds, i);
    assert AtMostOne(ds, i) && !IsMoved(ds, i);
    var d := Posts(At(ds, i))[0];
    hide Posts, At, Placed, Untouched, Debt, Rest, Climbs, NewOnes, Silent, Staying, IsMoved, Gone;
    forall e | e in s ensures e == d || (i < e.at.index && Waits(e, i + 1)) {
      if e.Moved? {
        assert InReach(ds, e, n) && Unspanned(ds, e, i);
        PlaceLags(ds, e.from.index);
      }
    }
    LeastFirst(s, d);
    PendingNext(s, ds, i);
  }

  lemma PlacedFacts(ds: seq<Delta>, n: nat, i: nat, s: seq<Delta>)
    requires Sweeping(ds, n, i, s) && i < n && Placed(ds, i) && !IsMoved(ds, i)
    requires s != [] && s[0] == Posts(At(ds, i))[0]
    ensures Rest(ds, i, n) == Rest(ds, i + 1, n) + if s[0].Added? then 0 else 1
    ensures Place(ds, i) == i || (s[0].Added? && Rest(ds, i, n) == 0)
    ensures s[0].ObjectDelta? || s[0].ArrayDelta? ==> Debt(ds, i) == 0 && !Gone(ds, i)
  {
    assert Balanced(ds, n, i) && Debt(ds, n) == 0;
    UntouchedIff(ds, i);
    RestStep(ds, i, n);
    RestBounds(ds, i + 1, n);
    PlaceLags(ds, i);
    if Place(ds, i) < i {
      var k: nat :| k < i && Silent(ds, k);
      assert Undisturbed(ds, n, k, i);
    }
  }

  // ---------- the two in step

  /** The last r items. */
  function Tail(items: seq<Json>, r: nat): seq<Json>
    requires r <= |items|
  {
    items[|items| - r..]
  }

  lemma TailNext(kept: seq<Json>, r: nat)
    requires r <= |kept|
    ensures |Tail(kept, r)| == r && (r > 0 ==> Tail(kept, r)[1..] == Tail(kept, r - 1))
  {
  }

  lemma {:induction false} KeptLength(items: seq<Json>, ds: seq<Delta>, i: nat)
    requires Separate(ds) && i <= |items|
    ensures |Kept(items, PreOrder(ds), i)| == Staying(ds, i, |items|)
    decreases |items| - i
  {
    if i < |items| {
      PreOrderHas(ds);
      KeptStep(items, PreOrder(ds), i);
      StayingStep(ds, i, |items|);
      hide *;
      KeptLength(items, ds, i + 1);
    }
  }

  lemma KeptStep(items: seq<Json>, gone: seq<int>, i: nat)
    requires i < |items|
    ensures |Kept(items, gone, i)| == |Kept(items, gone, i + 1)| + if i in gone then 0 else 1
  {
  }

  lemma StayingStep(ds: seq<Delta>, i: nat, n: nat)
    requires i < n
    ensures Staying(ds, i, n) == Staying(ds, i + 1, n) + if Gone(ds, i) then 0 else 1
  {
  }

  lemma {:induction false} KeptIsTail(items: seq<Json>, gone: seq<int>, i: nat)
    requires i <= |items|
    ensures var kept, rest := Kept(items, gone, 0), Kept(items, gone, i);
      |rest| <= |kept| && Tail(kept, |rest|) == rest
  {
    if i > 0 {
      KeptIsTail(items, gone, i - 1);
      var kept, before, rest := Kept(items, gone, 0), Kept(items, gone, i - 1), Kept(items, gone, i);
      assert before == (if i - 1 in gone then [] else [items[i - 1]]) + rest;
    }
  }

  /** Where nothing is owed, the next old item to place is the one at this index. */
  lemma SettledHere(items: seq<Json>, ds: seq<Delta>, i: nat)
    requires i < |items| && Separate(ds) && Debt(ds, i) == 0 && !Gone(ds, i)
    ensures var n, kept := |items|, Kept(items, PreOrder(ds), 0);
      0 < Rest(ds, i, n) <= |kept| && Tail(kept, Rest(ds, i, n))[0] == items[i]
  {
    KeptLength(items, ds, i);
    KeptIsTail(items, PreOrder(ds), i);
    PreOrderHas(ds);
  }

  /** The formatter at index i and the library at place p of the new array put out the same from
      there on. */
  ghost predicate Agree(items: seq<Json>, ds: seq<Delta>, i: nat, p: int, s: seq<Delta>) {
    var n, kept := |items|, Kept(items, PreOrder(ds), 0);
    && i <= n && (forall d :: d in s ==> d.at.Index?) && (forall d :: d in NewOnes(ds, n) ==> d.Added?)
    && 0 <= Rest(ds, i, n) <= |kept|
    && Merge(Tail(kept, Rest(ds, i, n)), s, p) == Some(WalkedItems(items, i, ds) + ValuesOf(NewOnes(ds, n)))
  }

  /** What is owed to the output at index i, and what the merge of the rest starts with. */
  lemma AgreeStep(items: seq<Json>, ds: seq<Delta>, i: nat, p: int, s: seq<Delta>, q: int, s': seq<Delta>)
    requires i < |items| && 0 <= Rest(ds, i, |items|) <= |Kept(items, PreOrder(ds), 0)|
    requires Agree(items, ds, i + 1, q, s') && forall d :: d in s ==> d.at.Index?
    requires var rest := Tail(Kept(items, PreOrder(ds), 0), Rest(ds, i, |items|));
      var out, next := WalkedAt(items[i], At(ds, i)), Tail(Kept(items, PreOrder(ds), 0), Rest(ds, i + 1, |items|));
      || (out == [] && Merge(rest, s, p) == Merge(next, s', q))
      || (|out| == 1 && Merge(rest, s, p) == Cons(out[0], Merge(next, s', q)))
    ensures Agree(items, ds, i, p, s)
  {
    hide Merge, WalkedAt, Tail, Kept, Rest, NewOnes, PreOrder;
    var n := |items|;
    var out := WalkedAt(items[i], At(ds, i));
    var more, new_ := WalkedItems(items, i + 1, ds), ValuesOf(NewOnes(ds, n));
    assert WalkedItems(items, i, ds) == out + more;
    assert out + more + new_ == out + (more + new_);
    if out == [] {
      assert [] + (more + new_) == more + new_;
    } else {
      assert out == [out[0]];
    }
  }

  lemma MergeKept(rest: seq<Json>, s: seq<Delta>, p: int)
    requires rest != [] && (forall d :: d in s ==> d.at.Index?) && (s != [] ==> p < s[0].at.index)
    ensures Merge(rest, s, p) == Cons(rest[0], Merge(rest[1..], s, p + 1))
  {
    if s == [] {
      assert rest == [rest[0]] + rest[1..];
    }
  }

  lemma MergeMoved(rest: seq<Json>, s: seq<Delta>, p: int)
    requires s != [] && (forall d :: d in s ==> d.at.Index?) && s[0].Moved? && s[0].at == Index(p)
    ensures Merge(rest, s, p) == Cons(s[0].moved, Merge(rest, s[1..], p + 1))
  {
  }

  lemma MergePut(rest: seq<Json>, s: seq<Delta>, p: int)
    requires s != [] && (forall d :: d in s ==> d.at.Index?) && s[0].Added? && (rest == [] || p >= s[0].at.index)
    ensures Merge(rest, s, p) == Cons(s[0].added, Merge(rest, s[1..], p + 1))
  {
  }

  lemma MergeChanged(rest: seq<Json>, s: seq<Delta>, p: int)
    requires rest != [] && s != [] && (forall d :: d in s ==> d.at.Index?) && s[0].at.Index? && p >= s[0].at.index
    requires !s[0].Added? && !s[0].Deleted? && !s[0].Moved?
    ensures PostValue(Some(rest[0]), s).Some?
    ensures Merge(rest, s, p) == Cons(PostValue(Some(rest[0]), s).value, Merge(rest[1..], s[1..], p + 1))
  {
  }

  /** What replaces an item does not depend on it, unless it is changed inside. */
  lemma ChangedAlike(x: Json, y: Json, s: seq<Delta>)
    requires s != [] && !s[0].Deleted? && !s[0].Moved?
    requires s[0].ObjectDelta? || s[0].ArrayDelta? ==> x == y
    ensures PostValue(Some(x), s) == PostValue(Some(y), s)
  {
  }

  lemma WalkedChanged(v: Json, ds: seq<Delta>, i: int, s: seq<Delta>)
    requires Separate(ds) && Placed(ds, i) && s != [] && s[0] == Posts(At(ds, i))[0] && !s[0].Moved?
    ensures WalkedAt(v, At(ds, i)) == [PostValue(Some(v), s).value]
    ensures s[0].Added? ==> WalkedAt(v, At(ds, i)) == [s[0].added]
  {
    WalkedOne(v, ds, i);
    PostValueHead(Some(v), s);
    PostValueHead(Some(v), Posts(At(ds, i)));
  }

  lemma InTail<T>(s: seq<T>)
    requires s != []
    ensures forall x :: x in s[1..] ==> x in s
  {
  }

  lemma PendingIndexed(s: seq<Delta>, ds: seq<Delta>, i: int)
    requires Pending(s, ds, i)
    ensures forall d :: d in s ==> d.at.Index?
  {
  }

  lemma {:induction false} Sweep(items: seq<Json>, ds: seq<Delta>, i: nat, s: seq<Delta>)
    requires Sweeping(ds, |items|, i, s) && Carried(items, ds)
    ensures Agree(items, ds, i, Place(ds, i), s)
    decreases |items| - i
  {
    hide *;
    SweepFacts(items, ds, i, s);
    if i == |items| {
      SweepDone(items, ds, s);
    } else if Untouched(ds, i) {
      if Leaves(ds, i) {
        AtLeaving(ds, |items|, i, s);
        SweepOn(ds, |items|, i, s, s[1..]);
        Sweep(items, ds, i + 1, s[1..]);
        SweepLeaving(items, ds, i, s);
      } else {
        AtStaying(ds, |items|, i, s);
        SweepOn(ds, |items|, i, s, s);
        Sweep(items, ds, i + 1, s);
        SweepStaying(items, ds, i, s);
      }
    } else if Silent(ds, i) {
      AtSilent(ds, |items|, i, s);
      SweepOn(ds, |items|, i, s, s);
      Sweep(items, ds, i + 1, s);
      SweepSilent(items, ds, i, s);
    } else {
      AtPlaced(ds, |items|, i, s);
      SweepOn(ds, |items|, i, s, s[1..]);
      Sweep(items, ds, i + 1, s[1..]);
      SweepPlaced(items, ds, i, s);
    }
  }

  /** All there is to know at one index of the sweep. */
  lemma SweepFacts(items: seq<Json>, ds: seq<Delta>, i: nat, s: seq<Delta>)
    requires Sweeping(ds, |items|, i, s)
    ensures i <= |items| && Separate(ds) && Pending(s, ds, i)
    ensures 0 <= Rest(ds, i, |items|) <= |Kept(items, PreOrder(ds), 0)|
    ensures i < |items| ==> 0 <= Rest(ds, i + 1, |items|)
    ensures Place(ds, i + 1) == Place(ds, i) + if Silent(ds, i) then 0 else 1
    ensures Untouched(ds, i) ==> !Silent(ds, i)
    ensures !Untouched(ds, i) && !Silent(ds, i) ==> Placed(ds, i) && !IsMoved(ds, i)
  {
    hide *;
    SweepingHas(ds, |items|, i, s);
    RestBounds(ds, i, |items|);
    if i < |items| { RestBounds(ds, i + 1, |items|); }
    KeptLength(items, ds, 0);
    RestFirst(ds, |items|);
    PlaceStep(ds, i);
  }

  lemma SweepingHas(ds: seq<Delta>, n: nat, i: nat, s: seq<Delta>)
    requires Sweeping(ds, n, i, s)
    ensures i <= n && Separate(ds) && Debt(ds, n) == 0 && Pending(s, ds, i)
  {
  }

  lemma RestFirst(ds: seq<Delta>, n: nat)
    ensures Rest(ds, 0, n) == Staying(ds, 0, n)
  {
  }

  lemma PlaceStep(ds: seq<Delta>, i: nat)
    ensures Place(ds, i + 1) == Place(ds, i) + if Silent(ds, i) then 0 else 1
    ensures Untouched(ds, i) ==> !Silent(ds, i)
    ensures !Untouched(ds, i) && !Silent(ds, i) ==> Placed(ds, i) && !IsMoved(ds, i)
  {
  }

  lemma SweepOn(ds: seq<Delta>, n: nat, i: nat, s: seq<Delta>, t: seq<Delta>)
    requires Sweeping(ds, n, i, s) && i < n && Pending(t, ds, i + 1)
    ensures Sweeping(ds, n, i + 1, t)
  {
  }

  lemma SweepStaying(items: seq<Json>, ds: seq<Delta>, i: nat, s: seq<Delta>)
    requires Sweeping(ds, |items|, i, s) && i < |items| && Untouched(ds, i) && !Leaves(ds, i)
    requires Agree(items, ds, i + 1, Place(ds, i + 1), s)
    ensures Agree(items, ds, i, Place(ds, i), s)
  {
    hide *;
    var n, p := |items|, Place(ds, i);
    SweepFacts(items, ds, i, s);
    AtStaying(ds, n, i, s);
    WalkedOne(items[i], ds, i);
    PendingIndexed(s, ds, i);
    var kept, r := Kept(items, PreOrder(ds), 0), Rest(ds, i, n);
    SettledHere(items, ds, i);
    TailNext(kept, r);
    MergeKept(Tail(kept, r), s, p);
    AgreeStep(items, ds, i, p, s, p + 1, s);
  }

  lemma SweepLeaving(items: seq<Json>, ds: seq<Delta>, i: nat, s: seq<Delta>)
    requires Sweeping(ds, |items|, i, s) && Carried(items, ds) && i < |items| && Untouched(ds, i) && Leaves(ds, i)
    requires s != [] && Agree(items, ds, i + 1, Place(ds, i + 1), s[1..])
    ensures Agree(items, ds, i, Place(ds, i), s)
  {
    hide *;
    var n, p := |items|, Place(ds, i);
    SweepFacts(items, ds, i, s);
    AtLeaving(ds, n, i, s);
    WalkedOne(items[i], ds, i);
    PendingIndexed(s, ds, i);
    CarriedHere(items, ds, s[0], i);
    MergeMoved(Tail(Kept(items, PreOrder(ds), 0), Rest(ds, i, n)), s, p);
    AgreeStep(items, ds, i, p, s, p + 1, s[1..]);
  }

  lemma CarriedHere(items: seq<Json>, ds: seq<Delta>, d: Delta, i: nat)
    requires Carried(items, ds) && d in ds && d.Moved? && d.from == Index(i) && i < |items|
    ensures d.moved == items[i]
  {
  }

  lemma SweepSilent(items: seq<Json>, ds: seq<Delta>, i: nat, s: seq<Delta>)
    requires Sweeping(ds, |items|, i, s) && i < |items| && Silent(ds, i)
    requires Agree(items, ds, i + 1, Place(ds, i + 1), s)
    ensures Agree(items, ds, i, Place(ds, i), s)
  {
    hide *;
    var n, p := |items|, Place(ds, i);
    SweepFacts(items, ds, i, s);
    AtSilent(ds, n, i, s);
    WalkedOne(items[i], ds, i);
    PendingIndexed(s, ds, i);
    AgreeStep(items, ds, i, p, s, p, s);
  }

  lemma SweepPlaced(items: seq<Json>, ds: seq<Delta>, i: nat, s: seq<Delta>)
    requires Sweeping(ds, |items|, i, s) && i < |items| && Placed(ds, i) && !IsMoved(ds, i) && !Silent(ds, i)
    requires s != [] && Agree(items, ds, i + 1, Place(ds, i + 1), s[1..])
    ensures Agree(items, ds, i, Place(ds, i), s)
  {
    hide *;
    var n, p := |items|, Place(ds, i);
    SweepFacts(items, ds, i, s);
    AtPlaced(ds, n, i, s);
    PendingIndexed(s, ds, i);
    WalkedChanged(items[i], ds, i, s);
    var kept, r := Kept(items, PreOrder(ds), 0), Rest(ds, i, n);
    TailNext(kept, r);
    if s[0].Added? {
      MergePut(Tail(kept, r), s, p);
    } else {
      if s[0].ObjectDelta? || s[0].ArrayDelta? { SettledHere(items, ds, i); }
      ChangedAlike(items[i], Tail(kept, r)[0], s);
      MergeChanged(Tail(kept, r), s, p);
    }
    AgreeStep(items, ds, i, p, s, p + 1, s[1..]);
  }

  lemma {:induction false} SameAscending(a: seq<Delta>, b: seq<Delta>)
    requires Ascends(a) && Ascends(b) && forall d :: d in a <==> d in b
    ensures a == b
  {
    if a != [] && b != [] {
      FirstsMeet(a, b);
      HeadIsLeast(a);
      HeadIsLeast(b);
      assert a == [a[0]] + a[1..] && b == [b[0]] + b[1..];
      forall d ensures d in a[1..] <==> d in b[1..] {
        assert d in a <==> d == a[0] || d in a[1..];
        assert d in b <==> d == b[0] || d in b[1..];
      }
      SameAscending(a[1..], b[1..]);
    } else {
      FirstIsMember(a);
      FirstIsMember(b);
    }
  }

  lemma FirstIsMember<T>(a: seq<T>)
    ensures a == [] || a[0] in a
  {
  }

  lemma FirstsMeet(a: seq<Delta>, b: seq<Delta>)
    requires Ascends(a) && Ascends(b) && a != [] && b != [] && forall d :: d in a <==> d in b
    ensures a[0] == b[0]
  {
    assert a[0] in a && b[0] in b;
    var k :| 0 <= k < |b| && b[k] == a[0];
    var l :| 0 <= l < |a| && a[l] == b[0];
    if k > 0 { assert b[0].at.index < b[k].at.index; }
    if l > 0 { assert a[0].at.index < a[l].at.index; }
  }

  lemma {:induction false} MergeOnlyAdded(s: seq<Delta>, p: int)
    requires forall d :: d in s ==> d.at.Index? && d.Added?
    ensures Merge([], s, p) == Some(ValuesOf(s))
  {
    if s != [] {
      InTail(s);
      assert s[0] in s;
      MergeOnlyAdded(s[1..], p + 1);
    }
  }

  /** Past the end the library appends what the formatter prints last. */
  lemma SweepEnds(ds: seq<Delta>, n: nat, s: seq<Delta>)
    requires Sweeping(ds, n, n, s)
    ensures s == NewOnes(ds, n) && forall d :: d in s ==> d.at.Index? && d.Added?
  {
    NewOnesAre(ds, n);
    forall d | d in s ensures d.Added? {
      assert !d.Added? ==> InReach(ds, d, n);
    }
    SameAscending(s, NewOnes(ds, n));
  }

  lemma SweepDone(items: seq<Json>, ds: seq<Delta>, s: seq<Delta>)
    requires Sweeping(ds, |items|, |items|, s)
    ensures Agree(items, ds, |items|, Place(ds, |items|), s)
  {
    hide *;
    var n := |items|;
    SweepingHas(ds, n, n, s);
    SweepEnds(ds, n, s);
    RestIs(ds, n, n);
    AgreeEnd(items, ds, Place(ds, n), s);
  }

  lemma AgreeEnd(items: seq<Json>, ds: seq<Delta>, p: int, s: seq<Delta>)
    requires s == NewOnes(ds, |items|) && forall d :: d in s ==> d.at.Index? && d.Added?
    requires Rest(ds, |items|, |items|) == 0
    ensures Agree(items, ds, |items|, p, s)
  {
    MergeOnlyAdded(s, p);
    TailNone(Kept(items, PreOrder(ds), 0));
    WalkedNone(items, ds);
    hide Kept, NewOnes, Merge, ValuesOf, PreOrder, Rest, Tail, WalkedItems, At, WalkedAt;
    assert [] + ValuesOf(s) == ValuesOf(s);
  }

  lemma WalkedNone(items: seq<Json>, ds: seq<Delta>)
    ensures WalkedItems(items, |items|, ds) == []
  {
  }

  lemma TailNone(s: seq<Json>)
    ensures Tail(s, 0) == []
  {
  }

  // ---------- carrying changes nothing the formatter prints

  lemma {:induction false} SearchCarry(items: seq<Json>, ds: seq<Delta>, at: Position)
    ensures Search(Carry(items, ds), at) == Carry(items, Search(ds, at))
  {
    if ds != [] {
      SearchCarry(items, ds[1..], at);
      var cs := Carry(items, ds);
      assert cs[1..] == Carry(items, ds[1..]);
      assert ([ds[0]] + Search(ds[1..], at))[1..] == Search(ds[1..], at);
    }
  }

  lemma {:induction false} FoundCarry(items: seq<Json>, v: Json, found: seq<Delta>)
    ensures WalkedFound(v, Carry(items, found)) == WalkedFound(v, found)
  {
    if found != [] {
      FoundCarry(items, v, found[1..]);
      var cs := Carry(items, found);
      assert cs[0] == CarryOne(items, found[0]) && cs[1..] == Carry(items, found[1..]);
      PostValueHead(Some(v), found);
      PostValueHead(Some(v), cs);
    }
  }

  lemma {:induction false} WalkedCarry(items: seq<Json>, i: nat, ds: seq<Delta>)
    requires i <= |items|
    ensures WalkedItems(items, i, Carry(items, ds)) == WalkedItems(items, i, ds)
    decreases |items| - i
  {
    if i < |items| {
      SearchCarry(items, ds, Index(i));
      FoundCarry(items, items[i], At(ds, i));
      WalkedCarry(items, i + 1, ds);
    }
  }

  lemma {:induction false} NewCarry(items: seq<Json>, ds: seq<Delta>, n: nat)
    ensures NewOnes(Carry(items, ds), n) == NewOnes(ds, n)
  {
    if ds != [] {
      NewCarry(items, ds[1..], n);
      assert Carry(items, ds)[1..] == Carry(items, ds[1..]);
    }
  }

  /** With positions in step, the array the right lines print is the array the library makes. */
  lemma ArraysAgree(items: seq<Json>, ds: seq<Delta>)
    requires InStep(ds, |items|)
    ensures forall d :: d in NewOnes(ds, |items|) ==> d.Added?
    ensures ApplyArray(items, ds) == Some(WalkedItems(items, 0, ds) + ValuesOf(NewOnes(ds, |items|)))
  {
    var n, gone, cs := |items|, PreOrder(ds), Carry(items, ds);
    CarrySame(items, ds);
    CarryCarries(items, ds);
    InStepSame(ds, cs, n);
    PendingAll(cs);
    Sweep(items, cs, 0, PostOrder(cs));
    WalkedCarry(items, 0, ds);
    NewCarry(items, ds, n);
    ApplyMerges(items, ds);
    GoneWithin(ds, n);
    KeptLength(items, cs, 0);
    hide InStep, Separate, Kept, Merge, ApplyArray, WalkedItems, NewOnes, ValuesOf, PreOrder, PostOrder, Carry;
    assert Tail(Kept(items, gone, 0), |Kept(items, gone, 0)|) == Kept(items, gone, 0);
  }

  lemma GoneWithin(ds: seq<Delta>, n: nat)
    requires InStep(ds, n)
    ensures PreOrder(ds) == [] || PreOrder(ds)[0] < n
  {
    var gone := PreOrder(ds);
    PreOrderHas(ds);
    if gone != [] {
      assert gone[0] in gone;
      GoneIff(ds, gone[0]);
      var d :| d in ds && Removes(d, gone[0]);
      assert InReach(ds, d, n);
    }
  }
}
