/** The positions on which the right lines of an array diff can be trusted, exactly: the formatter
    and the library make the same array for all items and all values if and only if the positions
    are in step. */
module DiffShapes {
  import opened Options
  import opened JsonDoc
  import opened DiffLines
  import opened DiffSides
  import opened DiffApply
  import opened DiffPlaces
  import opened DiffMerge
  import opened DiffArrays
  import opened DiffMeaning

  /** Deltas that carry whole values or move an item, and Object deltas that some object meets and is
      changed by. */
  ghost predicate Workable(ds: seq<Delta>) {
    forall d :: d in ds ==> !d.ArrayDelta? && (d.ObjectDelta? ==> HasBase(d.deltas))
  }

  ghost predicate HasBase(sub: seq<Delta>) {
    exists m: map<string, Json> :: IsBase(m, sub)
  }

  ghost predicate IsBase(m: map<string, Json>, sub: seq<Delta>) {
    Agreed(Object(m), sub) && ApplyDeltas(Object(m), sub) != Object(m)
  }

  /** The items that are changed inside are ones on which those changes agree. */
  ghost predicate Suits(items: seq<Json>, ds: seq<Delta>) {
    forall i :: 0 <= i < |items| ==> NestedAgreed(items[i], At(ds, i))
  }

  /** The library applies the deltas, and the right lines print what it makes. */
  ghost predicate Trusted(items: seq<Json>, ds: seq<Delta>) {
    ApplyArray(items, ds).Some? && Meaning(Printed(Array(items), ds, Right)) == ApplyDeltas(Array(items), ds)
  }

  // ---------- values that tell everything apart

  function ValueOf(d: Delta): Json {
    match d
    case Added(_, x) => x
    case Modified(_, _, y) => y
    case TextDiff(_, _, y) => y
    case _ => Leaf(Null)
  }

  predicate Whole(d: Delta) {
    d.Added? || d.Modified? || d.TextDiff?
  }

  predicate IsOther(v: Json) { v.Leaf? && v.scalar.Other? }

  /** The length of the text an item is marked with: a leaf by itself, an object at a key. */
  function Size(v: Json, key: string): int {
    match v
    case Leaf(s) => if s.Text? then |s.chars| else -1
    case Object(m) => if key in m && m[key].Leaf? && m[key].scalar.Text? then |m[key].scalar.chars| else -1
    case Array(_) => -1
  }

  /** Every value is its own. */
  predicate Marked(es: seq<Delta>) {
    && (forall d :: d in es && Whole(d) ==> IsOther(ValueOf(d)))
    && (forall d, e :: d in es && e in es && Whole(d) && Whole(e) && ValueOf(d) == ValueOf(e) ==> d == e)
  }

  /** Every item carries its own mark. */
  predicate Told(items: seq<Json>, key: string) {
    forall k :: 0 <= k < |items| ==> !items[k].Array? && Size(items[k], key) == k
  }

  /** No Object delta touches the mark, and each changes its item. */
  ghost predicate Tracked(items: seq<Json>, es: seq<Delta>, key: string) {
    && (forall d :: d in es && d.ObjectDelta? ==> Search(d.deltas, Name(key)) == [])
    && (forall d :: d in es && d.ObjectDelta? && d.at.Index? && 0 <= d.at.index < |items| ==>
          ApplyDeltas(items[d.at.index], d.deltas) != items[d.at.index])
  }

  /** What is moved is an untouched item of the old array. */
  predicate MovesFit(es: seq<Delta>, n: nat) {
    forall d :: d in es && d.Moved? ==> d.from.Index? && 0 <= d.from.index < n && Untouched(es, d.from.index)
  }

  /** All that a marked instance of a list of deltas is. */
  ghost predicate Instance(items: seq<Json>, es: seq<Delta>, key: string) {
    && Separate(es) && (forall d :: d in es ==> !d.ArrayDelta?)
    && Marked(es) && Told(items, key) && Tracked(items, es, key) && Carried(items, es)
  }

  lemma SizeStays(v: Json, sub: seq<Delta>, key: string)
    requires !v.Array? && Search(sub, Name(key)) == []
    ensures !ApplyDeltas(v, sub).Array? && Size(ApplyDeltas(v, sub), key) == Size(v, key)
  {
    if v.Object? {
      AppliedAtKey(v.members, sub, key);
      hide PreApply, PostApply, Search;
      var applied := PostApply(PreApply(v.members, sub), sub);
      assert Get(applied, key) == Get(v.members, key);
    }
  }

  // ---------- what comes out of the library next

  /** The first of what the merge puts out, and what follows. */
  lemma MergeFirst(rest: seq<Json>, s: seq<Delta>, p: int, x: Json, out: seq<Json>)
    requires Climbs(s, p) && (forall d :: d in s ==> !d.Deleted?) && Merge(rest, s, p) == Some([x] + out)
    ensures s == [] ==> rest != [] && x == rest[0] && Merge(rest[1..], s, p + 1) == Some(out)
    ensures s != [] ==> s[0].at.Index? && p <= s[0].at.index
    ensures s != [] ==>
      if rest != [] && p < s[0].at.index then x == rest[0] && Merge(rest[1..], s, p + 1) == Some(out)
      else if s[0].Added? then x == s[0].added && Merge(rest, s[1..], p + 1) == Some(out)
      else if s[0].Moved? then p == s[0].at.index && x == s[0].moved && Merge(rest, s[1..], p + 1) == Some(out)
      else
        && rest != [] && p == s[0].at.index
        && Some(x) == PostValue(Some(rest[0]), s) && Merge(rest[1..], s[1..], p + 1) == Some(out)
  {
    assert ([x] + out)[0] == x && ([x] + out)[1..] == out;
    if s == [] {
      assert rest == [x] + out;
    } else {
      ClimbsAt(s, p);
      assert s[0] in s;
      hide Climbs, PostValue;
      if rest != [] && p < s[0].at.index {
        MergeKept(rest, s, p);
        ConsFirst(rest[0], Merge(rest[1..], s, p + 1), x, out);
      } else if s[0].Added? {
        MergePut(rest, s, p);
        ConsFirst(s[0].added, Merge(rest, s[1..], p + 1), x, out);
      } else if s[0].Moved? {
        if p == s[0].at.index {
          MergeMoved(rest, s, p);
          ConsFirst(s[0].moved, Merge(rest, s[1..], p + 1), x, out);
        }
      } else if rest != [] {
        MergeChanged(rest, s, p);
        ConsFirst(PostValue(Some(rest[0]), s).value, Merge(rest[1..], s[1..], p + 1), x, out);
      }
    }
  }

  lemma ConsFirst(y: Json, m: Option<seq<Json>>, x: Json, out: seq<Json>)
    requires Cons(y, m) == Some([x] + out)
    ensures x == y && m == Some(out)
  {
    assert ([x] + out)[0] == x && ([x] + out)[1..] == out;
    assert ([y] + m.value)[0] == y && ([y] + m.value)[1..] == m.value;
  }

  // ---------- the kept items

  /** Marks of increasing sizes, from i on. */
  predicate Rising(s: seq<Json>, i: nat, key: string) {
    && (forall k :: 0 <= k < |s| ==> Size(s[k], key) >= i)
    && (forall k, l :: 0 <= k < l < |s| ==> Size(s[k], key) < Size(s[l], key))
  }

  lemma {:induction false} KeptRises(items: seq<Json>, gone: seq<int>, i: nat, key: string)
    requires i <= |items| && Told(items, key)
    ensures Rising(Kept(items, gone, i), i, key) && forall v :: v in Kept(items, gone, i) ==> v in items
    decreases |items| - i
  {
    if i < |items| {
      KeptRises(items, gone, i + 1, key);
      assert Size(items[i], key) == i && items[i] in items;
      RisingCons(items[i], Kept(items, gone, i + 1), i, key);
      if i in gone {
        assert [] + Kept(items, gone, i + 1) == Kept(items, gone, i + 1);
      }
    }
  }

  lemma RisingCons(x: Json, s: seq<Json>, i: nat, key: string)
    requires Rising(s, i + 1, key) && Size(x, key) == i
    ensures Rising(s, i, key) && Rising([x] + s, i, key)
  {
  }

  /** An item that is gone is not kept. */
  lemma {:induction false} GoneIsNotKept(items: seq<Json>, gone: seq<int>, i: nat, j: nat, key: string)
    requires i <= |items| && j < |items| && j in gone && Told(items, key)
    ensures items[j] !in Kept(items, gone, i)
    decreases |items| - i
  {
    if i < |items| {
      GoneIsNotKept(items, gone, i + 1, j, key);
      assert Size(items[i], key) == i && Size(items[j], key) == j;
    }
  }

  lemma SameTail(kept: seq<Json>, r: nat, q: nat, key: string)
    requires 0 < r <= |kept| && 0 < q <= |kept| && Tail(kept, r)[0] == Tail(kept, q)[0] && Rising(kept, 0, key)
    ensures r == q
  {
    assert kept[|kept| - r] == kept[|kept| - q];
  }

  lemma TailIn(kept: seq<Json>, r: nat, items: seq<Json>)
    requires r <= |kept| && forall v :: v in kept ==> v in items
    ensures forall v :: v in Tail(kept, r) ==> v in items
    ensures forall v :: v in Tail(kept, r) ==> v in kept
  {
  }

  /** When the library places next the item at this index, that item stays and nothing is owed. */
  lemma SettledNext(items: seq<Json>, es: seq<Delta>, i: nat, key: string)
    requires i < |items| && Instance(items, es, key)
    requires 0 < Rest(es, i, |items|) <= |Kept(items, PreOrder(es), 0)|
    requires Tail(Kept(items, PreOrder(es), 0), Rest(es, i, |items|))[0] == items[i]
    ensures !Gone(es, i) && Debt(es, i) == 0
  {
    hide *;
    var gone := PreOrder(es);
    var kept, r := Kept(items, gone, 0), Rest(es, i, |items|);
    InstanceParts(items, es, key);
    PreOrderHas(es);
    KeptRises(items, gone, 0, key);
    TailIn(kept, r, items);
    TailNext(kept, r);
    assert items[i] in Tail(kept, r);
    if i in gone {
      GoneIsNotKept(items, gone, 0, i, key);
    } else {
      KeptLength(items, es, i);
      KeptIsTail(items, gone, i);
      KeptHere(items, gone, i);
      SameTail(kept, r, |Kept(items, gone, i)|, key);
      RestIs(es, i, |items|);
    }
  }

  lemma KeptHere(items: seq<Json>, gone: seq<int>, i: nat)
    requires i < |items| && i !in gone
    ensures Kept(items, gone, i) != [] && Kept(items, gone, i)[0] == items[i]
  {
  }

  lemma InstanceParts(items: seq<Json>, es: seq<Delta>, key: string)
    requires Instance(items, es, key)
    ensures Separate(es) && Marked(es) && Told(items, key) && Tracked(items, es, key) && Carried(items, es)
    ensures forall d :: d in es ==> !d.ArrayDelta?
  {
  }

  // ---------- agreement puts positions in step

  /** What comes out from index i on. */
  ghost predicate OutFrom(items: seq<Json>, es: seq<Delta>, i: nat, out: seq<Json>) {
    && i <= |items| && (forall d :: d in NewOnes(es, |items|) ==> d.Added?)
    && out == WalkedItems(items, i, es) + ValuesOf(NewOnes(es, |items|))
  }

  lemma AgreeOut(items: seq<Json>, es: seq<Delta>, i: nat, p: int, s: seq<Delta>) returns (out: seq<Json>)
    requires i < |items| && Agree(items, es, i, p, s)
    ensures 0 <= Rest(es, i, |items|) <= |Kept(items, PreOrder(es), 0)| && forall d :: d in s ==> d.at.Index?
    ensures Merge(Tail(Kept(items, PreOrder(es), 0), Rest(es, i, |items|)), s, p)
         == Some(WalkedAt(items[i], At(es, i)) + out)
    ensures OutFrom(items, es, i + 1, out)
  {
    hide Merge, Kept, Tail, Rest, NewOnes, WalkedAt, PreOrder, ValuesOf;
    var more, new_ := WalkedItems(items, i + 1, es), ValuesOf(NewOnes(es, |items|));
    out := more + new_;
    assert WalkedItems(items, i, es) == WalkedAt(items[i], At(es, i)) + more;
    hide WalkedItems, At;
    assert WalkedAt(items[i], At(es, i)) + more + new_ == WalkedAt(items[i], At(es, i)) + (more + new_);
  }

  lemma AgreeIs(items: seq<Json>, es: seq<Delta>, i: nat, p: int, s: seq<Delta>, out: seq<Json>)
    requires i <= |items| && (forall d :: d in s ==> d.at.Index?) && OutFrom(items, es, i, out)
    requires 0 <= Rest(es, i, |items|) <= |Kept(items, PreOrder(es), 0)|
    requires Merge(Tail(Kept(items, PreOrder(es), 0), Rest(es, i, |items|)), s, p) == Some(out)
    ensures Agree(items, es, i, p, s)
  {
  }

  /** The formatter at index i, the library at its place, and what it has yet to apply. */
  ghost predicate Backing(items: seq<Json>, es: seq<Delta>, i: nat, s: seq<Delta>, key: string) {
    && i <= |items| && Instance(items, es, key) && MovesFit(es, |items|)
    && Pending(s, es, i) && Climbs(s, Place(es, i)) && Agree(items, es, i, Place(es, i), s)
  }

  lemma BackingParts(items: seq<Json>, es: seq<Delta>, i: nat, s: seq<Delta>, key: string)
    requires Backing(items, es, i, s, key)
    ensures i <= |items| && Instance(items, es, key) && MovesFit(es, |items|)
    ensures Pending(s, es, i) && Climbs(s, Place(es, i)) && Agree(items, es, i, Place(es, i), s)
    ensures forall d :: d in s ==> d in es && !d.Deleted? && Waits(d, i) && d.at.Index?
    ensures Separate(es) && AtMostOne(es, i) && 0 <= Rest(es, i, |items|)
  {
  }

  lemma BackingIs(items: seq<Json>, es: seq<Delta>, i: nat, s: seq<Delta>, key: string)
    requires i <= |items| && Instance(items, es, key) && MovesFit(es, |items|)
    requires Pending(s, es, i) && Climbs(s, Place(es, i)) && Agree(items, es, i, Place(es, i), s)
    ensures Backing(items, es, i, s, key)
  {
  }

  /** At an untouched item the library places that item too, as one that stays or one that moves. */
  lemma BackUntouched(items: seq<Json>, es: seq<Delta>, i: nat, s: seq<Delta>, key: string) returns (t: seq<Delta>)
    requires Backing(items, es, i, s, key) && i < |items| && Untouched(es, i)
    ensures Backing(items, es, i + 1, t, key)
    ensures !Leaves(es, i) ==> Debt(es, i) == 0 && !Gone(es, i)
    ensures forall d :: d in es && d.Moved? && d.from == Index(i) ==> d.at == Index(Place(es, i))
  {
    hide *;
    var n, p := |items|, Place(es, i);
    var kept, r := Kept(items, PreOrder(es), 0), Rest(es, i, n);
    BackingParts(items, es, i, s, key);
    InstanceParts(items, es, key);
    UntouchedHere(es, i, n);
    WalkedOne(items[i], es, i);
    var out := AgreeOut(items, es, i, p, s);
    MergeFirst(Tail(kept, r), s, p, items[i], out);
    TailNext(kept, r);
    AheadOfUntouched(es, i, s);
    MarkedOthers(es, s);
    ToldOthers(items, i, key);
    if s != [] && s[0].Moved? && p == s[0].at.index {
      t := s[1..];
      MovedNext(items, es, i, s, key);
      ClimbsAt(s, p);
      AgreeIs(items, es, i + 1, p + 1, t, out);
    } else {
      t := s;
      StaysNext(items, es, i, key);
      PendingStays(s, es, i);
      ClimbsAhead(s, p);
      AgreeIs(items, es, i + 1, p + 1, t, out);
    }
    BackingIs(items, es, i + 1, t, key);
  }

  lemma ToldOthers(items: seq<Json>, i: nat, key: string)
    requires Told(items, key) && i < |items|
    ensures !IsOther(items[i]) && Size(items[i], key) == i && !items[i].Array?
  {
  }

  lemma MarkedOthers(es: seq<Delta>, s: seq<Delta>)
    requires Marked(es) && forall d :: d in s ==> d in es
    ensures s != [] && s[0].Added? ==> IsOther(s[0].added)
    ensures s != [] && (s[0].Modified? || s[0].TextDiff?) ==> IsOther(s[0].newValue)
  {
    if s != [] { assert s[0] in s; }
  }

  lemma UntouchedHere(es: seq<Delta>, i: nat, n: nat)
    requires i < n && Untouched(es, i)
    ensures Place(es, i + 1) == Place(es, i) + 1 && Place(es, i) <= i
    ensures Rest(es, i, n) == Rest(es, i + 1, n) + if Leaves(es, i) then 0 else 1
    ensures Leaves(es, i) ==> Gone(es, i)
  {
    UntouchedIff(es, i);
    RestStep(es, i, n);
    PlaceLags(es, i);
    GoneIff(es, i);
  }

  /** What is neither moved nor past the index is further on. */
  lemma AheadOfUntouched(es: seq<Delta>, i: nat, s: seq<Delta>)
    requires Pending(s, es, i) && Untouched(es, i)
    ensures s != [] && !s[0].Moved? ==> s[0].at.Index? && s[0].at.index > i
  {
    UntouchedIff(es, i);
    if s != [] { assert s[0] in s; }
  }

  lemma MovedNext(items: seq<Json>, es: seq<Delta>, i: nat, s: seq<Delta>, key: string)
    requires Instance(items, es, key) && MovesFit(es, |items|) && Pending(s, es, i) && i < |items|
    requires s != [] && s[0].Moved? && s[0].moved == items[i]
    ensures s[0].from == Index(i) && Leaves(es, i) && Pending(s[1..], es, i + 1)
    ensures forall d :: d in es && d.Moved? && d.from == Index(i) ==> d == s[0]
    requires Untouched(es, i)
  {
    var d := s[0];
    assert d in s && d in es;
    var f := d.from.index;
    assert Size(items[f], key) == f && Size(items[i], key) == i;
    assert Removes(d, i);
    assert AtMostOne(es, i);
    GoneIff(es, i);
    UntouchedIff(es, i);
    forall e | e in es && e.Moved? && e.from == Index(i) ensures e == d {
      assert Removes(e, i);
    }
    PendingNext(s, es, i);
  }

  lemma StaysNext(items: seq<Json>, es: seq<Delta>, i: nat, key: string)
    requires i < |items| && Instance(items, es, key)
    requires 0 < Rest(es, i, |items|) <= |Kept(items, PreOrder(es), 0)|
    requires Tail(Kept(items, PreOrder(es), 0), Rest(es, i, |items|))[0] == items[i]
    ensures !Gone(es, i) && Debt(es, i) == 0 && !Leaves(es, i)
    ensures forall d :: d in es && d.Moved? ==> d.from != Index(i)
  {
    SettledNext(items, es, i, key);
    GoneIff(es, i);
  }

  lemma PendingStays(s: seq<Delta>, es: seq<Delta>, i: nat)
    requires Pending(s, es, i) && Untouched(es, i) && forall d :: d in es && d.Moved? ==> d.from != Index(i)
    ensures Pending(s, es, i + 1)
  {
    UntouchedIff(es, i);
    forall d | d in es && !d.Deleted? && Waits(d, i) ensures Waits(d, i + 1) {
    }
    PendingSame(s, es, i);
  }

  lemma ClimbsAhead(s: seq<Delta>, p: int)
    requires Climbs(s, p) && (s != [] ==> p < s[0].at.index)
    ensures Climbs(s, p + 1)
  {
    if s != [] { ClimbsOn(s, p); }
  }

  /** Where the formatter is silent nothing comes out. */
  lemma BackSilent(items: seq<Json>, es: seq<Delta>, i: nat, s: seq<Delta>, key: string)
    requires Backing(items, es, i, s, key) && i < |items| && Silent(es, i)
    ensures Backing(items, es, i + 1, s, key)
  {
    hide *;
    BackingParts(items, es, i, s, key);
    SilentHere(es, i, |items|);
    PendingSilent(s, es, i, |items|);
    WalkedOne(items[i], es, i);
    var out := AgreeOut(items, es, i, Place(es, i), s);
    assert [] + out == out;
    AgreeIs(items, es, i + 1, Place(es, i), s, out);
    BackingIs(items, es, i + 1, s, key);
  }

  lemma SilentHere(es: seq<Delta>, i: nat, n: nat)
    requires i < n && Silent(es, i)
    ensures Place(es, i + 1) == Place(es, i) && Rest(es, i, n) == Rest(es, i + 1, n)
  {
    RestStep(es, i, n);
    UntouchedIff(es, i);
  }

  lemma PendingSilent(s: seq<Delta>, es: seq<Delta>, i: nat, n: nat)
    requires Pending(s, es, i) && Silent(es, i) && MovesFit(es, n) && AtMostOne(es, i)
    ensures Pending(s, es, i + 1)
  {
    PlacedIff(es, i);
    forall d | d in es && !d.Deleted? && Waits(d, i) ensures Waits(d, i + 1) {
    }
    PendingSame(s, es, i);
  }

  /** Where something is put or changed the library does just that: at the same index, or, for
      something added, with no old item left to place. */
  lemma BackPlaced(items: seq<Json>, es: seq<Delta>, i: nat, s: seq<Delta>, key: string) returns (t: seq<Delta>)
    requires Backing(items, es, i, s, key) && i < |items| && Placed(es, i) && !IsMoved(es, i)
    ensures Backing(items, es, i + 1, t, key)
    ensures s != [] && s[0].at == Index(i)
    ensures Place(es, i) < i ==> Rest(es, i, |items|) == 0
    ensures IsNested(es, i) ==> Debt(es, i) == 0 && !Gone(es, i)
    ensures forall d :: d in es ==> Unspanned(es, d, i)
  {
    hide *;
    var n, p := |items|, Place(es, i);
    var kept, r := Kept(items, PreOrder(es), 0), Rest(es, i, n);
    BackingParts(items, es, i, s, key);
    InstanceParts(items, es, key);
    PlacedHere(items, es, i, key);
    var d, x := Posts(At(es, i))[0], Put(items[i], Posts(At(es, i))[0]);
    WalkedPut(items[i], es, i);
    var out := AgreeOut(items, es, i, p, s);
    MergeFirst(Tail(kept, r), s, p, x, out);
    TailNext(kept, r);
    KeptRises(items, PreOrder(es), 0, key);
    TailIn(kept, r, items);
    PutComes(items, es, i, s, p, key, Tail(kept, r), x, out);
    if d.ObjectDelta? { SettledNext(items, es, i, key); }
    NoneSpans(s, es, i);
    t := s[1..];
    PlacedNext(s, es, i, n);
    ClimbsAt(s, p);
    AgreeIs(items, es, i + 1, p + 1, t, out);
    BackingIs(items, es, i + 1, t, key);
  }

  /** What a delta puts in the place of an item. */
  ghost function Put(v: Json, d: Delta): Json {
    if d.ObjectDelta? then ApplyDeltas(v, d.deltas) else ValueOf(d)
  }

  lemma WalkedPut(v: Json, es: seq<Delta>, i: int)
    requires Separate(es) && Placed(es, i) && !IsMoved(es, i) && !Posts(At(es, i))[0].ArrayDelta? &&
      !Posts(At(es, i))[0].Deleted?
    ensures WalkedAt(v, At(es, i)) == [Put(v, Posts(At(es, i))[0])]
  {
    WalkedOne(v, es, i);
  }

  lemma PlacedHere(items: seq<Json>, es: seq<Delta>, i: nat, key: string)
    requires i < |items| && Instance(items, es, key) && Placed(es, i) && !IsMoved(es, i)
    ensures Place(es, i + 1) == Place(es, i) + 1 && Place(es, i) <= i && Posts(At(es, i)) != []
    ensures var d := Posts(At(es, i))[0];
      && Rest(es, i, |items|) == Rest(es, i + 1, |items|) + (if d.Added? then 0 else 1)
      && d in es && d.at == Index(i) && !d.Deleted? && !d.Moved? && !d.ArrayDelta? && (Whole(d) || d.ObjectDelta?)
      && (IsNested(es, i) <==> d.ObjectDelta?)
  {
    UntouchedIff(es, i);
    RestStep(es, i, |items|);
    PlaceLags(es, i);
    PlacedIff(es, i);
  }

  lemma PlacedNext(s: seq<Delta>, es: seq<Delta>, i: nat, n: nat)
    requires Pending(s, es, i) && s != [] && s[0].at == Index(i) && !s[0].Moved? && MovesFit(es, n) && AtMostOne(es, i)
    ensures Pending(s[1..], es, i + 1)
  {
    assert s[0] in s;
    PlacedIff(es, i);
    UntouchedIff(es, i);
    forall d | d in es && !d.Deleted? && Waits(d, i) ensures d == s[0] || Waits(d, i + 1) {
    }
    PendingNext(s, es, i);
  }

  /** The value that comes out at index i tells which delta it comes from. */
  lemma PutComes(items: seq<Json>, es: seq<Delta>, i: nat, s: seq<Delta>, p: int, key: string,
                 rest: seq<Json>, x: Json, out: seq<Json>)
    requires i < |items| && Instance(items, es, key) && MovesFit(es, |items|) && Pending(s, es, i) && p <= i
    requires Placed(es, i) && !IsMoved(es, i) && x == Put(items[i], Posts(At(es, i))[0])
    requires forall v :: v in rest ==> v in items
    requires s == [] ==> rest != [] && x == rest[0] && Merge(rest[1..], s, p + 1) == Some(out)
    requires forall d :: d in s ==> d.at.Index?
    requires s != [] ==> p <= s[0].at.index
    requires s != [] ==>
      if rest != [] && p < s[0].at.index then x == rest[0]
      else if s[0].Added? then x == s[0].added
      else if s[0].Moved? then p == s[0].at.index && x == s[0].moved
      else rest != [] && p == s[0].at.index && Some(x) == PostValue(Some(rest[0]), s)
    ensures s != [] && s[0] == Posts(At(es, i))[0] && s[0].at == Index(i)
    ensures p < i ==> rest == [] && s[0].Added?
    ensures s[0].ObjectDelta? ==> rest != [] && rest[0] == items[i]
  {
    PlacedHere(items, es, i, key);
    var d := Posts(At(es, i))[0];
    PutIsNew(items, es, i, d, key);
    if rest != [] { assert rest[0] in rest; }
    assert s != [] by {
      assert x !in items;
    }
    var e := s[0];
    FirstWaits(items, es, i, s, key);
    hide Instance, Pending, MovesFit, Merge, Placed, IsMoved, Posts, At;
    if e.ObjectDelta? && rest != [] && p == e.at.index {
      assert x == ApplyDeltas(rest[0], e.deltas);
      ChangedTells(items, es, i, d, e, rest[0], key);
    } else {
      assert Whole(e) ==> x == ValueOf(e);
    }
  }

  /** Nothing the deltas put is an old item. */
  lemma PutIsNew(items: seq<Json>, es: seq<Delta>, i: nat, d: Delta, key: string)
    requires i < |items| && Instance(items, es, key) && d in es && d.at == Index(i) && (Whole(d) || d.ObjectDelta?)
    ensures Put(items[i], d) !in items
    ensures Whole(d) ==> IsOther(Put(items[i], d)) && forall e :: e in es && Whole(e) && ValueOf(e) == ValueOf(d) ==>
      e == d
    ensures d.ObjectDelta? ==> Size(Put(items[i], d), key) == i && !IsOther(Put(items[i], d))
  {
    var x := Put(items[i], d);
    assert Size(items[i], key) == i && !items[i].Array?;
    if d.ObjectDelta? {
      SizeStays(items[i], d.deltas, key);
      assert x != items[i];
    }
    forall k | 0 <= k < |items| ensures items[k] != x {
      assert Size(items[k], key) == k;
    }
  }

  /** The first delta to be applied. */
  lemma FirstWaits(items: seq<Json>, es: seq<Delta>, i: nat, s: seq<Delta>, key: string)
    requires i < |items| && Instance(items, es, key) && MovesFit(es, |items|) && Pending(s, es, i) && s != []
    ensures var e := s[0];
      && e in es && !e.Deleted? && !e.ArrayDelta? && e.at.Index?
      && (e.Moved? ==> e.moved in items) && (!e.Moved? ==> i <= e.at.index)
      && (e.Moved? || e.ObjectDelta? || Whole(e)) && (Whole(e) ==> IsOther(ValueOf(e)))
  {
    assert s[0] in s;
  }

  /** An item changed inside still tells which it is. */
  lemma ChangedTells(items: seq<Json>, es: seq<Delta>, i: nat, d: Delta, e: Delta, v: Json, key: string)
    requires i < |items| && Instance(items, es, key) && d in es && e in es && d.at == Index(i) && e.at.Index?
    requires e.ObjectDelta? && v in items && i <= e.at.index && (Whole(d) || d.ObjectDelta?)
    requires Put(items[i], d) == ApplyDeltas(v, e.deltas)
    ensures d.ObjectDelta? && v == items[i]
  {
    PutIsNew(items, es, i, d, key);
    var k :| 0 <= k < |items| && items[k] == v;
    assert Size(items[k], key) == k && !items[k].Array?;
    SizeStays(v, e.deltas, key);
  }

  lemma NoneSpans(s: seq<Delta>, es: seq<Delta>, i: nat)
    requires Pending(s, es, i) && s != [] && s[0].at == Index(i)
    ensures forall d :: d in es ==> Unspanned(es, d, i)
  {
    forall d | d in es ensures Unspanned(es, d, i) {
      if d.Moved? && Waits(d, i) {
        var k :| 0 <= k < |s| && s[k] == d;
        assert s[0] in s;
        assert k > 0 ==> s[0].at.index < s[k].at.index;
      }
    }
  }

  /** What the condition says from index i on. */
  ghost predicate GoodFrom(es: seq<Delta>, n: nat, i: nat) {
    && (forall d :: d in es && (Whole(d) || d.ObjectDelta?) && !d.Added? ==> d.at.Index? && d.at.index < n)
    && (forall d :: d in es && d.Moved? && d.from.Index? && d.from.index >= i ==>
      d.at == Index(Place(es, d.from.index)))
    && Debt(es, n) == 0 && Climbs(NewOnes(es, n), n)
    && (forall j: nat :: j >= i ==> Balanced(es, n, j))
    && (forall k: nat, j: nat :: j >= i ==> Undisturbed(es, n, k, j))
    && (forall d, j: nat :: d in es && j >= i ==> Unspanned(es, d, j))
  }

  lemma GoodStep(es: seq<Delta>, n: nat, i: nat)
    requires GoodFrom(es, n, i + 1) && Balanced(es, n, i)
    requires forall k: nat :: Undisturbed(es, n, k, i)
    requires forall d :: d in es ==> Unspanned(es, d, i)
    requires forall d :: d in es && d.Moved? && d.from == Index(i) ==> d.at == Index(Place(es, i))
    ensures GoodFrom(es, n, i)
  {
    hide Balanced, Undisturbed, Unspanned, Debt, Climbs, NewOnes, Place;
    forall j: nat | j >= i ensures Balanced(es, n, j) {
      if j != i { assert j >= i + 1; }
    }
    forall k: nat, j: nat | j >= i ensures Undisturbed(es, n, k, j) {
      if j != i { assert j >= i + 1; }
    }
    forall d, j: nat | d in es && j >= i ensures Unspanned(es, d, j) {
      if j != i { assert j >= i + 1; }
    }
    forall d | d in es && d.Moved? && d.from.Index? &&
      d.from.index >= i ensures d.at == Index(Place(es, d.from.index)) {
      if d.from.index != i { assert d.from.index >= i + 1; }
    }
  }

  lemma {:induction false} Back(items: seq<Json>, es: seq<Delta>, i: nat, s: seq<Delta>, key: string)
    requires Backing(items, es, i, s, key)
    ensures GoodFrom(es, |items|, i)
    decreases |items| - i
  {
    hide *;
    var n := |items|;
    BackingParts(items, es, i, s, key);
    if i == n {
      BackDone(items, es, s, key);
    } else {
      Kinds(es, i);
      var t := s;
      if Untouched(es, i) {
        t := BackUntouched(items, es, i, s, key);
        GoodUntouched(es, n, i);
      } else if Silent(es, i) {
        BackSilent(items, es, i, s, key);
        GoodSilent(es, n, i);
      } else {
        t := BackPlaced(items, es, i, s, key);
        GoodPlaced(es, n, i);
      }
      Back(items, es, i + 1, t, key);
      GoodStep(es, n, i);
    }
  }

  lemma Kinds(es: seq<Delta>, i: nat)
    ensures !Untouched(es, i) && !Silent(es, i) ==> Placed(es, i) && !IsMoved(es, i)
  {
  }

  lemma GoodUntouched(es: seq<Delta>, n: nat, i: nat)
    requires Untouched(es, i) && (!Leaves(es, i) ==> Debt(es, i) == 0 && !Gone(es, i))
    ensures Balanced(es, n, i) && (forall k: nat :: Undisturbed(es, n, k, i)) && forall d :: d in es ==>
      Unspanned(es, d, i)
  {
    UntouchedIff(es, i);
  }

  lemma GoodSilent(es: seq<Delta>, n: nat, i: nat)
    requires Silent(es, i) && AtMostOne(es, i)
    ensures Balanced(es, n, i) && (forall k: nat :: Undisturbed(es, n, k, i)) && forall d :: d in es ==>
      Unspanned(es, d, i)
    ensures MovesFit(es, n) ==> forall d :: d in es && d.Moved? ==> d.from != Index(i)
  {
    UntouchedIff(es, i);
  }

  lemma GoodPlaced(es: seq<Delta>, n: nat, i: nat)
    requires i < n && Placed(es, i) && !IsMoved(es, i) && (IsNested(es, i) ==> Debt(es, i) == 0 && !Gone(es, i))
    requires Place(es, i) < i ==> Rest(es, i, n) == 0
    ensures Balanced(es, n, i) && forall k: nat :: Undisturbed(es, n, k, i)
    ensures MovesFit(es, n) ==> forall d :: d in es && d.Moved? ==> d.from != Index(i)
  {
    UntouchedIff(es, i);
    PlaceLags(es, i);
  }

  // ---------- the end of the old array

  /** What no Added delta puts. */
  ghost predicate Foreign(v: Json, s: seq<Delta>, key: string) {
    Size(v, key) >= 0 || exists d :: d in s && (d.Modified? || d.TextDiff?) && ValueOf(d) == v
  }

  /** A delta that leaves the marks alone. */
  ghost predicate Leaving(d: Delta, key: string) {
    !d.Deleted? && !d.ArrayDelta? && (d.ObjectDelta? ==> Search(d.deltas, Name(key)) == [])
  }

  /** What the merge cannot place comes out all the same, or is replaced. */
  lemma {:induction false} MergeLeaves(rest: seq<Json>, s: seq<Delta>, p: int, key: string)
    requires rest != [] && (forall v :: v in rest ==> !v.Array? && Size(v, key) >= 0)
    requires (forall d :: d in s ==> d.at.Index?) && (forall d :: d in s ==> Leaving(d, key)) && Merge(rest, s, p).Some?
    ensures exists v :: v in Merge(rest, s, p).value && Foreign(v, s, key)
    decreases |rest| + |s|
  {
    assert rest[0] in rest;
    var out := Merge(rest, s, p).value;
    hide PostValue;
    if s == [] || p < s[0].at.index {
      MergeKept(rest, s, p);
      assert out[0] == rest[0] && Foreign(out[0], s, key);
    } else if s[0].Added? || s[0].Moved? {
      InTail(s);
      MergeLeaves(rest, s[1..], p + 1, key);
      var more := Merge(rest, s[1..], p + 1).value;
      var v :| v in more && Foreign(v, s[1..], key);
      assert out == [out[0]] + more;
      assert v in out && Foreign(v, s, key);
    } else {
      assert s[0] in s;
      MergeChanged(rest, s, p);
      ForeignChanged(rest[0], s, key);
      assert out[0] == PostValue(Some(rest[0]), s).value && out[0] in out;
    }
  }

  lemma ForeignChanged(v: Json, s: seq<Delta>, key: string)
    requires s != [] && !v.Array? && Size(v, key) >= 0
    requires s[0].Modified? || s[0].TextDiff? || (s[0].ObjectDelta? && Search(s[0].deltas, Name(key)) == [])
    ensures PostValue(Some(v), s).Some? && Foreign(PostValue(Some(v), s).value, s, key)
  {
    assert s[0] in s;
    if s[0].ObjectDelta? {
      SizeStays(v, s[0].deltas, key);
    } else {
      assert ValueOf(s[0]) == PostValue(Some(v), s).value;
    }
  }

  lemma {:induction false} MergeNothing(s: seq<Delta>, p: int)
    requires (forall d :: d in s ==> d.at.Index? && !d.Moved?) && Merge([], s, p).Some?
    ensures forall d :: d in s ==> d.Added?
  {
    if s != [] {
      assert s == [s[0]] + s[1..];
      assert s[0] in s;
      MergeNothing(s[1..], p + 1);
    }
  }

  lemma {:induction false} ValuesIn(s: seq<Delta>, v: Json)
    requires (forall d :: d in s ==> d.Added?) && v in ValuesOf(s)
    ensures exists d :: d in s && ValueOf(d) == v
  {
    if v == s[0].added {
      assert s[0] in s && ValueOf(s[0]) == v;
    } else {
      InTail(s);
      ValuesIn(s[1..], v);
    }
  }

  lemma {:induction false} ValuesTell(s: seq<Delta>, r: seq<Delta>, es: seq<Delta>)
    requires Marked(es) && (forall d :: d in s ==> d in es && d.Added?) && (forall d :: d in r ==> d in es && d.Added?)
    requires ValuesOf(s) == ValuesOf(r)
    ensures s == r
  {
    if s != [] && r != [] {
      assert s[0] in s && r[0] in r;
      assert ValuesOf(s)[0] == s[0].added && ValuesOf(r)[0] == r[0].added;
      assert ValueOf(s[0]) == ValueOf(r[0]);
      assert ValuesOf(s)[1..] == ValuesOf(s[1..]) && ValuesOf(r)[1..] == ValuesOf(r[1..]);
      InTail(s);
      InTail(r);
      ValuesTell(s[1..], r[1..], es);
      assert s == [s[0]] + s[1..] && r == [r[0]] + r[1..];
    }
  }

  /** At the end of the old array nothing is left to place, and what is added is in order. */
  lemma BackDone(items: seq<Json>, es: seq<Delta>, s: seq<Delta>, key: string)
    requires Backing(items, es, |items|, s, key)
    ensures GoodFrom(es, |items|, |items|)
  {
    hide *;
    var n, kept, new_ := |items|, Kept(items, PreOrder(es), 0), NewOnes(es, |items|);
    BackingParts(items, es, n, s, key);
    InstanceParts(items, es, key);
    DoneOut(items, es, Place(es, n), s);
    WaitsAtEnd(items, es, s, key);
    NewOnesAre(es, n);
    KeptRises(items, PreOrder(es), 0, key);
    var rest := Tail(kept, Rest(es, n, n));
    TailIn(kept, Rest(es, n, n), items);
    NothingLeft(items, rest, s, Place(es, n), new_, es, key);
    MergeNothing(s, Place(es, n));
    MergeOnlyAdded(s, Place(es, n));
    ValuesTell(s, new_, es);
    TailNext(kept, Rest(es, n, n));
    RestIs(es, n, n);
    GoodEnd(es, n, s);
  }

  lemma DoneOut(items: seq<Json>, es: seq<Delta>, p: int, s: seq<Delta>)
    requires Agree(items, es, |items|, p, s)
    ensures var n, kept := |items|, Kept(items, PreOrder(es), 0);
      && 0 <= Rest(es, n, n) <= |kept| && (forall d :: d in s ==> d.at.Index?)
      && (forall d :: d in NewOnes(es, n) ==> d.Added?)
      && Merge(Tail(kept, Rest(es, n, n)), s, p) == Some(ValuesOf(NewOnes(es, n)))
  {
    hide Merge, Kept, Rest, PreOrder, Tail, NewOnes, ValuesOf;
    assert [] + ValuesOf(NewOnes(es, |items|)) == ValuesOf(NewOnes(es, |items|));
  }

  lemma WaitsAtEnd(items: seq<Json>, es: seq<Delta>, s: seq<Delta>, key: string)
    requires Instance(items, es, key) && MovesFit(es, |items|) && Pending(s, es, |items|)
    ensures forall d :: d in s ==> d in es && d.at.Index? && !d.Moved? && Leaving(d, key)
    ensures Ascends(s)
  {
  }

  lemma NothingLeft(items: seq<Json>, rest: seq<Json>, s: seq<Delta>, p: int, new_: seq<Delta>, es: seq<Delta>,
    key: string)
    requires Marked(es) && Told(items, key) && (forall v :: v in rest ==> v in items)
    requires (forall d :: d in s ==> d.at.Index?) && (forall d :: d in s ==> d in es && Leaving(d, key))
    requires (forall d :: d in new_ ==> d in es && d.Added?) && Merge(rest, s, p) == Some(ValuesOf(new_))
    ensures rest == []
  {
    if rest != [] {
      forall v | v in rest ensures !v.Array? && Size(v, key) >= 0 {
        var k :| 0 <= k < |items| && items[k] == v;
      }
      MergeLeaves(rest, s, p, key);
      var v :| v in ValuesOf(new_) && Foreign(v, s, key);
      ValuesIn(new_, v);
    }
  }

  lemma GoodEnd(es: seq<Delta>, n: nat, s: seq<Delta>)
    requires Separate(es) && Pending(s, es, n) && s == NewOnes(es, n) && (forall d :: d in s ==> d.Added?) &&
      Debt(es, n) == 0
    requires MovesFit(es, n)
    ensures GoodFrom(es, n, n)
  {
    forall d | d in es && (Whole(d) || d.ObjectDelta?) && !d.Added? ensures d.at.Index? && d.at.index < n {
      assert d !in s;
    }
    assert Climbs(s, n) by {
      forall k | 0 <= k < |s| ensures s[k].at.index >= n + k {
        assert s[0] in s;
        ClimbsBy(s, k);
      }
    }
    hide NewOnes, Separate, Debt, Climbs;
  }

  // ---------- what moves is untouched

  lemma {:induction false} MergeMoves(rest: seq<Json>, s: seq<Delta>, p: int, d: Delta)
    requires (forall e :: e in s ==> e.at.Index?) && d in s && d.Moved? && Merge(rest, s, p).Some?
    ensures d.moved in Merge(rest, s, p).value
    decreases |rest| + |s|
  {
    hide PostValue;
    if rest != [] && p < s[0].at.index {
      MergeMoves(rest[1..], s, p + 1, d);
    } else {
      assert s == [s[0]] + s[1..];
      if d in s[1..] {
        MergeMoves(if s[0].Added? || s[0].Moved? then rest else rest[1..], s[1..], p + 1, d);
      }
    }
  }

  /** An old item is printed only where it is untouched. */
  lemma {:induction false} WalkedHas(items: seq<Json>, es: seq<Delta>, i: nat, j: nat, key: string)
    requires i <= |items| && j < |items| && Instance(items, es, key) && items[j] in WalkedItems(items, i, es)
    ensures Untouched(es, j)
    decreases |items| - i
  {
    InstanceParts(items, es, key);
    hide Instance, Tracked, Marked, Separate, Carried, WalkedAt, Untouched;
    if items[j] in WalkedAt(items[i], At(es, i)) {
      WalkedIs(items, es, i, items[j], key);
      assert Size(items[i], key) == i && Size(items[j], key) == j;
    } else {
      WalkedHas(items, es, i + 1, j, key);
    }
  }

  lemma WalkedIs(items: seq<Json>, es: seq<Delta>, i: nat, v: Json, key: string)
    requires i < |items| && Instance(items, es, key) && v in items && v in WalkedAt(items[i], At(es, i))
    ensures Untouched(es, i) && v == items[i]
  {
    hide *;
    InstanceParts(items, es, key);
    WalkedOne(items[i], es, i);
    Kinds(es, i);
    if !Untouched(es, i) && !Silent(es, i) {
      PlacedHere(items, es, i, key);
      WalkedPut(items[i], es, i);
      PutIsNew(items, es, i, Posts(At(es, i))[0], key);
    }
  }

  lemma MovesAreFit(items: seq<Json>, es: seq<Delta>, key: string)
    requires Instance(items, es, key) && Agree(items, es, 0, 0, PostOrder(es))
    requires PreOrder(es) == [] || PreOrder(es)[0] < |items|
    ensures MovesFit(es, |items|)
  {
    forall d | d in es && d.Moved?
      ensures d.from.Index? && 0 <= d.from.index < |items| && Untouched(es, d.from.index)
    {
      MoveFits(items, es, d, key);
    }
  }

  lemma MoveFits(items: seq<Json>, es: seq<Delta>, d: Delta, key: string)
    requires Instance(items, es, key) && Agree(items, es, 0, 0, PostOrder(es)) && d in es && d.Moved?
    requires PreOrder(es) == [] || PreOrder(es)[0] < |items|
    ensures d.from.Index? && 0 <= d.from.index < |items| && Untouched(es, d.from.index)
  {
    hide *;
    InstanceParts(items, es, key);
    MoveLeaves(es, d);
    var n, f := |items|, d.from.index;
    FromWithin(es, d, n);
    CarriedHere(items, es, d, f);
    PostOrderHas(es);
    NewOnesAre(es, n);
    MoveComesOut(items, es, d);
    if items[f] in ValuesOf(NewOnes(es, n)) {
      ValuesIn(NewOnes(es, n), items[f]);
      NoNewItem(items, es, key, f);
    } else {
      WalkedHas(items, es, 0, f, key);
    }
  }

  lemma MoveLeaves(es: seq<Delta>, d: Delta)
    requires Separate(es) && d in es && d.Moved?
    ensures d.from.Index? && d.from.index >= 0
  {
  }

  lemma MoveComesOut(items: seq<Json>, es: seq<Delta>, d: Delta)
    requires Separate(es) && Agree(items, es, 0, 0, PostOrder(es)) && d in es && d.Moved?
    ensures forall e :: e in NewOnes(es, |items|) ==> e.Added?
    ensures d.moved in WalkedItems(items, 0, es) || d.moved in ValuesOf(NewOnes(es, |items|))
  {
    PostOrderHas(es);
    hide PostOrder, Merge, Tail, Kept, Rest, WalkedItems, ValuesOf, NewOnes, PreOrder, Separate;
    MergeMoves(Tail(Kept(items, PreOrder(es), 0), Rest(es, 0, |items|)), PostOrder(es), 0, d);
  }

  lemma NoNewItem(items: seq<Json>, es: seq<Delta>, key: string, f: nat)
    requires f < |items| && Told(items, key) && Marked(es)
    ensures forall d :: d in es && d.Added? ==> ValueOf(d) != items[f]
  {
  }

  lemma FromWithin(es: seq<Delta>, d: Delta, n: nat)
    requires Separate(es) && d in es && (d.Moved? || d.Deleted?) && (PreOrder(es) == [] || PreOrder(es)[0] < n)
    ensures d.Moved? ==> d.from.Index? && 0 <= d.from.index < n
    ensures d.Deleted? ==> d.at.Index? && 0 <= d.at.index < n
  {
    var i := if d.Moved? then d.from.index else d.at.index;
    PreOrderHas(es);
    GoneIff(es, i);
    assert Removes(d, i);
    var k :| 0 <= k < |PreOrder(es)| && PreOrder(es)[k] == i;
  }

  // ---------- a marked instance

  function Unary(k: nat): (s: string)
    ensures |s| == k
  {
    seq(k, _ => 'i')
  }

  lemma {:induction false} FreshKey(names: set<string>) returns (key: string)
    ensures key !in names
  {
    var m := Longest(names);
    key := Unary(m + 1);
  }

  lemma {:induction false} Longest(names: set<string>) returns (m: nat)
    ensures forall x :: x in names ==> |x| <= m
    decreases |names|
  {
    m := 0;
    if x :| x in names {
      var rest := Longest(names - {x});
      m := if rest > |x| then rest else |x|;
    }
  }

  ghost function Base(sub: seq<Delta>): (m: map<string, Json>)
    requires HasBase(sub)
    ensures IsBase(m, sub)
  {
    var m: map<string, Json> :| IsBase(m, sub);
    m
  }

  /** A key that none of the Object deltas, and none of the objects they are meant for, has. */
  ghost predicate IsFresh(ds: seq<Delta>, key: string)
    requires Workable(ds)
  {
    forall d :: d in ds && d.ObjectDelta? ==> key !in Base(d.deltas) && Search(d.deltas, Name(key)) == []
  }

  lemma FreshFor(ds: seq<Delta>) returns (key: string)
    requires Workable(ds)
    ensures IsFresh(ds, key)
  {
    var bases := set d, k | d in ds && d.ObjectDelta? && k in Base(d.deltas) :: k;
    var names := set d, e | d in ds && d.ObjectDelta? && e in d.deltas && e.at.Name? :: e.at.name;
    key := FreshKey(bases + names);
    forall d | d in ds && d.ObjectDelta? ensures Search(d.deltas, Name(key)) == [] {
      SearchFinds(d.deltas, Name(key));
      var found := Search(d.deltas, Name(key));
      FirstIsMember(found);
    }
  }

  function Mark(d: Delta, k: nat): Delta {
    var x := Leaf(Other(Unary(k)));
    match d
    case Added(at, _) => Added(at, x)
    case Modified(at, old_, _) => Modified(at, old_, x)
    case TextDiff(at, old_, _) => TextDiff(at, old_, x)
    case _ => d
  }

  function MarkAll(ds: seq<Delta>): (es: seq<Delta>)
    ensures |es| == |ds| && forall k :: 0 <= k < |es| ==> es[k] == Mark(ds[k], k)
  {
    seq(|ds|, k requires 0 <= k < |ds| => Mark(ds[k], k))
  }

  lemma MarkAllMarks(ds: seq<Delta>)
    ensures SamePlaces(ds, MarkAll(ds)) && Marked(MarkAll(ds))
  {
    var es := MarkAll(ds);
    forall k | 0 <= k < |es|
      ensures Whole(es[k]) ==> IsOther(ValueOf(es[k])) && |ValueOf(es[k]).scalar.goSyntax| == k
      ensures SamePlace(ds[k], es[k])
    {
      assert es[k] == Mark(ds[k], k);
    }
    forall d, e | d in es && e in es && Whole(d) && Whole(e) && ValueOf(d) == ValueOf(e) ensures d == e {
      var k :| 0 <= k < |es| && es[k] == d;
      var l :| 0 <= l < |es| && es[l] == e;
    }
  }

  /** The item at index i: an object for an Object delta there, a leaf otherwise. */
  ghost function ToldItem(ds: seq<Delta>, key: string, i: nat): Json
    requires Workable(ds)
  {
    var mark := Leaf(Text(Unary(i)));
    if Placed(ds, i) && Posts(At(ds, i))[0] in ds && Posts(At(ds, i))[0].ObjectDelta?
    then Object(Base(Posts(At(ds, i))[0].deltas)[key := mark])
    else mark
  }

  ghost function ToldItems(ds: seq<Delta>, key: string, n: nat): (items: seq<Json>)
    requires Workable(ds)
    ensures |items| == n && forall i :: 0 <= i < n ==> items[i] == ToldItem(ds, key, i)
  {
    seq(n, i requires 0 <= i < n => ToldItem(ds, key, i))
  }

  /** A marked object is still one that the delta meets and changes. */
  lemma MarkedBase(m: map<string, Json>, sub: seq<Delta>, key: string, x: Json)
    requires IsBase(m, sub) && key !in m && Search(sub, Name(key)) == []
    ensures IsBase(m[key := x], sub)
  {
    var m' := m[key := x];
    MarkedAgrees(m, sub, key, x);
    var before, after := PostApply(PreApply(m, sub), sub), PostApply(PreApply(m', sub), sub);
    forall k: string ensures Get(after, k) == if k == key then Some(x) else Get(before, k) {
      SubAtMostOne(m, sub, k);
      AppliedAtKey(m, sub, k);
      AppliedAtKey(m', sub, k);
    }
    SubAtMostOne(m, sub, key);
    AppliedAtKey(m, sub, key);
    if after == m' {
      forall k: string ensures Get(before, k) == Get(m, k) {
        assert Get(after, k) == Get(m', k);
      }
      SameMap(before, m);
    }
  }

  lemma SubAtMostOne(m: map<string, Json>, sub: seq<Delta>, k: string)
    requires Agreed(Object(m), sub)
    ensures |Search(sub, Name(k))| <= 1
  {
  }

  lemma MarkedAgrees(m: map<string, Json>, sub: seq<Delta>, key: string, x: Json)
    requires Agreed(Object(m), sub) && key !in m && Search(sub, Name(key)) == []
    ensures Agreed(Object(m[key := x]), sub)
  {
    var m' := m[key := x];
    forall k | k in m' ensures OldKey(m'[k], Search(sub, Name(k))) {
      if k != key { assert k in m && m'[k] == m[k]; }
    }
  }

  /** Marks make an instance of any deltas, one on which the changes inside agree. */
  lemma InstanceOf(ds: seq<Delta>, n: nat, key: string)
    requires Separate(ds) && Workable(ds) && IsFresh(ds, key)
    ensures var items, es := ToldItems(ds, key, n), MarkAll(ds);
      SamePlaces(ds, es) && Suits(items, es) && Instance(items, Carry(items, es), key)
  {
    var items, es := ToldItems(ds, key, n), MarkAll(ds);
    var cs := Carry(items, es);
    MarkAllMarks(ds);
    CarrySame(items, es);
    CarryCarries(items, es);
    SameSeparate(ds, es);
    SameSeparate(es, cs);
    forall i | 0 <= i < n ensures NestedAgreed(items[i], At(es, i)) && !items[i].Array? && Size(items[i], key) == i {
      ToldSuits(ds, es, n, i, key);
    }
    CarryMarked(items, es);
    forall d | d in cs ensures !d.ArrayDelta? && (d.ObjectDelta? ==> d in ds) {
      var e := Twin(es, cs, d);
      var c := Twin(ds, es, e);
      if d.ObjectDelta? { assert c == d; }
    }
    forall d | d in cs && d.ObjectDelta? && d.at.Index? && 0 <= d.at.index < n
      ensures ApplyDeltas(items[d.at.index], d.deltas) != items[d.at.index]
    {
      ToldChanges(ds, n, d, key);
    }
  }

  lemma {:induction false} CarryMarked(items: seq<Json>, es: seq<Delta>)
    requires Marked(es)
    ensures Marked(Carry(items, es))
  {
    forall d | d in Carry(items, es) && Whole(d) ensures d in es {
      CarryIn(items, es, d);
    }
  }

  lemma {:induction false} CarryIn(items: seq<Json>, es: seq<Delta>, d: Delta)
    requires d in Carry(items, es) && !d.Moved?
    ensures d in es
  {
    var cs := Carry(items, es);
    assert cs == [CarryOne(items, es[0])] + Carry(items, es[1..]);
    if d != cs[0] {
      CarryIn(items, es[1..], d);
    }
  }

  lemma ToldChanges(ds: seq<Delta>, n: nat, d: Delta, key: string)
    requires Separate(ds) && Workable(ds) && IsFresh(ds, key) && d in ds && d.ObjectDelta? && 0 <= d.at.index < n
    ensures var v := ToldItem(ds, key, d.at.index); v.Object? && Agreed(v, d.deltas) && ApplyDeltas(v, d.deltas) != v
  {
    var i := d.at.index;
    PlacedIff(ds, i);
    assert AtMostOne(ds, i);
    assert Posts(At(ds, i))[0] == d;
    MarkedBase(Base(d.deltas), d.deltas, key, Leaf(Text(Unary(i))));
  }

  lemma ToldSuits(ds: seq<Delta>, es: seq<Delta>, n: nat, i: nat, key: string)
    requires Separate(ds) && Workable(ds) && IsFresh(ds, key) && i < n && es == MarkAll(ds)
    ensures var v := ToldItem(ds, key, i); NestedAgreed(v, At(es, i)) && !v.Array? && Size(v, key) == i
  {
    var v := ToldItem(ds, key, i);
    SearchFinds(es, Index(i));
    MarkAllMarks(ds);
    forall d | d in At(es, i) ensures !d.ArrayDelta? && (d.ObjectDelta? ==> v.Object? && Agreed(v, d.deltas)) {
      var c := Twin(ds, es, d);
      if d.ObjectDelta? { ToldChanges(ds, n, c, key); }
    }
    NestedAll(v, At(es, i));
  }

  lemma {:induction false} NestedAll(v: Json, found: seq<Delta>)
    requires forall d :: d in found ==> !d.ArrayDelta? && (d.ObjectDelta? ==> v.Object? && Agreed(v, d.deltas))
    ensures NestedAgreed(v, found)
  {
    if found != [] {
      assert found[0] in found;
      InTail(found);
      NestedAll(v, found[1..]);
    }
  }

  // ---------- the theorem

  /** For deltas with at most one removal and one other delta at an index, that carry whole values,
      move items or change objects inside: the right lines of an array diff print what the library
      makes - for all values, and all items on which the changes inside agree - exactly when the
      positions are in step. */
  lemma ShapesExactly(ds: seq<Delta>, n: nat)
    requires Separate(ds) && Workable(ds)
    ensures (forall items: seq<Json>, es: seq<Delta> :: |items| == n && SamePlaces(ds, es) && Suits(items, es) ==>
               Trusted(items, es))
       <==> InStep(ds, n)
  {
    if InStep(ds, n) {
      forall items: seq<Json>, es: seq<Delta> | |items| == n && SamePlaces(ds, es) && Suits(items, es)
        ensures Trusted(items, es)
      {
        InStepSame(ds, es, n);
        PatchedMeaning(Array(items), es);
      }
    }
    if forall items: seq<Json>, es: seq<Delta> :: |items| == n && SamePlaces(ds, es) && Suits(items, es) ==>
      Trusted(items, es) {
      var key := FreshFor(ds);
      InstanceOf(ds, n, key);
      var items, es := ToldItems(ds, key, n), MarkAll(ds);
      assert Trusted(items, es);
      TrustedInStep(ds, items, es, key);
    }
  }

  lemma TrustedInStep(ds: seq<Delta>, items: seq<Json>, es: seq<Delta>, key: string)
    requires Separate(ds) && SamePlaces(ds, es) && Suits(items, es) && Trusted(items, es)
    requires Instance(items, Carry(items, es), key)
    ensures InStep(ds, |items|)
  {
    hide *;
    var n, cs := |items|, Carry(items, es);
    SameSeparate(ds, es);
    CarrySame(items, es);
    TrustedAgrees(items, es);
    InstanceParts(items, cs, key);
    MovesAreFit(items, cs, key);
    PendingAll(cs);
    PostOrderClimbs(cs);
    PlaceStarts(cs);
    BackingIs(items, cs, 0, PostOrder(cs), key);
    Back(items, cs, 0, PostOrder(cs), key);
    GoodInStep(cs, n);
    SamePlacesSymmetric(es, cs);
    SamePlacesSymmetric(ds, es);
    InStepSame(cs, es, n);
    InStepSame(es, ds, n);
  }

  lemma PlaceStarts(ds: seq<Delta>)
    ensures Place(ds, 0) == 0
  {
  }

  /** To be trusted is to agree from the start, and to remove nothing that is not there. */
  lemma TrustedAgrees(items: seq<Json>, es: seq<Delta>)
    requires Separate(es) && Suits(items, es) && Trusted(items, es)
    ensures var cs := Carry(items, es);
      Agree(items, cs, 0, 0, PostOrder(cs)) && (PreOrder(cs) == [] || PreOrder(cs)[0] < |items|)
  {
    var n, gone, cs := |items|, PreOrder(es), Carry(items, es);
    var kept := Kept(items, gone, 0);
    WalkedMeaning(Array(items), es);
    ApplyMerges(items, es);
    CarrySame(items, es);
    SameSeparate(es, cs);
    PostOrderHas(cs);
    WalkedCarry(items, 0, es);
    NewCarry(items, es, n);
    KeptLength(items, cs, 0);
    hide Merge, Kept, ApplyArray, WalkedItems, ValuesOf, NewOnes, PreOrder, PostOrder, Separate, Printed, Meaning,
      Search,
      Suits, Carry, NestedAgreed;
    assert ApplyArray(items, es) == Some(WalkedItems(items, 0, es) + ValuesOf(NewOnes(es, n)));
    RestIs(cs, 0, n);
    assert Rest(cs, 0, n) == |kept|;
    assert Tail(kept, |kept|) == kept;
  }

  lemma GoodInStep(es: seq<Delta>, n: nat)
    requires Separate(es) && GoodFrom(es, n, 0) && MovesFit(es, n) && (PreOrder(es) == [] || PreOrder(es)[0] < n)
    requires forall d :: d in es ==> !d.ArrayDelta?
    ensures InStep(es, n)
  {
    forall d | d in es && !d.Added? ensures InReach(es, d, n) {
      if d.Deleted? { FromWithin(es, d, n); }
    }
    hide Balanced, Undisturbed, Unspanned, Climbs, Debt;
    assert forall i: nat :: Balanced(es, n, i);
    assert forall i: nat, j: nat :: Undisturbed(es, n, i, j);
    assert forall d, j: nat :: d in es ==> Unspanned(es, d, j);
  }
}
