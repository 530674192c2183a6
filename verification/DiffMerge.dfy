/** The library's application of deltas to an array, in one pass: what is kept of the old array, merged
    with the other deltas in the order of their indexes. */
module DiffMerge {
  import opened Options
  import opened JsonDoc
  import opened DiffLines
  import opened DiffApply
  import opened DiffPlaces

  function Cons(x: Json, rest: Option<seq<Json>>): Option<seq<Json>> {
    if rest.None? then None else Some([x] + rest.value)
  }

  /** The kept items and the ordered deltas merged, from index p of the result on. */
  ghost function Merge(kept: seq<Json>, s: seq<Delta>, p: int): Option<seq<Json>>
    requires forall d :: d in s ==> d.at.Index?
    decreases |kept| + |s|
  {
    if s == [] then Some(kept)
    else if kept != [] && p < s[0].at.index then Cons(kept[0], Merge(kept[1..], s, p + 1))
    else if s[0].Added? then Cons(s[0].added, Merge(kept, s[1..], p + 1))
    else if s[0].Moved? then if p < s[0].at.index then None else Cons(s[0].moved, Merge(kept, s[1..], p + 1))
    else if kept == [] then None
    else
      var new_ := PostValue(Some(kept[0]), s);
      if new_.Some? then Cons(new_.value, Merge(kept[1..], s[1..], p + 1)) else None
  }

  function Onto(done: seq<Json>, m: Option<seq<Json>>): Option<seq<Json>> {
    if m.None? then None else Some(done + m.value)
  }

  lemma OntoCons(done: seq<Json>, x: Json, m: Option<seq<Json>>)
    ensures Onto(done + [x], m) == Onto(done, Cons(x, m))
  {
    if m.Some? {
      assert done + [x] + m.value == done + ([x] + m.value);
    }
  }

  lemma {:induction false} PostMerge(done: seq<Json>, kept: seq<Json>, s: seq<Delta>)
    requires Climbs(s, |done|)
    ensures PostArray(done + kept, s) == Onto(done, Merge(kept, s, |done|))
    decreases |kept| + |s|
  {
    if s != [] {
      hide PostValue, PostAt, Onto, Cons, Climbs;
      OntoNone(done);
      ClimbsAt(s, |done|);
      if kept != [] && |done| < s[0].at.index {
        assert done + kept == done + [kept[0]] + kept[1..];
        ClimbsOn(s, |done|);
        PostMerge(done + [kept[0]], kept[1..], s);
        OntoCons(done, kept[0], Merge(kept[1..], s, |done| + 1));
      } else if s[0].Added? {
        MergeAdded(done, kept, s);
        PostMerge(done + [s[0].added], kept, s[1..]);
        OntoCons(done, s[0].added, Merge(kept, s[1..], |done| + 1));
      } else if s[0].Moved? {
        MovedPut(done, kept, s);
        if s[0].at.index == |done| {
          PostMerge(done + [s[0].moved], kept, s[1..]);
          OntoCons(done, s[0].moved, Merge(kept, s[1..], |done| + 1));
        }
      } else {
        ChangedPut(done, kept, s);
        if kept != [] && PostValue(Some(kept[0]), s).Some? {
          var new_ := PostValue(Some(kept[0]), s).value;
          PostMerge(done + [new_], kept[1..], s[1..]);
          OntoCons(done, new_, Merge(kept[1..], s[1..], |done| + 1));
        }
      }
    }
  }

  lemma ClimbsAt(s: seq<Delta>, i: int)
    requires Climbs(s, i) && s != []
    ensures (forall d :: d in s ==> d.at.Index?) && (forall d :: d in s[1..] ==> d.at.Index?)
    ensures s[0].at.Index? && i <= s[0].at.index && Climbs(s[1..], i + 1)
  {
    assert forall d :: d in s[1..] ==> d in s;
    assert s[0] in s;
  }

  lemma MovedPut(done: seq<Json>, kept: seq<Json>, s: seq<Delta>)
    requires s != [] && (forall d :: d in s ==> d.at.Index?) && s[0].at.Index? && s[0].Moved?
    requires |done| <= s[0].at.index && (kept != [] ==> s[0].at.index == |done|)
    ensures PostAt(done + kept, s) == if s[0].at.index == |done| then Some(done + [s[0].moved] + kept) else None
  {
    var i, items := s[0].at.index, done + kept;
    if i == |done| {
      assert items[..i] == done && items[i..] == kept;
    }
  }

  lemma ChangedPut(done: seq<Json>, kept: seq<Json>, s: seq<Delta>)
    requires s != [] && (forall d :: d in s ==> d.at.Index?) && s[0].at.Index? && !s[0].Added? && !s[0].Moved?
    requires |done| <= s[0].at.index && (kept != [] ==> s[0].at.index == |done|)
    ensures PostAt(done + kept, s) ==
      if kept != [] && PostValue(Some(kept[0]), s).Some? then
        Some(done + [PostValue(Some(kept[0]), s).value] + kept[1..])
      else None
  {
    var i, items := s[0].at.index, done + kept;
    hide PostValue;
    if kept != [] {
      assert items[i] == kept[0] && items[..i] == done && items[i + 1..] == kept[1..];
    }
  }

  lemma OntoNone(done: seq<Json>)
    ensures Onto(done, None) == None
  {
  }

  lemma ClimbsOn(s: seq<Delta>, i: int)
    requires Climbs(s, i) && s != [] && i < s[0].at.index
    ensures Climbs(s, i + 1)
  {
    forall k | 0 <= k < |s| ensures s[k].at.index >= i + 1 + k {
      ClimbsBy(s, k);
    }
  }

  lemma {:induction false} ClimbsBy(s: seq<Delta>, k: nat)
    requires (forall d :: d in s ==> d.at.Index?) && k < |s|
    requires forall k, l :: 0 <= k < l < |s| ==> s[k].at.index < s[l].at.index
    ensures s[k].at.index >= s[0].at.index + k
  {
    if k > 0 {
      ClimbsBy(s, k - 1);
    }
  }

  lemma MergeAdded(done: seq<Json>, kept: seq<Json>, s: seq<Delta>)
    requires Climbs(s, |done|) && s != [] && s[0].Added? && (kept == [] || s[0].at.index == |done|)
    ensures PostAt(done + kept, s) == Some(done + [s[0].added] + kept)
  {
    var i, items := s[0].at.index, done + kept;
    if i < |items| {
      assert items[..i] == done && items[i..] == kept;
    } else {
      assert items + [s[0].added] == done + [s[0].added] + kept;
    }
  }

  // ---------- the orders of the library

  lemma {:induction false} PostOrderHas(ds: seq<Delta>)
    requires forall d :: d in ds ==> d.at.Index?
    ensures forall d :: d in PostOrder(ds) <==> d in ds && !d.Deleted?
  {
    if ds != [] {
      assert forall d :: d in ds[1..] ==> d in ds;
      PostOrderHas(ds[1..]);
      assert ds == [ds[0]] + ds[1..];
    }
  }

  predicate Ascends(s: seq<Delta>) {
    (forall d :: d in s ==> d.at.Index?) && forall k, l :: 0 <= k < l < |s| ==> s[k].at.index < s[l].at.index
  }

  lemma {:induction false} InsertUpAscends(d: Delta, s: seq<Delta>)
    requires d.at.Index? && Ascends(s) && forall e :: e in s ==> e.at.index != d.at.index
    ensures Ascends(InsertUp(d, s))
  {
    if s == [] || d.at.index <= s[0].at.index {
      AscendsCons(d, s);
    } else {
      HeadIsLeast(s);
      InsertUpAscends(d, s[1..]);
      AscendsCons(s[0], InsertUp(d, s[1..]));
    }
  }

  lemma HeadIsLeast(s: seq<Delta>)
    requires Ascends(s) && s != []
    ensures Ascends(s[1..]) && forall e :: e in s[1..] ==> e in s && s[0].at.index < e.at.index
  {
    forall e | e in s[1..] ensures e in s && s[0].at.index < e.at.index {
      var j :| 0 <= j < |s[1..]| && s[1..][j] == e;
      assert s[j + 1] == e;
    }
  }

  lemma AscendsCons(d: Delta, s: seq<Delta>)
    requires d.at.Index? && Ascends(s)
    requires s != [] ==> d.at.index < s[0].at.index || forall e :: e in s ==> d.at.index < e.at.index
    requires s != [] ==> d.at.index != s[0].at.index
    ensures Ascends([d] + s)
  {
    var r := [d] + s;
    forall k, l | 0 <= k < l < |r| ensures r[k].at.index < r[l].at.index {
      assert s[0] in s;
      assert r[l] == s[l - 1] && s[l - 1] in s;
    }
  }

  lemma SeparateTail(ds: seq<Delta>)
    requires Separate(ds) && ds != []
    ensures Separate(ds[1..])
  {
    var tail := ds[1..];
    assert forall d :: d in tail ==> d in ds;
    forall i: int ensures AtMostOne(tail, i) {
      assert AtMostOne(ds, i);
      if ds[0].at == Index(i) {
        assert At(ds, i)[1..] == At(tail, i);
      }
    }
  }

  /** The first delta has its place to itself, and what it removes. */
  lemma SeparateHead(ds: seq<Delta>)
    requires Separate(ds) && ds != []
    ensures !ds[0].Deleted? ==> forall e :: e in ds[1..] && !e.Deleted? ==> e.at != ds[0].at
    ensures forall i: int :: Removes(ds[0], i) ==> !Gone(ds[1..], i)
  {
    var i := ds[0].at.index;
    assert AtMostOne(ds, i);
    PlacedIff(ds[1..], i);
    assert At(ds, i)[1..] == At(ds[1..], i);
    forall j: int | Removes(ds[0], j) ensures !Gone(ds[1..], j) {
      assert AtMostOne(ds, j);
    }
  }

  lemma {:induction false} PostOrderAscends(ds: seq<Delta>)
    requires Separate(ds)
    ensures Ascends(PostOrder(ds))
  {
    if ds != [] {
      SeparateTail(ds);
      SeparateHead(ds);
      PostOrderAscends(ds[1..]);
      PostOrderHas(ds[1..]);
      if !ds[0].Deleted? {
        InsertUpAscends(ds[0], PostOrder(ds[1..]));
      }
    }
  }

  lemma {:induction false} PreOrderHas(ds: seq<Delta>)
    requires Separate(ds)
    ensures forall i :: i in PreOrder(ds) <==> Gone(ds, i)
    ensures Descends(PreOrder(ds))
  {
    if ds != [] {
      SeparateTail(ds);
      SeparateHead(ds);
      PreOrderHas(ds[1..]);
      if ds[0].Deleted? {
        InsertDownHas(ds[0].at.index, PreOrder(ds[1..]));
      } else if ds[0].Moved? {
        InsertDownHas(ds[0].from.index, PreOrder(ds[1..]));
      }
      forall i: int ensures Gone(ds, i) <==> Removes(ds[0], i) || Gone(ds[1..], i) {
        var more := Removers(ds[1..], i);
        assert [] + more == more;
      }
    }
  }

  predicate Descends(s: seq<int>) {
    forall k, l :: 0 <= k < l < |s| ==> s[k] > s[l]
  }

  lemma {:induction false} InsertDownHas(i: int, s: seq<int>)
    requires Descends(s) && i !in s
    ensures Descends(InsertDown(i, s)) && forall j :: j in InsertDown(i, s) <==> j == i || j in s
  {
    if s != [] && i < s[0] {
      assert s == [s[0]] + s[1..];
      InsertDownHas(i, s[1..]);
      var rest := InsertDown(i, s[1..]);
      forall k | 0 <= k < |rest| ensures s[0] > rest[k] {
        assert rest[k] in rest;
      }
    } else if s != [] {
      assert s[0] in s;
    }
  }

  /** The items from index i on that are not at a removed index. */
  function Kept(items: seq<Json>, gone: seq<int>, i: nat): seq<Json>
    requires i <= |items|
    decreases |items| - i
  {
    if i == |items| then [] else (if i in gone then [] else [items[i]]) + Kept(items, gone, i + 1)
  }

  lemma {:induction false} KeptAll(items: seq<Json>, gone: seq<int>, i: nat)
    requires i <= |items| && forall j :: j in gone ==> j < i
    ensures Kept(items, gone, i) == items[i..]
    decreases |items| - i
  {
    if i < |items| {
      KeptAll(items, gone, i + 1);
    }
  }

  /** Removing the highest index first leaves the lower ones where they are. */
  lemma {:induction false} KeptFirst(items: seq<Json>, gone: seq<int>, i: nat)
    requires gone != [] && Descends(gone) && i <= gone[0] < |items|
    ensures Kept(items[..gone[0]] + items[gone[0] + 1..], gone[1..], i) == Kept(items, gone, i)
    decreases gone[0] - i
  {
    var d := gone[0];
    var less := items[..d] + items[d + 1..];
    assert gone == [d] + gone[1..];
    if i == d {
      KeptAll(less, gone[1..], d);
      assert less[d..] == items[d + 1..];
      KeptAll(items, gone, d + 1);
    } else {
      KeptFirst(items, gone, i + 1);
      assert less[i] == items[i] && (i in gone <==> i in gone[1..]);
    }
  }

  lemma {:induction false} PreArrayKeeps(items: seq<Json>, gone: seq<int>)
    requires Descends(gone) && forall j :: j in gone ==> j >= 0
    ensures PreArray(items, gone) == if gone == [] || gone[0] < |items| then Some(Kept(items, gone, 0)) else None
    decreases |gone|
  {
    if gone == [] {
      KeptAll(items, gone, 0);
    } else {
      assert gone[0] in gone;
      assert forall j :: j in gone[1..] ==> j in gone;
      if gone[0] < |items| {
        PreArrayKeeps(items[..gone[0]] + items[gone[0] + 1..], gone[1..]);
        KeptFirst(items, gone, 0);
      }
    }
  }


  // ---------- carrying

  lemma {:induction false} CarrySame(items: seq<Json>, ds: seq<Delta>)
    ensures SamePlaces(ds, Carry(items, ds)) && PreOrder(Carry(items, ds)) == PreOrder(ds)
  {
    if ds == [] {
      SamePlacesNone();
    } else {
      CarrySame(items, ds[1..]);
      hide SamePlaces;
      SamePlacesCons(ds[0], CarryOne(items, ds[0]), ds[1..], Carry(items, ds[1..]));
      assert [ds[0]] + ds[1..] == ds;
      assert Carry(items, ds)[1..] == Carry(items, ds[1..]);
    }
  }

  /** A Moved has the item it removes with it. */
  predicate Carried(items: seq<Json>, ds: seq<Delta>) {
    forall d :: d in ds && d.Moved? && d.from.Index? && 0 <= d.from.index < |items| ==> d.moved == items[d.from.index]
  }

  lemma {:induction false} CarryCarries(items: seq<Json>, ds: seq<Delta>)
    ensures Carried(items, Carry(items, ds))
  {
    if ds != [] {
      CarryCarries(items, ds[1..]);
      var cs := Carry(items, ds);
      assert cs == [CarryOne(items, ds[0])] + Carry(items, ds[1..]);
    }
  }

  /** The library's array: what is kept, merged with the other deltas. */
  lemma ApplyMerges(items: seq<Json>, ds: seq<Delta>)
    requires Separate(ds)
    ensures var gone := PreOrder(ds);
      ApplyArray(items, ds) ==
        if gone == [] || gone[0] < |items| then Merge(Kept(items, gone, 0), PostOrder(Carry(items, ds)), 0) else None
  {
    var gone, cs := PreOrder(ds), Carry(items, ds);
    PreOrderHas(ds);
    forall j | j in gone ensures j >= 0 {
      GoneIff(ds, j);
    }
    PreArrayKeeps(items, gone);
    CarrySame(items, ds);
    SameSeparate(ds, cs);
    PostOrderClimbs(cs);
    if gone == [] || gone[0] < |items| {
      var kept := Kept(items, gone, 0);
      PostMerge([], kept, PostOrder(cs));
      assert [] + kept == kept;
      if Merge(kept, PostOrder(cs), 0).Some? {
        assert [] + Merge(kept, PostOrder(cs), 0).value == Merge(kept, PostOrder(cs), 0).value;
      }
    }
  }

  lemma PostOrderClimbs(ds: seq<Delta>)
    requires Separate(ds)
    ensures Climbs(PostOrder(ds), 0)
  {
    var s := PostOrder(ds);
    PostOrderAscends(ds);
    PostOrderHas(ds);
    forall k | 0 <= k < |s| ensures s[k].at.index >= k {
      assert s[0] in s;
      ClimbsBy(s, k);
    }
  }
}
