/** The document the right lines print is the one the library makes by applying the deltas, when each
    key of an object has one delta and the positions in every array are in step. */
module DiffMeaning {
  import opened Options
  import opened JsonDoc
  import opened DiffLines
  import opened DiffProjection
  import opened DiffSides
  import opened DiffApply
  import opened DiffPlaces
  import opened DiffMerge
  import opened DiffArrays

  /** Where the formatter and the library agree: in an object every key has at most one delta, an
      Added one exactly at new keys; in an array the positions are in step; Object deltas meet objects
      and Array deltas arrays; and so on inside them. */
  ghost predicate Agreed(v: Json, ds: seq<Delta>)
    decreases v, 0
  {
    match v
    case Object(m) =>
      && (forall d :: d in ds ==> d.at.Name?)
      && (forall k: string :: |Search(ds, Name(k))| <= 1)
      && (forall k :: k in m ==> OldKey(m[k], Search(ds, Name(k))))
      && (forall k: string :: k !in m ==> AllAdded(Search(ds, Name(k))))
    case Array(items) =>
      && InStep(ds, |items|)
      && forall i :: 0 <= i < |items| ==> NestedAgreed(items[i], At(ds, i))
    case Leaf(_) => true
  }

  ghost predicate OldKey(v: Json, found: seq<Delta>)
    decreases v, 2
  {
    (forall d :: d in found ==> !d.Added? && !d.Moved?) && NestedAgreed(v, found)
  }

  ghost predicate NestedAgreed(v: Json, found: seq<Delta>)
    decreases v, 1, |found|
  {
    found == [] || found[0].Moved? ||
    (&& (found[0].ObjectDelta? ==> v.Object? && Agreed(v, found[0].deltas))
     && (found[0].ArrayDelta? ==> v.Array? && Agreed(v, found[0].deltas))
     && NestedAgreed(v, found[1..]))
  }

  // ---------- objects, key by key

  lemma {:induction false} PreGet(m: map<string, Json>, ds: seq<Delta>, k: string)
    requires |Search(ds, Name(k))| <= 1
    ensures var found := Search(ds, Name(k));
      Get(PreApply(m, ds), k) == if found != [] && found[0].Deleted? then None else Get(m, k)
    decreases |ds|
  {
    if ds != [] {
      var m' := if ds[0].Deleted? && ds[0].at.Name? then m - {ds[0].at.name} else m;
      PreGet(m', ds[1..], k);
    }
  }

  /** With at most one delta at k, only that one decides what is at k afterwards. */
  lemma {:induction false} PostGet(m: map<string, Json>, ds: seq<Delta>, k: string)
    requires |Search(ds, Name(k))| <= 1
    ensures var found := Search(ds, Name(k));
      Get(PostApply(m, ds), k) == if found == [] then Get(m, k) else PostValue(Get(m, k), found)
    decreases |ds|
  {
    if ds != [] {
      hide ApplyDeltas;
      PostGet(PostStep(m, ds), ds[1..], k);
      if ds[0].at == Name(k) {
        assert Search(ds, Name(k)) == [ds[0]];
        assert PostValue(Get(m, k), ds) == PostValue(Get(m, k), [ds[0]]);
      }
    }
  }

  lemma {:induction false} KeptGet(v: Json, keys: seq<string>, ds: seq<Delta>, k: string)
    requires v.Object? && forall key :: key in keys ==> key in v.members
    requires k in v.members ==> |ItemDocs(v.members[k], Search(ds, Name(k)), Right)| <= 1
    ensures Get(FieldsMeaning(KeptFields(v, keys, ds, Right)), k) ==
        if k !in keys || ItemDocs(v.members[k], Search(ds, Name(k)), Right) == [] then None
        else Some(Meaning(ItemDocs(v.members[k], Search(ds, Name(k)), Right)[0]))
    decreases |keys|
  {
    if keys != [] {
      hide ItemDocs, Search, Meaning;
      KeptGet(v, keys[1..], ds, k);
      var docs := ItemDocs(v.members[keys[0]], Search(ds, Name(keys[0])), Right);
      FieldsMeaningConcat(Named(keys[0], docs), KeptFields(v, keys[1..], ds, Right));
      NamedMeaning(keys[0], docs, k);
    }
  }

  lemma {:induction false} NamedMeaning(name: string, docs: seq<Doc>, k: string)
    ensures k != name ==> k !in FieldsMeaning(Named(name, docs))
    ensures |docs| <= 1 ==> Get(FieldsMeaning(Named(name, docs)), name) == if docs == [] then None
      else Some(Meaning(docs[0]))
    decreases |docs|
  {
    if docs != [] {
      var fields := Named(name, docs);
      assert fields[0] == Field(name, docs[0]) && fields[1..] == Named(name, docs[1..]);
      NamedMeaning(name, docs[1..], k);
    }
  }

  lemma {:induction false} NewGet(ds: seq<Delta>, k: string)
    requires forall d :: d in ds ==> d.at.Name?
    requires |Search(ds, Name(k))| <= 1
    ensures var found := Search(ds, Name(k));
      Get(FieldsMeaning(NewFields(ds, Right)), k) == if found != [] && found[0].Added? then Some(found[0].added)
        else None
    decreases |ds|
  {
    if ds != [] {
      NewGet(ds[1..], k);
      if ds[0].Added? {
        MeaningOfOrder(ds[0].added);
        var f := NewFields(ds, Right);
        assert f[0] == Field(ds[0].at.name, Order(ds[0].added)) && f[1..] == NewFields(ds[1..], Right);
      } else {
        assert NewFields(ds, Right) == NewFields(ds[1..], Right);
      }
    }
  }

  /** The old entry at a key and the delta there, if any. */
  lemma {:induction false} KeptValue(v: Json, found: seq<Delta>)
    requires OldKey(v, found) && |found| <= 1
    ensures var docs := ItemDocs(v, found, Right);
      && |docs| <= 1
      && (docs == [] <==> found != [] && found[0].Deleted?)
      && (docs != [] ==> Some(Meaning(docs[0])) == if found == [] then Some(v) else PostValue(Some(v), found))
    decreases v, 1
  {
    MeaningOfOrder(v);
    if found != [] {
      assert found[0] in found && found[1..] == [];
      assert Refusal(found[0], v) == None;
      assert ItemDocs(v, found, Right) == DeltaDocs(v, found[0], Right) + FoundDocs(v, [], Right);
      assert ItemDocs(v, found, Right) == DeltaDocs(v, found[0], Right);
      hide ItemDocs, FoundDocs, Printed, Order, Meaning, ApplyDeltas, Agreed;
      match found[0]
      case ObjectDelta(_, sub) => PatchedMeaning(v, sub);
      case ArrayDelta(_, sub) => PatchedMeaning(v, sub);
      case Modified(_, _, y) => MeaningOfOrder(y);
      case TextDiff(_, _, y) => MeaningOfOrder(y);
      case _ =>
    }
  }

  lemma {:induction false} ObjectMeaning(v: Json, ds: seq<Delta>)
    requires v.Object? && Agreed(v, ds)
    ensures Meaning(Printed(v, ds, Right)) == ApplyDeltas(v, ds)
    decreases v, 0, 1
  {
    var m, keys := v.members, SortedKeys(v.members);
    SortedKeysComplete(m);
    var kept, fresh_ := FieldsMeaning(KeptFields(v, keys, ds, Right)), FieldsMeaning(NewFields(ds, Right));
    FieldsMeaningConcat(KeptFields(v, keys, ds, Right), NewFields(ds, Right));
    assert Meaning(Printed(v, ds, Right)) == Object(kept + fresh_);
    var applied := PostApply(PreApply(m, ds), ds);
    forall k: string ensures Get(kept + fresh_, k) == Get(applied, k) {
      KeyMeaning(v, ds, k);
      AgreedAt(v, ds, k);
      AppliedAtKey(m, ds, k);
    }
    SameMap(kept + fresh_, applied);
  }

  lemma SameMap<V>(a: map<string, V>, b: map<string, V>)
    requires forall k: string :: Get(a, k) == Get(b, k)
    ensures a == b
  {
    forall k: string ensures k in a <==> k in b { assert Get(a, k) == Get(b, k); }
    forall k: string | k in a ensures a[k] == b[k] { assert Get(a, k) == Get(b, k); }
  }

  /** What is at a key afterwards, given the delta there, if any. */
  ghost function AtKey(old_: Option<Json>, found: seq<Delta>): Option<Json> {
    if found == [] then old_ else if found[0].Deleted? then None else PostValue(old_, found)
  }

  lemma AppliedAtKey(m: map<string, Json>, ds: seq<Delta>, k: string)
    requires |Search(ds, Name(k))| <= 1
    ensures Get(PostApply(PreApply(m, ds), ds), k) == AtKey(Get(m, k), Search(ds, Name(k)))
  {
    hide PreApply, PostApply, Search, ApplyDeltas;
    PreGet(m, ds, k);
    PostGet(PreApply(m, ds), ds, k);
  }

  lemma {:induction false} KeyMeaning(v: Json, ds: seq<Delta>, k: string)
    requires v.Object? && Agreed(v, ds)
    ensures Get(FieldsMeaning(KeptFields(v, SortedKeys(v.members), ds, Right)) + FieldsMeaning(NewFields(ds, Right)), k)
         == AtKey(Get(v.members, k), Search(ds, Name(k)))
    decreases v, 0, 0
  {
    hide *;
    var m, keys, found := v.members, SortedKeys(v.members), Search(ds, Name(k));
    SortedKeysComplete(m);
    AgreedAt(v, ds, k);
    if k in m {
      KeptValue(m[k], found);
      NoneAdded(m[k], found);
    }
    KeptGet(v, keys, ds, k);
    NewGet(ds, k);
    JoinedGet(FieldsMeaning(KeptFields(v, keys, ds, Right)), FieldsMeaning(NewFields(ds, Right)), k);
    AtOldKey(m, k, found);
    AtNewKey(m, k, found);
  }

  lemma NoneAdded(v: Json, found: seq<Delta>)
    requires OldKey(v, found)
    ensures found == [] || !found[0].Added?
  {
  }

  lemma JoinedGet<V>(a: map<string, V>, b: map<string, V>, k: string)
    ensures Get(a + b, k) == if Get(b, k).Some? then Get(b, k) else Get(a, k)
  {
  }

  lemma AtOldKey(m: map<string, Json>, k: string, found: seq<Delta>)
    ensures k in m && found == [] ==> AtKey(Get(m, k), found) == Some(m[k])
    ensures k in m && found != [] && found[0].Deleted? ==> AtKey(Get(m, k), found) == None
    ensures k in m && found != [] && !found[0].Deleted? ==> AtKey(Get(m, k), found) == PostValue(Some(m[k]), found)
  {
  }

  lemma AtNewKey(m: map<string, Json>, k: string, found: seq<Delta>)
    requires k in m || AllAdded(found)
    ensures k !in m ==> AtKey(Get(m, k), found) == if found == [] then None else Some(found[0].added)
    ensures k !in m && found != [] ==> found[0].Added?
  {
  }

  lemma AgreedAt(v: Json, ds: seq<Delta>, k: string)
    requires v.Object? && Agreed(v, ds)
    ensures forall d :: d in ds ==> d.at.Name?
    ensures |Search(ds, Name(k))| <= 1
    ensures if k in v.members then OldKey(v.members[k], Search(ds, Name(k)))
            else AllAdded(Search(ds, Name(k)))
  {
  }

  // ---------- arrays

  lemma {:induction false} FoundMeaning(v: Json, found: seq<Delta>)
    requires NestedAgreed(v, found)
    ensures ElementsMeaning(FoundDocs(v, found, Right)) == WalkedFound(v, found)
    decreases v, 1, |found|
  {
    if found != [] && !found[0].Moved? {
      assert Refusal(found[0], v) == None;
      var docs := DeltaDocs(v, found[0], Right);
      FoundMeaning(v, found[1..]);
      ElementsMeaningConcat(docs, FoundDocs(v, found[1..], Right));
      match found[0]
      case ObjectDelta(_, sub) => PatchedMeaning(v, sub); OneMeaning(docs[0]);
      case ArrayDelta(_, sub) => PatchedMeaning(v, sub); OneMeaning(docs[0]);
      case Added(_, x) => MeaningOfOrder(x); OneMeaning(docs[0]);
      case Modified(_, _, y) => MeaningOfOrder(y); OneMeaning(docs[0]);
      case TextDiff(_, _, y) => MeaningOfOrder(y); OneMeaning(docs[0]);
      case _ =>
    }
  }

  lemma OneMeaning(d: Doc)
    ensures ElementsMeaning([d]) == [Meaning(d)]
  {
    assert [d][1..] == [];
  }

  lemma {:induction false} ItemsMeaning(v: Json, i: nat, ds: seq<Delta>)
    requires v.Array? && i <= |v.items|
    requires forall j :: 0 <= j < |v.items| ==> NestedAgreed(v.items[j], At(ds, j))
    ensures ElementsMeaning(KeptElements(v, i, ds, Right)) == WalkedItems(v.items, i, ds)
    decreases v, 0, |v.items| - i
  {
    if i < |v.items| {
      var child, found := v.items[i], At(ds, i);
      ItemsMeaning(v, i + 1, ds);
      ElementsMeaningConcat(ItemDocs(child, found, Right), KeptElements(v, i + 1, ds, Right));
      if found == [] {
        MeaningOfOrder(child);
        OneMeaning(Order(child));
      } else {
        FoundMeaning(child, found);
      }
    }
  }

  lemma {:induction false} NewElementsMeaning(ds: seq<Delta>, n: nat)
    ensures (forall d :: d in NewOnes(ds, n) ==> d.Added?) &&
      ElementsMeaning(NewElements(ds, n, Right)) == ValuesOf(NewOnes(ds, n))
    decreases |ds|
  {
    NewOnesAre(ds, n);
    if ds != [] {
      NewElementsMeaning(ds[1..], n);
      if ds[0].Added? && !AlreadyMet(ds[0].at, true, n) {
        MeaningOfOrder(ds[0].added);
        OneMeaning(Order(ds[0].added));
        ElementsMeaningConcat([Order(ds[0].added)], NewElements(ds[1..], n, Right));
        assert NewOnes(ds, n)[1..] == NewOnes(ds[1..], n);
      } else {
        assert NewElements(ds, n, Right) == NewElements(ds[1..], n, Right);
        assert NewOnes(ds, n) == NewOnes(ds[1..], n);
      }
    }
  }

  /** The array the right lines print. */
  lemma {:induction false} WalkedMeaning(v: Json, ds: seq<Delta>)
    requires v.Array?
    requires forall j :: 0 <= j < |v.items| ==> NestedAgreed(v.items[j], At(ds, j))
    ensures forall d :: d in NewOnes(ds, |v.items|) ==> d.Added?
    ensures Meaning(Printed(v, ds, Right)) == Array(WalkedItems(v.items, 0, ds) + ValuesOf(NewOnes(ds, |v.items|)))
    decreases v, 0, |v.items| + 1
  {
    ItemsMeaning(v, 0, ds);
    hide KeptElements, NewElements, ElementsMeaning, WalkedItems, ValuesOf, NewOnes, NestedAgreed;
    NewElementsMeaning(ds, |v.items|);
    ElementsMeaningConcat(KeptElements(v, 0, ds, Right), NewElements(ds, |v.items|, Right));
  }

  lemma {:induction false} ArrayMeaning(v: Json, ds: seq<Delta>)
    requires v.Array? && Agreed(v, ds)
    ensures Meaning(Printed(v, ds, Right)) == ApplyDeltas(v, ds) && ApplyArray(v.items, ds).Some?
    decreases v, 0, |v.items| + 2
  {
    WalkedMeaning(v, ds);
    assert InStep(ds, |v.items|);
    hide Agreed, InStep, Printed, WalkedItems, ValuesOf, NewOnes, ApplyArray;
    ArraysAgree(v.items, ds);
  }

  /** An item added below the end of an array: the right lines show it in the place of the old
      one, and the library keeps both. */
  lemma InsertionLosesRightItem(x: Scalar, y: Scalar)
    ensures var left, ds := Array([Leaf(x)]), [Added(Index(0), Leaf(y))];
      && Agrees(left, ds)
      && Meaning(Printed(left, ds, Right)) == Array([Leaf(y)])
      && ApplyDeltas(left, ds) == Array([Leaf(y), Leaf(x)])
  {
    var items, d := [Leaf(x)], Added(Index(0), Leaf(y));
    var left, ds := Array(items), [d];
    assert ds[1..] == [] && At(ds, 0) == ds;
    assert NestedAgreed(items[0], ds) && AgreesAt(items[0], ds);
    assert forall i :: 0 <= i < |items| ==> i == 0 && At(ds, i) == ds;
    WalkedMeaning(left, ds);
    assert WalkedFound(items[0], ds) == [Leaf(y)] && WalkedItems(items, 1, ds) == [];
    assert NewOnes(ds, 1) == [];
    InsertedByLibrary(x, y);
  }

  lemma InsertedByLibrary(x: Scalar, y: Scalar)
    ensures ApplyArray([Leaf(x)], [Added(Index(0), Leaf(y))]) == Some([Leaf(y), Leaf(x)])
  {
    var items, ds := [Leaf(x)], [Added(Index(0), Leaf(y))];
    assert ds[1..] == [] && PreOrder(ds[1..]) == [] && PreOrder(ds) == [];
    assert Carry(items, ds[1..]) == [] && Carry(items, ds) == ds;
    assert PostOrder(ds[1..]) == [] && PostOrder(ds) == InsertUp(ds[0], []);
    assert InsertUp(ds[0], []) == ds;
    assert PreArray(items, PreOrder(ds)) == Some(items);
    assert items[..0] + [Leaf(y)] + items[0..] == [Leaf(y), Leaf(x)];
    assert PostAt(items, ds) == Some([Leaf(y), Leaf(x)]);
    assert PostArray([Leaf(y), Leaf(x)], ds[1..]) == Some([Leaf(y), Leaf(x)]);
  }

  /** Two items that change places: the formatter refuses the Moved, and the first item is on
      neither side, although the deltas tell the truth. */
  lemma SwapLosesItem(x: Scalar, y: Scalar)
    ensures var left, ds := Array([Leaf(x), Leaf(y)]), [Moved(Index(0), Index(1), Leaf(y))];
      && Agrees(left, ds) && !Covers(left, ds)
      && ApplyDeltas(left, ds) == Array([Leaf(y), Leaf(x)])
      && (forall side :: Meaning(Printed(left, ds, side)) == Array([Leaf(y)]))
      && (forall side :: |Project(DiffEntries(left, ds), side)| == 3)
  {
    var items, d := [Leaf(x), Leaf(y)], Moved(Index(0), Index(1), Leaf(y));
    var left, ds := Array(items), [d];
    assert ds[1..] == [] && At(ds, 0) == ds && At(ds, 1) == [];
    assert AgreesAt(items[0], ds) && AgreesAt(items[1], []) && !CoversAt(items[0], ds);
    assert forall i :: 0 <= i < |items| ==> AgreesAt(items[i], At(ds, i));
    forall side ensures Printed(left, ds, side) == DocArray([DocLeaf(y)]) {
      SwapPrinted(items, ds, side);
    }
    assert Meaning(DocArray([DocLeaf(y)])) == Array([Leaf(y)]) by {
      OneMeaning(DocLeaf(y));
    }
    forall side ensures |Project(DiffEntries(left, ds), side)| == 3 {
      SideProjection(left, ds, side);
      BareAt(Project(DiffEntries(left, ds), side));
      BareAt(Print("", DocArray([DocLeaf(y)]), ChangeNil, true, 0, false));
      PrintLength("", DocArray([DocLeaf(y)]), ChangeNil, true, 0, false);
      assert ElementLines([DocLeaf(y)]) == 1 + ElementLines([DocLeaf(y)][1..]);
    }
    SwappedByLibrary(x, y);
  }

  lemma SwapPrinted(items: seq<Json>, ds: seq<Delta>, side: Side)
    requires |items| == 2 && items[1].Leaf? && |ds| == 1 && ds[0].Moved? && ds[0].at == Index(0)
    ensures Printed(Array(items), ds, side) == DocArray([DocLeaf(items[1].scalar)])
  {
    var left := Array(items);
    assert ds[1..] == [];
    assert Search(ds, Index(0)) == ds && Search(ds, Index(1)) == [];
    assert ItemDocs(items[0], ds, side) == [];
    assert KeptElements(left, 2, ds, side) == [];
    assert KeptElements(left, 1, ds, side) == [Order(items[1])];
    assert KeptElements(left, 0, ds, side) == [Order(items[1])];
    assert NewElements(ds[1..], 2, side) == [] && NewElements(ds, 2, side) == [];
  }

  lemma SwappedByLibrary(x: Scalar, y: Scalar)
    ensures ApplyArray([Leaf(x), Leaf(y)], [Moved(Index(0), Index(1), Leaf(y))]) == Some([Leaf(y), Leaf(x)])
  {
    var items, ds := [Leaf(x), Leaf(y)], [Moved(Index(0), Index(1), Leaf(y))];
    assert ds[1..] == [] && PreOrder(ds[1..]) == [] && PreOrder(ds) == [1];
    assert Carry(items, ds[1..]) == [] && Carry(items, ds) == ds;
    assert PostOrder(ds[1..]) == [] && PostOrder(ds) == InsertUp(ds[0], []);
    assert InsertUp(ds[0], []) == ds;
    var one := items[..1] + items[2..];
    assert one == [Leaf(x)];
    assert [1][1..] == [];
    assert PreArray(one, []) == Some(one) && PreArray(items, [1]) == Some(one);
    assert one[..0] + [Leaf(y)] + one[0..] == [Leaf(y), Leaf(x)];
    assert PostAt(one, ds) == Some([Leaf(y), Leaf(x)]);
    assert PostArray([Leaf(y), Leaf(x)], ds[1..]) == Some([Leaf(y), Leaf(x)]);
  }

  /** The document the right lines print is the left document with the deltas applied, and nowhere
      does applying them to an array index out of range. */
  lemma {:induction false} PatchedMeaning(v: Json, ds: seq<Delta>)
    requires Agreed(v, ds)
    ensures Meaning(Printed(v, ds, Right)) == ApplyDeltas(v, ds)
    ensures v.Array? ==> ApplyArray(v.items, ds).Some?
    decreases v, 0, |if v.Array? then v.items else []| + 3
  {
    match v
    case Object(_) => ObjectMeaning(v, ds);
    case Array(_) => ArrayMeaning(v, ds);
    case Leaf(_) =>
  }
}
