/** The positions of the deltas of an array, and when the formatter and the diff library read them
    alike. The formatter takes them as indexes into the old array, the library as indexes into the
    array as it is by then. */
module DiffPlaces {
  import opened DiffLines

  // ---------- the deltas at one index

  function Posts(ds: seq<Delta>): seq<Delta> {
    if ds == [] then [] else (if ds[0].Deleted? then [] else [ds[0]]) + Posts(ds[1..])
  }

  predicate Removes(d: Delta, i: int) {
    (d.Deleted? && d.at == Index(i)) || (d.Moved? && d.from == Index(i))
  }

  function Removers(ds: seq<Delta>, i: int): seq<Delta> {
    if ds == [] then [] else (if Removes(ds[0], i) then [ds[0]] else []) + Removers(ds[1..], i)
  }

  function At(ds: seq<Delta>, i: int): seq<Delta> {
    Search(ds, Index(i))
  }

  /** The library takes the item at index i out, by a Deleted or a Moved. */
  predicate Gone(ds: seq<Delta>, i: int) {
    Removers(ds, i) != []
  }

  predicate Leaves(ds: seq<Delta>, i: int) {
    exists d :: d in ds && d.Moved? && d.from == Index(i)
  }

  predicate Placed(ds: seq<Delta>, i: int) {
    Posts(At(ds, i)) != []
  }

  predicate IsAdded(ds: seq<Delta>, i: int) {
    Placed(ds, i) && Posts(At(ds, i))[0].Added?
  }

  predicate IsMoved(ds: seq<Delta>, i: int) {
    Placed(ds, i) && Posts(At(ds, i))[0].Moved?
  }

  predicate IsNested(ds: seq<Delta>, i: int) {
    Placed(ds, i) && (Posts(At(ds, i))[0].ObjectDelta? || Posts(At(ds, i))[0].ArrayDelta?)
  }

  predicate Untouched(ds: seq<Delta>, i: int) {
    At(ds, i) == []
  }

  /** The formatter prints nothing for the new array at index i: an item is only deleted there, or
      the delta is a Moved, which it refuses. */
  predicate Silent(ds: seq<Delta>, i: int) {
    !Untouched(ds, i) && (!Placed(ds, i) || IsMoved(ds, i))
  }

  /** Every index is taken out of the old array at most once, and is a place in the new one at most
      once. */
  ghost predicate Separate(ds: seq<Delta>) {
    && (forall d :: d in ds ==> d.at.Index? && d.at.index >= 0)
    && (forall d :: d in ds && d.Moved? ==> d.from.Index? && d.from.index >= 0)
    && (forall i: int :: AtMostOne(ds, i))
  }

  predicate AtMostOne(ds: seq<Delta>, i: int) {
    |Posts(At(ds, i))| <= 1 && |Removers(ds, i)| <= 1
  }

  // ---------- the condition

  /** By how much what was put in before index i exceeds the removals there whose place something
      else has taken. */
  function Debt(ds: seq<Delta>, i: nat): int {
    if i == 0 then 0
    else
      Debt(ds, i - 1)
      + (if IsAdded(ds, i - 1) || IsMoved(ds, i - 1) then 1 else 0)
      - (if Gone(ds, i - 1) && Placed(ds, i - 1) then 1 else 0)
  }

  /** How many of the old items from index i on are not taken out. */
  function Staying(ds: seq<Delta>, i: nat, n: nat): nat
    requires i <= n
    decreases n - i
  {
    if i == n then 0 else (if Gone(ds, i) then 0 else 1) + Staying(ds, i + 1, n)
  }

  /** How many old items the library has yet to place when the formatter is at index i. */
  function Rest(ds: seq<Delta>, i: nat, n: nat): int
    requires i <= n
  {
    Staying(ds, i, n) + Debt(ds, i)
  }

  /** How far the new array has come when the formatter is at index i. */
  function Place(ds: seq<Delta>, i: nat): int {
    if i == 0 then 0 else Place(ds, i - 1) + if Silent(ds, i - 1) then 0 else 1
  }

  /** The positions on which both readings agree, for an old array of length n: what is deleted or
      changed is there; an item is untouched, or changed inside, only where additions and replaced
      removals before it balance, and so they do in the end; after an index where the formatter is
      silent something is added only once no old item is left to place, and nothing is changed; what
      is moved is untouched where it was and moves to where the new array has come to when the
      formatter prints it, with nothing added on its way; and what is added past the end is listed
      in order. */
  ghost predicate InStep(ds: seq<Delta>, n: nat) {
    && Separate(ds)
    && (forall d :: d in ds && !d.Added? ==> InReach(ds, d, n))
    && (forall i: nat :: Balanced(ds, n, i))
    && Debt(ds, n) == 0
    && (forall i: nat, j: nat :: Undisturbed(ds, n, i, j))
    && (forall d, j: nat :: d in ds ==> Unspanned(ds, d, j))
    && Climbs(NewOnes(ds, n), n)
  }

  predicate InReach(ds: seq<Delta>, d: Delta, n: nat) {
    if d.Moved? then
      && d.at.Index? && d.from.Index? && 0 <= d.from.index < n
      && Untouched(ds, d.from.index) && Place(ds, d.from.index) == d.at.index
    else d.at.Index? && d.at.index < n
  }

  predicate Balanced(ds: seq<Delta>, n: nat, i: nat) {
    i < n && ((Untouched(ds, i) && !Leaves(ds, i)) || IsNested(ds, i)) ==> Debt(ds, i) == 0 && !Gone(ds, i)
  }

  predicate Undisturbed(ds: seq<Delta>, n: nat, i: nat, j: nat) {
    i < j < n && Silent(ds, i) && Placed(ds, j) && !IsMoved(ds, j) ==> Rest(ds, j, n) == 0
  }

  predicate Unspanned(ds: seq<Delta>, d: Delta, j: nat) {
    d.Moved? && d.at.Index? && d.from.Index? && d.at.index < j < d.from.index ==> !Placed(ds, j) || IsMoved(ds, j)
  }

  /** Indexes strictly increase, from i on. */
  predicate Climbs(s: seq<Delta>, i: int) {
    && (forall d :: d in s ==> d.at.Index?)
    && (forall k :: 0 <= k < |s| ==> s[k].at.index >= i + k)
    && (forall k, l :: 0 <= k < l < |s| ==> s[k].at.index < s[l].at.index)
  }

  /** The Added deltas the walk over the old array does not meet. */
  function NewOnes(ds: seq<Delta>, n: nat): seq<Delta> {
    if ds == [] then []
    else (if ds[0].Added? && !AlreadyMet(ds[0].at, true, n) then [ds[0]] else []) + NewOnes(ds[1..], n)
  }

  lemma {:induction false} NewOnesAre(ds: seq<Delta>, n: nat)
    ensures forall d :: d in NewOnes(ds, n) <==> d in ds && d.Added? && !AlreadyMet(d.at, true, n)
  {
    if ds != [] {
      NewOnesAre(ds[1..], n);
      assert ds == [ds[0]] + ds[1..];
    }
  }

  // ---------- what is at an index

  lemma {:induction false} PostsAre(ds: seq<Delta>)
    ensures forall d :: d in Posts(ds) <==> d in ds && !d.Deleted?
  {
    if ds != [] {
      PostsAre(ds[1..]);
      assert ds == [ds[0]] + ds[1..];
    }
  }

  lemma {:induction false} RemoversAre(ds: seq<Delta>, i: int)
    ensures forall d :: d in Removers(ds, i) <==> d in ds && Removes(d, i)
  {
    if ds != [] {
      RemoversAre(ds[1..], i);
      assert ds == [ds[0]] + ds[1..];
    }
  }

  lemma PlacedIff(ds: seq<Delta>, i: int)
    ensures Placed(ds, i) <==> exists d :: d in ds && !d.Deleted? && d.at == Index(i)
    ensures Placed(ds, i) ==> var d := Posts(At(ds, i))[0]; d in ds && !d.Deleted? && d.at == Index(i)
    ensures AtMostOne(ds, i) && Placed(ds, i) ==>
      forall d :: d in ds && !d.Deleted? && d.at == Index(i) ==> d == Posts(At(ds, i))[0]
  {
    var posts := Posts(At(ds, i));
    SearchFinds(ds, Index(i));
    PostsAre(At(ds, i));
    assert forall d :: d in posts <==> d in ds && !d.Deleted? && d.at == Index(i);
    hide Posts, Search, At;
    if posts != [] { assert posts[0] in posts; }
    assert |posts| <= 1 ==> forall d :: d in posts ==> d == posts[0];
  }

  lemma GoneIff(ds: seq<Delta>, i: int)
    ensures Gone(ds, i) <==> exists d :: d in ds && Removes(d, i)
    ensures AtMostOne(ds, i) ==> forall d, e :: d in ds && e in ds && Removes(d, i) && Removes(e, i) ==> d == e
    ensures Leaves(ds, i) ==> Gone(ds, i)
  {
    var found := Removers(ds, i);
    RemoversAre(ds, i);
    if Gone(ds, i) { assert found[0] in found; }
    forall d | d in ds && Removes(d, i) ensures d in found {
    }
    if d :| d in ds && d.Moved? && d.from == Index(i) { assert Removes(d, i); }
  }

  lemma UntouchedIff(ds: seq<Delta>, i: int)
    ensures Untouched(ds, i) <==> forall d :: d in ds ==> d.at != Index(i)
    ensures Untouched(ds, i) ==> !Placed(ds, i) && (Gone(ds, i) ==> Leaves(ds, i))
    ensures !Untouched(ds, i) && !Placed(ds, i) ==> Gone(ds, i)
  {
    var found := At(ds, i);
    SearchFinds(ds, Index(i));
    PostsAre(found);
    GoneIff(ds, i);
    if found != [] {
      assert found[0] in found;
      if !Placed(ds, i) { assert Removes(found[0], i); }
    }
    if Untouched(ds, i) && Gone(ds, i) {
      var d :| d in ds && Removes(d, i);
    }
  }

  lemma RestStep(ds: seq<Delta>, i: nat, n: nat)
    requires i < n
    ensures Rest(ds, i, n) == Rest(ds, i + 1, n) +
      if (Untouched(ds, i) && !Leaves(ds, i)) || (Placed(ds, i) && !IsAdded(ds, i) && !IsMoved(ds, i)) then 1 else 0
  {
    UntouchedIff(ds, i);
    GoneIff(ds, i);
  }

  lemma RestBounds(ds: seq<Delta>, i: nat, n: nat)
    requires i <= n && Debt(ds, n) == 0
    ensures 0 <= Rest(ds, i, n) <= Staying(ds, 0, n)
  {
    RestAbove(ds, i, n);
    RestBelow(ds, i, n);
  }

  lemma {:induction false} RestAbove(ds: seq<Delta>, i: nat, n: nat)
    requires i <= n && Debt(ds, n) == 0
    ensures 0 <= Rest(ds, i, n)
    decreases n - i
  {
    if i < n {
      RestAbove(ds, i + 1, n);
      RestStep(ds, i, n);
    }
  }

  lemma {:induction false} RestBelow(ds: seq<Delta>, i: nat, n: nat)
    requires i <= n
    ensures Rest(ds, i, n) <= Staying(ds, 0, n)
  {
    if i > 0 {
      RestBelow(ds, i - 1, n);
      RestStep(ds, i - 1, n);
    }
  }

  lemma RestIs(ds: seq<Delta>, i: nat, n: nat)
    requires i <= n
    ensures Rest(ds, i, n) == Staying(ds, i, n) + Debt(ds, i)
    ensures Rest(ds, n, n) == Debt(ds, n)
  {
  }

  lemma {:induction false} PlaceLags(ds: seq<Delta>, i: nat)
    ensures Place(ds, i) <= i
    ensures Place(ds, i) < i <==> exists k: nat :: k < i && Silent(ds, k)
  {
    if i > 0 {
      PlaceLags(ds, i - 1);
    }
  }

  /** The place moves on wherever the formatter prints. */
  lemma {:induction false} PlaceGrows(ds: seq<Delta>, i: nat, j: nat)
    requires i <= j
    ensures Place(ds, i) <= Place(ds, j)
    ensures i < j && !Silent(ds, i) ==> Place(ds, i) < Place(ds, j)
    decreases j
  {
    if i < j {
      PlaceGrows(ds, i, j - 1);
    }
  }

  // ---------- the condition for truthful deltas

  /** What is put in among the old items takes the place of something taken out; after an index
      where the formatter is silent nothing is added or changed, unless all that comes after it goes
      too; and moves and additions past the end are as when in step. */
  ghost predicate InPlace(ds: seq<Delta>, n: nat) {
    && (forall i: nat :: i < n && PutIn(ds, i) ==> Gone(ds, i))
    && (forall i: nat, j: nat :: Unreached(ds, n, i, j))
    && (forall d :: d in ds && d.Moved? ==> InReach(ds, d, n))
    && (forall d, j: nat :: d in ds ==> Unspanned(ds, d, j))
    && Climbs(NewOnes(ds, n), n)
  }

  predicate PutIn(ds: seq<Delta>, i: int) {
    IsAdded(ds, i) || IsMoved(ds, i)
  }

  predicate Unreached(ds: seq<Delta>, n: nat, i: nat, j: nat) {
    i < j < n && Silent(ds, i) && Placed(ds, j) && !IsMoved(ds, j) ==> Staying(ds, j, n) == 0
  }

  /** No old item is both taken out and changed. */
  ghost predicate Truthful(ds: seq<Delta>, n: nat) {
    forall i: nat :: i < n && Gone(ds, i) && Placed(ds, i) ==> PutIn(ds, i)
  }

  lemma {:induction false} DebtGrows(ds: seq<Delta>, i: nat, n: nat)
    requires i <= n && Truthful(ds, n)
    ensures 0 <= Debt(ds, i) <= Debt(ds, n)
    ensures Debt(ds, n) == 0 ==> forall k: nat :: i <= k < n && PutIn(ds, k) ==> Gone(ds, k)
    decreases n - i
  {
    hide Gone, Placed, IsAdded, IsMoved;
    NoDebt(ds, i, n);
    if i < n {
      DebtGrows(ds, i + 1, n);
      DebtStep(ds, i, n);
    }
  }

  lemma DebtStep(ds: seq<Delta>, i: nat, n: nat)
    requires i < n && Truthful(ds, n)
    ensures Debt(ds, i + 1) == Debt(ds, i) + if PutIn(ds, i) && !Gone(ds, i) then 1 else 0
  {
  }

  lemma {:induction false} NoDebt(ds: seq<Delta>, i: nat, n: nat)
    requires i <= n && Truthful(ds, n)
    ensures 0 <= Debt(ds, i)
    ensures (forall k: nat :: k < i && PutIn(ds, k) ==> Gone(ds, k)) ==> Debt(ds, i) == 0
  {
    if i > 0 {
      NoDebt(ds, i - 1, n);
      DebtStep(ds, i - 1, n);
    }
  }

  /** When no old item is both taken out and changed, as in deltas that tell the truth about the old
      array, positions are in step exactly when they are in place. */
  lemma InStepTruthful(ds: seq<Delta>, n: nat)
    requires Separate(ds) && Truthful(ds, n)
    requires forall d :: d in ds && !d.Added? && !d.Moved? ==> d.at.index < n
    ensures InStep(ds, n) <==> InPlace(ds, n)
  {
    hide Climbs, NewOnes, Separate, Unspanned, InReach, Debt;
    if InStep(ds, n) || InPlace(ds, n) {
      NoDebt(ds, n, n);
      DebtGrows(ds, 0, n);
      forall i: nat | i <= n ensures Debt(ds, i) == 0 {
        DebtGrows(ds, i, n);
      }
      NoDebts(ds, n);
      InReachUnmoved(ds, n);
    }
  }

  lemma InReachUnmoved(ds: seq<Delta>, n: nat)
    requires Separate(ds) && forall d :: d in ds && !d.Added? && !d.Moved? ==> d.at.index < n
    ensures forall d :: d in ds && !d.Added? && !d.Moved? ==> InReach(ds, d, n)
  {
  }

  lemma NoDebts(ds: seq<Delta>, n: nat)
    requires Truthful(ds, n) && forall i: nat :: i <= n ==> Debt(ds, i) == 0
    ensures forall i: nat :: Balanced(ds, n, i)
    ensures (forall i: nat, j: nat :: Undisturbed(ds, n, i, j)) <==> forall i: nat, j: nat :: Unreached(ds, n, i, j)
  {
    hide Debt, Staying;
    forall i: nat ensures Balanced(ds, n, i) {
      UntouchedIff(ds, i);
    }
    forall i: nat, j: nat ensures Undisturbed(ds, n, i, j) <==> Unreached(ds, n, i, j) {
    }
  }

  // ---------- the condition is about positions only

  /** The same kinds of deltas at the same positions, with any values, and the same deltas
      inside. */
  predicate SamePlaces(ds: seq<Delta>, es: seq<Delta>) {
    |ds| == |es| && forall k :: 0 <= k < |ds| ==> SamePlace(ds[k], es[k])
  }

  predicate SamePlace(d: Delta, e: Delta) {
    && d.at == e.at
    && (d.ObjectDelta? <==> e.ObjectDelta?) && (d.ArrayDelta? <==> e.ArrayDelta?)
    && (d.Added? <==> e.Added?) && (d.Modified? <==> e.Modified?) && (d.TextDiff? <==> e.TextDiff?)
    && (d.Deleted? <==> e.Deleted?) && (d.Moved? <==> e.Moved?)
    && (d.Moved? && e.Moved? ==> d.from == e.from)
    && (d.ObjectDelta? && e.ObjectDelta? ==> d.deltas == e.deltas)
    && (d.ArrayDelta? && e.ArrayDelta? ==> d.deltas == e.deltas)
  }

  lemma SamePlacesTail(ds: seq<Delta>, es: seq<Delta>)
    requires SamePlaces(ds, es)
    ensures |ds| == |es| && (ds != [] ==> SamePlace(ds[0], es[0]) && SamePlaces(ds[1..], es[1..]))
  {
  }

  lemma SamePlacesCons(d: Delta, e: Delta, ds: seq<Delta>, es: seq<Delta>)
    requires SamePlace(d, e) && SamePlaces(ds, es)
    ensures SamePlaces([d] + ds, [e] + es)
  {
  }

  lemma SamePlacesNone()
    ensures SamePlaces([], [])
  {
  }

  lemma {:induction false} SamePlacesSearch(ds: seq<Delta>, es: seq<Delta>, at: Position)
    requires SamePlaces(ds, es)
    ensures SamePlaces(Search(ds, at), Search(es, at))
  {
    SamePlacesTail(ds, es);
    SamePlacesNone();
    hide SamePlaces;
    if ds != [] {
      SamePlacesSearch(ds[1..], es[1..], at);
      SamePlacesCons(ds[0], es[0], Search(ds[1..], at), Search(es[1..], at));
    }
  }

  lemma {:induction false} SamePlacesPosts(ds: seq<Delta>, es: seq<Delta>)
    requires SamePlaces(ds, es)
    ensures SamePlaces(Posts(ds), Posts(es))
  {
    SamePlacesTail(ds, es);
    SamePlacesNone();
    hide SamePlaces;
    if ds != [] {
      SamePlacesPosts(ds[1..], es[1..]);
      SamePlacesCons(ds[0], es[0], Posts(ds[1..]), Posts(es[1..]));
      Nothing(Posts(ds[1..]), Posts(es[1..]));
    }
  }

  lemma Nothing<T>(a: seq<T>, b: seq<T>)
    ensures [] + a == a && [] + b == b
  {
  }

  lemma {:induction false} SamePlacesNew(ds: seq<Delta>, es: seq<Delta>, n: nat)
    requires SamePlaces(ds, es)
    ensures SamePlaces(NewOnes(ds, n), NewOnes(es, n))
  {
    SamePlacesTail(ds, es);
    SamePlacesNone();
    hide SamePlaces;
    if ds != [] {
      SamePlacesNew(ds[1..], es[1..], n);
      SamePlacesCons(ds[0], es[0], NewOnes(ds[1..], n), NewOnes(es[1..], n));
      Nothing(NewOnes(ds[1..], n), NewOnes(es[1..], n));
    }
  }

  lemma {:induction false} SamePlacesRemovers(ds: seq<Delta>, es: seq<Delta>, i: int)
    requires SamePlaces(ds, es)
    ensures SamePlaces(Removers(ds, i), Removers(es, i))
  {
    SamePlacesTail(ds, es);
    SamePlacesNone();
    hide SamePlaces;
    if ds != [] {
      SamePlacesRemovers(ds[1..], es[1..], i);
      SamePlacesCons(ds[0], es[0], Removers(ds[1..], i), Removers(es[1..], i));
      Nothing(Removers(ds[1..], i), Removers(es[1..], i));
    }
  }

  lemma SameAt(ds: seq<Delta>, es: seq<Delta>, i: int)
    requires SamePlaces(ds, es)
    ensures |Posts(At(ds, i))| == |Posts(At(es, i))| && |Removers(ds, i)| == |Removers(es, i)|
    ensures (Gone(ds, i) <==> Gone(es, i)) && (Placed(ds, i) <==> Placed(es, i))
    ensures (Untouched(ds, i) <==> Untouched(es, i)) && (Silent(ds, i) <==> Silent(es, i))
    ensures (IsAdded(ds, i) <==> IsAdded(es, i)) && (IsNested(ds, i) <==> IsNested(es, i))
    ensures (IsMoved(ds, i) <==> IsMoved(es, i))
  {
    SamePlacesSearch(ds, es, Index(i));
    SamePlacesPosts(At(ds, i), At(es, i));
    SamePlacesRemovers(ds, es, i);
    if Placed(ds, i) {
      assert SamePlace(Posts(At(ds, i))[0], Posts(At(es, i))[0]);
    }
  }

  lemma SameLeaves(ds: seq<Delta>, es: seq<Delta>, i: int)
    requires SamePlaces(ds, es) && Leaves(ds, i)
    ensures Leaves(es, i)
  {
    var d :| d in ds && d.Moved? && d.from == Index(i);
    var k :| 0 <= k < |ds| && ds[k] == d;
    assert SamePlace(ds[k], es[k]) && es[k] in es;
  }

  lemma SamePlacesSymmetric(ds: seq<Delta>, es: seq<Delta>)
    requires SamePlaces(ds, es)
    ensures SamePlaces(es, ds)
  {
    assert forall k :: 0 <= k < |ds| ==> SamePlace(ds[k], es[k]);
  }

  /** The delta at the same place of the other list. */
  lemma Twin(ds: seq<Delta>, es: seq<Delta>, e: Delta) returns (d: Delta)
    requires SamePlaces(ds, es) && e in es
    ensures d in ds && SamePlace(d, e)
  {
    var k :| 0 <= k < |es| && es[k] == e;
    d := ds[k];
    assert SamePlace(ds[k], es[k]);
  }

  lemma {:induction false} SameDebt(ds: seq<Delta>, es: seq<Delta>, i: nat)
    requires SamePlaces(ds, es)
    ensures Debt(ds, i) == Debt(es, i) && Place(ds, i) == Place(es, i)
  {
    if i > 0 {
      SameDebt(ds, es, i - 1);
      SameAt(ds, es, i - 1);
    }
  }

  lemma {:induction false} SameStaying(ds: seq<Delta>, es: seq<Delta>, i: nat, n: nat)
    requires SamePlaces(ds, es) && i <= n
    ensures Staying(ds, i, n) == Staying(es, i, n)
    decreases n - i
  {
    if i < n {
      SameStaying(ds, es, i + 1, n);
      SameAt(ds, es, i);
    }
  }

  lemma SameRest(ds: seq<Delta>, es: seq<Delta>, i: nat, n: nat)
    requires SamePlaces(ds, es) && i <= n
    ensures Rest(ds, i, n) == Rest(es, i, n)
  {
    SameDebt(ds, es, i);
    SameStaying(ds, es, i, n);
  }

  lemma SameSeparate(ds: seq<Delta>, es: seq<Delta>)
    requires SamePlaces(ds, es) && Separate(ds)
    ensures Separate(es)
  {
    forall e | e in es ensures e.at.Index? && e.at.index >= 0 && (e.Moved? ==> e.from.Index? && e.from.index >= 0) {
      var d := Twin(ds, es, e);
    }
    forall i: int ensures AtMostOne(es, i) {
      assert AtMostOne(ds, i);
      SameAt(ds, es, i);
    }
  }

  lemma SameClimbs(s: seq<Delta>, r: seq<Delta>, i: int)
    requires SamePlaces(s, r) && Climbs(s, i)
    ensures Climbs(r, i)
  {
    forall d | d in r ensures d.at.Index? {
      var k :| 0 <= k < |r| && r[k] == d;
      assert SamePlace(s[k], r[k]);
    }
    assert forall k :: 0 <= k < |r| ==> SamePlace(s[k], r[k]) && r[k].at == s[k].at;
  }

  lemma InStepSame(ds: seq<Delta>, es: seq<Delta>, n: nat)
    requires SamePlaces(ds, es) && InStep(ds, n)
    ensures InStep(es, n)
  {
    SameSeparate(ds, es);
    SamePlacesNew(ds, es, n);
    SameClimbs(NewOnes(ds, n), NewOnes(es, n), n);
    SameDebt(ds, es, n);
    hide Separate, SamePlaces, NewOnes, Climbs, Debt, Place, Rest, Untouched, Silent;
    forall e | e in es && !e.Added? ensures InReach(es, e, n) {
      var d := Twin(ds, es, e);
      if d.Moved? {
        SameAt(ds, es, d.from.index);
        SameDebt(ds, es, d.from.index);
      }
    }
    forall i: nat ensures Balanced(es, n, i) {
      assert Balanced(ds, n, i);
      SameAt(ds, es, i);
      SameDebt(ds, es, i);
      if Leaves(ds, i) { SameLeaves(ds, es, i); }
    }
    forall i: nat, j: nat ensures Undisturbed(es, n, i, j) {
      assert Undisturbed(ds, n, i, j);
      if i < j < n {
        SameAt(ds, es, i);
        SameAt(ds, es, j);
        SameRest(ds, es, j, n);
      }
    }
    forall e, j: nat | e in es ensures Unspanned(es, e, j) {
      var d := Twin(ds, es, e);
      assert Unspanned(ds, d, j);
      SameAt(ds, es, j);
    }
  }
}
