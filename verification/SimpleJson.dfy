/** Nested maps updated in place along a path. Maps are shared by reference, as in the original;
    values other than maps are opaque. */
module SimpleJson {

  datatype Value = Nil | Leaf(value: int) | Map(obj: MapObject)

  type Path = seq<string>

  class MapObject {
    var m: map<string, Value>

    constructor ()
      ensures m == map[]
    {
      m := map[];
    }
  }

  function Child(v: Value, key: string): Value
    reads if v.Map? then {v.obj} else {}
  {
    if v.Map? && key in v.obj.m then v.obj.m[key] else Nil
  }

  /** What a path leads to: nil where it leaves the maps. */
  ghost function At(data: Value, path: Path): Value
    reads *
  {
    if path == [] then data else Child(At(data, path[..|path| - 1]), path[|path| - 1])
  }

  /** No map is reached by two paths: no sharing and no cycle. */
  ghost predicate TreeShaped(data: Value)
    reads *
  {
    forall p, q :: At(data, p).Map? && At(data, p) == At(data, q) ==> p == q
  }

  /** No map of the other value is a map of the data, except perhaps beyond the path. */
  ghost predicate Separate(data: Value, branch: Path, other: Value)
    reads *
  {
    forall p, q :: !(branch <= p) && At(data, p).Map? ==> At(data, p) != At(other, q)
  }

  /** The maps a write along a path may change. */
  ghost function OnPath(data: Value, path: Path): set<MapObject>
    reads *
  {
    set i | 0 <= i < |path| && At(data, path[..i]).Map? :: At(data, path[..i]).obj
  }

  /** The only change to the maps of a tree is to one key of the map at path d. */
  twostate predicate OnlyPut(data: Value, new d: Path, new k: string)
    reads *
  {
    && old(At(data, d)).Map?
    && (forall p :: old(At(data, p)) == old(At(data, d)) ==> p == d)
    && (forall p :: old(At(data, p)).Map? && p != d ==> old(At(data, p)).obj.m == old(At(data, p).obj.m))
    && (forall key :: key != k ==> Child(old(At(data, d)), key) == old(Child(At(data, d), key)))
  }

  twostate lemma PutStep(data: Value, new d: Path, new k: string, new q: Path)
    requires OnlyPut(data, d, k)
    requires q != [] && q != d + [k]
    requires At(data, q[..|q| - 1]) == old(At(data, q[..|q| - 1]))
    ensures At(data, q) == old(At(data, q))
  {
    var front, last := q[..|q| - 1], q[|q| - 1];
    assert q == front + [last];
    assert old(At(data, q)) == old(Child(At(data, front), last));
    assert At(data, q) == Child(old(At(data, front)), last);
  }

  twostate lemma {:induction false} PutEffect(data: Value, new d: Path, new k: string, new q: Path)
    requires OnlyPut(data, d, k)
    requires !(d + [k] <= q)
    ensures At(data, q) == old(At(data, q))
    decreases |q|
  {
    if q != [] {
      hide OnlyPut;
      var front := q[..|q| - 1];
      assert front <= q;
      PutEffect(data, d, k, front);
      PutStep(data, d, k, q);
    }
  }

  /** Nothing lies under a value that has no keys. */
  lemma {:induction false} NothingUnder(data: Value, p: Path, q: Path)
    requires p <= q && p != q && (At(data, p).Map? ==> At(data, p).obj.m == map[])
    ensures At(data, q) == Nil
    decreases |q|
  {
    var front := q[..|q| - 1];
    if front != p {
      assert p <= front;
      NothingUnder(data, p, front);
    }
  }

  lemma NothingInNil(r: Path)
    ensures At(Nil, r) == Nil
  {
    if r != [] {
      NothingUnder(Nil, [], r);
    }
  }

  lemma {:induction false} AtConcat(data: Value, p: Path, r: Path)
    ensures At(data, p + r) == At(At(data, p), r)
    decreases |r|
  {
    if r == [] {
      assert p + r == p;
    } else {
      assert (p + r)[..|p + r| - 1] == p + r[..|r| - 1];
      AtConcat(data, p, r[..|r| - 1]);
    }
  }

  /** When one map of a tree changes, and at one key only. */
  twostate lemma OnlyPutAt(data: Value, new d: Path, new k: string, new curr: MapObject)
    requires old(TreeShaped(data)) && old(At(data, d)) == Map(curr)
    requires forall p :: old(At(data, p)).Map? && old(At(data, p)).obj != curr ==>
      old(At(data, p)).obj.m == old(At(data, p).obj.m)
    requires forall key :: key != k ==> Child(Map(curr), key) == old(Child(At(data, d), key))
    ensures OnlyPut(data, d, k)
  {
    hide At;
    forall p | old(At(data, p)).Map? && p != d ensures old(At(data, p)) != old(At(data, d)) {
    }
    forall p | old(At(data, p)).Map? && p != d ensures old(At(data, p)).obj.m == old(At(data, p).obj.m) {
      assert old(At(data, p)).obj != curr;
    }
  }

  twostate lemma GrowEffect(data: Value, new d: Path, new k: string, new n: MapObject)
    requires OnlyPut(data, d, k) && old(TreeShaped(data))
    requires !old(At(data, d + [k])).Map? && Child(old(At(data, d)), k) == Map(n)
    requires !old(allocated(n)) && n.m == map[]
    requires forall q :: d + [k] <= q && q != d + [k] ==> old(At(data, q)) == Nil
    ensures At(data, d + [k]) == Map(n) && TreeShaped(data)
    ensures forall q :: q != d + [k] ==> At(data, q) == old(At(data, q))
  {
    var p := d + [k];
    assert p[..|p| - 1] == d;
    PutEffect(data, d, k, d);
    assert At(data, p) == Map(n);
    forall q | q != p ensures At(data, q) == old(At(data, q)) {
      if p <= q {
        NothingUnder(data, p, q);
      } else {
        PutEffect(data, d, k, q);
      }
    }
    hide OnlyPut;
    forall q, r | At(data, q).Map? && At(data, q) == At(data, r) ensures q == r {
      assert old(At(data, q)) != Map(n) && old(At(data, r)) != Map(n);
    }
  }

  twostate lemma WriteEffect(data: Value, new d: Path, new k: string, new val: Value)
    requires OnlyPut(data, d, k) && Child(old(At(data, d)), k) == val
    ensures forall r :: At(data, d + [k] + r) == At(val, r)
    ensures forall q :: !(d + [k] <= q) ==> At(data, q) == old(At(data, q))
  {
    var p := d + [k];
    assert p[..|p| - 1] == d;
    PutEffect(data, d, k, d);
    assert At(data, p) == val;
    forall r ensures At(data, d + [k] + r) == At(val, r) {
      AtConcat(data, p, r);
    }
    forall q | !(p <= q) ensures At(data, q) == old(At(data, q)) {
      PutEffect(data, d, k, q);
    }
  }

  /** A tree none of whose maps has changed. */
  twostate lemma {:induction false} Unmoved(val: Value, new r: Path)
    requires forall p :: old(At(val, p)).Map? ==> old(At(val, p)).obj.m == old(At(val, p).obj.m)
    ensures At(val, r) == old(At(val, r))
    decreases |r|
  {
    if r != [] {
      var front, last := r[..|r| - 1], r[|r| - 1];
      Unmoved(val, front);
      assert old(At(val, r)) == old(Child(At(val, front), last));
      assert At(val, r) == Child(old(At(val, front)), last);
    }
  }

  predicate OnTheWay(was: Value, now: Value, made: set<MapObject>) {
    now.Map? && if was.Map? then now == was else now.obj in made
  }

  /** A tree and a value to be put into it. */
  datatype Graft = Graft(data: Value, val: Value)

  twostate lemma StaysSeparate(g: Graft, new data: Value, new branch: Path)
    requires old(Separate(g.data, branch, g.val)) && forall r :: At(g.val, r) == old(At(g.val, r))
    requires forall q :: !(q <= branch) && !(branch <= q) ==> At(data, q) == old(At(g.data, q))
    requires forall p :: p <= branch && p != branch ==> Stays(old(At(g.data, p)), At(data, p))
    ensures Separate(data, branch, g.val)
  {
    forall p, q | !(branch <= p) && At(data, p).Map? ensures At(data, p) != At(g.val, q) {
      assert At(g.val, q) == old(At(g.val, q));
    }
  }

  /** A write that follows a path leaves a separate tree alone, and separate. */
  twostate lemma StaysBeside(g: Graft, new data: Value, new branch: Path)
    requires old(Separate(g.data, branch, g.val))
    requires forall p :: old(At(g.val, p)).Map? && old(At(g.val, p)).obj !in old(OnPath(g.data, branch)) ==>
      old(At(g.val, p)).obj.m == old(At(g.val, p).obj.m)
    requires forall q :: !(q <= branch) && !(branch <= q) ==> At(data, q) == old(At(g.data, q))
    requires forall j :: 0 <= j < |branch| ==> Stays(old(At(g.data, branch[..j])), At(data, branch[..j]))
    ensures Separate(data, branch, g.val) && forall r :: At(g.val, r) == old(At(g.val, r))
  {
    OffPathBefore(g, branch);
    hide Separate, TreeShaped, OnPath, At, Stays;
    forall r ensures At(g.val, r) == old(At(g.val, r)) {
      Unmoved(g.val, r);
    }
    forall p | p <= branch && p != branch ensures Stays(old(At(g.data, p)), At(data, p)) {
      assert p == branch[..|p|];
    }
    StaysSeparate(g, data, branch);
  }

  twostate lemma OffPathBefore(g: Graft, new branch: Path)
    requires old(Separate(g.data, branch, g.val))
    ensures forall p :: old(At(g.val, p)).Map? ==> old(At(g.val, p)).obj !in old(OnPath(g.data, branch))
  {
    forall i, p | 0 <= i < |branch| && old(At(g.data, branch[..i])).Map? && old(At(g.val, p)).Map?
      ensures old(At(g.data, branch[..i])) != old(At(g.val, p))
    {
      assert !(branch <= branch[..i]);
    }
  }

  /** A separate tree grafted in place of a subtree leaves a tree. */
  twostate lemma Grafted(g: Graft, new branch: Path)
    requires old(TreeShaped(g.data) && TreeShaped(g.val) && Separate(g.data, branch, g.val))
    requires forall r :: At(g.val, r) == old(At(g.val, r))
    requires forall q :: !(branch <= q) ==> At(g.data, q) == old(At(g.data, q))
    requires forall r :: At(g.data, branch + r) == At(g.val, r)
    ensures TreeShaped(g.data)
  {
    forall p, q | At(g.data, p).Map? && At(g.data, p) == At(g.data, q) ensures p == q {
      if branch <= p {
        assert p == branch + p[|branch|..];
        assert At(g.data, p) == old(At(g.val, p[|branch|..]));
      }
      if branch <= q {
        assert q == branch + q[|branch|..];
        assert At(g.data, q) == old(At(g.val, q[|branch|..]));
      }
    }
  }

  /** On the way of a write: a map stays the same map, anything else becomes a new one. */
  twostate predicate Stays(was: Value, new now: Value) {
    now.Map? && if was.Map? then now == was else fresh(now.obj)
  }

  class Json {
    var data: Value

    constructor (data: Value)
      ensures this.data == data
    {
      this.data := data;
    }

    /** Get never fails: what is not there is nil. */
    method Get(key: string) returns (j: Json)
      ensures fresh(j) && j.data == Child(data, key)
    {
      if data.Map? {
        if key in data.obj.m {
          j := new Json(data.obj.m[key]);
          return;
        }
      }
      j := new Json(Nil);
    }

    method GetPath(branch: Path) returns (jin: Json)
      ensures jin.data == At(data, branch)
    {
      jin := this;
      for i := 0 to |branch|
        invariant jin.data == At(data, branch[..i])
      {
        assert branch[..i + 1][..i] == branch[..i];
        jin := jin.Get(branch[i]);
      }
      assert branch[..|branch|] == branch;
    }

    /** Set and Del do nothing to what is not a map. In a tree, only paths through the key lead
        elsewhere afterwards: to the value and what it holds, or nowhere. */
    method Set(key: string, val: Value)
      modifies if data.Map? then {data.obj} else {}
      ensures data.Map? ==> data.obj.m == old(data.obj.m)[key := val]
      ensures data.Map? && old(TreeShaped(data)) ==>
        && (forall r :: At(data, [key] + r) == At(val, r))
        && (forall q :: !([key] <= q) ==> At(data, q) == old(At(data, q)))
    {
      if data.Map? {
        data.obj.m := data.obj.m[key := val];
        if old(TreeShaped(data)) {
          assert old(At(data, [])) == data && [] + [key] == [key];
          hide At, TreeShaped;
          OnlyPutAt(data, [], key, data.obj);
          WriteEffect(data, [], key, val);
        }
      }
    }

    method Del(key: string)
      modifies if data.Map? then {data.obj} else {}
      ensures data.Map? ==> data.obj.m == old(data.obj.m) - {key}
      ensures data.Map? && old(TreeShaped(data)) ==>
        && (forall r :: At(data, [key] + r) == Nil)
        && (forall q :: !([key] <= q) ==> At(data, q) == old(At(data, q)))
    {
      if data.Map? {
        data.obj.m := data.obj.m - {key};
        if old(TreeShaped(data)) {
          assert old(At(data, [])) == data && [] + [key] == [key];
          hide At, TreeShaped;
          OnlyPutAt(data, [], key, data.obj);
          WriteEffect(data, [], key, Nil);
          forall r ensures At(Nil, r) == Nil {
            NothingInNil(r);
          }
        }
      }
    }

    /** A new empty map under a key that holds no map. */
    method Grow(ghost d: Path, curr: MapObject, b: string) returns (n: MapObject)
      requires TreeShaped(data) && At(data, d) == Map(curr) && !Child(Map(curr), b).Map?
      modifies curr
      ensures fresh(n) && n.m == map[]
      ensures At(data, d + [b]) == Map(n) && TreeShaped(data)
      ensures forall q :: q != d + [b] ==> At(data, q) == old(At(data, q))
    {
      assert (d + [b])[..|d + [b]| - 1] == d;
      assert !At(data, d + [b]).Map?;
      forall q | d + [b] <= q && q != d + [b] ensures At(data, q) == Nil {
        NothingUnder(data, d + [b], q);
      }
      n := new MapObject();
      curr.m := curr.m[b := Map(n)];
      hide At, TreeShaped;
      forall p | old(At(data, p)).Map? && old(At(data, p)).obj != curr
        ensures old(At(data, p)).obj.m == old(At(data, p).obj.m)
      {
        ghost var o := old(At(data, p)).obj;
        assert o.m == old(o.m);
      }
      OnlyPutAt(data, d, b, curr);
      GrowEffect(data, d, b, n);
    }

    /** The map one key further down the path, made if there is none. */
    method Descend(curr: MapObject, branch: Path, i: nat) returns (next: MapObject)
      requires i < |branch| && TreeShaped(data) && At(data, branch[..i]) == Map(curr)
      modifies curr
      ensures At(data, branch[..i + 1]) == Map(next) && TreeShaped(data)
      ensures forall q :: q != branch[..i + 1] ==> At(data, q) == old(At(data, q))
      ensures fresh(next) || Map(next) == old(At(data, branch[..i + 1]))
      ensures old(At(data, branch[..i + 1])).Map? ==> Map(next) == old(At(data, branch[..i + 1]))
    {
      var b := branch[i];
      assert branch[..i + 1] == branch[..i] + [b];
      assert branch[..i + 1][..i] == branch[..i];
      if b !in curr.m {
        next := Grow(branch[..i], curr, b);
        return;
      }
      if !curr.m[b].Map? {
        next := Grow(branch[..i], curr, b);
        return;
      }
      next := curr.m[b].obj;
    }

    /** Whatever is not a map at the root is replaced by one. */
    method MakeRoot()
      requires TreeShaped(data)
      modifies this`data
      ensures data.Map? && TreeShaped(data)
      ensures if old(data).Map? then data == old(data) else fresh(data.obj)
      ensures forall q :: q != [] ==> At(data, q) == old(At(data, q))
    {
      if !data.Map? {
        forall q: Path | q != [] ensures At(data, q) == Nil {
          NothingUnder(data, [], q);
        }
        var n := new MapObject();
        data := Map(n);
        forall q: Path | q != [] ensures At(data, q) == Nil {
          NothingUnder(data, [], q);
        }
      }
    }

    /** The walk down to the map that holds the last key. */
    method Walk(branch: Path) returns (curr: MapObject)
      requires branch != [] && TreeShaped(data)
      modifies this`data, OnPath(data, branch)
      ensures At(data, branch[..|branch| - 1]) == Map(curr) && TreeShaped(data)
      ensures forall q :: !(q <= branch[..|branch| - 1]) ==> At(data, q) == old(At(data, q))
      ensures forall j :: 0 <= j < |branch| ==> Stays(old(At(data, branch[..j])), At(data, branch[..j]))
    {
      MakeRoot();
      curr := WalkMaps(branch);
    }

    /** One round of the walk. */
    method Advance(ghost was: Path -> Value, ghost made: set<MapObject>, curr: MapObject, branch: Path, i: nat)
      returns (next: MapObject, ghost made': set<MapObject>)
      requires i < |branch| && Walking(was, made, branch, i, curr)
      modifies curr
      ensures Walking(was, made', branch, i + 1, next)
      ensures made <= made' && fresh(made' - made)
      ensures next in made' || Map(next) == was(branch[..i + 1])
    {
      next := Descend(curr, branch, i);
      made' := if Map(next) == was(branch[..i + 1]) then made else made + {next};
      hide TreeShaped, At;
      forall j | 0 <= j <= i ensures branch[..j] != branch[..i + 1] {
        assert |branch[..j]| != |branch[..i + 1]|;
      }
      assert !(branch[..i + 1] <= branch[..i]);
    }

    /** The state of the walk: what the paths led to before, the maps made since, the map reached. */
    ghost predicate Walking(was: Path -> Value, made: set<MapObject>, branch: Path, i: nat, curr: MapObject)
      requires i <= |branch|
      reads *
    {
      && TreeShaped(data) && At(data, branch[..i]) == Map(curr)
      && (forall q :: !(q <= branch[..i]) ==> At(data, q) == was(q))
      && (forall j :: 0 <= j <= i ==> OnTheWay(was(branch[..j]), At(data, branch[..j]), made))
    }

    method WalkMaps(branch: Path) returns (curr: MapObject)
      requires branch != [] && data.Map? && TreeShaped(data)
      modifies OnPath(data, branch)
      ensures At(data, branch[..|branch| - 1]) == Map(curr) && TreeShaped(data)
      ensures forall q :: !(q <= branch[..|branch| - 1]) ==> At(data, q) == old(At(data, q))
      ensures forall j :: 0 <= j < |branch| ==> Stays(old(At(data, branch[..j])), At(data, branch[..j]))
    {
      ghost var was: Path -> Value := q => old(At(data, q));
      ghost var maps, made := OnPath(data, branch), {};
      assert forall j :: 0 <= j < |branch| && was(branch[..j]).Map? ==> was(branch[..j]).obj in maps;
      assert At(data, branch[..0]) == data;
      assert Walking(was, made, branch, 0, data.obj);
      hide At, TreeShaped, OnPath;
      curr, made := WalkFrom(was, maps, branch);
    }

    /** The loop of the walk. */
    method WalkFrom(ghost was: Path -> Value, ghost maps: set<MapObject>, branch: Path)
      returns (curr: MapObject, ghost made: set<MapObject>)
      requires branch != [] && data.Map? && Walking(was, {}, branch, 0, data.obj)
      requires forall j :: 0 <= j < |branch| && was(branch[..j]).Map? ==> was(branch[..j]).obj in maps
      requires data.obj in maps
      modifies maps
      ensures Walking(was, made, branch, |branch| - 1, curr) && fresh(made)
    {
      hide *;
      curr, made := data.obj, {};
      for i := 0 to |branch| - 1
        invariant Walking(was, made, branch, i, curr) && fresh(made)
        invariant curr in maps || curr in made
      {
        curr, made := Advance(was, made, curr, branch, i);
      }
    }

    /** SetPath. Afterwards the path leads to the value, and every other path that is neither on
        the way to it nor beyond it leads where it did. The maps on the way stay in place, and new
        ones replace what was not a map. A separate tree is grafted whole, and the result is a tree. */
    method SetPath(branch: Path, val: Value)
      requires TreeShaped(data)
      modifies this`data, OnPath(data, branch)
      ensures At(data, branch) == val
      ensures forall q :: !(q <= branch) && !(branch <= q) ==> At(data, q) == old(At(data, q))
      ensures forall j :: 0 <= j < |branch| ==> Stays(old(At(data, branch[..j])), At(data, branch[..j]))
      ensures old(Separate(data, branch, val) && TreeShaped(val)) ==>
        TreeShaped(data) && forall r :: At(data, branch + r) == old(At(val, r))
    {
      if branch == [] {
        data := val;
        forall r ensures At(val, r) == old(At(val, r)) {
          Unmoved(val, r);
        }
        assert forall r: Path :: branch + r == r;
        return;
      }
      hide At, TreeShaped, Separate, OnPath, Stays;
      var curr := WalkBeside(branch, val);
      Put(branch, curr, val);
    }

    /** The walk leaves a separate tree alone, and separate. */
    method WalkBeside(branch: Path, ghost val: Value) returns (curr: MapObject)
      requires branch != [] && TreeShaped(data)
      modifies this`data, OnPath(data, branch)
      ensures At(data, branch[..|branch| - 1]) == Map(curr) && TreeShaped(data)
      ensures forall q :: !(q <= branch[..|branch| - 1]) ==> At(data, q) == old(At(data, q))
      ensures forall j :: 0 <= j < |branch| ==> Stays(old(At(data, branch[..j])), At(data, branch[..j]))
      ensures old(Separate(data, branch, val)) ==> Separate(data, branch, val) && forall r ::
        At(val, r) == old(At(val, r))
    {
      ghost var separate := Separate(data, branch, val);
      curr := Walk(branch);
      if separate {
        hide *;
        StaysBeside(Graft(old(data), val), data, branch);
      }
    }

    /** The last step: one key of one map. */
    method Put(branch: Path, curr: MapObject, val: Value)
      requires TreeShaped(data) && branch != [] && At(data, branch[..|branch| - 1]) == Map(curr)
      modifies curr
      ensures forall q :: !(branch <= q) ==> At(data, q) == old(At(data, q))
      ensures At(data, branch) == val
      ensures old(Separate(data, branch, val)) && old(TreeShaped(val)) ==>
        TreeShaped(data) && forall r :: At(data, branch + r) == old(At(val, r))
    {
      var d, k := branch[..|branch| - 1], branch[|branch| - 1];
      assert branch == d + [k];
      curr.m := curr.m[k := val];
      hide At, TreeShaped, Separate;
      OnlyPutAt(data, d, k, curr);
      WriteEffect(data, d, k, val);
      assert branch + [] == branch;
      if old(Separate(data, branch, val) && TreeShaped(val)) {
        forall r ensures At(val, r) == old(At(val, r)) {
          Unmoved(val, r);
        }
        Grafted(Graft(data, val), branch);
      }
    }

    /** Two writes to one path are the last one: what is promised of the two together is all that
        SetPath promises of the second alone, and reading the path gives its value. */
    method SetTwice(branch: Path, first: Value, val: Value) returns (got: Json)
      requires TreeShaped(data) && TreeShaped(first) && Separate(data, branch, first)
      modifies this`data, OnPath(data, branch)
      ensures got.data == val && At(data, branch) == val
      ensures forall q :: !(q <= branch) && !(branch <= q) ==> At(data, q) == old(At(data, q))
      ensures forall j :: 0 <= j < |branch| ==> Stays(old(At(data, branch[..j])), At(data, branch[..j]))
      ensures old(Separate(data, branch, val) && TreeShaped(val)) ==>
        TreeShaped(data) && forall r :: At(data, branch + r) == old(At(val, r))
    {
      SetFirst(branch, first, val);
      hide TreeShaped, Separate, At;
      SetPath(branch, val);
      got := GetPath(branch);
    }

    /** A write beside a separate tree leaves it alone, and separate. */
    method SetFirst(branch: Path, first: Value, ghost val: Value)
      requires TreeShaped(data) && TreeShaped(first) && Separate(data, branch, first)
      modifies this`data, OnPath(data, branch)
      ensures TreeShaped(data)
      ensures forall q :: !(q <= branch) && !(branch <= q) ==> At(data, q) == old(At(data, q))
      ensures forall j :: 0 <= j < |branch| ==> Stays(old(At(data, branch[..j])), At(data, branch[..j]))
      ensures old(Separate(data, branch, val)) ==> Separate(data, branch, val) && forall r ::
        At(val, r) == old(At(val, r))
    {
      ghost var separate := Separate(data, branch, val);
      SetPath(branch, first);
      if separate {
        hide *;
        StaysBeside(Graft(old(data), val), data, branch);
      }
    }
  }
}
