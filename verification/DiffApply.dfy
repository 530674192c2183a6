/** applyDeltas of the diff library: what it means to apply a list of deltas to a document. On an
    object all deletions come first and then the additions and replacements. On an array the
    deletions go from the highest index down, and then the other deltas from the lowest index up,
    each at its index in the array as it is by then; a moved item goes from its old index to its new
    one. */
module DiffApply {
  import opened Options
  import opened JsonDoc
  import opened DiffLines

  /** Where applying to an array indexes out of range, and the library panics, the array is
      left alone; ApplyArray tells. */
  ghost function ApplyDeltas(v: Json, ds: seq<Delta>): Json
    decreases Weight(ds), 3, 0
  {
    match v
    case Object(m) => Object(PostApply(PreApply(m, ds), ds))
    case Array(items) =>
      var applied := ApplyArray(items, ds);
      if applied.Some? then Array(applied.value) else v
    case Leaf(_) => v
  }

  // ---------- objects

  function PreApply(m: map<string, Json>, ds: seq<Delta>): map<string, Json> {
    if ds == [] then m
    else PreApply(if ds[0].Deleted? && ds[0].at.Name? then m - {ds[0].at.name} else m, ds[1..])
  }

  ghost function PostApply(m: map<string, Json>, ds: seq<Delta>): map<string, Json>
    decreases Weight(ds), 1, |ds|
  {
    if ds == [] then m else PostApply(PostStep(m, ds), ds[1..])
  }

  ghost function PostStep(m: map<string, Json>, ds: seq<Delta>): map<string, Json>
    requires ds != []
    decreases Weight(ds), 1, 0
  {
    if !ds[0].at.Name? then m
    else
      var new_ := PostValue(Get(m, ds[0].at.name), ds);
      if new_.Some? then m[ds[0].at.name := new_.value] else m
  }

  /** The value the first delta leaves at its place, given the value it finds there. */
  ghost function PostValue(old_: Option<Json>, ds: seq<Delta>): Option<Json>
    requires ds != []
    decreases Weight(ds), 0, 0
  {
    match ds[0]
    case ObjectDelta(_, sub) => if old_.Some? then Some(ApplyDeltas(old_.value, sub)) else None
    case ArrayDelta(_, sub) => if old_.Some? then Some(ApplyDeltas(old_.value, sub)) else None
    case Added(_, x) => Some(x)
    case Modified(_, _, y) => Some(y)
    case TextDiff(_, _, y) => Some(y)
    case _ => old_
  }

  function Get<K, V>(m: map<K, V>, k: K): Option<V> {
    if k in m then Some(m[k]) else None
  }

  // ---------- arrays

  ghost function ApplyArray(items: seq<Json>, ds: seq<Delta>): Option<seq<Json>>
    decreases Weight(ds), 2, 0
  {
    var kept := PreArray(items, PreOrder(ds));
    if kept.None? then None else PostArray(kept.value, PostOrder(Carry(items, ds)))
  }

  /** A Moved carries the item it removes. */
  function Carry(items: seq<Json>, ds: seq<Delta>): (carried: seq<Delta>)
    ensures |carried| == |ds| && Weight(carried) == Weight(ds)
  {
    if ds == [] then [] else [CarryOne(items, ds[0])] + Carry(items, ds[1..])
  }

  function CarryOne(items: seq<Json>, d: Delta): Delta {
    if d.Moved? && d.from.Index? && 0 <= d.from.index < |items| then d.(moved := items[d.from.index]) else d
  }

  /** The indexes to remove, highest first. */
  function PreOrder(ds: seq<Delta>): seq<int> {
    if ds == [] then []
    else if ds[0].Deleted? && ds[0].at.Index? then InsertDown(ds[0].at.index, PreOrder(ds[1..]))
    else if ds[0].Moved? && ds[0].from.Index? then InsertDown(ds[0].from.index, PreOrder(ds[1..]))
    else PreOrder(ds[1..])
  }

  function InsertDown(i: int, s: seq<int>): seq<int> {
    if s == [] || i >= s[0] then [i] + s else [s[0]] + InsertDown(i, s[1..])
  }

  function PreArray(items: seq<Json>, order: seq<int>): Option<seq<Json>> {
    if order == [] then Some(items)
    else if 0 <= order[0] < |items| then PreArray(items[..order[0]] + items[order[0] + 1..], order[1..])
    else None
  }

  /** The other deltas, lowest index first. */
  function PostOrder(ds: seq<Delta>): (s: seq<Delta>)
    ensures Weight(s) <= Weight(ds)
    ensures forall d :: d in s ==> d.at.Index? && !d.Deleted?
  {
    if ds == [] then []
    else if !ds[0].Deleted? && ds[0].at.Index? then InsertUp(ds[0], PostOrder(ds[1..]))
    else PostOrder(ds[1..])
  }

  function InsertUp(d: Delta, s: seq<Delta>): (r: seq<Delta>)
    requires d.at.Index? && forall e :: e in s ==> e.at.Index?
    ensures Weight(r) == Weight([d] + s)
    ensures forall e :: e in r <==> e == d || e in s
  {
    if s == [] || d.at.index <= s[0].at.index then [d] + s
    else
      assert s == [s[0]] + s[1..];
      var rest := InsertUp(d, s[1..]);
      assert ([s[0]] + rest)[1..] == rest && ([d] + s)[1..] == s && ([d] + s[1..])[1..] == s[1..];
      [s[0]] + rest
  }

  ghost function PostArray(items: seq<Json>, s: seq<Delta>): Option<seq<Json>>
    requires forall d :: d in s ==> d.at.Index?
    decreases Weight(s), 1, |s|
  {
    if s == [] then Some(items)
    else
      var next := PostAt(items, s);
      if next.None? then None else PostArray(next.value, s[1..])
  }

  /** An added value is inserted, or appended if its index is past the end; a moved item is
      inserted; any other delta replaces what is at its index. */
  ghost function PostAt(items: seq<Json>, s: seq<Delta>): Option<seq<Json>>
    requires s != [] && forall d :: d in s ==> d.at.Index?
    decreases Weight(s), 1, 0
  {
    var i := s[0].at.index;
    if i < 0 || (!s[0].Added? && i >= |items| + if s[0].Moved? then 1 else 0) then None
    else if s[0].Added? then Some(if i < |items| then items[..i] + [s[0].added] + items[i..] else items + [s[0].added])
    else if s[0].Moved? then Some(items[..i] + [s[0].moved] + items[i..])
    else
      var new_ := PostValue(Some(items[i]), s);
      if new_.Some? then Some(items[..i] + [new_.value] + items[i + 1..]) else None
  }
}
