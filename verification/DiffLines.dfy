/** What the JSON diff formatter prints: the deltas it reads, the lines it emits, and the
    emitted lines as a function of the left document and the deltas. */
module DiffLines {
  import opened Options
  import opened Sorting
  import opened JsonDoc

  datatype Change = ChangeNil | ChangeAdded | ChangeDeleted | ChangeOld | ChangeNew | ChangeUnchanged

  datatype Side = Left | Right

  /** Which document a line belongs to (closeLine). */
  predicate On(side: Side, change: Change) {
    match change
    case ChangeAdded | ChangeNew => side == Right
    case ChangeDeleted | ChangeOld => side == Left
    case ChangeNil | ChangeUnchanged => true
  }

  datatype Position = Name(name: string) | Index(index: int)

  datatype Delta =
    | ObjectDelta(at: Position, deltas: seq<Delta>)
    | ArrayDelta(at: Position, deltas: seq<Delta>)
    | Added(at: Position, added: Json)
    | Modified(at: Position, oldValue: Json, newValue: Json)
    | TextDiff(at: Position, oldValue: Json, newValue: Json)
    | Deleted(at: Position, deleted: Json)
    | Moved(at: Position, from: Position, moved: Json)

  datatype Error = TypeMismatch | UnknownDelta | UnexpectedRoot

  function Digit(n: nat): char
    requires n < 10
  {
    "0123456789"[n]
  }

  function Itoa(n: int): string
    decreases n < 0, if n < 0 then -n else n
  {
    if n < 0 then "-" + Itoa(-n)
    else if n < 10 then [Digit(n)]
    else Itoa(n / 10) + [Digit(n % 10)]
  }

  function PositionString(p: Position): string {
    match p
    case Name(s) => s
    case Index(i) => Itoa(i)
  }

  /** One line before numbering. `body` is its text without the trailing comma, and `kind`
      records whether it opens or closes a bracket. */
  datatype Kind = Open | Close | Plain

  datatype Entry = Entry(kind: Kind, change: Change, indent: nat, body: string, comma: bool,
                         key: string, val: Option<Scalar>)
  {
    function Text(): string { if comma then body + "," else body }
  }

  // ---------- printing one value (printRecursive)

  function KeyText(name: string, inArray: bool): string {
    if inArray then "" else "\"" + name + "\": "
  }

  function KeyOf(name: string, inArray: bool): string {
    if inArray then "" else name
  }

  function Render(s: Scalar): string {
    match s
    case Text(chars) => "\"" + chars + "\""
    case Null => "null"
    case Other(goSyntax) => goSyntax
  }

  function Shown(s: Scalar): Scalar {
    if s.Null? then Text("null") else s
  }

  function OpenLine(name: string, bracket: string, change: Change, inArray: bool, depth: nat): Entry {
    Entry(Open, change, depth, KeyText(name, inArray) + bracket, false, KeyOf(name, inArray), None)
  }

  function CloseLine(bracket: string, change: Change, depth: nat, comma: bool): Entry {
    Entry(Close, change, depth, bracket, comma, "", None)
  }

  function LeafLine(name: string, s: Scalar, change: Change, inArray: bool, depth: nat, comma: bool): Entry {
    Entry(Plain, change, depth, KeyText(name, inArray) + Render(s), comma, KeyOf(name, inArray), Some(Shown(s)))
  }

  /** The pretty-printer: one line per leaf, brackets on lines of their own, a comma after
      every entry of a container but the last. */
  function Print(name: string, d: Doc, change: Change, inArray: bool, depth: nat, comma: bool): seq<Entry>
    decreases d, 0
  {
    match d
    case DocLeaf(s) => [LeafLine(name, s, change, inArray, depth, comma)]
    case DocObject(fields) =>
      [OpenLine(name, "{", change, inArray, depth)]
      + PrintFields(fields, change, depth + 1)
      + [CloseLine("}", change, depth, comma)]
    case DocArray(elements) =>
      [OpenLine(name, "[", change, inArray, depth)]
      + PrintElements(elements, change, depth + 1)
      + [CloseLine("]", change, depth, comma)]
  }

  function PrintFields(fields: seq<Field>, change: Change, depth: nat): seq<Entry>
    decreases fields, 1
  {
    if fields == [] then []
    else
      Print(fields[0].key, fields[0].doc, change, false, depth, |fields| > 1)
      + PrintFields(fields[1..], change, depth)
  }

  function PrintElements(elements: seq<Doc>, change: Change, depth: nat): seq<Entry>
    decreases elements, 1
  {
    if elements == [] then []
    else Print("", elements[0], change, true, depth, |elements| > 1) + PrintElements(elements[1..], change, depth)
  }

  /** One step of a loop that prints the entries of a container in turn. */
  lemma PrintFieldsStep(v: Json, keys: seq<string>, i: nat, change: Change, depth: nat)
    requires v.Object? && i < |keys| && forall k :: k in keys ==> k in v.members
    ensures PrintFields(OrderFields(v, keys[i..]), change, depth)
         == Print(keys[i], Order(v.members[keys[i]]), change, false, depth, |keys| - i > 1)
            + PrintFields(OrderFields(v, keys[i + 1..]), change, depth)
  {
    assert keys[i..][0] == keys[i] && keys[i..][1..] == keys[i + 1..];
    var fields := OrderFields(v, keys[i..]);
    assert fields[0] == Field(keys[i], Order(v.members[keys[i]]));
    assert fields[1..] == OrderFields(v, keys[i + 1..]);
  }

  lemma PrintElementsStep(items: seq<Json>, i: nat, change: Change, depth: nat)
    requires i < |items|
    ensures PrintElements(OrderItems(items[i..]), change, depth)
         == Print("", Order(items[i]), change, true, depth, |items| - i > 1)
            + PrintElements(OrderItems(items[i + 1..]), change, depth)
  {
    assert items[i..][0] == items[i] && items[i..][1..] == items[i + 1..];
    var docs := OrderItems(items[i..]);
    assert docs[0] == Order(items[i]);
    assert docs[1..] == OrderItems(items[i + 1..]);
  }

  lemma PrintNothing(v: Json, change: Change, depth: nat)
    requires v.Object?
    ensures PrintFields(OrderFields(v, []), change, depth) == []
    ensures PrintElements(OrderItems([]), change, depth) == []
  {
  }

  lemma PrintUnfolds(name: string, v: Json, change: Change, inArray: bool, depth: nat, comma: bool)
    ensures v.Object? ==>
      Print(name, Order(v), change, inArray, depth, comma) ==
      [OpenLine(name, "{", change, inArray, depth)]
      + PrintFields(OrderFields(v, SortedKeys(v.members)), change, depth + 1)
      + [CloseLine("}", change, depth, comma)]
    ensures v.Array? ==>
      Print(name, Order(v), change, inArray, depth, comma) ==
      [OpenLine(name, "[", change, inArray, depth)]
      + PrintElements(OrderItems(v.items), change, depth + 1)
      + [CloseLine("]", change, depth, comma)]
    ensures v.Leaf? ==>
      Print(name, Order(v), change, inArray, depth, comma) ==
      [LeafLine(name, v.scalar, change, inArray, depth, comma)]
  {
  }

  lemma Bracketed<T>(before: seq<T>, opening: T, body: seq<T>, closing: T)
    ensures before + [opening] + body + [closing] == before + ([opening] + body + [closing])
  {
  }

  // ---------- walking a document with its deltas (processObject, processArray, processItem)

  function Weight(ds: seq<Delta>): nat
    decreases ds
  {
    if ds == [] then 0
    else (if ds[0].ObjectDelta? || ds[0].ArrayDelta? then Weight(ds[0].deltas) else 0) + 1 + Weight(ds[1..])
  }

  /** searchDeltas: the deltas at a position, in order. */
  function Search(ds: seq<Delta>, at: Position): (found: seq<Delta>)
    ensures Weight(found) <= Weight(ds)
  {
    if ds == [] then []
    else if ds[0].at == at then [ds[0]] + Search(ds[1..], at)
    else Search(ds[1..], at)
  }

  lemma {:induction false} SearchFinds(ds: seq<Delta>, at: Position)
    ensures forall d :: d in Search(ds, at) <==> d in ds && d.at == at
  {
    if ds != [] {
      SearchFinds(ds[1..], at);
      assert ds == [ds[0]] + ds[1..];
    }
  }

  lemma SearchStep(ds: seq<Delta>, i: nat, at: Position)
    requires i < |ds|
    ensures Search(ds[i..], at) == (if ds[i].at == at then [ds[i]] else []) + Search(ds[i + 1..], at)
  {
    assert ds[i..][0] == ds[i] && ds[i..][1..] == ds[i + 1..];
  }

  /** Lines emitted, and what is left in the size counter of the enclosing container. */
  datatype Out = Out(lines: seq<Entry>, size: int)

  function Then(a: Out, b: Out): Out { Out(a.lines + b.lines, b.size) }

  /** The exit of processItem on a delta it cannot apply to the value. */
  function Refusal(d: Delta, v: Json): Option<Error> {
    match d
    case ObjectDelta(_, _) => if v.Object? then None else Some(TypeMismatch)
    case ArrayDelta(_, _) => if v.Array? then None else Some(TypeMismatch)
    case Moved(_, _, _) => Some(UnknownDelta)
    case _ => None
  }

  function FirstRefusal(found: seq<Delta>, v: Json): Option<Error> {
    if found == [] then None
    else if Refusal(found[0], v).Some? then Refusal(found[0], v)
    else FirstRefusal(found[1..], v)
  }

  ghost function ItemOut(v: Json, ds: seq<Delta>, at: Position, inArray: bool, depth: nat, size: int): Out
    decreases Weight(ds), 1, 0
  {
    var found := Search(ds, at);
    if found == [] then
      Out(Print(PositionString(at), Order(v), ChangeUnchanged, inArray, depth, size > 1), size - 1)
    else
      FoundOut(v, found, PositionString(at), inArray, depth, size)
  }

  /** The loop over the matched deltas; it stops at the first one it refuses. */
  ghost function FoundOut(v: Json, found: seq<Delta>, name: string, inArray: bool, depth: nat, size: int): Out
    decreases Weight(found), 0, |found|
  {
    if found == [] || Refusal(found[0], v).Some? then Out([], size)
    else
      var first := DeltaOut(v, found, name, inArray, depth, size);
      Then(first, FoundOut(v, found[1..], name, inArray, depth, first.size))
  }

  ghost function DeltaOut(v: Json, found: seq<Delta>, name: string, inArray: bool, depth: nat, size: int): Out
    requires found != [] && Refusal(found[0], v).None?
    decreases Weight(found), 0, 0
  {
    match found[0]
    case ObjectDelta(_, sub) => Out(NestedOut(name, v, sub, inArray, depth, size > 1), size - 1)
    case ArrayDelta(_, sub) => Out(NestedOut(name, v, sub, inArray, depth, size > 1), size - 1)
    case Added(_, x) => Out(Print(name, Order(x), ChangeAdded, inArray, depth, size > 1), size)
    case Modified(_, x, y) =>
      Out(Print(name, Order(x), ChangeOld, inArray, depth, size > 1)
        + Print(name, Order(y), ChangeNew, inArray, depth, size > 1), size - 1)
    case TextDiff(_, x, y) =>
      Out(Print(name, Order(x), ChangeOld, inArray, depth, size > 1)
        + Print(name, Order(y), ChangeNew, inArray, depth, size > 1), size - 1)
    case Deleted(_, x) => Out(Print(name, Order(x), ChangeDeleted, inArray, depth, size > 1), size - 1)
  }

  /** A container both documents have, with the changes inside it. */
  ghost function NestedOut(name: string, v: Json, ds: seq<Delta>, inArray: bool, depth: nat, comma: bool): seq<Entry>
    requires !v.Leaf?
    decreases Weight(ds), 4, 0
  {
    [OpenLine(name, if v.Object? then "{" else "[", ChangeNil, inArray, depth)]
    + BodyOut(v, ds, depth + 1)
    + [CloseLine(if v.Object? then "}" else "]", ChangeNil, depth, comma)]
  }

  /** Everything printed between the brackets of a container. */
  ghost function BodyOut(v: Json, ds: seq<Delta>, depth: nat): seq<Entry>
    requires !v.Leaf?
    decreases Weight(ds), 3, 0
  {
    match v
    case Object(m) =>
      var walked := FieldsOut(v, SortedKeys(m), ds, depth, |m|);
      walked.lines + AddedOut(ds, false, 0, depth, walked.size).lines
    case Array(items) =>
      var walked := ElementsOut(items, 0, ds, depth, |items|);
      walked.lines + AddedOut(ds, true, |items|, depth, walked.size).lines
  }

  ghost function FieldsOut(v: Json, keys: seq<string>, ds: seq<Delta>, depth: nat, size: int): Out
    requires v.Object? && forall k :: k in keys ==> k in v.members
    decreases Weight(ds), 2, |keys|
  {
    if keys == [] then Out([], size)
    else
      var first := ItemOut(v.members[keys[0]], ds, Name(keys[0]), false, depth, size);
      Then(first, FieldsOut(v, keys[1..], ds, depth, first.size))
  }

  ghost function ElementsOut(items: seq<Json>, i: nat, ds: seq<Delta>, depth: nat, size: int): Out
    requires i <= |items|
    decreases Weight(ds), 2, |items| - i
  {
    if i == |items| then Out([], size)
    else
      var first := ItemOut(items[i], ds, Index(i), true, depth, size);
      Then(first, ElementsOut(items, i + 1, ds, depth, first.size))
  }

  // One step of each loop, and what is left to do after the last one.

  lemma FoundStep(v: Json, found: seq<Delta>, i: nat, name: string, inArray: bool, depth: nat, size: int)
    requires i < |found|
    ensures Weight(found[i..]) <= Weight(found)
    ensures FirstRefusal(found[i..], v) == if Refusal(found[i], v).Some? then Refusal(found[i], v)
      else FirstRefusal(found[i + 1..], v)
    ensures FoundOut(v, found[i..], name, inArray, depth, size) ==
      if Refusal(found[i], v).Some? then Out([], size)
      else
        var first := DeltaOut(v, found[i..], name, inArray, depth, size);
        Then(first, FoundOut(v, found[i + 1..], name, inArray, depth, first.size))
  {
    WeightOfSuffix(found, i);
    assert found[i..][0] == found[i] && found[i..][1..] == found[i + 1..];
  }

  lemma {:induction false} WeightOfSuffix(ds: seq<Delta>, i: nat)
    requires i <= |ds|
    ensures Weight(ds[i..]) <= Weight(ds)
  {
    if i > 0 {
      WeightOfSuffix(ds[1..], i - 1);
      assert ds[1..][i - 1..] == ds[i..];
    } else {
      assert ds[i..] == ds;
    }
  }

  lemma FieldsStep(v: Json, keys: seq<string>, i: nat, ds: seq<Delta>, depth: nat, size: int)
    requires v.Object? && i < |keys| && forall k :: k in keys ==> k in v.members
    ensures FieldsOut(v, keys[i..], ds, depth, size) ==
      var first := ItemOut(v.members[keys[i]], ds, Name(keys[i]), false, depth, size);
      Then(first, FieldsOut(v, keys[i + 1..], ds, depth, first.size))
  {
    assert keys[i..][0] == keys[i] && keys[i..][1..] == keys[i + 1..];
  }

  lemma ElementsStep(items: seq<Json>, i: nat, ds: seq<Delta>, depth: nat, size: int)
    requires i < |items|
    ensures ElementsOut(items, i, ds, depth, size) ==
      var first := ItemOut(items[i], ds, Index(i), true, depth, size);
      Then(first, ElementsOut(items, i + 1, ds, depth, first.size))
  {
  }

  lemma WalkEnds(v: Json, items: seq<Json>, ds: seq<Delta>, depth: nat, size: int)
    requires v.Object?
    ensures FieldsOut(v, [], ds, depth, size) == Out([], size)
    ensures ElementsOut(items, |items|, ds, depth, size) == Out([], size)
  {
  }

  lemma FoundEnds(v: Json, found: seq<Delta>, name: string, inArray: bool, depth: nat, size: int)
    requires found == []
    ensures FoundOut(v, found, name, inArray, depth, size) == Out([], size) && FirstRefusal(found, v) == None
  {
  }

  /** An Added that the walk over the left array has already met. */
  predicate AlreadyMet(at: Position, inArray: bool, length: nat) {
    inArray && at.Index? && at.index < length
  }

  ghost function AddedOut(ds: seq<Delta>, inArray: bool, length: nat, depth: nat, size: int): Out {
    if ds == [] then Out([], size)
    else if ds[0].Added? && !AlreadyMet(ds[0].at, inArray, length) then
      Then(Out(Print(PositionString(ds[0].at), Order(ds[0].added), ChangeAdded, inArray, depth, size > 1), size - 1),
           AddedOut(ds[1..], inArray, length, depth, size - 1))
    else AddedOut(ds[1..], inArray, length, depth, size)
  }

  lemma AddedStep(ds: seq<Delta>, i: nat, inArray: bool, length: nat, depth: nat, size: int)
    requires i < |ds|
    ensures AddedOut(ds[i..], inArray, length, depth, size) ==
      if ds[i].Added? && !AlreadyMet(ds[i].at, inArray, length) then
        Then(Out(Print(PositionString(ds[i].at), Order(ds[i].added), ChangeAdded, inArray, depth, size > 1), size - 1),
             AddedOut(ds[i + 1..], inArray, length, depth, size - 1))
      else AddedOut(ds[i + 1..], inArray, length, depth, size)
  {
    assert ds[i..][0] == ds[i] && ds[i..][1..] == ds[i + 1..];
  }

  lemma AddedEnds(inArray: bool, length: nat, depth: nat, size: int)
    ensures AddedOut([], inArray, length, depth, size) == Out([], size)
  {
  }

  /** All lines of a diff whose left document is an object or an array. */
  ghost function DiffEntries(left: Json, ds: seq<Delta>): seq<Entry>
    requires !left.Leaf?
  {
    NestedOut("", left, ds, true, 0, false)
  }

  /** Positions the formatter can read: in an array the position of an Added is converted to
      an index, which panics on a name. */
  predicate Readable(ds: seq<Delta>, inArray: bool)
    decreases ds, 1
  {
    forall i :: 0 <= i < |ds| ==> ReadableDelta(ds[i]) && (inArray && ds[i].Added? ==> ds[i].at.Index?)
  }

  predicate ReadableDelta(d: Delta)
    decreases d, 0
  {
    match d
    case ObjectDelta(_, sub) => Readable(sub, false)
    case ArrayDelta(_, sub) => Readable(sub, true)
    case _ => true
  }

  lemma ReadableAt(ds: seq<Delta>, d: Delta)
    requires Readable(ds, false) && d in ds
    ensures ReadableDelta(d)
  {
  }

  // ---------- numbering (closeLine)

  datatype JsonLine = JsonLine(lineNum: nat, leftLine: nat, rightLine: nat, indent: nat, text: string,
                               change: Change, key: string, val: Option<Scalar>)

  function Count(es: seq<Entry>, side: Side): nat {
    if es == [] then 0
    else Count(es[..|es| - 1], side) + if On(side, es[|es| - 1].change) then 1 else 0
  }

  /** The line closeLine appends for the last entry of es. */
  function Numbered(es: seq<Entry>): JsonLine
    requires es != []
  {
    var e := es[|es| - 1];
    JsonLine(|es|,
             if On(Left, e.change) then Count(es, Left) else 0,
             if On(Right, e.change) then Count(es, Right) else 0,
             e.indent, e.Text(), e.change, e.key, e.val)
  }

  function NumberAll(es: seq<Entry>): (lines: seq<JsonLine>)
    ensures |lines| == |es|
  {
    if es == [] then [] else NumberAll(es[..|es| - 1]) + [Numbered(es)]
  }

  /** Appending one entry appends one line. */
  lemma NumberingStep(es: seq<Entry>, e: Entry)
    ensures NumberAll(es + [e]) == NumberAll(es) + [Numbered(es + [e])]
    ensures forall side :: Count(es + [e], side) == Count(es, side) + if On(side, e.change) then 1 else 0
  {
    assert (es + [e])[..|es|] == es;
  }
}
