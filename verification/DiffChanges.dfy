/** What the change of a line says: the lines each delta adds to a diff, and the values they are read
    as. */
module DiffChanges {
  import opened Options
  import opened JsonDoc
  import opened JsonText
  import opened DiffLines
  import opened DiffProjection
  import opened DiffReader

  predicate All(es: seq<Entry>, change: Change) {
    forall e :: e in es ==> e.change == change
  }

  function Texts(es: seq<Entry>): (lines: seq<Line>)
    ensures |lines| == |es| && forall i :: 0 <= i < |es| ==> lines[i] == Line(es[i].indent, es[i].Text())
  {
    seq(|es|, i requires 0 <= i < |es| => Line(es[i].indent, es[i].Text()))
  }

  /** The lines have one change, and are read as a value, if what is in it can be read. */
  ghost predicate Tells(es: seq<Entry>, change: Change, v: Json, name: string, inArray: bool, depth: nat) {
    && All(es, change)
    && (Legible(Order(v)) && (inArray || LegibleKey(name)) ==>
          var r := ReadItem(Texts(es), !inArray, depth, true);
          r.Some? && r.value.doc == Order(v) && r.value.rest == [] && (!inArray ==> r.value.key == name))
  }

  /** What one delta adds: an added, deleted or changed value as a whole, the old one before the new
      one; and of a container with changes inside, its brackets. */
  ghost predicate Marks(d: Delta, es: seq<Entry>, name: string, inArray: bool, depth: nat) {
    match d
    case Added(_, x) => Tells(es, ChangeAdded, x, name, inArray, depth)
    case Deleted(_, x) => Tells(es, ChangeDeleted, x, name, inArray, depth)
    case Modified(_, x, y) => Replaces(es, x, y, name, inArray, depth)
    case TextDiff(_, x, y) => Replaces(es, x, y, name, inArray, depth)
    case Moved(_, _, _) => false
    case _ => |es| >= 2 && es[0].change == es[|es| - 1].change == ChangeNil
  }

  ghost predicate Replaces(es: seq<Entry>, x: Json, y: Json, name: string, inArray: bool, depth: nat) {
    exists k :: 0 <= k <= |es| &&
      Tells(es[..k], ChangeOld, x, name, inArray, depth) && Tells(es[k..], ChangeNew, y, name, inArray, depth)
  }

  /** A delta the formatter can print for a value: not a move, and changes inside an object or an array
      only for one. */
  predicate Fits(d: Delta, v: Json) {
    !d.Moved? && (d.ObjectDelta? ==> v.Object?) && (d.ArrayDelta? ==> v.Array?)
  }

  /** The error is that of the first delta that does not fit: a move is unknown, the others are type
      mismatches. */
  lemma {:induction false} RefusedExactly(found: seq<Delta>, v: Json)
    ensures match FirstRefusal(found, v)
      case None => forall i :: 0 <= i < |found| ==> Fits(found[i], v)
      case Some(e) =>
        exists i :: 0 <= i < |found| && !Fits(found[i], v) && (forall j :: 0 <= j < i ==> Fits(found[j], v)) &&
          e == if found[i].Moved? then UnknownDelta else TypeMismatch
  {
    if found != [] {
      var rest := found[1..];
      RefusedExactly(rest, v);
      assert forall i :: 0 < i < |found| ==> found[i] == rest[i - 1];
      if !Fits(found[0], v) {
        assert Refusal(found[0], v).Some?;
      } else if FirstRefusal(rest, v).Some? {
        var i :| 0 <= i < |rest| && !Fits(rest[i], v) && (forall j :: 0 <= j < i ==> Fits(rest[j], v)) &&
          FirstRefusal(rest, v).value == if rest[i].Moved? then UnknownDelta else TypeMismatch;
        assert !Fits(found[i + 1], v);
      }
    }
  }

  /** The deltas at one position, one after the other up to the first that does not fit. */
  ghost predicate MarksAll(v: Json, found: seq<Delta>, es: seq<Entry>, name: string, inArray: bool, depth: nat)
    decreases |found|
  {
    if found == [] || !Fits(found[0], v) then es == []
    else
      exists k :: 0 <= k <= |es| &&
        Marks(found[0], es[..k], name, inArray, depth) && MarksAll(v, found[1..], es[k..], name, inArray, depth)
  }

  lemma {:induction false} PrintChange(name: string, d: Doc, change: Change, inArray: bool, depth: nat, comma: bool)
    ensures All(Print(name, d, change, inArray, depth, comma), change)
    decreases d, 0
  {
    match d
    case DocLeaf(_) =>
    case DocObject(fields) => FieldsChange(fields, change, depth + 1);
    case DocArray(elements) => ElementsChange(elements, change, depth + 1);
  }

  lemma {:induction false} FieldsChange(fields: seq<Field>, change: Change, depth: nat)
    ensures All(PrintFields(fields, change, depth), change)
    decreases fields, 1
  {
    if fields != [] {
      PrintChange(fields[0].key, fields[0].doc, change, false, depth, |fields| > 1);
      FieldsChange(fields[1..], change, depth);
    }
  }

  lemma {:induction false} ElementsChange(elements: seq<Doc>, change: Change, depth: nat)
    ensures All(PrintElements(elements, change, depth), change)
    decreases elements, 1
  {
    if elements != [] {
      PrintChange("", elements[0], change, true, depth, |elements| > 1);
      ElementsChange(elements[1..], change, depth);
    }
  }

  lemma PrintTells(name: string, v: Json, change: Change, inArray: bool, depth: nat, comma: bool)
    ensures Tells(Print(name, Order(v), change, inArray, depth, comma), change, v, name, inArray, depth)
  {
    hide Print, Order, Legible, LegibleKey, ReadItem;
    var es := Print(name, Order(v), change, inArray, depth, comma);
    PrintChange(name, Order(v), change, inArray, depth, comma);
    if Legible(Order(v)) && (inArray || LegibleKey(name)) {
      ReadsItem(Texts(es), [], name, Order(v), change, inArray, depth, comma, true);
      assert Texts(es) + [] == Texts(es);
    }
  }

  lemma PrintBoth(name: string, x: Json, y: Json, inArray: bool, depth: nat, comma: bool)
    ensures Replaces(Print(name, Order(x), ChangeOld, inArray, depth, comma)
      + Print(name, Order(y), ChangeNew, inArray, depth, comma), x, y, name, inArray, depth)
  {
    hide Print, Order, Tells;
    var a, b := Print(name, Order(x), ChangeOld, inArray, depth, comma),
      Print(name, Order(y), ChangeNew, inArray, depth, comma);
    PrintTells(name, x, ChangeOld, inArray, depth, comma);
    PrintTells(name, y, ChangeNew, inArray, depth, comma);
    assert (a + b)[..|a|] == a && (a + b)[|a|..] == b;
  }

  lemma DeltaMarks(v: Json, found: seq<Delta>, name: string, inArray: bool, depth: nat, size: int)
    requires found != [] && Refusal(found[0], v).None?
    ensures Marks(found[0], DeltaOut(v, found, name, inArray, depth, size).lines, name, inArray, depth)
  {
    hide Print, Order, Tells, Replaces, BodyOut;
    match found[0]
    case Added(_, x) => PrintTells(name, x, ChangeAdded, inArray, depth, size > 1);
    case Deleted(_, x) => PrintTells(name, x, ChangeDeleted, inArray, depth, size > 1);
    case Modified(_, x, y) => PrintBoth(name, x, y, inArray, depth, size > 1);
    case TextDiff(_, x, y) => PrintBoth(name, x, y, inArray, depth, size > 1);
    case _ =>
  }

  lemma {:induction false} FoundMarks(v: Json, found: seq<Delta>, name: string, inArray: bool, depth: nat, size: int)
    ensures MarksAll(v, found, FoundOut(v, found, name, inArray, depth, size).lines, name, inArray, depth)
    decreases |found|
  {
    if found != [] && Refusal(found[0], v).None? {
      var first := DeltaOut(v, found, name, inArray, depth, size);
      var rest := FoundOut(v, found[1..], name, inArray, depth, first.size).lines;
      DeltaMarks(v, found, name, inArray, depth, size);
      FoundMarks(v, found[1..], name, inArray, depth, first.size);
      var es := first.lines + rest;
      hide Marks, DeltaOut;
      assert es[..|first.lines|] == first.lines && es[|first.lines|..] == rest;
    }
  }

  /** What the walk adds for one entry of the left document: if no delta is at its position, the entry,
      unchanged; otherwise what the deltas there add. */
  lemma ItemMarks(v: Json, ds: seq<Delta>, at: Position, inArray: bool, depth: nat, size: int)
    ensures var es, found := ItemOut(v, ds, at, inArray, depth, size).lines, Search(ds, at);
      if found == [] then Tells(es, ChangeUnchanged, v, PositionString(at), inArray, depth)
      else MarksAll(v, found, es, PositionString(at), inArray, depth)
  {
    hide Print, Order, Tells, MarksAll, FoundOut;
    PrintTells(PositionString(at), v, ChangeUnchanged, inArray, depth, size > 1);
    FoundMarks(v, Search(ds, at), PositionString(at), inArray, depth, size);
  }
}
