/** The JSON diff formatter: three parallel stacks, three counters, a line under
    construction and the list of finished lines, all updated in place. */
module JsonFormatter {
  import opened Collections
  import opened Options
  import opened Sorting
  import opened JsonDoc
  import opened DiffLines

  datatype AsciiLine = AsciiLine(change: Change, key: string, val: Option<Scalar>, indent: nat, buffer: string)

  /** The size stack with its top replaced. */
  ghost function WithTop(size: seq<int>, top: int): seq<int>
    requires size != []
  {
    size[..|size| - 1] + [top]
  }

  class Formatter {
    var path: seq<string>
    var size: seq<int>
    var inArray: seq<bool>
    var lineCount: nat
    var leftLine: nat
    var rightLine: nat
    var line: AsciiLine
    var lines: seq<JsonLine>
    ghost var entries: seq<Entry>

    /** The stacks run in parallel and the numbering is right. */
    ghost predicate Valid()
      reads this
    {
      |path| == |size| == |inArray| && Counted()
    }

    /** The counters and the numbers on the lines are those of the entries emitted so far. */
    ghost predicate Counted()
      reads this`lines, this`entries, this`lineCount, this`leftLine, this`rightLine
    {
      && lines == NumberAll(entries)
      && lineCount == |entries|
      && leftLine == Count(entries, Left)
      && rightLine == Count(entries, Right)
    }

    constructor ()
      ensures Valid() && path == [] && entries == []
    {
      path, size, inArray := [], [], [];
      lineCount, leftLine, rightLine := 0, 0, 0;
      line := AsciiLine(ChangeNil, "", None, 0, "");
      lines, entries := [], [];
    }

    method Push(name: string, n: int, ofArray: bool)
      requires Valid()
      modifies this`path, this`size, this`inArray
      ensures Valid()
      ensures path == old(path) + [name] && size == old(size) + [n] && inArray == old(inArray) + [ofArray]
    {
      path, size, inArray := path + [name], size + [n], inArray + [ofArray];
    }

    method Pop()
      requires Valid() && path != []
      modifies this`path, this`size, this`inArray
      ensures Valid()
      ensures path == old(path)[..old(|path|) - 1] && size == old(size)[..old(|size|) - 1] &&
        inArray == old(inArray)[..old(|inArray|) - 1]
    {
      path := path[..|path| - 1];
      size := size[..|size| - 1];
      inArray := inArray[..|inArray| - 1];
    }

    method NewLine(change: Change)
      requires Valid()
      modifies this`line
      ensures line == AsciiLine(change, "", None, |path|, "")
    {
      line := AsciiLine(change, "", None, |path|, "");
    }

    method PrintKey(name: string)
      requires Valid() && path != [] && line.key == "" && line.buffer == ""
      modifies this`line
      ensures line == old(line).(key := KeyOf(name, Last(inArray)), buffer := KeyText(name, Last(inArray)))
    {
      if !inArray[|inArray| - 1] {
        line := line.(key := name, buffer := line.buffer + ("\"" + name + "\": "));
      }
    }

    method PrintText(text: string)
      modifies this`line
      ensures line == old(line).(buffer := old(line.buffer) + text)
    {
      line := line.(buffer := line.buffer + text);
    }

    method PrintValue(s: Scalar)
      modifies this`line
      ensures line == old(line).(val := Some(Shown(s)), buffer := old(line.buffer) + Render(s))
    {
      match s
      case Text(chars) => line := line.(val := Some(s), buffer := line.buffer + ("\"" + chars + "\""));
      case Null => line := line.(val := Some(Text("null")), buffer := line.buffer + "null");
      case Other(goSyntax) => line := line.(val := Some(s), buffer := line.buffer + goSyntax);
    }

    method PrintComma()
      requires Valid() && path != []
      modifies this`size, this`line
      ensures Valid()
      ensures size == WithTop(old(size), old(Last(size)) - 1)
      ensures line == old(line).(buffer := old(line.buffer) + if old(Last(size)) > 1 then "," else "")
    {
      size := size[|size| - 1 := size[|size| - 1] - 1];
      if size[|size| - 1] > 0 {
        line := line.(buffer := line.buffer + ",");
      }
    }

    method CloseLine(ghost e: Entry)
      requires Valid()
      requires line == AsciiLine(e.change, e.key, e.val, e.indent, e.Text())
      modifies this`lineCount, this`leftLine, this`rightLine, this`lines, this`entries
      ensures Valid()
      ensures entries == old(entries) + [e]
    {
      hide NumberAll, Count;
      NumberingStep(entries, e);
      var left, right := 0, 0;
      lineCount := lineCount + 1;
      match line.change {
        case ChangeAdded | ChangeNew =>
          rightLine := rightLine + 1;
          right := rightLine;
        case ChangeDeleted | ChangeOld =>
          leftLine := leftLine + 1;
          left := leftLine;
        case ChangeNil | ChangeUnchanged =>
          rightLine := rightLine + 1;
          leftLine := leftLine + 1;
          right := rightLine;
          left := leftLine;
      }
      lines := lines + [JsonLine(lineCount, left, right, line.indent, line.buffer, line.change, line.key, line.val)];
      entries := entries + [e];
    }

    method AddLineWith(change: Change, text: string, ghost kind: Kind)
      requires Valid()
      modifies this`line, this`lineCount, this`leftLine, this`rightLine, this`lines, this`entries
      ensures Valid()
      ensures entries == old(entries) + [Entry(kind, change, |path|, text, false, "", None)]
    {
      line := AsciiLine(change, "", None, |path|, text);
      CloseLine(Entry(kind, change, |path|, text, false, "", None));
    }

    /** newLine, printKey, print, closeLine for an opening bracket. */
    method OpenBracket(name: string, bracket: string, change: Change)
      requires Valid() && path != []
      modifies this`line, this`lineCount, this`leftLine, this`rightLine, this`lines, this`entries
      ensures Valid()
      ensures entries == old(entries) + [OpenLine(name, bracket, change, Last(inArray), |path|)]
    {
      hide Counted, KeyText, KeyOf;
      NewLine(change);
      PrintKey(name);
      PrintText(bracket);
      CloseLine(OpenLine(name, bracket, change, Last(inArray), |path|));
    }

    /** newLine, print, printComma, closeLine for a closing bracket. */
    method CloseBracket(bracket: string, change: Change)
      requires Valid() && path != []
      modifies this`size, this`line, this`lineCount, this`leftLine, this`rightLine, this`lines, this`entries
      ensures Valid()
      ensures size == WithTop(old(size), old(Last(size)) - 1)
      ensures entries == old(entries) + [DiffLines.CloseLine(bracket, change, |path|, old(Last(size)) > 1)]
    {
      hide Counted;
      NewLine(change);
      PrintText(bracket);
      PrintComma();
      CloseLine(DiffLines.CloseLine(bracket, change, |path|, old(Last(size)) > 1));
    }

    method SortKeys(m: map<string, Json>) returns (keys: seq<string>)
      ensures keys == SortedKeys(m)
    {
      StringOrderTotal();
      keys := SortSet(m.Keys, StringLess);
    }

    method SearchDeltas(deltas: seq<Delta>, at: Position) returns (results: seq<Delta>)
      ensures results == Search(deltas, at)
      ensures forall d :: d in results <==> d in deltas && d.at == at
    {
      results := [];
      var i := 0;
      while i < |deltas|
        invariant i <= |deltas|
        invariant results + Search(deltas[i..], at) == Search(deltas, at)
      {
        SearchStep(deltas, i, at);
        hide Search;
        if deltas[i].at == at {
          results := results + [deltas[i]];
        }
        i := i + 1;
      }
      assert results == Search(deltas, at);
      hide Search;
      SearchFinds(deltas, at);
    }

    method PrintRecursive(name: string, value: Json, change: Change)
      requires Valid() && path != []
      modifies this
      ensures Valid() && path == old(path) && inArray == old(inArray)
      ensures size == WithTop(old(size), old(Last(size)) - 1)
      ensures entries == old(entries) + Print(name, Order(value), change, Last(inArray), |path|, old(Last(size)) > 1)
      decreases value, 2
    {
      match value {
        case Object(_) => PrintObject(name, value, change);
        case Array(_) => PrintArray(name, value, change);
        case Leaf(s) =>
          PrintLeaf(name, s, change);
          PrintUnfolds(name, value, change, Last(inArray), |path|, old(Last(size)) > 1);
      }
    }

    method PrintObject(name: string, value: Json, change: Change)
      requires Valid() && path != [] && value.Object?
      modifies this
      ensures Valid() && path == old(path) && inArray == old(inArray)
      ensures size == WithTop(old(size), old(Last(size)) - 1)
      ensures entries == old(entries) + Print(name, Order(value), change, Last(inArray), |path|, old(Last(size)) > 1)
      decreases value, 1
    {
      hide SortedKeys, Order, Print, PrintFields, OrderFields, PrintElements, OrderItems, Counted, OpenLine,
        DiffLines.CloseLine;
      ghost var before, comma := entries, Last(size) > 1;
      OpenBracket(name, "{", change);
      Push(name, |value.members|, false);
      PrintMembers(value, change);
      Pop();
      CloseBracket("}", change);
      Bracketed(before, OpenLine(name, "{", change, Last(inArray), |path|),
        PrintFields(OrderFields(value, SortedKeys(value.members)), change, |path| + 1),
                DiffLines.CloseLine("}", change, |path|, comma));
      PrintUnfolds(name, value, change, Last(inArray), |path|, comma);
    }

    method PrintArray(name: string, value: Json, change: Change)
      requires Valid() && path != [] && value.Array?
      modifies this
      ensures Valid() && path == old(path) && inArray == old(inArray)
      ensures size == WithTop(old(size), old(Last(size)) - 1)
      ensures entries == old(entries) + Print(name, Order(value), change, Last(inArray), |path|, old(Last(size)) > 1)
      decreases value, 1
    {
      hide SortedKeys, Order, Print, PrintFields, OrderFields, PrintElements, OrderItems, Counted, OpenLine,
        DiffLines.CloseLine;
      ghost var before, comma := entries, Last(size) > 1;
      OpenBracket(name, "[", change);
      Push("", |value.items|, true);
      PrintItems(value, change);
      Pop();
      CloseBracket("]", change);
      Bracketed(before, OpenLine(name, "[", change, Last(inArray), |path|),
        PrintElements(OrderItems(value.items), change, |path| + 1),
                DiffLines.CloseLine("]", change, |path|, comma));
      PrintUnfolds(name, value, change, Last(inArray), |path|, comma);
    }

    /** The default case of printRecursive. */
    method PrintLeaf(name: string, s: Scalar, change: Change)
      requires Valid() && path != []
      modifies this`size, this`line, this`lineCount, this`leftLine, this`rightLine, this`lines, this`entries
      ensures Valid()
      ensures size == WithTop(old(size), old(Last(size)) - 1)
      ensures entries == old(entries) + [LeafLine(name, s, change, Last(inArray), |path|, old(Last(size)) > 1)]
    {
      hide KeyText, KeyOf, Render, Shown, Counted;
      ghost var text := KeyText(name, Last(inArray)) + Render(s);
      NewLine(change);
      PrintKey(name);
      PrintValue(s);
      assert text + "" == text;
      PrintComma();
      CloseLine(LeafLine(name, s, change, Last(inArray), |path|, old(Last(size)) > 1));
    }

    /** The loop of printRecursive over the sorted keys of an object. */
    method PrintMembers(value: Json, change: Change)
      requires Valid() && path != []
      requires value.Object? && Last(size) == |value.members| && !Last(inArray)
      modifies this
      ensures Valid() && path == old(path) && inArray == old(inArray)
      ensures size == WithTop(old(size), 0)
      ensures entries == old(entries) + PrintFields(OrderFields(value, SortedKeys(value.members)), change, |path|)
      decreases value, 0
    {
      hide SortedKeys, Order, Print, PrintFields, OrderFields, Counted;
      var keys := SortKeys(value.members);
      ghost var whole := PrintFields(OrderFields(value, keys), change, |path|);
      assert keys[0..] == keys;
      var i := 0;
      while i < |keys|
        invariant Valid() && path == old(path) && inArray == old(inArray)
        invariant i <= |keys| && size == WithTop(old(size), |keys| - i)
        invariant entries + PrintFields(OrderFields(value, keys[i..]), change, |path|) == old(entries) + whole
      {
        ghost var before := entries;
        PrintFieldsStep(value, keys, i, change, |path|);
        PrintRecursive(keys[i], value.members[keys[i]], change);
        Regroup(before, Print(keys[i], Order(value.members[keys[i]]), change, false, |path|, |keys| - i > 1),
                PrintFields(OrderFields(value, keys[i + 1..]), change, |path|));
        i := i + 1;
      }
      assert keys[i..] == [];
      PrintNothing(value, change, |path|);
    }

    /** The loop of printRecursive over the items of an array. */
    method PrintItems(value: Json, change: Change)
      requires Valid() && path != []
      requires value.Array? && Last(size) == |value.items| && Last(inArray)
      modifies this
      ensures Valid() && path == old(path) && inArray == old(inArray)
      ensures size == WithTop(old(size), 0)
      ensures entries == old(entries) + PrintElements(OrderItems(value.items), change, |path|)
      decreases value, 0
    {
      hide Order, Print, PrintElements, OrderItems, Counted;
      var items := value.items;
      ghost var whole := PrintElements(OrderItems(items), change, |path|);
      assert items[0..] == items;
      var i := 0;
      while i < |items|
        invariant Valid() && path == old(path) && inArray == old(inArray)
        invariant i <= |items| && size == WithTop(old(size), |items| - i)
        invariant entries + PrintElements(OrderItems(items[i..]), change, |path|) == old(entries) + whole
      {
        ghost var before := entries;
        PrintElementsStep(items, i, change, |path|);
        PrintRecursive("", items[i], change);
        Regroup(before, Print("", Order(items[i]), change, true, |path|, |items| - i > 1),
                PrintElements(OrderItems(items[i + 1..]), change, |path|));
        i := i + 1;
      }
      assert items[i..] == [];
      PrintNothing(Object(map[]), change, |path|);
    }

    method ProcessItem(value: Json, deltas: seq<Delta>, at: Position) returns (err: Option<Error>)
      requires Valid() && path != []
      requires Readable(deltas, false)
      modifies this
      ensures Valid() && path == old(path) && inArray == old(inArray)
      ensures var out := ItemOut(value, deltas, at, Last(inArray), |path|, old(Last(size)));
        size == WithTop(old(size), out.size) && entries == old(entries) + out.lines
      ensures err == FirstRefusal(Search(deltas, at), value)
      decreases Weight(deltas), 1, 0
    {
      var name := PositionString(at);
      var matched := SearchDeltas(deltas, at);
      if matched == [] {
        PrintRecursive(name, value, ChangeUnchanged);
        return None;
      }
      SearchFinds(deltas, at);
      forall d | d in matched ensures ReadableDelta(d) { ReadableAt(deltas, d); }
      err := ProcessFound(value, matched, name);
    }

    /** The loop of processItem over the matched deltas. */
    method ProcessFound(value: Json, matched: seq<Delta>, name: string) returns (err: Option<Error>)
      requires Valid() && path != []
      requires forall d :: d in matched ==> ReadableDelta(d)
      modifies this
      ensures Valid() && path == old(path) && inArray == old(inArray)
      ensures var out := FoundOut(value, matched, name, Last(inArray), |path|, old(Last(size)));
        size == WithTop(old(size), out.size) && entries == old(entries) + out.lines
      ensures err == FirstRefusal(matched, value)
      decreases Weight(matched), 0, 1
    {
      hide Order, Print, FoundOut, DeltaOut, Counted, FirstRefusal, Refusal, ReadableDelta;
      ghost var depth, inArr := |path|, Last(inArray);
      ghost var whole := FoundOut(value, matched, name, inArr, depth, Last(size));
      assert matched[0..] == matched;
      var i := 0;
      while i < |matched|
        invariant Valid() && path == old(path) && inArray == old(inArray)
        invariant i <= |matched| && size == WithTop(old(size), size[|path| - 1])
        invariant var rest := FoundOut(value, matched[i..], name, inArr, depth, Last(size));
          entries + rest.lines == old(entries) + whole.lines && rest.size == whole.size
        invariant FirstRefusal(matched[i..], value) == FirstRefusal(matched, value)
      {
        ghost var before, top := entries, Last(size);
        FoundStep(value, matched, i, name, inArr, depth, top);
        err := ProcessDelta(value, matched[i..], name, matched[i]);
        if err.Some? {
          return;
        }
        ghost var first := DeltaOut(value, matched[i..], name, inArr, depth, top);
        Regroup(before, first.lines, FoundOut(value, matched[i + 1..], name, inArr, depth, first.size).lines);
        i := i + 1;
      }
      FoundEnds(value, matched[i..], name, inArr, depth, Last(size));
      return None;
    }

    /** One round of the loop over the matched deltas. */
    method ProcessDelta(value: Json, ghost matched: seq<Delta>, name: string, d: Delta) returns (err: Option<Error>)
      requires Valid() && path != []
      requires matched != [] && d == matched[0] && ReadableDelta(d)
      modifies this
      ensures Valid() && path == old(path) && inArray == old(inArray)
      ensures err == Refusal(d, value)
      ensures err.Some? ==> size == old(size) && entries == old(entries)
      ensures err.None? ==>
        var out := DeltaOut(value, matched, name, Last(inArray), |path|, old(Last(size)));
        size == WithTop(old(size), out.size) && entries == old(entries) + out.lines
      decreases Weight(matched), 0, 0
    {
      hide Order, Print, NestedOut, Counted, Readable;
      var top := |size| - 1;
      ghost var before, comma := entries, Last(size) > 1;
      match d {
      case ObjectDelta(_, sub) =>
        if !value.Object? {
          return Some(TypeMismatch);
        }
        ProcessNested(value, sub, name);
      case ArrayDelta(_, sub) =>
        if !value.Array? {
          return Some(TypeMismatch);
        }
        ProcessNested(value, sub, name);
      case Added(_, added) =>
        PrintRecursive(name, added, ChangeAdded);
        size := size[top := size[top] + 1];
      case Modified(_, oldValue, newValue) =>
        PrintBoth(name, oldValue, newValue);
      case TextDiff(_, oldValue, newValue) =>
        PrintBoth(name, oldValue, newValue);
      case Deleted(_, deleted) =>
        PrintRecursive(name, deleted, ChangeDeleted);
      case Moved(_, _, _) =>
        return Some(UnknownDelta);
      }
      return None;
    }

    /** A matched Modified or TextDiff: both values, the size counter restored in between. */
    method PrintBoth(name: string, oldValue: Json, newValue: Json)
      requires Valid() && path != []
      modifies this
      ensures Valid() && path == old(path) && inArray == old(inArray)
      ensures size == WithTop(old(size), old(Last(size)) - 1)
      ensures var comma := old(Last(size)) > 1;
        entries == old(entries) + (Print(name, Order(oldValue), ChangeOld, Last(inArray), |path|, comma)
                                   + Print(name, Order(newValue), ChangeNew, Last(inArray), |path|, comma))
    {
      hide Order, Print, Counted;
      var top := |size| - 1;
      var savedSize := size[top];
      PrintRecursive(name, oldValue, ChangeOld);
      size := size[top := savedSize];
      PrintRecursive(name, newValue, ChangeNew);
      Regroup(old(entries), Print(name, Order(oldValue), ChangeOld, Last(inArray), |path|, savedSize > 1),
              Print(name, Order(newValue), ChangeNew, Last(inArray), |path|, savedSize > 1));
    }

    /** A matched Object or Array delta: the brackets and what is between them. */
    method ProcessNested(value: Json, sub: seq<Delta>, name: string)
      requires Valid() && path != []
      requires !value.Leaf? && Readable(sub, value.Array?)
      modifies this
      ensures Valid() && path == old(path) && inArray == old(inArray)
      ensures size == WithTop(old(size), old(Last(size)) - 1)
      ensures entries == old(entries) + NestedOut(name, value, sub, Last(inArray), |path|, old(Last(size)) > 1)
      decreases Weight(sub), 4, 0
    {
      hide BodyOut, Counted, OpenLine, DiffLines.CloseLine, Readable;
      ghost var before, comma := entries, Last(size) > 1;
      if value.Object? {
        OpenBracket(name, "{", ChangeNil);
        Push(name, |value.members|, false);
        ProcessObject(value, sub);
        Pop();
        CloseBracket("}", ChangeNil);
        Bracketed(before, OpenLine(name, "{", ChangeNil, Last(inArray), |path|), BodyOut(value, sub, |path| + 1),
                  DiffLines.CloseLine("}", ChangeNil, |path|, comma));
      } else {
        OpenBracket(name, "[", ChangeNil);
        Push(name, |value.items|, true);
        ProcessArray(value, sub);
        Pop();
        CloseBracket("]", ChangeNil);
        Bracketed(before, OpenLine(name, "[", ChangeNil, Last(inArray), |path|), BodyOut(value, sub, |path| + 1),
                  DiffLines.CloseLine("]", ChangeNil, |path|, comma));
      }
    }

    method ProcessObject(value: Json, deltas: seq<Delta>)
      requires Valid() && path != []
      requires value.Object? && Readable(deltas, false)
      requires Last(size) == |value.members| && !Last(inArray)
      modifies this
      ensures Valid() && path == old(path) && inArray == old(inArray)
      ensures size[..|size| - 1] == old(size)[..|size| - 1]
      ensures entries == old(entries) + BodyOut(value, deltas, |path|)
      decreases Weight(deltas), 3, 0
    {
      hide Order, Print, FieldsOut, ItemOut, AddedOut, Counted, SortedKeys, Search, FirstRefusal;
      var names := SortKeys(value.members);
      ghost var depth, start := |path|, entries;
      ghost var whole := FieldsOut(value, names, deltas, depth, Last(size));
      assert names[0..] == names;
      var i := 0;
      while i < |names|
        invariant Valid() && path == old(path) && inArray == old(inArray)
        invariant i <= |names| && size == WithTop(old(size), size[|path| - 1])
        invariant var rest := FieldsOut(value, names[i..], deltas, depth, Last(size));
          entries + rest.lines == old(entries) + whole.lines && rest.size == whole.size
      {
        ghost var before, top := entries, Last(size);
        FieldsStep(value, names, i, deltas, depth, top);
        var _ := ProcessItem(value.members[names[i]], deltas, Name(names[i]));
        ghost var first := ItemOut(value.members[names[i]], deltas, Name(names[i]), false, depth, top);
        Regroup(before, first.lines, FieldsOut(value, names[i + 1..], deltas, depth, first.size).lines);
        i := i + 1;
      }
      assert names[i..] == [];
      WalkEnds(value, [], deltas, depth, Last(size));
      PrintAdded(deltas, false, 0);
      Regroup(old(entries), whole.lines, AddedOut(deltas, false, 0, depth, whole.size).lines);
    }

    method ProcessArray(value: Json, deltas: seq<Delta>)
      requires Valid() && path != []
      requires value.Array? && Readable(deltas, true)
      requires Last(size) == |value.items| && Last(inArray)
      modifies this
      ensures Valid() && path == old(path) && inArray == old(inArray)
      ensures size[..|size| - 1] == old(size)[..|size| - 1]
      ensures entries == old(entries) + BodyOut(value, deltas, |path|)
      decreases Weight(deltas), 3, 0
    {
      hide Order, Print, ElementsOut, ItemOut, AddedOut, Counted, Search, FirstRefusal;
      var items := value.items;
      ghost var depth := |path|;
      ghost var whole := ElementsOut(items, 0, deltas, depth, Last(size));
      var i := 0;
      while i < |items|
        invariant Valid() && path == old(path) && inArray == old(inArray)
        invariant i <= |items| && size == WithTop(old(size), size[|path| - 1])
        invariant var rest := ElementsOut(items, i, deltas, depth, Last(size));
          entries + rest.lines == old(entries) + whole.lines && rest.size == whole.size
      {
        ghost var before, top := entries, Last(size);
        ElementsStep(items, i, deltas, depth, top);
        var _ := ProcessItem(items[i], deltas, Index(i));
        ghost var first := ItemOut(items[i], deltas, Index(i), true, depth, top);
        Regroup(before, first.lines, ElementsOut(items, i + 1, deltas, depth, first.size).lines);
        i := i + 1;
      }
      WalkEnds(Object(map[]), items, deltas, depth, Last(size));
      PrintAdded(deltas, true, |items|);
      Regroup(old(entries), whole.lines, AddedOut(deltas, true, |items|, depth, whole.size).lines);
    }

    /** The second loop of processObject and of processArray. */
    method PrintAdded(deltas: seq<Delta>, ofArray: bool, length: nat)
      requires Valid() && path != [] && ofArray == Last(inArray)
      requires Readable(deltas, ofArray)
      modifies this
      ensures Valid() && path == old(path) && inArray == old(inArray)
      ensures size[..|size| - 1] == old(size)[..|size| - 1]
      ensures entries == old(entries) + AddedOut(deltas, ofArray, length, |path|, old(Last(size))).lines
    {
      hide Order, Print, AddedOut, Counted;
      ghost var depth := |path|;
      ghost var whole := AddedOut(deltas, ofArray, length, depth, Last(size));
      assert deltas[0..] == deltas;
      var i := 0;
      while i < |deltas|
        invariant Valid() && path == old(path) && inArray == old(inArray)
        invariant i <= |deltas| && size == WithTop(old(size), size[|path| - 1])
        invariant entries + AddedOut(deltas[i..], ofArray, length, depth, Last(size)).lines
          == old(entries) + whole.lines
      {
        var d := deltas[i];
        ghost var before, top := entries, Last(size);
        AddedStep(deltas, i, ofArray, length, depth, top);
        i := i + 1;
        if d.Added? {
          if ofArray && d.at.index < length {
            continue;
          }
          PrintRecursive(PositionString(d.at), d.added, ChangeAdded);
          Regroup(before, Print(PositionString(d.at), Order(d.added), ChangeAdded, ofArray, depth, top > 1),
                  AddedOut(deltas[i..], ofArray, length, depth, top - 1).lines);
        }
      }
      assert deltas[i..] == [];
      AddedEnds(ofArray, length, depth, Last(size));
    }

    /** Format, up to the HTML template. */
    method Format(left: Json, deltas: seq<Delta>) returns (err: Option<Error>)
      requires Valid() && path == []
      requires Readable(deltas, left.Array?)
      modifies this
      ensures Valid() && path == [] && size == [] && inArray == []
      ensures err == if left.Leaf? then Some(UnexpectedRoot) else None
      ensures entries == if left.Leaf? then old(entries) else old(entries) + DiffEntries(left, deltas)
    {
      hide BodyOut, Counted, Readable;
      ghost var before := entries;
      match left
      case Object(m) =>
        assert "" + "{" == "{";
        AddLineWith(ChangeNil, "{", Open);
        Push("ROOT", |m|, false);
        ProcessObject(left, deltas);
        Pop();
        AddLineWith(ChangeNil, "}", Close);
        Bracketed(before, OpenLine("", "{", ChangeNil, true, 0), BodyOut(left, deltas, 1),
                  DiffLines.CloseLine("}", ChangeNil, 0, false));
        return None;
      case Array(items) =>
        assert "" + "[" == "[";
        AddLineWith(ChangeNil, "[", Open);
        Push("ROOT", |items|, true);
        ProcessArray(left, deltas);
        Pop();
        AddLineWith(ChangeNil, "]", Close);
        Bracketed(before, OpenLine("", "[", ChangeNil, true, 0), BodyOut(left, deltas, 1),
                  DiffLines.CloseLine("]", ChangeNil, 0, false));
        return None;
      case Leaf(_) =>
        return Some(UnexpectedRoot);
    }
  }
}
