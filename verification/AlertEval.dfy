/** Evaluating an alert rule: the fold over its conditions, the text that explains the result,
    and the state that follows. */
module AlertEval {
  import opened Collections
  import opened Options
  import opened AlertTable

  datatype ConditionResult = ConditionResult(firing: bool, noDataFound: bool, operator: string, matches: seq<string>)

  /** What evaluating a condition yields. */
  datatype Outcome = Evaluated(result: ConditionResult) | Failed(error: string)

  // ---------- the fold

  /** The conditions evaluated before the first error. */
  function Prefix(outcomes: seq<Outcome>): seq<ConditionResult> {
    if outcomes == [] || outcomes[0].Failed? then [] else [outcomes[0].result] + Prefix(outcomes[1..])
  }

  function FirstError(outcomes: seq<Outcome>): Option<string> {
    if outcomes == [] then None
    else if outcomes[0].Failed? then Some(outcomes[0].error)
    else FirstError(outcomes[1..])
  }

  /** "or" is or; every other operator is and. */
  function Combine(operator: string, a: bool, b: bool): bool {
    if operator == "or" then a || b else a && b
  }

  function Firing(rs: seq<ConditionResult>): bool {
    if rs == [] then true else Combine(Last(rs).operator, Firing(Front(rs)), Last(rs).firing)
  }

  function NoData(rs: seq<ConditionResult>): bool {
    if rs == [] then true else Combine(Last(rs).operator, NoData(Front(rs)), Last(rs).noDataFound)
  }

  function Matched(rs: seq<ConditionResult>): seq<string> {
    if rs == [] then [] else Matched(Front(rs)) + Last(rs).matches
  }

  function Front<T>(s: seq<T>): seq<T>
    requires s != []
  {
    s[..|s| - 1]
  }

  /** The prefix is what comes before the first failure, and the error is that of the failure. */
  lemma {:induction false} PrefixExactly(outcomes: seq<Outcome>)
    ensures var rs, n := Prefix(outcomes), |Prefix(outcomes)|;
      && n <= |outcomes| && (forall i :: 0 <= i < n ==> outcomes[i] == Evaluated(rs[i]))
      && (if n == |outcomes| then FirstError(outcomes) == None
          else outcomes[n].Failed? && FirstError(outcomes) == Some(outcomes[n].error))
  {
    if outcomes != [] && outcomes[0].Evaluated? {
      PrefixExactly(outcomes[1..]);
      forall i | 0 <= i < |Prefix(outcomes)| ensures outcomes[i] == Evaluated(Prefix(outcomes)[i]) {
        if i > 0 { assert outcomes[i] == outcomes[1..][i - 1]; }
      }
    }
  }

  /** A condition of those given says no, and is not an "or". */
  predicate Denies(rs: seq<ConditionResult>, says: seq<bool>, j: int)
    requires |says| == |rs|
  {
    0 <= j < |rs| && rs[j].operator != "or" && !says[j]
  }

  predicate Grants(rs: seq<ConditionResult>, says: seq<bool>, k: int)
    requires |says| == |rs|
  {
    0 <= k < |rs| && rs[k].operator == "or" && says[k]
  }

  /** Every condition that says no, and is not an "or", is followed by an "or" that says yes. */
  ghost predicate Passes(rs: seq<ConditionResult>, says: seq<bool>)
    requires |says| == |rs|
  {
    forall j :: Denies(rs, says, j) ==> exists k :: j < k && Grants(rs, says, k)
  }

  lemma PassesStep(rs: seq<ConditionResult>, says: seq<bool>)
    requires |says| == |rs| > 0
    ensures var n := |rs| - 1;
      Passes(rs, says) <==>
        if rs[n].operator == "or" then Passes(rs[..n], says[..n]) || says[n] else Passes(rs[..n], says[..n]) && says[n]
  {
    var n := |rs| - 1;
    var front, before := rs[..n], says[..n];
    assert forall j :: j != n ==> (Denies(front, before, j) <==> Denies(rs, says, j));
    assert forall k :: k != n ==> (Grants(front, before, k) <==> Grants(rs, says, k));
    assert !Denies(front, before, n) && !Grants(front, before, n);
    if Passes(rs, says) && !Passes(front, before) {
      var j :| Denies(front, before, j) && forall k :: j < k ==> !Grants(front, before, k);
      assert Denies(rs, says, j);
      var k :| j < k && Grants(rs, says, k);
      assert k == n;
    }
    if says[n] && rs[n].operator == "or" {
      assert Grants(rs, says, n);
    }
    if Passes(front, before) && !Denies(rs, says, n) {
      forall j | Denies(rs, says, j) ensures exists k :: j < k && Grants(rs, says, k) {
        var k :| j < k && Grants(front, before, k);
        assert Grants(rs, says, k);
      }
    }
  }

  function Fired(rs: seq<ConditionResult>): (says: seq<bool>)
    ensures |says| == |rs| && forall i :: 0 <= i < |rs| ==> says[i] == rs[i].firing
  {
    seq(|rs|, i requires 0 <= i < |rs| => rs[i].firing)
  }

  function LackedData(rs: seq<ConditionResult>): (says: seq<bool>)
    ensures |says| == |rs| && forall i :: 0 <= i < |rs| ==> says[i] == rs[i].noDataFound
  {
    seq(|rs|, i requires 0 <= i < |rs| => rs[i].noDataFound)
  }

  /** Exactly when a rule fires: every condition that does not, and is not an "or", is followed by an
      "or" that does. */
  lemma {:induction false} FiringExactly(rs: seq<ConditionResult>)
    ensures Firing(rs) <==> Passes(rs, Fired(rs))
    decreases |rs|
  {
    if rs != [] {
      var n := |rs| - 1;
      FiringExactly(rs[..n]);
      assert Fired(rs)[..n] == Fired(rs[..n]);
      PassesStep(rs, Fired(rs));
      hide Passes;
    }
  }

  /** Exactly when no data is reported: the same, for conditions that find none. */
  lemma {:induction false} NoDataExactly(rs: seq<ConditionResult>)
    ensures NoData(rs) <==> Passes(rs, LackedData(rs))
    decreases |rs|
  {
    if rs != [] {
      var n := |rs| - 1;
      NoDataExactly(rs[..n]);
      assert LackedData(rs)[..n] == LackedData(rs[..n]);
      PassesStep(rs, LackedData(rs));
      hide Passes;
    }
  }

  /** The matches of all conditions, in their order. */
  lemma {:induction false} MatchedConcat(a: seq<ConditionResult>, b: seq<ConditionResult>)
    ensures Matched(a + b) == Matched(a) + Matched(b)
    ensures |b| == 1 ==> Matched(b) == b[0].matches
    decreases |b|
  {
    if b == [] {
      assert a + b == a;
    } else {
      MatchedConcat(a, Front(b));
      assert Front(a + b) == a + Front(b) && Last(a + b) == Last(b);
      if |b| == 1 { assert Front(b) == [] && Last(b) == b[0]; }
    }
  }

  // ---------- the text

  function FormatBool(b: bool): string {
    if b then "true" else "false"
  }

  function UpperChar(c: char): char {
    if 'a' <= c <= 'z' then c - 'a' + 'A' else c
  }

  function ToUpper(s: string): (r: string)
    ensures |r| == |s| && forall i :: 0 <= i < |s| ==> r[i] == UpperChar(s[i])
  {
    seq(|s|, i requires 0 <= i < |s| => UpperChar(s[i]))
  }

  function Text(rs: seq<ConditionResult>): string {
    if rs == [] then ""
    else if |rs| == 1 then FormatBool(Firing(rs))
    else "[" + Text(Front(rs)) + " " + ToUpper(Last(rs).operator) + " " + FormatBool(Last(rs).firing) + "]"
  }

  /** The whole of conditionEvals. */
  function Evals(rs: seq<ConditionResult>): string {
    Text(rs) + " = " + FormatBool(Firing(rs))
  }

  // ---------- reading the text back

  /** Where the last space is. */
  function LastSpace(s: string): (r: Option<nat>)
    ensures r.Some? ==> r.value < |s| && s[r.value] == ' ' && forall i :: r.value < i < |s| ==> s[i] != ' '
    ensures r.None? ==> ' ' !in s
  {
    if s == "" then None
    else if s[|s| - 1] == ' ' then Some(|s| - 1)
    else LastSpace(s[..|s| - 1])
  }

  function ParseBool(s: string): Option<bool> {
    if s == "true" then Some(true) else if s == "false" then Some(false) else None
  }

  /** The value of a text: a truth value, or `[text OPERATOR truth]` where OR is or and every
      other word is and. */
  function Read(s: string): Option<bool>
    decreases |s|
  {
    if s == "" || s[0] != '[' then ParseBool(s)
    else if s[|s| - 1] != ']' then None
    else ReadInner(s[1..|s| - 1])
  }

  function ReadInner(inner: string): Option<bool>
    decreases |inner|
  {
    var j := LastSpace(inner);
    if j.None? then None
    else
      var k := LastSpace(inner[..j.value]);
      if k.None? then None
      else
        var left, right := Read(inner[..k.value]), ParseBool(inner[j.value + 1..]);
        if left.None? || right.None? then None
        else if inner[k.value + 1..j.value] == "OR" then Some(left.value || right.value)
        else Some(left.value && right.value)
  }

  /** Both sides of `text = truth`. */
  function ReadEvals(s: string): Option<(bool, bool)> {
    var j := LastSpace(s);
    if j.None? then None
    else
      var k := LastSpace(s[..j.value]);
      if k.None? || s[k.value + 1..j.value] != "=" then None
      else
        var left, right := Read(s[..k.value]), ParseBool(s[j.value + 1..]);
        if left.None? || right.None? then None else Some((left.value, right.value))
  }

  /** Operators whose meaning survives being shown in upper case: one word, and not "or"
      in another spelling. */
  predicate Readable(operator: string) {
    ' ' !in operator && (ToUpper(operator) == "OR" ==> operator == "or")
  }

  lemma SplitAtLastSpace(a: string, b: string)
    requires ' ' !in b
    ensures LastSpace(a + " " + b) == Some(|a|)
    ensures (a + " " + b)[..|a|] == a && (a + " " + b)[|a| + 1..] == b
  {
    var s := a + " " + b;
    assert s[|a|] == ' ' && s[|a| + 1..] == b;
    assert forall i :: |a| < i < |s| ==> s[i] == b[i - |a| - 1];
    hide *;
    LastSpaceIs(s, |a|);
  }

  lemma LastSpaceIs(s: string, k: nat)
    requires k < |s| && s[k] == ' ' && forall i :: k < i < |s| ==> s[i] != ' '
    ensures LastSpace(s) == Some(k)
  {
    hide LastSpace;
    assert s[k] in s;
  }

  lemma UpperHasNoSpace(s: string)
    ensures ' ' in ToUpper(s) <==> ' ' in s
  {
    var r := ToUpper(s);
    if ' ' in s {
      var i :| 0 <= i < |s| && s[i] == ' ';
      assert r[i] == ' ';
    }
    if i :| 0 <= i < |r| && r[i] == ' ' {
      assert s[i] == ' ';
    }
  }

  /** A bracketed text splits into its three parts when the operator is one word. */
  lemma ReadBracket(left: string, word: string, right: bool)
    requires ' ' !in word
    ensures var l, s := Read(left), "[" + left + " " + word + " " + FormatBool(right) + "]";
      Read(s) == if l.None? then None else Some(if word == "OR" then l.value || right else l.value && right)
  {
    var inner := left + " " + word + " " + FormatBool(right);
    var s := "[" + left + " " + word + " " + FormatBool(right) + "]";
    InnerSplits(left, word, right);
    Bracketed(inner);
    hide Read, ReadInner, LastSpace, FormatBool;
    Regroup("[", left, " ");
    Regroup("[", left + " ", word);
    Regroup("[", left + " " + word, " ");
    Regroup("[", left + " " + word + " ", FormatBool(right));
  }

  lemma Bracketed(inner: string)
    ensures Read("[" + inner + "]") == ReadInner(inner)
  {
    var s := "[" + inner + "]";
    hide ReadInner, LastSpace;
    assert s[1..|s| - 1] == inner;
  }

  lemma InnerSplits(left: string, word: string, right: bool)
    requires ' ' !in word
    ensures var l := Read(left);
      ReadInner(left + " " + word + " " + FormatBool(right)) == if l.None? then None
        else Some(if word == "OR" then l.value || right else l.value && right)
  {
    var b := FormatBool(right);
    var inner := left + " " + word + " " + b;
    SplitAtLastSpace(left + " " + word, b);
    SplitAtLastSpace(left, word);
    hide Read, LastSpace;
    assert inner[..|left + " " + word|] == left + " " + word;
    assert inner[|left| + 1..|left + " " + word|] == word;
    assert inner[..|left|] == left;
    assert inner[|left + " " + word| + 1..] == b;
    assert ParseBool(b) == Some(right);
  }

  lemma {:induction false} ReadText(rs: seq<ConditionResult>)
    requires rs != [] && forall i :: 0 < i < |rs| ==> Readable(rs[i].operator)
    ensures Read(Text(rs)) == Some(Firing(rs))
    decreases |rs|
  {
    hide *;
    if |rs| == 1 {
      TextOne(rs);
    } else {
      TextMore(rs);
      ReadText(Front(rs));
      ReadBracket(Text(Front(rs)), ToUpper(Last(rs).operator), Last(rs).firing);
    }
  }

  lemma TextOne(rs: seq<ConditionResult>)
    requires |rs| == 1
    ensures Read(Text(rs)) == Some(Firing(rs))
  {
    assert Text(rs) == FormatBool(Firing(rs));
  }

  lemma TextMore(rs: seq<ConditionResult>)
    requires |rs| > 1 && forall i :: 0 < i < |rs| ==> Readable(rs[i].operator)
    ensures 0 < |Front(rs)| < |rs| && forall i :: 0 < i < |Front(rs)| ==> Readable(Front(rs)[i].operator)
    ensures var front, word, right := Front(rs), ToUpper(Last(rs).operator), Last(rs).firing;
      && ' ' !in word
      && Text(rs) == "[" + Text(front) + " " + word + " " + FormatBool(right) + "]"
      && Firing(rs) == if word == "OR" then Firing(front) || right else Firing(front) && right
  {
    UpperHasNoSpace(Last(rs).operator);
    assert ToUpper("or") == "OR";
  }

  /** The text agrees with the result: for every non-empty evaluated prefix, reading the
      brackets gives the value printed after the equals sign. */
  lemma TextAgrees(rs: seq<ConditionResult>)
    requires rs != [] && forall i :: 0 < i < |rs| ==> Readable(rs[i].operator)
    ensures ReadEvals(Evals(rs)) == Some((Firing(rs), Firing(rs)))
  {
    ReadText(rs);
    SplitEvals(Text(rs), Firing(rs));
  }

  lemma SplitEvals(text: string, b: bool)
    ensures var s := text + " = " + FormatBool(b);
      ReadEvals(s) == if Read(text).None? then None else Some((Read(text).value, b))
  {
    hide LastSpace, Read;
    var s := text + " = " + FormatBool(b);
    assert s == text + " " + "=" + " " + FormatBool(b);
    SplitAtLastSpace(text + " " + "=", FormatBool(b));
    SplitAtLastSpace(text, "=");
    assert s[|text| + 1..|text + " " + "="|] == "=";
    assert s[..|text|] == text;
  }

  // ---------- what the text spells out

  /** The truth values and the words before them, in order; the first has none. */
  function Spelled(s: string): Option<seq<(string, bool)>>
    decreases |s|
  {
    if s == "" || s[0] != '[' then
      var b := ParseBool(s);
      if b.None? then None else Some([("", b.value)])
    else if s[|s| - 1] != ']' then None
    else SpelledInner(s[1..|s| - 1])
  }

  function SpelledInner(inner: string): Option<seq<(string, bool)>>
    decreases |inner|
  {
    var j := LastSpace(inner);
    if j.None? then None
    else
      var k := LastSpace(inner[..j.value]);
      if k.None? then None
      else
        var left, right := Spelled(inner[..k.value]), ParseBool(inner[j.value + 1..]);
        if left.None? || right.None? then None else Some(left.value + [(inner[k.value + 1..j.value], right.value)])
  }

  lemma SpelledSplits(left: string, word: string, right: bool)
    requires ' ' !in word
    ensures var l := Spelled(left);
      SpelledInner(left + " " + word + " " + FormatBool(right)) ==
        if l.None? then None else Some(l.value + [(word, right)])
  {
    var b := FormatBool(right);
    var inner := left + " " + word + " " + b;
    SplitAtLastSpace(left + " " + word, b);
    SplitAtLastSpace(left, word);
    hide Spelled, LastSpace;
    assert inner[..|left + " " + word|] == left + " " + word;
    assert inner[|left| + 1..|left + " " + word|] == word;
    assert inner[..|left|] == left;
    assert inner[|left + " " + word| + 1..] == b;
    assert ParseBool(b) == Some(right);
  }

  lemma SpelledBracket(left: string, word: string, right: bool)
    requires ' ' !in word
    ensures var l, s := Spelled(left), "[" + left + " " + word + " " + FormatBool(right) + "]";
      Spelled(s) == if l.None? then None else Some(l.value + [(word, right)])
  {
    var inner := left + " " + word + " " + FormatBool(right);
    var s := "[" + left + " " + word + " " + FormatBool(right) + "]";
    SpelledSplits(left, word, right);
    SpelledInside(inner);
    hide Spelled, SpelledInner, LastSpace, FormatBool;
    Regroup("[", left, " ");
    Regroup("[", left + " ", word);
    Regroup("[", left + " " + word, " ");
    Regroup("[", left + " " + word + " ", FormatBool(right));
  }

  lemma SpelledInside(inner: string)
    ensures Spelled("[" + inner + "]") == SpelledInner(inner)
  {
    var s := "[" + inner + "]";
    hide SpelledInner, LastSpace;
    assert s[1..|s| - 1] == inner;
  }

  lemma SpellOne(rs: seq<ConditionResult>)
    requires |rs| == 1
    ensures Spelled(Text(rs)) == Some([("", rs[0].operator == "or" || rs[0].firing)])
  {
    assert Front(rs) == [] && Text(rs) == FormatBool(Firing(rs));
  }

  lemma SpellMore(rs: seq<ConditionResult>)
    requires |rs| > 1 && forall i :: 0 < i < |rs| ==> ' ' !in rs[i].operator
    ensures 0 < |Front(rs)| < |rs| && forall i :: 0 < i < |Front(rs)| ==> ' ' !in Front(rs)[i].operator
    ensures forall i :: 0 <= i < |Front(rs)| ==> Front(rs)[i] == rs[i]
    ensures ' ' !in ToUpper(Last(rs).operator) && Last(rs) == rs[|rs| - 1] && |Front(rs)| == |rs| - 1
    ensures Text(rs)
      == "[" + Text(Front(rs)) + " " + ToUpper(Last(rs).operator) + " " + FormatBool(Last(rs).firing) + "]"
  {
    UpperHasNoSpace(Last(rs).operator);
    hide ToUpper;
  }

  /** The text names every condition evaluated, in order: its operator in upper case and whether it
      fires. Of the first it says whether the rule would fire with that one alone. */
  lemma {:induction false} TextSpellsOut(rs: seq<ConditionResult>)
    requires rs != [] && forall i :: 0 < i < |rs| ==> ' ' !in rs[i].operator
    ensures var words := Spelled(Text(rs));
      && words.Some? && |words.value| == |rs|
      && words.value[0] == ("", rs[0].operator == "or" || rs[0].firing)
      && forall i :: 0 < i < |rs| ==> words.value[i] == (ToUpper(rs[i].operator), rs[i].firing)
    decreases |rs|
  {
    hide *;
    if |rs| == 1 {
      SpellOne(rs);
    } else {
      SpellMore(rs);
      TextSpellsOut(Front(rs));
      SpelledBracket(Text(Front(rs)), ToUpper(Last(rs).operator), Last(rs).firing);
    }
  }

  /** Two conditions joined by an operator. */
  function Pair(a: bool, operator: string, b: bool): seq<ConditionResult> {
    [ConditionResult(a, false, "and", []), ConditionResult(b, false, operator, [])]
  }

  /** Exactly which operators the text can be trusted with. */
  lemma OperatorAgrees(operator: string)
    ensures (forall a, b ::
      ReadEvals(Evals(Pair(a, operator, b))) == Some((Firing(Pair(a, operator, b)), Firing(Pair(a, operator, b)))))
       <==> Readable(operator)
  {
    if Readable(operator) {
      forall a, b
        ensures ReadEvals(Evals(Pair(a, operator, b)))
             == Some((Firing(Pair(a, operator, b)), Firing(Pair(a, operator, b))))
      {
        TextAgrees(Pair(a, operator, b));
      }
    } else {
      Disagrees(operator);
    }
  }

  lemma Disagrees(operator: string)
    requires !Readable(operator)
    ensures var rs := Pair(true, operator, false); ReadEvals(Evals(rs)) != Some((Firing(rs), Firing(rs)))
  {
    var rs, word := Pair(true, operator, false), ToUpper(operator);
    UpperHasNoSpace(operator);
    assert Front(rs) == [ConditionResult(true, false, "and", [])];
    assert Front(Front(rs)) == [] && Firing(Front(rs));
    assert Last(rs).operator == operator;
    assert Text(rs) == "[" + "true" + " " + word + " " + "false" + "]";
    SplitEvals(Text(rs), Firing(rs));
    if ' ' in operator {
      UnreadableWord(word);
    } else {
      ReadBracket("true", word, false);
    }
  }

  /** An operator of two words leaves a text that cannot be read. */
  lemma UnreadableWord(word: string)
    requires ' ' in word
    ensures Read("[" + "true" + " " + word + " " + "false" + "]").None?
  {
    hide LastSpace;
    var s := "[" + "true" + " " + word + " " + "false" + "]";
    var k := LastSpace(word).value;
    var left, last := "true" + " " + word[..k], word[k + 1..];
    assert word == word[..k] + " " + last;
    assert s == "[" + left + " " + last + " " + FormatBool(false) + "]";
    assert left[0] == 't' && left[4] == ' ';
    ReadBracket(left, last, false);
  }

  /** When the first condition fails there is no text, and the result printed is true. */
  lemma NothingEvaluated(outcomes: seq<Outcome>)
    requires outcomes != [] && outcomes[0].Failed?
    ensures Evals(Prefix(outcomes)) == " = true" && FirstError(outcomes) == Some(outcomes[0].error)
  {
  }

  // ---------- the new state

  const OK: AlertState := "ok"
  const ALERTING: AlertState := "alerting"
  const KEEP_STATE := "keep_state"

  function NewState(error: Option<string>, firing: bool, noData: bool, prev: AlertState, noDataState: string,
    executionErrorState: string): AlertState {
    if error.Some? then if executionErrorState == KEEP_STATE then prev else executionErrorState
    else if firing then ALERTING
    else if noData then if noDataState == KEEP_STATE then prev else noDataState
    else OK
  }

  /** No operator but that of the first condition loses its meaning in the text. */
  predicate AllReadable(outcomes: seq<Outcome>) {
    forall i :: 0 < i < |outcomes| && outcomes[i].Evaluated? ==> Readable(outcomes[i].result.operator)
  }

  lemma PrefixFrom(outcomes: seq<Outcome>, i: nat)
    requires i < |outcomes|
    ensures Prefix(outcomes[i..]) == if outcomes[i].Failed? then []
      else [outcomes[i].result] + Prefix(outcomes[i + 1..])
    ensures FirstError(outcomes[i..]) == if outcomes[i].Failed? then Some(outcomes[i].error)
      else FirstError(outcomes[i + 1..])
  {
    assert outcomes[i..][0] == outcomes[i] && outcomes[i..][1..] == outcomes[i + 1..];
  }

  lemma EvalsIs(rs: seq<ConditionResult>)
    ensures Evals(rs) == Text(rs) + " = " + FormatBool(Firing(rs))
  {
  }

  /** How one more condition changes each fold. */
  lemma OneMore(rs: seq<ConditionResult>, cr: ConditionResult)
    ensures Firing(rs + [cr]) == Combine(cr.operator, Firing(rs), cr.firing)
    ensures NoData(rs + [cr]) == Combine(cr.operator, NoData(rs), cr.noDataFound)
    ensures Matched(rs + [cr]) == Matched(rs) + cr.matches
    ensures Text(rs + [cr]) == if rs == [] then FormatBool(Firing(rs + [cr]))
                               else "[" + Text(rs) + " " + ToUpper(cr.operator) + " " + FormatBool(cr.firing) + "]"
  {
    assert Front(rs + [cr]) == rs && Last(rs + [cr]) == cr;
  }

  class Rule {
    const id: int
    const noDataState: string
    const executionErrorState: string
    var state: AlertState

    constructor (id: int, noDataState: string, executionErrorState: string, state: AlertState)
      ensures this.id == id && this.noDataState == noDataState && this.executionErrorState == executionErrorState &&
        this.state == state
    {
      this.id, this.noDataState, this.executionErrorState, this.state := id, noDataState, executionErrorState, state;
    }
  }

  class EvalContext {
    const rule: Rule
    const prevAlertState: AlertState
    var firing: bool
    var noDataFound: bool
    var error: Option<string>
    var conditionEvals: string
    var evalMatches: seq<string>

    constructor (rule: Rule)
      ensures this.rule == rule && prevAlertState == rule.state && error == None && evalMatches == []
    {
      this.rule, prevAlertState := rule, rule.state;
      firing, noDataFound, error, conditionEvals, evalMatches := false, false, None, "", [];
    }

    predicate ShouldUpdateAlertState()
      reads this, rule
    {
      rule.state != prevAlertState
    }

    predicate ShouldSendNotification()
      reads this, rule
    {
      !(prevAlertState == PENDING && rule.state == OK)
    }
  }

  class EvalHandler {
    constructor () {
    }

    /** Eval of a fresh context whose conditions yield the given outcomes. */
    method Eval(context: EvalContext, outcomes: seq<Outcome>)
      requires context.error == None && context.evalMatches == []
      modifies context, context.rule`state
      ensures context.error == FirstError(outcomes)
      ensures context.firing == Firing(Prefix(outcomes)) && context.noDataFound == NoData(Prefix(outcomes))
      ensures context.conditionEvals == Evals(Prefix(outcomes))
      ensures context.evalMatches == Matched(Prefix(outcomes))
      ensures context.rule.state
        == NewState(context.error, context.firing, context.noDataFound, context.prevAlertState,
          context.rule.noDataState, context.rule.executionErrorState)
      ensures context.error.Some? ==>
        context.rule.state == if context.rule.executionErrorState == "keep_state" then context.prevAlertState
                              else context.rule.executionErrorState
      ensures context.error.None? && outcomes != [] && AllReadable(outcomes) ==>
        var read := ReadEvals(context.conditionEvals);
        && read.Some? && read.value.0 == read.value.1 == context.firing
        && context.rule.state ==
             if read.value.0 then "alerting"
             else if !context.noDataFound then "ok"
             else if context.rule.noDataState == "keep_state" then context.prevAlertState
             else context.rule.noDataState
    {
      PrefixExactly(outcomes);
      if FirstError(outcomes).None? && outcomes != [] && AllReadable(outcomes) {
        TextAgrees(Prefix(outcomes));
      }
      hide Prefix, FirstError, Firing, NoData, Evals, Matched, ReadEvals, Text;
      var firing, noDataFound, conditionEvals := EvalConditions(context, outcomes);
      context.conditionEvals := conditionEvals + " = " + FormatBool(firing);
      context.firing := firing;
      context.noDataFound := noDataFound;
      EvalsIs(Prefix(outcomes));
      var state := GetNewState(context);
      context.rule.state := state;
    }

    method EvalConditions(context: EvalContext, outcomes: seq<Outcome>)
      returns (firing: bool, noDataFound: bool, conditionEvals: string)
      requires context.error == None && context.evalMatches == []
      modifies context`error, context`evalMatches
      ensures context.error == FirstError(outcomes)
      ensures firing == Firing(Prefix(outcomes)) && noDataFound == NoData(Prefix(outcomes))
      ensures conditionEvals == Text(Prefix(outcomes))
      ensures context.evalMatches == Matched(Prefix(outcomes))
    {
      firing, noDataFound, conditionEvals := true, true, "";
      var i := 0;
      ghost var rs: seq<ConditionResult> := [];
      while i < |outcomes|
        invariant i <= |outcomes| && |rs| == i && context.error == None
        invariant Prefix(outcomes) == rs + Prefix(outcomes[i..]) && FirstError(outcomes) == FirstError(outcomes[i..])
        invariant firing == Firing(rs) && noDataFound == NoData(rs) && conditionEvals == Text(rs)
        invariant context.evalMatches == Matched(rs)
      {
        PrefixFrom(outcomes, i);
        hide Prefix, FirstError, ToUpper;
        if outcomes[i].Failed? {
          context.error := Some(outcomes[i].error);
          break;
        }
        var cr := outcomes[i].result;
        OneMore(rs, cr);
        Regroup(rs, [cr], Prefix(outcomes[i + 1..]));
        hide Firing, NoData, Text, Matched;
        rs := rs + [cr];
        if cr.operator == "or" {
          firing := firing || cr.firing;
          noDataFound := noDataFound || cr.noDataFound;
        } else {
          firing := firing && cr.firing;
          noDataFound := noDataFound && cr.noDataFound;
        }
        if i > 0 {
          conditionEvals := "[" + conditionEvals + " " + ToUpper(cr.operator) + " " + FormatBool(cr.firing) + "]";
        } else {
          conditionEvals := FormatBool(firing);
        }
        context.evalMatches := context.evalMatches + cr.matches;
        i := i + 1;
      }
      assert Prefix(outcomes) == rs;
    }

    method GetNewState(context: EvalContext) returns (state: AlertState)
      ensures state
        == NewState(context.error, context.firing, context.noDataFound, context.prevAlertState,
          context.rule.noDataState, context.rule.executionErrorState)
    {
      if context.error != None {
        if context.rule.executionErrorState == KEEP_STATE {
          return context.prevAlertState;
        }
        return context.rule.executionErrorState;
      } else if context.firing {
        return ALERTING;
      } else if context.noDataFound {
        if context.rule.noDataState == KEEP_STATE {
          return context.prevAlertState;
        }
        return context.rule.noDataState;
      }
      return OK;
    }
  }
}
