/** What is done with an evaluation's result, and how alerts behave over whole runs of
    evaluations, pauses, dashboard saves and deletions. */
module AlertRuns {
  import opened Options
  import opened AlertTable
  import opened AlertEval

  /** The effects of handling results, in order: a change accepted by the alert table (`from`
      is the row's state before it), a change lost because the alert has no row, an annotation,
      a notification. */
  datatype Entry =
    | Accepted(id: int, from: AlertState, to: AlertState)
    | Lost(id: int, to: AlertState)
    | Annotated(id: int, prev: AlertState, to: AlertState)
    | Notified(id: int, prev: AlertState, to: AlertState)

  /** What a handler reads of an evaluated context. */
  datatype Verdict = Verdict(id: int, prev: AlertState, state: AlertState, error: Option<string>)

  function ExecutionError(error: Option<string>): string {
    if error.Some? then error.value else ""
  }

  predicate Silences(refusal: Option<Error>) {
    refusal == Some(CannotChangeStateOnPausedAlert) || refusal == Some(RequiresNewState)
  }

  function Notice(v: Verdict): seq<Entry> {
    if v.prev == PENDING && v.state == OK then [] else [Notified(v.id, v.prev, v.state)]
  }

  function Entries(rows: Rows, v: Verdict): seq<Entry> {
    if v.state == v.prev || Silences(Refusal(rows, v.id, v.state)) then []
    else [if v.id in rows then Accepted(v.id, rows[v.id].state, v.state)
      else Lost(v.id, v.state), Annotated(v.id, v.prev, v.state)] + Notice(v)
  }

  function Handled(rows: Rows, v: Verdict): Rows {
    if v.state == v.prev then rows else StateSet(rows, v.id, v.state, ExecutionError(v.error))
  }

  class ResultHandler {
    const store: AlertStore
    var log: seq<Entry>

    constructor (store: AlertStore)
      ensures this.store == store && log == []
    {
      this.store, log := store, [];
    }

    /** Handle. Failing to find the alert's row is only logged. */
    method Handle(context: EvalContext) returns (err: Option<Error>)
      modifies this`log, store`rows
      ensures var v := Verdict(context.rule.id, context.prevAlertState, context.rule.state, context.error);
        && log == old(log) + Entries(old(store.rows), v)
        && store.rows == Handled(old(store.rows), v)
        && (err.Some? <==> v.state != v.prev && v.id in old(store.rows) && old(store.rows)[v.id].state == PAUSED)
        && (err.Some? ==> err.value == CannotChangeStateOnPausedAlert)
    {
      var executionError := "";
      if context.error.Some? {
        executionError := context.error.value;
      }
      if context.ShouldUpdateAlertState() {
        var id, prev, state := context.rule.id, context.prevAlertState, context.rule.state;
        var before := store.rows;
        var refused := store.SetAlertState(id, state, executionError);
        if refused == Some(CannotChangeStateOnPausedAlert) {
          return refused;
        }
        if refused == Some(RequiresNewState) {
          return None;
        }
        log := log + [if refused.None? then Accepted(id, before[id].state, state) else Lost(id, state)];
        log := log + [Annotated(id, prev, state)];
        if context.ShouldSendNotification() {
          log := log + [Notified(id, prev, state)];
        }
      }
      return None;
    }
  }

  // ---------- runs

  datatype World = World(table: Table, log: seq<Entry>)

  datatype Event =
    | Sync(dashboard: int, alerts: seq<AlertDef>)
    | Drop(id: int)
    | Pause(ids: seq<int>, paused: bool)
    | PauseAll(paused: bool)
    | Handle(verdict: Verdict)

  ghost predicate Next(w: World, e: Event, w': World) {
    match e
    case Sync(dashboard, alerts) =>
      w'.log == w.log && (Saved(w.table, dashboard, alerts, w'.table) || w'.table.rows == w.table.rows)
    case Drop(id) =>
      w'.log == w.log && w'.table.rows == w.table.rows - {id}
    case Pause(ids, paused) =>
      w'.log == w.log && w'.table.rows == Paused(w.table.rows, ids, paused)
    case PauseAll(paused) =>
      w'.log == w.log && w'.table.rows == AllPaused(w.table.rows, paused)
    case Handle(v) =>
      w'.log == w.log + Entries(w.table.rows, v) && w'.table.rows == Handled(w.table.rows, v)
  }

  ghost predicate IsRun(ws: seq<World>, es: seq<Event>) {
    |ws| == |es| + 1 && forall k :: 0 <= k < |es| ==> Next(ws[k], es[k], ws[k + 1])
  }

  predicate Unpauses(e: Event, id: int) {
    (e.Pause? && !e.paused && id in e.ids) || (e.PauseAll? && !e.paused)
  }

  lemma PausedStep(w: World, e: Event, w': World, id: int)
    requires Next(w, e, w') && id in w.table.rows && w.table.rows[id].state == PAUSED && id in w'.table.rows
    ensures w'.table.rows[id].state == PAUSED || Unpauses(e, id)
  {
    hide Saved;
    if e.Sync? && w'.table.rows != w.table.rows {
      SavedRow(w.table, e.dashboard, e.alerts, w'.table, id);
    }
  }

  /** An alert that was paused and is no longer has been unpaused in between, or its row was
      removed in between: nothing an evaluation or a save does takes it out of "paused". */
  lemma {:induction false} LeavesPaused(ws: seq<World>, es: seq<Event>, i: nat, j: nat, id: int)
    requires IsRun(ws, es) && i <= j < |ws|
    requires id in ws[i].table.rows && ws[i].table.rows[id].state == PAUSED
    requires id in ws[j].table.rows && ws[j].table.rows[id].state != PAUSED
    ensures exists k :: i <= k < j && (Unpauses(es[k], id) || id !in ws[k].table.rows)
    decreases j - i
  {
    hide Next;
    assert Next(ws[j - 1], es[j - 1], ws[j]);
    if id in ws[j - 1].table.rows {
      if ws[j - 1].table.rows[id].state == PAUSED {
        PausedStep(ws[j - 1], es[j - 1], ws[j], id);
      } else {
        LeavesPaused(ws, es, i, j - 1, id);
      }
    }
  }

  /** The changes the table accepted for an alert. */
  function CountAccepted(log: seq<Entry>, id: int): nat {
    if log == [] then 0
    else CountAccepted(log[..|log| - 1], id) + if log[|log| - 1].Accepted? && log[|log| - 1].id == id then 1 else 0
  }

  lemma {:induction false} CountAcceptedConcat(a: seq<Entry>, b: seq<Entry>, id: int)
    ensures CountAccepted(a + b, id) == CountAccepted(a, id) + CountAccepted(b, id)
  {
    if b == [] {
      assert a + b == a;
    } else {
      assert (a + b)[..|a + b| - 1] == a + b[..|b| - 1];
      CountAcceptedConcat(a, b[..|b| - 1], id);
    }
  }

  lemma CountEntries(rows: Rows, v: Verdict, id: int)
    ensures CountAccepted(Entries(rows, v), id) ==
      if v.id == id && id in rows && v.state != v.prev && Refusal(rows, id, v.state).None? then 1 else 0
  {
    if Entries(rows, v) != [] {
      var first := if v.id in rows then Accepted(v.id, rows[v.id].state, v.state) else Lost(v.id, v.state);
      var two := [first, Annotated(v.id, v.prev, v.state)];
      CountAcceptedConcat(two, Notice(v), id);
      assert two[..1] == [first] && [first][..0] == [];
      if Notice(v) != [] { assert Notice(v)[..0] == []; }
    }
  }

  lemma ChangesStep(w: World, e: Event, w': World, id: int)
    requires Next(w, e, w') && id in w.table.rows && id in w'.table.rows
    ensures w'.table.rows[id].stateChanges - w.table.rows[id].stateChanges
      == CountAccepted(w'.log, id) - CountAccepted(w.log, id)
  {
    hide Saved, CountAccepted, Entries;
    if e.Handle? {
      CountAcceptedConcat(w.log, Entries(w.table.rows, e.verdict), id);
      CountEntries(w.table.rows, e.verdict, id);
    } else if e.Sync? && w'.table.rows != w.table.rows {
      SavedRow(w.table, e.dashboard, e.alerts, w'.table, id);
    }
  }

  /** While an alert has a row, its count of state changes grows by exactly the changes the
      table accepted for it. */
  lemma {:induction false} ChangesAreCounted(ws: seq<World>, es: seq<Event>, i: nat, j: nat, id: int)
    requires IsRun(ws, es) && i <= j < |ws| && forall k :: i <= k <= j ==> id in ws[k].table.rows
    ensures ws[j].table.rows[id].stateChanges - ws[i].table.rows[id].stateChanges
      == CountAccepted(ws[j].log, id) - CountAccepted(ws[i].log, id)
    decreases j - i
  {
    hide Next, CountAccepted;
    if i < j {
      assert Next(ws[j - 1], es[j - 1], ws[j]);
      ChangesAreCounted(ws, es, i, j - 1, id);
      ChangesStep(ws[j - 1], es[j - 1], ws[j], id);
    }
  }

  /** An accepted change moves the row to the new state, exactly when that is not empty; it is counted,
      the error is kept as text, and nothing else changes. */
  lemma AcceptedMoves(rows: Rows, v: Verdict)
    requires v.state != v.prev && Refusal(rows, v.id, v.state).None?
    ensures var after := Handled(rows, v);
      && (after[v.id].state != rows[v.id].state <==> v.state != "")
      && (v.state != "" ==> after[v.id].state == v.state)
      && after.Keys == rows.Keys && after[v.id].stateChanges == rows[v.id].stateChanges + 1
      && after[v.id].executionError ==
           (if v.error.None? || v.error.value == "" then " " else v.error.value)
      && rows[v.id].(state := after[v.id].state, stateChanges := after[v.id].stateChanges,
                     executionError := after[v.id].executionError) == after[v.id]
      && forall id :: id in rows && id != v.id ==> after[id] == rows[id]
  {
  }

  /** A rule whose settings name no state for missing data: the change is accepted, counted and
      notified, and the row's state stays. */
  lemma EmptyStateKeepsRow(rows: Rows, id: int, prev: AlertState)
    requires id in rows && rows[id].state == prev == OK
    ensures var v := Verdict(id, prev, NewState(None, false, true, prev, "", "alerting"), None);
      && Handled(rows, v)[id].state == OK && Handled(rows, v)[id].stateChanges == rows[id].stateChanges + 1
      && Entries(rows, v) == [Accepted(id, OK, ""), Annotated(id, OK, ""), Notified(id, OK, "")]
  {
  }

  // ---------- the log

  /** Every annotation directly follows an accepted change (or one lost for want of a row) to the same
      state, every notification directly follows its annotation, and is not for pending to ok;
      and in turn every such change is annotated, and every annotation notified. */
  ghost predicate WellLogged(log: seq<Entry>) {
    forall k :: 0 <= k < |log| ==> Justified(log, k) && Followed(log, k)
  }

  predicate Justified(log: seq<Entry>, k: nat)
    requires k < |log|
  {
    match log[k]
    case Accepted(_, from, to) => from != PAUSED && from != to
    case Lost(_, _) => true
    case Annotated(id, prev, to) =>
      && k > 0 && prev != to && (log[k - 1].Accepted? || log[k - 1].Lost?)
      && log[k - 1].id == id && log[k - 1].to == to
    case Notified(id, prev, to) =>
      k > 0 && log[k - 1] == Annotated(id, prev, to) && !(prev == PENDING && to == OK)
  }

  predicate Followed(log: seq<Entry>, k: nat)
    requires k < |log|
  {
    match log[k]
    case Accepted(id, _, to) => k + 1 < |log| && log[k + 1].Annotated? && log[k + 1].id == id && log[k + 1].to == to
    case Lost(id, to) => k + 1 < |log| && log[k + 1].Annotated? && log[k + 1].id == id && log[k + 1].to == to
    case Annotated(id, prev, to) => (prev == PENDING && to == OK)
      || (k + 1 < |log| && log[k + 1] == Notified(id, prev, to))
    case Notified(_, _, _) => true
  }

  lemma WellLoggedConcat(a: seq<Entry>, b: seq<Entry>)
    requires WellLogged(a) && WellLogged(b)
    ensures WellLogged(a + b)
  {
    forall k | 0 <= k < |a + b| ensures Justified(a + b, k) && Followed(a + b, k) {
      if k < |a| {
        assert Justified(a, k) && Followed(a, k);
      } else {
        assert Justified(b, k - |a|) && Followed(b, k - |a|);
      }
    }
  }

  lemma EntriesWellLogged(rows: Rows, v: Verdict)
    ensures WellLogged(Entries(rows, v))
  {
  }

  /** On every run that starts with an empty log, annotations and notifications happen exactly
      for the changes accepted or lost. */
  lemma {:induction false} LogOnEveryRun(ws: seq<World>, es: seq<Event>, j: nat)
    requires IsRun(ws, es) && ws[0].log == [] && j < |ws|
    ensures WellLogged(ws[j].log)
  {
    if j > 0 {
      hide WellLogged;
      LogOnEveryRun(ws, es, j - 1);
      assert Next(ws[j - 1], es[j - 1], ws[j]);
      if es[j - 1].Handle? {
        EntriesWellLogged(ws[j - 1].table.rows, es[j - 1].verdict);
        WellLoggedConcat(ws[j - 1].log, Entries(ws[j - 1].table.rows, es[j - 1].verdict));
      }
    }
  }

  /** A change is lost exactly when the states differ and the alert has no row; it is accepted
      exactly when they differ, and the row is neither paused nor in the new state already. */
  lemma HandledExactly(rows: Rows, v: Verdict, from: AlertState)
    ensures Lost(v.id, v.state) in Entries(rows, v) <==> v.state != v.prev && v.id !in rows
    ensures Accepted(v.id, from, v.state) in Entries(rows, v) <==>
            v.state != v.prev && v.id in rows && rows[v.id].state == from && from != PAUSED && from != v.state
    ensures Annotated(v.id, v.prev, v.state) in Entries(rows, v) <==> Entries(rows, v) != []
    ensures Notified(v.id, v.prev, v.state) in Entries(rows, v) <==>
            Entries(rows, v) != [] && !(v.prev == "pending" && v.state == "ok")
    ensures forall e :: e in Entries(rows, v) ==> e.id == v.id && e.to == v.state &&
                                                  (e.Annotated? || e.Notified? ==> e.prev == v.prev)
    ensures Entries(rows, v) != [] <==>
            v.state != v.prev && (v.id in rows ==> rows[v.id].state !in ["paused", v.state])
    ensures Entries(rows, v) == [] ==> Handled(rows, v) == rows
  {
  }

  /** With "keep state" for errors and missing data, an evaluation that errs, or finds no data
      without firing, has no effect. */
  lemma KeepStateIsSilent(rows: Rows, id: int, prev: AlertState, outcomes: seq<Outcome>)
    requires FirstError(outcomes).Some? || (!Firing(Prefix(outcomes)) && NoData(Prefix(outcomes)))
    ensures var error, rs := FirstError(outcomes), Prefix(outcomes);
      var v := Verdict(id, prev, NewState(error, Firing(rs), NoData(rs), prev, KEEP_STATE, KEEP_STATE), error);
      Entries(rows, v) == [] && Handled(rows, v) == rows
  {
  }
}
