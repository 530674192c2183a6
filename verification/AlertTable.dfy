/** The alert and annotation tables: synchronising a dashboard's alerts, changing an alert's
    state, pausing. */
module AlertTable {
  import opened Options
  import Collections

  datatype Error = DuplicateId | CouldNotFindAlert | CannotChangeStateOnPausedAlert | RequiresNewState | NoAlertIds

  type AlertState = string

  const PAUSED: AlertState := "paused"
  const PENDING: AlertState := "pending"

  datatype Alert = Alert(dashboard: int, panel: int, name: string, message: string, settings: string, frequency: int,
                         state: AlertState, stateChanges: int, executionError: string)

  /** An alert as extracted from the dashboard JSON; id 0 if the JSON has none. */
  datatype AlertDef = AlertDef(id: int, panel: int, name: string, message: string, settings: string, frequency: int)

  type Rows = map<int, Alert>

  datatype Table = Table(rows: Rows, annotations: map<int, int>, nextId: int)

  predicate Matches(rows: Rows, id: int, dashboard: int, panel: int) {
    id in rows && rows[id].dashboard == dashboard && rows[id].panel == panel
  }

  ghost predicate HasPanel(rows: Rows, dashboard: int, panel: int) {
    exists id :: Matches(rows, id, dashboard, panel)
  }

  predicate DistinctPanels(rows: Rows) {
    forall a, b :: a in rows && b in rows && a != b ==>
      rows[a].dashboard != rows[b].dashboard || rows[a].panel != rows[b].panel
  }

  predicate DistinctDefs(alerts: seq<AlertDef>) {
    forall i, j :: 0 <= i < j < |alerts| ==> alerts[i].panel != alerts[j].panel
  }

  // ---------- SaveAlerts

  predicate ContainsUpdates(row: Alert, def: AlertDef) {
    row.name != def.name || row.message != def.message || row.settings != def.settings
  }

  /** The row of a surviving panel. An update skips an empty name and a zero frequency. */
  function Merged(row: Alert, def: AlertDef): Alert {
    if ContainsUpdates(row, def) then
      row.(name := if def.name == "" then row.name else def.name, message := def.message, settings := def.settings,
           frequency := if def.frequency == 0 then row.frequency else def.frequency)
    else row
  }

  function Inserted(dashboard: int, def: AlertDef): Alert {
    Alert(dashboard, def.panel, def.name, def.message, def.settings, def.frequency, PENDING, 0, "")
  }

  /** What the upsert of the first alerts leaves of the rows t: old rows merged with their
      definition if they have one, one new row for each panel that had none. */
  ghost predicate Upserted(t: Rows, dashboard: int, alerts: seq<AlertDef>, u: Rows) {
    && t.Keys <= u.Keys
    && (forall id, j :: 0 <= j < |alerts| && Matches(t, id, dashboard, alerts[j].panel) ==>
      u[id] == Merged(t[id], alerts[j]))
    && (forall id :: id in t && !Defined(t[id], dashboard, alerts) ==> u[id] == t[id])
    && (forall id :: id in u && id !in t ==>
          exists j :: 0 <= j < |alerts| && u[id] == Inserted(dashboard, alerts[j]) &&
            !HasPanel(t, dashboard, alerts[j].panel))
    && (forall j :: 0 <= j < |alerts| ==> HasPanel(u, dashboard, alerts[j].panel))
  }

  /** The ids given to the new alerts among the first ones, in order: the one in the JSON, or else
      the next automatic one. */
  ghost function Given(t: Rows, dashboard: int, alerts: seq<AlertDef>, next: int): seq<int> {
    if alerts == [] then []
    else
      var n := |alerts| - 1;
      var front := Given(t, dashboard, alerts[..n], next);
      if HasPanel(t, dashboard, alerts[n].panel) then front
      else front + [GivenId(alerts[n], NextAfter(t, dashboard, alerts[..n], next))]
  }

  function GivenId(def: AlertDef, next: int): int {
    if def.id != 0 then def.id else next
  }

  /** The next automatic id after them. */
  ghost function NextAfter(t: Rows, dashboard: int, alerts: seq<AlertDef>, next: int): int {
    if alerts == [] then next
    else
      var n := |alerts| - 1;
      var before := NextAfter(t, dashboard, alerts[..n], next);
      if HasPanel(t, dashboard, alerts[n].panel) then before
      else
        var id := GivenId(alerts[n], before);
        if id >= before then id + 1 else before
  }

  /** Some given id is in use already, or is given twice. */
  ghost predicate Clash(t: Rows, ids: seq<int>) {
    exists k :: 0 <= k < |ids| && (ids[k] in t || ids[k] in ids[..k])
  }

  /** An alert has no row in its dashboard yet. */
  ghost predicate IsNew(t: Rows, dashboard: int, def: AlertDef) {
    forall id :: id in t ==> t[id].dashboard != dashboard || t[id].panel != def.panel
  }

  /** The id of a new alert is the one its JSON carries, or else the least from next on that is above
      all given before it. */
  predicate FitsAfter(def: AlertDef, id: int, before: seq<int>, next: int) {
    if def.id != 0 then id == def.id
    else
      && id >= next && (forall b :: b in before ==> b < id)
      && (id == next || (exists b :: b in before && b == id - 1))
  }

  /** The ids given are one for each new alert, in order. */
  ghost predicate GivenTo(t: Rows, dashboard: int, alerts: seq<AlertDef>, next: int, ids: seq<int>)
    decreases |alerts|
  {
    if alerts == [] then ids == []
    else
      var n := |alerts| - 1;
      if IsNew(t, dashboard, alerts[n]) then
        && ids != [] && FitsAfter(alerts[n], ids[|ids| - 1], ids[..|ids| - 1], next)
        && GivenTo(t, dashboard, alerts[..n], next, ids[..|ids| - 1])
      else GivenTo(t, dashboard, alerts[..n], next, ids)
  }

  lemma {:induction false} GivenExactly(t: Rows, dashboard: int, alerts: seq<AlertDef>, next: int)
    ensures GivenTo(t, dashboard, alerts, next, Given(t, dashboard, alerts, next))
    ensures var ids, after := Given(t, dashboard, alerts, next), NextAfter(t, dashboard, alerts, next);
      && after >= next && (forall b :: b in ids ==> b < after)
      && (after == next || exists b :: b in ids && b == after - 1)
    decreases |alerts|
  {
    if alerts != [] {
      var n := |alerts| - 1;
      GivenExactly(t, dashboard, alerts[..n], next);
      NewIsNoPanel(t, dashboard, alerts[n]);
      var ids, front := Given(t, dashboard, alerts, next), Given(t, dashboard, alerts[..n], next);
      hide IsNew, HasPanel;
      if IsNew(t, dashboard, alerts[n]) {
        assert ids[..|ids| - 1] == front;
        assert forall b :: b in front ==> b in ids;
        assert ids[|ids| - 1] in ids;
      }
    }
  }

  lemma NewIsNoPanel(t: Rows, dashboard: int, def: AlertDef)
    ensures IsNew(t, dashboard, def) <==> !HasPanel(t, dashboard, def.panel)
  {
    if !IsNew(t, dashboard, def) {
      var id :| id in t && t[id].dashboard == dashboard && t[id].panel == def.panel;
      assert Matches(t, id, dashboard, def.panel);
    }
  }

  lemma {:induction false} GivenPrefix(t: Rows, dashboard: int, alerts: seq<AlertDef>, next: int, i: nat)
    requires i <= |alerts|
    ensures Given(t, dashboard, alerts[..i], next) <= Given(t, dashboard, alerts, next)
    decreases |alerts|
  {
    if i == |alerts| {
      assert alerts[..i] == alerts;
    } else {
      var n := |alerts| - 1;
      GivenPrefix(t, dashboard, alerts[..n], next, i);
      assert alerts[..n][..i] == alerts[..i];
    }
  }

  lemma ClashPrefix(t: Rows, ids: seq<int>, more: seq<int>)
    requires ids <= more && Clash(t, ids)
    ensures Clash(t, more)
  {
    var k :| 0 <= k < |ids| && (ids[k] in t || ids[k] in ids[..k]);
    assert more[k] == ids[k] && more[..k] == ids[..k];
  }

  /** One more alert that is new. */
  lemma GivenStep(t: Rows, dashboard: int, alerts: seq<AlertDef>, next: int, i: nat)
    requires i < |alerts|
    ensures var front, id :=
      Given(t, dashboard, alerts[..i], next), GivenId(alerts[i], NextAfter(t, dashboard, alerts[..i], next));
      if HasPanel(t, dashboard, alerts[i].panel) then
        && Given(t, dashboard, alerts[..i + 1], next) == front
        && NextAfter(t, dashboard, alerts[..i + 1], next) == NextAfter(t, dashboard, alerts[..i], next)
      else
        && Given(t, dashboard, alerts[..i + 1], next) == front + [id]
        && NextAfter(t, dashboard, alerts[..i + 1], next)
           == if id >= NextAfter(t, dashboard, alerts[..i], next) then id + 1
             else NextAfter(t, dashboard, alerts[..i], next)
  {
    assert alerts[..i + 1][..i] == alerts[..i];
  }

  /** A new alert whose JSON carries the id of another dashboard's alert. */
  lemma TakenIdClashes(dashboard: int, other: Alert, def: AlertDef)
    requires other.dashboard != dashboard && def.id == 7
    ensures Clash(map[7 := other], Given(map[7 := other], dashboard, [def], 8))
  {
    var t: Rows := map[7 := other];
    assert !HasPanel(t, dashboard, def.panel);
    GivenStep(t, dashboard, [def], 8, 0);
    assert [def][..0] == [] && [def][..1] == [def];
    var ids := Given(t, dashboard, [def], 8);
    assert ids == [7] && ids[0] in t;
  }

  /** A new alert whose JSON carries the id that the one before it was given. */
  lemma NextIdClashes(t: Rows, dashboard: int, a: AlertDef, b: AlertDef, next: int)
    requires a.id == 0 && b.id == next != 0 && !HasPanel(t, dashboard, a.panel) && !HasPanel(t, dashboard, b.panel)
    ensures Clash(t, Given(t, dashboard, [a, b], next))
  {
    GivenStep(t, dashboard, [a, b], next, 0);
    GivenStep(t, dashboard, [a, b], next, 1);
    assert [a, b][..0] == [] && [a, b][..1] == [a] && [a, b][..2] == [a, b];
    var ids := Given(t, dashboard, [a, b], next);
    assert ids == [next, next] && ids[1] in ids[..1];
  }

  predicate Defined(row: Alert, dashboard: int, alerts: seq<AlertDef>) {
    row.dashboard == dashboard && exists j :: 0 <= j < |alerts| && alerts[j].panel == row.panel
  }

  /** The rows a sync removes. */
  predicate Missing(row: Alert, dashboard: int, alerts: seq<AlertDef>) {
    row.dashboard == dashboard && forall j :: 0 <= j < |alerts| ==> alerts[j].panel != row.panel
  }

  ghost predicate Removed(t: Table, id: int, dashboard: int, alerts: seq<AlertDef>) {
    id in t.rows && Missing(t.rows[id], dashboard, alerts)
  }

  /** The outcome of a successful SaveAlerts. */
  ghost predicate Saved(t: Table, dashboard: int, alerts: seq<AlertDef>, u: Table) {
    exists middle: Rows ::
      Upserted(t.rows, dashboard, alerts, middle) && DistinctPanels(middle) && SavedVia(t, dashboard, alerts, middle, u)
  }

  ghost predicate SavedVia(t: Table, dashboard: int, alerts: seq<AlertDef>, middle: Rows, u: Table) {
    && u.rows == (map id | id in middle && !Removed(t, id, dashboard, alerts) :: middle[id])
    && u.annotations
      == (map a | a in t.annotations && !Removed(t, t.annotations[a], dashboard, alerts) :: t.annotations[a])
  }

  /** Same place in a dashboard, same state, same count of state changes, same last error. */
  predicate SameIdentity(a: Alert, b: Alert) {
    && a.dashboard == b.dashboard && a.panel == b.panel
    && a.state == b.state && a.stateChanges == b.stateChanges && a.executionError == b.executionError
  }

  lemma OldRow(t: Rows, dashboard: int, alerts: seq<AlertDef>, u: Rows, id: int)
    requires Upserted(t, dashboard, alerts, u) && id in t
    ensures id in u && SameIdentity(u[id], t[id])
    ensures t[id].dashboard != dashboard ==> u[id] == t[id]
  {
    if Defined(t[id], dashboard, alerts) {
      var j :| 0 <= j < |alerts| && alerts[j].panel == t[id].panel;
      assert Matches(t, id, dashboard, alerts[j].panel);
    }
  }

  lemma NewRow(t: Rows, dashboard: int, alerts: seq<AlertDef>, u: Rows, id: int) returns (j: nat)
    requires Upserted(t, dashboard, alerts, u) && id in u && id !in t
    ensures j < |alerts| && u[id] == Inserted(dashboard, alerts[j]) && !HasPanel(t, dashboard, alerts[j].panel)
  {
    j :| 0 <= j < |alerts| && u[id] == Inserted(dashboard, alerts[j]) && !HasPanel(t, dashboard, alerts[j].panel);
  }

  /** What a sync does row by row: other dashboards' rows are as they were; a surviving row
      keeps its id, state and count of state changes; a row whose panel is gone is removed, with its
      annotations and no others; a new row is pending. */
  lemma SavedRow(t: Table, dashboard: int, alerts: seq<AlertDef>, u: Table, id: int)
    requires Saved(t, dashboard, alerts, u)
    ensures id in t.rows ==>
      (id in u.rows <==> t.rows[id].dashboard != dashboard ||
                         exists j :: 0 <= j < |alerts| && alerts[j].panel == t.rows[id].panel)
    ensures forall a :: a in t.annotations && t.annotations[a] == id ==>
      (a in u.annotations <==> id in u.rows || id !in t.rows)
    ensures forall a :: a in u.annotations ==> a in t.annotations && u.annotations[a] == t.annotations[a]
    ensures id in t.rows && id in u.rows ==> SameIdentity(u.rows[id], t.rows[id])
    ensures id in t.rows && t.rows[id].dashboard != dashboard ==> id in u.rows && u.rows[id] == t.rows[id]
    ensures id in u.rows && id !in t.rows ==>
      && u.rows[id].dashboard == dashboard && u.rows[id].state == "pending" && u.rows[id].stateChanges == 0
      && u.rows[id].executionError == ""
  {
    var middle: Rows :| Upserted(t.rows, dashboard, alerts, middle) && DistinctPanels(middle) &&
      SavedVia(t, dashboard, alerts, middle, u);
    if id in t.rows {
      OldRow(t.rows, dashboard, alerts, middle, id);
    } else if id in middle {
      var j := NewRow(t.rows, dashboard, alerts, middle, id);
    }
  }

  /** After a sync the dashboard has exactly the panels of the command, each once. */
  lemma SavedPanels(t: Table, dashboard: int, alerts: seq<AlertDef>, u: Table, panel: int)
    requires Saved(t, dashboard, alerts, u)
    ensures DistinctPanels(u.rows)
    ensures HasPanel(u.rows, dashboard, panel) <==> exists j :: 0 <= j < |alerts| && alerts[j].panel == panel
  {
    var middle: Rows :| Upserted(t.rows, dashboard, alerts, middle) && DistinctPanels(middle) &&
      SavedVia(t, dashboard, alerts, middle, u);
    FewerDistinct(middle, u.rows);
    hide DistinctPanels;
    if j :| 0 <= j < |alerts| && alerts[j].panel == panel {
      var id :| Matches(middle, id, dashboard, alerts[j].panel);
      if id in t.rows { OldRow(t.rows, dashboard, alerts, middle, id); }
      assert Matches(u.rows, id, dashboard, panel);
    }
    if HasPanel(u.rows, dashboard, panel) {
      var id :| Matches(u.rows, id, dashboard, panel);
      if id in t.rows {
        OldRow(t.rows, dashboard, alerts, middle, id);
      } else {
        var j := NewRow(t.rows, dashboard, alerts, middle, id);
      }
    }
  }

  lemma FewerDistinct(u: Rows, v: Rows)
    requires DistinctPanels(u) && forall id :: id in v ==> id in u && v[id] == u[id]
    ensures DistinctPanels(v)
  {
  }

  /** What an alert says after a sync: its definition's message, settings and name - an empty
      name keeps the old one - and its frequency, unless nothing else changed or it is zero. */
  lemma SavedContent(t: Table, dashboard: int, alerts: seq<AlertDef>, u: Table, j: nat, id: int)
    requires Saved(t, dashboard, alerts, u) && DistinctDefs(alerts)
    requires j < |alerts| && Matches(u.rows, id, dashboard, alerts[j].panel)
    ensures var row, def := u.rows[id], alerts[j];
      && row.message == def.message && row.settings == def.settings
      && (row.name == def.name || (def.name == "" && id in t.rows && row.name == t.rows[id].name))
      && (row.frequency == def.frequency <==>
            id in t.rows ==>
              || t.rows[id].frequency == def.frequency
              || (def.frequency != 0 &&
                  (t.rows[id].name != def.name || t.rows[id].message != def.message ||
                   t.rows[id].settings != def.settings)))
      && (id in t.rows && row.frequency != def.frequency ==> row.frequency == t.rows[id].frequency)
  {
    var middle: Rows :| Upserted(t.rows, dashboard, alerts, middle) && DistinctPanels(middle) &&
      SavedVia(t, dashboard, alerts, middle, u);
    if id in t.rows {
      OldRow(t.rows, dashboard, alerts, middle, id);
      assert Matches(t.rows, id, dashboard, alerts[j].panel);
      assert u.rows[id] == Merged(t.rows[id], alerts[j]);
    } else {
      var k := NewRow(t.rows, dashboard, alerts, middle, id);
      assert k == j;
    }
  }

  /** A second sync with the same definitions cannot fail, and changes nothing. */
  lemma SavedTwice(t: Table, dashboard: int, alerts: seq<AlertDef>, u: Table, w: Table, next: int)
    requires DistinctPanels(t.rows) && DistinctDefs(alerts) && Saved(t, dashboard, alerts, u)
    ensures !Clash(u.rows, Given(u.rows, dashboard, alerts, next))
    ensures Saved(u, dashboard, alerts, w) ==> w.rows == u.rows && w.annotations == u.annotations
  {
    NothingGiven(t, dashboard, alerts, u, next, |alerts|);
    assert alerts[..|alerts|] == alerts;
    if Saved(u, dashboard, alerts, w) {
      SameTwice(t, dashboard, alerts, u, w);
    }
  }

  /** After a sync no alert of the command is new. */
  lemma {:induction false} NothingGiven(t: Table, dashboard: int, alerts: seq<AlertDef>, u: Table, next: int, i: nat)
    requires i <= |alerts| && Saved(t, dashboard, alerts, u)
    ensures Given(u.rows, dashboard, alerts[..i], next) == []
  {
    hide Saved, HasPanel;
    if i > 0 {
      NothingGiven(t, dashboard, alerts, u, next, i - 1);
      SavedPanels(t, dashboard, alerts, u, alerts[i - 1].panel);
      assert alerts[..i][..i - 1] == alerts[..i - 1];
    }
  }

  lemma SameTwice(t: Table, dashboard: int, alerts: seq<AlertDef>, u: Table, w: Table)
    requires DistinctPanels(t.rows) && DistinctDefs(alerts) && Saved(t, dashboard, alerts, u) &&
      Saved(u, dashboard, alerts, w)
    ensures w.rows == u.rows && w.annotations == u.annotations
  {
    var first: Rows :| Upserted(t.rows, dashboard, alerts, first) && DistinctPanels(first) &&
      SavedVia(t, dashboard, alerts, first, u);
    var second: Rows :| Upserted(u.rows, dashboard, alerts, second) && DistinctPanels(second) &&
      SavedVia(u, dashboard, alerts, second, w);
    TwiceVia(t, dashboard, alerts, first, u, second, w);
  }

  lemma TwiceVia(t: Table, dashboard: int, alerts: seq<AlertDef>, first: Rows, u: Table, second: Rows, w: Table)
    requires DistinctPanels(t.rows) && DistinctDefs(alerts) && Saved(t, dashboard, alerts, u)
    requires Upserted(t.rows, dashboard, alerts, first) && SavedVia(t, dashboard, alerts, first, u)
    requires Upserted(u.rows, dashboard, alerts, second) && SavedVia(u, dashboard, alerts, second, w)
    ensures w.rows == u.rows && w.annotations == u.annotations
  {
    hide Upserted, DistinctPanels, DistinctDefs, Saved;
    forall id ensures !Removed(u, id, dashboard, alerts) {
      if id in u.rows { SettledRow(t, dashboard, alerts, first, u, id); }
    }
    forall id ensures (id in second <==> id in u.rows) && (id in second ==> second[id] == u.rows[id]) {
      SecondRow(t, dashboard, alerts, first, u, second, id);
    }
    hide Removed;
    SameRows(second, u.rows);
    assert w.rows == second;
    assert w.annotations == u.annotations;
  }

  lemma SameRows(a: Rows, b: Rows)
    requires forall id :: (id in a <==> id in b) && (id in a ==> a[id] == b[id])
    ensures a == b
  {
    if a != b {
      var id := Collections.MapsDiffer(a, b);
    }
  }

  lemma SecondRow(t: Table, dashboard: int, alerts: seq<AlertDef>, first: Rows, u: Table, second: Rows, id: int)
    requires DistinctPanels(t.rows) && DistinctDefs(alerts) && Saved(t, dashboard, alerts, u)
    requires Upserted(t.rows, dashboard, alerts, first) && SavedVia(t, dashboard, alerts, first, u)
    requires Upserted(u.rows, dashboard, alerts, second)
    ensures (id in second <==> id in u.rows) && (id in second ==> second[id] == u.rows[id])
  {
    if id in u.rows {
      SettledRow(t, dashboard, alerts, first, u, id);
      StaysRow(u.rows, dashboard, alerts, second, id);
    } else if id in second {
      var j := NewRow(u.rows, dashboard, alerts, second, id);
      SavedPanels(t, dashboard, alerts, u, alerts[j].panel);
    }
  }

  lemma StaysRow(t: Rows, dashboard: int, alerts: seq<AlertDef>, u: Rows, id: int)
    requires Upserted(t, dashboard, alerts, u) && id in t
    requires forall j :: 0 <= j < |alerts| && Matches(t, id, dashboard, alerts[j].panel) ==>
      Merged(t[id], alerts[j]) == t[id]
    ensures id in u && u[id] == t[id]
  {
    if Defined(t[id], dashboard, alerts) {
      var j :| 0 <= j < |alerts| && alerts[j].panel == t[id].panel;
      assert Matches(t, id, dashboard, alerts[j].panel);
    }
  }

  /** A row left by a sync is already what its definition makes of it. */
  lemma SettledRow(t: Table, dashboard: int, alerts: seq<AlertDef>, middle: Rows, u: Table, id: int)
    requires DistinctPanels(t.rows) && DistinctDefs(alerts)
    requires Upserted(t.rows, dashboard, alerts, middle) && SavedVia(t, dashboard, alerts, middle, u) && id in u.rows
    ensures !Missing(u.rows[id], dashboard, alerts)
    ensures forall j :: 0 <= j < |alerts| && Matches(u.rows, id, dashboard, alerts[j].panel) ==>
      Merged(u.rows[id], alerts[j]) == u.rows[id]
  {
    if id in t.rows {
      if Defined(t.rows[id], dashboard, alerts) {
        var k :| 0 <= k < |alerts| && alerts[k].panel == t.rows[id].panel;
        assert Matches(t.rows, id, dashboard, alerts[k].panel);
        assert u.rows[id] == Merged(t.rows[id], alerts[k]);
      }
    } else {
      var k :| 0 <= k < |alerts| && middle[id] == Inserted(dashboard, alerts[k]) &&
        !HasPanel(t.rows, dashboard, alerts[k].panel);
      assert u.rows[id] == Inserted(dashboard, alerts[k]);
    }
  }

  // ---------- SetAlertState, PauseAlert, PauseAllAlerts

  /** The first of SetAlertState's checks to fail. */
  function Refusal(rows: Rows, id: int, state: AlertState): Option<Error> {
    if id !in rows then Some(CouldNotFindAlert)
    else if rows[id].state == PAUSED then Some(CannotChangeStateOnPausedAlert)
    else if rows[id].state == state then Some(RequiresNewState)
    else None
  }

  /** The row an accepted change leaves. An update skips an empty state. */
  function Changed(row: Alert, state: AlertState, executionError: string): Alert {
    row.(state := if state == "" then row.state else state, stateChanges := row.stateChanges + 1,
         executionError := if executionError == "" then " " else executionError)
  }

  function StateSet(rows: Rows, id: int, state: AlertState, executionError: string): Rows {
    if Refusal(rows, id, state).None? then rows[id := Changed(rows[id], state, executionError)] else rows
  }

  function PauseState(paused: bool): AlertState {
    if paused then PAUSED else PENDING
  }

  /** Pausing or unpausing the rows with the given ids. */
  function Paused(rows: Rows, ids: seq<int>, paused: bool): Rows {
    map id | id in rows :: if id in ids then rows[id].(state := PauseState(paused)) else rows[id]
  }

  function AllPaused(rows: Rows, paused: bool): Rows {
    map id | id in rows :: rows[id].(state := PauseState(paused))
  }

  /** What pausing is for: while all are paused no alert changes state, and once all are unpaused
      every change but one to pending is accepted. */
  lemma AllPausedAccepts(rows: Rows, id: int, state: AlertState, paused: bool)
    ensures Refusal(AllPaused(rows, paused), id, state).None? <==> id in rows && !paused && state != PENDING
    ensures AllPaused(AllPaused(rows, true), paused) == AllPaused(rows, paused)
  {
    var once, twice := AllPaused(rows, paused), AllPaused(AllPaused(rows, true), paused);
    forall k ensures (k in twice <==> k in once) && (k in twice ==> twice[k] == once[k]) {
    }
    SameRows(twice, once);
  }

  // ---------- the store

  class AlertStore {
    var rows: Rows
    var annotations: map<int, int>
    var nextId: int

    function View(): Table
      reads this
    {
      Table(rows, annotations, nextId)
    }

    /** At most one alert per panel, and automatic ids above all used ones. */
    ghost predicate Valid()
      reads this
    {
      DistinctPanels(rows) && nextId >= 1 && forall id :: id in rows ==> id < nextId
    }

    constructor ()
      ensures Valid() && rows == map[] && annotations == map[]
    {
      rows, annotations, nextId := map[], map[], 1;
    }

    /** The ids of a dashboard's alerts. */
    method GetAlertsByDashboardId(dashboard: int) returns (ids: seq<int>)
      ensures forall id :: id in ids <==> id in rows && rows[id].dashboard == dashboard
    {
      ids := [];
      var rest := rows.Keys;
      while rest != {}
        invariant rest <= rows.Keys
        invariant forall id :: id in ids <==> id in rows && id !in rest && rows[id].dashboard == dashboard
        decreases rest
      {
        var id := Collections.Pick(rest);
        rest := rest - {id};
        if rows[id].dashboard == dashboard {
          ids := ids + [id];
        }
      }
    }

    /** SaveAlerts. It fails exactly when an id given to a new alert is in use already, or given to
        an earlier one too, and then nothing is changed; the id is one the JSON carries. */
    method SaveAlerts(dashboard: int, alerts: seq<AlertDef>) returns (err: Option<Error>)
      requires Valid() && DistinctDefs(alerts)
      modifies this
      ensures Valid()
      ensures err.None? ==> Saved(old(View()), dashboard, alerts, View())
      ensures err.Some? <==> Clash(old(rows), Given(old(rows), dashboard, alerts, old(nextId)))
      ensures err.Some? ==> err == Some(DuplicateId) && rows == old(rows) && annotations == old(annotations)
      ensures err.Some? ==> exists j ::
        0 <= j < |alerts| && alerts[j].id != 0 && !HasPanel(old(rows), dashboard, alerts[j].panel)
    {
      var before := View();
      var saved, savedNext := rows, nextId;
      var existing := GetAlertsByDashboardId(dashboard);
      err := UpsertAlerts(existing, dashboard, alerts);
      if err.Some? {
        rows, nextId := saved, savedNext;
        return;
      }
      ghost var middle := rows;
      DeleteMissingAlerts(before, existing, dashboard, alerts);
      assert SavedVia(before, dashboard, alerts, middle, View());
    }

    /** The search for the existing alert of a panel. */
    method FindExisting(existing: seq<int>, panel: int) returns (found: Option<int>)
      requires forall i :: 0 <= i < |existing| ==> existing[i] in rows
      ensures found.Some? ==> found.value in existing && found.value in rows && rows[found.value].panel == panel
      ensures found.None? ==> forall i :: 0 <= i < |existing| ==> rows[existing[i]].panel != panel
    {
      for k := 0 to |existing|
        invariant forall i :: 0 <= i < k ==> rows[existing[i]].panel != panel
      {
        if rows[existing[k]].panel == panel {
          return Some(existing[k]);
        }
      }
      return None;
    }

    method UpsertAlerts(existing: seq<int>, dashboard: int, alerts: seq<AlertDef>) returns (err: Option<Error>)
      requires Valid() && DistinctDefs(alerts)
      requires forall id :: id in existing <==> id in rows && rows[id].dashboard == dashboard
      modifies this`rows, this`nextId
      ensures err.None? ==> Valid() && Upserted(old(rows), dashboard, alerts, rows)
      ensures err.Some? <==> Clash(old(rows), Given(old(rows), dashboard, alerts, old(nextId)))
      ensures err.Some? ==> err == Some(DuplicateId)
      ensures err.Some? ==> exists j ::
        0 <= j < |alerts| && alerts[j].id != 0 && !HasPanel(old(rows), dashboard, alerts[j].panel)
    {
      ghost var before, next := rows, nextId;
      for i := 0 to |alerts|
        invariant Valid() && Upserted(before, dashboard, alerts[..i], rows)
        invariant InUse(before, Given(before, dashboard, alerts[..i], next))
        invariant !Clash(before, Given(before, dashboard, alerts[..i], next)) &&
          nextId == NextAfter(before, dashboard, alerts[..i], next)
      {
        hide Upserted, DistinctPanels, DistinctDefs, HasPanel, InUse, Clash, Given, NextAfter, GivenId;
        err := UpsertAlert(before, existing, dashboard, alerts, i, next);
        if err.Some? {
          GivenPrefix(before, dashboard, alerts, next, i + 1);
          ClashPrefix(before, Given(before, dashboard, alerts[..i + 1], next), Given(before, dashboard, alerts, next));
          return;
        }
      }
      assert alerts[..|alerts|] == alerts;
      return None;
    }

    /** The ids in use are the old ones and the given ones. */
    ghost predicate InUse(before: Rows, ids: seq<int>)
      reads this`rows
    {
      forall id :: id in rows <==> id in before || id in ids
    }

    /** One round of the upsert. */
    method UpsertAlert(ghost before: Rows, existing: seq<int>, dashboard: int, alerts: seq<AlertDef>, i: nat,
      ghost next: int) returns (err: Option<Error>)
      requires Valid() && DistinctDefs(alerts) && i < |alerts|
      requires DistinctPanels(before) && Upserted(before, dashboard, alerts[..i], rows)
      requires forall id :: id in existing <==> id in before && before[id].dashboard == dashboard
      requires InUse(before, Given(before, dashboard, alerts[..i], next)) &&
        nextId == NextAfter(before, dashboard, alerts[..i], next)
      requires !Clash(before, Given(before, dashboard, alerts[..i], next))
      modifies this`rows, this`nextId
      ensures err.None? ==> Valid() && Upserted(before, dashboard, alerts[..i + 1], rows)
      ensures err.None? ==>
        InUse(before, Given(before, dashboard, alerts[..i + 1], next)) &&
          nextId == NextAfter(before, dashboard, alerts[..i + 1], next)
      ensures err.Some? <==> Clash(before, Given(before, dashboard, alerts[..i + 1], next))
      ensures err.Some? ==>
        err == Some(DuplicateId) && alerts[i].id != 0 && !HasPanel(before, dashboard, alerts[i].panel)
    {
      hide Upserted, DistinctPanels, DistinctDefs, HasPanel, Clash, Given, NextAfter;
      var found := FindOld(before, existing, dashboard, alerts, i);
      ghost var was := rows;
      GivenStep(before, dashboard, alerts, next, i);
      if found.Some? {
        PanelOf(before, dashboard, alerts[i].panel, found.value);
        MergeStep(before, dashboard, alerts, i, was, found.value);
        rows := rows[found.value := Merged(rows[found.value], alerts[i])];
      } else {
        var id := if alerts[i].id != 0 then alerts[i].id else nextId;
        OneMoreId(before, Given(before, dashboard, alerts[..i], next), id);
        if id in rows {
          return Some(DuplicateId);
        }
        InsertStep(before, dashboard, alerts, i, was, id);
        rows := rows[id := Inserted(dashboard, alerts[i])];
        nextId := if id >= nextId then id + 1 else nextId;
      }
      return None;
    }

    method FindOld(ghost before: Rows, existing: seq<int>, dashboard: int, alerts: seq<AlertDef>, i: nat)
      returns (found: Option<int>)
      requires i < |alerts| && DistinctPanels(before) && Upserted(before, dashboard, alerts[..i], rows)
      requires forall id :: id in existing <==> id in before && before[id].dashboard == dashboard
      ensures found.Some? ==> Matches(before, found.value, dashboard, alerts[i].panel)
      ensures found.None? ==> !HasPanel(before, dashboard, alerts[i].panel)
    {
      hide DistinctPanels;
      forall id | id in existing ensures id in rows && SameIdentity(rows[id], before[id]) {
        OldRow(before, dashboard, alerts[..i], rows, id);
      }
      hide Upserted;
      found := FindExisting(existing, alerts[i].panel);
    }

    method DeleteMissingAlerts(before: Table, existing: seq<int>, dashboard: int, alerts: seq<AlertDef>)
      requires forall id :: id in existing ==> id in before.rows && before.rows[id].dashboard == dashboard
      requires forall id :: id in before.rows && before.rows[id].dashboard == dashboard ==> id in existing
      requires forall id :: id in before.rows ==> id in rows && SameIdentity(rows[id], before.rows[id])
      modifies this`rows, this`annotations
      ensures rows == map id | id in old(rows) && !Removed(before, id, dashboard, alerts) :: old(rows)[id]
      ensures annotations == map a | a in old(annotations) &&
        !Removed(before, old(annotations)[a], dashboard, alerts) :: old(annotations)[a]
    {
      ghost var gone: set<int> := {};
      for n := 0 to |existing|
        invariant forall id :: id in gone <==> id in existing[..n] && Removed(before, id, dashboard, alerts)
        invariant rows == old(rows) - gone && annotations == Without(old(annotations), gone)
      {
        assert existing[..n + 1] == existing[..n] + [existing[n]];
        assert existing[n] in existing;
        var id := existing[n];
        var missing := IsMissing(before.rows[id].panel, alerts);
        if missing {
          DeleteAlert(id);
          gone := gone + {id};
        }
      }
    }

    /** The search for the definition of an old alert's panel. */
    method IsMissing(panel: int, alerts: seq<AlertDef>) returns (missing: bool)
      ensures missing <==> forall j :: 0 <= j < |alerts| ==> alerts[j].panel != panel
    {
      for k := 0 to |alerts|
        invariant forall j :: 0 <= j < k ==> alerts[j].panel != panel
      {
        if alerts[k].panel == panel {
          return false;
        }
      }
      return true;
    }

    /** deleteAlertByIdInternal */
    method DeleteAlert(id: int)
      modifies this`rows, this`annotations
      ensures rows == old(rows) - {id}
      ensures annotations == Without(old(annotations), {id})
    {
      rows := rows - {id};
      annotations := map a | a in annotations && annotations[a] != id :: annotations[a];
    }

    method SetAlertState(id: int, state: AlertState, executionError: string) returns (err: Option<Error>)
      modifies this`rows
      ensures err == Refusal(old(rows), id, state)
      ensures rows == StateSet(old(rows), id, state, executionError)
      ensures err == Some(CouldNotFindAlert) <==> id !in old(rows)
      ensures err == Some(CannotChangeStateOnPausedAlert) <==> id in old(rows) && old(rows)[id].state == "paused"
      ensures err == Some(RequiresNewState) <==>
        id in old(rows) && old(rows)[id].state == state && state != "paused"
      ensures err.None? <==> id in old(rows) && old(rows)[id].state !in ["paused", state]
      ensures rows.Keys == old(rows).Keys && forall k :: k in rows && (k != id || err.Some?) ==> rows[k] == old(rows)[k]
      ensures err.None? ==>
        && rows[id].state == (if state == "" then old(rows)[id].state else state)
        && rows[id].stateChanges == old(rows)[id].stateChanges + 1
        && rows[id].executionError == (if executionError == "" then " " else executionError)
        && rows[id].dashboard == old(rows)[id].dashboard && rows[id].panel == old(rows)[id].panel
        && rows[id].name == old(rows)[id].name && rows[id].message == old(rows)[id].message
        && rows[id].settings == old(rows)[id].settings && rows[id].frequency == old(rows)[id].frequency
    {
      if id !in rows {
        return Some(CouldNotFindAlert);
      }
      var alert := rows[id];
      if alert.state == PAUSED {
        return Some(CannotChangeStateOnPausedAlert);
      }
      if alert.state == state {
        return Some(RequiresNewState);
      }
      var column := if state == "" then alert.state else state;
      alert := alert.(state := column, stateChanges := alert.stateChanges + 1,
                      executionError := if executionError == "" then " " else executionError);
      rows := rows[id := alert];
      return None;
    }

    /** PauseAlert needs at least one id; ids without a row do nothing, and alerts not named stay as
        they are. */
    method PauseAlert(ids: seq<int>, paused: bool) returns (err: Option<Error>)
      modifies this`rows
      ensures err == if ids == [] then Some(NoAlertIds) else None
      ensures rows == Paused(old(rows), ids, paused)
      ensures forall id :: id in rows <==> id in old(rows)
      ensures forall id :: id in rows ==>
        && rows[id].state == (if id !in ids then old(rows)[id].state else if paused then "paused" else "pending")
        && rows[id].(state := old(rows)[id].state) == old(rows)[id]
    {
      if ids == [] {
        assert Paused(rows, ids, paused) == rows;
        return Some(NoAlertIds);
      }
      rows := map id | id in rows :: if id in ids then rows[id].(state := PauseState(paused)) else rows[id];
      return None;
    }

    /** Every alert becomes paused, or every alert pending; it keeps everything else. */
    method PauseAllAlerts(paused: bool)
      modifies this`rows
      ensures rows == AllPaused(old(rows), paused)
      ensures forall id :: id in rows <==> id in old(rows)
      ensures forall id :: id in rows ==>
        && rows[id].state == (if paused then "paused" else "pending")
        && rows[id].(state := old(rows)[id].state) == old(rows)[id]
    {
      rows := map id | id in rows :: rows[id].(state := PauseState(paused));
    }
  }

  lemma PanelOf(t: Rows, dashboard: int, panel: int, id: int)
    requires Matches(t, id, dashboard, panel)
    ensures HasPanel(t, dashboard, panel)
  {
  }

  lemma OneMoreId(t: Rows, ids: seq<int>, id: int)
    requires !Clash(t, ids)
    ensures Clash(t, ids + [id]) <==> id in t || id in ids
  {
    var more := ids + [id];
    assert more[..|ids|] == ids && more[|ids|] == id;
    assert forall k :: 0 <= k < |ids| ==> more[k] == ids[k] && more[..k] == ids[..k];
  }

  /** The annotations of the alerts that stay. */
  function Without(annotations: map<int, int>, gone: set<int>): map<int, int> {
    map a | a in annotations && annotations[a] !in gone :: annotations[a]
  }

  lemma MergeStep(t: Rows, dashboard: int, alerts: seq<AlertDef>, i: nat, u: Rows, id: int)
    requires i < |alerts| && DistinctDefs(alerts) && DistinctPanels(t) && DistinctPanels(u)
    requires Upserted(t, dashboard, alerts[..i], u) && Matches(t, id, dashboard, alerts[i].panel)
    ensures id in u
    ensures var v := u[id := Merged(u[id], alerts[i])];
      Upserted(t, dashboard, alerts[..i + 1], v) && DistinctPanels(v)
  {
    ghost var more := alerts[..i + 1];
    OldRow(t, dashboard, alerts[..i], u, id);
    var v := u[id := Merged(u[id], alerts[i])];
    SamePanelsDistinct(u, v);
    assert !Defined(t[id], dashboard, alerts[..i]);
    assert u[id] == t[id];
    forall j | 0 <= j < i + 1 ensures HasPanel(v, dashboard, more[j].panel) {
      if j < i {
        assert HasPanel(u, dashboard, alerts[..i][j].panel);
        var k :| Matches(u, k, dashboard, alerts[..i][j].panel);
        assert Matches(v, k, dashboard, alerts[j].panel);
      } else {
        assert Matches(v, id, dashboard, alerts[i].panel);
      }
    }
    forall k, j | 0 <= j < i + 1 && Matches(t, k, dashboard, more[j].panel) ensures v[k] == Merged(t[k], more[j]) {
      if j < i {
        assert Matches(t, k, dashboard, alerts[..i][j].panel);
      }
    }
    forall k | k in t && !Defined(t[k], dashboard, more) ensures v[k] == t[k] {
      assert more[i].panel == alerts[i].panel;
      NotDefinedBefore(t[k], dashboard, alerts, i);
    }
    forall k | k in v && k !in t
      ensures exists j ::
        0 <= j < i + 1 && v[k] == Inserted(dashboard, more[j]) && !HasPanel(t, dashboard, more[j].panel)
    {
      var j := NewRow(t, dashboard, alerts[..i], u, k);
      assert more[j] == alerts[..i][j];
    }
  }

  lemma NotDefinedBefore(row: Alert, dashboard: int, alerts: seq<AlertDef>, i: nat)
    requires i < |alerts| && !Defined(row, dashboard, alerts[..i + 1])
    ensures !Defined(row, dashboard, alerts[..i])
  {
    forall j | 0 <= j < i ensures row.dashboard == dashboard ==> alerts[..i][j].panel != row.panel {
      assert alerts[..i + 1][j] == alerts[..i][j];
    }
  }

  lemma SamePanelsDistinct(u: Rows, v: Rows)
    requires DistinctPanels(u) && u.Keys == v.Keys
    requires forall id :: id in u ==> u[id].dashboard == v[id].dashboard && u[id].panel == v[id].panel
    ensures DistinctPanels(v)
  {
  }

  lemma InsertStep(t: Rows, dashboard: int, alerts: seq<AlertDef>, i: nat, u: Rows, id: int)
    requires i < |alerts| && DistinctDefs(alerts) && DistinctPanels(u) && id !in u
    requires Upserted(t, dashboard, alerts[..i], u) && !HasPanel(t, dashboard, alerts[i].panel)
    ensures var v := u[id := Inserted(dashboard, alerts[i])];
      Upserted(t, dashboard, alerts[..i + 1], v) && DistinctPanels(v)
  {
    ghost var more := alerts[..i + 1];
    var v := u[id := Inserted(dashboard, alerts[i])];
    FreshPanel(t, dashboard, alerts, i, u);
    assert more[i] == alerts[i];
    forall j | 0 <= j < i + 1 ensures HasPanel(v, dashboard, more[j].panel) {
      if j < i {
        assert HasPanel(u, dashboard, alerts[..i][j].panel);
        var k :| Matches(u, k, dashboard, alerts[..i][j].panel);
        assert Matches(v, k, dashboard, alerts[j].panel);
      } else {
        assert Matches(v, id, dashboard, alerts[i].panel);
      }
    }
    forall k, j | 0 <= j < i + 1 && Matches(t, k, dashboard, more[j].panel) ensures v[k] == Merged(t[k], more[j]) {
      assert j < i;
      assert Matches(t, k, dashboard, alerts[..i][j].panel);
    }
    forall k | k in t && !Defined(t[k], dashboard, more) ensures v[k] == t[k] {
      NotDefinedBefore(t[k], dashboard, alerts, i);
    }
    forall k | k in v && k !in t
      ensures exists j ::
        0 <= j < i + 1 && v[k] == Inserted(dashboard, more[j]) && !HasPanel(t, dashboard, more[j].panel)
    {
      if k != id {
        var j := NewRow(t, dashboard, alerts[..i], u, k);
        assert more[j] == alerts[..i][j];
      }
    }
    forall a, b | a in v && b in v && a != b ensures v[a].dashboard != v[b].dashboard || v[a].panel != v[b].panel {
      if a == id {
        assert !Matches(u, b, dashboard, alerts[i].panel);
      } else if b == id {
        assert !Matches(u, a, dashboard, alerts[i].panel);
      }
    }
  }

  lemma FreshPanel(t: Rows, dashboard: int, alerts: seq<AlertDef>, i: nat, u: Rows)
    requires i < |alerts| && DistinctDefs(alerts)
    requires Upserted(t, dashboard, alerts[..i], u) && !HasPanel(t, dashboard, alerts[i].panel)
    ensures !HasPanel(u, dashboard, alerts[i].panel)
  {
    forall k | k in u ensures !Matches(u, k, dashboard, alerts[i].panel) {
      if k in t {
        OldRow(t, dashboard, alerts[..i], u, k);
        assert !Matches(t, k, dashboard, alerts[i].panel);
      } else {
        var j := NewRow(t, dashboard, alerts[..i], u, k);
      }
    }
  }
}
