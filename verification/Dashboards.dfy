/** Saving, deleting and cleaning up dashboards over the dashboard and dashboard_version
    tables: optimistic concurrency and version history. */
module Dashboards {
  import opened Options
  import Collections
  import Sorting

  datatype Error =
    | DashboardNotFound
    | VersionMismatch
    | PluginDashboard(pluginId: string)
    | SameNameExists

  datatype Result<T> = Ok(value: T) | Err(error: Error)

  /** The stored JSON: its "version" member, and everything else. */
  datatype Data = Data(version: int, body: string)

  datatype Dashboard = Dashboard(org: int, slug: string, version: int, pluginId: string, data: Data)

  datatype VersionRow = VersionRow(dashboard: int, parent: int, restoredFrom: int, version: int, message: string,
    data: Data)

  /** The dashboard JSON of a command as NewDashboardFromJson reads it: no usable id means 0,
      and without an id the version is not looked at. */
  datatype SaveCommand = SaveCommand(id: Option<int>, version: Option<int>, slug: string, body: string, org: int,
                                     overwrite: bool, pluginId: string, restoredFrom: int, message: string)

  function CommandId(cmd: SaveCommand): int {
    if cmd.id.Some? then cmd.id.value else 0
  }

  function CommandVersion(cmd: SaveCommand): int {
    if cmd.id.Some? && cmd.version.Some? then cmd.version.value else 0
  }

  /** The two tables and their next automatic ids. */
  datatype Tables = Tables(dashboards: map<int, Dashboard>, versions: map<int, VersionRow>, nextDashboard: int,
    nextVersion: int)

  // ---------- SaveDashboard

  /** The rows a save is aimed at: the dashboard it will write and the version it builds on. */
  datatype Target = Target(id: int, version: int)

  ghost predicate HasTitle(t: Tables, id: int, org: int, slug: string) {
    id in t.dashboards && t.dashboards[id].org == org && t.dashboards[id].slug == slug
  }

  /** The dashboard of an org with a slug; there is at most one. */
  ghost function ByTitle(t: Tables, org: int, slug: string): (found: Option<int>)
    ensures found.Some? ==> HasTitle(t, found.value, org, slug)
    ensures found.None? ==> forall id :: !HasTitle(t, id, org, slug)
  {
    if exists id :: HasTitle(t, id, org, slug) then (var id :| HasTitle(t, id, org, slug); Some(id)) else None
  }

  /** The checks on the dashboard the command names. */
  function CheckId(t: Tables, cmd: SaveCommand): Result<Target> {
    var id, version := CommandId(cmd), CommandVersion(cmd);
    if id <= 0 then Ok(Target(id, version))
    else if id !in t.dashboards || t.dashboards[id].org != cmd.org then Err(DashboardNotFound)
    else
      var existing := t.dashboards[id];
      if version != existing.version && !cmd.overwrite then Err(VersionMismatch)
      else if existing.pluginId != "" && !cmd.overwrite then Err(PluginDashboard(existing.pluginId))
      else Ok(Target(id, existing.version))
  }

  /** The check on another dashboard with the same title, if `same` is one. */
  function CheckTitle(t: Tables, cmd: SaveCommand, target: Target, same: Option<int>): Result<Target>
    requires same.Some? ==> same.value in t.dashboards
  {
    if same.None? || same.value == target.id then Ok(target)
    else if cmd.overwrite then Ok(Target(same.value, t.dashboards[same.value].version))
    else Err(SameNameExists)
  }

  /** An update of a row skips the columns whose new value is empty. */
  function Updated(old_: Dashboard, cmd: SaveCommand, version: int): Dashboard {
    Dashboard(old_.org, if cmd.slug == "" then old_.slug else cmd.slug, version,
              if cmd.pluginId == "" then old_.pluginId else cmd.pluginId, Data(version, cmd.body))
  }

  /** The tables after writing to a target; None when no row has its id. */
  function Write(t: Tables, cmd: SaveCommand, target: Target): Result<Tables> {
    if target.id == 0 then
      Ok(Tables(t.dashboards[t.nextDashboard := Dashboard(cmd.org, cmd.slug, 1, cmd.pluginId, Data(1, cmd.body))],
                t.versions[t.nextVersion :=
                  VersionRow(t.nextDashboard, target.version, cmd.restoredFrom, 1, cmd.message, Data(1, cmd.body))],
                t.nextDashboard + 1, t.nextVersion + 1))
    else if target.id !in t.dashboards then Err(DashboardNotFound)
    else
      var version := target.version + 1;
      Ok(t.(dashboards := t.dashboards[target.id := Updated(t.dashboards[target.id], cmd, version)],
            versions := t.versions[t.nextVersion :=
              VersionRow(target.id, target.version, cmd.restoredFrom, version, cmd.message, Data(version, cmd.body))],
            nextVersion := t.nextVersion + 1))
  }

  /** What one save does to the tables; an error leaves them alone. */
  function SaveWith(t: Tables, cmd: SaveCommand, same: Option<int>): Result<Tables>
    requires same.Some? ==> same.value in t.dashboards
  {
    match CheckId(t, cmd)
    case Err(e) => Err(e)
    case Ok(named) =>
      match CheckTitle(t, cmd, named, same)
      case Err(e) => Err(e)
      case Ok(target) => Write(t, cmd, target)
  }

  ghost function Save(t: Tables, cmd: SaveCommand): Result<Tables> {
    SaveWith(t, cmd, ByTitle(t, cmd.org, cmd.slug))
  }

  // ---------- DeleteDashboard

  /** The rows the query of DeleteDashboard matches: empty fields are not conditions. */
  ghost predicate Deletable(t: Tables, id: int, org: int, slug: string) {
    id in t.dashboards && (slug != "" ==> t.dashboards[id].slug == slug) && (org != 0 ==> t.dashboards[id].org == org)
  }

  function Delete(t: Tables, id: int): Tables {
    t.(dashboards := t.dashboards - {id},
       versions := map r | r in t.versions && t.versions[r].dashboard != id :: t.versions[r])
  }

  // ---------- DeleteExpiredVersions

  datatype VersionExp = VersionExp(id: int, dashboard: int, version: int)

  /** ORDER BY dashboard_id DESC, version DESC. */
  predicate Before(a: VersionExp, b: VersionExp) {
    a.dashboard > b.dashboard
    || (a.dashboard == b.dashboard && (a.version > b.version || (a.version == b.version && a.id > b.id)))
  }

  lemma BeforeTotal()
    ensures Sorting.StrictTotal(Before)
  {
  }

  function RowsOf(t: Tables, dashboard: int): set<int> {
    set r | r in t.versions && t.versions[r].dashboard == dashboard
  }

  function Exp(t: Tables, r: int): VersionExp
    requires r in t.versions
  {
    VersionExp(r, t.versions[r].dashboard, t.versions[r].version)
  }

  /** The versions of the dashboards that have more than `keep` of them. */
  function Candidates(t: Tables, keep: nat): set<VersionExp> {
    set r | r in t.versions && |RowsOf(t, t.versions[r].dashboard)| > keep :: Exp(t, r)
  }

  ghost function Selection(t: Tables, keep: nat): seq<VersionExp> {
    BeforeTotal();
    Sorting.SortOf(Candidates(t, keep), Before)
  }

  /** The place of the i-th row in the run of rows of its dashboard. */
  function Rank(rows: seq<VersionExp>, i: nat): nat
    requires i < |rows|
  {
    if i == 0 || rows[i - 1].dashboard != rows[i].dashboard then 1 else Rank(rows, i - 1) + 1
  }

  function Kept(versionsToKeep: int): nat {
    if versionsToKeep < 1 then 1 else versionsToKeep
  }

  /** getVersionIDsToDelete: the rows whose rank exceeds `keep`. */
  method GetVersionIdsToDelete(rows: seq<VersionExp>, keep: nat) returns (ids: seq<int>)
    ensures forall id :: id in ids <==> exists i :: 0 <= i < |rows| && rows[i].id == id && Rank(rows, i) > keep
  {
    ids := [];
    if |rows| == 0 {
      return;
    }
    var currentDashboard := rows[0].dashboard;
    var count := 0;
    var i := 0;
    while i < |rows|
      invariant i <= |rows|
      invariant i == 0 ==> count == 0 && currentDashboard == rows[0].dashboard
      invariant i > 0 ==> count == Rank(rows, i - 1) && currentDashboard == rows[i - 1].dashboard
      invariant forall id :: id in ids <==> exists k :: 0 <= k < i && rows[k].id == id && Rank(rows, k) > keep
    {
      var v := rows[i];
      if v.dashboard == currentDashboard {
        count := count + 1;
      } else {
        count := 1;
        currentDashboard := v.dashboard;
      }
      ghost var was := ids;
      if count > keep {
        ids := ids + [v.id];
      }
      assert count == Rank(rows, i);
      i := i + 1;
    }
  }

  ghost predicate Expired(t: Tables, keep: nat, r: int) {
    var rows := Selection(t, keep);
    exists i :: 0 <= i < |rows| && rows[i].id == r && Rank(rows, i) > keep
  }

  ghost function CleanUp(t: Tables, keep: nat): Tables {
    t.(versions := map r | r in t.versions && !Expired(t, keep, r) :: t.versions[r])
  }

  // ---------- the history of every dashboard

  ghost predicate HasVersion(t: Tables, dashboard: int, version: int) {
    exists r :: IsVersion(t, r, dashboard, version)
  }

  predicate IsVersion(t: Tables, r: int, dashboard: int, version: int) {
    r in t.versions && t.versions[r].dashboard == dashboard && t.versions[r].version == version
  }

  ghost predicate DashboardsOK(t: Tables) {
    && t.nextDashboard >= 1
    && (forall id :: id in t.dashboards ==>
          && 1 <= id < t.nextDashboard
          && t.dashboards[id].version >= 1
          && t.dashboards[id].data.version == t.dashboards[id].version)
    && (forall a, b :: a in t.dashboards && b in t.dashboards && a != b ==>
          t.dashboards[a].org != t.dashboards[b].org || t.dashboards[a].slug != t.dashboards[b].slug)
  }

  /** The rows of a dashboard are versions up to its current one, each once, the current one
      with its current data, each but the first built on the version before it. */
  ghost predicate VersionsOK(t: Tables) {
    && (forall r :: r in t.versions ==> r < t.nextVersion && RowOK(t, t.versions[r]))
    && (forall r, q :: r in t.versions && q in t.versions && r != q ==> DifferentVersions(t.versions[r], t.versions[q]))
  }

  predicate RowOK(t: Tables, v: VersionRow) {
    && v.dashboard in t.dashboards
    && 1 <= v.version <= t.dashboards[v.dashboard].version
    && v.data.version == v.version
    && (v.version > 1 ==> v.parent == v.version - 1)
    && (v.version == t.dashboards[v.dashboard].version ==> v.data == t.dashboards[v.dashboard].data)
  }

  predicate DifferentVersions(v: VersionRow, w: VersionRow) {
    v.dashboard != w.dashboard || v.version != w.version
  }

  /** No gaps: the current version is there, and above any version there is the next one. */
  ghost predicate Contiguous(t: Tables) {
    && (forall id :: id in t.dashboards ==> HasVersion(t, id, t.dashboards[id].version))
    && (forall id, v :: id in t.dashboards && v < t.dashboards[id].version && HasVersion(t, id, v) ==>
      HasVersion(t, id, v + 1))
  }

  ghost predicate History(t: Tables) {
    DashboardsOK(t) && VersionsOK(t) && Contiguous(t)
  }

  lemma CheckedTarget(t: Tables, cmd: SaveCommand)
    requires DashboardsOK(t)
    requires CheckId(t, cmd).Ok? && CheckTitle(t, cmd, CheckId(t, cmd).value, ByTitle(t, cmd.org, cmd.slug)).Ok?
    ensures var target := CheckTitle(t, cmd, CheckId(t, cmd).value, ByTitle(t, cmd.org, cmd.slug)).value;
      && (target.id in t.dashboards ==>
        t.dashboards[target.id].org == cmd.org && target.version == t.dashboards[target.id].version)
      && forall id :: id != target.id ==> !HasTitle(t, id, cmd.org, cmd.slug)
  {
    var same := ByTitle(t, cmd.org, cmd.slug);
    if same.Some? {
      forall id | id != same.value ensures !HasTitle(t, id, cmd.org, cmd.slug) {
        assert HasTitle(t, same.value, cmd.org, cmd.slug);
      }
    }
  }

  /** A successful save keeps the history. */
  lemma SaveKeepsHistory(t: Tables, cmd: SaveCommand)
    requires History(t) && Save(t, cmd).Ok?
    ensures History(Save(t, cmd).value)
  {
    CheckedTarget(t, cmd);
    var target := CheckTitle(t, cmd, CheckId(t, cmd).value, ByTitle(t, cmd.org, cmd.slug)).value;
    WriteKeepsDashboards(t, cmd, target);
    WriteKeepsVersions(t, cmd, target);
    WriteKeepsContiguity(t, cmd, target);
  }

  /** A target the checks let through. */
  ghost predicate Sound(t: Tables, cmd: SaveCommand, target: Target) {
    && (target.id in t.dashboards ==>
      t.dashboards[target.id].org == cmd.org && target.version == t.dashboards[target.id].version)
    && (forall id :: id != target.id ==> !HasTitle(t, id, cmd.org, cmd.slug))
  }

  lemma WriteKeepsDashboards(t: Tables, cmd: SaveCommand, target: Target)
    requires DashboardsOK(t) && Sound(t, cmd, target) && Write(t, cmd, target).Ok?
    ensures DashboardsOK(Write(t, cmd, target).value)
  {
    var u := Write(t, cmd, target).value;
    var written := if target.id == 0 then t.nextDashboard else target.id;
    forall id | id in t.dashboards && id != written
      ensures u.dashboards[id].org != u.dashboards[written].org || u.dashboards[id].slug != u.dashboards[written].slug
    {
      assert !HasTitle(t, id, cmd.org, cmd.slug);
    }
  }

  lemma WriteKeepsVersions(t: Tables, cmd: SaveCommand, target: Target)
    requires DashboardsOK(t) && VersionsOK(t) && Sound(t, cmd, target) && Write(t, cmd, target).Ok?
    ensures VersionsOK(Write(t, cmd, target).value)
  {
    var u := Write(t, cmd, target).value;
    var row := u.versions[t.nextVersion];
    assert t.nextVersion !in t.versions;
    assert RowOK(u, row);
    forall r | r in t.versions ensures RowOK(u, t.versions[r]) && DifferentVersions(t.versions[r], row) {
      assert RowOK(t, t.versions[r]);
    }
    hide Write, RowOK, DifferentVersions, DashboardsOK;
    assert forall r :: r in u.versions ==> r == t.nextVersion || (r in t.versions && u.versions[r] == t.versions[r]);
  }

  lemma WriteKeepsContiguity(t: Tables, cmd: SaveCommand, target: Target)
    requires History(t) && Sound(t, cmd, target) && Write(t, cmd, target).Ok?
    ensures Contiguous(Write(t, cmd, target).value)
  {
    var u := Write(t, cmd, target).value;
    var (written, version) := Written(t, target);
    WriteIs(t, cmd, target);
    if target.id == 0 { NoneNew(t); }
    hide Write, HasVersion, DashboardsOK, VersionsOK, Written, Sound;
    forall id, v ensures HasVersion(u, id, v) <==> HasVersion(t, id, v) || (id == written && v == version) {
      WriteHas(t, cmd, target, id, v);
    }
    forall id, v | id in u.dashboards && v < u.dashboards[id].version && HasVersion(u, id, v)
      ensures HasVersion(u, id, v + 1)
    {
    }
  }

  /** The dashboard and the version a write makes. */
  function Written(t: Tables, target: Target): (int, int) {
    if target.id == 0 then (t.nextDashboard, 1) else (target.id, target.version + 1)
  }

  lemma WriteIs(t: Tables, cmd: SaveCommand, target: Target)
    requires Sound(t, cmd, target) && Write(t, cmd, target).Ok?
    ensures var u, (id, version) := Write(t, cmd, target).value, Written(t, target);
      && u.dashboards.Keys == t.dashboards.Keys + {id} && u.dashboards[id].version == version
      && (forall d :: d in t.dashboards && d != id ==> u.dashboards[d] == t.dashboards[d])
      && (target.id != 0 ==> id in t.dashboards && t.dashboards[id].version == version - 1)
      && (target.id == 0 ==> id == t.nextDashboard)
  {
  }

  /** No version belongs to the next dashboard yet. */
  lemma NoneNew(t: Tables)
    requires DashboardsOK(t) && VersionsOK(t)
    ensures t.nextDashboard !in t.dashboards && forall v :: !HasVersion(t, t.nextDashboard, v)
  {
    forall r | r in t.versions ensures t.versions[r].dashboard != t.nextDashboard {
      assert RowOK(t, t.versions[r]);
    }
  }

  lemma WriteHas(t: Tables, cmd: SaveCommand, target: Target, id: int, v: int)
    requires VersionsOK(t) && Write(t, cmd, target).Ok?
    ensures HasVersion(Write(t, cmd, target).value, id, v)
       <==> HasVersion(t, id, v) || (id == Written(t, target).0 && v == Written(t, target).1)
  {
    var u := Write(t, cmd, target).value;
    var row := u.versions[t.nextVersion];
    assert t.nextVersion !in t.versions && u.versions == t.versions[t.nextVersion := row];
    hide Write, VersionsOK;
    if HasVersion(t, id, v) {
      var r :| IsVersion(t, r, id, v);
      assert IsVersion(u, r, id, v);
    }
    if HasVersion(u, id, v) {
      var r :| IsVersion(u, r, id, v);
      assert r != t.nextVersion ==> IsVersion(t, r, id, v);
    }
    if row.dashboard == id && row.version == v {
      assert IsVersion(u, t.nextVersion, id, v);
    }
  }

  lemma DeleteKeepsHistory(t: Tables, id: int)
    requires History(t)
    ensures History(Delete(t, id))
  {
    var u := Delete(t, id);
    DeleteKeepsVersions(t, id);
    forall d, v | d != id ensures HasVersion(u, d, v) <==> HasVersion(t, d, v) {
      if HasVersion(t, d, v) {
        var r :| IsVersion(t, r, d, v);
        assert IsVersion(u, r, d, v);
      }
      if HasVersion(u, d, v) {
        var r :| IsVersion(u, r, d, v);
        assert IsVersion(t, r, d, v);
      }
    }
    hide VersionsOK, HasVersion;
    assert DashboardsOK(u);
  }

  lemma DeleteKeepsVersions(t: Tables, id: int)
    requires VersionsOK(t)
    ensures VersionsOK(Delete(t, id))
  {
    var u := Delete(t, id);
    forall r | r in u.versions ensures r < u.nextVersion && RowOK(u, u.versions[r]) {
      assert RowOK(t, t.versions[r]);
    }
  }

  // ---------- cleanup keeps exactly the newest versions

  /** The candidates in the order of the query. */
  lemma SelectionLists(t: Tables, keep: nat)
    ensures var rows := Selection(t, keep);
      && Sorting.Ascending(rows, Before)
      && forall e :: e in rows <==>
           e.id in t.versions && e == Exp(t, e.id) && |RowsOf(t, e.dashboard)| > keep
  {
    BeforeTotal();
    var rows := Selection(t, keep);
    forall e ensures e in rows <==> e.id in t.versions && e == Exp(t, e.id) && |RowsOf(t, e.dashboard)| > keep {
      assert e in rows <==> e in Candidates(t, keep);
    }
  }

  lemma RowOfVersion(t: Tables, keep: nat, dashboard: int, version: int) returns (j: nat)
    requires HasVersion(t, dashboard, version) && |RowsOf(t, dashboard)| > keep
    ensures var rows := Selection(t, keep);
      j < |rows| && rows[j].dashboard == dashboard && rows[j].version == version
  {
    var r :| IsVersion(t, r, dashboard, version);
    SelectionLists(t, keep);
    assert Exp(t, r) in Selection(t, keep);
    j :| 0 <= j < |Selection(t, keep)| && Selection(t, keep)[j] == Exp(t, r);
  }

  /** In the selection dashboards come in falling order, and so do the versions of each. */
  lemma RowsFall(t: Tables, keep: nat, i: nat, j: nat)
    requires History(t) && i < j < |Selection(t, keep)|
    ensures var a, b := Selection(t, keep)[i], Selection(t, keep)[j];
      a.dashboard > b.dashboard || (a.dashboard == b.dashboard && a.version > b.version)
  {
    SelectionLists(t, keep);
    hide Selection;
    var a, b := Selection(t, keep)[i], Selection(t, keep)[j];
    assert Before(a, b) && a in Selection(t, keep) && b in Selection(t, keep);
    assert DifferentVersions(t.versions[a.id], t.versions[b.id]);
  }

  lemma RowHas(t: Tables, keep: nat, i: nat)
    requires History(t) && i < |Selection(t, keep)|
    ensures var e := Selection(t, keep)[i];
      && |RowsOf(t, e.dashboard)| > keep && e.dashboard in t.dashboards
      && e.version <= t.dashboards[e.dashboard].version
      && HasVersion(t, e.dashboard, t.dashboards[e.dashboard].version)
      && (e.version < t.dashboards[e.dashboard].version ==> HasVersion(t, e.dashboard, e.version + 1))
  {
    var rows := Selection(t, keep);
    SelectionLists(t, keep);
    hide Selection;
    var e := rows[i];
    assert e in rows;
    assert RowOK(t, t.versions[e.id]);
    assert HasVersion(t, e.dashboard, e.version) by { assert IsVersion(t, e.id, e.dashboard, e.version); }
  }

  lemma RankStep(rows: seq<VersionExp>, i: nat)
    requires i < |rows|
    ensures Rank(rows, i) == if i > 0 && rows[i - 1].dashboard == rows[i].dashboard then Rank(rows, i - 1) + 1 else 1
  {
  }

  /** In the selection the rank of a row says how far its version is from the current one. */
  lemma {:induction false} RankIsAge(t: Tables, keep: nat, i: nat)
    requires History(t) && i < |Selection(t, keep)|
    ensures var rows := Selection(t, keep);
      && rows[i].dashboard in t.dashboards
      && Rank(rows, i) == t.dashboards[rows[i].dashboard].version - rows[i].version + 1
    decreases i
  {
    hide *;
    var rows := Selection(t, keep);
    var e := rows[i];
    RowHas(t, keep, i);
    RankStep(rows, i);
    if i > 0 { RowsFall(t, keep, i - 1, i); }
    var j;
    if i > 0 && rows[i - 1].dashboard == e.dashboard {
      RankIsAge(t, keep, i - 1);
      RowHas(t, keep, i - 1);
      j := RowOfVersion(t, keep, e.dashboard, e.version + 1);
    } else {
      j := RowOfVersion(t, keep, e.dashboard, t.dashboards[e.dashboard].version);
    }
    if j < i - 1 { RowsFall(t, keep, j, i - 1); }
    if i < j { RowsFall(t, keep, i, j); }
  }

  /** A dashboard with a version v has all of v, ..., current. */
  lemma {:induction false} CountFrom(t: Tables, dashboard: int, v: int) returns (ids: set<int>)
    requires History(t) && dashboard in t.dashboards && HasVersion(t, dashboard, v) &&
      v <= t.dashboards[dashboard].version
    ensures ids <= RowsOf(t, dashboard) && |ids| == t.dashboards[dashboard].version - v + 1
    ensures forall r :: r in ids ==> r in t.versions && t.versions[r].version >= v
    decreases t.dashboards[dashboard].version - v
  {
    var r :| IsVersion(t, r, dashboard, v);
    if v == t.dashboards[dashboard].version {
      ids := {r};
    } else {
      var rest := CountFrom(t, dashboard, v + 1);
      ids := rest + {r};
    }
  }

  /** After a cleanup each dashboard has exactly its newest min(max(1, K), count) versions. */
  lemma CleanUpKeepsNewest(t: Tables, keep: nat, r: int)
    requires History(t) && keep >= 1 && r in t.versions
    ensures t.versions[r].dashboard in t.dashboards
    ensures r in CleanUp(t, keep).versions
       <==> t.versions[r].version > t.dashboards[t.versions[r].dashboard].version - keep
  {
    var d, v := t.versions[r].dashboard, t.versions[r].version;
    var rows := Selection(t, keep);
    SelectionLists(t, keep);
    assert RowOK(t, t.versions[r]);
    hide Selection, Rank;
    if |RowsOf(t, d)| > keep {
      assert Exp(t, r) in rows;
      var i :| 0 <= i < |rows| && rows[i] == Exp(t, r);
      RankIsAge(t, keep, i);
      if Expired(t, keep, r) {
        var k :| 0 <= k < |rows| && rows[k].id == r && Rank(rows, k) > keep;
        assert rows[k] in rows;
        RankIsAge(t, keep, k);
      }
    } else {
      assert HasVersion(t, d, v) by { assert IsVersion(t, r, d, v); }
      var ids := CountFrom(t, d, v);
      Smaller(ids, RowsOf(t, d));
      forall k | 0 <= k < |rows| ensures rows[k].id != r {
        assert rows[k] in rows;
      }
    }
  }

  lemma Smaller(a: set<int>, b: set<int>)
    requires a <= b
    ensures |a| <= |b|
  {
    assert b == a + (b - a);
  }

  lemma CleanUpKeepsVersions(t: Tables, keep: nat)
    requires VersionsOK(t)
    ensures VersionsOK(CleanUp(t, keep))
  {
    var u := CleanUp(t, keep);
    hide Expired;
    forall r | r in u.versions ensures r < u.nextVersion && RowOK(u, u.versions[r]) {
      assert RowOK(t, t.versions[r]);
    }
  }

  lemma CleanUpHas(t: Tables, keep: nat, d: int, v: int)
    requires History(t) && keep >= 1 && d in t.dashboards
    ensures HasVersion(CleanUp(t, keep), d, v) <==> HasVersion(t, d, v) && v > t.dashboards[d].version - keep
  {
    var u := CleanUp(t, keep);
    assert forall r :: r in u.versions ==> r in t.versions && u.versions[r] == t.versions[r];
    hide Expired, CleanUp, History;
    if HasVersion(t, d, v) {
      var r :| IsVersion(t, r, d, v);
      CleanUpKeepsNewest(t, keep, r);
      assert v > t.dashboards[d].version - keep ==> IsVersion(u, r, d, v);
    }
    if HasVersion(u, d, v) {
      var r :| IsVersion(u, r, d, v);
      CleanUpKeepsNewest(t, keep, r);
      assert IsVersion(t, r, d, v);
    }
  }

  lemma CleanUpKeepsHistory(t: Tables, keep: nat)
    requires History(t) && keep >= 1
    ensures History(CleanUp(t, keep))
  {
    CleanUpKeepsVersions(t, keep);
    hide VersionsOK, HasVersion, Expired;
    forall d, v | d in t.dashboards
      ensures HasVersion(CleanUp(t, keep), d, v) <==> HasVersion(t, d, v) && v > t.dashboards[d].version - keep
    {
      CleanUpHas(t, keep, d, v);
    }
  }

  // ---------- runs

  datatype Operation =
    | SaveOp(cmd: SaveCommand)
    | DeleteOp(id: int)
    | CleanUpOp(versionsToKeep: int)

  /** One operation; a failing save changes nothing, and only existing dashboards are deleted. */
  ghost function Apply(t: Tables, op: Operation): Tables {
    match op
    case SaveOp(cmd) => if Save(t, cmd).Ok? then Save(t, cmd).value else t
    case DeleteOp(id) => Delete(t, id)
    case CleanUpOp(k) => CleanUp(t, Kept(k))
  }

  const EMPTY: Tables := Tables(map[], map[], 1, 1)

  ghost function State(ops: seq<Operation>, i: nat): Tables
    requires i <= |ops|
  {
    if i == 0 then EMPTY else Apply(State(ops, i - 1), ops[i - 1])
  }

  /** On every run of saves, deletions and cleanups, every dashboard has a contiguous range of
      versions ending at the current one. */
  lemma {:induction false} HistoryOnEveryRun(ops: seq<Operation>, i: nat)
    requires i <= |ops|
    ensures History(State(ops, i))
  {
    if i > 0 {
      HistoryOnEveryRun(ops, i - 1);
      var t := State(ops, i - 1);
      match ops[i - 1]
      case SaveOp(cmd) => if Save(t, cmd).Ok? { SaveKeepsHistory(t, cmd); }
      case DeleteOp(id) => DeleteKeepsHistory(t, id);
      case CleanUpOp(k) => CleanUpKeepsHistory(t, Kept(k));
    } else {
      assert forall id, v :: !HasVersion(EMPTY, id, v);
    }
  }

  /** Once stored, a dashboard's version never goes down, and a deleted id never comes back. */
  ghost predicate Later(t: Tables, u: Tables, id: int) {
    && t.nextDashboard <= u.nextDashboard
    && (id < t.nextDashboard && id in u.dashboards ==>
          id in t.dashboards && u.dashboards[id].org == t.dashboards[id].org &&
            u.dashboards[id].version >= t.dashboards[id].version)
  }

  lemma ApplyLater(t: Tables, op: Operation, id: int)
    requires History(t)
    ensures Later(t, Apply(t, op), id)
  {
    if op.SaveOp? && Save(t, op.cmd).Ok? {
      CheckedTarget(t, op.cmd);
    }
  }

  lemma {:induction false} VersionsOnlyGrow(ops: seq<Operation>, i: nat, j: nat, id: int)
    requires i <= j <= |ops|
    ensures Later(State(ops, i), State(ops, j), id)
    decreases j
  {
    if i < j {
      VersionsOnlyGrow(ops, i, j - 1, id);
      HistoryOnEveryRun(ops, j - 1);
      ApplyLater(State(ops, j - 1), ops[j - 1], id);
    }
  }

  ghost predicate Succeeds(ops: seq<Operation>, i: nat)
    requires i < |ops|
  {
    ops[i].SaveOp? && Save(State(ops, i), ops[i].cmd).Ok?
  }

  /** A non-overwriting save of a dashboard by id succeeds only on the version it was read
      at, and raises it. */
  lemma SaveRaises(t: Tables, cmd: SaveCommand)
    requires History(t) && !cmd.overwrite && CommandId(cmd) > 0 && Save(t, cmd).Ok?
    ensures var id := CommandId(cmd);
      && id in t.dashboards && t.dashboards[id].org == cmd.org && t.dashboards[id].version == CommandVersion(cmd)
      && t.dashboards[id].pluginId == ""
      && id in Save(t, cmd).value.dashboards && Save(t, cmd).value.dashboards[id].version == CommandVersion(cmd) + 1
  {
  }

  /** No lost updates: of any saves without overwrite that carry one dashboard id and one
      version, at most one ever succeeds. */
  lemma NoLostUpdates(ops: seq<Operation>, i: nat, j: nat)
    requires i < j < |ops| && ops[i].SaveOp? && ops[j].SaveOp?
    requires var a, b := ops[i].cmd, ops[j].cmd;
      && !a.overwrite && !b.overwrite
      && CommandId(a) == CommandId(b) > 0 && CommandVersion(a) == CommandVersion(b)
    ensures !(Succeeds(ops, i) && Succeeds(ops, j))
  {
    hide *;
    if Succeeds(ops, i) && Succeeds(ops, j) {
      Raised(ops, i);
      Raised(ops, j);
      VersionsOnlyGrow(ops, i + 1, j, CommandId(ops[i].cmd));
      LaterVersion(State(ops, i + 1), State(ops, j), CommandId(ops[i].cmd));
    }
  }

  lemma Raised(ops: seq<Operation>, i: nat)
    requires i < |ops| && Succeeds(ops, i) && ops[i].SaveOp?
    requires !ops[i].cmd.overwrite && CommandId(ops[i].cmd) > 0
    ensures var id, version := CommandId(ops[i].cmd), CommandVersion(ops[i].cmd);
      && id in State(ops, i).dashboards && State(ops, i).dashboards[id].version == version
      && id in State(ops, i + 1).dashboards && State(ops, i + 1).dashboards[id].version == version + 1
      && id < State(ops, i + 1).nextDashboard
  {
    var t, u := State(ops, i), State(ops, i + 1);
    HistoryOnEveryRun(ops, i);
    HistoryOnEveryRun(ops, i + 1);
    hide VersionsOK, Contiguous, CheckId, CheckTitle, Write, SaveWith;
    SaveRaises(t, ops[i].cmd);
    assert u == Save(t, ops[i].cmd).value;
  }

  lemma LaterVersion(t: Tables, u: Tables, id: int)
    requires Later(t, u, id) && id < t.nextDashboard && id in t.dashboards && id in u.dashboards
    ensures u.dashboards[id].version >= t.dashboards[id].version
  {
  }

  /** Saving once more with the version the last save returned succeeds, unless the last save
      handed the dashboard to a plugin. */
  lemma SaveAgain(t: Tables, cmd: SaveCommand, again: SaveCommand)
    requires History(t) && Save(t, cmd).Ok? && CommandId(cmd) > 0 && !cmd.overwrite
    requires again == cmd.(version := Some(CommandVersion(cmd) + 1))
    ensures Save(Save(t, cmd).value, again).Ok? <==> cmd.pluginId == ""
  {
    var u, id := Save(t, cmd).value, CommandId(cmd);
    SaveRaises(t, cmd);
    CheckedTarget(t, cmd);
    var same := ByTitle(u, again.org, again.slug);
    if same.Some? && same.value != id {
      assert HasTitle(t, same.value, again.org, again.slug);
      assert false;
    }
  }

  // ---------- what a save stores, and when it does

  /** What a successful save leaves: the dashboard that had the title, or else the one the command names,
      or else a new one, has the command's data under the next version, and there is one more version
      row that says the same; an empty slug or plugin id keeps what was there. */
  ghost predicate Stored(t: Tables, cmd: SaveCommand, u: Tables, id: int, version: int) {
    && id in u.dashboards
    && ((exists d :: HasTitle(t, d, cmd.org, cmd.slug)) ==> HasTitle(t, id, cmd.org, cmd.slug))
    && ((forall d :: !HasTitle(t, d, cmd.org, cmd.slug)) ==>
          if cmd.id.Some? && cmd.id.value > 0 then id == cmd.id.value && id in t.dashboards
          else id !in t.dashboards && forall d :: d in t.dashboards ==> d < id)
    && version == (if id in t.dashboards then t.dashboards[id].version + 1 else 1)
    && RowStored(t, cmd, u.dashboards[id], id, version)
    && (forall d :: d != id ==> (d in u.dashboards <==> d in t.dashboards))
    && (forall d :: d != id && d in t.dashboards ==> u.dashboards[d] == t.dashboards[d])
    && exists r :: r !in t.versions && VersionStored(t, cmd, u, id, version, r)
  }

  predicate RowStored(t: Tables, cmd: SaveCommand, row: Dashboard, id: int, version: int) {
    && row.org == cmd.org && row.version == version && row.data == Data(version, cmd.body)
    && row.slug == (if cmd.slug == "" && id in t.dashboards then t.dashboards[id].slug else cmd.slug)
    && row.pluginId == (if cmd.pluginId == "" && id in t.dashboards then t.dashboards[id].pluginId else cmd.pluginId)
  }

  predicate VersionStored(t: Tables, cmd: SaveCommand, u: Tables, id: int, version: int, r: int) {
    && r in u.versions
    && u.versions.Keys == t.versions.Keys + {r}
    && (forall q :: q in t.versions && q != r ==> u.versions[q] == t.versions[q])
    && u.versions[r].dashboard == id && u.versions[r].version == version
    && u.versions[r].data == Data(version, cmd.body)
    && u.versions[r].message == cmd.message && u.versions[r].restoredFrom == cmd.restoredFrom
    && u.versions[r].parent ==
         (if id in t.dashboards then version - 1
          else if cmd.id.Some? && cmd.version.Some? then cmd.version.value else 0)
  }

  lemma SaveStores(t: Tables, cmd: SaveCommand) returns (id: int, version: int)
    requires History(t) && Save(t, cmd).Ok?
    ensures Stored(t, cmd, Save(t, cmd).value, id, version)
    ensures id == TargetOf(t, cmd).0 && version == TargetOf(t, cmd).1
  {
    CheckedTarget(t, cmd);
    id, version := TargetOf(t, cmd).0, TargetOf(t, cmd).1;
    SaveWritesDashboard(t, cmd);
    SaveWritesVersion(t, cmd);
    SaveAimsAt(t, cmd);
    hide Save, TargetOf, History, RowStored, VersionStored, HasTitle;
  }

  lemma SaveWritesDashboard(t: Tables, cmd: SaveCommand)
    requires DashboardsOK(t) && Save(t, cmd).Ok?
    ensures var u, (id, version) := Save(t, cmd).value, TargetOf(t, cmd);
      && id in u.dashboards && RowStored(t, cmd, u.dashboards[id], id, version)
      && version == (if id in t.dashboards then t.dashboards[id].version + 1 else 1)
      && (forall d :: d != id ==> (d in u.dashboards <==> d in t.dashboards))
      && (forall d :: d != id && d in t.dashboards ==> u.dashboards[d] == t.dashboards[d])
  {
    CheckedTarget(t, cmd);
  }

  lemma SaveWritesVersion(t: Tables, cmd: SaveCommand)
    requires DashboardsOK(t) && VersionsOK(t) && Save(t, cmd).Ok?
    ensures t.nextVersion !in t.versions
    ensures VersionStored(t, cmd, Save(t, cmd).value, TargetOf(t, cmd).0, TargetOf(t, cmd).1, t.nextVersion)
  {
    assert t.nextVersion !in t.versions;
    hide VersionsOK;
    CheckedTarget(t, cmd);
  }

  lemma SaveAimsAt(t: Tables, cmd: SaveCommand)
    requires DashboardsOK(t) && Save(t, cmd).Ok?
    ensures var id := TargetOf(t, cmd).0;
      && ((exists d :: HasTitle(t, d, cmd.org, cmd.slug)) ==> HasTitle(t, id, cmd.org, cmd.slug))
      && ((forall d :: !HasTitle(t, d, cmd.org, cmd.slug)) ==>
            if cmd.id.Some? && cmd.id.value > 0 then id == cmd.id.value && id in t.dashboards
            else id !in t.dashboards && forall d :: d in t.dashboards ==> d < id)
  {
    CheckedTarget(t, cmd);
  }

  /** The dashboard a save writes and its new version. */
  ghost function TargetOf(t: Tables, cmd: SaveCommand): (int, int)
    requires Save(t, cmd).Ok?
  {
    Written(t, CheckTitle(t, cmd, CheckId(t, cmd).value, ByTitle(t, cmd.org, cmd.slug)).value)
  }

  /** Another dashboard of the org has the command's title. */
  ghost predicate TitleTaken(t: Tables, cmd: SaveCommand, id: int) {
    exists d :: d != id && HasTitle(t, d, cmd.org, cmd.slug)
  }

  /** Exactly when a save succeeds, and which error it fails with otherwise. */
  lemma SaveOutcome(t: Tables, cmd: SaveCommand)
    requires DashboardsOK(t)
    ensures var id := if cmd.id.Some? then cmd.id.value else 0;
      var read := if cmd.version.Some? then cmd.version.value else 0;
      var found := id in t.dashboards && t.dashboards[id].org == cmd.org;
      var stale := id > 0 && found && t.dashboards[id].version != read && !cmd.overwrite;
      var plugin := id > 0 && found && !stale && t.dashboards[id].pluginId != "" && !cmd.overwrite;
      var passed := id > 0 ==> found && !stale && !plugin;
      var taken := TitleTaken(t, cmd, id);
      && (Save(t, cmd) == Err(VersionMismatch) <==> stale)
      && (Save(t, cmd).Err? && Save(t, cmd).error.PluginDashboard? <==> plugin)
      && (plugin ==> Save(t, cmd) == Err(PluginDashboard(t.dashboards[id].pluginId)))
      && (Save(t, cmd) == Err(SameNameExists) <==> passed && taken && !cmd.overwrite)
      && (Save(t, cmd) == Err(DashboardNotFound) <==> (id > 0 && !found) || (id < 0 && !taken))
      && (Save(t, cmd).Ok? <==> passed && (taken ==> cmd.overwrite) && (id < 0 ==> taken))
  {
    var same := ByTitle(t, cmd.org, cmd.slug);
    var id := CommandId(cmd);
    if same.Some? {
      assert same.value != id ==> TitleTaken(t, cmd, id);
      forall d | d != same.value ensures !HasTitle(t, d, cmd.org, cmd.slug) {
      }
    }
  }

  // ---------- whose data a version carries

  /** Save k of a run makes version v of dashboard d. */
  ghost predicate Makes(ops: seq<Operation>, k: nat, d: int, v: int)
    requires k < |ops|
  {
    Succeeds(ops, k) && Stored(State(ops, k), ops[k].cmd, State(ops, k + 1), d, v)
  }

  lemma {:induction false} VersionWasMade(ops: seq<Operation>, i: nat, r: int) returns (k: nat)
    requires i <= |ops| && r in State(ops, i).versions
    ensures var row := State(ops, i).versions[r];
      && k < i && Makes(ops, k, row.dashboard, row.version)
      && row.data.body == ops[k].cmd.body && row.message == ops[k].cmd.message &&
        row.restoredFrom == ops[k].cmd.restoredFrom
    decreases i
  {
    hide History, Save, Stored, Delete, CleanUp;
    k := i - 1;
    var t, u := State(ops, k), State(ops, i);
    HistoryOnEveryRun(ops, k);
    if Succeeds(ops, k) {
      var d, v := SaveStores(t, ops[k].cmd);
      var new_ := NewRowOf(t, ops[k].cmd, u, d, v);
      if r != new_ {
        k := VersionWasMade(ops, k, r);
      }
    } else {
      RowsOnlyGo(t, ops[k], r);
      k := VersionWasMade(ops, k, r);
    }
  }

  lemma NewRowOf(t: Tables, cmd: SaveCommand, u: Tables, d: int, v: int) returns (r: int)
    requires Stored(t, cmd, u, d, v)
    ensures r !in t.versions && VersionStored(t, cmd, u, d, v, r)
  {
    r :| r !in t.versions && VersionStored(t, cmd, u, d, v, r);
  }

  lemma RowsOnlyGo(t: Tables, op: Operation, r: int)
    requires op.SaveOp? ==> Save(t, op.cmd).Err?
    ensures r in Apply(t, op).versions ==> r in t.versions && Apply(t, op).versions[r] == t.versions[r]
  {
  }

  /** No two saves of a run make one version of a dashboard. */
  lemma MadeOnce(ops: seq<Operation>, k: nat, l: nat, d: int, v: int)
    requires k < l < |ops|
    ensures !(Makes(ops, k, d, v) && Makes(ops, l, d, v))
  {
    hide *;
    if Makes(ops, k, d, v) && Makes(ops, l, d, v) {
      MadeIs(ops, k, d, v);
      MadeIs(ops, l, d, v);
      VersionsOnlyGrow(ops, k + 1, l, d);
      LaterMeans(State(ops, k + 1), State(ops, l), d);
    }
  }

  lemma MadeIs(ops: seq<Operation>, k: nat, d: int, v: int)
    requires k < |ops| && Makes(ops, k, d, v)
    ensures d in State(ops, k + 1).dashboards && State(ops, k + 1).dashboards[d].version == v
    ensures d < State(ops, k + 1).nextDashboard
    ensures d in State(ops, k).dashboards ==> v == State(ops, k).dashboards[d].version + 1
    ensures d !in State(ops, k).dashboards ==> d == State(ops, k).nextDashboard
  {
    HistoryOnEveryRun(ops, k + 1);
    hide VersionsOK, Contiguous;
    assert State(ops, k + 1) == Save(State(ops, k), ops[k].cmd).value;
  }

  lemma LaterMeans(t: Tables, u: Tables, d: int)
    requires Later(t, u, d) && d < t.nextDashboard
    ensures t.nextDashboard <= u.nextDashboard
    ensures d in u.dashboards && d in t.dashboards ==> u.dashboards[d].version >= t.dashboards[d].version
  {
  }

  /** On every run the data of a version of a dashboard, its message and what it was restored from are
      those of the one save that made it. */
  lemma VersionsCarrySaves(ops: seq<Operation>, i: nat, r: int) returns (k: nat)
    requires i <= |ops| && r in State(ops, i).versions
    ensures var row := State(ops, i).versions[r];
      && k < i && Makes(ops, k, row.dashboard, row.version)
      && row.data.body == ops[k].cmd.body && row.message == ops[k].cmd.message &&
        row.restoredFrom == ops[k].cmd.restoredFrom
      && forall l :: 0 <= l < |ops| && Makes(ops, l, row.dashboard, row.version) ==> l == k
  {
    hide *;
    k := VersionWasMade(ops, i, r);
    var row := State(ops, i).versions[r];
    forall l | 0 <= l < |ops| && Makes(ops, l, row.dashboard, row.version) ensures l == k {
      if l < k { MadeOnce(ops, l, k, row.dashboard, row.version); }
      if k < l { MadeOnce(ops, k, l, row.dashboard, row.version); }
    }
  }

  // ---------- the store

  class Store {
    var dashboards: map<int, Dashboard>
    var versions: map<int, VersionRow>
    var nextDashboard: int
    var nextVersion: int

    ghost function View(): Tables
      reads this
    {
      Tables(dashboards, versions, nextDashboard, nextVersion)
    }

    constructor ()
      ensures View() == EMPTY
    {
      dashboards, versions, nextDashboard, nextVersion := map[], map[], 1, 1;
    }

    /** The query for a dashboard of the same title. */
    method FindTitle(org: int, slug: string) returns (found: Option<int>)
      requires DashboardsOK(View())
      ensures found == ByTitle(View(), org, slug)
    {
      var rest := dashboards.Keys;
      while rest != {}
        invariant forall id :: id in dashboards && id !in rest ==> !HasTitle(View(), id, org, slug)
        invariant rest <= dashboards.Keys
        decreases rest
      {
        var id := Collections.Pick(rest);
        if dashboards[id].org == org && dashboards[id].slug == slug {
          assert HasTitle(View(), id, org, slug);
          return Some(id);
        }
        rest := rest - {id};
      }
      return None;
    }

    /** SaveDashboard. The fields of `dash` are changed step by step before the row is written. */
    method SaveDashboard(cmd: SaveCommand) returns (result: Result<(int, int)>)
      requires History(View())
      modifies this
      ensures History(View())
      ensures match Save(old(View()), cmd)
        case Err(e) => result == Err(e) && View() == old(View())
        case Ok(t) =>
          && result.Ok? && View() == t
          && Stored(old(View()), cmd, View(), result.value.0, result.value.1)
    {
      hide VersionsOK, Contiguous, DashboardsOK;
      ghost var before := View();
      var id, version := CommandId(cmd), CommandVersion(cmd);
      if id > 0 {
        if id !in dashboards || dashboards[id].org != cmd.org {
          return Err(DashboardNotFound);
        }
        var existing := dashboards[id];
        if version != existing.version {
          if cmd.overwrite {
            version := existing.version;
          } else {
            return Err(VersionMismatch);
          }
        }
        if existing.pluginId != "" && !cmd.overwrite {
          return Err(PluginDashboard(existing.pluginId));
        }
      }
      var sameTitle := FindTitle(cmd.org, cmd.slug);
      if sameTitle.Some? {
        if id != sameTitle.value {
          if cmd.overwrite {
            id := sameTitle.value;
            version := dashboards[id].version;
          } else {
            return Err(SameNameExists);
          }
        }
      }
      var parentVersion := version;
      if id == 0 {
        version := 1;
        id := nextDashboard;
        dashboards := dashboards[id := Dashboard(cmd.org, cmd.slug, version, cmd.pluginId, Data(version, cmd.body))];
        nextDashboard := nextDashboard + 1;
      } else {
        version := version + 1;
        if id !in dashboards {
          return Err(DashboardNotFound);
        }
        dashboards := dashboards[id := Updated(dashboards[id], cmd, version)];
      }
      versions := versions[nextVersion :=
        VersionRow(id, parentVersion, cmd.restoredFrom, version, cmd.message, Data(version, cmd.body))];
      nextVersion := nextVersion + 1;
      SaveKeepsHistory(before, cmd);
      ghost var d, v := SaveStores(before, cmd);
      hide Stored;
      assert d == id && v == version;
      return Ok((id, version));
    }

    /** DeleteDashboard: a dashboard the query matches goes, with all its versions. */
    method DeleteDashboard(org: int, slug: string) returns (result: Result<int>)
      requires History(View())
      modifies this
      ensures History(View())
      ensures result.Ok? ==>
        && View() == Delete(old(View()), result.value)
        && result.value in old(dashboards)
        && (slug == "" || old(dashboards)[result.value].slug == slug)
        && (org == 0 || old(dashboards)[result.value].org == org)
        && dashboards.Keys == old(dashboards).Keys - {result.value}
        && (forall id :: id in dashboards ==> dashboards[id] == old(dashboards)[id])
        && (forall r :: r in versions <==> r in old(versions) && old(versions)[r].dashboard != result.value)
        && (forall r :: r in versions ==> versions[r] == old(versions)[r])
      ensures result.Err? ==>
        && result.error == DashboardNotFound && View() == old(View())
        && forall id :: id in dashboards ==>
             (slug != "" && dashboards[id].slug != slug) || (org != 0 && dashboards[id].org != org)
    {
      hide VersionsOK, Contiguous, DashboardsOK;
      var rest := dashboards.Keys;
      while rest != {}
        invariant View() == old(View())
        invariant forall id :: id in dashboards && id !in rest ==> !Deletable(View(), id, org, slug)
        decreases rest
      {
        var id := Collections.Pick(rest);
        rest := rest - {id};
        if id in dashboards && (slug == "" || dashboards[id].slug == slug) && (org == 0 || dashboards[id].org == org) {
          DeleteKeepsHistory(View(), id);
          dashboards := dashboards - {id};
          versions := map r | r in versions && versions[r].dashboard != id :: versions[r];
          return Ok(id);
        }
      }
      return Err(DashboardNotFound);
    }

    method DeleteExpiredVersions(versionsToKeep: int)
      requires History(View())
      modifies this`versions
      ensures History(View()) && View() == CleanUp(old(View()), Kept(versionsToKeep))
      ensures forall r :: r in versions ==> r in old(versions) && versions[r] == old(versions)[r]
      ensures forall r :: r in old(versions) ==>
        var newest := dashboards[old(versions)[r].dashboard].version;
        && (r in versions <==>
              old(versions)[r].version == newest || old(versions)[r].version > newest - versionsToKeep)
    {
      hide Contiguous, DashboardsOK, Selection, Rank;
      var keep := Kept(versionsToKeep);
      ghost var before := View();
      var rows := SelectExpired(keep);
      var ids := GetVersionIdsToDelete(rows, keep);
      assert forall r :: r in ids <==> Expired(before, keep, r);
      versions := map r | r in versions && r !in ids :: versions[r];
      assert View() == CleanUp(before, keep);
      hide CleanUp, Expired;
      CleanUpKeepsHistory(before, keep);
      forall r | r in before.versions
        ensures r in versions <==> before.versions[r].version > dashboards[before.versions[r].dashboard].version - keep
      {
        CleanUpKeepsNewest(before, keep, r);
      }
    }

    /** The query for the versions of dashboards with more than `keep` of them. */
    method SelectExpired(keep: nat) returns (rows: seq<VersionExp>)
      ensures rows == Selection(View(), keep)
    {
      BeforeTotal();
      rows := Sorting.SortSet(Candidates(Tables(dashboards, versions, nextDashboard, nextVersion), keep), Before);
    }
  }
}
