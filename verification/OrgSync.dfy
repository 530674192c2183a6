/** Synchronising a user's org roles with their LDAP groups, over the org_user table. */
module OrgSync {
  import opened Options
  import Collections

  datatype Error = LastOrgAdmin | OrgUserNotFound | OrgUserAlreadyAdded | OrgNotFound

  type Role = string

  const ADMIN: Role := "Admin"

  datatype Key = Key(org: int, user: int)

  type Members = map<Key, Role>

  datatype Mapping = Mapping(groupDN: string, org: int, role: Role)

  // ---------- groups

  /** isMemberOf */
  predicate IsMemberOf(memberOf: seq<string>, group: string) {
    group == "*" || group in memberOf
  }

  /** The role of the first mapping for the org whose group the user belongs to. */
  function FirstMatch(groups: seq<Mapping>, memberOf: seq<string>, org: int): Option<Role> {
    if groups == [] then None
    else if groups[0].org == org && IsMemberOf(memberOf, groups[0].groupDN) then Some(groups[0].role)
    else FirstMatch(groups[1..], memberOf, org)
  }

  /** A mapping is for the org and for everyone, or for a group the user is in. */
  predicate Applies(g: Mapping, memberOf: seq<string>, org: int) {
    g.org == org && (g.groupDN == "*" || exists k :: 0 <= k < |memberOf| && memberOf[k] == g.groupDN)
  }

  /** The match is the first mapping that applies. */
  lemma {:induction false} FirstMatchExactly(groups: seq<Mapping>, memberOf: seq<string>, org: int)
    ensures match FirstMatch(groups, memberOf, org)
      case None => forall i :: 0 <= i < |groups| ==> !Applies(groups[i], memberOf, org)
      case Some(role) =>
        exists i :: 0 <= i < |groups| && Applies(groups[i], memberOf, org) && groups[i].role == role &&
          forall j :: 0 <= j < i ==> !Applies(groups[j], memberOf, org)
  {
    if groups != [] {
      var rest := groups[1..];
      FirstMatchExactly(rest, memberOf, org);
      assert forall i :: 0 < i < |groups| ==> groups[i] == rest[i - 1];
      if Applies(groups[0], memberOf, org) {
      } else if FirstMatch(rest, memberOf, org).Some? {
        var i :| 0 <= i < |rest| && Applies(rest[i], memberOf, org) &&
          rest[i].role == FirstMatch(rest, memberOf, org).value &&
          forall j :: 0 <= j < i ==> !Applies(rest[j], memberOf, org);
        assert Applies(groups[i + 1], memberOf, org);
      }
    }
  }

  lemma {:induction false} FirstMatchSnoc(groups: seq<Mapping>, g: Mapping, memberOf: seq<string>, org: int)
    ensures FirstMatch(groups + [g], memberOf, org) ==
      if FirstMatch(groups, memberOf, org).Some? then FirstMatch(groups, memberOf, org)
      else if g.org == org && IsMemberOf(memberOf, g.groupDN) then Some(g.role)
      else None
  {
    if groups == [] {
      assert (groups + [g])[1..] == [];
    } else {
      assert (groups + [g])[1..] == groups[1..] + [g];
      FirstMatchSnoc(groups[1..], g, memberOf, org);
    }
  }

  // ---------- the org_user operations

  ghost predicate HasAdmin(m: Members, org: int) {
    exists user :: IsAdmin(m, org, user)
  }

  predicate IsAdmin(m: Members, org: int, user: int) {
    Key(org, user) in m && m[Key(org, user)] == ADMIN
  }

  ghost predicate OtherAdmin(m: Members, org: int, user: int) {
    exists other :: other != user && IsAdmin(m, org, other)
  }

  /** An update of a row skips an empty role. */
  function Written(old_: Role, role: Role): Role {
    if role == "" then old_ else role
  }

  class OrgStore {
    var orgs: set<int>
    var members: Members

    /** Rows of org_user belong to existing orgs. */
    ghost predicate Valid()
      reads this
    {
      forall k :: k in members ==> k.org in orgs
    }

    constructor (orgs: set<int>)
      ensures Valid() && this.orgs == orgs && members == map[]
    {
      this.orgs, members := orgs, map[];
    }

    method AddOrgUser(org: int, user: int, role: Role) returns (err: Option<Error>)
      requires Valid()
      modifies this`members
      ensures Valid()
      ensures err == if Key(org, user) in old(members) then Some(OrgUserAlreadyAdded)
                     else if org !in orgs then Some(OrgNotFound)
                     else None
      ensures members == if err.None? then old(members)[Key(org, user) := role] else old(members)
    {
      if Key(org, user) in members {
        return Some(OrgUserAlreadyAdded);
      }
      if org !in orgs {
        return Some(OrgNotFound);
      }
      members := members[Key(org, user) := role];
      return None;
    }

    method UpdateOrgUser(org: int, user: int, role: Role) returns (err: Option<Error>)
      requires Valid()
      modifies this`members
      ensures Valid()
      ensures Key(org, user) !in old(members) ==> err == Some(OrgUserNotFound) && members == old(members)
      ensures Key(org, user) in old(members) ==>
        var updated := old(members)[Key(org, user) := Written(old(members)[Key(org, user)], role)];
        if HasAdmin(updated, org) then err == None && members == updated
          else err == Some(LastOrgAdmin) && members == old(members)
    {
      var saved := members;
      if Key(org, user) !in members {
        return Some(OrgUserNotFound);
      }
      members := members[Key(org, user) := Written(members[Key(org, user)], role)];
      err := ValidateOneAdminLeftInOrg(org);
      if err.Some? {
        members := saved;
      }
    }

    method RemoveOrgUser(org: int, user: int) returns (err: Option<Error>)
      requires Valid()
      modifies this`members
      ensures Valid()
      ensures var removed := old(members) - {Key(org, user)};
        if HasAdmin(removed, org) then err == None && members == removed
          else err == Some(LastOrgAdmin) && members == old(members)
    {
      var saved := members;
      members := members - {Key(org, user)};
      err := ValidateOneAdminLeftInOrg(org);
      if err.Some? {
        members := saved;
      }
    }

    method ValidateOneAdminLeftInOrg(org: int) returns (err: Option<Error>)
      ensures err == if HasAdmin(members, org) then None else Some(LastOrgAdmin)
      ensures err.None? <==> exists k :: k in members && k.org == org && members[k] == "Admin"
    {
      var rest := members.Keys;
      while rest != {}
        invariant rest <= members.Keys
        invariant forall k :: k in members && k !in rest ==> !(k.org == org && members[k] == ADMIN)
        decreases rest
      {
        var k := Collections.Pick(rest);
        if k.org == org && members[k] == ADMIN {
          assert IsAdmin(members, org, k.user);
          return None;
        }
        rest := rest - {k};
      }
      return Some(LastOrgAdmin);
    }

    /** The orgs the user is in. */
    method GetUserOrgList(user: int) returns (result: set<int>)
      requires Valid()
      ensures result == OrgsOf(members, user)
    {
      result := set k | k in members && k.user == user && k.org in orgs :: k.org;
    }

    /** isMemberOf, as the loop it is. */
    method SearchGroup(memberOf: seq<string>, group: string) returns (found: bool)
      ensures found == IsMemberOf(memberOf, group)
      ensures found <==> group == "*" || exists i :: 0 <= i < |memberOf| && memberOf[i] == group
    {
      if group == "*" {
        return true;
      }
      for i := 0 to |memberOf|
        invariant group !in memberOf[..i]
      {
        if memberOf[i] == group {
          return true;
        }
      }
      return false;
    }

    /** The inner loop for one org of the user: update, remove or leave the row. */
    method SyncOrg(org: int, user: int, groups: seq<Mapping>, memberOf: seq<string>) returns (err: Option<Error>)
      requires Valid() && Key(org, user) in members
      modifies this`members
      ensures Valid()
      ensures err.None? <==> Allowed(old(members), org, user, FirstMatch(groups, memberOf, org))
      ensures members == if err.None? then Settled(old(members), org, user, FirstMatch(groups, memberOf, org))
        else old(members)
      ensures HasAdmin(old(members), org) ==> HasAdmin(members, org)
    {
      var key := Key(org, user);
      var i := 0;
      while i < |groups|
        invariant i <= |groups| && members == old(members)
        invariant FirstMatch(groups[i..], memberOf, org) == FirstMatch(groups, memberOf, org)
      {
        var group := groups[i];
        assert groups[i..][1..] == groups[i + 1..];
        if group.org == org {
          var member := SearchGroup(memberOf, group.groupDN);
          if member {
            AdminAfterUpdate(members, org, user, Written(members[key], group.role));
            if members[key] != group.role {
              err := UpdateOrgUser(org, user, group.role);
              return;
            }
            assert members[key := group.role] == members;
            return None;
          }
        }
        i := i + 1;
      }
      assert groups[i..] == [];
      AdminAfterRemoval(members, org, user);
      err := RemoveOrgUser(org, user);
    }

    /** SyncOrgRoles: first the orgs the user is in, then the orgs of the other mappings. It
        fails exactly when some change would leave an org without an admin; even then no org
        loses its last admin and no other user is touched. */
    method SyncOrgRoles(user: int, groups: seq<Mapping>, memberOf: seq<string>) returns (err: Option<Error>)
      requires Valid()
      modifies this`members
      ensures Valid()
      ensures groups == [] ==> err.None? && members == old(members)
      ensures groups != [] ==> (err.None? <==> AllAllowed(old(members), user, groups, memberOf))
      ensures groups != [] && err.None? ==> members == Synced(orgs, old(members), user, groups, memberOf)
      ensures forall org :: HasAdmin(old(members), org) ==> HasAdmin(members, org)
      ensures forall k: Key :: k.user != user ==> SameRow(members, old(members), k)
    {
      if |groups| == 0 {
        return None;
      }
      var result := GetUserOrgList(user);
      ghost var before := members;
      assert forall org :: org in result <==> Key(org, user) in before;
      err := SyncExisting(user, result, groups, memberOf);
      if err.Some? {
        return;
      }
      ghost var middle := members;
      forall org | org !in result ensures Key(org, user) !in members {
        assert SameRow(members, before, Key(org, user));
      }
      hide HasAdmin, AllAllowed, Synced;
      AddMissing(user, groups, memberOf, result, before);
      BothLoops(orgs, before, middle, members, user, groups, memberOf);
      return None;
    }

    /** The first loop: the orgs the user is in. */
    method SyncExisting(user: int, result: set<int>, groups: seq<Mapping>, memberOf: seq<string>)
      returns (err: Option<Error>)
      requires Valid() && forall org :: org in result <==> Key(org, user) in members
      modifies this`members
      ensures Valid()
      ensures err.None? <==> AllAllowed(old(members), user, groups, memberOf)
      ensures forall k: Key :: !(k.user == user && k.org in result) ==> SameRow(members, old(members), k)
      ensures err.None? ==> forall org :: org in result ==>
        SameRow(members, Settled(old(members), org, user, FirstMatch(groups, memberOf, org)), Key(org, user))
      ensures forall org :: HasAdmin(old(members), org) ==> HasAdmin(members, org)
    {
      hide HasAdmin, Allowed, Settled;
      ghost var before := members;
      var rest := result;
      while rest != {}
        invariant rest <= result && Valid()
        invariant forall k: Key :: !(k.user == user && k.org in result && k.org !in rest) ==>
          SameRow(members, before, k)
        invariant forall org :: org in result && org !in rest ==>
          && Allowed(before, org, user, FirstMatch(groups, memberOf, org))
          && SameRow(members, Settled(before, org, user, FirstMatch(groups, memberOf, org)), Key(org, user))
        invariant forall org :: HasAdmin(before, org) ==> HasAdmin(members, org)
        decreases rest
      {
        var org := Collections.Pick(rest);
        rest := rest - {org};
        ghost var now, match_ := members, FirstMatch(groups, memberOf, org);
        assert SameRow(members, before, Key(org, user));
        AllowedLocal(before, members, org, user, match_);
        SettledLocal(before, members, org, user, match_);
        err := SyncOrg(org, user, groups, memberOf);
        if err.None? {
          forall k: Key | k != Key(org, user) ensures SameRow(members, now, k) {
            assert SameRow(Settled(now, org, user, match_), now, k);
          }
          forall k: Key | k != Key(org, user) && SameRow(now, before, k) ensures SameRow(members, before, k) {
            assert SameRow(members, now, k);
          }
          forall o | o in result && o !in rest && o != org
            ensures SameRow(members, Settled(before, o, user, FirstMatch(groups, memberOf, o)), Key(o, user))
          {
            assert SameRow(members, now, Key(o, user));
          }
        }
        forall o | HasAdmin(before, o) ensures HasAdmin(members, o) {
          if o != org { AdminLocal(now, members, o); }
        }
        if err.Some? {
          return;
        }
      }
      return None;
    }

    /** The second loop: the orgs of mappings the user was not in. */
    method AddMissing(user: int, groups: seq<Mapping>, memberOf: seq<string>, handled: set<int>, ghost before: Members)
      requires Valid()
      requires forall org :: org in handled <==> Key(org, user) in before
      requires forall org :: org !in handled ==> Key(org, user) !in members
      modifies this`members
      ensures Valid()
      ensures forall k: Key :: k.user != user || k.org in handled ==> SameRow(members, old(members), k)
      ensures forall org :: org !in handled ==>
        var role := FirstMatch(groups, memberOf, org);
        if org in orgs && role.Some? then Key(org, user) in members && members[Key(org, user)] == role.value
        else Key(org, user) !in members
      ensures forall org :: HasAdmin(old(members), org) ==> HasAdmin(members, org)
    {
      var handledOrgIds := handled;
      var i := 0;
      while i < |groups|
        invariant i <= |groups| && Valid()
        invariant forall org :: org in handledOrgIds <==> org in handled || FirstMatch(groups[..i], memberOf, org).Some?
        invariant forall k: Key :: k.user != user || k.org in handled ==> SameRow(members, old(members), k)
        invariant forall org :: org !in handled ==>
          var role := FirstMatch(groups[..i], memberOf, org);
          if org in orgs && role.Some? then Key(org, user) in members && members[Key(org, user)] == role.value
          else Key(org, user) !in members
      {
        var group := groups[i];
        assert groups[..i + 1] == groups[..i] + [group];
        forall org ensures FirstMatch(groups[..i + 1], memberOf, org) ==
          if FirstMatch(groups[..i], memberOf, org).Some? then FirstMatch(groups[..i], memberOf, org)
          else if group.org == org && IsMemberOf(memberOf, group.groupDN) then Some(group.role)
          else None
        {
          FirstMatchSnoc(groups[..i], group, memberOf, org);
        }
        i := i + 1;
        var member := SearchGroup(memberOf, group.groupDN);
        if !member {
          continue;
        }
        if group.org in handledOrgIds {
          continue;
        }
        var err := AddOrgUser(group.org, user, group.role);
        if err.Some? && err != Some(OrgNotFound) {
          assert false;
        }
        handledOrgIds := handledOrgIds + {group.org};
      }
      assert groups[..i] == groups;
      forall org | HasAdmin(old(members), org) ensures HasAdmin(members, org) {
        var a :| IsAdmin(old(members), org, a);
        assert SameRow(members, old(members), Key(org, a));
        assert IsAdmin(members, org, a);
      }
    }
  }

  predicate SameRow(a: Members, b: Members, k: Key) {
    (k in a <==> k in b) && (k in a ==> a[k] == b[k])
  }

  ghost predicate AllAllowed(m: Members, user: int, groups: seq<Mapping>, memberOf: seq<string>) {
    forall org :: Key(org, user) in m ==> Allowed(m, org, user, FirstMatch(groups, memberOf, org))
  }

  /** The table after a successful sync: other users as before, and this user in exactly the
      existing orgs with a matching mapping. */
  function Synced(orgs: set<int>, m: Members, user: int, groups: seq<Mapping>, memberOf: seq<string>): Members {
    (map k | k in m && k.user != user :: m[k])
    + (map org | org in orgs && FirstMatch(groups, memberOf, org).Some? ::
         Key(org, user) := SyncedRole(m, Key(org, user), FirstMatch(groups, memberOf, org).value))
  }

  function SyncedRole(m: Members, k: Key, role: Role): Role {
    if k in m then Written(m[k], role) else role
  }

  /** What the two loops do, put together. */
  lemma BothLoops(orgs: set<int>, before: Members, middle: Members, after: Members, user: int, groups: seq<Mapping>,
    memberOf: seq<string>)
    requires forall k :: k in before ==> k.org in orgs
    requires forall k: Key :: !(k.user == user && k in before) ==> SameRow(middle, before, k)
    requires forall org :: Key(org, user) in before ==>
      SameRow(middle, Settled(before, org, user, FirstMatch(groups, memberOf, org)), Key(org, user))
    requires forall k: Key :: k.user != user || Key(k.org, user) in before ==> SameRow(after, middle, k)
    requires forall org :: Key(org, user) !in before ==>
        var role := FirstMatch(groups, memberOf, org);
        if org in orgs && role.Some? then Key(org, user) in after && after[Key(org, user)] == role.value
        else Key(org, user) !in after
    ensures after == Synced(orgs, before, user, groups, memberOf)
    ensures forall k: Key :: k.user != user ==> SameRow(after, before, k)
  {
    var t := Synced(orgs, before, user, groups, memberOf);
    forall k: Key ensures SameRow(after, t, k) && (k.user != user ==> SameRow(after, before, k)) {
      if k.user != user {
        assert SameRow(after, middle, k) && SameRow(middle, before, k);
      } else if k in before {
        assert SameRow(after, middle, k);
        assert Key(k.org, user) == k;
        assert SameRow(middle, Settled(before, k.org, user, FirstMatch(groups, memberOf, k.org)), k);
      } else {
        assert Key(k.org, user) == k;
      }
    }
    SameMembers(after, t);
  }

  lemma AllowedLocal(a: Members, b: Members, org: int, user: int, match_: Option<Role>)
    requires Key(org, user) in a
    requires forall k: Key :: k.org == org ==> SameRow(b, a, k)
    ensures Key(org, user) in b && (Allowed(a, org, user, match_) <==> Allowed(b, org, user, match_))
  {
    assert SameRow(b, a, Key(org, user));
    assert forall u :: IsAdmin(a, org, u) <==> IsAdmin(b, org, u) by {
      forall u ensures IsAdmin(a, org, u) <==> IsAdmin(b, org, u) { assert SameRow(b, a, Key(org, u)); }
    }
  }

  lemma SettledLocal(a: Members, b: Members, org: int, user: int, match_: Option<Role>)
    requires Key(org, user) in a && SameRow(b, a, Key(org, user))
    ensures SameRow(Settled(b, org, user, match_), Settled(a, org, user, match_), Key(org, user))
    ensures forall k :: k != Key(org, user) ==> SameRow(Settled(b, org, user, match_), b, k)
  {
  }

  lemma AdminLocal(a: Members, b: Members, org: int)
    requires forall k: Key :: k.org == org ==> SameRow(b, a, k)
    ensures HasAdmin(a, org) ==> HasAdmin(b, org)
  {
    if HasAdmin(a, org) {
      var u :| IsAdmin(a, org, u);
      assert SameRow(b, a, Key(org, u));
      assert IsAdmin(b, org, u);
    }
  }

  /** What a nil result means: in every existing org the user has the role of the first
      mapping whose group they belong to, and no row where there is none - except where that
      mapping's role is empty and the user already had another. */
  lemma SyncedMeets(orgs: set<int>, m: Members, user: int, groups: seq<Mapping>, memberOf: seq<string>, org: int)
    ensures var t, role, key :=
      Synced(orgs, m, user, groups, memberOf), FirstMatch(groups, memberOf, org), Key(org, user);
      (if org in orgs && role.Some? then key in t && t[key] == role.value else key !in t)
      <==> !(org in orgs && role == Some("") && key in m && m[key] != "")
  {
    var t, role, key := Synced(orgs, m, user, groups, memberOf), FirstMatch(groups, memberOf, org), Key(org, user);
    if org in orgs && role.Some? {
      assert t[key] == SyncedRole(m, key, role.value);
    }
  }

  /** A second sync of the same user succeeds and changes nothing. */
  lemma SyncTwice(orgs: set<int>, m: Members, user: int, groups: seq<Mapping>, memberOf: seq<string>)
    requires forall k :: k in m ==> k.org in orgs
    requires AllAllowed(m, user, groups, memberOf)
    ensures var t := Synced(orgs, m, user, groups, memberOf);
      AllAllowed(t, user, groups, memberOf) && Synced(orgs, t, user, groups, memberOf) == t
  {
    var t := Synced(orgs, m, user, groups, memberOf);
    forall org | Key(org, user) in t ensures Allowed(t, org, user, FirstMatch(groups, memberOf, org)) {
      var key, role := Key(org, user), FirstMatch(groups, memberOf, org).value;
      assert t[key] == SyncedRole(m, key, role);
      if t[key] != role {
        assert key in m && role == "" && t[key] == m[key];
        assert Allowed(m, org, user, Some(role));
        if OtherAdmin(m, org, user) {
          var other :| other != user && IsAdmin(m, org, other);
          assert IsAdmin(t, org, other);
        }
      }
    }
    var u := Synced(orgs, t, user, groups, memberOf);
    forall k ensures SameRow(u, t, k) {
    }
    SameMembers(u, t);
  }

  lemma SameMembers(a: Members, b: Members)
    requires forall k :: SameRow(a, b, k)
    ensures a == b
  {
    forall k: Key ensures (k in a <==> k in b) && (k in a ==> a[k] == b[k]) {
      assert SameRow(a, b, k);
    }
  }

  function OrgsOf(m: Members, user: int): set<int> {
    set k | k in m && k.user == user :: k.org
  }

  /** Whether the change the sync wants for one org of the user goes through: the org must
      keep an admin if a row is touched. */
  ghost predicate Allowed(m: Members, org: int, user: int, match_: Option<Role>)
    requires Key(org, user) in m
  {
    var role := m[Key(org, user)];
    if match_.None? then OtherAdmin(m, org, user)
    else match_.value == role || OtherAdmin(m, org, user) || Written(role, match_.value) == ADMIN
  }

  /** A change goes through if it is none, or leaves the org someone with the role "Admin". */
  lemma AllowedExactly(m: Members, org: int, user: int, match_: Option<Role>)
    requires Key(org, user) in m
    ensures Allowed(m, org, user, match_) <==>
      match_ == Some(m[Key(org, user)]) ||
      exists k :: k in Settled(m, org, user, match_) && k.org == org && Settled(m, org, user, match_)[k] == "Admin"
  {
    var t := Settled(m, org, user, match_);
    if match_.Some? {
      AdminAfterUpdate(m, org, user, Written(m[Key(org, user)], match_.value));
    } else {
      AdminAfterRemoval(m, org, user);
    }
    assert HasAdmin(t, org) <==> exists k :: k in t && k.org == org && t[k] == "Admin" by {
      if HasAdmin(t, org) {
        var u :| IsAdmin(t, org, u);
        assert Key(org, u) in t;
      }
      if k :| k in t && k.org == org && t[k] == "Admin" {
        assert Key(k.org, k.user) == k;
        assert IsAdmin(t, org, k.user);
      }
    }
  }

  function Settled(m: Members, org: int, user: int, match_: Option<Role>): Members
    requires Key(org, user) in m
  {
    var key := Key(org, user);
    if match_.None? then m - {key} else m[key := Written(m[key], match_.value)]
  }

  lemma AdminAfterUpdate(m: Members, org: int, user: int, role: Role)
    ensures HasAdmin(m[Key(org, user) := role], org) <==> OtherAdmin(m, org, user) || role == ADMIN
  {
    var u := m[Key(org, user) := role];
    if OtherAdmin(m, org, user) {
      var other :| other != user && IsAdmin(m, org, other);
      assert IsAdmin(u, org, other);
    }
    if role == ADMIN {
      assert IsAdmin(u, org, user);
    }
    if HasAdmin(u, org) {
      var a :| IsAdmin(u, org, a);
      assert a != user ==> IsAdmin(m, org, a);
    }
  }

  lemma AdminAfterRemoval(m: Members, org: int, user: int)
    ensures HasAdmin(m - {Key(org, user)}, org) <==> OtherAdmin(m, org, user)
  {
    var u := m - {Key(org, user)};
    if OtherAdmin(m, org, user) {
      var other :| other != user && IsAdmin(m, org, other);
      assert IsAdmin(u, org, other);
    }
    if HasAdmin(u, org) {
      var a :| IsAdmin(u, org, a);
      assert a != user && IsAdmin(m, org, a);
    }
  }
}
