/** Access lists as GeoServer sees them (src/layman/common/geoserver/__init__.py, src/geoserver/util.py). */
module GeoServerRoles {
  import opened Wrappers
  import opened Names
  import opened AccessRights

  const ROLE_ANONYMOUS := "ROLE_ANONYMOUS"
  const ROLE_AUTHENTICATED := "ROLE_AUTHENTICATED"

  function UsernameToRolename(user: string): string {
    INTERNAL_PREFIX + Upper(user)
  }

  function RolesFor(name: string): set<string> {
    if name == EVERYONE then {ROLE_ANONYMOUS, ROLE_AUTHENTICATED}
    else if IsUser(name) then {UsernameToRolename(name)}
    else {name}
  }

  /** What the loop of `layman_users_and_roles_to_geoserver_roles` collects. */
  ghost function Translation(names: set<string>): set<string> {
    set n, r | n in names && r in RolesFor(n) :: r
  }

  lemma TranslationGrows(names: set<string>, name: string)
    ensures Translation(names + {name}) == Translation(names) + RolesFor(name)
  {
  }

  method Translate(names: seq<string>) returns (roles: set<string>)
    ensures roles == Translation(Elements(names))
  {
    roles := {};
    for i := 0 to |names|
      invariant roles == Translation(Elements(names[..i]))
    {
      var name := names[i];
      TranslationGrows(Elements(names[..i]), name);
      assert Elements(names[..i + 1]) == Elements(names[..i]) + {name};
      if name == EVERYONE {
        roles := roles + {ROLE_ANONYMOUS};
        roles := roles + {ROLE_AUTHENTICATED};
      } else if IsUser(name) {
        roles := roles + {UsernameToRolename(name)};
      } else {
        roles := roles + {name};
      }
    }
    assert names[..|names|] == names;
  }

  /** A list that passed the checks: registered user names and roles that are neither internal nor reserved. */
  predicate ValidList(env: Env, names: set<string>) {
    && (forall u | u in Users(names) :: IsWorkspaceName(u))
    && ValidRoles(env, names)
  }

  /** The roles that the role service may give a user: her own internal role, Layman's administrative roles and
      business roles; no other internal role. */
  predicate ValidAssignment(env: Env, user: string) {
    && IsWorkspaceName(user)
    && UsernameToRolename(user) in AssignedRoles(env, user)
    && forall r | r in AssignedRoles(env, user) ::
         && (IsInternalRole(r) ==> r == UsernameToRolename(user))
         && r != ROLE_ANONYMOUS && r != ROLE_AUTHENTICATED && r != EVERYONE
         && (IsInternalRole(r) || IsRoleName(r))
  }

  /** GeoServer lets an authenticated user in when one of her roles is among the layer's roles. */
  ghost predicate GeoServerAdmits(env: Env, user: string, names: set<string>) {
    (AssignedRoles(env, user) + {ROLE_AUTHENTICATED}) * Translation(names) != {}
  }

  lemma ListedRole(env: Env, names: set<string>, n: string)
    requires ValidList(env, names) && n in names && !IsUser(n) && n != EVERYONE
    ensures ValidRole(env, n)
  {
    assert n in Roles(names) - {EVERYONE};
  }

  lemma OwnRole(env: Env, user: string, names: set<string>)
    requires ValidList(env, names) && IsWorkspaceName(user)
    ensures UsernameToRolename(user) in Translation(names) <==> user in names
  {
    WorkspaceNameIsUser(user);
    var own := UsernameToRolename(user);
    if user in names {
      EveryoneIsNoUser();
      assert own in RolesFor(user);
    }
    if own in Translation(names) {
      var n :| n in names && own in RolesFor(n);
      assert own[0] == 'U' && ROLE_ANONYMOUS[0] == 'R';
      if IsUser(n) && n != EVERYONE {
        assert own == UsernameToRolename(n);
        assert own[5..] == Upper(user) && UsernameToRolename(n)[5..] == Upper(n);
        assert n in Users(names);
        UpperIsInjective(user, n);
      } else if n != EVERYONE {
        ListedRole(env, names, n);
      }
    }
  }

  lemma EveryoneTranslated(env: Env, names: set<string>)
    requires ValidList(env, names)
    ensures ROLE_AUTHENTICATED in Translation(names) <==> EVERYONE in names
  {
    if EVERYONE in names {
      assert ROLE_AUTHENTICATED in RolesFor(EVERYONE);
    }
    if ROLE_AUTHENTICATED in Translation(names) {
      var n :| n in names && ROLE_AUTHENTICATED in RolesFor(n);
      assert UsernameToRolename(n)[0] == 'U';
      if !IsUser(n) && n != EVERYONE {
        ListedRole(env, names, n);
      }
    }
  }

  /** A role that is no internal or special role is translated to itself. */
  lemma BusinessRole(env: Env, names: set<string>, role: string)
    requires ValidList(env, names) && !IsUser(role) && !IsInternalRole(role)
    requires role != ROLE_ANONYMOUS && role != ROLE_AUTHENTICATED && role != EVERYONE
    ensures role in Translation(names) <==> role in names
  {
    if role in names {
      assert role in RolesFor(role);
    }
    if role in Translation(names) {
      var n :| n in names && role in RolesFor(n);
      if IsUser(n) && n != EVERYONE {
        assert UsernameToRolename(n)[..5] == INTERNAL_PREFIX;
      }
    }
  }

  /** GeoServer admits exactly the users that Layman admits and, if the list names GROUP_ADMIN, the group
      administrators: the refused names hold ADMIN_GROUP instead, while get_user_roles leaves GROUP_ADMIN out. */
  lemma GeoServerAgrees(env: Env, user: string, names: set<string>)
    requires ValidList(env, names) && ValidAssignment(env, user)
    ensures GeoServerAdmits(env, user, names) <==>
      InAccessRule(env, user, names) || (GROUP_ADMIN in names && GROUP_ADMIN in AssignedRoles(env, user))
  {
    OwnRole(env, user, names);
    EveryoneTranslated(env, names);
    WorkspaceNameIsUser(user);
    assert !IsUser(EVERYONE) && !IsUser(GROUP_ADMIN);
    forall r | r in AssignedRoles(env, user) && !IsInternalRole(r)
      ensures r in Translation(names) <==> r in names
      ensures r in names && r != GROUP_ADMIN ==> r in Roles(names) * UserRoles(env, user)
    {
      RoleNameIsNoUser(r);
      BusinessRole(env, names, r);
      if r in names {
        ListedRole(env, names, r);
      }
    }
    if GeoServerAdmits(env, user, names) {
      var r :| r in (AssignedRoles(env, user) + {ROLE_AUTHENTICATED}) * Translation(names);
      assert r in AssignedRoles(env, user) && !IsInternalRole(r) ==> r in names;
    }
    if InAccessRule(env, user, names) && EVERYONE !in names && user !in names {
      var r :| r in Roles(names) * UserRoles(env, user);
      assert r in AssignedRoles(env, user) * Translation(names);
    }
    if EVERYONE in names {
      assert ROLE_AUTHENTICATED in (AssignedRoles(env, user) + {ROLE_AUTHENTICATED}) * Translation(names);
    }
    if user in names {
      assert UsernameToRolename(user) in (AssignedRoles(env, user) + {ROLE_AUTHENTICATED}) * Translation(names);
    }
  }

  lemma GroupAdminIsRoleName()
    ensures IsRoleName(GROUP_ADMIN)
  {
    assert IsRoleTail("");
    RoleTailAfterWord("DMIN", "");
    assert "DMIN" + "" == "DMIN" && "ADMIN"[1..] == "DMIN" && "_ADMIN"[1..] == "ADMIN";
    RoleTailAfterWord("ROUP", "_ADMIN");
    assert GROUP_ADMIN[1..] == "ROUP" + "_ADMIN";
  }

  lemma NotReserved(env: Env, role: string)
    requires role != "" && role[0] == 'G' && role != env.laymanRole
    ensures role !in ReservedRoles(env) && !IsInternalRole(role)
  {
  }

  /** The difference is real: where the role service lists GROUP_ADMIN, an access list may name it, unless Layman's own
      role has that name. */
  lemma GroupAdminIsAccepted(env: Env)
    ensures ValidRole(env, GROUP_ADMIN) <==> GROUP_ADMIN in env.roles && env.laymanRole != GROUP_ADMIN
  {
    GroupAdminIsRoleName();
    if env.laymanRole != GROUP_ADMIN {
      NotReserved(env, GROUP_ADMIN);
    }
  }

  /** A group administrator whom GeoServer lets in by a list that Layman reads otherwise. */
  lemma GroupAdminIsAdmitted(env: Env, user: string, other: string)
    requires IsWorkspaceName(user) && IsWorkspaceName(other) && user != other && other in env.users
    requires GROUP_ADMIN in env.roles && env.laymanRole != GROUP_ADMIN
    requires user in env.granted && env.granted[user] == {UsernameToRolename(user), GROUP_ADMIN}
    ensures var names := {other, GROUP_ADMIN};
      && CheckNames(env, names) == None && ValidList(env, names) && ValidAssignment(env, user)
      && GeoServerAdmits(env, user, names) && !InAccessRule(env, user, names)
  {
    GroupAdminListIsValid(env, other);
    GroupAdminIsAssigned(env, user);
    GroupAdminIsRefused(env, user, other);
    GeoServerAgrees(env, user, {other, GROUP_ADMIN});
  }

  lemma GroupAdminListIsValid(env: Env, other: string)
    requires IsWorkspaceName(other) && other in env.users && GROUP_ADMIN in env.roles && env.laymanRole != GROUP_ADMIN
    ensures CheckNames(env, {other, GROUP_ADMIN}) == None && ValidList(env, {other, GROUP_ADMIN})
  {
    GroupAdminNames(other);
    GroupAdminIsAccepted(env);
  }

  lemma GroupAdminIsAssigned(env: Env, user: string)
    requires IsWorkspaceName(user)
    requires user in env.granted && env.granted[user] == {UsernameToRolename(user), GROUP_ADMIN}
    ensures ValidAssignment(env, user) && GROUP_ADMIN in AssignedRoles(env, user)
  {
    GroupAdminIsRoleName();
    UserRolename(user);
    GroupAdminNames(user);
  }

  lemma GroupAdminIsRefused(env: Env, user: string, other: string)
    requires IsWorkspaceName(other) && user != other
    requires user in env.granted && env.granted[user] == {UsernameToRolename(user), GROUP_ADMIN}
    ensures !InAccessRule(env, user, {other, GROUP_ADMIN})
  {
    GroupAdminNames(other);
    assert GROUP_ADMIN !in UserRoles(env, user);
  }

  lemma GroupAdminNames(other: string)
    requires IsWorkspaceName(other)
    ensures Users({other, GROUP_ADMIN}) == {other} && Roles({other, GROUP_ADMIN}) == {GROUP_ADMIN}
    ensures GROUP_ADMIN != EVERYONE
  {
    WorkspaceNameIsUser(other);
    GroupAdminIsRoleName();
    RoleNameIsNoUser(GROUP_ADMIN);
    assert GROUP_ADMIN[0] == 'G' && EVERYONE[0] == 'E';
  }

  /** An internal role is none of the special roles, and GROUP_ADMIN is not internal. */
  lemma UserRolename(user: string)
    ensures IsInternalRole(UsernameToRolename(user)) && !IsInternalRole(GROUP_ADMIN)
    ensures UsernameToRolename(user) != ROLE_ANONYMOUS && UsernameToRolename(user) != ROLE_AUTHENTICATED
    ensures UsernameToRolename(user) != EVERYONE && UsernameToRolename(user) != GROUP_ADMIN
    ensures GROUP_ADMIN != ROLE_ANONYMOUS && GROUP_ADMIN != ROLE_AUTHENTICATED
  {
    assert UsernameToRolename(user)[0] == 'U' && ROLE_ANONYMOUS[0] == 'R' && ROLE_AUTHENTICATED[0] == 'R';
    assert GROUP_ADMIN[0] == 'G' && EVERYONE[0] == 'E' && INTERNAL_PREFIX[0] == 'U';
  }

  /** GeoServer lets a visitor without a login in exactly when Layman does: by EVERYONE. */
  lemma AnonymousAgrees(env: Env, names: set<string>)
    requires ValidList(env, names) && UserRoles(env, "") == {}
    ensures "ROLE_ANONYMOUS" in Translation(names) <==> "EVERYONE" in names
    ensures InAccessRule(env, "", names) <==> "EVERYONE" in names
  {
    EveryoneIsNoUser();
    if "EVERYONE" in names {
      assert "ROLE_ANONYMOUS" in RolesFor(EVERYONE);
      assert EVERYONE in Roles(names);
    }
    if "ROLE_ANONYMOUS" in Translation(names) {
      var n :| n in names && "ROLE_ANONYMOUS" in RolesFor(n);
      if n != EVERYONE {
        AnonymousIsNoGrantee(env, names, n);
      }
    }
  }

  lemma AnonymousIsNoGrantee(env: Env, names: set<string>, n: string)
    requires ValidList(env, names) && n in names && n != EVERYONE
    ensures "ROLE_ANONYMOUS" !in RolesFor(n)
  {
    if IsUser(n) {
      UserRolename(n);
    } else {
      ListedRole(env, names, n);
    }
  }
}
