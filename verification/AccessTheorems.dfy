/** The representations of access rights agree, over every sequence of inserts and updates. */
module AccessTheorems {
  import opened Wrappers
  import opened Names
  import opened AccessRights

  /** Before an update, the stored rows of a right are those of the names that are read back. */
  lemma OldRows(p: Publication, right: Right)
    requires WellStored(p)
    ensures forall u :: u in StoredUsers(p.owner, NamesOf(p, right)) <==> Row(right, UserRow(u)) in p.rows
    ensures forall r :: r in StoredRoles(NamesOf(p, right)) <==> Row(right, RoleRow(r)) in p.rows
  {
    StoredNames(p, right);
    forall u
      ensures u in StoredUsers(p.owner, NamesOf(p, right)) <==> Row(right, UserRow(u)) in p.rows
    {
      if Row(right, UserRow(u)) in p.rows {
        assert RowFine(p.owner, Row(right, UserRow(u)));
      }
    }
    forall r
      ensures r in StoredRoles(NamesOf(p, right)) <==> Row(right, RoleRow(r)) in p.rows
    {
      if Row(right, RoleRow(r)) in p.rows {
        assert RowFine(p.owner, Row(right, RoleRow(r)));
      }
    }
  }

  /** The rows that a list of names is meant to have. */
  function Wanted(owner: Option<string>, right: Right, names: set<string>): set<Row> {
    RowsOf(right, StoredUsers(owner, names), StoredRoles(names))
  }

  ghost predicate Once(rows: Table) {
    forall r | r in rows :: rows[r] == 1
  }

  /** The deltas leave exactly the wanted rows of this right, once each, and the rows of the other right. */
  lemma DeltasAreExact(p: Publication, rows: Table, right: Right, names: set<string>)
    requires WellStored(p) && Once(rows) && names != {}
    requires forall r: Row | r.right == right :: r in rows <==> r in p.rows
    ensures var rows' := UpdateRows(p, rows, right, names);
      && Once(rows')
      && forall r: Row :: r in rows' <==> if r.right == right then r in Wanted(p.owner, right, names) else r in rows
  {
    OldRows(p, right);
    var users, roles := StoredUsers(p.owner, names), StoredRoles(names);
    var oldUsers, oldRoles := StoredUsers(p.owner, NamesOf(p, right)), StoredRoles(NamesOf(p, right));
    var added := RowsOf(right, users - oldUsers, roles - oldRoles);
    var removed := RowsOf(right, oldUsers - users, oldRoles - roles);
    forall r: Row
      ensures r in added ==> r !in rows
      ensures r in removed <==> r in rows && r.right == right && r !in Wanted(p.owner, right, names)
      ensures r in added <==> r !in rows && r in Wanted(p.owner, right, names)
    {
      match r.grantee
      case UserRow(u) => assert r == Row(r.right, UserRow(u));
      case RoleRow(u) => assert r == Row(r.right, RoleRow(u));
    }
  }

  /** What every accepted list has been checked for. */
  ghost predicate Checked(env: Env, names: set<string>) {
    Users(names) <= env.users && ValidRoles(env, names)
  }

  lemma WantedIsFine(env: Env, owner: Option<string>, right: Right, names: set<string>)
    requires UsersFine(env) && Checked(env, names)
    ensures forall r | r in Wanted(owner, right, names) :: RowFine(owner, r)
  {
  }

  lemma AcceptedIsChecked(
      env: Env, owner: Option<string>, request: Request, readOld: set<string>, writeOld: set<string>)
    requires CheckAxioms(env, owner, request, readOld, writeOld) == None
    ensures request.read != {} ==> Checked(env, request.read)
    ensures request.write != {} ==> Checked(env, request.write)
    ensures request.write != {} ==> Users(request.write) != {} || EVERYONE in request.write
    ensures request.read != {} || request.write != {} ==>
      WritersRead(if request.read == {} then readOld else request.read,
                  if request.write == {} then writeOld else request.write)
  {
  }

  /** The names read back from exactly the wanted rows are the wanted names and the owner. */
  lemma NamesOfWanted(p: Publication, right: Right, names: set<string>)
    requires forall r: Row | r.right == right :: r in p.rows <==> r in Wanted(p.owner, right, names)
    requires ByAll(p, right) <==> EVERYONE in names
    ensures NamesOf(p, right) == names + OwnerNames(p.owner)
  {
    EveryoneIsNoUser();
    forall n
      ensures n in NamesOf(p, right) <==> n in names + OwnerNames(p.owner)
    {
      if n in names && n !in OwnerNames(p.owner) && n != EVERYONE {
        var row := if IsUser(n) then Row(right, UserRow(n)) else Row(right, RoleRow(n));
        assert row in Wanted(p.owner, right, names);
        assert row.grantee.name == n;
      }
    }
  }

  function Requested(request: Request, right: Right): set<string> {
    if right == Read then request.read else request.write
  }

  /** The table after an accepted update, row by row. */
  lemma UpdateIsExact(env: Env, p: Publication, request: Request)
    requires WellStored(p) && UpdatePublication(env, p, request).Ok?
    ensures var p' := UpdatePublication(env, p, request).value;
      && Once(p'.rows)
      && forall r: Row :: r in p'.rows <==>
           if Requested(request, r.right) == {} then r in p.rows
           else r in Wanted(p.owner, r.right, Requested(request, r.right))
  {
    var rows := UpdateRows(p, p.rows, Read, request.read);
    if request.read != {} {
      DeltasAreExact(p, p.rows, Read, request.read);
    }
    if request.write != {} {
      DeltasAreExact(p, rows, Write, request.write);
    }
  }

  /** Round trip: after an accepted update each mentioned right reads back as requested, with the owner; a right
      that is not mentioned reads back as before. */
  lemma UpdateRoundTrip(env: Env, p: Publication, request: Request, right: Right)
    requires UsersFine(env) && WellStored(p) && UpdatePublication(env, p, request).Ok?
    ensures var p' := UpdatePublication(env, p, request).value;
      && WellStored(p')
      && NamesOf(p', right) == if Requested(request, right) == {} then NamesOf(p, right)
                               else Requested(request, right) + OwnerNames(p.owner)
  {
    var p' := UpdatePublication(env, p, request).value;
    UpdateIsExact(env, p, request);
    AcceptedIsChecked(env, p.owner, request, NamesOf(p, Read), NamesOf(p, Write));
    forall r | r in p'.rows
      ensures RowFine(p'.owner, r)
    {
      if Requested(request, r.right) != {} {
        WantedIsFine(env, p.owner, r.right, Requested(request, r.right));
      }
    }
    if Requested(request, right) == {} {
      assert RowNames(p'.rows, right) == RowNames(p.rows, right);
    } else {
      NamesOfWanted(p', right, Requested(request, right));
    }
  }

  /** The same for a new publication. */
  lemma InsertRoundTrip(env: Env, owner: Option<string>, request: Request, right: Right)
    requires UsersFine(env) && (owner.Some? ==> owner.value in env.users)
    requires request.read != {} && request.write != {} && InsertPublication(env, owner, request).Ok?
    ensures var p := InsertPublication(env, owner, request).value;
      && WellStored(p) && NamesOf(p, right) == Requested(request, right) + OwnerNames(owner)
      && forall r: Row :: r in p.rows <==> r in Wanted(owner, r.right, Requested(request, r.right))
  {
    var p := InsertPublication(env, owner, request).value;
    AcceptedIsChecked(env, owner, request, {}, {});
    WantedIsFine(env, owner, Read, request.read);
    WantedIsFine(env, owner, Write, request.write);
    NamesOfWanted(p, right, Requested(request, right));
  }

  /* ---- what every sequence keeps ---- */

  lemma InsertIsSound(env: Env, owner: Option<string>, request: Request)
    requires UsersFine(env) && (owner.Some? ==> owner.value in env.users)
    requires request.read != {} && request.write != {} && InsertPublication(env, owner, request).Ok?
    ensures Sound(InsertPublication(env, owner, request).value)
  {
    InsertRoundTrip(env, owner, request, Read);
    InsertRoundTrip(env, owner, request, Write);
    AcceptedIsChecked(env, owner, request, {}, {});
    var p := InsertPublication(env, owner, request).value;
    assert Users(request.write) <= Users(NamesOf(p, Write));
  }

  lemma UpdateIsSound(env: Env, p: Publication, request: Request)
    requires UsersFine(env) && Sound(p) && UpdatePublication(env, p, request).Ok?
    ensures Sound(UpdatePublication(env, p, request).value)
  {
    UpdateRoundTrip(env, p, request, Read);
    UpdateRoundTrip(env, p, request, Write);
    AcceptedIsChecked(env, p.owner, request, NamesOf(p, Read), NamesOf(p, Write));
    var p' := UpdatePublication(env, p, request).value;
    assert Users(request.write) <= Users(request.write + OwnerNames(p.owner));
  }

  datatype Change = Change(env: Env, request: Request)

  /** Refused changes leave the publication as it was. */
  function Updates(p: Publication, changes: seq<Change>): Publication
    decreases |changes|
  {
    if changes == [] then
      p
    else
      var r := UpdatePublication(changes[0].env, p, changes[0].request);
      Updates(if r.Ok? then r.value else p, changes[1..])
  }

  lemma {:induction false} UpdatesAreSound(p: Publication, changes: seq<Change>)
    requires Sound(p) && forall c | c in changes :: UsersFine(c.env)
    ensures Sound(Updates(p, changes)) && Updates(p, changes).owner == p.owner
    decreases |changes|
  {
    if changes != [] {
      var r := UpdatePublication(changes[0].env, p, changes[0].request);
      assert UsersFine(changes[0].env) by { assert changes[0] in changes; }
      if r.Ok? {
        UpdateIsSound(changes[0].env, p, changes[0].request);
      }
      UpdatesAreSound(if r.Ok? then r.value else p, changes[1..]);
    }
  }

  /** For every user, with or without a name, at any time: who may write may read. */
  lemma WhoWritesReads(p: Publication, changes: seq<Change>, env: Env, user: string)
    requires Sound(p) && forall c | c in changes :: UsersFine(c.env)
    ensures var p' := Updates(p, changes);
      && (InAccessRule(env, user, NamesOf(p', Write)) ==> InAccessRule(env, user, NamesOf(p', Read)))
      && (Users(NamesOf(p', Write)) != {} || EVERYONE in NamesOf(p', Write))
  {
    UpdatesAreSound(p, changes);
    var p' := Updates(p, changes);
    var read, write := NamesOf(p', Read), NamesOf(p', Write);
    EveryoneIsNoUser();
    if write <= read {
      assert Users(write) <= Users(read) && Roles(write) <= Roles(read);
    }
  }

  /* ---- SQL and Python agree ---- */

  /** The rows selected in SQL are the publications whose list admits the user in Python, so the second filter
      after a multi-publication GET removes nothing. */
  lemma SqlAgreesWithRule(env: Env, p: Publication, right: Right, user: string)
    requires WellStored(p)
    requires if IsUserWithName(user) then IsWorkspaceName(user) else user != "" && UserRoles(env, user) == {}
    ensures SqlSelects(p, right, user, UserRoles(env, user)) <==> InAccessRule(env, user, NamesOf(p, right))
  {
    StoredNames(p, right);
    assert !IsUser(ANONYM_USER) && !IsUser(NONAME_USER) && !IsUser(EVERYONE);
    var names := NamesOf(p, right);
    if IsUserWithName(user) {
      WorkspaceNameIsUser(user);
      RoleRowsAgree(p, right, UserRoles(env, user));
      assert EVERYONE in Roles(names) <==> ByAll(p, right) by { OldRows(p, right); EveryoneHasNoRow(p, right); }
      if Row(right, UserRow(user)) in p.rows {
        assert Row(right, UserRow(user)).grantee.name == user;
      }
    } else {
      EveryoneHasNoRow(p, right);
    }
  }

  lemma EveryoneHasNoRow(p: Publication, right: Right)
    requires WellStored(p)
    ensures Row(right, RoleRow(EVERYONE)) !in p.rows
    ensures EVERYONE in NamesOf(p, right) <==> ByAll(p, right)
  {
    EveryoneIsNoUser();
    forall r | r in p.rows
      ensures r.grantee.name != EVERYONE
    {
      assert RowFine(p.owner, r);
      if r.grantee.UserRow? {
        WorkspaceNameIsUser(r.grantee.name);
      }
    }
    if p.owner.Some? {
      WorkspaceNameIsUser(p.owner.value);
    }
  }

  lemma RoleRowsAgree(p: Publication, right: Right, roles: set<string>)
    requires WellStored(p)
    ensures (exists role | role in roles :: Row(right, RoleRow(role)) in p.rows)
            ==> Roles(NamesOf(p, right)) * roles != {}
    ensures Roles(NamesOf(p, right)) * roles != {}
            ==> ByAll(p, right) || exists role | role in roles :: Row(right, RoleRow(role)) in p.rows
  {
    StoredNames(p, right);
    if role :| role in roles && Row(right, RoleRow(role)) in p.rows {
      assert Row(right, RoleRow(role)).grantee.name == role;
      assert role in Roles(NamesOf(p, right)) * roles;
    }
    if common :| common in Roles(NamesOf(p, right)) * roles {
      if !ByAll(p, right) {
        assert Row(right, RoleRow(common)) in p.rows;
      }
    }
  }

  /* ---- the comma-joined string ---- */

  /** The rows of a right, in the order in which SQL happens to aggregate them. */
  ghost predicate Listing(listed: seq<Row>, p: Publication, right: Right) {
    forall r: Row :: multiset(listed)[r] == if r in p.rows && r.right == right then p.rows[r] else 0
  }

  function NameList(listed: seq<Row>): seq<string> {
    seq(|listed|, i requires 0 <= i < |listed| => listed[i].grantee.name)
  }

  function OwnerList(p: Publication): seq<string> {
    if p.owner.Some? then [p.owner.value] else []
  }

  lemma TwiceMeansTwo(listed: seq<Row>, i: nat, j: nat)
    requires i < j < |listed| && listed[i] == listed[j]
    ensures multiset(listed)[listed[i]] >= 2
  {
    assert listed == listed[..i + 1] + listed[i + 1..];
    assert listed[i] in listed[..i + 1] && listed[j] in listed[i + 1..];
  }

  lemma RowNamesDiffer(p: Publication, right: Right, listed: seq<Row>, i: nat, j: nat)
    requires WellStored(p) && Listing(listed, p, right) && i < j < |listed|
    ensures listed[i] in p.rows && listed[i].right == right && listed[i].grantee.name != listed[j].grantee.name
  {
    assert listed[i] in multiset(listed) && listed[j] in multiset(listed);
    var a, b := listed[i].grantee, listed[j].grantee;
    if a == b {
      TwiceMeansTwo(listed, i, j);
    }
    if a.UserRow? && b.RoleRow? {
      WorkspaceNameIsUser(a.name);
      RoleNameIsNoUser(b.name);
    } else if a.RoleRow? && b.UserRow? {
      WorkspaceNameIsUser(b.name);
      RoleNameIsNoUser(a.name);
    }
  }

  lemma RowNamesArePlain(p: Publication, right: Right, listed: seq<Row>)
    requires WellStored(p) && Listing(listed, p, right)
    ensures forall i | 0 <= i < |listed| :: Plain(listed[i].grantee.name) && RowFine(p.owner, listed[i])
    ensures Elements(NameList(listed)) == RowNames(p.rows, right)
  {
    forall i | 0 <= i < |listed|
      ensures Plain(listed[i].grantee.name) && listed[i] in p.rows && listed[i].right == right
    {
      assert listed[i] in multiset(listed);
      match listed[i].grantee
      case UserRow(name) => WorkspaceNameIsUser(name);
      case RoleRow(name) => RoleNameIsNoUser(name);
    }
    forall n | n in RowNames(p.rows, right)
      ensures n in NameList(listed)
    {
      var r :| r in p.rows && r.right == right && r.grantee.name == n;
      assert r in multiset(listed);
      var i :| 0 <= i < |listed| && listed[i] == r;
      assert NameList(listed)[i] == n;
    }
  }

  function AllNames(p: Publication, right: Right, listed: seq<Row>): seq<string> {
    OwnerList(p) + NameList(listed) + (if ByAll(p, right) then [EVERYONE] else [])
  }

  lemma RowNamesAreNew(p: Publication, right: Right, listed: seq<Row>, i: nat)
    requires WellStored(p) && Listing(listed, p, right) && i < |listed|
    ensures listed[i].grantee.name != EVERYONE && Some(listed[i].grantee.name) != p.owner && p.owner != Some(EVERYONE)
  {
    RowNamesArePlain(p, right, listed);
    NeverEveryone(p, listed[i]);
    EveryoneIsNoUser();
    if p.owner.Some? {
      WorkspaceNameIsUser(p.owner.value);
    }
    if listed[i].grantee.RoleRow? {
      RoleNameIsNoUser(listed[i].grantee.name);
    }
  }

  lemma AllNamesDiffer(p: Publication, right: Right, listed: seq<Row>, i: nat, j: nat)
    requires WellStored(p) && Listing(listed, p, right) && i < j < |AllNames(p, right, listed)|
    ensures AllNames(p, right, listed)[i] != AllNames(p, right, listed)[j]
  {
    var all, a, b := AllNames(p, right, listed), i - |OwnerList(p)|, j - |OwnerList(p)|;
    if 0 <= a && b < |listed| {
      RowNamesDiffer(p, right, listed, a, b);
    } else if 0 <= a {
      RowNamesAreNew(p, right, listed, a);
    } else if b < |listed| {
      RowNamesAreNew(p, right, listed, b);
    } else {
      assert all[i] == p.owner.value && all[j] == EVERYONE;
      WorkspaceNameIsUser(p.owner.value);
      EveryoneIsNoUser();
    }
  }

  lemma NeverEveryone(p: Publication, row: Row)
    requires RowFine(p.owner, row)
    ensures row.grantee.name != EVERYONE
  {
    EveryoneIsNoUser();
    if row.grantee.UserRow? {
      WorkspaceNameIsUser(row.grantee.name);
    }
  }

  lemma AllNamesSet(p: Publication, right: Right, listed: seq<Row>)
    requires WellStored(p) && Listing(listed, p, right)
    ensures Elements(AllNames(p, right, listed)) == NamesOf(p, right)
  {
    RowNamesArePlain(p, right, listed);
    var owner, stored, everyone := OwnerList(p), NameList(listed), if ByAll(p, right) then [EVERYONE] else [];
    assert Elements(owner + stored + everyone) == Elements(owner) + Elements(stored) + Elements(everyone);
  }

  lemma AllNamesRead(p: Publication, right: Right, listed: seq<Row>)
    requires Sound(p) && Listing(listed, p, right)
    ensures AllNames(p, right, listed) != []
    ensures Split(Rendered(OwnerList(p), NameList(listed), ByAll(p, right))) == AllNames(p, right, listed)
  {
    RowNamesArePlain(p, right, listed);
    if p.owner.Some? {
      WorkspaceNameIsUser(p.owner.value);
    }
    assert Users(NamesOf(p, Write)) <= NamesOf(p, Write);
    AllNamesSet(p, right, listed);
    assert AllNames(p, right, listed) == [] ==> Elements(AllNames(p, right, listed)) == {};
    ReadBack(OwnerList(p), NameList(listed), ByAll(p, right));
  }

  /** Whatever order SQL aggregates in, splitting the string gives each name of the list exactly once. */
  lemma DecodedList(p: Publication, right: Right, listed: seq<Row>)
    requires Sound(p) && Listing(listed, p, right)
    ensures var names := Split(Rendered(OwnerList(p), NameList(listed), ByAll(p, right)));
      Elements(names) == NamesOf(p, right) && forall i, j | 0 <= i < j < |names| :: names[i] != names[j]
  {
    AllNamesRead(p, right, listed);
    AllNamesSet(p, right, listed);
    forall i, j | 0 <= i < j < |AllNames(p, right, listed)|
      ensures AllNames(p, right, listed)[i] != AllNames(p, right, listed)[j]
    {
      AllNamesDiffer(p, right, listed, i, j);
    }
  }
}
