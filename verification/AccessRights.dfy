/** Access rights of a publication: the checks on a requested change, the rows and flags that store it, the lists
    read back, the rule that Python evaluates on those lists and the WHERE clause that SQL evaluates on the rows
    (src/layman/common/prime_db_schema/publications.py, src/layman/authz/__init__.py).

    The program uses lists of names only through membership, so a list is a set here; Names.ReadBack links the set
    to the comma-joined string. An empty requested list means that the right is not mentioned. */
module AccessRights {
  import opened Wrappers
  import opened Names

  const EVERYONE := "EVERYONE"
  const ANONYM_USER := "--ANONYM--"
  const NONAME_USER := "--NONAME--"
  const GROUP_ADMIN := "GROUP_ADMIN"
  const INTERNAL_PREFIX := "USER_"

  datatype Right = Read | Write

  datatype Grantee = UserRow(name: string) | RoleRow(name: string)

  datatype Row = Row(right: Right, grantee: Grantee)

  /** How many times each row of one publication is stored: its unique constraint does not bite, because one of
      the two name columns is always null. */
  type Table = map<Row, nat>

  /** `owner` is the user of the workspace, if the workspace is personal. */
  datatype Publication = Publication(owner: Option<string>, readByAll: bool, writeByAll: bool, rows: Table)

  /** What the checks look up: users, the role service and the name of Layman's own role. */
  datatype Env = Env(users: set<string>, roles: set<string>, granted: map<string, set<string>>, laymanRole: string)

  datatype Request = Request(read: set<string>, write: set<string>, actor: string, userDelete: bool)

  datatype Refusal = NoSuchUser | BadRole | OwnerCannotWrite | NobodyWrites | ActorCannotWrite | WriterCannotRead

  type Reply = Result<Publication, Refusal>

  /* ---- names and roles ---- */

  function Users(names: set<string>): set<string> {
    set n | n in names && IsUser(n)
  }

  function Roles(names: set<string>): set<string> {
    set n | n in names && !IsUser(n)
  }

  lemma EveryoneIsNoUser()
    ensures !IsUser(EVERYONE)
  {}

  predicate IsUserWithName(user: string) {
    user != "" && user != ANONYM_USER && user != NONAME_USER
  }

  predicate IsInternalRole(role: string) {
    INTERNAL_PREFIX <= role
  }

  function ReservedRoles(env: Env): set<string> {
    {"ROLE_ADMINISTRATOR", "ROLE_GROUP_ADMIN", "ROLE_AUTHENTICATED", "ROLE_ANONYMOUS", "ADMIN", "ADMIN_GROUP",
     env.laymanRole}
  }

  function AssignedRoles(env: Env, user: string): set<string> {
    if user in env.granted then env.granted[user] else {}
  }

  /** `get_user_roles`: the roles of a user, without the administrative ones. */
  function UserRoles(env: Env, user: string): set<string> {
    set r | r in AssignedRoles(env, user)
            && r != "ADMIN" && r != GROUP_ADMIN && r != env.laymanRole && !IsInternalRole(r) && IsRoleName(r)
  }

  /** `is_user_in_access_rule` */
  predicate InAccessRule(env: Env, user: string, names: set<string>) {
    || EVERYONE in Roles(names)
    || (user != "" && user in Users(names))
    || Roles(names) * UserRoles(env, user) != {}
  }

  /* ---- the checks ---- */

  predicate ValidRole(env: Env, role: string) {
    IsRoleName(role) && !IsInternalRole(role) && role !in ReservedRoles(env) && role in env.roles
  }

  predicate ValidRoles(env: Env, names: set<string>) {
    forall r | r in Roles(names) - {EVERYONE} :: ValidRole(env, r)
  }

  function CheckNames(env: Env, names: set<string>): Option<Refusal> {
    if !(Users(names) <= env.users) then Some(NoSuchUser)
    else if !ValidRoles(env, names) then Some(BadRole)
    else None
  }

  predicate WritersRead(read: set<string>, write: set<string>) {
    EVERYONE in read || write <= read
  }

  predicate ActorWrites(env: Env, actor: string, write: set<string>) {
    EVERYONE in write || (actor != "" && (actor in write || UserRoles(env, actor) * write != {}))
  }

  function CheckWriters(env: Env, owner: Option<string>, request: Request): Option<Refusal> {
    if owner.Some? && EVERYONE !in request.write && owner.value !in request.write then Some(OwnerCannotWrite)
    else if Users(request.write) == {} && EVERYONE !in Roles(request.write) then Some(NobodyWrites)
    else if !request.userDelete && !ActorWrites(env, request.actor, request.write) then Some(ActorCannotWrite)
    else None
  }

  /** `check_rights_axioms`; what is not mentioned is compared as it was read back. */
  function CheckAxioms(env: Env, owner: Option<string>, request: Request, readOld: set<string>, writeOld: set<string>)
    : Option<Refusal>
  {
    var first := if request.read == {} then None else CheckNames(env, request.read);
    if first.Some? then first else
    var second := if request.write == {} then None else CheckNames(env, request.write);
    if second.Some? then second else
    var third := if request.write == {} then None else CheckWriters(env, owner, request);
    if third.Some? then third
    else if request.read == {} && request.write == {} then None
    else if !WritersRead(if request.read == {} then readOld else request.read,
                         if request.write == {} then writeOld else request.write) then Some(WriterCannotRead)
    else None
  }

  /* ---- storing and reading back ---- */

  function OwnerNames(owner: Option<string>): set<string> {
    if owner.Some? then {owner.value} else {}
  }

  function Insert(rows: Table, added: set<Row>): Table {
    map r | r in rows.Keys + added :: (if r in rows then rows[r] else 0) + (if r in added then 1 else 0)
  }

  function Erase(rows: Table, removed: set<Row>): Table {
    rows - removed
  }

  /** The names that get rows: the owner and EVERYONE are stored elsewhere. */
  function StoredUsers(owner: Option<string>, names: set<string>): set<string> {
    Users(names) - OwnerNames(owner)
  }

  function StoredRoles(names: set<string>): set<string> {
    Roles(names) - {EVERYONE}
  }

  function RowsOf(right: Right, users: set<string>, roles: set<string>): set<Row> {
    (set u | u in users :: Row(right, UserRow(u))) + (set r | r in roles :: Row(right, RoleRow(r)))
  }

  predicate ByAll(p: Publication, right: Right) {
    if right == Read then p.readByAll else p.writeByAll
  }

  function RowNames(rows: Table, right: Right): set<string> {
    set r | r in rows && r.right == right :: r.grantee.name
  }

  /** The list that the SELECT returns and Python splits, as a set. */
  function NamesOf(p: Publication, right: Right): set<string> {
    OwnerNames(p.owner) + RowNames(p.rows, right) + (if ByAll(p, right) then {EVERYONE} else {})
  }

  function InsertPublication(env: Env, owner: Option<string>, request: Request): Reply
    requires request.read != {} && request.write != {}
  {
    match CheckAxioms(env, owner, request, {}, {})
    case Some(refusal) => Err(refusal)
    case None =>
      var read := Insert(map[], RowsOf(Read, StoredUsers(owner, request.read), StoredRoles(request.read)));
      var rows := Insert(read, RowsOf(Write, StoredUsers(owner, request.write), StoredRoles(request.write)));
      Ok(Publication(owner, EVERYONE in request.read, EVERYONE in request.write, rows))
  }

  /** The rows of one right after an update: insert what is new, then remove what is gone. */
  function UpdateRows(p: Publication, rows: Table, right: Right, names: set<string>): Table {
    if names == {} then
      rows
    else
      var users, roles := StoredUsers(p.owner, names), StoredRoles(names);
      var oldUsers, oldRoles := StoredUsers(p.owner, NamesOf(p, right)), StoredRoles(NamesOf(p, right));
      Erase(Insert(rows, RowsOf(right, users - oldUsers, roles - oldRoles)),
            RowsOf(right, oldUsers - users, oldRoles - roles))
  }

  function UpdatePublication(env: Env, p: Publication, request: Request): Reply {
    match CheckAxioms(env, p.owner, request, NamesOf(p, Read), NamesOf(p, Write))
    case Some(refusal) => Err(refusal)
    case None =>
      var rows := UpdateRows(p, UpdateRows(p, p.rows, Read, request.read), Write, request.write);
      Ok(Publication(p.owner,
                     if request.read == {} then p.readByAll else EVERYONE in request.read,
                     if request.write == {} then p.writeByAll else EVERYONE in request.write,
                     rows))
  }

  /* ---- the SQL filter ---- */

  /** The WHERE part for a reader or a writer; `roles` is bound only for users with a name. */
  predicate SqlSelects(p: Publication, right: Right, user: string, roles: set<string>) {
    if IsUserWithName(user) then
      || ByAll(p, right)
      || p.owner == Some(user)
      || Row(right, UserRow(user)) in p.rows
      || exists role | role in roles :: Row(right, RoleRow(role)) in p.rows
    else
      ByAll(p, right)
  }

  /* ---- what is kept ---- */

  predicate RowFine(owner: Option<string>, row: Row) {
    match row.grantee
    case UserRow(name) => IsWorkspaceName(name) && owner != Some(name)
    case RoleRow(name) => IsRoleName(name) && name != EVERYONE && !IsInternalRole(name)
  }

  ghost predicate WellStored(p: Publication) {
    && (p.owner.Some? ==> IsWorkspaceName(p.owner.value))
    && forall r | r in p.rows :: p.rows[r] == 1 && RowFine(p.owner, r)
  }

  /** Whoever writes reads, and some user or everyone writes. */
  ghost predicate Sound(p: Publication) {
    && WellStored(p)
    && WritersRead(NamesOf(p, Read), NamesOf(p, Write))
    && (Users(NamesOf(p, Write)) != {} || EVERYONE in NamesOf(p, Write))
  }

  ghost predicate UsersFine(env: Env) {
    forall u | u in env.users :: IsWorkspaceName(u)
  }

  /** Users and roles of a stored list are the users and roles that have rows. */
  lemma StoredNames(p: Publication, right: Right)
    requires WellStored(p)
    ensures Users(NamesOf(p, right)) ==
      OwnerNames(p.owner) + set r | r in p.rows && r.right == right && r.grantee.UserRow? :: r.grantee.name
    ensures Roles(NamesOf(p, right)) ==
      (set r | r in p.rows && r.right == right && r.grantee.RoleRow? :: r.grantee.name)
      + (if ByAll(p, right) then {EVERYONE} else {})
  {
    EveryoneIsNoUser();
    if p.owner.Some? {
      WorkspaceNameIsUser(p.owner.value);
    }
    forall r | r in p.rows
      ensures IsUser(r.grantee.name) <==> r.grantee.UserRow?
    {
      match r.grantee
      case UserRow(name) => WorkspaceNameIsUser(name);
      case RoleRow(name) => RoleNameIsNoUser(name);
    }
  }
}
