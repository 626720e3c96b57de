/** Exactly which requests for access rights are accepted, said name by name
    (src/layman/common/prime_db_schema/publications.py). */
module AccessAcceptance {
  import opened Wrappers
  import opened Names
  import opened AccessRights

  /** Each name is a registered user, EVERYONE, or an existing role that is neither internal nor administrative. */
  ghost predicate Known(env: Env, names: set<string>) {
    forall n | n in names ::
      if IsUser(n) then n in env.users
      else
        || n == "EVERYONE"
        || (&& IsRoleName(n) && !("USER_" <= n) && n in env.roles && n != env.laymanRole
            && n != "ROLE_ADMINISTRATOR" && n != "ROLE_GROUP_ADMIN" && n != "ROLE_AUTHENTICATED"
            && n != "ROLE_ANONYMOUS" && n != "ADMIN" && n != "ADMIN_GROUP")
  }

  /** The role service grants the role, and it is none of those that get_user_roles leaves out. */
  predicate HasRole(env: Env, user: string, role: string) {
    && user in env.granted && role in env.granted[user] && IsRoleName(role) && !("USER_" <= role)
    && role != "ADMIN" && role != "GROUP_ADMIN" && role != env.laymanRole
  }

  predicate OwnerStays(owner: Option<string>, write: set<string>) {
    owner == None || "EVERYONE" in write || owner.value in write
  }

  ghost predicate SomebodyWrites(write: set<string>) {
    "EVERYONE" in write || exists n :: n in write && IsUser(n)
  }

  ghost predicate ActorStays(env: Env, request: Request) {
    || request.userDelete
    || "EVERYONE" in request.write
    || (request.actor != ""
        && (request.actor in request.write || exists r :: r in request.write && HasRole(env, request.actor, r)))
  }

  ghost predicate Inclusive(read: set<string>, write: set<string>) {
    "EVERYONE" in read || forall n | n in write :: n in read
  }

  lemma CheckedNames(env: Env, names: set<string>)
    ensures CheckNames(env, names) == None <==> Known(env, names)
    ensures CheckNames(env, names) == Some(NoSuchUser) <==> exists n :: n in names && IsUser(n) && n !in env.users
    ensures CheckNames(env, names) in {None, Some(NoSuchUser), Some(BadRole)}
  {
    EveryoneIsNoUser();
    if Known(env, names) {
      assert ValidRoles(env, names);
    }
    if CheckNames(env, names) == None {
      forall n | n in names && !IsUser(n) && n != "EVERYONE" ensures ValidRole(env, n) {
        assert n in Roles(names) - {EVERYONE};
      }
      forall n | n in names && IsUser(n) ensures n in env.users {
        assert n in Users(names);
      }
    }
  }

  lemma ActorsRoles(env: Env, actor: string, write: set<string>)
    ensures UserRoles(env, actor) * write != {} <==> exists r :: r in write && HasRole(env, actor, r)
  {
    forall r ensures r in UserRoles(env, actor) <==> HasRole(env, actor, r) {}
    if r :| r in write && HasRole(env, actor, r) {
      assert r in UserRoles(env, actor) * write;
    }
    if UserRoles(env, actor) * write != {} {
      var r :| r in UserRoles(env, actor) * write;
      assert r in write && HasRole(env, actor, r);
    }
  }

  lemma CheckedWriters(env: Env, owner: Option<string>, request: Request)
    ensures CheckWriters(env, owner, request) == None <==>
      OwnerStays(owner, request.write) && SomebodyWrites(request.write) && ActorStays(env, request)
    ensures CheckWriters(env, owner, request) == Some(OwnerCannotWrite) <==> !OwnerStays(owner, request.write)
    ensures CheckWriters(env, owner, request) == Some(NobodyWrites) <==>
      OwnerStays(owner, request.write) && !SomebodyWrites(request.write)
    ensures CheckWriters(env, owner, request) == Some(ActorCannotWrite) <==>
      OwnerStays(owner, request.write) && SomebodyWrites(request.write) && !ActorStays(env, request)
  {
    EveryoneIsNoUser();
    ActorsRoles(env, request.actor, request.write);
    if Users(request.write) != {} {
      var n :| n in Users(request.write);
      assert n in request.write && IsUser(n);
    }
    if n :| n in request.write && IsUser(n) {
      assert n in Users(request.write);
    }
  }

  /** A new publication is accepted exactly when all names are known, the owner, somebody and the actor may write, and
      all writers may read. */
  lemma InsertIsAccepted(env: Env, owner: Option<string>, request: Request)
    requires request.read != {} && request.write != {}
    ensures InsertPublication(env, owner, request).Ok? <==>
      && Known(env, request.read) && Known(env, request.write)
      && OwnerStays(owner, request.write) && SomebodyWrites(request.write) && ActorStays(env, request)
      && Inclusive(request.read, request.write)
  {
    CheckedNames(env, request.read);
    CheckedNames(env, request.write);
    CheckedWriters(env, owner, request);
  }

  /** An update is accepted exactly when the same holds of what it mentions, with the stored list standing in for one
      that it does not mention. */
  lemma UpdateIsAccepted(env: Env, p: Publication, request: Request)
    ensures UpdatePublication(env, p, request).Ok? <==>
      && (request.read != {} ==> Known(env, request.read))
      && (request.write != {} ==>
            && Known(env, request.write) && OwnerStays(p.owner, request.write)
            && SomebodyWrites(request.write) && ActorStays(env, request))
      && (request.read != {} || request.write != {} ==>
            Inclusive(if request.read != {} then request.read else NamesOf(p, Read),
                      if request.write != {} then request.write else NamesOf(p, Write)))
  {
    CheckedNames(env, request.read);
    CheckedNames(env, request.write);
    CheckedWriters(env, p.owner, request);
  }

  /** What each refusal means, and that the first check that fails is the one reported. */
  lemma RefusalsMean(env: Env, p: Publication, request: Request)
    requires UpdatePublication(env, p, request).Err?
    ensures match UpdatePublication(env, p, request).error
      case NoSuchUser => exists n :: n in request.read + request.write && IsUser(n) && n !in env.users
      case BadRole => !Known(env, request.read + request.write)
      case OwnerCannotWrite => !OwnerStays(p.owner, request.write)
      case NobodyWrites => OwnerStays(p.owner, request.write) && !SomebodyWrites(request.write)
      case ActorCannotWrite =>
        OwnerStays(p.owner, request.write) && SomebodyWrites(request.write) && !ActorStays(env, request)
      case WriterCannotRead =>
        && Known(env, request.read + request.write)
        && !Inclusive(if request.read != {} then request.read else NamesOf(p, Read),
                      if request.write != {} then request.write else NamesOf(p, Write))
  {
    CheckedNames(env, request.read);
    CheckedNames(env, request.write);
    CheckedWriters(env, p.owner, request);
  }

  /** A request that would take the writing right from the owner is refused. */
  lemma OwnerIsKept(env: Env, p: Publication, request: Request)
    requires p.owner.Some? && request.write != {} && "EVERYONE" !in request.write && p.owner.value !in request.write
    ensures UpdatePublication(env, p, request).Err?
    ensures request.read != {} ==> InsertPublication(env, p.owner, request).Err?
  {
    UpdateIsAccepted(env, p, request);
    if request.read != {} {
      InsertIsAccepted(env, p.owner, request);
    }
  }
}
