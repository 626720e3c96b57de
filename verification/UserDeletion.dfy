/** The publications of public workspaces when a user is deleted (src/layman/user/util.py). */
module UserDeletion {
  import opened Wrappers
  import opened Names
  import opened AccessRights
  import opened AccessTheorems
  import Chains

  /** `public`: the publication lies in a workspace that is not personal. */
  predicate InPublicWorkspace(p: Publication) {
    p.owner == None
  }

  predicate DirectReader(p: Publication, user: string) {
    user in NamesOf(p, Read)
  }

  /** `check_if_is_only_rw` */
  predicate OnlyReaderAndWriter(p: Publication, user: string) {
    && EVERYONE !in NamesOf(p, Read) && EVERYONE !in NamesOf(p, Write)
    && Users(NamesOf(p, Read)) == {user} && Users(NamesOf(p, Write)) == {user}
  }

  predicate OnlyRolesWithoutEveryone(names: set<string>) {
    Users(names) == {} && EVERYONE !in names
  }

  datatype Fate = Untouched | ToDelete | ToPatch | Unable

  function FateOf(p: Publication, user: string): Fate {
    if !DirectReader(p, user) || !InPublicWorkspace(p) then Untouched
    else if OnlyReaderAndWriter(p, user) then ToDelete
    else if OnlyRolesWithoutEveryone(NamesOf(p, Write) - {user}) then Unable
    else ToPatch
  }

  function Removal(p: Publication, user: string): Request {
    Request(NamesOf(p, Read) - {user}, NamesOf(p, Write) - {user}, user, true)
  }

  /** Why a patch raises: error 49 from its lock, or a refusal by the rights axioms. */
  datatype Stop = LockedOut | Refused(refusal: Refusal)

  type Publications = map<nat, Publication>

  /** Error 58 names the publications that stand in the way. A patch that raises ends the deletion there. */
  datatype Outcome =
    | Done(publications: Publications)
    | Stuck(unable: seq<nat>)
    | Broken(publications: Publications, stop: Stop)

  type Locks = map<nat, Chains.Lock>

  /** A PATCH may break off a feature-change chain, but no other lock. */
  predicate LockRefuses(locks: Locks, id: nat) {
    id in locks && locks[id] != Chains.FeatureChange
  }

  lemma LockRefusesPatch(locks: Locks, id: nat, s: Chains.State, p: Chains.Publ)
    requires Chains.LockOf(s, p) == if id in locks then Some(locks[id]) else None
    ensures LockRefuses(locks, id) <==> Chains.CreateLock(s, p, Chains.Patch) == Err(Chains.Locked(false))
    ensures Chains.CreateLock(s, p, Chains.Delete).Ok?
  {}

  /* ---- the three work lists ---- */

  /** The order in which the program meets the publications. */
  predicate IsOrder(order: seq<nat>, publications: Publications) {
    && (forall id | id in publications :: id in order) && (forall id | id in order :: id in publications)
    && forall i, j | 0 <= i < j < |order| :: order[i] != order[j]
  }

  predicate HasFate(publications: Publications, id: nat, user: string, fate: Fate) {
    id in publications && FateOf(publications[id], user) == fate
  }

  /** The publications of one fate, in that order. */
  function Selected(publications: Publications, order: seq<nat>, user: string, fate: Fate): seq<nat> {
    if order == [] then
      []
    else
      var n := |order| - 1;
      Appended(Selected(publications, order[..n], user, fate), order[n], HasFate(publications, order[n], user, fate))
  }

  function Appended(ids: seq<nat>, id: nat, wanted: bool): seq<nat> {
    if wanted then ids + [id] else ids
  }

  lemma {:induction false} SelectedHaveFate(publications: Publications, order: seq<nat>, user: string, fate: Fate)
    ensures forall id ::
      id in Selected(publications, order, user, fate) <==> id in order && HasFate(publications, id, user, fate)
  {
    if order != [] {
      var n := |order| - 1;
      SelectedHaveFate(publications, order[..n], user, fate);
      assert order == order[..n] + [order[n]];
    }
  }

  lemma {:induction false} SelectedOnce(publications: Publications, order: seq<nat>, user: string, fate: Fate)
    requires forall i, j | 0 <= i < j < |order| :: order[i] != order[j]
    ensures var ids := Selected(publications, order, user, fate); forall i, j | 0 <= i < j < |ids| :: ids[i] != ids[j]
  {
    if order != [] {
      var n := |order| - 1;
      SelectedOnce(publications, order[..n], user, fate);
      SelectedHaveFate(publications, order[..n], user, fate);
      forall j | 0 <= j < n ensures order[..n][j] != order[n] {
        assert order[..n][j] == order[j];
      }
      assert order[n] !in order[..n];
      assert order[n] !in Selected(publications, order[..n], user, fate);
      AppendedOnce(Selected(publications, order[..n], user, fate), order[n]);
    }
  }

  lemma AppendedOnce(ids: seq<nat>, id: nat)
    requires id !in ids && forall i, j | 0 <= i < j < |ids| :: ids[i] != ids[j]
    ensures forall i, j | 0 <= i < j < |ids + [id]| :: (ids + [id])[i] != (ids + [id])[j]
  {
    forall i, j | 0 <= i < j < |ids + [id]| ensures (ids + [id])[i] != (ids + [id])[j] {
      assert (ids + [id])[i] == ids[i] && ids[i] in ids;
    }
  }

  /** One publication joins the list of its fate, if that has one. */
  method Sort(publications: Publications, id: nat, user: string, unable: seq<nat>, toDelete: seq<nat>,
              toPatch: seq<nat>)
    returns (skipped: seq<nat>, deletions: seq<nat>, patches: seq<nat>)
    requires id in publications
    ensures skipped == Appended(unable, id, HasFate(publications, id, user, Unable))
    ensures deletions == Appended(toDelete, id, HasFate(publications, id, user, ToDelete))
    ensures patches == Appended(toPatch, id, HasFate(publications, id, user, ToPatch))
  {
    skipped, deletions, patches := unable, toDelete, toPatch;
    var p := publications[id];
    if DirectReader(p, user) {
      if InPublicWorkspace(p) && OnlyReaderAndWriter(p, user) {
        deletions := deletions + [id];
      } else if InPublicWorkspace(p) {
        if OnlyRolesWithoutEveryone(NamesOf(p, Write) - {user}) {
          skipped := skipped + [id];
        } else {
          patches := patches + [id];
        }
      }
    }
  }

  /** The first loop: three work lists are filled and nothing is changed. */
  method Plan(publications: Publications, order: seq<nat>, user: string)
    returns (skipped: seq<nat>, deletions: seq<nat>, patches: seq<nat>)
    requires IsOrder(order, publications)
    ensures skipped == Selected(publications, order, user, Unable)
    ensures deletions == Selected(publications, order, user, ToDelete)
    ensures patches == Selected(publications, order, user, ToPatch)
  {
    skipped, deletions, patches := [], [], [];
    for i := 0 to |order|
      invariant skipped == Selected(publications, order[..i], user, Unable)
      invariant deletions == Selected(publications, order[..i], user, ToDelete)
      invariant patches == Selected(publications, order[..i], user, ToPatch)
    {
      assert order[..i + 1][..i] == order[..i];
      var id := order[i];
      skipped, deletions, patches := Sort(publications, id, user, skipped, deletions, patches);
    }
    assert order[..|order|] == order;
  }

  /* ---- patching in order ---- */

  ghost predicate Patched(env: Env, p: Publication, user: string, p': Publication) {
    UpdatePublication(env, p, Removal(p, user)) == Ok(p')
  }

  /** Exactly the publications of `done` have been patched. */
  ghost predicate PatchedSoFar(env: Env, publications: Publications, user: string, done: seq<nat>, result: Publications)
  {
    && result.Keys == publications.Keys
    && forall id | id in publications ::
         if id in done then Patched(env, publications[id], user, result[id]) else result[id] == publications[id]
  }

  /** The patch of a planned publication raises. */
  predicate Stops(env: Env, locks: Locks, publications: Publications, user: string, id: nat) {
    id in publications
    && (LockRefuses(locks, id) || UpdatePublication(env, publications[id], Removal(publications[id], user)).Err?)
  }

  method PatchOne(env: Env, locks: Locks, p: Publication, user: string, id: nat) returns (r: Result<Publication, Stop>)
    ensures r.Ok? ==> Patched(env, p, user, r.value)
    ensures r.Err? <==> LockRefuses(locks, id) || UpdatePublication(env, p, Removal(p, user)).Err?
    ensures r == Err(LockedOut) <==> LockRefuses(locks, id)
  {
    if LockRefuses(locks, id) {
      return Err(LockedOut);
    }
    var update := UpdatePublication(env, p, Removal(p, user));
    return if update.Err? then Err(Refused(update.error)) else Ok(update.value);
  }

  /** The loop over the planned patches: `n` of them are made, and the next one, if there is one, raises. */
  method PatchAll(env: Env, locks: Locks, publications: Publications, user: string, patches: seq<nat>)
    returns (result: Publications, stop: Option<Stop>, n: nat)
    requires (forall id | id in patches :: id in publications)
    requires forall i, j | 0 <= i < j < |patches| :: patches[i] != patches[j]
    ensures n <= |patches| && PatchedSoFar(env, publications, user, patches[..n], result)
    ensures forall i | 0 <= i < n :: !Stops(env, locks, publications, user, patches[i])
    ensures stop == None <==> n == |patches|
    ensures n < |patches| ==> Stops(env, locks, publications, user, patches[n])
    ensures stop == Some(LockedOut) <==> n < |patches| && LockRefuses(locks, patches[n])
  {
    result, stop, n := publications, None, 0;
    while n < |patches|
      invariant n <= |patches| && PatchedSoFar(env, publications, user, patches[..n], result)
      invariant forall i | 0 <= i < n :: !Stops(env, locks, publications, user, patches[i])
    {
      var id := patches[n];
      var update := PatchOne(env, locks, publications[id], user, id);
      if update.Err? {
        stop := Some(update.error);
        return;
      }
      OneMorePatched(env, publications, user, patches, n, result, update.value);
      result := result[id := update.value];
      n := n + 1;
    }
  }

  lemma OneMorePatched(env: Env, publications: Publications, user: string, patches: seq<nat>, n: nat,
                       result: Publications, p': Publication)
    requires n < |patches| && PatchedSoFar(env, publications, user, patches[..n], result)
    requires patches[n] in publications && Patched(env, publications[patches[n]], user, p')
    ensures PatchedSoFar(env, publications, user, patches[..n + 1], result[patches[n] := p'])
  {
    assert patches[..n + 1] == patches[..n] + [patches[n]];
  }

  /** Stuck exactly when some publication can be neither patched nor deleted; otherwise the planned patches are made in
      order up to the first that raises, and only if none raises are the planned deletions made. */
  method DeleteUserPublicPublications(
      env: Env, locks: Locks, publications: Publications, order: seq<nat>, user: string)
    returns (r: Outcome, ghost n: nat)
    requires IsOrder(order, publications)
    ensures r.Stuck? <==> Selected(publications, order, user, Unable) != []
    ensures r.Stuck? ==> r.unable == Selected(publications, order, user, Unable)
    ensures var patches := Selected(publications, order, user, ToPatch);
      !r.Stuck? ==>
        && n <= |patches| && (r.Broken? <==> n < |patches|)
        && (forall i | 0 <= i < n :: !Stops(env, locks, publications, user, patches[i]))
        && (r.Broken? ==>
              && Stops(env, locks, publications, user, patches[n])
              && (r.stop == LockedOut <==> LockRefuses(locks, patches[n]))
              && PatchedSoFar(env, publications, user, patches[..n], r.publications))
        && (r.Done? ==> exists patched | PatchedSoFar(env, publications, user, patches, patched) ::
              r.publications == patched - set id | id in Selected(publications, order, user, ToDelete))
  {
    var skipped, deletions, patches := Plan(publications, order, user);
    n := 0;
    if skipped != [] {
      return Stuck(skipped), 0;
    }
    SelectedOnce(publications, order, user, ToPatch);
    SelectedHaveFate(publications, order, user, ToPatch);
    var result, stop, made := PatchAll(env, locks, publications, user, patches);
    n := made;
    if stop.Some? {
      return Broken(result, stop.value), n;
    }
    assert patches[..n] == patches;
    r := Done(result - set id | id in deletions);
  }

  lemma WithoutUser(names: set<string>, user: string)
    requires IsUser(user)
    ensures Users(names - {user}) == Users(names) - {user} && Roles(names - {user}) == Roles(names)
    ensures EVERYONE in names - {user} <==> EVERYONE in names
  {
    EveryoneIsNoUser();
  }

  /** The users and roles that stay in the two lists still exist. */
  predicate StillKnown(env: Env, p: Publication, user: string) {
    CheckNames(env, NamesOf(p, Read) - {user}) == None && CheckNames(env, NamesOf(p, Write) - {user}) == None
  }

  /** A planned patch passes the rights axioms exactly when the names that stay are still known: everything else was
      decided by the plan. */
  lemma PatchIsAccepted(env: Env, p: Publication, user: string)
    requires Sound(p) && FateOf(p, user) == ToPatch && IsWorkspaceName(user)
    ensures Removal(p, user).read != {} && Removal(p, user).write != {}
    ensures UpdatePublication(env, p, Removal(p, user)).Ok? <==> StillKnown(env, p, user)
  {
    WorkspaceNameIsUser(user);
    NonEmpty(p, user);
    assert CheckWriters(env, p.owner, Removal(p, user)) == None;
  }

  lemma WritersStay(p: Publication, user: string)
    requires Sound(p) && FateOf(p, user) == ToPatch && IsUser(user)
    ensures Users(Removal(p, user).write) != {} || EVERYONE in Roles(Removal(p, user).write)
    ensures Removal(p, user).write != {}
  {
    EveryoneIsNoUser();
    var write := Removal(p, user).write;
    if Users(write) != {} {
      var u :| u in Users(write);
      assert u in write;
    }
  }

  lemma NonEmpty(p: Publication, user: string)
    requires Sound(p) && FateOf(p, user) == ToPatch && IsUser(user)
    ensures Removal(p, user).read != {} && Removal(p, user).write != {}
    ensures WritersRead(Removal(p, user).read, Removal(p, user).write)
    ensures Users(Removal(p, user).write) != {} || EVERYONE in Roles(Removal(p, user).write)
  {
    WithoutUser(NamesOf(p, Read), user);
    WritersStay(p, user);
  }

  /** After a patch the user is in neither list and some user or everyone still writes. */
  lemma PatchRemovesUser(env: Env, p: Publication, user: string, p': Publication)
    requires UsersFine(env) && Sound(p) && IsWorkspaceName(user)
    requires FateOf(p, user) == ToPatch && Patched(env, p, user, p')
    ensures Sound(p')
    ensures NamesOf(p', Read) == NamesOf(p, Read) - {user} && NamesOf(p', Write) == NamesOf(p, Write) - {user}
  {
    PatchIsAccepted(env, p, user);
    UpdateIsSound(env, p, Removal(p, user));
    PatchReads(env, p, user, Read);
    PatchReads(env, p, user, Write);
  }

  lemma PatchReads(env: Env, p: Publication, user: string, right: Right)
    requires UsersFine(env) && Sound(p) && p.owner == None && UpdatePublication(env, p, Removal(p, user)).Ok?
    requires Removal(p, user).read != {} && Removal(p, user).write != {}
    ensures NamesOf(UpdatePublication(env, p, Removal(p, user)).value, right) == NamesOf(p, right) - {user}
  {
    UpdateRoundTrip(env, p, Removal(p, user), right);
  }

  /** What the deletion leaves of a publication of a public workspace. The user stays listed exactly where she was among
      the writers only. */
  ghost predicate Clean(before: Publication, after: Publication, user: string) {
    && Sound(after)
    && (user in NamesOf(after, Read) + NamesOf(after, Write)
        <==> user !in NamesOf(before, Read) && user in NamesOf(before, Write))
    && NamesOf(after, Read) - {user} == NamesOf(before, Read) - {user}
    && NamesOf(after, Write) - {user} == NamesOf(before, Write) - {user}
  }

  lemma FateIsClean(env: Env, p: Publication, user: string, p': Publication)
    requires UsersFine(env) && Sound(p) && IsWorkspaceName(user)
    requires if FateOf(p, user) == ToPatch then Patched(env, p, user, p') else FateOf(p, user) == Untouched && p' == p
    ensures InPublicWorkspace(p) ==> Clean(p, p', user)
    ensures !InPublicWorkspace(p) ==> p' == p
  {
    if FateOf(p, user) == ToPatch {
      PatchRemovesUser(env, p, user, p');
    }
  }

  lemma PatchChanges(env: Env, p: Publication, user: string, p': Publication)
    requires UsersFine(env) && Sound(p) && IsWorkspaceName(user)
    requires FateOf(p, user) == ToPatch && Patched(env, p, user, p')
    ensures Clean(p, p', user) && p' != p
  {
    PatchRemovesUser(env, p, user, p');
  }

  /** A planned patch raises if the publication is locked by PATCH, POST or DELETE, or if a user or role that would stay
      in its lists no longer exists. */
  predicate StopsAt(env: Env, locks: Locks, publications: Publications, user: string, id: nat) {
    id in publications && (LockRefuses(locks, id) || !StillKnown(env, publications[id], user))
  }

  lemma StopsWhere(env: Env, locks: Locks, publications: Publications, user: string, id: nat)
    requires IsWorkspaceName(user) && id in publications && FateOf(publications[id], user) == ToPatch
    requires Sound(publications[id])
    ensures Stops(env, locks, publications, user, id) <==> StopsAt(env, locks, publications, user, id)
  {
    PatchIsAccepted(env, publications[id], user);
  }

  /** The publications of `done` have lost the user, the others are as before, and none has been deleted. */
  ghost predicate Halfway(publications: Publications, result: Publications, user: string, done: seq<nat>) {
    && result.Keys == publications.Keys
    && forall id | id in publications ::
         if id in done then result[id] != publications[id] && Clean(publications[id], result[id], user)
         else result[id] == publications[id]
  }

  lemma OneIsChanged(env: Env, publications: Publications, user: string, done: seq<nat>, result: Publications, id: nat)
    requires UsersFine(env) && IsWorkspaceName(user) && HasFate(publications, id, user, ToPatch) && id in done
    requires Sound(publications[id]) && PatchedSoFar(env, publications, user, done, result)
    ensures result[id] != publications[id] && Clean(publications[id], result[id], user)
  {
    PatchChanges(env, publications[id], user, result[id]);
  }

  lemma SoFarIsHalfway(env: Env, publications: Publications, user: string, done: seq<nat>, result: Publications)
    requires UsersFine(env) && IsWorkspaceName(user) && forall id | id in publications :: Sound(publications[id])
    requires forall id | id in done :: HasFate(publications, id, user, ToPatch)
    requires PatchedSoFar(env, publications, user, done, result)
    ensures Halfway(publications, result, user, done)
  {
    forall id | id in publications
      ensures if id in done then result[id] != publications[id] && Clean(publications[id], result[id], user)
              else result[id] == publications[id]
    {
      if id in done {
        OneIsChanged(env, publications, user, done, result, id);
      }
    }
  }

  lemma HalfwayIsChanged(publications: Publications, result: Publications, user: string, done: seq<nat>)
    requires Halfway(publications, result, user, done) && forall id | id in done :: id in publications
    ensures result != publications <==> done != []
  {
    if done != [] {
      assert done[0] in done && result[done[0]] != publications[done[0]];
    }
  }

  lemma DoneIsClean(env: Env, publications: Publications, user: string, id: nat, after: Publication)
    requires UsersFine(env) && IsWorkspaceName(user) && id in publications && Sound(publications[id])
    requires FateOf(publications[id], user) != Unable && FateOf(publications[id], user) != ToDelete
    requires if FateOf(publications[id], user) == ToPatch then Patched(env, publications[id], user, after)
             else after == publications[id]
    ensures if InPublicWorkspace(publications[id]) then Clean(publications[id], after, user)
            else after == publications[id]
  {
    FateIsClean(env, publications[id], user, after);
  }

  /** A publication of a public workspace without EVERYONE, with the user as its only reader and writer among users. */
  ghost predicate OnlyHers(p: Publication, user: string) {
    && p.owner == None && "EVERYONE" !in NamesOf(p, Read) && "EVERYONE" !in NamesOf(p, Write)
    && user in NamesOf(p, Read) && (forall n | n in NamesOf(p, Read) && IsUser(n) :: n == user)
    && user in NamesOf(p, Write) && (forall n | n in NamesOf(p, Write) && IsUser(n) :: n == user)
  }

  /** Some other user, or EVERYONE, may write. */
  ghost predicate OthersWrite(p: Publication, user: string) {
    exists n :: n in NamesOf(p, Write) && n != user && (IsUser(n) || n == "EVERYONE")
  }

  /** A publication of a public workspace that names the user as reader, and not her alone. */
  ghost predicate SharedWith(p: Publication, user: string) {
    p.owner == None && user in NamesOf(p, Read) && !OnlyHers(p, user)
  }

  /** What the three lists hold, name by name. */
  lemma FateMeans(p: Publication, user: string)
    requires IsUser(user)
    ensures FateOf(p, user) == ToDelete <==> OnlyHers(p, user)
    ensures FateOf(p, user) == Unable <==> SharedWith(p, user) && !OthersWrite(p, user)
    ensures FateOf(p, user) == ToPatch <==> SharedWith(p, user) && OthersWrite(p, user)
  {
    OnlyMeans(p, user);
    LeftMeans(p, user);
  }

  lemma OnlyMeans(p: Publication, user: string)
    requires IsUser(user)
    ensures p.owner == None && OnlyReaderAndWriter(p, user) <==> OnlyHers(p, user)
  {
    OneUser(NamesOf(p, Read), user);
    OneUser(NamesOf(p, Write), user);
  }

  lemma OneUser(names: set<string>, user: string)
    requires IsUser(user)
    ensures Users(names) == {user} <==> user in names && forall n | n in names && IsUser(n) :: n == user
  {
    if Users(names) == {user} {
      forall n | n in names && IsUser(n) ensures n == user {
        assert n in Users(names);
      }
      assert user in Users(names);
    }
  }

  lemma LeftMeans(p: Publication, user: string)
    requires IsUser(user)
    ensures OnlyRolesWithoutEveryone(NamesOf(p, Write) - {user}) <==> !OthersWrite(p, user)
  {
    EveryoneIsNoUser();
    var left := NamesOf(p, Write) - {user};
    if Users(left) != {} {
      var n :| n in Users(left);
      assert n in NamesOf(p, Write) && n != user && IsUser(n);
    }
    if n :| n in NamesOf(p, Write) && n != user && (IsUser(n) || n == "EVERYONE") {
      assert IsUser(n) ==> n in Users(left);
    }
  }

  /** The planned patches are those of the shared publications that others write, in the order of the program. */
  lemma PlannedAre(publications: Publications, order: seq<nat>, user: string)
    requires IsOrder(order, publications) && IsUser(user)
    ensures var patches := Selected(publications, order, user, ToPatch);
      && (forall id :: id in patches <==>
            id in publications && SharedWith(publications[id], user) && OthersWrite(publications[id], user))
      && InOrder(patches, order)
  {
    SelectedHaveFate(publications, order, user, ToPatch);
    SelectedInOrder(publications, order, user, ToPatch);
    forall id | id in publications
      ensures FateOf(publications[id], user) == ToPatch <==>
        SharedWith(publications[id], user) && OthersWrite(publications[id], user)
    {
      FateMeans(publications[id], user);
    }
  }

  /** A list that goes through the order from left to right. */
  ghost predicate InOrder(ids: seq<nat>, order: seq<nat>) {
    forall i, j | 0 <= i < j < |ids| :: Before(order, ids[i], ids[j])
  }

  lemma {:induction false} SelectedInOrder(publications: Publications, order: seq<nat>, user: string, fate: Fate)
    ensures InOrder(Selected(publications, order, user, fate), order)
  {
    if order != [] {
      var n := |order| - 1;
      var rest := Selected(publications, order[..n], user, fate);
      SelectedInOrder(publications, order[..n], user, fate);
      SelectedHaveFate(publications, order[..n], user, fate);
      AppendedInOrder(rest, order, HasFate(publications, order[n], user, fate));
    }
  }

  ghost predicate Before(order: seq<nat>, first: nat, second: nat) {
    exists a, b :: 0 <= a < b < |order| && order[a] == first && order[b] == second
  }

  lemma BeforeInLonger(order: seq<nat>, n: nat, first: nat, second: nat)
    requires n <= |order| && Before(order[..n], first, second)
    ensures Before(order, first, second)
  {
    var a, b :| 0 <= a < b < n && order[..n][a] == first && order[..n][b] == second;
    assert order[a] == first && order[b] == second;
  }

  lemma BeforeLast(order: seq<nat>, first: nat)
    requires order != [] && first in order[..|order| - 1]
    ensures Before(order, first, order[|order| - 1])
  {
    var a :| 0 <= a < |order| - 1 && order[..|order| - 1][a] == first;
    assert order[a] == first;
  }

  lemma AppendedInOrder(rest: seq<nat>, order: seq<nat>, wanted: bool)
    requires order != [] && InOrder(rest, order[..|order| - 1])
    requires forall id | id in rest :: id in order[..|order| - 1]
    ensures InOrder(Appended(rest, order[|order| - 1], wanted), order)
  {
    var n := |order| - 1;
    var ids := Appended(rest, order[n], wanted);
    forall i, j | 0 <= i < j < |ids| ensures Before(order, ids[i], ids[j]) {
      assert ids[i] == rest[i] && rest[i] in rest;
      if j < |rest| {
        BeforeInLonger(order, n, rest[i], rest[j]);
      } else {
        BeforeLast(order, rest[i]);
      }
    }
  }

  /** What a deletion that was not stuck has done: the first `n` planned patches, and the deletions if that was all. */
  ghost predicate Decided(env: Env, locks: Locks, publications: Publications, order: seq<nat>, user: string, r: Outcome,
                          n: nat)
  {
    var patches := Selected(publications, order, user, ToPatch);
    && n <= |patches| && (r.Broken? <==> n < |patches|)
    && (forall i | 0 <= i < n :: !StopsAt(env, locks, publications, user, patches[i]))
    && (r.Broken? ==> StopsAt(env, locks, publications, user, patches[n])
                      && Halfway(publications, r.publications, user, patches[..n]))
    && (r.Done? ==> forall id | id in publications ::
          && (id in r.publications <==> !OnlyHers(publications[id], user))
          && (id in r.publications ==>
                if publications[id].owner == None then Clean(publications[id], r.publications[id], user)
                else r.publications[id] == publications[id]))
  }

  /** The deletion raises after part of its work exactly when its first planned patch does not raise and a later one
      does. */
  lemma StopsInTheMiddle(env: Env, locks: Locks, publications: Publications, order: seq<nat>, user: string, r: Outcome,
                         n: nat)
    requires Decided(env, locks, publications, order, user, r, n) && !r.Stuck?
    ensures var patches := Selected(publications, order, user, ToPatch);
      && (r.Broken? <==> exists i | 0 <= i < |patches| :: StopsAt(env, locks, publications, user, patches[i]))
      && (r.Broken? && r.publications != publications <==>
            && patches != [] && !StopsAt(env, locks, publications, user, patches[0])
            && exists i | 0 < i < |patches| :: StopsAt(env, locks, publications, user, patches[i]))
  {
    var patches := Selected(publications, order, user, ToPatch);
    SelectedHaveFate(publications, order, user, ToPatch);
    if r.Broken? {
      assert forall id | id in patches[..n] :: id in patches;
      HalfwayIsChanged(publications, r.publications, user, patches[..n]);
      assert patches[..n] != [] <==> n > 0;
      assert StopsAt(env, locks, publications, user, patches[n]);
      assert n > 0 <==> !StopsAt(env, locks, publications, user, patches[0]);
    } else {
      assert n == |patches|;
    }
  }

  lemma PrefixHasFate(publications: Publications, order: seq<nat>, user: string, n: nat)
    requires n <= |Selected(publications, order, user, ToPatch)|
    ensures forall id | id in Selected(publications, order, user, ToPatch)[..n] ::
      HasFate(publications, id, user, ToPatch)
  {
    SelectedHaveFate(publications, order, user, ToPatch);
    var patches := Selected(publications, order, user, ToPatch);
    forall id | id in patches[..n] ensures HasFate(publications, id, user, ToPatch) {
      assert id in patches;
    }
  }

  lemma BrokenIsDecided(env: Env, locks: Locks, publications: Publications, order: seq<nat>, user: string,
                        patches: seq<nat>, n: nat, result: Publications)
    requires UsersFine(env) && IsWorkspaceName(user) && forall id | id in publications :: Sound(publications[id])
    requires patches == Selected(publications, order, user, ToPatch) && n <= |patches|
    requires PatchedSoFar(env, publications, user, patches[..n], result)
    ensures Halfway(publications, result, user, patches[..n])
  {
    PrefixHasFate(publications, order, user, n);
    SoFarIsHalfway(env, publications, user, patches[..n], result);
  }

  lemma DoneIsDecided(env: Env, publications: Publications, order: seq<nat>, user: string, patched: Publications,
                      id: nat)
    requires UsersFine(env) && IsWorkspaceName(user) && id in publications && Sound(publications[id])
    requires IsOrder(order, publications) && Selected(publications, order, user, Unable) == []
    requires PatchedSoFar(env, publications, user, Selected(publications, order, user, ToPatch), patched)
    ensures var result := patched - set d | d in Selected(publications, order, user, ToDelete);
      && (id in result <==> !OnlyHers(publications[id], user))
      && (id in result ==>
            if publications[id].owner == None then Clean(publications[id], result[id], user)
            else result[id] == publications[id])
  {
    WorkspaceNameIsUser(user);
    FateMeans(publications[id], user);
    SelectedHaveFate(publications, order, user, Unable);
    SelectedHaveFate(publications, order, user, ToDelete);
    SelectedHaveFate(publications, order, user, ToPatch);
    assert HasFate(publications, id, user, Unable) ==> id in Selected(publications, order, user, Unable);
    if FateOf(publications[id], user) != ToDelete {
      DoneIsClean(env, publications, user, id, patched[id]);
    }
  }

  lemma UnableAre(publications: Publications, order: seq<nat>, user: string)
    requires IsOrder(order, publications) && IsWorkspaceName(user)
    ensures var unable := Selected(publications, order, user, Unable);
      && InOrder(unable, order)
      && (forall id :: id in unable <==>
            id in publications && SharedWith(publications[id], user) && !OthersWrite(publications[id], user))
      && (unable != [] <==>
            exists id ::
              id in publications && SharedWith(publications[id], user) && !OthersWrite(publications[id], user))
  {
    WorkspaceNameIsUser(user);
    SelectedHaveFate(publications, order, user, Unable);
    SelectedInOrder(publications, order, user, Unable);
    forall id | id in publications
      ensures FateOf(publications[id], user) == Unable <==>
        SharedWith(publications[id], user) && !OthersWrite(publications[id], user)
    {
      FateMeans(publications[id], user);
    }
    var unable := Selected(publications, order, user, Unable);
    if unable != [] {
      assert unable[0] in unable;
    }
  }

  /** Either nothing happens and error 58 lists exactly the publications that only roles could still write; or the
      planned patches are made in order, up to the first that raises; and if none raises, every publication of a public
      workspace is deleted, when nobody else uses it, or kept without the user. */
  method DeletionIsDecidedFirst(env: Env, locks: Locks, publications: Publications, order: seq<nat>, user: string)
    returns (r: Outcome, ghost n: nat)
    requires UsersFine(env) && IsWorkspaceName(user) && IsOrder(order, publications)
    requires forall id | id in publications :: Sound(publications[id])
    ensures r.Stuck? <==>
      exists id :: id in publications && SharedWith(publications[id], user) && !OthersWrite(publications[id], user)
    ensures r.Stuck? ==> InOrder(r.unable, order) && forall id ::
      id in r.unable <==>
        id in publications && SharedWith(publications[id], user) && !OthersWrite(publications[id], user)
    ensures !r.Stuck? ==> Decided(env, locks, publications, order, user, r, n)
  {
    UnableAre(publications, order, user);
    ghost var patches := Selected(publications, order, user, ToPatch);
    SelectedHaveFate(publications, order, user, ToPatch);
    forall i | 0 <= i < |patches|
      ensures Stops(env, locks, publications, user, patches[i]) <==> StopsAt(env, locks, publications, user, patches[i])
    {
      assert patches[i] in patches;
      StopsWhere(env, locks, publications, user, patches[i]);
    }
    r, n := DeleteUserPublicPublications(env, locks, publications, order, user);
    if r.Broken? {
      BrokenIsDecided(env, locks, publications, order, user, patches, n, r.publications);
    } else if r.Done? {
      ghost var patched :| PatchedSoFar(env, publications, user, patches, patched)
        && r.publications == patched - set id | id in Selected(publications, order, user, ToDelete);
      forall id | id in publications
        ensures id in r.publications <==> !OnlyHers(publications[id], user)
        ensures id in r.publications ==>
          if publications[id].owner == None then Clean(publications[id], r.publications[id], user)
          else r.publications[id] == publications[id]
      {
        DoneIsDecided(env, publications, order, user, patched, id);
      }
    }
  }

  /** A publication that everyone reads and writes and that also names the user. */
  function Shared(user: string): Publication {
    Publication(None, true, true, map[Row(Read, UserRow(user)) := 1])
  }

  lemma SharedIsPlanned(env: Env, user: string)
    requires IsWorkspaceName(user)
    ensures Sound(Shared(user)) && FateOf(Shared(user), user) == ToPatch && StillKnown(env, Shared(user), user)
  {
    WorkspaceNameIsUser(user);
    EveryoneIsNoUser();
    var p := Shared(user);
    assert Row(Read, UserRow(user)) in p.rows && Row(Read, UserRow(user)).grantee.name == user;
    assert NamesOf(p, Read) == {user, EVERYONE} && NamesOf(p, Write) == {EVERYONE};
    assert NamesOf(p, Read) - {user} == {EVERYONE} && NamesOf(p, Write) - {user} == {EVERYONE};
    assert Users({EVERYONE}) == {} && Roles({EVERYONE}) == {EVERYONE};
  }

  /** With two such publications, the second of which is being posted, the first is patched and then the deletion
      raises. */
  lemma SecondIsLocked(env: Env, user: string, r: Outcome, n: nat)
    requires IsWorkspaceName(user) && !r.Stuck?
    requires Decided(env, map[1 := Chains.Post], map[0 := Shared(user), 1 := Shared(user)], [0, 1], user, r, n)
    ensures r.Broken? && n == 1 && r.publications[0] != Shared(user) && r.publications[1] == Shared(user)
  {
    SharedIsPlanned(env, user);
    var publications := map[0 := Shared(user), 1 := Shared(user)];
    BothAreSelected(publications, user);
    assert !StopsAt(env, map[1 := Chains.Post], publications, user, 0);
    assert StopsAt(env, map[1 := Chains.Post], publications, user, 1);
  }

  lemma BothAreSelected(publications: Publications, user: string)
    requires HasFate(publications, 0, user, ToPatch) && HasFate(publications, 1, user, ToPatch)
    ensures Selected(publications, [0, 1], user, ToPatch) == [0, 1]
  {
    assert [0, 1][..1] == [0] && [0][..0] == [];
    assert Selected(publications, [0], user, ToPatch) == [0];
  }

  /** The gap that the direct-reader filter leaves: such a user stays listed, and then everyone may read. */
  lemma WriterOnlyStays(user: string)
    requires IsWorkspaceName(user)
    ensures var p := Publication(None, true, false, map[Row(Write, UserRow(user)) := 1]);
      && Sound(p) && InPublicWorkspace(p) && user in NamesOf(p, Write) && FateOf(p, user) == Untouched
      && EVERYONE in NamesOf(p, Read)
  {
    var p := Publication(None, true, false, map[Row(Write, UserRow(user)) := 1]);
    WorkspaceNameIsUser(user);
    assert Row(Write, UserRow(user)).grantee.name == user;
    EveryoneIsNoUser();
    assert user in Users(NamesOf(p, Write));
  }
}
