/** The publication lock, the task chain of a publication and its run-after queue, as Redis holds them
    (src/layman/celery.py, src/layman/common/redis.py, src/layman/util.py).

    Every function below maps one state of the Redis hashes to the next. The states of the Celery tasks of a
    chain, which the program fetches by task id, are kept beside the chain record. A task id is the pair of the
    chain it was issued for and its position there: Celery never issues an id twice. `issued` lists the
    publications of the chains ever started, so the serial of a chain is its index in that list.

    A Ledger counts the feature changes of one publication. The program does not store it: it is what the
    statement "no feature change is lost" speaks about. */
module Chains {
  import opened Wrappers

  datatype PublType = LayerType | MapType

  datatype Publ = Publ(workspace: string, kind: PublType, name: string)

  datatype Lock = Patch | Delete | Post | FeatureChange

  datatype Outcome = Pending | Success | Failure | Aborted

  datatype TaskId = TaskId(serial: nat, index: int)

  datatype Chain = Chain(serial: nat, tasks: seq<Outcome>, finished: bool, state: Outcome) {
    function Last(): TaskId {
      TaskId(serial, |tasks| - 1)
    }

    /** `is_chain_ready`: by the stored state, the last task's success or any task's failure. */
    predicate Ready() {
      state != Pending || (tasks != [] && tasks[|tasks| - 1] == Success) || Failure in tasks
    }
  }

  datatype Ledger = Ledger(accepted: nat, running: nat, settled: nat, dropped: nat)

  datatype State = State(
    locks: map<Publ, Lock>,
    chains: map<Publ, Chain>,
    owners: map<TaskId, Publ>,
    queues: map<Publ, seq<string>>,
    issued: seq<Publ>,
    ledgers: map<Publ, Ledger>)

  datatype Error = UnknownMethod | Locked(canRunLater: bool)

  type Reply = Result<State, Error>

  const STEP := "layman.util::patch_after_feature_change"

  const EMPTY := State(map[], map[], map[], map[], [], map[])

  /** How many tasks a feature-change chain has: one per source module that defines
      `patch_after_feature_change` (six for a layer, the thumbnail alone for a map). */
  function FeatureChangeTasks(kind: PublType): nat {
    match kind
    case LayerType => 6
    case MapType => 1
  }

  function LockOf(s: State, p: Publ): Option<Lock> {
    if p in s.locks then Some(s.locks[p]) else None
  }

  function ChainOf(s: State, p: Publ): Option<Chain> {
    if p in s.chains then Some(s.chains[p]) else None
  }

  function QueueOf(s: State, p: Publ): seq<string> {
    if p in s.queues then s.queues[p] else []
  }

  function LedgerOf(s: State, p: Publ): Ledger {
    if p in s.ledgers then s.ledgers[p] else Ledger(0, 0, 0, 0)
  }

  /* ---- single Redis updates ---- */

  function Acquire(s: State, p: Publ, lock: Lock): State {
    s.(locks := s.locks[p := lock])
  }

  function Unlock(s: State, p: Publ): State {
    s.(locks := s.locks - {p})
  }

  function Push(s: State, p: Publ, code: string): State {
    if code in QueueOf(s, p) then s else s.(queues := s.queues[p := QueueOf(s, p) + [code]])
  }

  function ClearQueue(s: State, p: Publ): State {
    s.(queues := s.queues - {p})
  }

  /** A missing chain record makes the program raise; Coherent rules that out for every task that owns a
      publication, so the missing case is left as it is. */
  function SetFinished(s: State, p: Publ, state: Outcome): State {
    if p in s.chains then s.(chains := s.chains[p := s.chains[p].(finished := true, state := state)]) else s
  }

  /** The locks that end with the chain that they protect. */
  predicate HeldByChain(lock: Option<Lock>) {
    lock == Some(Patch) || lock == Some(Post) || lock == Some(FeatureChange)
  }

  function FinishChain(s: State, last: TaskId, state: Outcome): State {
    if last !in s.owners then
      s
    else
      var p := s.owners[last];
      var done := SetFinished(s.(owners := s.owners - {last}), p, state);
      if HeldByChain(LockOf(done, p)) then Unlock(done, p) else done
  }

  function StartChain(s: State, p: Publ, tasks: nat): State {
    if tasks == 0 then
      s
    else
      var chain := Chain(|s.issued|, seq(tasks, _ => Pending), false, Pending);
      s.(chains := s.chains[p := chain], owners := s.owners[chain.Last() := p], issued := s.issued + [p])
  }

  function ChainReady(s: State, p: Publ): bool {
    p in s.chains ==> s.chains[p].Ready()
  }

  function AbortTasks(tasks: seq<Outcome>): seq<Outcome> {
    seq(|tasks|, i requires 0 <= i < |tasks| => if tasks[i] == Pending then Aborted else tasks[i])
  }

  /** A complete abort: unfinished tasks are aborted, the running one fails and its postrun event clears the
      queue and finishes the chain, and the record then says ABORTED. */
  function AbortChain(s: State, p: Publ): State {
    if ChainReady(s, p) then
      s
    else
      var c := s.chains[p];
      var stopped := s.(chains := s.chains[p := c.(tasks := AbortTasks(c.tasks))]);
      SetFinished(FinishChain(ClearQueue(stopped, p), c.Last(), Failure), p, Aborted)
  }

  function AbortPublication(s: State, p: Publ): State {
    ClearQueue(AbortChain(s, p), p)
  }

  /** `delete_publication` of celery.py: the chain record and the entry of its last task. */
  function DropRecord(s: State, p: Publ): State {
    if p in s.chains then
      s.(chains := s.chains - {p}, owners := s.owners - {s.chains[p].Last()})
    else
      s
  }

  function SolveLocks(s: State, p: Publ, requested: Lock): Reply {
    match LockOf(s, p)
    case None => Ok(s)
    case Some(current) =>
      if requested == Post then Err(UnknownMethod)
      else if (current == Patch || current == Post) && requested == Patch then Err(Locked(false))
      else if current == Delete && requested == Patch then Err(Locked(false))
      else if requested == FeatureChange then Err(Locked(true))
      else if current == FeatureChange && requested == Patch then Ok(Push(AbortPublication(s, p), p, STEP))
      else Ok(s)
  }

  function CreateLock(s: State, p: Publ, requested: Lock): Reply {
    match SolveLocks(s, p, requested)
    case Ok(s') => Ok(Acquire(s', p, requested))
    case Err(error) => Err(error)
  }

  /** `patch_after_feature_change`: take the lock and start a chain, or queue itself for later. */
  function PatchAfterFeatureChange(s: State, p: Publ): State {
    match CreateLock(s, p, FeatureChange)
    case Ok(s') =>
      var l := LedgerOf(s', p);
      StartChain(s'.(ledgers := s'.ledgers[p := l.(running := l.accepted)]), p, FeatureChangeTasks(p.kind))
    case Err(_) => Push(s, p, STEP)
  }

  function RunNextChain(s: State, p: Publ): State {
    var queue := QueueOf(s, p);
    if queue == [] then
      s
    else
      var popped := s.(queues := s.queues[p := queue[1..]]);
      if queue[0] == STEP then PatchAfterFeatureChange(popped, p) else popped
  }

  /* ---- whole handlers: each is one atomic step ---- */

  function Count(s: State, p: Publ): State {
    var l := LedgerOf(s, p);
    s.(ledgers := s.ledgers[p := l.(accepted := l.accepted + 1)])
  }

  /** A change of the features of p is accepted: a WFS-T request, or the chain of a layer that map p uses. */
  function AcceptChange(s: State, p: Publ): State {
    PatchAfterFeatureChange(Count(s, p), p)
  }

  function Cascade(s: State, maps: seq<Publ>): State
    decreases |maps|
  {
    if maps == [] then s else Cascade(AcceptChange(s, maps[0]), maps[1..])
  }

  function Drop(s: State, p: Publ): State {
    var l := LedgerOf(s, p);
    s.(ledgers := s.ledgers[p := l.(dropped := l.accepted)])
  }

  function Settle(s: State, p: Publ): State {
    var l := LedgerOf(s, p);
    s.(ledgers := s.ledgers[p := l.(settled := if l.running > l.settled then l.running else l.settled)])
  }

  function SettleIfChange(s: State, p: Publ): State {
    if LockOf(s, p) == Some(FeatureChange) then Settle(s, p) else s
  }

  function PostRequest(s: State, p: Publ, tasks: nat): Reply {
    match CreateLock(s, p, Post)
    case Ok(locked) => Ok(StartChain(locked, p, tasks))
    case Err(error) => Err(error)
  }

  /** The end of a decorated handler: unlock and run the next chain unless a chain has been started. */
  function Release(s: State, p: Publ): State {
    if ChainReady(s, p) then RunNextChain(Unlock(s, p), p) else s
  }

  /** PATCH; `refresh` says that the handler deletes dependent sources, and the chain record, first. */
  function PatchRequest(s: State, p: Publ, tasks: nat, refresh: bool): Reply {
    match CreateLock(s, p, Patch)
    case Ok(locked) =>
      var cleaned := if refresh then DropRecord(locked, p) else locked;
      Ok(Release(StartChain(cleaned, p, tasks), p))
    case Err(error) => Err(error)
  }

  function DeleteRequest(s: State, p: Publ): Reply {
    match CreateLock(s, p, Delete)
    case Ok(locked) => Ok(Release(DropRecord(Drop(AbortPublication(locked, p), p), p), p))
    case Err(error) => Err(error)
  }

  /** `patch_publication`, used while a user is being deleted: no chain, and no run_next_chain either. */
  function SyncPatch(s: State, p: Publ): Reply {
    match CreateLock(s, p, Patch)
    case Ok(locked) => Ok(if ChainReady(locked, p) then Unlock(locked, p) else locked)
    case Err(error) => Err(error)
  }

  /** A handler that raises after it has taken its lock, and how far it got: how many tasks the chain has that it has
      started, if any; whether it has dropped the chain record; for a DELETE, whether it has aborted the chain. PATCH
      and DELETE are decorated; POST, the synchronous PATCH and the synchronous DELETE catch the exception
      themselves. */
  datatype Failing =
    | PostFails(tasks: nat)
    | PatchFails(refresh: bool, tasks: nat)
    | DeleteFails(aborted: bool, dropped: bool)
    | SyncPatchFails
    | SyncDeleteFails(aborted: bool, dropped: bool)

  function Requested(f: Failing): Lock {
    match f
    case PostFails(_) => Post
    case PatchFails(_, _) => Patch
    case SyncPatchFails => Patch
    case DeleteFails(_, _) => Delete
    case SyncDeleteFails(_, _) => Delete
  }

  function DeletedSoFar(locked: State, p: Publ, aborted: bool, dropped: bool): State {
    if !aborted then
      locked
    else
      var stopped := Drop(AbortPublication(locked, p), p);
      if dropped then DropRecord(stopped, p) else stopped
  }

  function AtRaise(locked: State, p: Publ, f: Failing): State {
    match f
    case PostFails(tasks) => StartChain(locked, p, tasks)
    case PatchFails(refresh, tasks) => StartChain(if refresh then DropRecord(locked, p) else locked, p, tasks)
    case SyncPatchFails => locked
    case DeleteFails(aborted, dropped) => DeletedSoFar(locked, p, aborted, dropped)
    case SyncDeleteFails(aborted, dropped) => DeletedSoFar(locked, p, aborted, dropped)
  }

  function Leave(s: State, p: Publ, runNext: bool): State {
    if runNext then RunNextChain(Unlock(s, p), p) else Unlock(s, p)
  }

  /** The exception path: release if the chain is ready, and then release in any case. */
  function Recovered(s: State, p: Publ, runNext: bool): State {
    Leave(if ChainReady(s, p) then Leave(s, p, runNext) else s, p, runNext)
  }

  function Fail(s: State, p: Publ, f: Failing): Reply {
    match CreateLock(s, p, Requested(f))
    case Ok(locked) => Ok(Recovered(AtRaise(locked, p, f), p, f.PatchFails? || f.DeleteFails?))
    case Err(error) => Err(error)
  }

  predicate Enabled(s: State, p: Publ, i: nat) {
    && p in s.chains && !s.chains[p].finished
    && i < |s.chains[p].tasks| && s.chains[p].tasks[i] == Pending
    && forall j | 0 <= j < i :: s.chains[p].tasks[j] == Success
  }

  function WithOutcome(s: State, p: Publ, i: nat, outcome: Outcome): State
    requires Enabled(s, p, i)
  {
    s.(chains := s.chains[p := s.chains[p].(tasks := s.chains[p].tasks[i := outcome])])
  }

  /** The last task of the chain of p has ended: the chain is finished and the publication unlocked. */
  function LastEnded(s: State, p: Publ, i: nat, success: bool): State
    requires Enabled(s, p, i)
  {
    var outcome := if success then Success else Failure;
    FinishChain(SettleIfChange(WithOutcome(s, p, i, outcome), p), TaskId(s.chains[p].serial, i), outcome)
  }

  /** `task_postrun` of task i of the chain of p; `maps` are the maps that use layer p. */
  function TaskEnd(s: State, p: Publ, i: nat, success: bool, maps: seq<Publ>): State
    requires Enabled(s, p, i)
  {
    var outcome := if success then Success else Failure;
    var task := TaskId(s.chains[p].serial, i);
    var ended := WithOutcome(s, p, i, outcome);
    if task in ended.owners then
      var finished := LastEnded(s, p, i, success);
      RunNextChain(if p.kind == LayerType then Cascade(finished, maps) else finished, p)
    else if !success && p in ended.chains then
      FinishChain(ClearQueue(Drop(ended, p), p), ended.chains[p].Last(), outcome)
    else
      ended
  }

  datatype Step =
    | PostStep(p: Publ, tasks: nat)
    | PatchStep(p: Publ, tasks: nat, refresh: bool)
    | DeleteStep(p: Publ)
    | ChangeStep(p: Publ)
    | TaskStep(p: Publ, i: nat, success: bool, maps: seq<Publ>)

  /** A POST starts at least one task, and only maps use layers. */
  predicate Legal(step: Step) {
    && (step.PostStep? ==> step.tasks > 0)
    && (step.TaskStep? ==> forall m | m in step.maps :: m.kind == MapType)
  }

  function OrElse(r: Reply, s: State): State {
    if r.Ok? then r.value else s
  }

  /** A refused request changes nothing, and neither does a task event that cannot happen. */
  function Apply(s: State, step: Step): State {
    match step
    case PostStep(p, tasks) => OrElse(PostRequest(s, p, tasks), s)
    case PatchStep(p, tasks, refresh) => OrElse(PatchRequest(s, p, tasks, refresh), s)
    case DeleteStep(p) => OrElse(DeleteRequest(s, p), s)
    case ChangeStep(p) => AcceptChange(s, p)
    case TaskStep(p, i, success, maps) => if Enabled(s, p, i) then TaskEnd(s, p, i, success, maps) else s
  }

  function Run(s: State, steps: seq<Step>): State
    decreases |steps|
  {
    if steps == [] then s else Run(Apply(s, steps[0]), steps[1..])
  }
}
