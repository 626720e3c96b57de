/** What each handler and each task event does to a publication, and that every accepted change is served, said by the
    steps of the run alone. */
module ChainEffects {
  import opened Wrappers
  import opened Chains
  import opened ChainInvariants
  import opened ChainTheorems

  /** Which lock may be taken over which. */
  lemma LockTable(s: State, p: Publ)
    ensures CreateLock(s, p, Post).Ok? <==> p !in s.locks
    ensures CreateLock(s, p, Patch).Ok? <==> (p in s.locks ==> s.locks[p] == FeatureChange)
    ensures CreateLock(s, p, FeatureChange).Ok? <==> p !in s.locks
    ensures CreateLock(s, p, Delete).Ok?
    ensures p in s.locks ==> CreateLock(s, p, Post) == Err(UnknownMethod)
    ensures p in s.locks && s.locks[p] != FeatureChange ==> CreateLock(s, p, Patch) == Err(Locked(false))
    ensures p in s.locks ==> CreateLock(s, p, FeatureChange) == Err(Locked(true))
  {}

  /** Nothing of any other publication has changed. */
  ghost predicate OnlyOf(s: State, s': State, p: Publ) {
    forall q | q != p :: ViewOf(s', q) == ViewOf(s, q)
  }

  /** A fresh chain of p with this many tasks has been recorded, with the entry of its last task. */
  predicate Recorded(s: State, s': State, p: Publ, tasks: nat)
    requires tasks > 0
  {
    && ChainOf(s', p) == Some(Chain(|s.issued|, seq(tasks, _ => Pending), false, Pending))
    && s'.issued == s.issued + [p]
    && TaskId(|s.issued|, tasks - 1) in s'.owners && s'.owners[TaskId(|s.issued|, tasks - 1)] == p
  }

  /** POST of an unlocked publication takes the lock and starts its chain. */
  lemma PostOnUnlocked(s: State, p: Publ, tasks: nat)
    requires Coherent(s) && LockOf(s, p) == None && tasks > 0
    ensures PostRequest(s, p, tasks).Ok?
    ensures var s' := PostRequest(s, p, tasks).value;
      && LockOf(s', p) == Some(Post) && QueueOf(s', p) == [] && Recorded(s, s', p, tasks) && OnlyOf(s, s', p)
      && s'.owners == s.owners[TaskId(|s.issued|, tasks - 1) := p]
  {
    Split(s, p, {});
  }

  lemma NoEntry(s: State, p: Publ)
    requires Coherent(s) && LockOf(s, p) == None
    ensures QueueOf(s, p) == [] && ChainReady(s, p) && (p in s.chains ==> s.chains[p].Last() !in s.owners)
  {
    Split(s, p, {});
    NumberedOwners(s, p, {});
    assert !Active(s, p);
  }

  lemma CleanedOnly(s: State, p: Publ, refresh: bool)
    requires Coherent(s) && LockOf(s, p) == None
    ensures var locked := Acquire(s, p, Patch);
      var cleaned := if refresh then DropRecord(locked, p) else locked;
      && CreateLock(s, p, Patch) == Ok(locked)
      && cleaned.owners == s.owners && cleaned.issued == s.issued && OnlyOf(s, cleaned, p)
      && LockOf(cleaned, p) == Some(Patch) && QueueOf(cleaned, p) == [] && ChainReady(cleaned, p)
      && ChainOf(cleaned, p) == if refresh then None else ChainOf(s, p)
  {
    NoEntry(s, p);
    LockedOnly(s, p);
    if refresh {
      RecordDropped(Acquire(s, p, Patch), p);
      OnlyTwice(s, Acquire(s, p, Patch), DropRecord(Acquire(s, p, Patch), p), p);
    }
  }

  lemma LockedOnly(s: State, p: Publ)
    ensures var s' := Acquire(s, p, Patch);
      && s'.owners == s.owners && s'.issued == s.issued && OnlyOf(s, s', p) && LockOf(s', p) == Some(Patch)
      && QueueOf(s', p) == QueueOf(s, p) && ChainOf(s', p) == ChainOf(s, p)
  {}

  lemma RecordDropped(s: State, p: Publ)
    requires p in s.chains ==> s.chains[p].Last() !in s.owners
    ensures var s' := DropRecord(s, p);
      && s'.owners == s.owners && s'.issued == s.issued && OnlyOf(s, s', p) && LockOf(s', p) == LockOf(s, p)
      && QueueOf(s', p) == QueueOf(s, p) && ChainOf(s', p) == None
  {}

  lemma StartIsRecorded(s: State, p: Publ, tasks: nat)
    requires tasks > 0
    ensures var s' := StartChain(s, p, tasks);
      && Release(s', p) == s' && Recorded(s, s', p, tasks) && OnlyOf(s, s', p)
      && s'.owners == s.owners[TaskId(|s.issued|, tasks - 1) := p]
      && LockOf(s', p) == LockOf(s, p) && QueueOf(s', p) == QueueOf(s, p)
  {
    StartedNotReady(s, p, tasks);
  }

  lemma IdleRelease(s: State, p: Publ)
    requires ChainReady(s, p) && QueueOf(s, p) == []
    ensures Release(s, p) == Unlock(s, p)
  {}

  lemma PatchStartsChain(s: State, p: Publ, tasks: nat, refresh: bool)
    requires Coherent(s) && LockOf(s, p) == None && tasks > 0
    ensures PatchRequest(s, p, tasks, refresh).Ok?
    ensures var s' := PatchRequest(s, p, tasks, refresh).value;
      && QueueOf(s', p) == [] && OnlyOf(s, s', p) && LockOf(s', p) == Some(Patch) && Recorded(s, s', p, tasks)
      && s'.owners == s.owners[TaskId(|s.issued|, tasks - 1) := p]
  {
    CleanedOnly(s, p, refresh);
    var cleaned := if refresh then DropRecord(Acquire(s, p, Patch), p) else Acquire(s, p, Patch);
    StartIsRecorded(cleaned, p, tasks);
    OnlyTwice(s, cleaned, StartChain(cleaned, p, tasks), p);
  }

  lemma OnlyTwice(s: State, s': State, s'': State, p: Publ)
    requires OnlyOf(s, s', p) && OnlyOf(s', s'', p)
    ensures OnlyOf(s, s'', p)
  {}

  lemma PatchStartsNothing(s: State, p: Publ, refresh: bool)
    requires Coherent(s) && LockOf(s, p) == None
    ensures PatchRequest(s, p, 0, refresh).Ok?
    ensures var s' := PatchRequest(s, p, 0, refresh).value;
      && QueueOf(s', p) == [] && OnlyOf(s, s', p) && LockOf(s', p) == None
      && s'.issued == s.issued && s'.owners == s.owners && ChainOf(s', p) == if refresh then None else ChainOf(s, p)
  {
    CleanedOnly(s, p, refresh);
    var cleaned := if refresh then DropRecord(Acquire(s, p, Patch), p) else Acquire(s, p, Patch);
    NoTasksRelease(s, p, refresh);
    Unlocked(cleaned, p);
    OnlyTwice(s, cleaned, Unlock(cleaned, p), p);
  }

  lemma NoTasksRelease(s: State, p: Publ, refresh: bool)
    requires Coherent(s) && LockOf(s, p) == None
    ensures var cleaned := if refresh then DropRecord(Acquire(s, p, Patch), p) else Acquire(s, p, Patch);
      PatchRequest(s, p, 0, refresh) == Ok(Unlock(cleaned, p))
  {
    CleanedOnly(s, p, refresh);
    IdleRelease(if refresh then DropRecord(Acquire(s, p, Patch), p) else Acquire(s, p, Patch), p);
  }

  lemma Unlocked(s: State, p: Publ)
    ensures var s' := Unlock(s, p);
      && LockOf(s', p) == None && QueueOf(s', p) == QueueOf(s, p) && ChainOf(s', p) == ChainOf(s, p)
      && s'.issued == s.issued && s'.owners == s.owners && OnlyOf(s, s', p)
  {}

  /** PATCH of an unlocked publication takes the lock and starts its chain; without tasks no lock and no new chain
      remain. */
  lemma PatchOnUnlocked(s: State, p: Publ, tasks: nat, refresh: bool)
    requires Coherent(s) && LockOf(s, p) == None
    ensures PatchRequest(s, p, tasks, refresh).Ok?
    ensures var s' := PatchRequest(s, p, tasks, refresh).value;
      && QueueOf(s', p) == [] && OnlyOf(s, s', p)
      && (tasks > 0 ==>
            && LockOf(s', p) == Some(Patch) && Recorded(s, s', p, tasks)
            && s'.owners == s.owners[TaskId(|s.issued|, tasks - 1) := p])
      && (tasks == 0 ==>
            && LockOf(s', p) == None && s'.issued == s.issued && s'.owners == s.owners
            && ChainOf(s', p) == if refresh then None else ChainOf(s, p))
  {
    if tasks > 0 {
      PatchStartsChain(s, p, tasks, refresh);
    } else {
      PatchStartsNothing(s, p, refresh);
    }
  }

  lemma StartedNotReady(s: State, p: Publ, tasks: nat)
    requires tasks > 0
    ensures !ChainReady(StartChain(s, p, tasks), p)
  {
    assert StartChain(s, p, tasks).chains[p].tasks[tasks - 1] == Pending;
  }

  /** PATCH without tasks over a feature-change chain starts the broken-off change anew. */
  lemma PatchWithoutTasks(s: State, p: Publ, refresh: bool)
    requires Coherent(s) && LockOf(s, p) == Some(FeatureChange)
    ensures PatchRequest(s, p, 0, refresh).Ok?
    ensures var s' := PatchRequest(s, p, 0, refresh).value;
      && LockOf(s', p) == Some(FeatureChange) && QueueOf(s', p) == []
      && Recorded(s, s', p, if p.kind == LayerType then 6 else 1)
  {
    PatchAccepted(s, p);
    PatchLocks(s, p);
    PatchLockViews(s, p);
    AbortViewsHere(s, p);
    var locked := CreateLock(s, p, Patch).value;
    var cleaned := if refresh then DropRecord(locked, p) else locked;
    QueuedIsRecorded(Unlock(cleaned, p), p);
  }

  lemma QueuedIsRecorded(s: State, p: Publ)
    requires QueueOf(s, p) == [STEP] && LockOf(s, p) == None
    ensures var s' := RunNextChain(s, p);
      && LockOf(s', p) == Some(FeatureChange) && QueueOf(s', p) == []
      && Recorded(s, s', p, if p.kind == LayerType then 6 else 1)
  {}

  /** A feature change of an unlocked publication takes the lock and starts a chain of six tasks, of a map one. */
  lemma ChangeOnUnlocked(s: State, p: Publ)
    requires LockOf(s, p) == None
    ensures var s' := AcceptChange(s, p);
      && LockOf(s', p) == Some(FeatureChange) && QueueOf(s', p) == QueueOf(s, p)
      && Recorded(s, s', p, if p.kind == LayerType then 6 else 1) && OnlyOf(s, s', p)
  {}

  /** A feature change of a locked publication changes its queue and nothing else. */
  lemma ChangeOnLocked(s: State, p: Publ)
    requires LockOf(s, p) != None && QueueShape(QueueOf(s, p))
    ensures var s' := AcceptChange(s, p);
      && LockOf(s', p) == LockOf(s, p) && ChainOf(s', p) == ChainOf(s, p) && QueueOf(s', p) == [STEP]
      && s'.issued == s.issued && s'.owners == s.owners && OnlyOf(s, s', p)
  {}

  /** An abort fails or keeps each task, finishes the record as ABORTED, releases the lock and clears the queue. */
  lemma AbortEnds(s: State, p: Publ)
    requires Coherent(s) && Active(s, p)
    ensures var s' := AbortPublication(s, p);
      && LockOf(s', p) == None && QueueOf(s', p) == [] && OnlyOf(s, s', p)
      && p in s'.chains && s'.chains[p].finished && s'.chains[p].state == Aborted
      && |s'.chains[p].tasks| == |s.chains[p].tasks|
      && (forall i | 0 <= i < |s.chains[p].tasks| ::
            s'.chains[p].tasks[i] == if s.chains[p].tasks[i] == Pending then Aborted else s.chains[p].tasks[i])
      && s'.owners == s.owners - {s.chains[p].Last()}
  {
    Split(s, p, {});
    AbortViews(s, p);
    assert ChainOf(AbortPublication(s, p), p).Some?;
  }

  /** The last task of a chain leaves its outcome in the record and the publication unlocked, if nothing is queued. */
  lemma LastTaskLeaves(s: State, p: Publ, i: nat, success: bool, maps: seq<Publ>)
    requires Coherent(s) && Enabled(s, p, i) && i == |s.chains[p].tasks| - 1
    requires forall m | m in maps :: m.kind == MapType
    ensures var outcome := if success then Success else Failure;
      var s' := TaskEnd(s, p, i, success, maps);
      QueueOf(s, p) == [] ==>
        && LockOf(s', p) == None && QueueOf(s', p) == []
        && ChainOf(s', p) == Some(Chain(s.chains[p].serial, s.chains[p].tasks[i := outcome], true, outcome))
  {
    LastTaskEnd(s, p, i, success, maps);
    LastRecord(s, p, i, success);
    LastFinishes(s, p, i, success);
    var finished := LastEnded(s, p, i, success);
    if p.kind == LayerType {
      CascadeKeeps(finished, maps, p);
      assert ViewOf(Cascade(finished, maps), p) == ViewOf(finished, p);
    }
  }

  lemma LastRecord(s: State, p: Publ, i: nat, success: bool)
    requires Coherent(s) && Enabled(s, p, i) && i == |s.chains[p].tasks| - 1
    ensures var outcome := if success then Success else Failure;
      ChainOf(LastEnded(s, p, i, success), p)
      == Some(Chain(s.chains[p].serial, s.chains[p].tasks[i := outcome], true, outcome))
  {
    var outcome := if success then Success else Failure;
    OnlyLastTaskIsKnown(s, p, i);
    FailureOwner(s, p);
    FinishViews(SettleIfChange(WithOutcome(s, p, i, outcome), p), p, outcome);
  }

  /* ---- every accepted change is served ---- */

  /** A change accepted when `since` chains had been started is queued, or a later feature-change chain is running. */
  predicate Serves(s: State, p: Publ, since: nat) {
    || STEP in QueueOf(s, p)
    || (LockOf(s, p) == Some(FeatureChange) && Active(s, p) && s.chains[p].serial >= since)
  }

  /** A DELETE of p, or the failure of a task of p before the last. */
  predicate GivesUp(s: State, step: Step, p: Publ) {
    || step == DeleteStep(p)
    || (step.TaskStep? && step.p == p && Enabled(s, p, step.i) && step.i != |s.chains[p].tasks| - 1 && !step.success)
  }

  /** The last task of a feature-change chain of p that was started since. */
  predicate Completes(s: State, step: Step, p: Publ, since: nat) {
    && step.TaskStep? && step.p == p && Enabled(s, p, step.i) && step.i == |s.chains[p].tasks| - 1
    && LockOf(s, p) == Some(FeatureChange) && s.chains[p].serial >= since
  }

  /** Somewhere in the run the change is given up, or a feature-change chain started since comes to its end. */
  predicate Resolved(s: State, steps: seq<Step>, p: Publ, since: nat)
    decreases |steps|
  {
    steps != []
    && (|| GivesUp(s, steps[0], p) || Completes(s, steps[0], p, since)
        || Resolved(Apply(s, steps[0]), steps[1..], p, since))
  }

  lemma SameViewServes(s: State, s': State, p: Publ, since: nat)
    requires Serves(s, p, since) && ViewOf(s', p) == ViewOf(s, p)
    ensures Serves(s', p, since)
  {
    assert ChainOf(s', p) == ChainOf(s, p);
  }

  lemma ChangeServes(s: State, m: Publ, p: Publ, since: nat)
    requires Serves(s, p, since) && LockOf(s, p) != None && QueueShape(QueueOf(s, p))
    ensures Serves(AcceptChange(s, m), p, since)
    ensures LockOf(AcceptChange(s, m), p) != None && QueueShape(QueueOf(AcceptChange(s, m), p))
  {
    if m == p {
      ChangeOnLocked(s, p);
    } else {
      ChangeElsewhere(s, m, p);
      SameViewServes(s, AcceptChange(s, m), p, since);
    }
  }

  lemma {:induction false} CascadeServes(s: State, maps: seq<Publ>, p: Publ, since: nat)
    requires Serves(s, p, since) && LockOf(s, p) != None && QueueShape(QueueOf(s, p))
    ensures Serves(Cascade(s, maps), p, since)
    decreases |maps|
  {
    if maps != [] {
      ChangeServes(s, maps[0], p, since);
      CascadeServes(AcceptChange(s, maps[0]), maps[1..], p, since);
    }
  }

  /** A cascade serves every map that it reaches. */
  lemma {:induction false} CascadeReaches(s: State, maps: seq<Publ>, p: Publ, since: nat)
    requires p in maps && QueueShape(QueueOf(s, p)) && since <= |s.issued|
    ensures Serves(Cascade(s, maps), p, since)
    decreases |maps|
  {
    var s' := AcceptChange(s, maps[0]);
    if maps[0] == p {
      FirstServes(s, p, since);
      CascadeServes(s', maps[1..], p, since);
    } else {
      ChangeElsewhere(s, maps[0], p);
      ChangeIssues(s, maps[0]);
      assert QueueOf(s', p) == ViewOf(s, p).queue;
      CascadeReaches(s', maps[1..], p, since);
    }
  }

  lemma ChangeIssues(s: State, m: Publ)
    ensures |s.issued| <= |AcceptChange(s, m).issued|
  {}

  lemma {:induction false} CascadeIssues(s: State, maps: seq<Publ>)
    ensures |s.issued| <= |Cascade(s, maps).issued|
    decreases |maps|
  {
    if maps != [] {
      ChangeIssues(s, maps[0]);
      CascadeIssues(AcceptChange(s, maps[0]), maps[1..]);
    }
  }

  lemma FirstServes(s: State, p: Publ, since: nat)
    requires QueueShape(QueueOf(s, p)) && since <= |s.issued|
    ensures var s' := AcceptChange(s, p);
      Serves(s', p, since) && LockOf(s', p) != None && QueueShape(QueueOf(s', p))
  {
    if LockOf(s, p) == None {
      ChangeOnUnlocked(s, p);
    } else {
      ChangeOnLocked(s, p);
    }
  }

  lemma ServedIsLocked(s: State, p: Publ, since: nat)
    requires Coherent(s) && Serves(s, p, since)
    ensures Held(s, p) && Active(s, p) && QueueShape(QueueOf(s, p))
  {
    assert Fine(s, p, {});
  }

  /* the requests, one by one */

  lemma PostElsewhere(s: State, q: Publ, tasks: nat)
    requires PostRequest(s, q, tasks).Ok?
    ensures OnlyOf(s, PostRequest(s, q, tasks).value, q)
  {}

  lemma PatchLockElsewhere(s: State, q: Publ)
    requires Coherent(s) && CreateLock(s, q, Patch).Ok?
    ensures OnlyOf(s, CreateLock(s, q, Patch).value, q)
  {
    PatchAccepted(s, q);
    if LockOf(s, q) == Some(FeatureChange) {
      Split(s, q, {});
      AbortViews(s, q);
      PatchLockViews(s, q);
    }
  }

  lemma ReleaseElsewhere(s: State, q: Publ, p: Publ)
    requires q != p
    ensures ViewOf(Release(s, q), p) == ViewOf(s, p)
  {
    if ChainReady(s, q) {
      RunNextElsewhere(Unlock(s, q), q, p);
    }
  }

  lemma PatchElsewhere(s: State, q: Publ, tasks: nat, refresh: bool, p: Publ)
    requires Coherent(s) && PatchRequest(s, q, tasks, refresh).Ok? && q != p
    ensures ViewOf(PatchRequest(s, q, tasks, refresh).value, p) == ViewOf(s, p)
  {
    PatchLockElsewhere(s, q);
    var locked := CreateLock(s, q, Patch).value;
    var cleaned := if refresh then DropRecord(locked, q) else locked;
    assert ViewOf(cleaned, p) == ViewOf(locked, p) == ViewOf(s, p);
    ReleaseElsewhere(StartChain(cleaned, q, tasks), q, p);
  }

  lemma LastIsKnown(s: State, q: Publ)
    requires Coherent(s)
    ensures var locked := Acquire(s, q, Delete);
      && OnlyOf(s, locked, q) && locked.issued == s.issued
      && (!ChainReady(locked, q) ==>
            locked.chains[q].Last() in locked.owners && locked.owners[locked.chains[q].Last()] == q)
  {
    DeleteLocks(s, q);
  }

  lemma AbortedElsewhere(s: State, q: Publ)
    requires Coherent(s)
    ensures var a := AbortPublication(Acquire(s, q, Delete), q); OnlyOf(s, a, q) && a.issued == s.issued
  {
    var locked := Acquire(s, q, Delete);
    LastIsKnown(s, q);
    var a := AbortedState(locked, q);
    OnlyTwice(s, locked, a, q);
  }

  lemma AbortedState(s: State, q: Publ) returns (a: State)
    requires !ChainReady(s, q) ==> s.chains[q].Last() in s.owners && s.owners[s.chains[q].Last()] == q
    ensures a == AbortPublication(s, q) && OnlyOf(s, a, q) && a.issued == s.issued
  {
    AbortedOnly(s, q);
    a := AbortPublication(s, q);
  }

  lemma AbortedOnly(s: State, q: Publ)
    requires !ChainReady(s, q) ==> s.chains[q].Last() in s.owners && s.owners[s.chains[q].Last()] == q
    ensures OnlyOf(s, AbortPublication(s, q), q) && AbortPublication(s, q).issued == s.issued
  {
    AbortViews(s, q);
  }

  lemma DroppedElsewhere(a: State, q: Publ, p: Publ)
    requires q != p
    ensures ViewOf(DropRecord(Drop(a, q), q), p) == ViewOf(a, p)
  {}

  lemma DeleteElsewhere(s: State, q: Publ, p: Publ)
    requires Coherent(s) && q != p
    ensures DeleteRequest(s, q).Ok? && ViewOf(DeleteRequest(s, q).value, p) == ViewOf(s, p)
  {
    var a := AbortPublication(Acquire(s, q, Delete), q);
    AbortedElsewhere(s, q);
    assert ViewOf(a, p) == ViewOf(s, p);
    DroppedElsewhere(a, q, p);
    ReleaseElsewhere(DropRecord(Drop(a, q), q), q, p);
  }

  lemma PatchServes(s: State, p: Publ, tasks: nat, refresh: bool, since: nat)
    requires Coherent(s) && Serves(s, p, since) && since <= |s.issued|
    ensures PatchRequest(s, p, tasks, refresh).Ok? ==> Serves(PatchRequest(s, p, tasks, refresh).value, p, since)
  {
    ServedIsLocked(s, p, since);
    PatchAccepted(s, p);
    if PatchRequest(s, p, tasks, refresh).Ok? {
      if tasks > 0 {
        PatchOverFeatureChange(s, p, tasks, refresh);
      } else {
        PatchWithoutTasks(s, p, refresh);
      }
    }
  }

  /* the task events */

  lemma LastServes(s: State, p: Publ, i: nat, success: bool, maps: seq<Publ>, since: nat)
    requires Coherent(s) && Enabled(s, p, i) && i == |s.chains[p].tasks| - 1 && since <= |s.issued|
    requires (forall m | m in maps :: m.kind == MapType) && STEP in QueueOf(s, p)
    ensures Serves(TaskEnd(s, p, i, success, maps), p, since)
  {
    LastTaskEnd(s, p, i, success, maps);
    StillQueued(s, p, i, success, maps);
    var finished := LastEnded(s, p, i, success);
    EndIssuesNothing(s, p, i, success);
    CascadeIssues(finished, maps);
    QueuedIsRecorded(if p.kind == LayerType then Cascade(finished, maps) else finished, p);
  }

  lemma EndIssuesNothing(s: State, p: Publ, i: nat, success: bool)
    requires Coherent(s) && Enabled(s, p, i) && i == |s.chains[p].tasks| - 1
    ensures LastEnded(s, p, i, success).issued == s.issued
  {
    var outcome := if success then Success else Failure;
    OnlyLastTaskIsKnown(s, p, i);
    FailureOwner(s, p);
    FinishViews(SettleIfChange(WithOutcome(s, p, i, outcome), p), p, outcome);
  }

  lemma LastElsewhere(s: State, q: Publ, i: nat, success: bool, maps: seq<Publ>, p: Publ, since: nat)
    requires Coherent(s) && Enabled(s, q, i) && i == |s.chains[q].tasks| - 1 && q != p && Serves(s, p, since)
    ensures Serves(TaskEnd(s, q, i, success, maps), p, since)
  {
    ServedIsLocked(s, p, since);
    LastTaskEnd(s, q, i, success, maps);
    LastEndedViews(s, q, i, success);
    var finished := LastEnded(s, q, i, success);
    assert ViewOf(finished, p) == ViewOf(s, p);
    SameViewServes(s, finished, p, since);
    assert LockOf(finished, p) == ViewOf(s, p).lock && QueueOf(finished, p) == ViewOf(s, p).queue;
    CascadeServes(finished, maps, p, since);
    var cascaded := if q.kind == LayerType then Cascade(finished, maps) else finished;
    RunNextElsewhere(cascaded, q, p);
    SameViewServes(cascaded, RunNextChain(cascaded, q), p, since);
  }

  lemma EarlierServes(s: State, q: Publ, i: nat, success: bool, maps: seq<Publ>, p: Publ, since: nat)
    requires Coherent(s) && Enabled(s, q, i) && i != |s.chains[q].tasks| - 1 && Serves(s, p, since)
    requires q == p ==> success
    ensures Serves(TaskEnd(s, q, i, success, maps), p, since)
  {
    OnlyLastTaskIsKnown(s, q, i);
    if q == p {
      assert TaskEnd(s, q, i, success, maps) == WithOutcome(s, p, i, Success);
    } else {
      EarlierWork(s, q, i, success, maps);
      SameViewServes(s, TaskEnd(s, q, i, success, maps), p, since);
    }
  }

  lemma TaskServes(s: State, step: Step, p: Publ, since: nat)
    requires Coherent(s) && Legal(step) && step.TaskStep? && Serves(s, p, since) && since <= |s.issued|
    ensures Serves(Apply(s, step), p, since) || GivesUp(s, step, p) || Completes(s, step, p, since)
  {
    var q, i, success, maps := step.p, step.i, step.success, step.maps;
    if Enabled(s, q, i) {
      if i != |s.chains[q].tasks| - 1 {
        if q != p || success {
          EarlierServes(s, q, i, success, maps, p, since);
        }
      } else if q != p {
        LastElsewhere(s, q, i, success, maps, p, since);
      } else if !Completes(s, step, p, since) {
        LastServes(s, p, i, success, maps, since);
      }
    }
  }

  lemma RequestServes(s: State, step: Step, p: Publ, since: nat)
    requires Coherent(s) && Legal(step) && !step.TaskStep? && Serves(s, p, since) && since <= |s.issued|
    ensures Serves(Apply(s, step), p, since) || GivesUp(s, step, p)
  {
    ServedIsLocked(s, p, since);
    match step
    case PostStep(q, tasks) =>
      LockTable(s, q);
      if PostRequest(s, q, tasks).Ok? {
        PostElsewhere(s, q, tasks);
        SameViewServes(s, PostRequest(s, q, tasks).value, p, since);
      }
    case PatchStep(q, tasks, refresh) =>
      if q == p {
        PatchServes(s, p, tasks, refresh, since);
      } else if PatchRequest(s, q, tasks, refresh).Ok? {
        PatchElsewhere(s, q, tasks, refresh, p);
        SameViewServes(s, PatchRequest(s, q, tasks, refresh).value, p, since);
      }
    case DeleteStep(q) =>
      if q != p {
        DeleteElsewhere(s, q, p);
        SameViewServes(s, DeleteRequest(s, q).value, p, since);
      }
    case ChangeStep(q) => ChangeServes(s, q, p, since);
  }

  lemma ReleaseIssues(s: State, q: Publ)
    ensures |s.issued| <= |Release(s, q).issued|
  {}

  lemma PatchIssues(s: State, q: Publ, tasks: nat, refresh: bool)
    requires Coherent(s) && PatchRequest(s, q, tasks, refresh).Ok?
    ensures |s.issued| <= |PatchRequest(s, q, tasks, refresh).value.issued|
  {
    PatchAccepted(s, q);
    if LockOf(s, q) == Some(FeatureChange) {
      PatchLockViews(s, q);
      AbortViewsHere(s, q);
    }
    var locked := CreateLock(s, q, Patch).value;
    assert locked.issued == s.issued;
    ReleaseIssues(StartChain(if refresh then DropRecord(locked, q) else locked, q, tasks), q);
  }

  lemma DeleteIssues(s: State, q: Publ)
    requires Coherent(s)
    ensures |s.issued| <= |DeleteRequest(s, q).value.issued|
  {
    AbortedElsewhere(s, q);
    ReleaseIssues(DropRecord(Drop(AbortPublication(Acquire(s, q, Delete), q), q), q), q);
  }

  lemma IssuedGrows(s: State, step: Step)
    requires Coherent(s) && Legal(step)
    ensures |s.issued| <= |Apply(s, step).issued|
  {
    match step
    case PostStep(_, _) =>
    case PatchStep(q, tasks, refresh) =>
      if PatchRequest(s, q, tasks, refresh).Ok? {
        PatchIssues(s, q, tasks, refresh);
      }
    case DeleteStep(q) => DeleteIssues(s, q);
    case ChangeStep(q) => ChangeIssues(s, q);
    case TaskStep(q, i, success, maps) =>
      if Enabled(s, q, i) {
        TaskIssues(s, q, i, success, maps);
      }
  }

  lemma NextIssues(s: State, q: Publ)
    ensures |s.issued| <= |RunNextChain(s, q).issued|
  {}

  lemma EarlierIssues(s: State, q: Publ, i: nat, success: bool, maps: seq<Publ>)
    requires Coherent(s) && Enabled(s, q, i) && i != |s.chains[q].tasks| - 1
    ensures TaskEnd(s, q, i, success, maps).issued == s.issued
  {
    OnlyLastTaskIsKnown(s, q, i);
    if !success {
      FailureViews(s, q, i);
      assert TaskEnd(s, q, i, success, maps) == TaskEnd(s, q, i, false, []);
    }
  }

  lemma TaskIssues(s: State, q: Publ, i: nat, success: bool, maps: seq<Publ>)
    requires Coherent(s) && Enabled(s, q, i)
    ensures |s.issued| <= |TaskEnd(s, q, i, success, maps).issued|
  {
    if i == |s.chains[q].tasks| - 1 {
      var finished := LastEnded(s, q, i, success);
      LastTaskEnd(s, q, i, success, maps);
      EndIssuesNothing(s, q, i, success);
      CascadeIssues(finished, maps);
      NextIssues(if q.kind == LayerType then Cascade(finished, maps) else finished, q);
    } else {
      EarlierIssues(s, q, i, success, maps);
    }
  }

  lemma {:induction false} RunServes(s: State, steps: seq<Step>, p: Publ, since: nat)
    requires Coherent(s) && (forall step | step in steps :: Legal(step)) && Serves(s, p, since) && since <= |s.issued|
    ensures Resolved(s, steps, p, since) || Serves(Run(s, steps), p, since)
    decreases |steps|
  {
    if steps != [] {
      if steps[0].TaskStep? {
        TaskServes(s, steps[0], p, since);
      } else {
        RequestServes(s, steps[0], p, since);
      }
      ApplyKeeps(s, steps[0]);
      IssuedGrows(s, steps[0]);
      if Serves(Apply(s, steps[0]), p, since) {
        RunServes(Apply(s, steps[0]), steps[1..], p, since);
      }
    }
  }

  /** The step is an accepted change of p: a change request, or the end of the chain of a layer that map p uses. */
  predicate Accepts(s: State, step: Step, p: Publ) {
    || step == ChangeStep(p)
    || (step.TaskStep? && step.p.kind == LayerType && step.p != p && p in step.maps
        && Enabled(s, step.p, step.i) && step.i == |s.chains[step.p].tasks| - 1)
  }

  lemma AcceptedIsServed(s: State, step: Step, p: Publ)
    requires Coherent(s) && Legal(step) && Accepts(s, step, p)
    ensures Serves(Apply(s, step), p, |s.issued|)
  {
    Split(s, p, {});
    if step == ChangeStep(p) {
      FirstServes(s, p, |s.issued|);
    } else {
      var q := step.p;
      LastTaskEnd(s, q, step.i, step.success, step.maps);
      LastEndedViews(s, q, step.i, step.success);
      EndIssuesNothing(s, q, step.i, step.success);
      var finished := LastEnded(s, q, step.i, step.success);
      assert QueueOf(finished, p) == ViewOf(s, p).queue;
      CascadeReaches(finished, step.maps, p, |s.issued|);
      RunNextElsewhere(Cascade(finished, step.maps), q, p);
      SameViewServes(Cascade(finished, step.maps), RunNextChain(Cascade(finished, step.maps), q), p, |s.issued|);
    }
  }

  /** In every run, an accepted change is, at any later time, still queued, or a feature-change chain started no earlier
      is running; or such a chain has come to its end; or a DELETE or the failure of a task before the last has come
      since. */
  lemma EveryChangeIsServed(before: seq<Step>, change: Step, after: seq<Step>, p: Publ)
    requires (forall step | step in before + [change] + after :: Legal(step))
    requires Accepts(Run(EMPTY, before), change, p)
    ensures var s := Run(EMPTY, before);
      var s' := Apply(s, change);
      Resolved(s', after, p, |s.issued|) || Serves(Run(s', after), p, |s.issued|)
  {
    assert Coherent(EMPTY);
    assert forall step | step in before :: step in before + [change] + after;
    assert change in before + [change] + after;
    assert forall step | step in after :: step in before + [change] + after;
    RunKeeps(EMPTY, before);
    var s := Run(EMPTY, before);
    AcceptedIsServed(s, change, p);
    ApplyKeeps(s, change);
    IssuedGrows(s, change);
    RunServes(Apply(s, change), after, p, |s.issued|);
  }

  /** So when no task event is left, every accepted change has been served by a chain that came to its end, or given
      up. */
  lemma AtRestAllIsServed(before: seq<Step>, change: Step, after: seq<Step>, p: Publ)
    requires (forall step | step in before + [change] + after :: Legal(step))
    requires Accepts(Run(EMPTY, before), change, p)
    requires forall i: nat :: !Enabled(Run(Apply(Run(EMPTY, before), change), after), p, i)
    ensures var s := Run(EMPTY, before); Resolved(Apply(s, change), after, p, |s.issued|)
  {
    EveryChangeIsServed(before, change, after, p);
    var s := Run(EMPTY, before);
    assert Coherent(EMPTY);
    assert forall step | step in before :: step in before + [change] + after;
    assert change in before + [change] + after;
    assert forall step | step in after :: step in before + [change] + after;
    RunKeeps(EMPTY, before);
    ApplyKeeps(s, change);
    RunKeeps(Apply(s, change), after);
    AtRest(Run(Apply(s, change), after), p);
  }
}
