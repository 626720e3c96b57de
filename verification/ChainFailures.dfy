/** Exactly which handlers break the coherence of locks and chains: the synchronous PATCH, and every handler that
    raises. */
module ChainFailures {
  import opened Wrappers
  import opened Chains
  import opened ChainInvariants
  import opened ChainTheorems

  /** The synchronous PATCH of a user deletion never runs the queue. It is harmless except when it breaks off a
      feature-change chain: then the step it queued waits, with no lock and no chain to run it. */
  lemma SyncPatchStrandsQueue(s: State, p: Publ)
    requires Coherent(s) && SyncPatch(s, p).Ok?
    ensures Coherent(SyncPatch(s, p).value) <==> LockOf(s, p) != Some(FeatureChange)
  {
    PatchAccepted(s, p);
    PatchLocks(s, p);
    var s' := SyncPatch(s, p).value;
    if LockOf(s, p) == Some(FeatureChange) {
      assert QueueOf(s', p) == [STEP] && LockOf(s', p) == None;
      assert !Fine(s', p, {});
    } else {
      var locked := CreateLock(s, p, Patch).value;
      Split(locked, p, {p});
      Elsewhere(locked, s', p, {p});
      Whole(s', p, {p}, {});
    }
  }

  /* ---- handlers that raise ---- */

  /** The chain is still running: whatever the path releases, a running chain is left without its lock, or with
      another one beside it. */
  lemma RunningIsUnlocked(s: State, p: Publ, runNext: bool)
    requires !ChainReady(s, p) && Active(s, p) && QueueShape(QueueOf(s, p)) && Numbered(s, p)
    requires s.chains[p].Last() in s.owners && s.owners[s.chains[p].Last()] == p
    ensures !Coherent(Recovered(s, p, runNext))
  {
    var s' := Recovered(s, p, runNext);
    if runNext && QueueOf(s, p) != [] {
      NextStarts(Unlock(s, p), p);
      assert s'.owners[s.chains[p].Last()] == p && s'.chains[p].Last() != s.chains[p].Last();
    } else {
      assert LockOf(s', p) == None && Active(s', p);
      assert !Fine(s', p, {});
    }
  }

  lemma IdleIsReleased(s: State, p: Publ, runNext: bool)
    requires CoherentBut(s, {p}) && Kept(ViewOf(s, p)) && ChainReady(s, p) && QueueOf(s, p) == []
    ensures Coherent(Recovered(s, p, runNext))
  {
    Split(s, p, {p});
    var s' := Recovered(s, p, runNext);
    assert s' == Unlock(s, p);
    Elsewhere(s, s', p, {p});
    Whole(s', p, {p}, {});
  }

  /** A step is queued and no chain is running: it is started and at once unlocked, or it is left behind. */
  lemma QueuedIsUnlocked(s: State, p: Publ, runNext: bool)
    requires ChainReady(s, p) && QueueOf(s, p) == [STEP]
    ensures !Coherent(Recovered(s, p, runNext))
  {
    var s' := Recovered(s, p, runNext);
    if runNext {
      NextStarts(Unlock(s, p), p);
      assert LockOf(s', p) == None && Active(s', p);
    } else {
      assert QueueOf(s', p) == [STEP] && LockOf(s', p) == None;
    }
    assert !Fine(s', p, {});
  }

  lemma StartedIsRunning(s: State, p: Publ, tasks: nat)
    requires tasks > 0
    ensures var s' := StartChain(s, p, tasks);
      && !ChainReady(s', p) && Active(s', p) && Numbered(s', p) && QueueOf(s', p) == QueueOf(s, p)
      && s'.chains[p].Last() in s'.owners && s'.owners[s'.chains[p].Last()] == p
  {
    assert StartChain(s, p, tasks).chains[p].tasks[tasks - 1] == Pending;
  }

  lemma PostLocks(s: State, p: Publ)
    requires Coherent(s) && CreateLock(s, p, Post).Ok?
    ensures var locked := CreateLock(s, p, Post).value;
      CoherentBut(locked, {p}) && Kept(ViewOf(locked, p)) && ChainReady(locked, p) && QueueOf(locked, p) == []
  {
    var locked := CreateLock(s, p, Post).value;
    Split(s, p, {});
    Elsewhere(s, locked, p, {});
    Whole(locked, p, {}, {p});
  }

  lemma PostFailure(s: State, p: Publ, tasks: nat)
    requires Coherent(s) && CreateLock(s, p, Post).Ok?
    ensures Coherent(Recovered(StartChain(CreateLock(s, p, Post).value, p, tasks), p, false)) <==> tasks == 0
  {
    var locked := CreateLock(s, p, Post).value;
    PostLocks(s, p);
    if tasks > 0 {
      StartedIsRunning(locked, p, tasks);
      RunningIsUnlocked(StartChain(locked, p, tasks), p, false);
    } else {
      IdleIsReleased(locked, p, false);
    }
  }

  lemma PatchFailure(s: State, p: Publ, refresh: bool, tasks: nat)
    requires Coherent(s) && Fail(s, p, PatchFails(refresh, tasks)).Ok?
    ensures Coherent(Fail(s, p, PatchFails(refresh, tasks)).value)
      <==> tasks == 0 && LockOf(s, p) != Some(FeatureChange)
  {
    PatchAccepted(s, p);
    PatchLocks(s, p);
    var locked := CreateLock(s, p, Patch).value;
    var cleaned := if refresh then DropRecord(locked, p) else locked;
    DropRecordKeeps(locked, p, {p});
    if tasks > 0 {
      StartedIsRunning(cleaned, p, tasks);
      RunningIsUnlocked(StartChain(cleaned, p, tasks), p, true);
    } else if LockOf(s, p) == None {
      IdleIsReleased(cleaned, p, true);
    } else {
      QueuedIsUnlocked(cleaned, p, true);
    }
  }

  lemma SyncPatchFailure(s: State, p: Publ)
    requires Coherent(s) && Fail(s, p, SyncPatchFails).Ok?
    ensures Coherent(Fail(s, p, SyncPatchFails).value) <==> LockOf(s, p) != Some(FeatureChange)
  {
    PatchAccepted(s, p);
    PatchLocks(s, p);
    var locked := CreateLock(s, p, Patch).value;
    if LockOf(s, p) == None {
      IdleIsReleased(locked, p, false);
    } else {
      QueuedIsUnlocked(locked, p, false);
    }
  }

  lemma AbortedDeleteFailure(s: State, p: Publ, dropped: bool, runNext: bool)
    requires Coherent(s)
    ensures Coherent(Recovered(DeletedSoFar(Acquire(s, p, Delete), p, true, dropped), p, runNext))
  {
    var stopped := Drop(AbortPublication(Acquire(s, p, Delete), p), p);
    DeleteAborts(s, p);
    DropRecordKeeps(stopped, p, {p});
    AbortedIsReady(s, p);
    IdleIsReleased(if dropped then DropRecord(stopped, p) else stopped, p, runNext);
  }

  lemma EarlyDeleteFailure(s: State, p: Publ, runNext: bool)
    requires Coherent(s)
    ensures Coherent(Recovered(Acquire(s, p, Delete), p, runNext)) <==> LockOf(s, p) == None
  {
    var locked := Acquire(s, p, Delete);
    Split(s, p, {});
    DeleteLocks(s, p);
    if LockOf(s, p) == None {
      Whole(locked, p, {}, {p});
      IdleIsReleased(locked, p, runNext);
    } else {
      LockedIsRunning(s, p);
      RunningIsUnlocked(locked, p, runNext);
    }
  }

  /** A DELETE takes its lock over any other. */
  lemma DeleteFailure(s: State, p: Publ, aborted: bool, dropped: bool, runNext: bool)
    requires Coherent(s)
    ensures CreateLock(s, p, Delete) == Ok(Acquire(s, p, Delete))
    ensures Coherent(Recovered(DeletedSoFar(Acquire(s, p, Delete), p, aborted, dropped), p, runNext))
      <==> aborted || LockOf(s, p) == None
  {
    assert LockOf(s, p) != Some(Delete) by { Split(s, p, {}); }
    if aborted {
      AbortedDeleteFailure(s, p, dropped, runNext);
    } else {
      EarlyDeleteFailure(s, p, runNext);
    }
  }

  lemma LockedIsRunning(s: State, p: Publ)
    requires Coherent(s) && LockOf(s, p) != None
    ensures Active(s, p) && !ChainReady(s, p)
  {
    assert Fine(s, p, {});
    assert LockOf(s, p).value != Delete;
    assert Held(s, p);
  }

  lemma AbortedIsReady(s: State, p: Publ)
    requires Coherent(s)
    ensures ChainReady(Drop(AbortPublication(Acquire(s, p, Delete), p), p), p)
  {
    DeleteLocks(s, p);
    AbortViews(Acquire(s, p, Delete), p);
  }

  /** How far a handler may have got, and from what lock it may have started, for its exception path to be harmless. */
  predicate Harmless(s: State, p: Publ, f: Failing) {
    match f
    case PostFails(tasks) => tasks == 0
    case PatchFails(_, tasks) => tasks == 0 && LockOf(s, p) != Some(FeatureChange)
    case SyncPatchFails => LockOf(s, p) != Some(FeatureChange)
    case DeleteFails(aborted, _) => aborted || LockOf(s, p) == None
    case SyncDeleteFails(aborted, _) => aborted || LockOf(s, p) == None
  }

  /** A handler that raises keeps coherence exactly when it has not started a chain, has not broken off a
      feature-change chain for a PATCH, and has not raised between the lock and the abort of a DELETE that interrupts
      another handler's chain. */
  lemma ExceptionPathKeeps(s: State, p: Publ, f: Failing)
    requires Coherent(s) && Fail(s, p, f).Ok?
    ensures Coherent(Fail(s, p, f).value) <==> Harmless(s, p, f)
  {
    match f
    case PostFails(tasks) => PostFailure(s, p, tasks);
    case PatchFails(refresh, tasks) => PatchFailure(s, p, refresh, tasks);
    case SyncPatchFails => SyncPatchFailure(s, p);
    case DeleteFails(aborted, dropped) => DeleteFailure(s, p, aborted, dropped, true);
    case SyncDeleteFails(aborted, dropped) => DeleteFailure(s, p, aborted, dropped, false);
  }

  /** Harmful failures are within reach: a PATCH or POST that raises after starting its chain, and a DELETE of a
      publication that is being posted that raises before its abort. */
  lemma FailuresHappen(p: Publ)
    ensures Fail(EMPTY, p, PostFails(1)).Ok? && !Coherent(Fail(EMPTY, p, PostFails(1)).value)
    ensures Fail(EMPTY, p, PatchFails(false, 1)).Ok? && !Coherent(Fail(EMPTY, p, PatchFails(false, 1)).value)
    ensures var posted := Apply(EMPTY, PostStep(p, 1));
      Coherent(posted) && Fail(posted, p, DeleteFails(false, false)).Ok?
      && !Coherent(Fail(posted, p, DeleteFails(false, false)).value)
  {
    assert Coherent(EMPTY);
    PostFailure(EMPTY, p, 1);
    PatchFailure(EMPTY, p, false, 1);
    ApplyKeeps(EMPTY, PostStep(p, 1));
    DeleteFailure(Apply(EMPTY, PostStep(p, 1)), p, false, false, true);
  }

  /** The guard is met: one accepted change is enough. */
  lemma ChangeThenSyncPatch(p: Publ)
    ensures var s := Apply(EMPTY, ChangeStep(p));
      && Coherent(s) && LockOf(s, p) == Some(FeatureChange)
      && SyncPatch(s, p).Ok? && QueueOf(SyncPatch(s, p).value, p) == [STEP] && LockOf(SyncPatch(s, p).value, p) == None
  {
    assert Coherent(EMPTY);
    ApplyKeeps(EMPTY, ChangeStep(p));
    var s := Apply(EMPTY, ChangeStep(p));
    PatchAccepted(s, p);
    PatchLocks(s, p);
  }
}
