/** What every reachable state of the lock and chain protocol keeps. */
module ChainInvariants {
  import opened Wrappers
  import opened Chains

  /** All that the hashes hold about one publication. */
  datatype View = View(lock: Option<Lock>, chain: Option<Chain>, queue: seq<string>, ledger: Ledger)

  function ViewOf(s: State, p: Publ): View {
    View(LockOf(s, p), ChainOf(s, p), QueueOf(s, p), LedgerOf(s, p))
  }

  predicate Running(v: View) {
    v.chain.Some? && !v.chain.value.finished
  }

  predicate Active(s: State, p: Publ) {
    Running(ViewOf(s, p))
  }

  predicate Held(s: State, p: Publ) {
    HeldByChain(LockOf(s, p))
  }

  /** `finished` is exactly readiness as the rest of the program computes it. */
  ghost predicate ChainShape(c: Chain) {
    && c.tasks != []
    && (c.finished <==> c.Ready())
    && (c.finished <==> c.state != Pending)
    && (!c.finished ==> forall i | 0 <= i < |c.tasks| :: c.tasks[i] == Pending || c.tasks[i] == Success)
  }

  predicate QueueShape(queue: seq<string>) {
    queue == [] || queue == [STEP]
  }

  /** Every accepted change is still queued, or was dropped by a DELETE or a failed chain, or is covered by a
      feature-change chain started no earlier than it that ended. */
  predicate Kept(v: View) {
    v.ledger.accepted <= v.ledger.settled || v.ledger.accepted <= v.ledger.dropped || STEP in v.queue
  }

  /** The same, where the covering chain may also be the running one. */
  predicate Covered(v: View) {
    Kept(v) || (v.lock == Some(FeatureChange) && v.ledger.accepted == v.ledger.running)
  }

  ghost predicate FineView(v: View) {
    && (v.chain.Some? ==> ChainShape(v.chain.value))
    && (HeldByChain(v.lock) <==> Running(v))
    && v.lock != Some(Delete)
    && QueueShape(v.queue)
    && (v.queue != [] ==> HeldByChain(v.lock))
    && Covered(v)
  }

  /** A publication whose handler is still at work: no running chain, whatever its lock. */
  ghost predicate OpenView(v: View) {
    !Running(v) && QueueShape(v.queue) && (v.chain.Some? ==> ChainShape(v.chain.value))
  }

  predicate Numbered(s: State, p: Publ) {
    p in s.chains ==> s.chains[p].serial < |s.issued| && s.issued[s.chains[p].serial] == p
  }

  ghost predicate Fine(s: State, p: Publ, open: set<Publ>) {
    Numbered(s, p) && if p in open then OpenView(ViewOf(s, p)) else FineView(ViewOf(s, p))
  }

  /** The entries of the reverse map are the last tasks of the running chains. */
  ghost predicate OwnersFine(s: State) {
    && (forall t | t in s.owners :: Active(s, s.owners[t]) && s.chains[s.owners[t]].Last() == t)
    && (forall p | Active(s, p) :: s.chains[p].Last() in s.owners && s.owners[s.chains[p].Last()] == p)
  }

  /** Everything is as it should be, up to the publications whose handlers are at work. */
  ghost predicate CoherentBut(s: State, open: set<Publ>) {
    OwnersFine(s) && forall p :: Fine(s, p, open)
  }

  ghost predicate Coherent(s: State) {
    CoherentBut(s, {})
  }

  ghost predicate Others(s: State, p: Publ, open: set<Publ>) {
    OwnersFine(s) && Numbered(s, p) && forall q | q != p :: Fine(s, q, open)
  }

  lemma Split(s: State, p: Publ, open: set<Publ>)
    requires CoherentBut(s, open)
    ensures Others(s, p, open) && Fine(s, p, open)
  {
  }

  lemma Whole(s: State, p: Publ, open: set<Publ>, open': set<Publ>)
    requires Others(s, p, open) && open' - {p} == open - {p} && Fine(s, p, open')
    ensures CoherentBut(s, open')
  {
    forall q
      ensures Fine(s, q, open')
    {
      assert q != p ==> Fine(s, q, open) && (q in open <==> q in open' - {p});
    }
  }

  /** A step that touches p alone. */
  lemma Moved(s: State, s': State, p: Publ, open: set<Publ>)
    requires Others(s, p, open) && Numbered(s', p) && s.issued <= s'.issued
    requires forall q | q != p :: ViewOf(s, q) == ViewOf(s', q)
    requires forall t | t in s'.owners && s'.owners[t] != p :: t in s.owners && s.owners[t] == s'.owners[t]
    requires forall t | t in s.owners && s.owners[t] != p :: t in s'.owners && s'.owners[t] == s.owners[t]
    requires forall t | t in s'.owners && s'.owners[t] == p :: Active(s', p) && s'.chains[p].Last() == t
    requires Active(s', p) ==> s'.chains[p].Last() in s'.owners && s'.owners[s'.chains[p].Last()] == p
    ensures Others(s', p, open)
  {
    forall q | q != p
      ensures Fine(s', q, open)
    {
      assert Fine(s, q, open) && ViewOf(s, q) == ViewOf(s', q);
    }
    forall t | t in s'.owners
      ensures Active(s', s'.owners[t]) && s'.chains[s'.owners[t]].Last() == t
    {
      assert s'.owners[t] != p ==> ViewOf(s, s'.owners[t]) == ViewOf(s', s'.owners[t]);
    }
    forall q | Active(s', q)
      ensures s'.chains[q].Last() in s'.owners && s'.owners[s'.chains[q].Last()] == q
    {
      assert q != p ==> ViewOf(s, q) == ViewOf(s', q) && Active(s, q);
    }
  }

  /** The handler may change the lock, the queue and the ledger of its own publication, and what the tasks of
      its chain have come to. */
  lemma Elsewhere(s: State, s': State, p: Publ, open: set<Publ>)
    requires Others(s, p, open) && s'.owners == s.owners && s'.issued == s.issued
    requires p in s'.chains <==> p in s.chains
    requires p in s.chains ==>
      && s'.chains[p].Last() == s.chains[p].Last() && s'.chains[p].finished == s.chains[p].finished
    requires forall q | q != p :: ViewOf(s, q) == ViewOf(s', q)
    ensures Others(s', p, open)
  {
    Moved(s, s', p, open);
  }

  lemma NumberedOwners(s: State, p: Publ, open: set<Publ>)
    requires Others(s, p, open)
    ensures forall t | t in s.owners :: t.serial < |s.issued| && s.issued[t.serial] == s.owners[t]
  {
    forall t | t in s.owners
      ensures t.serial < |s.issued| && s.issued[t.serial] == s.owners[t]
    {
      assert s.owners[t] != p ==> Fine(s, s.owners[t], open);
    }
  }

  lemma StartIsRunning(s: State, p: Publ, tasks: nat)
    requires OpenView(ViewOf(s, p)) && Held(s, p) && Covered(ViewOf(s, p)) && tasks > 0
    ensures FineView(ViewOf(StartChain(s, p, tasks), p)) && Numbered(StartChain(s, p, tasks), p)
  {
    assert StartChain(s, p, tasks).chains[p].tasks[tasks - 1] == Pending;
  }

  lemma StartMoves(s: State, p: Publ, tasks: nat, open: set<Publ>)
    requires Others(s, p, open) && !Active(s, p) && tasks > 0
    ensures Others(StartChain(s, p, tasks), p, open)
  {
    NumberedOwners(s, p, open);
    Moved(s, StartChain(s, p, tasks), p, open);
  }

  lemma StartKeeps(s: State, p: Publ, tasks: nat, open: set<Publ>)
    requires CoherentBut(s, open) && p in open && Held(s, p) && Covered(ViewOf(s, p)) && tasks > 0
    ensures CoherentBut(StartChain(s, p, tasks), open - {p})
  {
    Split(s, p, open);
    StartMoves(s, p, tasks, open);
    StartIsRunning(s, p, tasks);
    Whole(StartChain(s, p, tasks), p, open, open - {p});
  }

  lemma FeatureChangeStarts(s: State, p: Publ, open: set<Publ>)
    requires CoherentBut(s, open) && p in open && LockOf(s, p) == None
    ensures CoherentBut(PatchAfterFeatureChange(s, p), open - {p})
  {
    var l := LedgerOf(s, p);
    var s1 := Acquire(s, p, FeatureChange);
    var s2 := s1.(ledgers := s1.ledgers[p := l.(running := l.accepted)]);
    Split(s, p, open);
    Elsewhere(s, s2, p, open);
    Whole(s2, p, open, open);
    StartKeeps(s2, p, FeatureChangeTasks(p.kind), open);
  }

  /** Finishing the running chain of p, whatever its tasks have become. */
  lemma FinishViews(s: State, p: Publ, state: Outcome)
    requires p in s.chains && s.chains[p].Last() in s.owners && s.owners[s.chains[p].Last()] == p
    ensures var s' := FinishChain(s, s.chains[p].Last(), state);
      var v := ViewOf(s, p);
      && s'.owners == s.owners - {s.chains[p].Last()} && s'.issued == s.issued
      && ViewOf(s', p) == v.(lock := if HeldByChain(v.lock) then None else v.lock,
                             chain := Some(v.chain.value.(finished := true, state := state)))
      && forall q | q != p :: ViewOf(s', q) == ViewOf(s, q)
  {
  }

  lemma Finished(s: State, s': State, p: Publ, open: set<Publ>)
    requires Others(s, p, open) && Active(s, p) && s.issued == s'.issued
    requires s'.owners == s.owners - {s.chains[p].Last()}
    requires ViewOf(s', p).chain.Some? && ViewOf(s', p).chain.value.serial == s.chains[p].serial && !Active(s', p)
    requires forall q | q != p :: ViewOf(s, q) == ViewOf(s', q)
    ensures Others(s', p, open)
  {
    Moved(s, s', p, open);
  }

  /** An abort that finds a running chain ends it, and the lock that protected it. */
  lemma AbortViews(s: State, p: Publ)
    requires !ChainReady(s, p) ==> s.chains[p].Last() in s.owners && s.owners[s.chains[p].Last()] == p
    ensures var s' := AbortPublication(s, p);
      var v := ViewOf(s, p);
      && s'.issued == s.issued && (forall q | q != p :: ViewOf(s, q) == ViewOf(s', q))
      && if ChainReady(s, p) then s'.owners == s.owners && ViewOf(s', p) == v.(queue := [])
         else
           var c := v.chain.value;
           && s'.owners == s.owners - {c.Last()}
           && ViewOf(s', p) == v.(lock := if HeldByChain(v.lock) then None else v.lock, queue := [],
                                  chain := Some(c.(tasks := AbortTasks(c.tasks), finished := true, state := Aborted)))
  {
    if !ChainReady(s, p) {
      var c := s.chains[p];
      var s1 := ClearQueue(s.(chains := s.chains[p := c.(tasks := AbortTasks(c.tasks))]), p);
      FinishViews(s1, p, Failure);
    }
  }

  lemma AbortKeeps(s: State, p: Publ, open: set<Publ>)
    requires Others(s, p, open) && (p in s.chains ==> ChainShape(s.chains[p]))
    ensures CoherentBut(AbortPublication(s, p), open + {p}) && ChainReady(AbortPublication(s, p), p)
  {
    var s' := AbortPublication(s, p);
    AbortViews(s, p);
    if Active(s, p) {
      Finished(s, s', p, open);
    } else {
      Elsewhere(s, s', p, open);
    }
    Whole(s', p, open, open + {p});
  }

  lemma DropRecordKeeps(s: State, p: Publ, open: set<Publ>)
    requires CoherentBut(s, open) && p in open
    ensures CoherentBut(DropRecord(s, p), open)
  {
    Split(s, p, open);
    if p in s.chains {
      NumberedOwners(s, p, open);
      assert s.chains[p].Last() !in s.owners;
      Moved(s, DropRecord(s, p), p, open);
      Whole(DropRecord(s, p), p, open, open);
    }
  }

  /** PATCH is refused exactly while a POST or PATCH chain runs. */
  lemma PatchAccepted(s: State, p: Publ)
    requires Coherent(s)
    ensures CreateLock(s, p, Patch) == Err(Locked(false)) || CreateLock(s, p, Patch).Ok?
    ensures CreateLock(s, p, Patch).Ok? <==> LockOf(s, p) == None || LockOf(s, p) == Some(FeatureChange)
  {
    assert Fine(s, p, {});
  }

  lemma LockOverChange(s: State, p: Publ)
    requires LockOf(s, p) == Some(FeatureChange)
    ensures CreateLock(s, p, Patch) == Ok(Acquire(Push(AbortPublication(s, p), p, STEP), p, Patch))
  {}

  lemma PushedViews(a: State, p: Publ)
    requires QueueOf(a, p) == []
    ensures var s' := Acquire(Push(a, p, STEP), p, Patch);
      && s'.issued == a.issued && s'.owners == a.owners
      && (forall q | q != p :: ViewOf(s', q) == ViewOf(a, q))
      && ViewOf(s', p) == ViewOf(a, p).(lock := Some(Patch), queue := [STEP])
  {}

  lemma PatchLockViews(s: State, p: Publ)
    requires Coherent(s) && LockOf(s, p) == Some(FeatureChange)
    ensures CreateLock(s, p, Patch).Ok?
    ensures var s' := CreateLock(s, p, Patch).value;
      var a := AbortPublication(s, p);
      && s'.issued == a.issued && s'.owners == a.owners
      && (forall q | q != p :: ViewOf(s', q) == ViewOf(a, q))
      && ViewOf(s', p) == ViewOf(a, p).(lock := Some(Patch), queue := [STEP])
  {
    LockOverChange(s, p);
    PushedViews(AbortPublication(s, p), p);
  }

  lemma PatchLocked(a: State, s': State, p: Publ)
    requires CoherentBut(a, {p}) && s'.issued == a.issued && s'.owners == a.owners
    requires forall q | q != p :: ViewOf(a, q) == ViewOf(s', q)
    requires ViewOf(s', p) == ViewOf(a, p).(lock := Some(Patch), queue := [STEP])
    ensures CoherentBut(s', {p}) && Kept(ViewOf(s', p))
  {
    Split(a, p, {p});
    assert ChainOf(a, p) == ChainOf(s', p);
    Elsewhere(a, s', p, {p});
    Whole(s', p, {p}, {p});
  }

  lemma PatchLocksOverChange(s: State, p: Publ)
    requires Coherent(s) && LockOf(s, p) == Some(FeatureChange)
    ensures CreateLock(s, p, Patch).Ok?
    ensures var s' := CreateLock(s, p, Patch).value;
      && CoherentBut(s', {p}) && LockOf(s', p) == Some(Patch) && Kept(ViewOf(s', p)) && ChainReady(s', p)
      && QueueOf(s', p) == [STEP]
  {
    Split(s, p, {});
    var a := AbortPublication(s, p);
    AbortKeeps(s, p, {});
    PatchLockViews(s, p);
    assert {} + {p} == {p};
    var s' := CreateLock(s, p, Patch).value;
    PatchLocked(a, s', p);
    assert ChainOf(a, p) == ChainOf(s', p);
  }

  /** The lock of an accepted PATCH: if it broke off a feature-change chain, that change is queued again. */
  lemma PatchLocks(s: State, p: Publ)
    requires Coherent(s) && CreateLock(s, p, Patch).Ok?
    ensures var s' := CreateLock(s, p, Patch).value;
      && CoherentBut(s', {p}) && LockOf(s', p) == Some(Patch) && Kept(ViewOf(s', p)) && ChainReady(s', p)
      && QueueOf(s', p) == if LockOf(s, p) == None then [] else [STEP]
  {
    Split(s, p, {});
    PatchAccepted(s, p);
    var s' := CreateLock(s, p, Patch).value;
    if LockOf(s, p) == None {
      Elsewhere(s, s', p, {});
      Whole(s', p, {}, {p});
    } else {
      PatchLocksOverChange(s, p);
    }
  }

  lemma RunNextKeeps(s: State, p: Publ)
    requires CoherentBut(s, {p}) && Kept(ViewOf(s, p)) && LockOf(s, p) == None
    ensures Coherent(RunNextChain(s, p))
  {
    Split(s, p, {p});
    assert {p} - {p} == {};
    if QueueOf(s, p) == [] {
      Whole(s, p, {p}, {});
    } else {
      var popped := s.(queues := s.queues[p := QueueOf(s, p)[1..]]);
      Elsewhere(s, popped, p, {p});
      Whole(popped, p, {p}, {p});
      FeatureChangeStarts(popped, p, {p});
    }
  }

  lemma ReleaseKeeps(s: State, p: Publ)
    requires CoherentBut(s, {p}) && Kept(ViewOf(s, p)) && ChainReady(s, p)
    ensures Coherent(Release(s, p))
  {
    Split(s, p, {p});
    Elsewhere(s, Unlock(s, p), p, {p});
    Whole(Unlock(s, p), p, {p}, {p});
    RunNextKeeps(Unlock(s, p), p);
  }

  /** A feature change that finds the publication locked is queued, once. */
  lemma ChangeQueued(s: State, p: Publ)
    requires LockOf(s, p) != None && QueueShape(QueueOf(s, p))
    ensures var s' := AcceptChange(s, p);
      var v := ViewOf(s, p);
      && s'.issued == s.issued && s'.owners == s.owners && (forall q | q != p :: ViewOf(s, q) == ViewOf(s', q))
      && ViewOf(s', p) == v.(queue := [STEP], ledger := v.ledger.(accepted := v.ledger.accepted + 1))
  {
  }

  lemma QueuedKeeps(s: State, s': State, p: Publ, open: set<Publ>)
    requires CoherentBut(s, open) && p !in open && Held(s, p) && s'.issued == s.issued && s'.owners == s.owners
    requires forall q | q != p :: ViewOf(s, q) == ViewOf(s', q)
    requires ViewOf(s', p) == ViewOf(s, p).(queue := [STEP], ledger := ViewOf(s', p).ledger)
    ensures CoherentBut(s', open)
  {
    Split(s, p, open);
    assert ChainOf(s, p) == ChainOf(s', p);
    Elsewhere(s, s', p, open);
    Whole(s', p, open, open);
  }

  lemma Counted(s: State, p: Publ, open: set<Publ>)
    requires CoherentBut(s, open) && p !in open && LockOf(s, p) == None
    ensures CoherentBut(Count(s, p), open + {p})
  {
    Split(s, p, open);
    Elsewhere(s, Count(s, p), p, open);
    Whole(Count(s, p), p, open, open + {p});
  }

  lemma AcceptChangeKeeps(s: State, p: Publ, open: set<Publ>)
    requires CoherentBut(s, open) && p !in open
    ensures CoherentBut(AcceptChange(s, p), open)
  {
    Split(s, p, open);
    if LockOf(s, p) == None {
      Counted(s, p, open);
      FeatureChangeStarts(Count(s, p), p, open + {p});
      assert open + {p} - {p} == open;
    } else {
      ChangeQueued(s, p);
      QueuedKeeps(s, AcceptChange(s, p), p, open);
    }
  }

  lemma ChangeElsewhere(s: State, m: Publ, p: Publ)
    requires m != p
    ensures ViewOf(AcceptChange(s, m), p) == ViewOf(s, p)
  {
  }

  lemma {:induction false} CascadeKeeps(s: State, maps: seq<Publ>, p: Publ)
    requires CoherentBut(s, {p}) && p !in maps
    ensures CoherentBut(Cascade(s, maps), {p}) && ViewOf(Cascade(s, maps), p) == ViewOf(s, p)
    decreases |maps|
  {
    if maps != [] {
      AcceptChangeKeeps(s, maps[0], {p});
      ChangeElsewhere(s, maps[0], p);
      CascadeKeeps(AcceptChange(s, maps[0]), maps[1..], p);
    }
  }

  /* ---- the handlers ---- */

  lemma PostKeeps(s: State, p: Publ, tasks: nat)
    requires Coherent(s) && PostRequest(s, p, tasks).Ok? && tasks > 0
    ensures Coherent(PostRequest(s, p, tasks).value)
  {
    var locked := CreateLock(s, p, Post).value;
    Split(s, p, {});
    Elsewhere(s, locked, p, {});
    Whole(locked, p, {}, {p});
    StartKeeps(locked, p, tasks, {p});
    assert {p} - {p} == {};
  }

  lemma PatchKeeps(s: State, p: Publ, tasks: nat, refresh: bool)
    requires Coherent(s) && PatchRequest(s, p, tasks, refresh).Ok?
    ensures Coherent(PatchRequest(s, p, tasks, refresh).value)
  {
    PatchLocks(s, p);
    var locked := CreateLock(s, p, Patch).value;
    var cleaned := if refresh then DropRecord(locked, p) else locked;
    DropRecordKeeps(locked, p, {p});
    if tasks == 0 {
      ReleaseKeeps(cleaned, p);
    } else {
      StartKeeps(cleaned, p, tasks, {p});
      assert {p} - {p} == {};
      assert Fine(StartChain(cleaned, p, tasks), p, {});
    }
  }

  lemma DeleteLocks(s: State, p: Publ)
    requires Coherent(s)
    ensures Others(Acquire(s, p, Delete), p, {}) && (p in s.chains ==> ChainShape(s.chains[p]))
    ensures !ChainReady(s, p) ==> s.chains[p].Last() in s.owners && s.owners[s.chains[p].Last()] == p
  {
    Split(s, p, {});
    Elsewhere(s, Acquire(s, p, Delete), p, {});
  }

  lemma AbortedViews(s: State, p: Publ)
    requires Coherent(s)
    ensures var a := AbortPublication(Acquire(s, p, Delete), p); QueueOf(a, p) == [] && LockOf(a, p) == Some(Delete)
  {
    DeleteLocks(s, p);
    AbortViews(Acquire(s, p, Delete), p);
  }

  lemma DeleteAborts(s: State, p: Publ)
    requires Coherent(s)
    ensures var s' := Drop(AbortPublication(Acquire(s, p, Delete), p), p);
      CoherentBut(s', {p}) && Kept(ViewOf(s', p)) && QueueOf(s', p) == [] && LockOf(s', p) == Some(Delete)
  {
    DeleteLocks(s, p);
    AbortKeeps(Acquire(s, p, Delete), p, {});
    AbortedViews(s, p);
    assert {} + {p} == {p};
    Dropped(AbortPublication(Acquire(s, p, Delete), p), p);
  }

  lemma Dropped(s: State, p: Publ)
    requires CoherentBut(s, {p})
    ensures CoherentBut(Drop(s, p), {p}) && Kept(ViewOf(Drop(s, p), p))
  {
    Split(s, p, {p});
    Elsewhere(s, Drop(s, p), p, {p});
    Whole(Drop(s, p), p, {p}, {p});
  }

  lemma DeleteKeeps(s: State, p: Publ)
    requires Coherent(s)
    ensures DeleteRequest(s, p).Ok? && Coherent(DeleteRequest(s, p).value)
  {
    DeleteAborts(s, p);
    var s1 := Drop(AbortPublication(Acquire(s, p, Delete), p), p);
    DropRecordKeeps(s1, p, {p});
    ReleaseKeeps(DropRecord(s1, p), p);
  }

  /* ---- task events ---- */

  /** The reverse map tells the last task of a chain, and only that one. */
  lemma OnlyLastTaskIsKnown(s: State, p: Publ, i: nat)
    requires Coherent(s) && Enabled(s, p, i)
    ensures var t := TaskId(s.chains[p].serial, i);
      && (t in s.owners <==> i == |s.chains[p].tasks| - 1)
      && (t in s.owners ==> s.owners[t] == p)
  {
    Split(s, p, {});
    NumberedOwners(s, p, {});
  }

  lemma OutcomeElsewhere(s: State, p: Publ, i: nat, outcome: Outcome)
    requires Coherent(s) && Enabled(s, p, i)
    ensures Others(WithOutcome(s, p, i, outcome), p, {})
  {
    Split(s, p, {});
    Elsewhere(s, WithOutcome(s, p, i, outcome), p, {});
  }

  /** When a feature-change chain ends, what it started with is settled. */
  lemma SettleCovers(s: State, p: Publ, i: nat, outcome: Outcome)
    requires Coherent(s) && Enabled(s, p, i)
    ensures var s' := SettleIfChange(WithOutcome(s, p, i, outcome), p);
      && Others(s', p, {}) && Active(s', p) && Kept(ViewOf(s', p)) && Held(s', p) && QueueShape(QueueOf(s', p))
      && QueueOf(s', p) == QueueOf(s, p)
      && s'.chains[p] == s.chains[p].(tasks := s.chains[p].tasks[i := outcome]) && s'.owners == s.owners
  {
    Split(s, p, {});
    OutcomeElsewhere(s, p, i, outcome);
    var ended := WithOutcome(s, p, i, outcome);
    Elsewhere(ended, SettleIfChange(ended, p), p, {});
  }

  lemma SettleViews(s: State, p: Publ, i: nat, outcome: Outcome)
    requires Enabled(s, p, i)
    ensures var s' := SettleIfChange(WithOutcome(s, p, i, outcome), p);
      var l := LedgerOf(s, p);
      var settles := LockOf(s, p) == Some(FeatureChange) && l.running > l.settled;
      && (forall q | q != p :: ViewOf(s', q) == ViewOf(s, q))
      && LedgerOf(s', p) == l.(settled := if settles then l.running else l.settled)
      && s'.owners == s.owners && LockOf(s', p) == LockOf(s, p) && QueueOf(s', p) == QueueOf(s, p)
      && s'.chains[p].Last() == s.chains[p].Last()
  {
  }

  lemma LastFinishes(s: State, p: Publ, i: nat, success: bool)
    requires Coherent(s) && Enabled(s, p, i) && i == |s.chains[p].tasks| - 1
    ensures var s' := LastEnded(s, p, i, success);
      && CoherentBut(s', {p}) && LockOf(s', p) == None && Kept(ViewOf(s', p)) && QueueOf(s', p) == QueueOf(s, p)
  {
    var outcome := if success then Success else Failure;
    var settled := SettleIfChange(WithOutcome(s, p, i, outcome), p);
    SettleCovers(s, p, i, outcome);
    OnlyLastTaskIsKnown(s, p, i);
    FinishViews(settled, p, outcome);
    FinishKeeps(settled, LastEnded(s, p, i, success), p, outcome);
  }

  lemma FinishKeeps(s: State, s': State, p: Publ, outcome: Outcome)
    requires Others(s, p, {}) && Active(s, p) && s.issued == s'.issued && s'.owners == s.owners - {s.chains[p].Last()}
    requires ChainOf(s', p) == Some(s.chains[p].(finished := true, state := outcome)) && outcome != Pending
    requires s.chains[p].tasks != [] && QueueShape(QueueOf(s', p))
    requires forall q | q != p :: ViewOf(s, q) == ViewOf(s', q)
    ensures CoherentBut(s', {p})
  {
    Finished(s, s', p, {});
    Whole(s', p, {}, {p});
  }

  lemma FailureViews(s: State, p: Publ, i: nat)
    requires Coherent(s) && Enabled(s, p, i) && i != |s.chains[p].tasks| - 1
    ensures var s' := TaskEnd(s, p, i, false, []);
      var c := s.chains[p];
      && s'.issued == s.issued && s'.owners == s.owners - {c.Last()}
      && (forall q | q != p :: ViewOf(s', q) == ViewOf(s, q))
      && ViewOf(s', p) == View(None, Some(Chain(c.serial, c.tasks[i := Failure], true, Failure)), [],
                               LedgerOf(s, p).(dropped := LedgerOf(s, p).accepted))
  {
    OnlyLastTaskIsKnown(s, p, i);
    FailureOwner(s, p);
    FinishViews(ClearQueue(Drop(WithOutcome(s, p, i, Failure), p), p), p, Failure);
  }

  lemma FailureOwner(s: State, p: Publ)
    requires Coherent(s) && Active(s, p)
    ensures s.chains[p].Last() in s.owners && s.owners[s.chains[p].Last()] == p && Held(s, p)
  {
    Split(s, p, {});
  }

  lemma FailureKeeps(s: State, s': State, p: Publ, i: nat)
    requires Coherent(s) && Enabled(s, p, i) && s'.issued == s.issued && s'.owners == s.owners - {s.chains[p].Last()}
    requires forall q | q != p :: ViewOf(s', q) == ViewOf(s, q)
    requires var c := s.chains[p];
      ViewOf(s', p) == View(None, Some(Chain(c.serial, c.tasks[i := Failure], true, Failure)), [],
                            LedgerOf(s, p).(dropped := LedgerOf(s, p).accepted))
    ensures Coherent(s')
  {
    Split(s, p, {});
    Finished(s, s', p, {});
    assert s'.chains[p].tasks[i] == Failure;
    Whole(s', p, {}, {});
  }

  lemma LastTaskEnd(s: State, p: Publ, i: nat, success: bool, maps: seq<Publ>)
    requires Coherent(s) && Enabled(s, p, i) && i == |s.chains[p].tasks| - 1
    ensures var finished := LastEnded(s, p, i, success);
      TaskEnd(s, p, i, success, maps)
      == RunNextChain(if p.kind == LayerType then Cascade(finished, maps) else finished, p)
  {
    OnlyLastTaskIsKnown(s, p, i);
  }

  lemma LastTaskKeeps(s: State, p: Publ, i: nat, success: bool, maps: seq<Publ>)
    requires Coherent(s) && Enabled(s, p, i) && i == |s.chains[p].tasks| - 1
    requires forall m | m in maps :: m.kind == MapType
    ensures Coherent(TaskEnd(s, p, i, success, maps))
  {
    LastTaskEnd(s, p, i, success, maps);
    LastFinishes(s, p, i, success);
    var finished := LastEnded(s, p, i, success);
    if p.kind == LayerType {
      CascadeKeeps(finished, maps, p);
      assert ViewOf(Cascade(finished, maps), p) == ViewOf(finished, p);
      RunNextKeeps(Cascade(finished, maps), p);
    } else {
      RunNextKeeps(finished, p);
    }
  }

  lemma EarlierTaskKeeps(s: State, p: Publ, i: nat, success: bool, maps: seq<Publ>)
    requires Coherent(s) && Enabled(s, p, i) && i != |s.chains[p].tasks| - 1
    ensures Coherent(TaskEnd(s, p, i, success, maps))
  {
    OnlyLastTaskIsKnown(s, p, i);
    if success {
      Split(s, p, {});
      OutcomeElsewhere(s, p, i, Success);
      Whole(WithOutcome(s, p, i, Success), p, {}, {});
    } else {
      FailureViews(s, p, i);
      FailureKeeps(s, TaskEnd(s, p, i, false, []), p, i);
    }
  }

  lemma TaskEndKeeps(s: State, p: Publ, i: nat, success: bool, maps: seq<Publ>)
    requires Coherent(s) && Enabled(s, p, i) && forall m | m in maps :: m.kind == MapType
    ensures Coherent(TaskEnd(s, p, i, success, maps))
  {
    if i == |s.chains[p].tasks| - 1 {
      LastTaskKeeps(s, p, i, success, maps);
    } else {
      EarlierTaskKeeps(s, p, i, success, maps);
    }
  }

  /* ---- runs ---- */

  lemma ApplyKeeps(s: State, step: Step)
    requires Coherent(s) && Legal(step)
    ensures Coherent(Apply(s, step))
  {
    match step
    case PostStep(p, tasks) => if PostRequest(s, p, tasks).Ok? { PostKeeps(s, p, tasks); }
    case PatchStep(p, tasks, refresh) =>
      if PatchRequest(s, p, tasks, refresh).Ok? { PatchKeeps(s, p, tasks, refresh); }
    case DeleteStep(p) => DeleteKeeps(s, p);
    case ChangeStep(p) => AcceptChangeKeeps(s, p, {});
    case TaskStep(p, i, success, maps) => if Enabled(s, p, i) { TaskEndKeeps(s, p, i, success, maps); }
  }

  lemma {:induction false} RunKeeps(s: State, steps: seq<Step>)
    requires Coherent(s) && forall step | step in steps :: Legal(step)
    ensures Coherent(Run(s, steps))
    decreases |steps|
  {
    if steps != [] {
      ApplyKeeps(s, steps[0]);
      RunKeeps(Apply(s, steps[0]), steps[1..]);
    }
  }
}
