/** What the lock and chain protocol is for: coherence of every run, no lost feature change, and rest after finitely
    many task events. */
module ChainTheorems {
  import opened Wrappers
  import opened Chains
  import opened ChainInvariants

  /** Every state that any sequence of requests and task events reaches, for every publication. */
  lemma EveryRunIsCoherent(steps: seq<Step>, p: Publ)
    requires forall step | step in steps :: Legal(step)
    ensures var s := Run(EMPTY, steps);
      && (Active(s, p) <==> Held(s, p))
      && (Held(s, p) <==> exists t :: t in s.owners && s.owners[t] == p)
      && (forall t | t in s.owners && s.owners[t] == p :: p in s.chains && t == s.chains[p].Last())
      && (p in s.chains ==> (s.chains[p].finished <==> s.chains[p].Ready()))
      && (forall i, j | 0 <= i < j < |QueueOf(s, p)| :: QueueOf(s, p)[i] != QueueOf(s, p)[j])
      && (QueueOf(s, p) != [] ==> Held(s, p))
      && LockOf(s, p) != Some(Delete)
  {
    assert Coherent(EMPTY);
    RunKeeps(EMPTY, steps);
    var s := Run(EMPTY, steps);
    assert Fine(s, p, {});
    if Held(s, p) {
      assert s.chains[p].Last() in s.owners && s.owners[s.chains[p].Last()] == p;
    }
  }

  /** Every accepted change is queued, or covered by a feature-change chain that was started no earlier, or was
      given up by a DELETE or by a failed chain. */
  lemma NoChangeIsLost(steps: seq<Step>, p: Publ)
    requires forall step | step in steps :: Legal(step)
    ensures var s := Run(EMPTY, steps);
      var l := LedgerOf(s, p);
      || QueueOf(s, p) == [STEP]
      || (LockOf(s, p) == Some(FeatureChange) && Active(s, p) && l.running == l.accepted)
      || l.accepted <= l.settled
      || l.accepted <= l.dropped
  {
    assert Coherent(EMPTY);
    RunKeeps(EMPTY, steps);
    assert Fine(Run(EMPTY, steps), p, {});
  }

  /* ---- the ledger says what it should ---- */

  function Occurrences(maps: seq<Publ>, p: Publ): nat {
    if maps == [] then 0 else (if maps[0] == p then 1 else 0) + Occurrences(maps[1..], p)
  }

  /** What may happen to the ledger of a publication while nothing of it ends: `more` changes are accepted, and none
      is settled or given up. */
  predicate Grown(l: Ledger, l': Ledger, more: nat) {
    l'.accepted == l.accepted + more && l'.settled == l.settled && l'.dropped == l.dropped
  }

  lemma AcceptedCounts(s: State, m: Publ, q: Publ)
    ensures Grown(LedgerOf(s, q), LedgerOf(AcceptChange(s, m), q), if m == q then 1 else 0)
  {}

  lemma {:induction false} CascadeCounts(s: State, maps: seq<Publ>, q: Publ)
    ensures Grown(LedgerOf(s, q), LedgerOf(Cascade(s, maps), q), Occurrences(maps, q))
    decreases |maps|
  {
    if maps != [] {
      var s' := AcceptChange(s, maps[0]);
      AcceptedCounts(s, maps[0], q);
      CascadeCounts(s', maps[1..], q);
    }
  }

  /** What the end of the last task does to its own publication, and that it does nothing to the others. */
  lemma LastEndedViews(s: State, p: Publ, i: nat, success: bool)
    requires Coherent(s) && Enabled(s, p, i) && i == |s.chains[p].tasks| - 1
    ensures var s' := LastEnded(s, p, i, success);
      var l := LedgerOf(s, p);
      var settles := LockOf(s, p) == Some(FeatureChange) && l.running > l.settled;
      && (forall q | q != p :: ViewOf(s', q) == ViewOf(s, q))
      && LockOf(s', p) == None && !Active(s', p) && QueueOf(s', p) == QueueOf(s, p)
      && LedgerOf(s', p) == l.(settled := if settles then l.running else l.settled)
  {
    var outcome := if success then Success else Failure;
    var settled := SettleIfChange(WithOutcome(s, p, i, outcome), p);
    SettleViews(s, p, i, outcome);
    OnlyLastTaskIsKnown(s, p, i);
    FailureOwner(s, p);
    FinishViews(settled, p, outcome);
  }

  lemma StepElsewhere(s: State, p: Publ, q: Publ)
    requires q != p
    ensures ViewOf(PatchAfterFeatureChange(s, p), q) == ViewOf(s, q)
  {}

  lemma RunNextElsewhere(s: State, p: Publ, q: Publ)
    requires q != p
    ensures ViewOf(RunNextChain(s, p), q) == ViewOf(s, q)
  {
    if QueueOf(s, p) != [] {
      StepElsewhere(s.(queues := s.queues[p := QueueOf(s, p)[1..]]), p, q);
    }
  }

  /** The end of a chain of a layer is an accepted change of each map that uses the layer, and of nothing else. */
  lemma ChainEndReachesMaps(s: State, p: Publ, i: nat, success: bool, maps: seq<Publ>, q: Publ)
    requires Coherent(s) && Enabled(s, p, i) && i == |s.chains[p].tasks| - 1 && q != p
    ensures Grown(LedgerOf(s, q), LedgerOf(TaskEnd(s, p, i, success, maps), q),
                  if p.kind == LayerType then Occurrences(maps, q) else 0)
  {
    LastTaskEnd(s, p, i, success, maps);
    LastEndedViews(s, p, i, success);
    var finished := LastEnded(s, p, i, success);
    assert LedgerOf(finished, q) == ViewOf(s, q).ledger;
    CascadeCounts(finished, maps, q);
    RunNextElsewhere(if p.kind == LayerType then Cascade(finished, maps) else finished, p, q);
  }

  lemma RunNextGrows(s: State, p: Publ)
    ensures Grown(LedgerOf(s, p), LedgerOf(RunNextChain(s, p), p), 0)
  {
  }

  /** The end of a feature-change chain settles what the chain started with, and gives nothing up. */
  lemma ChainEndSettles(s: State, p: Publ, i: nat, success: bool, maps: seq<Publ>)
    requires Coherent(s) && Enabled(s, p, i) && i == |s.chains[p].tasks| - 1
    requires forall m | m in maps :: m.kind == MapType
    ensures var l, l' := LedgerOf(s, p), LedgerOf(TaskEnd(s, p, i, success, maps), p);
      var settles := LockOf(s, p) == Some(FeatureChange) && l.running > l.settled;
      l'.accepted == l.accepted && l'.dropped == l.dropped && l'.settled == if settles then l.running else l.settled
  {
    OnlyLastTaskIsKnown(s, p, i);
    LastEndedViews(s, p, i, success);
    LastFinishes(s, p, i, success);
    var finished := LastEnded(s, p, i, success);
    if p.kind == LayerType {
      CascadeKeeps(finished, maps, p);
      RunNextGrows(Cascade(finished, maps), p);
    } else {
      RunNextGrows(finished, p);
    }
  }

  /** A task that fails before the last one gives up what is not settled; one that succeeds changes no ledger. */
  lemma EarlierTaskDrops(s: State, p: Publ, i: nat, success: bool, maps: seq<Publ>, q: Publ)
    requires Coherent(s) && Enabled(s, p, i) && i != |s.chains[p].tasks| - 1
    ensures var l := LedgerOf(s, q);
      LedgerOf(TaskEnd(s, p, i, success, maps), q) == if success || q != p then l else l.(dropped := l.accepted)
  {
    OnlyLastTaskIsKnown(s, p, i);
    if !success {
      FailureViews(s, p, i);
      assert q != p ==> ViewOf(TaskEnd(s, p, i, false, []), q) == ViewOf(s, q);
    }
  }

  lemma NextStarts(s: State, p: Publ)
    requires QueueOf(s, p) == [STEP] && LockOf(s, p) == None
    ensures var s' := RunNextChain(s, p);
      && LockOf(s', p) == Some(FeatureChange) && QueueOf(s', p) == []
      && ChainOf(s', p) == Some(Chain(|s.issued|, seq(FeatureChangeTasks(p.kind), _ => Pending), false, Pending))
      && LedgerOf(s', p).running == LedgerOf(s', p).accepted
  {
  }

  lemma StillQueued(s: State, p: Publ, i: nat, success: bool, maps: seq<Publ>)
    requires Coherent(s) && Enabled(s, p, i) && i == |s.chains[p].tasks| - 1 && QueueOf(s, p) != []
    requires forall m | m in maps :: m.kind == MapType
    ensures var finished := LastEnded(s, p, i, success);
      var cascaded := if p.kind == LayerType then Cascade(finished, maps) else finished;
      QueueOf(cascaded, p) == [STEP] && LockOf(cascaded, p) == None
  {
    LastFinishes(s, p, i, success);
    Split(s, p, {});
    if p.kind == LayerType {
      var finished := LastEnded(s, p, i, success);
      CascadeKeeps(finished, maps, p);
      assert ViewOf(Cascade(finished, maps), p) == ViewOf(finished, p);
    }
  }

  /** A step that waits in the queue of p is run when the chain of p ends: a feature-change chain starts that
      covers every change accepted so far. */
  lemma QueuedStepStarts(s: State, p: Publ, i: nat, success: bool, maps: seq<Publ>)
    requires Coherent(s) && Enabled(s, p, i) && i == |s.chains[p].tasks| - 1 && QueueOf(s, p) != []
    requires forall m | m in maps :: m.kind == MapType
    ensures var s' := TaskEnd(s, p, i, success, maps);
      && LockOf(s', p) == Some(FeatureChange) && Active(s', p) && QueueOf(s', p) == []
      && s'.chains[p].tasks == seq(FeatureChangeTasks(p.kind), _ => Pending)
      && LedgerOf(s', p).running == LedgerOf(s', p).accepted
  {
    LastTaskEnd(s, p, i, success, maps);
    StillQueued(s, p, i, success, maps);
    var finished := LastEnded(s, p, i, success);
    NextStarts(if p.kind == LayerType then Cascade(finished, maps) else finished, p);
  }

  /** PATCH over a running feature-change chain replaces that chain and queues it to run once more. */
  lemma PatchOverFeatureChange(s: State, p: Publ, tasks: nat, refresh: bool)
    requires Coherent(s) && LockOf(s, p) == Some(FeatureChange) && tasks > 0
    ensures PatchRequest(s, p, tasks, refresh).Ok?
    ensures var s' := PatchRequest(s, p, tasks, refresh).value;
      && LockOf(s', p) == Some(Patch) && QueueOf(s', p) == [STEP]
      && p in s'.chains && s'.chains[p] == Chain(|s.issued|, seq(tasks, _ => Pending), false, Pending)
  {
    PatchAccepted(s, p);
    PatchLocks(s, p);
    PatchLockViews(s, p);
    AbortViewsHere(s, p);
    PatchStarts(CreateLock(s, p, Patch).value, p, tasks, refresh);
  }

  lemma PatchStarts(locked: State, p: Publ, tasks: nat, refresh: bool)
    requires LockOf(locked, p) == Some(Patch) && tasks > 0
    ensures var s' := Release(StartChain(if refresh then DropRecord(locked, p) else locked, p, tasks), p);
      && LockOf(s', p) == Some(Patch) && QueueOf(s', p) == QueueOf(locked, p)
      && p in s'.chains && s'.chains[p] == Chain(|locked.issued|, seq(tasks, _ => Pending), false, Pending)
  {}

  lemma AbortViewsHere(s: State, p: Publ)
    requires Coherent(s)
    ensures AbortPublication(s, p).issued == s.issued
  {
    Split(s, p, {});
    AbortViews(s, p);
  }

  /** DELETE is never refused and leaves no lock, record, task entry or queued step behind. */
  lemma DeleteLeavesNothing(s: State, p: Publ)
    requires Coherent(s)
    ensures DeleteRequest(s, p).Ok?
    ensures var s' := DeleteRequest(s, p).value;
      && LockOf(s', p) == None && p !in s'.chains && QueueOf(s', p) == []
      && (forall t | t in s'.owners :: s'.owners[t] != p)
  {
    DeleteKeeps(s, p);
    DeleteAborts(s, p);
    var s' := DeleteRequest(s, p).value;
    assert Fine(s', p, {});
  }

  /* ---- every run of task events comes to rest ---- */

  function PendingCount(tasks: seq<Outcome>): nat {
    if tasks == [] then 0 else (if tasks[0] == Pending then 1 else 0) + PendingCount(tasks[1..])
  }

  /** The task events that p itself can still cause. */
  function Work(s: State, p: Publ): nat {
    (if Active(s, p) then PendingCount(s.chains[p].tasks) else 0) + |QueueOf(s, p)| * (FeatureChangeTasks(p.kind) + 1)
  }

  /** Each event of a layer may give work to `fanOut` maps. */
  function Weighted(s: State, p: Publ, fanOut: nat): nat {
    if p.kind == LayerType then (1 + 2 * fanOut) * Work(s, p) else Work(s, p)
  }

  function Total(s: State, ps: seq<Publ>, fanOut: nat): nat {
    if ps == [] then 0 else Weighted(s, ps[0], fanOut) + Total(s, ps[1..], fanOut)
  }

  ghost predicate Distinct(ps: seq<Publ>) {
    forall i, j | 0 <= i < j < |ps| :: ps[i] != ps[j]
  }

  lemma {:induction false} PendingDrops(tasks: seq<Outcome>, i: nat, outcome: Outcome)
    requires i < |tasks| && tasks[i] == Pending && outcome != Pending
    ensures PendingCount(tasks[i := outcome]) == PendingCount(tasks) - 1
  {
    if i == 0 {
      assert tasks[i := outcome][1..] == tasks[1..];
    } else {
      assert tasks[i := outcome][1..] == tasks[1..][i - 1 := outcome];
      PendingDrops(tasks[1..], i - 1, outcome);
    }
  }

  lemma {:induction false} AllPending(n: nat)
    ensures PendingCount(seq(n, _ => Pending)) == n
  {
    if n > 0 {
      assert seq(n, _ => Pending)[1..] == seq(n - 1, _ => Pending);
      AllPending(n - 1);
    }
  }

  lemma {:induction false} TotalMoves(s: State, s': State, ps: seq<Publ>, p: Publ, fanOut: nat)
    requires Distinct(ps) && forall q | q in ps && q != p :: ViewOf(s, q) == ViewOf(s', q)
    ensures Total(s', ps, fanOut) ==
      Total(s, ps, fanOut) + (if p in ps then Weighted(s', p, fanOut) - Weighted(s, p, fanOut) else 0)
  {
    if ps != [] {
      TotalMoves(s, s', ps[1..], p, fanOut);
      assert ps[0] != p ==> ViewOf(s, ps[0]) == ViewOf(s', ps[0]);
    }
  }

  lemma ChangeAddsWork(s: State, m: Publ, ps: seq<Publ>, fanOut: nat)
    requires Distinct(ps) && m.kind == MapType && CoherentAt(s, m)
    ensures Total(AcceptChange(s, m), ps, fanOut) <= Total(s, ps, fanOut) + 2
  {
    var s' := AcceptChange(s, m);
    forall q | q != m
      ensures ViewOf(s, q) == ViewOf(s', q)
    {
      ChangeElsewhere(s, m, q);
    }
    TotalMoves(s, s', ps, m, fanOut);
    if LockOf(s, m) == None {
      AllPending(1);
    } else {
      ChangeQueued(s, m);
    }
  }

  ghost predicate CoherentAt(s: State, p: Publ) {
    FineView(ViewOf(s, p))
  }

  lemma {:induction false} CascadeAddsWork(s: State, maps: seq<Publ>, p: Publ, ps: seq<Publ>, fanOut: nat)
    requires Distinct(ps) && CoherentBut(s, {p}) && p !in maps && forall m | m in maps :: m.kind == MapType
    ensures Total(Cascade(s, maps), ps, fanOut) <= Total(s, ps, fanOut) + 2 * |maps|
    decreases |maps|
  {
    if maps != [] {
      assert Fine(s, maps[0], {p});
      ChangeAddsWork(s, maps[0], ps, fanOut);
      AcceptChangeKeeps(s, maps[0], {p});
      CascadeAddsWork(AcceptChange(s, maps[0]), maps[1..], p, ps, fanOut);
    }
  }

  lemma {:induction false} LonePending(tasks: seq<Outcome>)
    requires tasks != [] && forall j | 0 <= j < |tasks| - 1 :: tasks[j] == Success
    requires tasks[|tasks| - 1] == Pending
    ensures PendingCount(tasks) == 1
  {
    if |tasks| > 1 {
      LonePending(tasks[1..]);
    } else {
      assert tasks[1..] == [];
    }
  }

  lemma NextWork(s: State, p: Publ)
    requires LockOf(s, p) == None && !Active(s, p) && QueueShape(QueueOf(s, p))
    ensures Work(RunNextChain(s, p), p) <= Work(s, p)
    ensures forall q | q != p :: ViewOf(RunNextChain(s, p), q) == ViewOf(s, q)
  {
    if QueueOf(s, p) != [] {
      NextStarts(s, p);
      AllPending(FeatureChangeTasks(p.kind));
    }
  }

  lemma WeightDrops(s: State, s': State, p: Publ, fanOut: nat)
    requires Work(s', p) < Work(s, p)
    ensures Weighted(s', p, fanOut) + (if p.kind == LayerType then 1 + 2 * fanOut else 1) <= Weighted(s, p, fanOut)
  {
    Scaled(1 + 2 * fanOut, Work(s', p), Work(s, p));
  }

  lemma Scaled(k: nat, a: nat, b: nat)
    requires a < b
    ensures k * a + k <= k * b
  {
    assert k * (a + 1) <= k * b;
  }

  lemma LastWork(s: State, p: Publ, i: nat, success: bool)
    requires Coherent(s) && Enabled(s, p, i) && i == |s.chains[p].tasks| - 1
    ensures Work(LastEnded(s, p, i, success), p) < Work(s, p)
    ensures forall q | q != p :: ViewOf(LastEnded(s, p, i, success), q) == ViewOf(s, q)
  {
    LastEndedViews(s, p, i, success);
    LonePending(s.chains[p].tasks);
  }

  /** The last task of a chain: its own publication has less to do, and each map at most two events more. */
  lemma LastEventDrops(s: State, p: Publ, i: nat, success: bool, maps: seq<Publ>, ps: seq<Publ>, fanOut: nat)
    requires Coherent(s) && Enabled(s, p, i) && i == |s.chains[p].tasks| - 1 && Distinct(ps) && p in ps
    requires |maps| <= fanOut && forall m | m in maps :: m.kind == MapType
    ensures Total(TaskEnd(s, p, i, success, maps), ps, fanOut) < Total(s, ps, fanOut)
  {
    var s1 := LastEnded(s, p, i, success);
    LastWork(s, p, i, success);
    WeightDrops(s, s1, p, fanOut);
    TotalMoves(s, s1, ps, p, fanOut);
    LastFinishes(s, p, i, success);
    OnlyLastTaskIsKnown(s, p, i);
    CascadeThenNext(s1, p, maps, ps, fanOut);
  }

  lemma CascadeThenNext(s: State, p: Publ, maps: seq<Publ>, ps: seq<Publ>, fanOut: nat)
    requires CoherentBut(s, {p}) && LockOf(s, p) == None && Distinct(ps)
    requires |maps| <= fanOut && forall m | m in maps :: m.kind == MapType
    ensures var cascaded := if p.kind == LayerType then Cascade(s, maps) else s;
      Total(RunNextChain(cascaded, p), ps, fanOut)
      <= Total(s, ps, fanOut) + if p.kind == LayerType then 2 * fanOut else 0
  {
    Split(s, p, {p});
    var cascaded := if p.kind == LayerType then Cascade(s, maps) else s;
    if p.kind == LayerType {
      CascadeAddsWork(s, maps, p, ps, fanOut);
      CascadeKeeps(s, maps, p);
    }
    assert ViewOf(cascaded, p) == ViewOf(s, p);
    NextTotal(cascaded, p, ps, fanOut);
  }

  lemma NextTotal(s: State, p: Publ, ps: seq<Publ>, fanOut: nat)
    requires LockOf(s, p) == None && !Active(s, p) && QueueShape(QueueOf(s, p)) && Distinct(ps)
    ensures Total(RunNextChain(s, p), ps, fanOut) <= Total(s, ps, fanOut)
  {
    var s' := RunNextChain(s, p);
    NextWork(s, p);
    if Work(s', p) < Work(s, p) {
      WeightDrops(s, s', p, fanOut);
    }
    TotalMoves(s, s', ps, p, fanOut);
  }

  lemma SuccessWork(s: State, p: Publ, i: nat)
    requires Enabled(s, p, i)
    ensures Work(WithOutcome(s, p, i, Success), p) < Work(s, p)
  {
    PendingDrops(s.chains[p].tasks, i, Success);
  }

  lemma EarlierWork(s: State, p: Publ, i: nat, success: bool, maps: seq<Publ>)
    requires Coherent(s) && Enabled(s, p, i) && i != |s.chains[p].tasks| - 1
    ensures var s' := TaskEnd(s, p, i, success, maps);
      Work(s', p) < Work(s, p) && forall q | q != p :: ViewOf(s', q) == ViewOf(s, q)
  {
    OnlyLastTaskIsKnown(s, p, i);
    SuccessWork(s, p, i);
    if !success {
      FailureViews(s, p, i);
      assert TaskEnd(s, p, i, success, maps) == TaskEnd(s, p, i, false, []);
    }
  }

  lemma EarlierEventDrops(s: State, p: Publ, i: nat, success: bool, maps: seq<Publ>, ps: seq<Publ>, fanOut: nat)
    requires Coherent(s) && Enabled(s, p, i) && i != |s.chains[p].tasks| - 1 && Distinct(ps) && p in ps
    ensures Total(TaskEnd(s, p, i, success, maps), ps, fanOut) < Total(s, ps, fanOut)
  {
    var s' := TaskEnd(s, p, i, success, maps);
    EarlierWork(s, p, i, success, maps);
    WeightDrops(s, s', p, fanOut);
    TotalMoves(s, s', ps, p, fanOut);
  }

  /** A run of task events alone: each can happen, and no layer is used by more than `fanOut` maps. */
  ghost predicate EventRun(s: State, steps: seq<Step>, fanOut: nat)
    decreases |steps|
  {
    steps == [] ||
    (var e := steps[0];
     && e.TaskStep? && Legal(e) && Enabled(s, e.p, e.i) && |e.maps| <= fanOut
     && EventRun(Apply(s, e), steps[1..], fanOut))
  }

  lemma {:induction false} EventsWithinTotal(s: State, steps: seq<Step>, ps: seq<Publ>, fanOut: nat)
    requires Coherent(s) && Distinct(ps) && EventRun(s, steps, fanOut)
    requires forall i | 0 <= i < |steps| :: steps[i].p in ps
    ensures |steps| <= Total(s, ps, fanOut)
    decreases |steps|
  {
    if steps != [] {
      var e := steps[0];
      if e.i == |s.chains[e.p].tasks| - 1 {
        LastEventDrops(s, e.p, e.i, e.success, e.maps, ps, fanOut);
      } else {
        EarlierEventDrops(s, e.p, e.i, e.success, e.maps, ps, fanOut);
      }
      ApplyKeeps(s, e);
      EventsWithinTotal(Apply(s, e), steps[1..], ps, fanOut);
    }
  }

  /** Every publication that can still cause an event is listed. */
  ghost predicate Busy(s: State, ps: seq<Publ>) {
    Distinct(ps) && forall p | Work(s, p) > 0 :: p in ps
  }

  lemma {:induction false} Enumerated(all: set<Publ>) returns (ps: seq<Publ>)
    ensures Distinct(ps) && forall p :: p in ps <==> p in all
    decreases all
  {
    if all == {} {
      ps := [];
    } else {
      var p :| p in all;
      var rest := Enumerated(all - {p});
      ps := rest + [p];
    }
  }

  /** Every state has such a list, from its own hashes. */
  lemma BusyOnes(s: State) returns (ps: seq<Publ>)
    ensures Busy(s, ps)
  {
    ps := Enumerated(s.chains.Keys + s.queues.Keys);
    forall p | Work(s, p) > 0 ensures p in ps {
      assert p in s.chains.Keys + s.queues.Keys;
    }
  }

  function WithOne(ps: seq<Publ>, p: Publ): (r: seq<Publ>)
    ensures p in r && forall q | q in ps :: q in r
  {
    if p in ps then ps else ps + [p]
  }

  /** The publications of a run are added to the list. */
  function WithSteps(ps: seq<Publ>, steps: seq<Step>): seq<Publ>
    decreases |steps|
  {
    if steps == [] then ps else WithSteps(WithOne(ps, steps[0].p), steps[1..])
  }

  lemma {:induction false} AddedAtTheEnd(s: State, ps: seq<Publ>, p: Publ, fanOut: nat)
    ensures Total(s, ps + [p], fanOut) == Total(s, ps, fanOut) + Weighted(s, p, fanOut)
    decreases |ps|
  {
    if ps == [] {
      assert [p][1..] == [] && ps + [p] == [p];
    } else {
      assert (ps + [p])[1..] == ps[1..] + [p];
      AddedAtTheEnd(s, ps[1..], p, fanOut);
    }
  }

  lemma IdleAddsNothing(s: State, ps: seq<Publ>, p: Publ, fanOut: nat)
    requires Busy(s, ps)
    ensures Busy(s, WithOne(ps, p)) && Total(s, WithOne(ps, p), fanOut) == Total(s, ps, fanOut)
  {
    if p !in ps {
      AddedAtTheEnd(s, ps, p, fanOut);
      assert Work(s, p) == 0;
      assert Weighted(s, p, fanOut) == 0;
    }
  }

  lemma {:induction false} IdleAddNothing(s: State, ps: seq<Publ>, steps: seq<Step>, fanOut: nat)
    requires Busy(s, ps)
    ensures var all := WithSteps(ps, steps);
      && Busy(s, all) && Total(s, all, fanOut) == Total(s, ps, fanOut)
      && (forall p | p in ps :: p in all) && forall i | 0 <= i < |steps| :: steps[i].p in all
    decreases |steps|
  {
    if steps != [] {
      IdleAddsNothing(s, ps, steps[0].p, fanOut);
      IdleAddNothing(s, WithOne(ps, steps[0].p), steps[1..], fanOut);
      assert steps[0].p in WithOne(ps, steps[0].p);
      assert forall i | 1 <= i < |steps| :: steps[i] == steps[1..][i - 1];
    }
  }

  /** Without new requests there are never more events than the weighted work of the publications that have any. */
  lemma EventRunsEnd(s: State, steps: seq<Step>, busy: seq<Publ>, fanOut: nat)
    requires Coherent(s) && Busy(s, busy) && EventRun(s, steps, fanOut)
    ensures |steps| <= Total(s, busy, fanOut)
  {
    IdleAddNothing(s, busy, steps, fanOut);
    EventsWithinTotal(s, steps, WithSteps(busy, steps), fanOut);
  }

  lemma {:induction false} SomeTaskIsNext(tasks: seq<Outcome>, n: nat) returns (i: nat)
    requires n <= |tasks| && (forall j | 0 <= j < n :: tasks[j] == Success)
    requires tasks != [] && tasks[|tasks| - 1] == Pending
    requires forall j | 0 <= j < |tasks| :: tasks[j] == Pending || tasks[j] == Success
    ensures i < |tasks| && tasks[i] == Pending && forall j | 0 <= j < i :: tasks[j] == Success
    decreases |tasks| - n
  {
    if tasks[n] == Pending {
      i := n;
    } else {
      i := SomeTaskIsNext(tasks, n + 1);
    }
  }

  /** At rest nothing is locked, nothing is queued, and no accepted change waits. */
  lemma AtRest(s: State, p: Publ)
    requires Coherent(s) && forall i: nat :: !Enabled(s, p, i)
    ensures LockOf(s, p) == None && QueueOf(s, p) == [] && ChainReady(s, p)
    ensures var l := LedgerOf(s, p); l.accepted <= l.settled || l.accepted <= l.dropped
  {
    Split(s, p, {});
    if Active(s, p) {
      var i := SomeTaskIsNext(s.chains[p].tasks, 0);
      assert Enabled(s, p, i);
    }
    assert LockOf(s, p).Some? ==> HeldByChain(LockOf(s, p)) || LockOf(s, p).value == Delete;
  }
}
