/** The barrier that lets one process adjust the dependencies while the others wait (src/layman/__init__.py). */
module StartUp {
  /** The Redis key: missing, 'processing' or 'done'. */
  datatype Key = Absent | Processing | Done

  datatype Stage = Arrived | Watching | NotDone | Claiming | Initialising | Waiting | Passed

  /** `capable` stands for the Flask, pytest and upgrade processes, `util` for the documentation utility. */
  datatype Process = Process(capable: bool, util: bool, watched: nat, stage: Stage)

  /** The next Redis command of a process that finds the key at this value and version. */
  function Next(p: Process, key: Key, version: nat): Process {
    match p.stage
    case Arrived => p.(watched := version, stage := Watching)
    case Watching => p.(stage := if key == Done then Passed else NotDone)
    case NotDone =>
      p.(stage := if p.capable && key == Absent then Claiming else if p.util then Passed else Waiting)
    case Claiming => p.(stage := if p.watched == version then Initialising else Waiting)
    case Initialising => p.(stage := Passed)
    case Waiting => p.(stage := if key == Done then Passed else Waiting)
    case Passed => p
  }

  /** `entered` collects the processes that have ever entered the initialisation. */
  datatype State = State(key: Key, version: nat, processes: map<nat, Process>, entered: set<nat>)

  datatype Step =
    | Arrive(pid: nat, capable: bool, util: bool)
    | Advance(pid: nat)
    | Die(pid: nat)

  function Written(s: State, key: Key): State {
    s.(key := key, version := s.version + 1)
  }

  function Apply(s: State, step: Step): State {
    match step
    case Arrive(pid, capable, util) =>
      if pid in s.processes || pid in s.entered then s
      else s.(processes := s.processes[pid := Process(capable, util, 0, Arrived)])
    case Advance(pid) =>
      if pid !in s.processes then s
      else
        var p' := Next(s.processes[pid], s.key, s.version);
        var s' := s.(processes := s.processes[pid := p']);
        if s.processes[pid].stage == Claiming && p'.stage == Initialising then
          Written(s', Processing).(entered := s.entered + {pid})
        else if s.processes[pid].stage == Initialising then Written(s', Done)
        else s'
    case Die(pid) => s.(processes := s.processes - {pid})
  }

  function Run(s: State, steps: seq<Step>): State
    decreases |steps|
  {
    if steps == [] then s else Run(Apply(s, steps[0]), steps[1..])
  }

  /** Redis holds any value of the key when the first process arrives. */
  function Start(key: Key): State {
    State(key, 0, map[], {})
  }

  predicate ProcessFine(s: State, p: Process) {
    && (p.stage == Claiming && p.watched == s.version ==> s.key == Absent)
    && (p.stage in {Watching, NotDone, Claiming} ==> p.watched <= s.version)
    && (p.stage == Initialising ==> s.key == Processing)
    && (p.stage in {Claiming, Initialising} ==> p.capable)
    && (p.stage == Passed ==> s.key == Done || p.util)
  }

  predicate Consistent(s: State) {
    && (forall pid | pid in s.processes :: ProcessFine(s, s.processes[pid]))
    && (forall pid | pid in s.processes && s.processes[pid].stage == Initialising :: pid in s.entered)
    && (s.entered != {} ==> s.key != Absent)
    && (forall p, q | p in s.entered && q in s.entered :: p == q)
  }

  lemma ApplyKeepsProcess(s: State, step: Step, q: nat)
    requires Consistent(s) && q in Apply(s, step).processes
    ensures var s' := Apply(s, step); ProcessFine(s', s'.processes[q])
  {
    if q in s.processes {
      assert ProcessFine(s, s.processes[q]);
    }
    if step.Advance? && step.pid in s.processes {
      assert ProcessFine(s, s.processes[step.pid]);
    }
  }

  lemma ApplyKeeps(s: State, step: Step)
    requires Consistent(s)
    ensures Consistent(Apply(s, step))
  {
    var s' := Apply(s, step);
    forall q | q in s'.processes ensures ProcessFine(s', s'.processes[q]) {
      ApplyKeepsProcess(s, step, q);
    }
    if step.Advance? && step.pid in s.processes {
      assert ProcessFine(s, s.processes[step.pid]);
    }
  }

  lemma {:induction false} RunKeeps(s: State, steps: seq<Step>)
    requires Consistent(s)
    ensures Consistent(Run(s, steps))
    decreases |steps|
  {
    if steps != [] {
      ApplyKeeps(s, steps[0]);
      RunKeeps(Apply(s, steps[0]), steps[1..]);
    }
  }

  /** Whatever the interleaving, at most one process ever enters the initialisation, and none does when the key was
      already there. */
  lemma AtMostOneInitialises(key: Key, steps: seq<Step>)
    ensures |Run(Start(key), steps).entered| <= 1
    ensures key != Absent ==> Run(Start(key), steps).entered == {}
  {
    RunKeeps(Start(key), steps);
    var s := Run(Start(key), steps);
    if s.entered != {} {
      var p :| p in s.entered;
      assert s.entered == {p};
    }
    if key != Absent {
      KeyPresentStays(Start(key), steps);
    }
  }

  lemma {:induction false} KeyPresentStays(s: State, steps: seq<Step>)
    requires Consistent(s) && s.key != Absent
    ensures Run(s, steps).key != Absent && Run(s, steps).entered == s.entered
    decreases |steps|
  {
    if steps != [] {
      if steps[0].Advance? && steps[0].pid in s.processes {
        assert ProcessFine(s, s.processes[steps[0].pid]);
      }
      ApplyKeeps(s, steps[0]);
      KeyPresentStays(Apply(s, steps[0]), steps[1..]);
    }
  }

  /** No process but the utility is past the barrier unless 'done' has been stored. */
  lemma NonePassesEarly(key: Key, steps: seq<Step>, pid: nat)
    requires var s := Run(Start(key), steps); pid in s.processes && s.processes[pid].stage == Passed
    ensures var s := Run(Start(key), steps); s.key == Done || s.processes[pid].util
  {
    RunKeeps(Start(key), steps);
    assert ProcessFine(Run(Start(key), steps), Run(Start(key), steps).processes[pid]);
  }

  /** Only a Flask, pytest or upgrade process ever enters the initialisation, and only when it finds no key. */
  lemma OnlyCapableInitialise(key: Key, steps: seq<Step>, pid: nat)
    ensures var s := Run(Start(key), steps);
      && (pid in s.processes && s.processes[pid].stage == Initialising ==> s.processes[pid].capable)
      && (Apply(s, Advance(pid)).entered != s.entered ==>
            pid in s.processes && s.processes[pid].capable && s.key == Absent)
  {
    RunKeeps(Start(key), steps);
    var s := Run(Start(key), steps);
    if pid in s.processes {
      assert ProcessFine(s, s.processes[pid]);
    }
  }

  /* ---- progress ---- */

  function Rank(stage: Stage): nat {
    match stage
    case Arrived => 5
    case Watching => 4
    case NotDone => 3
    case Claiming => 2
    case Initialising => 2
    case Waiting => 1
    case Passed => 0
  }

  function Advances(pid: nat, n: nat): seq<Step> {
    if n == 0 then [] else [Advance(pid)] + Advances(pid, n - 1)
  }

  /** Once 'done' is stored, a process is past the barrier after at most five commands of its own. */
  lemma {:induction false} DoneLetsThrough(s: State, pid: nat, n: nat)
    requires Consistent(s) && s.key == Done && pid in s.processes && n >= Rank(s.processes[pid].stage)
    ensures var s' := Run(s, Advances(pid, n)); pid in s'.processes && s'.processes[pid].stage == Passed
    decreases n
  {
    if n > 0 {
      assert ProcessFine(s, s.processes[pid]);
      ApplyKeeps(s, Advance(pid));
      assert Advances(pid, n)[1..] == Advances(pid, n - 1);
      DoneLetsThrough(Apply(s, Advance(pid)), pid, n - 1);
    }
  }

  /** When the key is missing, a capable process that nobody disturbs initialises and stores 'done'. */
  lemma CapableInitialises(s: State, pid: nat)
    requires s.key == Absent && pid in s.processes && s.processes[pid].capable && s.processes[pid].stage == Arrived
    ensures var s' := Run(s, Advances(pid, 5));
      && s'.key == Done && pid in s'.entered && pid in s'.processes && s'.processes[pid].stage == Passed
  {
    var s1 := Apply(s, Advance(pid));
    var s2 := Apply(s1, Advance(pid));
    var s3 := Apply(s2, Advance(pid));
    var s4 := Apply(s3, Advance(pid));
    AdvanceOnce(s, pid, 5);
    AdvanceOnce(s1, pid, 4);
    AdvanceOnce(s2, pid, 3);
    AdvanceOnce(s3, pid, 2);
    AdvanceOnce(s4, pid, 1);
  }

  lemma AdvanceOnce(s: State, pid: nat, n: nat)
    requires n > 0
    ensures Run(s, Advances(pid, n)) == Run(Apply(s, Advance(pid)), Advances(pid, n - 1))
  {
    assert Advances(pid, n)[1..] == Advances(pid, n - 1);
  }

  predicate Abandoned(s: State) {
    s.key == Processing && forall pid | pid in s.processes :: s.processes[pid].stage != Initialising
  }

  /** If the initialising process dies, the key stays 'processing' in every later run, so that none but the utility
      ever passes the barrier again. */
  lemma {:induction false} AbandonedStays(s: State, steps: seq<Step>)
    requires Consistent(s) && Abandoned(s)
    ensures Abandoned(Run(s, steps))
    ensures forall pid | pid in Run(s, steps).processes && Run(s, steps).processes[pid].stage == Passed ::
      Run(s, steps).processes[pid].util
    decreases |steps|
  {
    if steps == [] {
      assert forall pid | pid in s.processes :: ProcessFine(s, s.processes[pid]);
    } else {
      if steps[0].Advance? && steps[0].pid in s.processes {
        assert ProcessFine(s, s.processes[steps[0].pid]);
      }
      ApplyKeeps(s, steps[0]);
      AbandonedStays(Apply(s, steps[0]), steps[1..]);
    }
  }

  lemma {:induction false} FreshPid(pids: set<nat>) returns (pid: nat)
    ensures forall q | q in pids :: q < pid
    decreases pids
  {
    pid := 0;
    if pids != {} {
      var q :| q in pids;
      var rest := FreshPid(pids - {q});
      pid := if q < rest then rest else q + 1;
      assert forall r | r in pids :: r == q || r in pids - {q};
    }
  }

  lemma {:induction false} RunAppend(s: State, a: seq<Step>, b: seq<Step>)
    ensures Run(s, a + b) == Run(Run(s, a), b)
    decreases |a|
  {
    if a == [] {
      assert a + b == b;
    } else {
      assert (a + b)[1..] == a[1..] + b;
      RunAppend(Apply(s, a[0]), a[1..], b);
    }
  }

  lemma One(s: State, step: Step)
    ensures Run(s, [step]) == Apply(s, step)
  {
    assert [step][1..] == [];
  }

  /** A way to 'done': it is there, or a new capable process takes the missing key, or the initialising one ends. */
  lemma WayToDone(s: State) returns (steps: seq<Step>)
    requires Consistent(s) && !Abandoned(s)
    ensures Run(s, steps).key == Done
  {
    match s.key
    case Done => steps := [];
    case Absent =>
      var pid := FreshPid(s.processes.Keys + s.entered);
      assert pid !in s.processes.Keys + s.entered;
      steps := [Arrive(pid, true, false)] + Advances(pid, 5);
      RunAppend(s, [Arrive(pid, true, false)], Advances(pid, 5));
      One(s, Arrive(pid, true, false));
      CapableInitialises(Apply(s, Arrive(pid, true, false)), pid);
    case Processing =>
      var pid :| pid in s.processes && s.processes[pid].stage == Initialising;
      steps := [Advance(pid)];
      One(s, Advance(pid));
  }

  /** From any reachable state 'done' can still be stored exactly when no process has died while initialising. */
  lemma DoneIsReachable(key: Key, steps: seq<Step>)
    ensures (exists more :: Run(Run(Start(key), steps), more).key == Done) <==> !Abandoned(Run(Start(key), steps))
  {
    RunKeeps(Start(key), steps);
    var s := Run(Start(key), steps);
    if Abandoned(s) {
      forall more ensures Run(s, more).key != Done {
        AbandonedStays(s, more);
      }
    } else {
      var more := WayToDone(s);
      assert Run(s, more).key == Done;
    }
  }

  /** And a process can die there: the first one to arrive, between its claim and the end of its work. */
  lemma AbandonmentHappens()
    ensures Abandoned(Run(Start(Absent), [Arrive(0, true, false)] + Advances(0, 4) + [Die(0)]))
  {
    var s0 := Start(Absent);
    var s1 := Apply(s0, Arrive(0, true, false));
    One(s0, Arrive(0, true, false));
    RunAppend(s0, [Arrive(0, true, false)], Advances(0, 4));
    AdvanceOnce(s1, 0, 4);
    var s2 := Apply(s1, Advance(0));
    AdvanceOnce(s2, 0, 3);
    var s3 := Apply(s2, Advance(0));
    AdvanceOnce(s3, 0, 2);
    var s4 := Apply(s3, Advance(0));
    AdvanceOnce(s4, 0, 1);
    var s5 := Apply(s4, Advance(0));
    assert Run(s5, Advances(0, 0)) == s5;
    RunAppend(s0, [Arrive(0, true, false)] + Advances(0, 4), [Die(0)]);
    One(s5, Die(0));
  }

  /* ---- the code one process runs ---- */

  /** What the key looks like at each of its commands. */
  datatype View = View(key: Key, version: nat)

  function Follow(p: Process, views: seq<View>): Process
    decreases |views|
  {
    if views == [] then p
    else var n := |views| - 1; Next(Follow(p, views[..n]), views[n].key, views[n].version)
  }

  lemma FollowOne(p: Process, views: seq<View>, n: nat)
    requires n < |views|
    ensures Follow(p, views[..n + 1]) == Next(Follow(p, views[..n]), views[n].key, views[n].version)
  {
    assert views[..n + 1][..n] == views[..n];
  }

  /** The utility never waits: its third command leaves it past the barrier, whatever the key. */
  lemma UtilityPasses(views: seq<View>)
    requires |views| == 3
    ensures Follow(Process(false, true, 0, Arrived), views).stage == Passed
  {
    var p := Process(false, true, 0, Arrived);
    assert views[..0] == [] && views[..3] == views;
    FollowOne(p, views, 0);
    FollowOne(p, views, 1);
    FollowOne(p, views, 2);
  }

  class Barrier {
    var initialised: bool
    var waitForOtherProcess: bool

    constructor ()
      ensures !initialised && !waitForOtherProcess
    {
      initialised, waitForOtherProcess := false, false;
    }

    /** Up to the waiting loop: the process ends where the protocol says, having used the first `n` views. */
    method Enter(capable: bool, util: bool, views: seq<View>) returns (n: nat)
      requires |views| >= 5 && !initialised && !waitForOtherProcess
      modifies this
      ensures n <= 5
      ensures var p := Follow(Process(capable, util, 0, Arrived), views[..n]);
        && p.stage == (if waitForOtherProcess then Waiting else Passed)
        && (initialised <==> n == 5 && Follow(Process(capable, util, 0, Arrived), views[..4]).stage == Initialising)
    {
      ghost var p := Process(capable, util, 0, Arrived);
      assert views[..0] == [];
      FollowOne(p, views, 0);
      FollowOne(p, views, 1);
      FollowOne(p, views, 2);
      FollowOne(p, views, 3);
      FollowOne(p, views, 4);
      var watched := views[0].version;
      if views[1].key == Done {
        return 2;
      }
      if capable && views[2].key == Absent {
        if views[3].version == watched {
          initialised := true;
          return 5;
        }
        waitForOtherProcess := true;
        return 4;
      }
      waitForOtherProcess := !util;
      return 3;
    }

    /** The waiting loop ends with the first view in which the key is 'done'. */
    method Wait(ghost p: Process, views: seq<View>) returns (n: nat)
      requires p.stage == Waiting && exists i | 0 <= i < |views| :: views[i].key == Done
      modifies this
      ensures 0 < n <= |views| && views[n - 1].key == Done && forall i | 0 <= i < n - 1 :: views[i].key != Done
      ensures Follow(p, views[..n]).stage == Passed && Follow(p, views[..n - 1]).stage == Waiting
      ensures !waitForOtherProcess && initialised == old(initialised)
    {
      n := 0;
      while views[n].key != Done
        invariant n < |views| && (forall i | 0 <= i < n :: views[i].key != Done)
        invariant Follow(p, views[..n]) == p && waitForOtherProcess == old(waitForOtherProcess)
        invariant initialised == old(initialised)
        decreases |views| - n
      {
        FollowOne(p, views, n);
        n := n + 1;
      }
      FollowOne(p, views, n);
      n := n + 1;
      waitForOtherProcess := false;
    }
  }
}
