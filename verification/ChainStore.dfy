/** The same protocol as the program runs it: methods that read and rewrite the Redis hashes one after another.
    Each is proved to take the hashes to the state that the functions of Chains describe. */
module ChainStore {
  import opened Wrappers
  import opened Chains

  class Redis {
    var locks: map<Publ, Lock>
    var chains: map<Publ, Chain>
    var owners: map<TaskId, Publ>
    var queues: map<Publ, seq<string>>
    var issued: seq<Publ>
    ghost var ledgers: map<Publ, Ledger>

    ghost function Hashes(): State
      reads this
    {
      State(locks, chains, owners, queues, issued, ledgers)
    }

    constructor ()
      ensures Hashes() == EMPTY
    {
      locks, chains, owners, queues, issued := map[], map[], map[], map[], [];
      ledgers := map[];
    }

    method PushStep(p: Publ, code: string)
      modifies this
      ensures Hashes() == Push(old(Hashes()), p, code)
    {
      var queue := if p in queues then queues[p] else [];
      if code !in queue {
        queue := queue + [code];
        queues := queues[p := queue];
      }
    }

    method PopStep(p: Publ) returns (code: Option<string>)
      modifies this
      ensures var queue := QueueOf(old(Hashes()), p);
        if queue == [] then code == None && Hashes() == old(Hashes())
        else code == Some(queue[0]) && Hashes() == old(Hashes()).(queues := old(queues)[p := queue[1..]])
    {
      code := None;
      if p in queues && queues[p] != [] {
        code := Some(queues[p][0]);
        queues := queues[p := queues[p][1..]];
      }
    }

    method FinishRecord(p: Publ, state: Outcome)
      modifies this
      ensures Hashes() == SetFinished(old(Hashes()), p, state)
    {
      if p in chains {
        var info := chains[p];
        info := info.(finished := true);
        info := info.(state := state);
        chains := chains[p := info];
      }
    }

    method FinishPublicationChain(last: TaskId, state: Outcome)
      modifies this
      ensures Hashes() == FinishChain(old(Hashes()), last, state)
    {
      if last !in owners {
        return;
      }
      var p := owners[last];
      owners := owners - {last};
      FinishRecord(p, state);
      if p in locks && locks[p] != Delete {
        locks := locks - {p};
      }
    }

    method SetChainInfo(p: Publ, tasks: nat)
      modifies this
      ensures Hashes() == StartChain(old(Hashes()), p, tasks)
    {
      if tasks == 0 {
        return;
      }
      var info := Chain(|issued|, seq(tasks, _ => Pending), false, Pending);
      chains := chains[p := info];
      owners := owners[info.Last() := p];
      issued := issued + [p];
    }

    /** The tasks of the chain are visited in order; those that have not ended are aborted. */
    method AbortPublicationChain(p: Publ)
      modifies this
      ensures Hashes() == AbortPublication(old(Hashes()), p)
    {
      if p in chains && !chains[p].Ready() {
        var info := chains[p];
        var tasks := info.tasks;
        for i := 0 to |tasks|
          invariant Hashes() == old(Hashes())
          invariant |tasks| == |info.tasks|
          invariant tasks[..i] == AbortTasks(info.tasks)[..i] && tasks[i..] == info.tasks[i..]
        {
          if tasks[i] == Pending {
            tasks := tasks[i := Aborted];
          }
        }
        assert tasks == AbortTasks(info.tasks);
        chains := chains[p := info.(tasks := tasks)];
        queues := queues - {p};
        FinishPublicationChain(info.Last(), Failure);
        FinishRecord(p, Aborted);
      }
      queues := queues - {p};
    }

    method DeletePublication(p: Publ)
      modifies this
      ensures Hashes() == DropRecord(old(Hashes()), p)
    {
      if p !in chains {
        return;
      }
      var last := chains[p].Last();
      chains := chains - {p};
      owners := owners - {last};
    }

    method TakeLock(p: Publ, requested: Lock) returns (error: Option<Error>)
      modifies this
      ensures match CreateLock(old(Hashes()), p, requested)
        case Ok(s) => error == None && Hashes() == s
        case Err(e) => error == Some(e) && Hashes() == old(Hashes())
    {
      if p in locks {
        var current := locks[p];
        if requested == Post {
          return Some(UnknownMethod);
        }
        if requested == Patch && current != FeatureChange {
          return Some(Locked(false));
        }
        if requested == FeatureChange {
          return Some(Locked(true));
        }
        if requested == Patch {
          AbortPublicationChain(p);
          PushStep(p, STEP);
        }
      }
      locks := locks[p := requested];
      error := None;
    }

    method PatchAfterChange(p: Publ)
      modifies this
      ensures Hashes() == PatchAfterFeatureChange(old(Hashes()), p)
    {
      var error := TakeLock(p, FeatureChange);
      if error != None {
        PushStep(p, STEP);
        return;
      }
      ledgers := ledgers[p := LedgerOf(Hashes(), p).(running := LedgerOf(Hashes(), p).accepted)];
      SetChainInfo(p, FeatureChangeTasks(p.kind));
    }

    method ChangeRequest(p: Publ)
      modifies this
      ensures Hashes() == AcceptChange(old(Hashes()), p)
    {
      ledgers := Count(Hashes(), p).ledgers;
      PatchAfterChange(p);
    }

    method UpdateRelatedPublications(p: Publ, maps: seq<Publ>)
      modifies this
      ensures Hashes() == if p.kind == LayerType then Cascade(old(Hashes()), maps) else old(Hashes())
    {
      if p.kind == LayerType {
        for i := 0 to |maps|
          invariant Cascade(Hashes(), maps[i..]) == Cascade(old(Hashes()), maps)
        {
          assert maps[i..][1..] == maps[i + 1..];
          ChangeRequest(maps[i]);
        }
      }
    }

    method RunNext(p: Publ)
      modifies this
      ensures Hashes() == RunNextChain(old(Hashes()), p)
    {
      var code := PopStep(p);
      if code == Some(STEP) {
        PatchAfterChange(p);
      }
    }

    method TaskPostrun(p: Publ, i: nat, success: bool, maps: seq<Publ>)
      requires Enabled(Hashes(), p, i)
      modifies this
      ensures Hashes() == TaskEnd(old(Hashes()), p, i, success, maps)
    {
      var outcome := if success then Success else Failure;
      var task := TaskId(chains[p].serial, i);
      chains := chains[p := chains[p].(tasks := chains[p].tasks[i := outcome])];
      if task in owners {
        ledgers := SettleIfChange(Hashes(), p).ledgers;
        FinishPublicationChain(task, outcome);
        UpdateRelatedPublications(p, maps);
        RunNext(p);
      } else if !success {
        ledgers := Drop(Hashes(), p).ledgers;
        queues := queues - {p};
        FinishPublicationChain(chains[p].Last(), outcome);
      }
    }

    method IsChainReady(p: Publ) returns (ready: bool)
      ensures ready == ChainReady(Hashes(), p)
    {
      return p !in chains || chains[p].Ready();
    }

    /** The lock decorator around PATCH: lock, handle, and release if no chain has been started. */
    method Patched(p: Publ, tasks: nat, refresh: bool) returns (error: Option<Error>)
      modifies this
      ensures match PatchRequest(old(Hashes()), p, tasks, refresh)
        case Ok(s) => error == None && Hashes() == s
        case Err(e) => error == Some(e) && Hashes() == old(Hashes())
    {
      error := TakeLock(p, Patch);
      if error != None {
        return;
      }
      if refresh {
        DeletePublication(p);
      }
      SetChainInfo(p, tasks);
      var ready := IsChainReady(p);
      if ready {
        locks := locks - {p};
        RunNext(p);
      }
    }

    method Deleted(p: Publ)
      modifies this
      ensures Ok(Hashes()) == DeleteRequest(old(Hashes()), p)
    {
      var error := TakeLock(p, Delete);
      AbortPublicationChain(p);
      ledgers := Drop(Hashes(), p).ledgers;
      DeletePublication(p);
      var ready := IsChainReady(p);
      if ready {
        locks := locks - {p};
        RunNext(p);
      }
    }

    /** The exception path: release if the chain is ready, and release again in any case. */
    method Recover(p: Publ, runNext: bool)
      modifies this
      ensures Hashes() == Recovered(old(Hashes()), p, runNext)
    {
      var ready := IsChainReady(p);
      if ready {
        locks := locks - {p};
        if runNext {
          RunNext(p);
        }
      }
      locks := locks - {p};
      if runNext {
        RunNext(p);
      }
    }

    /** A decorated handler that raises after some of its work. */
    method Failed(p: Publ, f: Failing) returns (error: Option<Error>)
      modifies this
      ensures match Fail(old(Hashes()), p, f)
        case Ok(s) => error == None && Hashes() == s
        case Err(e) => error == Some(e) && Hashes() == old(Hashes())
    {
      error := TakeLock(p, Requested(f));
      if error != None {
        return;
      }
      match f {
      case PostFails(tasks) =>
        SetChainInfo(p, tasks);
      case PatchFails(refresh, tasks) =>
        if refresh {
          DeletePublication(p);
        }
        SetChainInfo(p, tasks);
      case SyncPatchFails =>
      case DeleteFails(aborted, dropped) =>
        DeleteSoFar(p, aborted, dropped);
      case SyncDeleteFails(aborted, dropped) =>
        DeleteSoFar(p, aborted, dropped);
      }
      Recover(p, f.PatchFails? || f.DeleteFails?);
    }

    method DeleteSoFar(p: Publ, aborted: bool, dropped: bool)
      modifies this
      ensures Hashes() == DeletedSoFar(old(Hashes()), p, aborted, dropped)
    {
      if aborted {
        AbortPublicationChain(p);
        ledgers := Drop(Hashes(), p).ledgers;
        if dropped {
          DeletePublication(p);
        }
      }
    }
  }
}
