/** What becomes of the chunks sent for one file, said by the requests alone
    (src/layman/layer/filesystem/input_chunk.py). */
module ChunkFiles {
  import opened Wrappers
  import opened Chunks

  /* ---- what was sent for one file, by the requests ---- */

  predicate IsFor(step: Step, f: FileInfo) {
    step.SaveChunk? && step.inputFile == f.inputFile && step.parameter == f.parameter
  }

  /** The last content sent for f under each number, while the upload was open. */
  function SentFor(d: Disk, steps: seq<Step>, f: FileInfo, sent: map<int, Bytes>): map<int, Bytes>
    decreases |steps|
  {
    if steps == [] then sent
    else SentFor(Apply(d, steps[0]), steps[1..], f,
                 if IsFor(steps[0], f) && d.info then sent[steps[0].number := steps[0].content] else sent)
  }

  /** The total last announced with a chunk of f. */
  function TotalFor(d: Disk, steps: seq<Step>, f: FileInfo, total: Option<int>): Option<int>
    decreases |steps|
  {
    if steps == [] then total
    else TotalFor(Apply(d, steps[0]), steps[1..], f,
                  if IsFor(steps[0], f) && d.info then Some(steps[0].total) else total)
  }

  /** No chunk comes for a file that has been assembled. */
  ghost predicate NothingResent(d: Disk, steps: seq<Step>)
    decreases |steps|
  {
    steps == []
    || ((steps[0].SaveChunk? && d.info ==>
           forall f | FirstListed(d.files, steps[0].parameter, steps[0].inputFile, f) :: f.target !in d.targets)
        && NothingResent(Apply(d, steps[0]), steps[1..]))
  }

  /** Targets are distinct, and f can be sent for. */
  ghost predicate Awaited(files: seq<FileInfo>, f: FileInfo) {
    && FirstListed(files, f.parameter, f.inputFile, f)
    && forall i, j | 0 <= i < j < |files| :: files[i].target != files[j].target
  }

  /** The record of the run agrees with the requests for f. */
  predicate Agrees(d: Disk, l: Ledger, f: FileInfo, sent: map<int, Bytes>, total: Option<int>) {
    && SentOf(l, f.target) == sent
    && (if f.target in d.targets then f.target in l.assembled && total == Some(l.assembled[f.target])
        else if f.target in d.totals then total == Some(d.totals[f.target])
        else total == None)
  }

  lemma SaveAgrees(d: Disk, l: Ledger, step: Step, f: FileInfo, sent: map<int, Bytes>, total: Option<int>)
    requires Fine(d, l) && Awaited(d.files, f) && step.SaveChunk? && Legal(d, step) && Agrees(d, l, f, sent, total)
    ensures var mine := IsFor(step, f) && d.info;
      Agrees(Apply(d, step), Record(d, l, step), f,
             if mine then sent[step.number := step.content] else sent, if mine then Some(step.total) else total)
  {
    var found := Target(d, step.parameter, step.inputFile);
    TargetMeans(d, step.parameter, step.inputFile, f);
    if found.Ok? {
      var g := found.value;
      TargetMeans(d, step.parameter, step.inputFile, g);
      OnlyOneIsFirst(d.files, step.parameter, step.inputFile, g, g);
      OnlyOneIsFirst(d.files, f.parameter, f.inputFile, f, f);
      if g != f {
        DistinctTargets(d.files, f, g);
      }
    } else if IsFor(step, f) {
      assert !d.info;
    }
  }

  lemma DistinctTargets(files: seq<FileInfo>, f: FileInfo, g: FileInfo)
    requires forall i, j | 0 <= i < j < |files| :: files[i].target != files[j].target
    requires f in files && g in files && f != g
    ensures f.target != g.target
  {
    var i :| 0 <= i < |files| && files[i] == f;
    var j :| 0 <= j < |files| && files[j] == g;
  }

  lemma PollFileAgrees(d: Disk, l: Ledger, t: string, f: FileInfo, sent: map<int, Bytes>, total: Option<int>)
    requires Fine(d, l) && d.info && Agrees(d, l, f, sent, total)
    ensures Agrees(PollFile(d, t), PollFileLedger(d, l, t), f, sent, total)
  {}

  lemma {:induction false} PollFilesAgree(d: Disk, l: Ledger, n: nat, f: FileInfo, sent: map<int, Bytes>,
                                          total: Option<int>)
    requires Fine(d, l) && d.info && n <= |d.files| && Agrees(d, l, f, sent, total)
    ensures Agrees(PollFiles(d, n), PollLedger(d, l, n), f, sent, total)
  {
    if n > 0 {
      PollFilesAgree(d, l, n - 1, f, sent, total);
      PollFilesKeeps(d, l, n - 1);
      PollFileAgrees(PollFiles(d, n - 1), PollLedger(d, l, n - 1), d.files[n - 1].target, f, sent, total);
    }
  }

  lemma PollAgrees(d: Disk, l: Ledger, f: FileInfo, sent: map<int, Bytes>, total: Option<int>)
    requires Fine(d, l) && Awaited(d.files, f) && Agrees(d, l, f, sent, total)
    ensures Agrees(Polled(d), Record(d, l, PollInfo), f, sent, total)
  {
    if d.info {
      PollFilesAgree(d, l, |d.files|, f, sent, total);
      OnlyOneIsFirst(d.files, f.parameter, f.inputFile, f, f);
    }
  }

  lemma FilesStay(d: Disk, step: Step)
    ensures Apply(d, step).files == d.files
  {}

  lemma ResentMeansLegal(d: Disk, steps: seq<Step>)
    requires steps != [] && NothingResent(d, steps)
    ensures Legal(d, steps[0])
  {
    if steps[0].SaveChunk? && Target(d, steps[0].parameter, steps[0].inputFile).Ok? {
      TargetMeans(d, steps[0].parameter, steps[0].inputFile, Target(d, steps[0].parameter, steps[0].inputFile).value);
    }
  }

  lemma {:induction false} RunAgrees(s: Trace, steps: seq<Step>, f: FileInfo, sent: map<int, Bytes>, total: Option<int>)
    requires Fine(s.disk, s.ledger) && Awaited(s.disk.files, f) && NothingResent(s.disk, steps)
    requires Agrees(s.disk, s.ledger, f, sent, total)
    ensures var s' := Run(s, steps);
      && Fine(s'.disk, s'.ledger) && s'.disk.files == s.disk.files
      && Agrees(s'.disk, s'.ledger, f, SentFor(s.disk, steps, f, sent), TotalFor(s.disk, steps, f, total))
    decreases |steps|
  {
    if steps != [] {
      var step := steps[0];
      ResentMeansLegal(s.disk, steps);
      ApplyKeeps(s.disk, s.ledger, step);
      FilesStay(s.disk, step);
      var mine := IsFor(step, f) && s.disk.info;
      if step.SaveChunk? {
        SaveAgrees(s.disk, s.ledger, step, f, sent, total);
      } else {
        PollAgrees(s.disk, s.ledger, f, sent, total);
      }
      RunAgrees(Trace(Apply(s.disk, step), Record(s.disk, s.ledger, step)), steps[1..], f,
                if mine then sent[step.number := step.content] else sent, if mine then Some(step.total) else total);
    }
  }

  /* ---- the chunks of one file ---- */

  /** For any order of arrival, repeats and polls between, and for each file: while the upload is open, a chunk that was
      sent for this file lies in the directory as last sent exactly when it is not part of the target, and the target is
      the concatenation of the chunks 1 to n sent for this file. */
  lemma FileChunksAreOnce(files: seq<FileInfo>, steps: seq<Step>, f: FileInfo)
    requires Awaited(files, f) && NothingResent(Start(files).disk, steps)
    ensures var d0 := Start(files).disk;
      var d, sent, total := Run(Start(files), steps).disk, SentFor(d0, steps, f, map[]), TotalFor(d0, steps, f, None);
      var t := f.target;
      && (t in d.targets ==> total.Some? && Covers(sent, total.value) && d.targets[t] == JoinedSent(sent, total.value))
      && (d.info ==> forall k | k in sent ::
            && (ChunkName(t, k) in d.chunks <==> !(t in d.targets && 1 <= k <= total.value))
            && (ChunkName(t, k) in d.chunks ==> d.chunks[ChunkName(t, k)] == sent[k]))
      && (d.info ==> forall k | ChunkName(t, k) in d.chunks :: k in sent)
      && (!d.info ==> t in d.targets)
  {
    RunAgrees(Start(files), steps, f, map[], None);
    OnlyOneIsFirst(files, f.parameter, f.inputFile, f, f);
    var s := Run(Start(files), steps);
    if s.disk.info {
      DirectoryIsWaiting(s.disk, s.ledger, f.target);
    }
  }

  lemma DirectoryIsWaiting(d: Disk, l: Ledger, t: string)
    requires ChunksFine(d, l)
    ensures forall k :: ChunkName(t, k) in d.chunks <==> Waiting(l, t, k)
    ensures forall k | Waiting(l, t, k) :: d.chunks[ChunkName(t, k)] == SentOf(l, t)[k]
  {
    forall k ensures ChunkName(t, k) in d.chunks <==> Waiting(l, t, k) {
      if ChunkName(t, k) in d.chunks {
        StoredWasSent(d, l, t, k);
      }
    }
  }

  lemma {:induction false} PollReaches(d: Disk, n: nat, i: nat)
    requires i < |d.files| && n <= |d.files| && Complete(d, d.files[i].target)
    requires forall j, k | 0 <= j < k < |d.files| :: d.files[j].target != d.files[k].target
    ensures if n <= i then Complete(PollFiles(d, n), d.files[i].target)
            else d.files[i].target in PollFiles(d, n).targets
  {
    if n > 0 {
      PollReaches(d, n - 1, i);
      if n - 1 < i {
        OtherPoll(PollFiles(d, n - 1), d.files[n - 1].target, d.files[i].target);
      }
    }
  }

  /** Assembling one file leaves the chunks of another complete. */
  lemma OtherPoll(d: Disk, t: string, other: string)
    requires t != other && Complete(d, other)
    ensures Complete(PollFile(d, t), other)
  {
    if Complete(d, t) {
      forall k | 1 <= k <= d.totals[other] ensures ChunkName(other, k) in PollFile(d, t).chunks {
        if ChunkName(other, k) in NamesOf(t, d.totals[t]) {
          var j :| 1 <= j <= d.totals[t] && ChunkName(other, k) == ChunkName(t, j);
          ChunkNamesDiffer(other, k, t, j);
        }
      }
    }
  }

  /** Once all chunks 1 to n of a file have been sent, n being the total last announced, the next poll assembles it. */
  lemma CompleteFileIsAssembled(files: seq<FileInfo>, steps: seq<Step>, f: FileInfo)
    requires Awaited(files, f) && NothingResent(Start(files).disk, steps)
    requires var d0 := Start(files).disk; var total := TotalFor(d0, steps, f, None);
      total.Some? && Covers(SentFor(d0, steps, f, map[]), total.value)
    ensures var d0 := Start(files).disk;
      var sent, total := SentFor(d0, steps, f, map[]), TotalFor(d0, steps, f, None).value;
      var d := Polled(Run(Start(files), steps).disk);
      f.target in d.targets && d.targets[f.target] == JoinedSent(sent, total)
  {
    var s := Run(Start(files), steps);
    RunAgrees(Start(files), steps, f, map[], None);
    OnlyOneIsFirst(files, f.parameter, f.inputFile, f, f);
    var sent, total := SentFor(Start(files).disk, steps, f, map[]), TotalFor(Start(files).disk, steps, f, None).value;
    if s.disk.info {
      if f.target !in s.disk.targets {
        DirectoryIsWaiting(s.disk, s.ledger, f.target);
        assert forall k | 1 <= k <= total :: Waiting(s.ledger, f.target, k);
        assert Complete(s.disk, f.target);
        var i :| 0 <= i < |files| && files[i] == f;
        PollReaches(s.disk, |files|, i);
      } else {
        TargetsStay(s.disk, |files|, f.target);
      }
      PollAgrees(s.disk, s.ledger, f, sent, Some(total));
      ApplyKeeps(s.disk, s.ledger, PollInfo);
    }
  }

  lemma {:induction false} TargetsStay(d: Disk, n: nat, t: string)
    requires n <= |d.files| && t in d.targets
    ensures t in PollFiles(d, n).targets
  {
    if n > 0 {
      TargetsStay(d, n - 1, t);
    }
  }

  /** A poll closes the upload, and clears its directory and totals, exactly when every file has its target. */
  lemma PollCloses(d: Disk)
    requires d.info
    ensures !Polled(d).info <==> forall f | f in d.files :: f.target in Polled(d).targets
    ensures !Polled(d).info ==> Polled(d).chunks == map[] && Polled(d).totals == map[]
  {}
}
