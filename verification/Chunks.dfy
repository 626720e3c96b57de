/** Upload of layer files by chunks (src/layman/layer/filesystem/input_chunk.py): the chunk directory, the target files
    and the Redis hash of totals of one layer. */
module Chunks {
  import opened Wrappers
  import opened Decimals

  newtype byte = b: int | 0 <= b < 256

  type Bytes = seq<byte>

  /** A file to upload; `target` is its name in the input directory of the layer. */
  datatype FileInfo = FileInfo(inputFile: string, parameter: string, target: string)

  /** `info` is the list in info.json, which a complete upload deletes with the whole directory. The hash of totals is
      keyed here by the target, as every file has the same parameter. */
  datatype Disk = Disk(info: bool, files: seq<FileInfo>, chunks: map<string, Bytes>, targets: map<string, Bytes>,
                       totals: map<string, int>)

  datatype Error = NotAwaited | UnknownFile

  function ChunkName(target: string, number: int): string {
    target + "_part_" + ThreeDigits(number)
  }

  function FindFile(files: seq<FileInfo>, parameter: string, inputFile: string): Result<FileInfo, Error> {
    if files == [] then Err(UnknownFile)
    else if files[0].inputFile == inputFile && files[0].parameter == parameter then Ok(files[0])
    else FindFile(files[1..], parameter, inputFile)
  }

  function Target(d: Disk, parameter: string, inputFile: string): Result<FileInfo, Error> {
    if d.info then FindFile(d.files, parameter, inputFile) else Err(NotAwaited)
  }

  /* ---- which file a chunk belongs to ---- */

  predicate SameKey(f: FileInfo, parameter: string, inputFile: string) {
    f.inputFile == inputFile && f.parameter == parameter
  }

  /** The first listed entry with exactly this input file and parameter. */
  ghost predicate FirstListed(files: seq<FileInfo>, parameter: string, inputFile: string, f: FileInfo) {
    exists i :: 0 <= i < |files| && files[i] == f && SameKey(f, parameter, inputFile)
      && forall j | 0 <= j < i :: !SameKey(files[j], parameter, inputFile)
  }

  lemma {:induction false} FindMeans(files: seq<FileInfo>, parameter: string, inputFile: string)
    ensures match FindFile(files, parameter, inputFile)
      case Ok(f) => FirstListed(files, parameter, inputFile, f)
      case Err(e) => e == UnknownFile && forall f | f in files :: !SameKey(f, parameter, inputFile)
  {
    if files != [] {
      FindMeans(files[1..], parameter, inputFile);
      if SameKey(files[0], parameter, inputFile) {
        assert files[0] == files[0];
      } else {
        NextListed(files, parameter, inputFile);
      }
    }
  }

  lemma NextListed(files: seq<FileInfo>, parameter: string, inputFile: string)
    requires files != [] && !SameKey(files[0], parameter, inputFile)
    ensures forall f | FirstListed(files[1..], parameter, inputFile, f) :: FirstListed(files, parameter, inputFile, f)
    ensures (forall f | f in files[1..] :: !SameKey(f, parameter, inputFile)) ==>
      forall f | f in files :: !SameKey(f, parameter, inputFile)
  {
    assert files == [files[0]] + files[1..];
    forall f | FirstListed(files[1..], parameter, inputFile, f) ensures FirstListed(files, parameter, inputFile, f) {
      var i :| 0 <= i < |files[1..]| && files[1..][i] == f && SameKey(f, parameter, inputFile)
        && forall j | 0 <= j < i :: !SameKey(files[1..][j], parameter, inputFile);
      assert files[i + 1] == f;
      forall j | 0 <= j < i + 1 ensures !SameKey(files[j], parameter, inputFile) {
        assert j > 0 ==> files[j] == files[1..][j - 1];
      }
    }
  }

  lemma OnlyOneIsFirst(files: seq<FileInfo>, parameter: string, inputFile: string, f: FileInfo, g: FileInfo)
    requires FirstListed(files, parameter, inputFile, f) && FirstListed(files, parameter, inputFile, g)
    ensures f == g && f in files
  {
    var i :| 0 <= i < |files| && files[i] == f && SameKey(f, parameter, inputFile)
      && forall j | 0 <= j < i :: !SameKey(files[j], parameter, inputFile);
    var k :| 0 <= k < |files| && files[k] == g && SameKey(g, parameter, inputFile)
      && forall j | 0 <= j < k :: !SameKey(files[j], parameter, inputFile);
    assert i == k;
  }

  /** A chunk is taken for f exactly when the upload is open and f is the first entry with its input file and
      parameter; error 20 comes exactly when the upload is closed, error 21 exactly when no entry has both. */
  lemma TargetMeans(d: Disk, parameter: string, inputFile: string, f: FileInfo)
    ensures Target(d, parameter, inputFile) == Ok(f) <==> d.info && FirstListed(d.files, parameter, inputFile, f)
    ensures Target(d, parameter, inputFile) == Err(NotAwaited) <==> !d.info
    ensures Target(d, parameter, inputFile) == Err(UnknownFile) <==>
      d.info && forall g | g in d.files :: !SameKey(g, parameter, inputFile)
  {
    FindMeans(d.files, parameter, inputFile);
    var found := FindFile(d.files, parameter, inputFile);
    if found.Ok? {
      if FirstListed(d.files, parameter, inputFile, f) {
        OnlyOneIsFirst(d.files, parameter, inputFile, f, found.value);
      }
      OnlyOneIsFirst(d.files, parameter, inputFile, found.value, found.value);
      assert SameKey(found.value, parameter, inputFile);
    }
  }

  /* ---- storing and assembling ---- */

  function Stored(d: Disk, target: string, number: int, content: Bytes, total: int): Disk {
    d.(chunks := d.chunks[ChunkName(target, number) := content], totals := d.totals[target := total])
  }

  predicate AllThere(chunks: map<string, Bytes>, target: string, total: int) {
    forall k | 1 <= k <= total :: ChunkName(target, k) in chunks
  }

  function NamesOf(target: string, total: int): set<string> {
    set k | 1 <= k <= total :: ChunkName(target, k)
  }

  /** The chunks 1 to `total` one after another. */
  function Joined(chunks: map<string, Bytes>, target: string, total: int): Bytes
    requires AllThere(chunks, target, total)
    decreases total
  {
    if total <= 0 then [] else Joined(chunks, target, total - 1) + chunks[ChunkName(target, total)]
  }

  predicate Complete(d: Disk, target: string) {
    target in d.totals && AllThere(d.chunks, target, d.totals[target])
  }

  function Before(targets: map<string, Bytes>, target: string): Bytes {
    if target in targets then targets[target] else []
  }

  /** The target is opened for appending. */
  function Assembled(d: Disk, target: string): Disk
    requires Complete(d, target)
  {
    var total := d.totals[target];
    d.(targets := d.targets[target := Before(d.targets, target) + Joined(d.chunks, target, total)],
       chunks := d.chunks - NamesOf(target, total),
       totals := d.totals - {target})
  }

  function PollFile(d: Disk, target: string): Disk {
    if Complete(d, target) then Assembled(d, target) else d
  }

  function PollFiles(d: Disk, n: nat): Disk
    requires n <= |d.files|
    ensures PollFiles(d, n).files == d.files && PollFiles(d, n).info == d.info
  {
    if n == 0 then d else PollFile(PollFiles(d, n - 1), d.files[n - 1].target)
  }

  predicate AllSaved(d: Disk) {
    forall f | f in d.files :: f.target in d.targets
  }

  function Cleared(d: Disk): Disk {
    d.(info := false, chunks := map[], totals := map[])
  }

  function Polled(d: Disk): Disk {
    if !d.info then d
    else
      var d' := PollFiles(d, |d.files|);
      if AllSaved(d') then Cleared(d') else d'
  }

  /* ---- chunk names ---- */

  lemma {:induction false} PaddedDigits(s: string, width: nat)
    requires AllDigits(s)
    ensures forall i | 0 <= i < |Padded(s, width)| :: Padded(s, width)[i] != '_'
  {}

  lemma NoUnderscore(n: int)
    ensures forall i | 0 <= i < |ThreeDigits(n)| :: ThreeDigits(n)[i] != '_'
  {
    if n >= 0 {
      PaddedDigits(Digits(n), 3);
    } else {
      PaddedDigits(Digits(-n), 2);
    }
  }

  lemma LastUnderscore(target: string, n: int)
    ensures var name := ChunkName(target, n); var p := |target| + 5;
      && p < |name| && name[p] == '_' && name[..p + 1] == target + "_part_" && name[p + 1..] == ThreeDigits(n)
      && forall i | p < i < |name| :: name[i] != '_'
  {
    var name, p := ChunkName(target, n), |target| + 5;
    assert name[p + 1..] == ThreeDigits(n);
    NoUnderscore(n);
    forall i | p < i < |name| ensures name[i] != '_' {
      assert name[i] == ThreeDigits(n)[i - p - 1];
    }
  }

  /** Chunks of different files, or with different numbers, never share a name. */
  lemma ChunkNamesDiffer(s: string, m: int, t: string, n: int)
    requires ChunkName(s, m) == ChunkName(t, n)
    ensures s == t && m == n
  {
    LastUnderscore(s, m);
    LastUnderscore(t, n);
    assert |s| == |t|;
    assert s == (s + "_part_")[..|s|] && t == (t + "_part_")[..|t|];
    ThreeDigitsAreInjective(m, n);
  }

  /** The name under which a chunk is first written is never a chunk name, so a poll sees whole chunks only. */
  lemma UnfinishedChunkIsNoChunk(s: string, m: int, t: string, n: int)
    ensures ChunkName(s, m) + "_part" != ChunkName(t, n)
  {
    DigitsInside(n);
    var name, digits := ChunkName(t, n), ThreeDigits(n);
    assert name[|name| - 1] == digits[|digits| - 1];
    var unfinished := ChunkName(s, m) + "_part";
    assert unfinished[|unfinished| - 1] == 't';
  }

  lemma DigitsInside(n: int)
    ensures ThreeDigits(n) != "" && ThreeDigits(n)[|ThreeDigits(n)| - 1] != 't'
  {}

  /* ---- what has been sent, and what has become of it ---- */

  /** A record beside the program: the last content sent under each number, and the total each target was assembled
      with. */
  datatype Ledger = Ledger(sent: map<string, map<int, Bytes>>, assembled: map<string, int>)

  function SentOf(l: Ledger, target: string): map<int, Bytes> {
    if target in l.sent then l.sent[target] else map[]
  }

  /** The chunk was sent and is not among those a target was made of. */
  predicate Waiting(l: Ledger, target: string, number: int) {
    number in SentOf(l, target) && !(target in l.assembled && 1 <= number <= l.assembled[target])
  }

  predicate Covers(sent: map<int, Bytes>, total: int) {
    forall k | 1 <= k <= total :: k in sent
  }

  function JoinedSent(sent: map<int, Bytes>, total: int): Bytes
    requires Covers(sent, total)
    decreases total
  {
    if total <= 0 then [] else JoinedSent(sent, total - 1) + sent[total]
  }

  /** In the chunk directory lie exactly the waiting chunks, and a target holds what was sent, in order, once. */
  ghost predicate ChunksFine(d: Disk, l: Ledger) {
    && (forall t, k | Waiting(l, t, k) :: ChunkName(t, k) in d.chunks && d.chunks[ChunkName(t, k)] == SentOf(l, t)[k])
    && (forall name | name in d.chunks :: exists t, k :: Waiting(l, t, k) && name == ChunkName(t, k))
  }

  predicate TargetsFine(d: Disk, l: Ledger) {
    && d.targets.Keys == l.assembled.Keys
    && (forall t | t in d.targets :: t !in d.totals && Covers(SentOf(l, t), l.assembled[t])
          && d.targets[t] == JoinedSent(SentOf(l, t), l.assembled[t]))
  }

  ghost predicate Fine(d: Disk, l: Ledger) {
    TargetsFine(d, l) && if d.info then ChunksFine(d, l) else AllSaved(d)
  }

  function Noted(l: Ledger, target: string, number: int, content: Bytes): Ledger {
    l.(sent := l.sent[target := SentOf(l, target)[number := content]])
  }

  lemma WaitingAfterStore(l: Ledger, t: string, number: int, content: Bytes, s: string, k: int)
    requires t !in l.assembled
    ensures Waiting(Noted(l, t, number, content), s, k) <==> Waiting(l, s, k) || (s == t && k == number)
    ensures ChunkName(s, k) == ChunkName(t, number) <==> s == t && k == number
    ensures s == t && k == number ==> SentOf(Noted(l, t, number, content), s)[k] == content
    ensures Waiting(l, s, k) && !(s == t && k == number) ==>
      SentOf(Noted(l, t, number, content), s)[k] == SentOf(l, s)[k]
  {
    if ChunkName(s, k) == ChunkName(t, number) {
      ChunkNamesDiffer(s, k, t, number);
    }
  }

  lemma StoreKeepsChunks(d: Disk, l: Ledger, t: string, number: int, content: Bytes, total: int)
    requires ChunksFine(d, l) && t !in l.assembled
    ensures ChunksFine(Stored(d, t, number, content, total), Noted(l, t, number, content))
  {
    var chunks, l' := Stored(d, t, number, content, total).chunks, Noted(l, t, number, content);
    forall s, k | Waiting(l', s, k)
      ensures ChunkName(s, k) in chunks && chunks[ChunkName(s, k)] == SentOf(l', s)[k]
    {
      WaitingAfterStore(l, t, number, content, s, k);
    }
    forall name | name in chunks ensures exists s, k :: Waiting(l', s, k) && name == ChunkName(s, k) {
      var s, k := t, number;
      if name != ChunkName(t, number) {
        s, k :| Waiting(l, s, k) && name == ChunkName(s, k);
      }
      WaitingAfterStore(l, t, number, content, s, k);
    }
  }

  lemma StoreKeeps(d: Disk, l: Ledger, t: string, number: int, content: Bytes, total: int)
    requires Fine(d, l) && d.info && t !in d.targets
    ensures Fine(Stored(d, t, number, content, total), Noted(l, t, number, content))
  {
    StoreKeepsChunks(d, l, t, number, content, total);
  }

  /* ---- assembly ---- */

  lemma StoredWasSent(d: Disk, l: Ledger, t: string, number: int)
    requires ChunksFine(d, l) && ChunkName(t, number) in d.chunks
    ensures Waiting(l, t, number) && d.chunks[ChunkName(t, number)] == SentOf(l, t)[number]
  {
    var s, k :| Waiting(l, s, k) && ChunkName(t, number) == ChunkName(s, k);
    ChunkNamesDiffer(t, number, s, k);
  }

  lemma {:induction false} SameChunksJoinAlike(chunks: map<string, Bytes>, t: string, sent: map<int, Bytes>, total: int)
    requires AllThere(chunks, t, total) && Covers(sent, total)
    requires forall k | 1 <= k <= total :: chunks[ChunkName(t, k)] == sent[k]
    ensures Joined(chunks, t, total) == JoinedSent(sent, total)
    decreases total
  {
    if total > 0 {
      SameChunksJoinAlike(chunks, t, sent, total - 1);
    }
  }

  lemma JoinedIsWhatWasSent(d: Disk, l: Ledger, t: string, total: int)
    requires ChunksFine(d, l) && AllThere(d.chunks, t, total)
    ensures Covers(SentOf(l, t), total) && Joined(d.chunks, t, total) == JoinedSent(SentOf(l, t), total)
  {
    var sent := SentOf(l, t);
    forall k | 1 <= k <= total ensures k in sent && d.chunks[ChunkName(t, k)] == sent[k] {
      StoredWasSent(d, l, t, k);
    }
    SameChunksJoinAlike(d.chunks, t, sent, total);
  }

  function Marked(l: Ledger, target: string, total: int): Ledger {
    l.(assembled := l.assembled[target := total])
  }

  lemma StillWaiting(d: Disk, l: Ledger, t: string, s: string, k: int)
    requires ChunksFine(d, l) && t !in l.assembled && Complete(d, t)
    requires Waiting(Marked(l, t, d.totals[t]), s, k)
    ensures ChunkName(s, k) in Assembled(d, t).chunks
    ensures Assembled(d, t).chunks[ChunkName(s, k)] == SentOf(l, s)[k]
  {
    assert Waiting(l, s, k);
    if ChunkName(s, k) in NamesOf(t, d.totals[t]) {
      var j :| 1 <= j <= d.totals[t] && ChunkName(s, k) == ChunkName(t, j);
      ChunkNamesDiffer(s, k, t, j);
    }
  }

  lemma RestIsWaiting(d: Disk, l: Ledger, t: string, name: string) returns (s: string, k: int)
    requires ChunksFine(d, l) && t !in l.assembled && Complete(d, t) && name in Assembled(d, t).chunks
    ensures Waiting(Marked(l, t, d.totals[t]), s, k) && name == ChunkName(s, k)
  {
    s, k :| Waiting(l, s, k) && name == ChunkName(s, k);
    assert name !in NamesOf(t, d.totals[t]);
  }

  lemma AssemblyKeepsChunks(d: Disk, l: Ledger, t: string)
    requires ChunksFine(d, l) && t !in l.assembled && Complete(d, t)
    ensures ChunksFine(Assembled(d, t), Marked(l, t, d.totals[t]))
  {
    var total := d.totals[t];
    forall s, k | Waiting(Marked(l, t, total), s, k)
      ensures ChunkName(s, k) in Assembled(d, t).chunks
      ensures Assembled(d, t).chunks[ChunkName(s, k)] == SentOf(Marked(l, t, total), s)[k]
    {
      StillWaiting(d, l, t, s, k);
    }
    forall name | name in Assembled(d, t).chunks
      ensures exists s, k :: Waiting(Marked(l, t, total), s, k) && name == ChunkName(s, k)
    {
      var s, k := RestIsWaiting(d, l, t, name);
    }
  }

  lemma AssemblyKeeps(d: Disk, l: Ledger, t: string)
    requires Fine(d, l) && d.info && Complete(d, t)
    ensures Fine(Assembled(d, t), Marked(l, t, d.totals[t]))
  {
    AssemblyKeepsChunks(d, l, t);
    JoinedIsWhatWasSent(d, l, t, d.totals[t]);
    var d', l' := Assembled(d, t), Marked(l, t, d.totals[t]);
    assert d'.targets[t] == JoinedSent(SentOf(l, t), d.totals[t]);
  }

  function PollFileLedger(d: Disk, l: Ledger, target: string): Ledger {
    if Complete(d, target) then Marked(l, target, d.totals[target]) else l
  }

  function PollLedger(d: Disk, l: Ledger, n: nat): Ledger
    requires n <= |d.files|
  {
    if n == 0 then l else PollFileLedger(PollFiles(d, n - 1), PollLedger(d, l, n - 1), d.files[n - 1].target)
  }

  lemma {:induction false} PollFilesKeeps(d: Disk, l: Ledger, n: nat)
    requires Fine(d, l) && d.info && n <= |d.files|
    ensures Fine(PollFiles(d, n), PollLedger(d, l, n))
  {
    if n > 0 {
      PollFilesKeeps(d, l, n - 1);
      var d', l' := PollFiles(d, n - 1), PollLedger(d, l, n - 1);
      if Complete(d', d.files[n - 1].target) {
        AssemblyKeeps(d', l', d.files[n - 1].target);
      }
    }
  }

  /* ---- runs ---- */

  datatype Step =
    | SaveChunk(parameter: string, inputFile: string, number: int, content: Bytes, total: int)
    | PollInfo

  function Apply(d: Disk, step: Step): Disk {
    match step
    case SaveChunk(parameter, inputFile, number, content, total) =>
      var found := Target(d, parameter, inputFile);
      if found.Ok? then Stored(d, found.value.target, number, content, total) else d
    case PollInfo => Polled(d)
  }

  function Record(d: Disk, l: Ledger, step: Step): Ledger {
    match step
    case SaveChunk(parameter, inputFile, number, content, total) =>
      var found := Target(d, parameter, inputFile);
      if found.Ok? then Noted(l, found.value.target, number, content) else l
    case PollInfo => if d.info then PollLedger(d, l, |d.files|) else l
  }

  /** No chunk of a target that has been assembled is sent again. */
  predicate Legal(d: Disk, step: Step) {
    step.SaveChunk? ==>
      var found := Target(d, step.parameter, step.inputFile); found.Ok? ==> found.value.target !in d.targets
  }

  datatype Trace = Trace(disk: Disk, ledger: Ledger)

  function Run(s: Trace, steps: seq<Step>): Trace
    decreases |steps|
  {
    if steps == [] then s
    else Run(Trace(Apply(s.disk, steps[0]), Record(s.disk, s.ledger, steps[0])), steps[1..])
  }

  predicate AllLegal(s: Trace, steps: seq<Step>)
    decreases |steps|
  {
    steps == []
    || (Legal(s.disk, steps[0])
        && AllLegal(Trace(Apply(s.disk, steps[0]), Record(s.disk, s.ledger, steps[0])), steps[1..]))
  }

  lemma ApplyKeeps(d: Disk, l: Ledger, step: Step)
    requires Fine(d, l) && Legal(d, step)
    ensures Fine(Apply(d, step), Record(d, l, step))
  {
    match step
    case SaveChunk(parameter, inputFile, number, content, total) =>
      var found := Target(d, parameter, inputFile);
      if found.Ok? {
        StoreKeeps(d, l, found.value.target, number, content, total);
      }
    case PollInfo =>
      if d.info {
        PollFilesKeeps(d, l, |d.files|);
      }
  }

  lemma {:induction false} RunKeeps(s: Trace, steps: seq<Step>)
    requires Fine(s.disk, s.ledger) && AllLegal(s, steps)
    ensures var s' := Run(s, steps); Fine(s'.disk, s'.ledger)
    decreases |steps|
  {
    if steps != [] {
      ApplyKeeps(s.disk, s.ledger, steps[0]);
      RunKeeps(Trace(Apply(s.disk, steps[0]), Record(s.disk, s.ledger, steps[0])), steps[1..]);
    }
  }

  function Start(files: seq<FileInfo>): Trace {
    Trace(Disk(true, files, map[], map[], map[]), Ledger(map[], map[]))
  }

  /** For any order of arrival, repeats and polls between: while the upload is open a chunk that was sent lies in the
      directory exactly when it is not part of its target, and a target is the concatenation of the chunks 1 to n as
      last sent. When the upload closes, every file has been assembled. */
  lemma EveryChunkIsOnce(files: seq<FileInfo>, steps: seq<Step>, t: string)
    requires AllLegal(Start(files), steps)
    ensures var s := Run(Start(files), steps); var sent := SentOf(s.ledger, t);
      && (t in s.disk.targets ==>
            && t in s.ledger.assembled && Covers(sent, s.ledger.assembled[t])
            && s.disk.targets[t] == JoinedSent(sent, s.ledger.assembled[t]))
      && (s.disk.info ==> forall k | k in sent ::
            ChunkName(t, k) in s.disk.chunks <==> !(t in s.disk.targets && 1 <= k <= s.ledger.assembled[t]))
      && (!s.disk.info ==> AllSaved(s.disk))
  {
    RunKeeps(Start(files), steps);
    var s := Run(Start(files), steps);
    var sent := SentOf(s.ledger, t);
    if s.disk.info {
      forall k | k in sent
        ensures ChunkName(t, k) in s.disk.chunks <==> !(t in s.disk.targets && 1 <= k <= s.ledger.assembled[t])
      {
        if ChunkName(t, k) in s.disk.chunks {
          StoredWasSent(s.disk, s.ledger, t, k);
        } else {
          assert !Waiting(s.ledger, t, k);
        }
      }
    }
  }

  function Offset(sent: map<int, Bytes>, number: int): nat
    requires Covers(sent, number)
  {
    |JoinedSent(sent, number)|
  }

  /** Chunk k stands in the target between the end of chunk k-1 and its own end. */
  lemma {:induction false} ChunkHasItsPlace(sent: map<int, Bytes>, total: int, k: int)
    requires Covers(sent, total) && 1 <= k <= total
    ensures Offset(sent, k - 1) <= Offset(sent, k) <= Offset(sent, total)
    ensures JoinedSent(sent, total)[Offset(sent, k - 1)..Offset(sent, k)] == sent[k]
    decreases total
  {
    if k < total {
      ChunkHasItsPlace(sent, total - 1, k);
    }
  }

  /** An assembly gives the concatenation of the chunks exactly when the target was missing or empty before. */
  lemma AssemblyIsExact(d: Disk, t: string)
    requires Complete(d, t)
    ensures Assembled(d, t).targets[t] == Joined(d.chunks, t, d.totals[t]) <==> Before(d.targets, t) == []
  {
    var was, joined := Before(d.targets, t), Joined(d.chunks, t, d.totals[t]);
    assert |was + joined| == |was| + |joined|;
  }

  /* ---- any run, also with chunks sent again after an assembly ---- */

  /** The ledger, and for each target the chunks of each of its assemblies. */
  datatype History = History(ledger: Ledger, pieces: map<string, seq<seq<Bytes>>>)

  function PiecesOf(h: History, target: string): seq<seq<Bytes>> {
    if target in h.pieces then h.pieces[target] else []
  }

  function Piece(chunks: map<string, Bytes>, target: string, total: int): (piece: seq<Bytes>)
    requires AllThere(chunks, target, total)
    ensures |piece| == if total > 0 then total else 0
    ensures forall k | 1 <= k <= total :: piece[k - 1] == chunks[ChunkName(target, k)]
    decreases total
  {
    if total <= 0 then [] else Piece(chunks, target, total - 1) + [chunks[ChunkName(target, total)]]
  }

  function Flat(piece: seq<Bytes>): Bytes {
    if piece == [] then [] else Flat(piece[..|piece| - 1]) + piece[|piece| - 1]
  }

  function FlatAll(pieces: seq<seq<Bytes>>): Bytes {
    if pieces == [] then [] else FlatAll(pieces[..|pieces| - 1]) + Flat(pieces[|pieces| - 1])
  }

  lemma {:induction false} JoinedIsFlat(chunks: map<string, Bytes>, target: string, total: int)
    requires AllThere(chunks, target, total)
    ensures Joined(chunks, target, total) == Flat(Piece(chunks, target, total))
    decreases total
  {
    if total > 0 {
      JoinedIsFlat(chunks, target, total - 1);
      var piece := Piece(chunks, target, total);
      assert piece[..total - 1] == Piece(chunks, target, total - 1);
    }
  }

  lemma {:induction false} FlatIsEmpty(piece: seq<Bytes>)
    ensures Flat(piece) == [] <==> forall c | c in piece :: c == []
  {
    if piece != [] {
      var n := |piece| - 1;
      FlatIsEmpty(piece[..n]);
      assert piece == piece[..n] + [piece[n]];
      assert |Flat(piece)| == |Flat(piece[..n])| + |piece[n]| && piece[n] in piece;
      assert forall c | c in piece[..n] :: c in piece;
    }
  }

  predicate AllEmpty(pieces: seq<seq<Bytes>>) {
    forall i | 0 <= i < |pieces| :: forall c | c in pieces[i] :: c == []
  }

  /** The first assembly, and nothing more exactly when all chunks of the later ones are empty. */
  lemma {:induction false} FirstPiece(pieces: seq<seq<Bytes>>)
    requires pieces != []
    ensures |FlatAll(pieces)| >= |Flat(pieces[0])| && FlatAll(pieces)[..|Flat(pieces[0])|] == Flat(pieces[0])
    ensures FlatAll(pieces) == Flat(pieces[0]) <==> AllEmpty(pieces[1..])
    decreases |pieces|
  {
    var n := |pieces| - 1;
    if n == 0 {
      assert pieces[..0] == [] && pieces[1..] == [] && [] + Flat(pieces[0]) == Flat(pieces[0]);
    } else {
      FirstPiece(pieces[..n]);
      FlatIsEmpty(pieces[n]);
      LastEmpty(pieces, n);
      assert |FlatAll(pieces)| == |FlatAll(pieces[..n])| + |Flat(pieces[n])|;
    }
  }

  lemma LastEmpty(pieces: seq<seq<Bytes>>, n: nat)
    requires 0 < n == |pieces| - 1
    ensures AllEmpty(pieces[1..]) <==> AllEmpty(pieces[..n][1..]) && forall c | c in pieces[n] :: c == []
  {
    assert pieces[1..] == pieces[..n][1..] + [pieces[n]];
    assert pieces[1..][n - 1] == pieces[n];
    assert forall i | 0 <= i < n - 1 :: pieces[1..][i] == pieces[..n][1..][i];
  }

  function PollFileHistory(d: Disk, h: History, target: string): History {
    var l := PollFileLedger(d, h.ledger, target);
    if Complete(d, target) then
      History(l, h.pieces[target := PiecesOf(h, target) + [Piece(d.chunks, target, d.totals[target])]])
    else
      History(l, h.pieces)
  }

  function PollHistory(d: Disk, h: History, n: nat): (h': History)
    requires n <= |d.files|
    ensures h'.ledger == PollLedger(d, h.ledger, n)
  {
    if n == 0 then h else PollFileHistory(PollFiles(d, n - 1), PollHistory(d, h, n - 1), d.files[n - 1].target)
  }

  function Chronicle(d: Disk, h: History, step: Step): (h': History)
    ensures h'.ledger == Record(d, h.ledger, step)
  {
    if step.PollInfo? && d.info then PollHistory(d, h, |d.files|)
    else History(Record(d, h.ledger, step), h.pieces)
  }

  datatype Told = Told(disk: Disk, history: History)

  function Tell(s: Told, steps: seq<Step>): Told
    decreases |steps|
  {
    if steps == [] then s
    else Tell(Told(Apply(s.disk, steps[0]), Chronicle(s.disk, s.history, steps[0])), steps[1..])
  }

  function Untold(files: seq<FileInfo>): Told {
    Told(Start(files).disk, History(Start(files).ledger, map[]))
  }

  /** Each target is what its assemblies appended, one after another. */
  predicate Pieced(d: Disk, h: History) {
    && d.targets.Keys == h.pieces.Keys
    && forall t | t in d.targets :: h.pieces[t] != [] && d.targets[t] == FlatAll(h.pieces[t])
  }

  /** A chunk in the directory is what was last sent under its name. */
  ghost predicate LastSent(d: Disk, l: Ledger) {
    forall name | name in d.chunks ::
      exists t, k :: k in SentOf(l, t) && name == ChunkName(t, k) && d.chunks[name] == SentOf(l, t)[k]
  }

  lemma AssemblyIsPieced(d: Disk, h: History, target: string)
    requires Pieced(d, h)
    ensures Pieced(PollFile(d, target), PollFileHistory(d, h, target))
  {
    if Complete(d, target) {
      var total := d.totals[target];
      JoinedIsFlat(d.chunks, target, total);
      var pieces := PiecesOf(h, target) + [Piece(d.chunks, target, total)];
      assert pieces[..|pieces| - 1] == PiecesOf(h, target);
    }
  }

  lemma {:induction false} PollIsPieced(d: Disk, h: History, n: nat)
    requires Pieced(d, h) && n <= |d.files|
    ensures Pieced(PollFiles(d, n), PollHistory(d, h, n))
  {
    if n > 0 {
      PollIsPieced(d, h, n - 1);
      AssemblyIsPieced(PollFiles(d, n - 1), PollHistory(d, h, n - 1), d.files[n - 1].target);
    }
  }

  lemma {:induction false} TellIsPieced(s: Told, steps: seq<Step>)
    requires Pieced(s.disk, s.history)
    ensures var s' := Tell(s, steps); Pieced(s'.disk, s'.history)
    decreases |steps|
  {
    if steps != [] {
      if steps[0].PollInfo? && s.disk.info {
        PollIsPieced(s.disk, s.history, |s.disk.files|);
      }
      TellIsPieced(Told(Apply(s.disk, steps[0]), Chronicle(s.disk, s.history, steps[0])), steps[1..]);
    }
  }

  /** In any run at all, a target begins with its first assembly, and it is just that exactly when every chunk that was
      appended later was empty. */
  lemma TargetIsFirstAssembly(files: seq<FileInfo>, steps: seq<Step>, t: string)
    ensures var s := Tell(Untold(files), steps);
      t in s.disk.targets ==>
        && t in s.history.pieces && s.history.pieces[t] != []
        && Flat(s.history.pieces[t][0]) <= s.disk.targets[t]
        && (s.disk.targets[t] == Flat(s.history.pieces[t][0]) <==> AllEmpty(s.history.pieces[t][1..]))
  {
    TellIsPieced(Untold(files), steps);
    var s := Tell(Untold(files), steps);
    if t in s.disk.targets {
      FirstPiece(s.history.pieces[t]);
    }
  }

  lemma {:induction false} PollSendsNothing(d: Disk, l: Ledger, n: nat)
    requires n <= |d.files|
    ensures PollLedger(d, l, n).sent == l.sent
    ensures forall name | name in PollFiles(d, n).chunks ::
      name in d.chunks && PollFiles(d, n).chunks[name] == d.chunks[name]
  {
    if n > 0 {
      PollSendsNothing(d, l, n - 1);
    }
  }

  lemma StoredIsLastSent(d: Disk, l: Ledger, t: string, number: int, content: Bytes, total: int)
    requires LastSent(d, l)
    ensures LastSent(Stored(d, t, number, content, total), Noted(l, t, number, content))
  {
    var d', l' := Stored(d, t, number, content, total), Noted(l, t, number, content);
    forall name | name in d'.chunks
      ensures exists s, k :: k in SentOf(l', s) && name == ChunkName(s, k) && d'.chunks[name] == SentOf(l', s)[k]
    {
      if name == ChunkName(t, number) {
        assert number in SentOf(l', t) && SentOf(l', t)[number] == content;
      } else {
        var s, k :| k in SentOf(l, s) && name == ChunkName(s, k) && d.chunks[name] == SentOf(l, s)[k];
        assert k in SentOf(l', s) && SentOf(l', s)[k] == SentOf(l, s)[k];
      }
    }
  }

  lemma PollIsLastSent(d: Disk, l: Ledger)
    requires LastSent(d, l) && d.info
    ensures LastSent(Polled(d), PollLedger(d, l, |d.files|))
  {
    var l' := PollLedger(d, l, |d.files|);
    PollSendsNothing(d, l, |d.files|);
    assert forall t :: SentOf(l', t) == SentOf(l, t);
  }

  lemma {:induction false} TellIsLastSent(s: Told, steps: seq<Step>)
    requires LastSent(s.disk, s.history.ledger)
    ensures var s' := Tell(s, steps); LastSent(s'.disk, s'.history.ledger)
    decreases |steps|
  {
    if steps != [] {
      var step := steps[0];
      match step {
        case SaveChunk(parameter, inputFile, number, content, total) =>
          var found := Target(s.disk, parameter, inputFile);
          if found.Ok? {
            StoredIsLastSent(s.disk, s.history.ledger, found.value.target, number, content, total);
          }
        case PollInfo =>
          if s.disk.info {
            PollIsLastSent(s.disk, s.history.ledger);
          }
      }
      TellIsLastSent(Told(Apply(s.disk, step), Chronicle(s.disk, s.history, step)), steps[1..]);
    }
  }

  /** And in any run, what a poll would append to a target are the chunks 1 to n as last sent. */
  lemma PieceIsLastSent(files: seq<FileInfo>, steps: seq<Step>, t: string, k: int)
    ensures var s := Tell(Untold(files), steps);
      Complete(s.disk, t) && 1 <= k <= s.disk.totals[t] ==>
        && k in SentOf(s.history.ledger, t)
        && Piece(s.disk.chunks, t, s.disk.totals[t])[k - 1] == SentOf(s.history.ledger, t)[k]
  {
    TellIsLastSent(Untold(files), steps);
    var s := Tell(Untold(files), steps);
    if Complete(s.disk, t) && 1 <= k <= s.disk.totals[t] {
      var r, j :| j in SentOf(s.history.ledger, r) && ChunkName(t, k) == ChunkName(r, j)
                  && s.disk.chunks[ChunkName(t, k)] == SentOf(s.history.ledger, r)[j];
      ChunkNamesDiffer(t, k, r, j);
    }
  }

  predicate OnePieceEach(h: History) {
    forall t | t in h.pieces :: |h.pieces[t]| == 1
  }

  lemma {:induction false} PollAddsFirstPieces(d: Disk, h: History, n: nat)
    requires Fine(d, h.ledger) && d.info && Pieced(d, h) && OnePieceEach(h) && n <= |d.files|
    ensures OnePieceEach(PollHistory(d, h, n))
  {
    if n > 0 {
      PollAddsFirstPieces(d, h, n - 1);
      PollIsPieced(d, h, n - 1);
      PollFilesKeeps(d, h.ledger, n - 1);
    }
  }

  /** Without chunks sent again after an assembly there is one assembly for each target. */
  lemma {:induction false} LegalAssembliesAreSingle(s: Told, steps: seq<Step>)
    requires Fine(s.disk, s.history.ledger) && Pieced(s.disk, s.history) && OnePieceEach(s.history)
    requires AllLegal(Trace(s.disk, s.history.ledger), steps)
    ensures OnePieceEach(Tell(s, steps).history)
    decreases |steps|
  {
    if steps != [] {
      ApplyKeeps(s.disk, s.history.ledger, steps[0]);
      if steps[0].PollInfo? && s.disk.info {
        PollAddsFirstPieces(s.disk, s.history, |s.disk.files|);
        PollIsPieced(s.disk, s.history, |s.disk.files|);
      }
      LegalAssembliesAreSingle(Told(Apply(s.disk, steps[0]), Chronicle(s.disk, s.history, steps[0])), steps[1..]);
    }
  }

  predicate TwoFiles(f: FileInfo, g: FileInfo) {
    f.inputFile != g.inputFile && f.target != g.target
  }

  /** A one-chunk file sent and polled while another file is still awaited. */
  lemma OneChunkRound(f: FileInfo, g: FileInfo, targets: map<string, Bytes>, content: Bytes)
    requires TwoFiles(f, g) && g.target !in targets
    ensures var d := Disk(true, [f, g], map[], targets, map[]);
      Polled(Apply(d, SaveChunk(f.parameter, f.inputFile, 1, content, 1)))
      == d.(targets := targets[f.target := Before(targets, f.target) + content])
  {
    var d := Disk(true, [f, g], map[], targets, map[]);
    var d1 := Apply(d, SaveChunk(f.parameter, f.inputFile, 1, content, 1));
    var name := ChunkName(f.target, 1);
    assert d1 == Stored(d, f.target, 1, content, 1) && d1.chunks == map[name := content];
    assert Joined(d1.chunks, f.target, 0) == [] && Joined(d1.chunks, f.target, 1) == content;
    assert NamesOf(f.target, 1) == {name};
    var d2 := Assembled(d1, f.target);
    assert d2.chunks == map[] && d2.totals == map[];
    assert PollFiles(d1, 0) == d1 && PollFiles(d1, 1) == d2 && PollFiles(d1, 2) == PollFile(d2, g.target) == d2;
    assert g in d2.files && g.target !in d2.targets;
  }

  /** A chunk sent again after the assembly of its file ends up in the target twice. */
  lemma ResentChunkIsDoubled(f: FileInfo, g: FileInfo, content: Bytes)
    requires TwoFiles(f, g)
    ensures var send := SaveChunk(f.parameter, f.inputFile, 1, content, 1);
      Run(Start([f, g]), [send, PollInfo, send, PollInfo]).disk.targets == map[f.target := content + content]
  {
    var send := SaveChunk(f.parameter, f.inputFile, 1, content, 1);
    var s0 := Start([f, g]);
    OneChunkRound(f, g, map[], content);
    OneChunkRound(f, g, map[f.target := content], content);
    var s2 := Run(s0, [send, PollInfo]);
    TwoSteps(s0, send, PollInfo);
    TwoSteps(s2, send, PollInfo);
    RunAppend(s0, [send, PollInfo], [send, PollInfo]);
    assert [send, PollInfo] + [send, PollInfo] == [send, PollInfo, send, PollInfo];
    assert [] + content == content;
    assert s2.disk == Disk(true, [f, g], map[], map[f.target := content], map[]);
  }

  lemma TwoSteps(s: Trace, a: Step, b: Step)
    ensures Run(s, [a, b]).disk == Apply(Apply(s.disk, a), b)
  {
    var s1 := Trace(Apply(s.disk, a), Record(s.disk, s.ledger, a));
    assert [a, b][1..] == [b] && [b][1..] == [];
    assert Run(s1, [b]) == Trace(Apply(s1.disk, b), Record(s1.disk, s1.ledger, b));
  }

  lemma {:induction false} RunAppend(s: Trace, a: seq<Step>, b: seq<Step>)
    ensures Run(s, a + b) == Run(Run(s, a), b)
    decreases |a|
  {
    if a == [] {
      assert a + b == b;
    } else {
      assert (a + b)[1..] == a[1..] + b;
      RunAppend(Trace(Apply(s.disk, a[0]), Record(s.disk, s.ledger, a[0])), a[1..], b);
    }
  }

  /** With a single file no chunk can come after the assembly: the poll that assembles also closes the upload. */
  lemma SingleFileIsSafe(f: FileInfo, steps: seq<Step>)
    ensures AllLegal(Start([f]), steps)
  {
    SingleFileStaysSafe(Start([f]), steps);
  }

  predicate SingleAwaited(d: Disk) {
    |d.files| == 1 && (d.info ==> d.files[0].target !in d.targets)
  }

  lemma SinglePoll(d: Disk)
    requires SingleAwaited(d)
    ensures SingleAwaited(Polled(d))
  {
    if d.info {
      assert PollFiles(d, 0) == d;
      var d' := PollFiles(d, 1);
      assert d' == PollFile(d, d.files[0].target);
      assert d.files == [d.files[0]];
      if d.files[0].target in d'.targets {
        assert AllSaved(d');
      }
    }
  }

  lemma SingleSave(d: Disk, step: Step)
    requires SingleAwaited(d) && step.SaveChunk?
    ensures Legal(d, step) && SingleAwaited(Apply(d, step))
  {
    assert FindFile(d.files[1..], step.parameter, step.inputFile) == Err(UnknownFile);
  }

  lemma {:induction false} SingleFileStaysSafe(s: Trace, steps: seq<Step>)
    requires SingleAwaited(s.disk)
    ensures AllLegal(s, steps)
    decreases |steps|
  {
    if steps != [] {
      if steps[0].SaveChunk? {
        SingleSave(s.disk, steps[0]);
      } else {
        SinglePoll(s.disk);
      }
      SingleFileStaysSafe(Trace(Apply(s.disk, steps[0]), Record(s.disk, s.ledger, steps[0])), steps[1..]);
    }
  }

  /* ---- the same in place ---- */

  function SavedAmong(d: Disk, n: nat): nat
    requires n <= |d.files|
  {
    if n == 0 then 0 else SavedAmong(d, n - 1) + if d.files[n - 1].target in d.targets then 1 else 0
  }

  lemma {:induction false} AllSavedByCount(d: Disk, n: nat)
    requires n <= |d.files|
    ensures SavedAmong(d, n) <= n
    ensures SavedAmong(d, n) == n <==> forall i | 0 <= i < n :: d.files[i].target in d.targets
  {
    if n > 0 {
      AllSavedByCount(d, n - 1);
    }
  }

  /** The disk when the chunks 1 to k have been moved into the target. */
  function Moved(d: Disk, target: string, k: int): Disk
    requires AllThere(d.chunks, target, k)
  {
    d.(targets := d.targets[target := Before(d.targets, target) + Joined(d.chunks, target, k)],
       chunks := d.chunks - NamesOf(target, k))
  }

  lemma NextName(target: string, k: int)
    requires k >= 1
    ensures ChunkName(target, k) !in NamesOf(target, k - 1)
    ensures NamesOf(target, k) == NamesOf(target, k - 1) + {ChunkName(target, k)}
  {
    if ChunkName(target, k) in NamesOf(target, k - 1) {
      var j :| 1 <= j <= k - 1 && ChunkName(target, k) == ChunkName(target, j);
      ChunkNamesDiffer(target, k, target, j);
    }
  }

  lemma NextContent(chunks: map<string, Bytes>, before: Bytes, target: string, k: int)
    requires k >= 1 && AllThere(chunks, target, k)
    ensures before + Joined(chunks, target, k) == before + Joined(chunks, target, k - 1) + chunks[ChunkName(target, k)]
  {}

  lemma NextMoved(d: Disk, target: string, k: int)
    requires k >= 1 && AllThere(d.chunks, target, k)
    ensures var m := Moved(d, target, k - 1); var name := ChunkName(target, k);
      && target in m.targets && name in m.chunks
      && Moved(d, target, k) == m.(targets := m.targets[target := m.targets[target] + m.chunks[name]],
                                   chunks := m.chunks - {name})
  {
    NextName(target, k);
    NextContent(d.chunks, Before(d.targets, target), target, k);
  }

  lemma NothingMoved(d: Disk, target: string, total: int)
    requires total <= 0
    ensures Moved(d, target, total) == d.(targets := d.targets[target := Before(d.targets, target)])
  {
    assert NamesOf(target, total) == {};
    assert Before(d.targets, target) + [] == Before(d.targets, target);
    assert d.chunks - {} == d.chunks;
  }

  class Upload {
    var info: bool
    var files: seq<FileInfo>
    var chunks: map<string, Bytes>
    var targets: map<string, Bytes>
    var totals: map<string, int>

    ghost function Contents(): Disk
      reads this
    {
      Disk(info, files, chunks, targets, totals)
    }

    constructor (files: seq<FileInfo>)
      ensures Contents() == Start(files).disk
    {
      info, this.files, chunks, targets, totals := true, files, map[], map[], map[];
    }

    method SaveChunk(parameter: string, inputFile: string, number: int, content: Bytes, total: int)
      returns (result: Result<FileInfo, Error>)
      modifies this
      ensures result == Target(old(Contents()), parameter, inputFile)
      ensures Contents() == Apply(old(Contents()), Step.SaveChunk(parameter, inputFile, number, content, total))
      ensures result.Ok? ==> old(info) && FirstListed(files, parameter, inputFile, result.value)
      ensures result == Err(NotAwaited) <==> !old(info)
      ensures result == Err(UnknownFile) <==> old(info) && forall f | f in files :: !SameKey(f, parameter, inputFile)
      ensures result.Ok? ==>
        && chunks == old(chunks)[result.value.target + "_part_" + ThreeDigits(number) := content]
        && totals == old(totals)[result.value.target := total]
      ensures info == old(info) && files == old(files) && targets == old(targets)
      ensures result.Err? ==> chunks == old(chunks) && totals == old(totals)
    {
      FindMeans(files, parameter, inputFile);
      if !info {
        return Err(NotAwaited);
      }
      result := FindFile(files, parameter, inputFile);
      if result.Ok? {
        totals := totals[result.value.target := total];
        chunks := chunks[ChunkName(result.value.target, number) := content];
      }
    }

    method IsComplete(target: string, total: int) returns (complete: bool)
      ensures complete <==> AllThere(chunks, target, total)
    {
      var k := 1;
      while k <= total
        invariant k >= 1 && forall j | 1 <= j < k && j <= total :: ChunkName(target, j) in chunks
      {
        if ChunkName(target, k) !in chunks {
          return false;
        }
        k := k + 1;
      }
      return true;
    }

    method Assemble(target: string)
      requires Complete(Contents(), target)
      modifies this
      ensures Contents() == Assembled(old(Contents()), target)
    {
      var total := totals[target];
      ghost var was := Contents();
      if target !in targets {
        targets := targets[target := []];
      }
      NothingMoved(was, target, if total < 0 then total else 0);
      AppendChunks(target, total, was);
      totals := totals - {target};
    }

    /** Chunk after chunk is appended to the target and unlinked. */
    method AppendChunks(target: string, total: int, ghost was: Disk)
      requires AllThere(was.chunks, target, total)
      requires Contents() == Moved(was, target, if total < 0 then total else 0)
      modifies this
      ensures Contents() == Moved(was, target, total)
    {
      var k := 1;
      while k <= total
        invariant k == 1 || 1 < k <= total + 1
        invariant Contents() == Moved(was, target, if total < 0 then total else k - 1)
      {
        NextMoved(was, target, k);
        var name := ChunkName(target, k);
        targets := targets[target := targets[target] + chunks[name]];
        chunks := chunks - {name};
        k := k + 1;
      }
    }

    method Poll() returns (result: Result<(bool, nat, nat), Error>)
      modifies this
      ensures Contents() == Polled(old(Contents()))
      ensures result.Err? <==> !old(info)
      ensures result.Ok? ==>
        && result.value.0 == !info
        && (result.value.0 <==> forall f | f in files :: f.target in targets)
        && (result.value.0 ==> chunks == map[] && totals == map[])
        && result.value.1 == SavedAmong(Contents(), |files|)
        && result.value.2 == |chunks|
    {
      if !info {
        return Err(NotAwaited);
      }
      ghost var was := Contents();
      for i := 0 to |files|
        invariant Contents() == PollFiles(was, i)
      {
        var target := files[i].target;
        if target in totals {
          var complete := IsComplete(target, totals[target]);
          if complete {
            Assemble(target);
          }
        }
      }
      var saved := 0;
      for i := 0 to |files|
        invariant saved == SavedAmong(Contents(), i) && Contents() == PollFiles(was, |was.files|)
      {
        if files[i].target in targets {
          saved := saved + 1;
        }
      }
      AllSavedByCount(Contents(), |files|);
      ghost var polled := Contents();
      if saved == |files| {
        info, chunks, totals := false, map[], map[];
        SavedStays(polled, Contents(), |files|);
      }
      result := Ok((saved == |files|, saved, |chunks|));
    }
  }

  lemma {:induction false} SavedStays(d: Disk, d': Disk, n: nat)
    requires n <= |d.files| && d.files == d'.files && d.targets == d'.targets
    ensures SavedAmong(d, n) == SavedAmong(d', n)
  {
    if n > 0 {
      SavedStays(d, d', n - 1);
    }
  }
}
