/** The two-level cache of one key: the memory of each process in front of Redis (src/layman/cache/mem_redis.py).

    `version` changes with every change of the Redis key, which is what WATCH observes. A process runs one `get`
    at a time; the Redis key may change, vanish or expire between any two steps. */
module MemRedisCache {
  import opened Wrappers

  datatype Codec<!V> = Codec(hash: string -> string, decode: string -> V)

  datatype Entry = Entry(hash: string, value: string)

  datatype MemEntry<V> = MemEntry(hash: string, value: V)

  datatype Stage = Entered | Watching | Looked

  /** The local variables of a `get`, and a record of its last round that the program does not keep: whether some
      call of currently_changing returned true, what Redis held, which string was created, whether memory hit, which
      string had been kept from earlier rounds (`kept`) and which one the value stands for now (`source`). */
  datatype Getting<V> = Getting(
    mem: Option<MemEntry<V>>,
    found: Option<MemEntry<V>>,
    refresh: bool,
    cacheResults: bool,
    stage: Stage,
    watched: nat,
    transaction: Option<Entry>,
    sawChange: bool,
    seen: Option<Entry>,
    created: Option<string>,
    hit: bool,
    kept: Option<string>,
    source: Option<string>)

  datatype State<V> = State(redis: Option<Entry>, version: nat, mem: map<nat, MemEntry<V>>, gets: map<nat, Getting<V>>)

  function Start<V>(mem: Option<MemEntry<V>>): Getting<V> {
    Getting(mem, None, false, true, Entered, 0, None, false, None, None, false, None, None)
  }

  function Decoded<V>(c: Codec<V>, s: string): MemEntry<V> {
    MemEntry(c.hash(s), c.decode(s))
  }

  /** The key is there: memory is used if its hash is the one in Redis, else the string is decoded unless an earlier
      round has left a value; `value` is not reset on a retry. */
  function LookPresent<V>(c: Codec<V>, g: Getting<V>, e: Entry): Getting<V> {
    var hit := g.mem.Some? && g.mem.value.hash == e.hash;
    var g' := if hit then g.(found := g.mem, hit := true, source := Some(e.value)) else g;
    if g'.found == None then
      g'.(refresh := true, found := Some(MemEntry(e.hash, c.decode(e.value))), source := Some(e.value))
    else
      g'
  }

  /** The key is missing: a string is created, and stored unless a change is going on before or after. */
  function LookMissing<V>(c: Codec<V>, g: Getting<V>, created: Option<string>, before: bool, after: bool): Getting<V> {
    var first := g.(refresh := true, sawChange := g.sawChange || (g.cacheResults && before),
                    cacheResults := g.cacheResults && !before);
    if created == None then
      first
    else
      var s := created.value;
      var made := first.(found := Some(Decoded(c, s)), created := created, source := created,
                         sawChange := first.sawChange || (first.cacheResults && after),
                         cacheResults := first.cacheResults && !after);
      if made.cacheResults then made.(transaction := Some(Entry(c.hash(s), s))) else made
  }

  /** One round between WATCH and EXEC. */
  function Look<V>(c: Codec<V>, g: Getting<V>, seen: Option<Entry>, created: Option<string>, before: bool, after: bool)
    : Getting<V>
  {
    var g := g.(stage := Looked, seen := seen, transaction := None, created := None, hit := false, kept := g.source);
    if seen.Some? then LookPresent(c, g, seen.value) else LookMissing(c, g, created, before, after)
  }

  /** The memory entry after a committed `get`, when `current` is what memory holds at that time. */
  function MemAfter<V(==)>(g: Getting<V>, current: Option<MemEntry<V>>): Option<MemEntry<V>> {
    if g.found == None || !g.cacheResults then None
    else if g.refresh || g.found != g.mem then g.found
    else current
  }

  datatype Step =
    | Begin(pid: nat)
    | Watch(pid: nat)
    | LookAt(pid: nat, created: Option<string>, before: bool, after: bool)
    | Commit(pid: nat)
    | DeleteKey
    | ForgetMemory(pid: nat)

  predicate At<V>(s: State<V>, pid: nat, stage: Stage) {
    pid in s.gets && s.gets[pid].stage == stage
  }

  function Finish<V(==)>(s: State<V>, pid: nat): State<V>
    requires pid in s.gets
  {
    var g := s.gets[pid];
    var mem := MemAfter(g, if pid in s.mem then Some(s.mem[pid]) else None);
    State(if g.transaction.Some? then g.transaction else s.redis,
          if g.transaction.Some? then s.version + 1 else s.version,
          if mem == None then s.mem - {pid} else s.mem[pid := mem.value],
          s.gets - {pid})
  }

  /** A step that is not possible changes nothing; an EXEC after a change of the key sends the `get` back. */
  function Apply<V(==)>(c: Codec<V>, s: State<V>, step: Step): State<V> {
    match step
    case Begin(pid) =>
      if pid in s.gets then s
      else s.(gets := s.gets[pid := Start(if pid in s.mem then Some(s.mem[pid]) else None)])
    case Watch(pid) =>
      if !At(s, pid, Entered) then s
      else s.(gets := s.gets[pid := s.gets[pid].(stage := Watching, watched := s.version)])
    case LookAt(pid, created, before, after) =>
      if !At(s, pid, Watching) then s
      else s.(gets := s.gets[pid := Look(c, s.gets[pid], s.redis, created, before, after)])
    case Commit(pid) =>
      if !At(s, pid, Looked) then s
      else if s.gets[pid].watched == s.version then Finish(s, pid)
      else s.(gets := s.gets[pid := s.gets[pid].(stage := Entered)])
    case DeleteKey => s.(redis := None, version := s.version + 1)
    case ForgetMemory(pid) => s.(mem := s.mem - {pid})
  }

  function Run<V(==)>(c: Codec<V>, s: State<V>, steps: seq<Step>): State<V>
    decreases |steps|
  {
    if steps == [] then s else Run(c, Apply(c, s, steps[0]), steps[1..])
  }

  /* ---- what every run keeps ---- */

  /** The strings of a run: what Redis holds at first and whatever is created on the way. */
  ghost function Strings(redis: Option<Entry>, steps: seq<Step>): set<string> {
    (if redis.Some? then {redis.value.value} else {})
    + set i | 0 <= i < |steps| && steps[i].LookAt? && steps[i].created.Some? :: steps[i].created.value
  }

  predicate StepWithin(all: set<string>, step: Step) {
    step.LookAt? && step.created.Some? ==> step.created.value in all
  }

  predicate InjectiveOn(hash: string -> string, all: set<string>) {
    forall a, b | a in all && b in all :: hash(a) == hash(b) ==> a == b
  }

  ghost predicate Pairs<V>(c: Codec<V>, all: set<string>, m: MemEntry<V>) {
    exists s :: s in all && c.hash(s) == m.hash && c.decode(s) == m.value
  }

  ghost predicate PairsIfAny<V>(c: Codec<V>, all: set<string>, m: Option<MemEntry<V>>) {
    m.Some? ==> Pairs(c, all, m.value)
  }

  predicate Hashed<V>(c: Codec<V>, all: set<string>, e: Option<Entry>) {
    e.Some? ==> e.value.value in all && e.value.hash == c.hash(e.value.value)
  }

  /** What a round leaves behind, in terms of what it saw. */
  ghost predicate Shaped<V>(c: Codec<V>, all: set<string>, g: Getting<V>) {
    && (g.kept.Some? ==> g.kept.value in all) && (g.source.Some? ==> g.source.value in all)
    && (g.seen.Some? ==> g.created == None && g.transaction == None)
    && (g.hit ==> g.seen.Some? && g.mem.Some? && g.mem.value.hash == g.seen.value.hash && g.found == g.mem)
    && (g.transaction.Some? ==>
          g.created.Some? && g.transaction == Some(Entry(c.hash(g.created.value), g.created.value)))
    && (g.stage == Looked ==>
          g.source == if g.hit || (g.seen.Some? && g.kept == None) then Some(g.seen.value.value)
                      else if g.created.Some? then g.created
                      else g.kept)
  }

  ghost predicate GetFine<V>(c: Codec<V>, all: set<string>, s: State<V>, g: Getting<V>) {
    && PairsIfAny(c, all, g.mem) && PairsIfAny(c, all, g.found)
    && (g.cacheResults <==> !g.sawChange)
    && g.watched <= s.version
    && (g.transaction.Some? ==> !g.sawChange && g.refresh)
    && (g.stage == Looked && g.watched == s.version ==> g.seen == s.redis)
    && (g.created.Some? ==> g.found == Some(Decoded(c, g.created.value)))
    && (g.found == None <==> g.source == None)
    && Shaped(c, all, g)
  }

  /** With an injective hash the value is the decoding of its source. */
  predicate Sourced<V(==)>(c: Codec<V>, g: Getting<V>) {
    g.source.Some? ==> g.found == Some(Decoded(c, g.source.value))
  }

  ghost predicate Consistent<V>(c: Codec<V>, all: set<string>, s: State<V>) {
    && Hashed(c, all, s.redis)
    && (forall pid | pid in s.mem :: Pairs(c, all, s.mem[pid]))
    && (forall pid | pid in s.gets :: GetFine(c, all, s, s.gets[pid]))
    && (InjectiveOn(c.hash, all) ==> forall pid | pid in s.gets :: Sourced(c, s.gets[pid]))
  }

  lemma DecodedPairs<V>(c: Codec<V>, all: set<string>, s: string)
    requires s in all
    ensures Pairs(c, all, Decoded(c, s))
  {}

  lemma LookKeeps<V>(
      c: Codec<V>, all: set<string>, s: State<V>, g: Getting<V>, created: Option<string>, before: bool, after: bool)
    requires Hashed(c, all, s.redis) && GetFine(c, all, s, g) && (created.Some? ==> created.value in all)
    ensures GetFine(c, all, s, Look(c, g, s.redis, created, before, after))
  {
    if s.redis.Some? {
      DecodedPairs(c, all, s.redis.value.value);
    } else if created.Some? {
      DecodedPairs(c, all, created.value);
    }
  }

  /** Two strings of the run with one hash are one string. */
  lemma HitIsDecoded<V>(c: Codec<V>, all: set<string>, m: MemEntry<V>, e: Entry)
    requires InjectiveOn(c.hash, all) && Pairs(c, all, m) && Hashed(c, all, Some(e)) && m.hash == e.hash
    ensures m == Decoded(c, e.value)
  {
    var v :| v in all && c.hash(v) == m.hash && c.decode(v) == m.value;
    assert v == e.value;
  }

  lemma LookIsSourced<V>(
      c: Codec<V>, all: set<string>, s: State<V>, g: Getting<V>, created: Option<string>, before: bool, after: bool)
    requires InjectiveOn(c.hash, all) && Hashed(c, all, s.redis) && GetFine(c, all, s, g) && Sourced(c, g)
    ensures Sourced(c, Look(c, g, s.redis, created, before, after))
  {
    if s.redis.Some? && g.mem.Some? && g.mem.value.hash == s.redis.value.hash {
      HitIsDecoded(c, all, g.mem.value, s.redis.value);
    }
  }

  lemma LookAtKeeps<V>(c: Codec<V>, all: set<string>, s: State<V>, step: Step)
    requires Consistent(c, all, s) && StepWithin(all, step) && step.LookAt?
    ensures Consistent(c, all, Apply(c, s, step))
  {
    if At(s, step.pid, Watching) {
      var g := s.gets[step.pid];
      LookKeeps(c, all, s, g, step.created, step.before, step.after);
      if InjectiveOn(c.hash, all) {
        LookIsSourced(c, all, s, g, step.created, step.before, step.after);
      }
    }
  }

  lemma CommitKeeps<V>(c: Codec<V>, all: set<string>, s: State<V>, pid: nat)
    requires Consistent(c, all, s)
    ensures Consistent(c, all, Apply(c, s, Commit(pid)))
  {
    if At(s, pid, Looked) {
      assert GetFine(c, all, s, s.gets[pid]);
    }
  }

  lemma ApplyKeeps<V>(c: Codec<V>, all: set<string>, s: State<V>, step: Step)
    requires Consistent(c, all, s) && StepWithin(all, step)
    ensures Consistent(c, all, Apply(c, s, step))
  {
    match step
    case Begin(pid) =>
    case Watch(pid) =>
    case LookAt(_, _, _, _) => LookAtKeeps(c, all, s, step);
    case Commit(pid) => CommitKeeps(c, all, s, pid);
    case DeleteKey =>
    case ForgetMemory(pid) =>
  }

  lemma {:induction false} RunKeeps<V>(c: Codec<V>, all: set<string>, s: State<V>, steps: seq<Step>)
    requires Consistent(c, all, s) && forall i | 0 <= i < |steps| :: StepWithin(all, steps[i])
    ensures Consistent(c, all, Run(c, s, steps))
    decreases |steps|
  {
    if steps != [] {
      ApplyKeeps(c, all, s, steps[0]);
      RunKeeps(c, all, Apply(c, s, steps[0]), steps[1..]);
    }
  }

  predicate Commits<V>(s: State<V>, pid: nat) {
    At(s, pid, Looked) && s.gets[pid].watched == s.version
  }

  /** No process has anything in memory yet; Redis may hold a string from before. */
  function Fresh<V>(redis: Option<Entry>): State<V> {
    State(redis, 0, map[], map[])
  }

  predicate HashedEntry<V>(c: Codec<V>, e: Option<Entry>) {
    e.Some? ==> e.value.hash == c.hash(e.value.value)
  }

  lemma RunIsConsistent<V>(c: Codec<V>, redis: Option<Entry>, steps: seq<Step>)
    requires HashedEntry(c, redis)
    ensures Consistent(c, Strings(redis, steps), Run(c, Fresh(redis), steps))
  {
    var all := Strings(redis, steps);
    forall i | 0 <= i < |steps| ensures StepWithin(all, steps[i]) {
      if steps[i].LookAt? && steps[i].created.Some? {
        assert steps[i].created.value in all;
      }
    }
    RunKeeps(c, all, Fresh(redis), steps);
  }

  /* ---- what every run shows ---- */

  /** In every run a memory entry pairs a hash with the decoding of a string of the run that has this hash. */
  lemma MemoryIsPaired<V>(c: Codec<V>, redis: Option<Entry>, steps: seq<Step>, pid: nat)
    requires HashedEntry(c, redis)
    ensures var s := Run(c, Fresh(redis), steps);
      pid in s.mem ==>
        exists v :: v in Strings(redis, steps) && c.hash(v) == s.mem[pid].hash && c.decode(v) == s.mem[pid].value
  {
    RunIsConsistent(c, redis, steps);
  }

  /** With a hash that is injective on the strings of the run, a memory hit that commits is the decoding of the string
      that Redis holds at that moment. */
  lemma MemoryHitIsCurrent<V>(c: Codec<V>, redis: Option<Entry>, steps: seq<Step>, pid: nat)
    requires HashedEntry(c, redis) && InjectiveOn(c.hash, Strings(redis, steps))
    requires var s := Run(c, Fresh(redis), steps); Commits(s, pid) && s.gets[pid].hit
    ensures var s := Run(c, Fresh(redis), steps);
      s.redis.Some? && s.gets[pid].found == Some(Decoded(c, s.redis.value.value))
  {
    RunIsConsistent(c, redis, steps);
    var s := Run(c, Fresh(redis), steps);
    assert GetFine(c, Strings(redis, steps), s, s.gets[pid]) && Sourced(c, s.gets[pid]);
  }

  /** What a `get` that has committed ought to give: the decoding of what Redis holds now, else of the string that was
      created but not stored, else nothing. */
  function Current<V>(c: Codec<V>, redis: Option<Entry>, created: Option<string>): Option<MemEntry<V>> {
    if redis.Some? then Some(Decoded(c, redis.value.value))
    else if created.Some? then Some(Decoded(c, created.value))
    else None
  }

  /** Over all runs: the value is current exactly when memory hits, or no earlier round left a value, or a new string
      was created, or the string kept from an earlier round is the one in Redis. */
  lemma GetIsCurrent<V>(c: Codec<V>, redis: Option<Entry>, steps: seq<Step>, pid: nat)
    requires HashedEntry(c, redis) && InjectiveOn(c.hash, Strings(redis, steps))
    requires Commits(Run(c, Fresh(redis), steps), pid)
    ensures var s := Run(c, Fresh(redis), steps);
      var g := s.gets[pid];
      g.found == Current(c, Apply(c, s, Commit(pid)).redis, g.created)
      <==> g.hit || g.kept == None || g.created.Some? || (s.redis.Some? && g.kept == Some(s.redis.value.value))
  {
    var all := Strings(redis, steps);
    RunIsConsistent(c, redis, steps);
    var s := Run(c, Fresh(redis), steps);
    var g := s.gets[pid];
    assert GetFine(c, all, s, g) && Sourced(c, g) && Hashed(c, all, s.redis);
    if g.source.Some? && s.redis.Some? {
      assert c.hash(g.source.value) == c.hash(s.redis.value.value) ==> g.source.value == s.redis.value.value;
    }
  }

  lemma {:induction false} RunAppend<V>(c: Codec<V>, s: State<V>, a: seq<Step>, b: seq<Step>)
    ensures Run(c, s, a + b) == Run(c, Run(c, s, a), b)
    decreases |a|
  {
    if a == [] {
      assert a + b == b;
    } else {
      assert (a + b)[1..] == a[1..] + b;
      RunAppend(c, Apply(c, s, a[0]), a[1..], b);
    }
  }

  /** One undisturbed attempt: WATCH, look and EXEC. */
  function Attempt(pid: nat, created: Option<string>): seq<Step> {
    [Watch(pid), LookAt(pid, created, false, false)]
  }

  lemma AttemptRuns<V>(c: Codec<V>, s: State<V>, pid: nat, created: Option<string>)
    requires At(s, pid, Entered)
    ensures Run(c, s, Attempt(pid, created)) ==
      s.(gets := s.gets[pid := Look(c, s.gets[pid].(watched := s.version), s.redis, created, false, false)])
  {
    var s1 := Apply(c, s, Watch(pid));
    assert Attempt(pid, created)[1..] == [LookAt(pid, created, false, false)];
    assert Run(c, s1, [LookAt(pid, created, false, false)]) == Apply(c, s1, LookAt(pid, created, false, false));
  }

  lemma One<V>(c: Codec<V>, s: State<V>, step: Step)
    ensures Run(c, s, [step]) == Apply(c, s, step)
  {
    assert [step][1..] == [];
  }

  /** Process 0 creates `mine` but process 1 stores `theirs` first; process 0 tries again. */
  function Race(mine: string, theirs: string): seq<Step> {
    [Begin(0)] + Attempt(0, Some(mine)) + [Begin(1)] + Attempt(1, Some(theirs)) + [Commit(1)] + [Commit(0)]
    + Attempt(0, None)
  }

  lemma RaceRuns<V>(c: Codec<V>, mine: string, theirs: string) returns (s: State<V>)
    ensures s == Run(c, Fresh(None), [Begin(0)] + Attempt(0, Some(mine)) + [Begin(1)] + Attempt(1, Some(theirs)))
    ensures s.redis == None && s.version == 0 && 0 in s.gets && 1 in s.gets && s.mem == map[]
    ensures s.gets[0] == Look(c, Start(None), None, Some(mine), false, false)
    ensures s.gets[1] == Look(c, Start(None), None, Some(theirs), false, false)
  {
    var s0: State<V> := Fresh(None);
    One(c, s0, Begin(0));
    var s1 := Apply(c, s0, Begin(0));
    AttemptRuns(c, s1, 0, Some(mine));
    RunAppend(c, s0, [Begin(0)], Attempt(0, Some(mine)));
    var s2 := Run(c, s1, Attempt(0, Some(mine)));
    One(c, s2, Begin(1));
    RunAppend(c, s0, [Begin(0)] + Attempt(0, Some(mine)), [Begin(1)]);
    var s3 := Apply(c, s2, Begin(1));
    AttemptRuns(c, s3, 1, Some(theirs));
    RunAppend(c, s0, [Begin(0)] + Attempt(0, Some(mine)) + [Begin(1)], Attempt(1, Some(theirs)));
    s := Run(c, s3, Attempt(1, Some(theirs)));
  }

  lemma RaceEnds<V>(c: Codec<V>, mine: string, theirs: string)
    ensures var s := Run(c, Fresh(None), Race(mine, theirs));
      && Commits(s, 0) && s.redis == Some(Entry(c.hash(theirs), theirs))
      && s.gets[0].found == Some(Decoded(c, mine)) && s.gets[0].cacheResults && s.gets[0].refresh
      && s.gets[0].transaction == None
  {
    var s0: State<V> := Fresh(None);
    var begun := [Begin(0)] + Attempt(0, Some(mine)) + [Begin(1)] + Attempt(1, Some(theirs));
    var s4 := RaceRuns(c, mine, theirs);
    One(c, s4, Commit(1));
    RunAppend(c, s0, begun, [Commit(1)]);
    var s5 := Apply(c, s4, Commit(1));
    assert s5.redis == Some(Entry(c.hash(theirs), theirs)) && s5.version == 1 && s5.gets[0] == s4.gets[0];
    One(c, s5, Commit(0));
    RunAppend(c, s0, begun + [Commit(1)], [Commit(0)]);
    var s6 := Apply(c, s5, Commit(0));
    AttemptRuns(c, s6, 0, None);
    RunAppend(c, s0, begun + [Commit(1)] + [Commit(0)], Attempt(0, None));
  }

  /** A `get` that creates a string, loses the race and looks again returns and remembers its own string although
      Redis holds another one. */
  lemma StaleAfterRetry<V>(c: Codec<V>, mine: string, theirs: string)
    requires c.hash(mine) != c.hash(theirs)
    ensures var s := Run(c, Fresh(None), Race(mine, theirs));
      var s' := Apply(c, s, Commit(0));
      && Commits(s, 0) && s'.redis == Some(Entry(c.hash(theirs), theirs))
      && s.gets[0].found == Some(Decoded(c, mine)) && s.gets[0].found != Some(Decoded(c, theirs))
      && 0 in s'.mem && s'.mem[0] == Decoded(c, mine)
  {
    RaceEnds(c, mine, theirs);
  }

  /** Process 0 reads the string, the key is deleted, and in the second round there is none and none is created. */
  function Vanishing(): seq<Step> {
    [Begin(0)] + Attempt(0, None) + [DeleteKey] + [Commit(0)] + Attempt(0, None)
  }

  /** Then it returns and remembers the deleted string although Redis holds nothing. */
  lemma StaleAfterDelete<V>(c: Codec<V>, v: string)
    ensures var s := Run(c, Fresh(Some(Entry(c.hash(v), v))), Vanishing());
      var s' := Apply(c, s, Commit(0));
      && Commits(s, 0) && s'.redis == None && s.gets[0].created == None
      && s.gets[0].found == Some(Decoded(c, v)) && 0 in s'.mem && s'.mem[0] == Decoded(c, v)
  {
    var s0: State<V> := Fresh(Some(Entry(c.hash(v), v)));
    One(c, s0, Begin(0));
    var s1 := Apply(c, s0, Begin(0));
    AttemptRuns(c, s1, 0, None);
    RunAppend(c, s0, [Begin(0)], Attempt(0, None));
    var s2 := Run(c, s1, Attempt(0, None));
    One(c, s2, DeleteKey);
    RunAppend(c, s0, [Begin(0)] + Attempt(0, None), [DeleteKey]);
    var s3 := Apply(c, s2, DeleteKey);
    One(c, s3, Commit(0));
    RunAppend(c, s0, [Begin(0)] + Attempt(0, None) + [DeleteKey], [Commit(0)]);
    var s4 := Apply(c, s3, Commit(0));
    AttemptRuns(c, s4, 0, None);
    RunAppend(c, s0, [Begin(0)] + Attempt(0, None) + [DeleteKey] + [Commit(0)], Attempt(0, None));
  }

  /* ---- the retry loop of one process ---- */

  /** What the outside world does in one round: the key as the round sees it, the string that would be created,
      the answers of currently_changing, and whether the EXEC comes in time. */
  datatype Round = Round(seen: Option<Entry>, created: Option<string>, before: bool, after: bool, inTime: bool)

  function Rounds<V>(c: Codec<V>, g: Getting<V>, rounds: seq<Round>): Getting<V>
    decreases |rounds|
  {
    if rounds == [] then
      g
    else
      var r := rounds[|rounds| - 1];
      Look(c, Rounds(c, g, rounds[..|rounds| - 1]), r.seen, r.created, r.before, r.after)
  }

  /* ---- what the rounds of a `get` come to, said by the rounds alone ---- */

  /** In some round that found no key, currently_changing answered yes before the string was created or after it. */
  predicate Disturbed(rounds: seq<Round>) {
    exists i | 0 <= i < |rounds| ::
      rounds[i].seen == None && (rounds[i].before || (rounds[i].created.Some? && rounds[i].after))
  }

  /** The round gives a value of its own: memory holds what Redis does, or a string is created. */
  predicate Decisive<V>(mem: Option<MemEntry<V>>, r: Round) {
    if r.seen.Some? then mem.Some? && mem.value.hash == r.seen.value.hash else r.created.Some?
  }

  function SourceOf(r: Round): string
    requires r.seen.Some? || r.created.Some?
  {
    if r.seen.Some? then r.seen.value.value else r.created.value
  }

  function ValueOf<V>(c: Codec<V>, mem: Option<MemEntry<V>>, r: Round): MemEntry<V>
    requires Decisive(mem, r)
  {
    if r.seen.Some? then mem.value else MemEntry(c.hash(r.created.value), c.decode(r.created.value))
  }

  /** Round i is the last that gives a value of its own. */
  predicate IsLastDecisive<V>(mem: Option<MemEntry<V>>, rounds: seq<Round>, i: int) {
    && 0 <= i < |rounds| && Decisive(mem, rounds[i])
    && forall j | i < j < |rounds| :: !Decisive(mem, rounds[j])
  }

  /** No round gives a value of its own, and round i is the first that finds a string in Redis. */
  predicate IsFirstFound<V>(mem: Option<MemEntry<V>>, rounds: seq<Round>, i: int) {
    && 0 <= i < |rounds| && rounds[i].seen.Some? && (forall j | 0 <= j < i :: rounds[j].seen == None)
    && forall j | 0 <= j < |rounds| :: !Decisive(mem, rounds[j])
  }

  predicate NothingFound(rounds: seq<Round>) {
    forall j | 0 <= j < |rounds| :: rounds[j].seen == None && rounds[j].created == None
  }

  /** The value, and the string that it stands for: of the last round that gives one of its own, else of the first
      string found in Redis, else none. */
  ghost predicate ComesTo<V>(c: Codec<V>, mem: Option<MemEntry<V>>, rounds: seq<Round>, value: Option<MemEntry<V>>,
                             source: Option<string>)
  {
    || (exists i :: IsLastDecisive(mem, rounds, i)
          && value == Some(ValueOf(c, mem, rounds[i])) && source == Some(SourceOf(rounds[i])))
    || (exists i :: IsFirstFound(mem, rounds, i)
          && value == Some(MemEntry(rounds[i].seen.value.hash, c.decode(rounds[i].seen.value.value)))
          && source == Some(SourceOf(rounds[i])))
    || (NothingFound(rounds) && value == None && source == None)
  }

  lemma {:induction false} RoundsCache<V>(c: Codec<V>, mem: Option<MemEntry<V>>, rounds: seq<Round>)
    ensures Rounds(c, Start(mem), rounds).cacheResults <==> !Disturbed(rounds)
    ensures Rounds(c, Start(mem), rounds).mem == mem
    decreases |rounds|
  {
    if rounds != [] {
      var n := |rounds| - 1;
      RoundsCache(c, mem, rounds[..n]);
      DisturbedByLast(rounds);
    }
  }

  lemma DisturbedByLast(rounds: seq<Round>)
    requires rounds != []
    ensures var n := |rounds| - 1; var r := rounds[n];
      Disturbed(rounds) <==>
        Disturbed(rounds[..n]) || (r.seen == None && (r.before || (r.created.Some? && r.after)))
  {
    var n := |rounds| - 1;
    if Disturbed(rounds[..n]) {
      var i :| 0 <= i < n && rounds[..n][i].seen == None
        && (rounds[..n][i].before || (rounds[..n][i].created.Some? && rounds[..n][i].after));
      assert rounds[i].seen == None;
    }
    if Disturbed(rounds) {
      var i :| 0 <= i < |rounds| && rounds[i].seen == None
        && (rounds[i].before || (rounds[i].created.Some? && rounds[i].after));
      if i < n {
        assert rounds[..n][i].seen == None;
      }
    }
  }

  lemma KeptOnes<V>(mem: Option<MemEntry<V>>, rounds: seq<Round>)
    requires rounds != [] && !Decisive(mem, rounds[|rounds| - 1])
    ensures forall i | IsLastDecisive(mem, rounds[..|rounds| - 1], i) :: IsLastDecisive(mem, rounds, i)
    ensures forall i | IsFirstFound(mem, rounds[..|rounds| - 1], i) :: IsFirstFound(mem, rounds, i)
    ensures NothingFound(rounds[..|rounds| - 1]) ==>
      if rounds[|rounds| - 1].seen == None then NothingFound(rounds) else IsFirstFound(mem, rounds, |rounds| - 1)
  {
    var n := |rounds| - 1;
    assert forall j | 0 <= j < n :: rounds[..n][j] == rounds[j];
  }

  lemma {:induction false} RoundsComeTo<V>(c: Codec<V>, mem: Option<MemEntry<V>>, rounds: seq<Round>)
    ensures var g := Rounds(c, Start(mem), rounds); ComesTo(c, mem, rounds, g.found, g.source)
    decreases |rounds|
  {
    if rounds == [] {
      assert NothingFound(rounds);
    } else {
      var n := |rounds| - 1;
      RoundsComeTo(c, mem, rounds[..n]);
      RoundsCache(c, mem, rounds[..n]);
      if Decisive(mem, rounds[n]) {
        assert IsLastDecisive(mem, rounds, n);
      } else {
        KeptOnes(mem, rounds);
        OneMoreRound(c, mem, rounds);
      }
    }
  }

  /** A round without a value of its own keeps the value, or decodes the string in Redis if there is none. */
  lemma OneMoreRound<V>(c: Codec<V>, mem: Option<MemEntry<V>>, rounds: seq<Round>)
    requires rounds != [] && !Decisive(mem, rounds[|rounds| - 1])
    requires var g := Rounds(c, Start(mem), rounds[..|rounds| - 1]);
      g.mem == mem && ComesTo(c, mem, rounds[..|rounds| - 1], g.found, g.source)
    ensures var g, g' := Rounds(c, Start(mem), rounds[..|rounds| - 1]), Rounds(c, Start(mem), rounds);
      if g.found.Some? || rounds[|rounds| - 1].seen == None then g'.found == g.found && g'.source == g.source
      else
        && NothingFound(rounds[..|rounds| - 1])
        && g'.source == Some(SourceOf(rounds[|rounds| - 1]))
        && g'.found == Some(MemEntry(rounds[|rounds| - 1].seen.value.hash,
                                     c.decode(rounds[|rounds| - 1].seen.value.value)))
  {}

  lemma CreatedIsValue<V>(c: Codec<V>, mem: Option<MemEntry<V>>, rounds: seq<Round>)
    requires rounds != []
    ensures var last := rounds[|rounds| - 1];
      last.seen == None && last.created.Some? ==>
        Rounds(c, Start(mem), rounds).found == Some(Decoded(c, last.created.value))
  {}

  /** What the last round leaves for EXEC, and what it recorded. */
  lemma LastRound<V>(c: Codec<V>, mem: Option<MemEntry<V>>, rounds: seq<Round>)
    requires rounds != []
    ensures var g := Rounds(c, Start(mem), rounds); var last := rounds[|rounds| - 1];
      && g.seen == last.seen && g.created == (if last.seen == None then last.created else None)
      && (g.hit <==> last.seen.Some? && Decisive(mem, last))
      && g.kept == Rounds(c, Start(mem), rounds[..|rounds| - 1]).source
      && g.transaction == (if last.seen == None && last.created.Some? && !Disturbed(rounds)
                           then Some(Entry(c.hash(last.created.value), last.created.value)) else None)
      && (last.seen == None ==> g.refresh)
  {
    RoundsCache(c, mem, rounds);
    RoundsCache(c, mem, rounds[..|rounds| - 1]);
  }

  /** The branch of a present key; `value` comes in as earlier rounds left it. */
  method FromRedis<V>(c: Codec<V>, ghost g: Getting<V>, e: Entry, mem: Option<MemEntry<V>>, before: Option<MemEntry<V>>,
                      mustRefresh: bool)
    returns (value: Option<MemEntry<V>>, refresh: bool)
    requires mem == g.mem && before == g.found && mustRefresh == g.refresh
    ensures value == LookPresent(c, g, e).found && refresh == LookPresent(c, g, e).refresh
  {
    value, refresh := before, mustRefresh;
    if mem.Some? && mem.value.hash == e.hash {
      value := mem;
    }
    if value.None? {
      refresh := true;
      value := Some(MemEntry(e.hash, c.decode(e.value)));
    }
  }

  /** The branch of a missing key. */
  method FromCreated<V>(c: Codec<V>, ghost g: Getting<V>, round: Round, before: Option<MemEntry<V>>, mayCache: bool)
    returns (value: Option<MemEntry<V>>, cacheResults: bool, transaction: Option<Entry>)
    requires before == g.found && mayCache == g.cacheResults && g.transaction == None
    ensures var g' := LookMissing(c, g, round.created, round.before, round.after);
      value == g'.found && cacheResults == g'.cacheResults && transaction == g'.transaction && g'.refresh
  {
    value, cacheResults, transaction := before, mayCache && !round.before, None;
    if round.created.Some? {
      var s := round.created.value;
      value := Some(MemEntry(c.hash(s), c.decode(s)));
      cacheResults := cacheResults && !round.after;
      if cacheResults {
        transaction := Some(Entry(c.hash(s), s));
      }
    }
  }

  /** The locals when a round begins. */
  ghost function Entering<V>(g: Getting<V>, seen: Option<Entry>): Getting<V> {
    g.(stage := Looked, seen := seen, transaction := None, created := None, hit := false, kept := g.source)
  }

  function After<V>(c: Codec<V>, g: Getting<V>, round: Round): Getting<V> {
    Look(c, g, round.seen, round.created, round.before, round.after)
  }

  lemma OneRound<V>(c: Codec<V>, g: Getting<V>, round: Round)
    ensures var h := Entering(g, round.seen);
      && After(c, g, round) == (if round.seen.Some? then LookPresent(c, h, round.seen.value)
                                else LookMissing(c, h, round.created, round.before, round.after))
      && After(c, g, round).mem == g.mem
      && (round.seen.Some? ==>
            After(c, g, round).cacheResults == g.cacheResults && After(c, g, round).transaction == None)
      && (round.seen == None ==> After(c, g, round).refresh)
  {}

  lemma NextRound<V>(c: Codec<V>, g: Getting<V>, rounds: seq<Round>, n: nat)
    requires n < |rounds|
    ensures Rounds(c, g, rounds[..n + 1]) == After(c, Rounds(c, g, rounds[..n]), rounds[n])
  {
    assert rounds[..n + 1][..n] == rounds[..n];
  }

  /** The locals of a `get` are those of `g`. */
  predicate Locals<V(==)>(g: Getting<V>, mem: Option<MemEntry<V>>, value: Option<MemEntry<V>>, cacheResults: bool,
                          refresh: bool)
  {
    mem == g.mem && value == g.found && cacheResults == g.cacheResults && refresh == g.refresh
  }

  method TryRound<V(==)>(c: Codec<V>, ghost g: Getting<V>, round: Round, mem: Option<MemEntry<V>>,
                         before: Option<MemEntry<V>>, mayCache: bool, mustRefresh: bool)
    returns (value: Option<MemEntry<V>>, cacheResults: bool, refresh: bool, transaction: Option<Entry>)
    requires Locals(g, mem, before, mayCache, mustRefresh)
    ensures Locals(After(c, g, round), mem, value, cacheResults, refresh)
    ensures transaction == After(c, g, round).transaction
  {
    OneRound(c, g, round);
    value, cacheResults, refresh, transaction := before, mayCache, true, None;
    if round.seen.Some? {
      value, refresh := FromRedis(c, Entering(g, round.seen), round.seen.value, mem, before, mustRefresh);
    } else {
      value, cacheResults, transaction := FromCreated(c, Entering(g, round.seen), round, before, mayCache);
    }
  }

  class Cache<V(==)> {
    var memory: Option<MemEntry<V>>
    var redis: Option<Entry>

    constructor ()
      ensures memory == None && redis == None
    {
      memory, redis := None, None;
    }

    method Get(c: Codec<V>, rounds: seq<Round>) returns (value: Option<MemEntry<V>>)
      requires rounds != [] && forall i | 0 <= i < |rounds| :: rounds[i].inTime <==> i == |rounds| - 1
      modifies this
      ensures var g := Rounds(c, Start(old(memory)), rounds);
        && value == g.found
        && redis == (if g.transaction.Some? then g.transaction else rounds[|rounds| - 1].seen)
        && memory == MemAfter(g, old(memory))
      ensures exists source :: ComesTo(c, old(memory), rounds, value, source)
      ensures Disturbed(rounds) ==> redis == rounds[|rounds| - 1].seen && memory == None
      ensures !Disturbed(rounds) ==> memory == value
      ensures var last := rounds[|rounds| - 1];
        if last.seen == None && last.created.Some? && !Disturbed(rounds)
        then
          && redis == Some(Entry(c.hash(last.created.value), last.created.value))
          && memory == Some(Decoded(c, last.created.value))
        else redis == last.seen
    {
      RoundsCache(c, memory, rounds);
      RoundsComeTo(c, memory, rounds);
      LastRound(c, memory, rounds);
      CreatedIsValue(c, memory, rounds);
      var mem := memory;
      var cacheResults, refresh := true, false;
      var transaction: Option<Entry> := None;
      value := None;
      var n := 0;
      var done := false;
      ghost var g := Start(mem);
      while !done
        invariant n <= |rounds| && (done <==> n == |rounds|) && memory == old(memory)
        invariant g == Rounds(c, Start(old(memory)), rounds[..n]) && Locals(g, mem, value, cacheResults, refresh)
        invariant done ==> transaction == g.transaction && redis == rounds[n - 1].seen
        decreases |rounds| - n
      {
        NextRound(c, Start(old(memory)), rounds, n);
        redis := rounds[n].seen;
        value, cacheResults, refresh, transaction := TryRound(c, g, rounds[n], mem, value, cacheResults, refresh);
        g := After(c, g, rounds[n]);
        n := n + 1;
        done := rounds[n - 1].inTime;
      }
      assert rounds[..|rounds|] == rounds;
      if transaction.Some? {
        redis := transaction;
      }
      if value.None? || !cacheResults {
        memory := None;
      } else if refresh || value != mem {
        memory := value;
      }
    }
  }
}
