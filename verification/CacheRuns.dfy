/** What a `get` stores and returns in any run of several processes, said by the steps of the run
    (src/layman/cache/mem_redis.py). */
module CacheRuns {
  import opened Wrappers
  import opened MemRedisCache

  /** The current `get` of one process as the steps tell it: what memory held when it began, and for each of its rounds
      what Redis held, which string was at hand and what currently_changing answered. */
  datatype Story<V> = Story(mem: Option<MemEntry<V>>, rounds: seq<Round>)

  function InMemory<V>(s: State<V>, pid: nat): Option<MemEntry<V>> {
    if pid in s.mem then Some(s.mem[pid]) else None
  }

  function Next<V>(s: State<V>, step: Step, pid: nat, story: Story<V>): Story<V> {
    match step
    case Begin(q) => if q == pid && pid !in s.gets then Story(InMemory(s, pid), []) else story
    case LookAt(q, created, before, after) =>
      if q == pid && At(s, pid, Watching) then
        story.(rounds := story.rounds + [Round(s.redis, created, before, after, false)])
      else
        story
    case _ => story
  }

  function Tell<V(==)>(c: Codec<V>, s: State<V>, steps: seq<Step>, pid: nat, story: Story<V>): Story<V>
    decreases |steps|
  {
    if steps == [] then story
    else Tell(c, Apply(c, s, steps[0]), steps[1..], pid, Next(s, steps[0], pid, story))
  }

  function StoryOf<V(==)>(c: Codec<V>, redis: Option<Entry>, steps: seq<Step>, pid: nat): Story<V> {
    Tell(c, Fresh(redis), steps, pid, Story(None, []))
  }

  /** The locals of the `get` are what its rounds come to. */
  ghost predicate Matches<V>(c: Codec<V>, s: State<V>, pid: nat, story: Story<V>) {
    pid in s.gets ==>
      var g, h := s.gets[pid], Rounds(c, Start(story.mem), story.rounds);
      && g.(stage := Looked, watched := 0) == h.(stage := Looked, watched := 0)
      && (g.stage == Looked ==> story.rounds != [])
  }

  lemma PresentIgnoresWatched<V>(c: Codec<V>, g: Getting<V>, e: Entry)
    ensures LookPresent(c, g.(watched := 0), e) == LookPresent(c, g, e).(watched := 0)
    ensures LookPresent(c, g, e).stage == g.stage
  {}

  lemma MissingIgnoresWatched<V>(c: Codec<V>, g: Getting<V>, created: Option<string>, before: bool, after: bool)
    ensures LookMissing(c, g.(watched := 0), created, before, after)
         == LookMissing(c, g, created, before, after).(watched := 0)
    ensures LookMissing(c, g, created, before, after).stage == g.stage
  {}

  lemma LookEnters<V>(
      c: Codec<V>, g: Getting<V>, seen: Option<Entry>, created: Option<string>, before: bool, after: bool)
    ensures var h := Entering(g, seen);
      Look(c, g, seen, created, before, after)
      == if seen.Some? then LookPresent(c, h, seen.value) else LookMissing(c, h, created, before, after)
  {}

  lemma LookIgnoresStage<V>(
      c: Codec<V>, g: Getting<V>, h: Getting<V>, seen: Option<Entry>, created: Option<string>, before: bool,
      after: bool)
    requires g.(stage := Looked, watched := 0) == h.(stage := Looked, watched := 0)
    ensures Look(c, g, seen, created, before, after).(watched := 0)
         == Look(c, h, seen, created, before, after).(watched := 0)
    ensures Look(c, g, seen, created, before, after).stage == Looked == Look(c, h, seen, created, before, after).stage
  {
    LookEnters(c, g, seen, created, before, after);
    LookEnters(c, h, seen, created, before, after);
    SameEntering(g, h, seen);
    if seen.Some? {
      PresentIgnoresWatched(c, Entering(g, seen), seen.value);
      PresentIgnoresWatched(c, Entering(h, seen), seen.value);
    } else {
      MissingIgnoresWatched(c, Entering(g, seen), created, before, after);
      MissingIgnoresWatched(c, Entering(h, seen), created, before, after);
    }
  }

  lemma SameEntering<V>(g: Getting<V>, h: Getting<V>, seen: Option<Entry>)
    requires g.(stage := Looked, watched := 0) == h.(stage := Looked, watched := 0)
    ensures Entering(g, seen).(watched := 0) == Entering(h, seen).(watched := 0)
    ensures Entering(g, seen).stage == Looked == Entering(h, seen).stage
  {
    var a, b := g.(stage := Looked, watched := 0), h.(stage := Looked, watched := 0);
    assert Entering(g, seen).(watched := 0) == Entering(a, seen);
    assert Entering(h, seen).(watched := 0) == Entering(b, seen);
  }

  lemma LookMatches<V>(c: Codec<V>, s: State<V>, step: Step, pid: nat, story: Story<V>)
    requires Matches(c, s, pid, story) && step.LookAt? && step.pid == pid && At(s, pid, Watching)
    ensures Matches(c, Apply(c, s, step), pid, Next(s, step, pid, story))
  {
    var rounds := Next(s, step, pid, story).rounds;
    assert rounds[..|rounds| - 1] == story.rounds;
    LookIgnoresStage(c, s.gets[pid], Rounds(c, Start(story.mem), story.rounds), s.redis, step.created, step.before,
                     step.after);
  }

  lemma OtherMatches<V>(c: Codec<V>, s: State<V>, step: Step, pid: nat, story: Story<V>)
    requires Matches(c, s, pid, story) && !(step.LookAt? && step.pid == pid && At(s, pid, Watching))
    ensures Matches(c, Apply(c, s, step), pid, Next(s, step, pid, story))
  {}

  lemma {:induction false} TellMatches<V>(c: Codec<V>, s: State<V>, steps: seq<Step>, pid: nat, story: Story<V>)
    requires Matches(c, s, pid, story)
    ensures Matches(c, Run(c, s, steps), pid, Tell(c, s, steps, pid, story))
    decreases |steps|
  {
    if steps != [] {
      if steps[0].LookAt? && steps[0].pid == pid && At(s, pid, Watching) {
        LookMatches(c, s, steps[0], pid, story);
      } else {
        OtherMatches(c, s, steps[0], pid, story);
      }
      TellMatches(c, Apply(c, s, steps[0]), steps[1..], pid, Next(s, steps[0], pid, story));
    }
  }

  lemma StoryMatches<V>(c: Codec<V>, redis: Option<Entry>, steps: seq<Step>, pid: nat)
    requires HashedEntry(c, redis)
    ensures Matches(c, Run(c, Fresh(redis), steps), pid, StoryOf(c, redis, steps, pid))
    ensures Consistent(c, Strings(redis, steps), Run(c, Fresh(redis), steps))
  {
    TellMatches(c, Fresh(redis), steps, pid, Story(None, []));
    RunIsConsistent(c, redis, steps);
  }

  /** The locals at EXEC, from the rounds. */
  lemma AtCommit<V>(c: Codec<V>, redis: Option<Entry>, steps: seq<Step>, pid: nat)
    requires HashedEntry(c, redis) && Commits(Run(c, Fresh(redis), steps), pid)
    ensures var s, story := Run(c, Fresh(redis), steps), StoryOf(c, redis, steps, pid);
      var g := s.gets[pid];
      && story.rounds != [] && story.rounds[|story.rounds| - 1].seen == s.redis
      && (g.cacheResults <==> !Disturbed(story.rounds))
      && ComesTo(c, story.mem, story.rounds, g.found, g.source)
      && g.transaction == (var last := story.rounds[|story.rounds| - 1];
           if last.seen == None && last.created.Some? && !Disturbed(story.rounds)
           then Some(Entry(c.hash(last.created.value), last.created.value)) else None)
      && (s.redis == None ==> g.refresh)
  {
    StoryMatches(c, redis, steps, pid);
    var s, story := Run(c, Fresh(redis), steps), StoryOf(c, redis, steps, pid);
    assert GetFine(c, Strings(redis, steps), s, s.gets[pid]);
    RoundsCache(c, story.mem, story.rounds);
    RoundsComeTo(c, story.mem, story.rounds);
    LastRound(c, story.mem, story.rounds);
  }

  /** In any run: if in some round of the `get` that found no key currently_changing answered yes, before the string was
      created or after, its EXEC stores nothing in Redis and leaves no memory entry. */
  lemma ChangeLeavesNothing<V>(c: Codec<V>, redis: Option<Entry>, steps: seq<Step>, pid: nat)
    requires HashedEntry(c, redis) && Commits(Run(c, Fresh(redis), steps), pid)
    requires Disturbed(StoryOf(c, redis, steps, pid).rounds)
    ensures var s := Run(c, Fresh(redis), steps);
      var s' := Apply(c, s, Commit(pid));
      && s'.redis == s.redis && s'.version == s.version && pid !in s'.mem && pid !in s'.gets
      && forall q | q != pid :: InMemory(s', q) == InMemory(s, q)
  {
    AtCommit(c, redis, steps, pid);
  }

  /** And if it never answered yes, a string created in the last round is in Redis and in memory after the EXEC. */
  lemma CreatedIsStoredTwice<V>(c: Codec<V>, redis: Option<Entry>, steps: seq<Step>, pid: nat)
    requires HashedEntry(c, redis) && Commits(Run(c, Fresh(redis), steps), pid)
    requires var rounds := StoryOf(c, redis, steps, pid).rounds;
      && !Disturbed(rounds)
      && rounds != [] && rounds[|rounds| - 1].seen == None && rounds[|rounds| - 1].created.Some?
    ensures var s := Run(c, Fresh(redis), steps);
      var s' := Apply(c, s, Commit(pid));
      var rounds := StoryOf(c, redis, steps, pid).rounds;
      var made := rounds[|rounds| - 1].created.value;
      && s'.redis == Some(Entry(c.hash(made), made)) && s'.version != s.version
      && InMemory(s', pid) == Some(MemEntry(c.hash(made), c.decode(made)))
  {
    AtCommit(c, redis, steps, pid);
    var s, story := Run(c, Fresh(redis), steps), StoryOf(c, redis, steps, pid);
    StoryMatches(c, redis, steps, pid);
    CreatedIsValue(c, story.mem, story.rounds);
  }

  /** Otherwise Redis stays as it is; an undisturbed `get` that found a key in the last round stores nothing there. */
  lemma FoundStoresNothing<V>(c: Codec<V>, redis: Option<Entry>, steps: seq<Step>, pid: nat)
    requires HashedEntry(c, redis) && Commits(Run(c, Fresh(redis), steps), pid)
    requires var rounds := StoryOf(c, redis, steps, pid).rounds;
      rounds != [] && (rounds[|rounds| - 1].seen.Some? || rounds[|rounds| - 1].created == None)
    ensures var s := Run(c, Fresh(redis), steps);
      Apply(c, s, Commit(pid)).redis == s.redis && Apply(c, s, Commit(pid)).version == s.version
  {
    AtCommit(c, redis, steps, pid);
  }

  /** The value that is returned is that of the last round with one of its own, else the first string found in Redis. */
  lemma ValueOfRun<V>(c: Codec<V>, redis: Option<Entry>, steps: seq<Step>, pid: nat)
    requires HashedEntry(c, redis) && Commits(Run(c, Fresh(redis), steps), pid)
    ensures var s, story := Run(c, Fresh(redis), steps), StoryOf(c, redis, steps, pid);
      exists source :: ComesTo(c, story.mem, story.rounds, s.gets[pid].found, source)
  {
    AtCommit(c, redis, steps, pid);
  }

  function Earlier<V>(story: Story<V>): seq<Round> {
    if story.rounds == [] then [] else story.rounds[..|story.rounds| - 1]
  }

  /** A string that an earlier round has left: created, hit in memory, or found first. */
  ghost predicate Left<V(!new)>(c: Codec<V>, story: Story<V>, source: Option<string>) {
    story.rounds != [] && exists value :: ComesTo(c, story.mem, Earlier(story), value, source)
  }

  /** Over all runs, with a hash that is injective on their strings: what the `get` gives is what Redis holds after its
      EXEC, or else what it created, exactly when memory holds what Redis does in the last round, or a string is created
      there, or no earlier round has left one, or the one left is the string in Redis. */
  lemma GetIsCurrent<V(!new)>(c: Codec<V>, redis: Option<Entry>, steps: seq<Step>, pid: nat, left: Option<string>)
    requires HashedEntry(c, redis) && InjectiveOn(c.hash, Strings(redis, steps))
    requires Commits(Run(c, Fresh(redis), steps), pid) && Left(c, StoryOf(c, redis, steps, pid), left)
    ensures var s, story := Run(c, Fresh(redis), steps), StoryOf(c, redis, steps, pid);
      var last := story.rounds[|story.rounds| - 1];
      s.gets[pid].found == Current(c, Apply(c, s, Commit(pid)).redis, if last.seen == None then last.created else None)
      <==> Decisive(story.mem, last) || left == None || (s.redis.Some? && left == Some(s.redis.value.value))
  {
    MemRedisCache.GetIsCurrent(c, redis, steps, pid);
    StoryMatches(c, redis, steps, pid);
    AtCommit(c, redis, steps, pid);
    var story := StoryOf(c, redis, steps, pid);
    LastRound(c, story.mem, story.rounds);
    RoundsComeTo(c, story.mem, Earlier(story));
    var value :| ComesTo(c, story.mem, Earlier(story), value, left);
    var earlier := Rounds(c, Start(story.mem), Earlier(story));
    OneSource(c, story.mem, Earlier(story), value, left, earlier.found, earlier.source);
  }

  lemma OneSource<V>(c: Codec<V>, mem: Option<MemEntry<V>>, rounds: seq<Round>, value: Option<MemEntry<V>>,
                     source: Option<string>, value': Option<MemEntry<V>>, source': Option<string>)
    requires ComesTo(c, mem, rounds, value, source) && ComesTo(c, mem, rounds, value', source')
    ensures value == value' && source == source'
  {
    if i, j :| IsLastDecisive(mem, rounds, i) && IsLastDecisive(mem, rounds, j) && i != j {
      assert false;
    }
    if i, j :| IsFirstFound(mem, rounds, i) && IsFirstFound(mem, rounds, j) && i != j {
      assert false;
    }
    if i :| IsLastDecisive(mem, rounds, i) {
      assert !NothingFound(rounds);
    }
    if i :| IsFirstFound(mem, rounds, i) {
      assert !NothingFound(rounds);
    }
  }

  /** An EXEC that comes after a change of the key stores nothing, and the `get` goes back to WATCH with what it has. */
  lemma LateExecStoresNothing<V>(c: Codec<V>, s: State<V>, pid: nat)
    requires At(s, pid, Looked) && s.gets[pid].watched != s.version
    ensures var s' := Apply(c, s, Commit(pid));
      && s'.redis == s.redis && s'.version == s.version && s'.mem == s.mem
      && pid in s'.gets && s'.gets[pid].stage == Entered
      && s'.gets[pid].mem == s.gets[pid].mem && s'.gets[pid].found == s.gets[pid].found
      && s'.gets[pid].cacheResults == s.gets[pid].cacheResults
  {}

  /** An undisturbed `get` leaves its value in memory, or leaves memory alone if that is where the value came from. */
  lemma ValueIsRemembered<V>(c: Codec<V>, redis: Option<Entry>, steps: seq<Step>, pid: nat)
    requires HashedEntry(c, redis) && Commits(Run(c, Fresh(redis), steps), pid)
    requires !Disturbed(StoryOf(c, redis, steps, pid).rounds)
    ensures var s, story := Run(c, Fresh(redis), steps), StoryOf(c, redis, steps, pid);
      var found, after := s.gets[pid].found, InMemory(Apply(c, s, Commit(pid)), pid);
      && (found == None ==> after == None)
      && (found.Some? && found != story.mem ==> after == found)
      && (found.Some? && found == story.mem ==> after == found || after == InMemory(s, pid))
  {
    AtCommit(c, redis, steps, pid);
    StoryMatches(c, redis, steps, pid);
    var story := StoryOf(c, redis, steps, pid);
    RoundsCache(c, story.mem, story.rounds);
  }
}
