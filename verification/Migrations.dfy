/** The migration runner (src/layman/upgrade/__init__.py). A migration is known by its release and its position in the
    list of that release. */
module Migrations {
  /** The stored version, also the number of one migration. */
  datatype Version = Version(major: int, minor: int, patch: int, migration: int)

  /** An entry of MIGRATIONS: the release and how many migrations its list holds. */
  datatype Release = Release(major: int, minor: int, patch: int, count: nat)

  predicate Less(a: Version, b: Version) {
    a.major < b.major || (a.major == b.major && (a.minor < b.minor || (a.minor == b.minor &&
    (a.patch < b.patch || (a.patch == b.patch && a.migration < b.migration)))))
  }

  predicate EarlierRelease(a: Release, b: Release) {
    Less(Version(a.major, a.minor, a.patch, 0), Version(b.major, b.minor, b.patch, 0))
  }

  predicate SameRelease(a: Release, b: Release) {
    a.major == b.major && a.minor == b.minor && a.patch == b.patch
  }

  function Numbered(r: Release, n: nat): seq<Version> {
    seq(n, i => Version(r.major, r.minor, r.patch, i))
  }

  /** Every migration, in the order of the lists. */
  function Listed(releases: seq<Release>): seq<Version> {
    if releases == [] then [] else Numbered(releases[0], releases[0].count) + Listed(releases[1..])
  }

  function MaxRelease(releases: seq<Release>): (m: Release)
    requires releases != []
    ensures m in releases
    ensures forall r | r in releases :: !EarlierRelease(m, r)
  {
    if |releases| == 1 then releases[0]
    else
      var m := MaxRelease(releases[1..]);
      assert forall r | r in releases :: r == releases[0] || r in releases[1..];
      if EarlierRelease(releases[0], m) then m else releases[0]
  }

  function MaxVersion(releases: seq<Release>): Version
    requires releases != []
  {
    var m := MaxRelease(releases);
    Version(m.major, m.minor, m.patch, m.count - 1)
  }

  function Newer(versions: seq<Version>, current: Version): (s: seq<Version>)
    ensures forall v :: v in s <==> v in versions && Less(current, v)
  {
    if versions == [] then []
    else if Less(current, versions[0]) then [versions[0]] + Newer(versions[1..], current)
    else Newer(versions[1..], current)
  }

  predicate Ordered(s: seq<Version>) {
    forall i, j | 0 <= i < j < |s| :: !Less(s[j], s[i])
  }

  predicate Increasing(s: seq<Version>) {
    forall i, j | 0 <= i < j < |s| :: Less(s[i], s[j])
  }

  function Inserted(v: Version, s: seq<Version>): (r: seq<Version>) {
    if s == [] || !Less(s[0], v) then [v] + s else [s[0]] + Inserted(v, s[1..])
  }

  lemma {:induction false} InsertedContents(v: Version, s: seq<Version>)
    ensures multiset(Inserted(v, s)) == multiset{v} + multiset(s)
  {
    if s != [] {
      InsertedContents(v, s[1..]);
      assert s == [s[0]] + s[1..];
    }
  }

  lemma {:induction false} InsertedOrdered(v: Version, s: seq<Version>)
    requires Ordered(s)
    ensures Ordered(Inserted(v, s))
  {
    if s != [] && Less(s[0], v) {
      InsertedOrdered(v, s[1..]);
      InsertedContents(v, s[1..]);
      var rest := Inserted(v, s[1..]);
      forall j | 0 <= j < |rest| ensures !Less(rest[j], s[0]) {
        assert rest[j] in multiset(rest);
        assert rest[j] == v || rest[j] in s[1..];
      }
    }
  }

  function Sorted(s: seq<Version>): (r: seq<Version>) {
    if s == [] then [] else Inserted(s[0], Sorted(s[1..]))
  }

  lemma {:induction false} SortedIsOrdered(s: seq<Version>)
    ensures Ordered(Sorted(s)) && multiset(Sorted(s)) == multiset(s)
  {
    if s != [] {
      SortedIsOrdered(s[1..]);
      InsertedOrdered(s[0], Sorted(s[1..]));
      InsertedContents(s[0], Sorted(s[1..]));
      assert s == [s[0]] + s[1..];
    }
  }

  function Pending(releases: seq<Release>, current: Version): seq<Version> {
    Sorted(Newer(Listed(releases), current))
  }

  predicate NoDuplicates(s: seq<Version>) {
    forall i, j | 0 <= i < j < |s| :: s[i] != s[j]
  }

  /** Releases are distinct and have at least one migration each. */
  predicate WellFormed(releases: seq<Release>) {
    && releases != []
    && (forall i, j | 0 <= i < j < |releases| :: !SameRelease(releases[i], releases[j]))
    && (forall r | r in releases :: r.count > 0)
  }

  /* ---- what is pending ---- */

  lemma {:induction false} ListedBelongs(releases: seq<Release>, v: Version)
    ensures v in Listed(releases) <==>
      exists r | r in releases :: v == Version(r.major, r.minor, r.patch, v.migration) && 0 <= v.migration < r.count
  {
    if releases != [] {
      ListedBelongs(releases[1..], v);
      var r := releases[0];
      assert releases == [r] + releases[1..];
      if v == Version(r.major, r.minor, r.patch, v.migration) && 0 <= v.migration < r.count {
        assert Numbered(r, r.count)[v.migration] == v;
      }
    }
  }

  lemma {:induction false} ListedDistinct(releases: seq<Release>)
    requires forall i, j | 0 <= i < j < |releases| :: !SameRelease(releases[i], releases[j])
    ensures NoDuplicates(Listed(releases))
  {
    if releases != [] {
      ListedDistinct(releases[1..]);
      var head, tail := Numbered(releases[0], releases[0].count), Listed(releases[1..]);
      forall v | v in tail ensures v !in head {
        ListedBelongs(releases[1..], v);
        var r :| r in releases[1..] && v == Version(r.major, r.minor, r.patch, v.migration);
        assert !SameRelease(releases[0], r);
      }
      forall i, j | 0 <= i < j < |head + tail| ensures (head + tail)[i] != (head + tail)[j] {
        if i < |head| <= j {
          assert tail[j - |head|] in tail;
        } else if j < |head| {
          assert head[i].migration == i && head[j].migration == j;
        }
      }
    }
  }

  lemma {:induction false} NewerDistinct(s: seq<Version>, current: Version)
    requires NoDuplicates(s)
    ensures NoDuplicates(Newer(s, current))
  {
    if s != [] {
      NewerDistinct(s[1..], current);
      assert s[0] !in s[1..];
    }
  }

  lemma CountsOfDistinct(s: seq<Version>, v: Version)
    requires NoDuplicates(s)
    ensures multiset(s)[v] <= 1
  {
    if s != [] {
      CountsOfDistinct(s[1..], v);
      assert s == [s[0]] + s[1..];
      assert s[0] !in s[1..];
      assert v == s[0] ==> v !in multiset(s[1..]);
    }
  }

  lemma RepeatIsCounted(s: seq<Version>, i: nat, j: nat)
    requires i < j < |s| && s[i] == s[j]
    ensures multiset(s)[s[i]] >= 2
  {
    assert s == s[..j] + s[j..];
    assert s[..j][i] in s[..j] && s[j..][0] in s[j..];
    assert multiset(s) == multiset(s[..j]) + multiset(s[j..]);
  }

  lemma OrderedOnceIncreases(s: seq<Version>)
    requires Ordered(s) && forall v :: multiset(s)[v] <= 1
    ensures Increasing(s)
  {
    forall i, j | 0 <= i < j < |s| ensures Less(s[i], s[j]) {
      if s[i] == s[j] {
        RepeatIsCounted(s, i, j);
      }
    }
  }

  /** What is pending are exactly the migrations above the stored version, in strictly increasing order. */
  lemma PendingIsExact(releases: seq<Release>, current: Version)
    requires WellFormed(releases)
    ensures Increasing(Pending(releases, current))
    ensures forall v :: v in Pending(releases, current) <==> v in Listed(releases) && Less(current, v)
  {
    var newer := Newer(Listed(releases), current);
    SortedIsOrdered(newer);
    ListedDistinct(releases);
    NewerDistinct(Listed(releases), current);
    forall v ensures multiset(newer)[v] <= 1 {
      CountsOfDistinct(newer, v);
    }
    OrderedOnceIncreases(Sorted(newer));
    forall v ensures v in Sorted(newer) <==> v in newer {
      assert v in multiset(Sorted(newer)) <==> v in multiset(newer);
    }
  }

  lemma MaxIsGreatest(releases: seq<Release>)
    requires WellFormed(releases)
    ensures MaxVersion(releases) in Listed(releases)
    ensures forall v | v in Listed(releases) :: !Less(MaxVersion(releases), v)
  {
    ListedBelongs(releases, MaxVersion(releases));
    forall v | v in Listed(releases) ensures !Less(MaxVersion(releases), v) {
      ListedBelongs(releases, v);
      var r :| r in releases && v == Version(r.major, r.minor, r.patch, v.migration) && 0 <= v.migration < r.count;
      if SameRelease(r, MaxRelease(releases)) {
        SameReleaseIsOne(releases, r, MaxRelease(releases));
      }
    }
  }

  lemma SameReleaseIsOne(releases: seq<Release>, a: Release, b: Release)
    requires WellFormed(releases) && a in releases && b in releases && SameRelease(a, b)
    ensures a == b
  {
    var i :| 0 <= i < |releases| && releases[i] == a;
    var j :| 0 <= j < |releases| && releases[j] == b;
    assert i == j;
  }

  /* ---- runs ---- */

  /** The stored version, and the migrations completed so far. */
  datatype Db = Db(version: Version, log: seq<Version>)

  datatype Ending = Finished | MigrationRaised | AssertionFailed

  datatype Outcome = Outcome(db: Db, ending: Ending)

  /** Each migration in turn and then its version; the first that raises ends the run. */
  function RunList(db: Db, pending: seq<Version>, raising: set<Version>): Outcome
    decreases |pending|
  {
    if pending == [] then Outcome(db, Finished)
    else if pending[0] in raising then Outcome(db, MigrationRaised)
    else RunList(Db(pending[0], db.log + [pending[0]]), pending[1..], raising)
  }

  function RunMigrations(releases: seq<Release>, db: Db, raising: set<Version>): Outcome
    requires releases != []
  {
    var outcome := RunList(db, Pending(releases, db.version), raising);
    if outcome.ending == Finished && outcome.db.version != MaxVersion(releases) then
      outcome.(ending := AssertionFailed)
    else
      outcome
  }

  /** The process is started again and again. */
  function Restarts(releases: seq<Release>, db: Db, runs: seq<set<Version>>): Db
    requires releases != []
    decreases |runs|
  {
    if runs == [] then db else Restarts(releases, RunMigrations(releases, db, runs[0]).db, runs[1..])
  }

  /** Completed are exactly the migrations above the first version up to the stored one, each once, in order. */
  ghost predicate Faithful(releases: seq<Release>, start: Version, db: Db) {
    && Increasing(db.log)
    && (forall v :: v in db.log <==> v in Listed(releases) && Less(start, v) && !Less(db.version, v))
    && db.version == if db.log == [] then start else db.log[|db.log| - 1]
  }

  /** `pending` is what is left to run. */
  ghost predicate Rest(releases: seq<Release>, version: Version, pending: seq<Version>) {
    Increasing(pending) && forall v :: v in pending <==> v in Listed(releases) && Less(version, v)
  }

  lemma OneMigration(releases: seq<Release>, start: Version, db: Db, pending: seq<Version>)
    requires Faithful(releases, start, db) && Rest(releases, db.version, pending) && pending != []
    ensures Faithful(releases, start, Db(pending[0], db.log + [pending[0]]))
    ensures Rest(releases, pending[0], pending[1..])
  {
    var h := pending[0];
    assert h in pending && Less(db.version, h);
    assert pending == [h] + pending[1..];
    forall v | v in Listed(releases) && Less(db.version, v) ensures v == h || Less(h, v) {
      assert v in pending;
    }
    assert db.log == [] || db.log[|db.log| - 1] in db.log;
    var log' := db.log + [h];
    forall v ensures v in log' <==> v in Listed(releases) && Less(start, v) && !Less(h, v) {
      if v in db.log {
        assert !Less(db.version, v);
      }
    }
    forall i, j | 0 <= i < j < |log'| ensures Less(log'[i], log'[j]) {
      assert log'[i] in db.log;
    }
    forall v ensures v in pending[1..] <==> v in Listed(releases) && Less(h, v) {
      if v in pending[1..] {
        assert v in pending;
      }
    }
  }

  lemma {:induction false} RunListKeeps(
      releases: seq<Release>, start: Version, db: Db, pending: seq<Version>, raising: set<Version>)
    requires Faithful(releases, start, db) && Rest(releases, db.version, pending)
    ensures Faithful(releases, start, RunList(db, pending, raising).db)
    decreases |pending|
  {
    if pending != [] && pending[0] !in raising {
      OneMigration(releases, start, db, pending);
      RunListKeeps(releases, start, Db(pending[0], db.log + [pending[0]]), pending[1..], raising);
    }
  }

  lemma {:induction false} RestartsKeep(releases: seq<Release>, start: Version, db: Db, runs: seq<set<Version>>)
    requires WellFormed(releases) && Faithful(releases, start, db)
    ensures Faithful(releases, start, Restarts(releases, db, runs))
    decreases |runs|
  {
    if runs != [] {
      PendingIsExact(releases, db.version);
      RunListKeeps(releases, start, db, Pending(releases, db.version), runs[0]);
      RestartsKeep(releases, start, RunMigrations(releases, db, runs[0]).db, runs[1..]);
    }
  }

  /** Over any number of broken and restarted runs no completed migration runs again and none is skipped. */
  lemma NoneRepeatsNoneSkipped(releases: seq<Release>, start: Version, runs: seq<set<Version>>)
    requires WellFormed(releases)
    ensures var db := Restarts(releases, Db(start, []), runs);
      && Increasing(db.log)
      && (forall v :: v in db.log <==> v in Listed(releases) && Less(start, v) && !Less(db.version, v))
  {
    RestartsKeep(releases, start, Db(start, []), runs);
  }

  lemma {:induction false} RunListRuns(db: Db, pending: seq<Version>, raising: set<Version>)
    ensures var o := RunList(db, pending, raising);
      && (o.ending == Finished <==> forall v | v in pending :: v !in raising)
      && (o.ending == Finished ==> o.db.log == db.log + pending)
      && (o.ending == Finished ==> o.db.version == if pending == [] then db.version else pending[|pending| - 1])
      && o.ending != AssertionFailed
    decreases |pending|
  {
    if pending != [] {
      assert pending == [pending[0]] + pending[1..];
      if pending[0] !in raising {
        RunListRuns(Db(pending[0], db.log + [pending[0]]), pending[1..], raising);
        assert db.log + [pending[0]] + pending[1..] == db.log + pending;
      }
    }
  }

  lemma SomethingBetween(current: Version, max: Version, pending: seq<Version>)
    requires pending != [] && forall v | v in pending :: Less(current, v) && !Less(max, v)
    ensures Less(current, max)
  {
    assert pending[0] in pending;
  }

  lemma LastPendingIsMax(releases: seq<Release>, current: Version)
    requires WellFormed(releases)
    ensures var pending := Pending(releases, current);
      if Less(current, MaxVersion(releases)) then pending != [] && pending[|pending| - 1] == MaxVersion(releases)
      else pending == []
  {
    var pending, max := Pending(releases, current), MaxVersion(releases);
    PendingIsExact(releases, current);
    MaxIsGreatest(releases);
    if Less(current, max) {
      var i :| 0 <= i < |pending| && pending[i] == max;
      assert pending[|pending| - 1] in pending;
      assert i == |pending| - 1;
    } else {
      if pending != [] {
        SomethingBetween(current, max, pending);
      }
    }
  }

  /** A run ends well exactly when the stored version is not above the maximum and no pending migration raises; it has
      then run all that was pending and stored the maximum. */
  lemma RunEndsAtMax(releases: seq<Release>, db: Db, raising: set<Version>)
    requires WellFormed(releases)
    ensures var o := RunMigrations(releases, db, raising);
      && (o.ending == Finished <==>
            && !Less(MaxVersion(releases), db.version)
            && forall v | v in Listed(releases) && Less(db.version, v) :: v !in raising)
      && (o.ending == Finished ==>
            o.db.version == MaxVersion(releases) && o.db.log == db.log + Pending(releases, db.version))
  {
    PendingIsExact(releases, db.version);
    LastPendingIsMax(releases, db.version);
    RunListRuns(db, Pending(releases, db.version), raising);
  }

  /* ---- the loop ---- */

  class Database {
    var version: Version
    var log: seq<Version>

    ghost function Contents(): Db
      reads this
    {
      Db(version, log)
    }

    constructor (version: Version)
      ensures Contents() == Db(version, [])
    {
      this.version, log := version, [];
    }

    method Migrate(releases: seq<Release>, raising: set<Version>) returns (ending: Ending)
      requires releases != []
      modifies this
      ensures Outcome(Contents(), ending) == RunMigrations(releases, old(Contents()), raising)
    {
      var pending := Pending(releases, version);
      ghost var was := Contents();
      for i := 0 to |pending|
        invariant RunList(Contents(), pending[i..], raising) == RunList(was, pending, raising)
      {
        if pending[i] in raising {
          return MigrationRaised;
        }
        assert pending[i..][1..] == pending[i + 1..];
        log := log + [pending[i]];
        version := pending[i];
      }
      return if version == MaxVersion(releases) then Finished else AssertionFailed;
    }
  }

  /** The components of a version, from the most to the least important. */
  function Components(v: Version): seq<int> {
    [v.major, v.minor, v.patch, v.migration]
  }

  predicate FirstSmaller(a: seq<int>, b: seq<int>, i: int)
    requires |a| == |b|
  {
    0 <= i < |a| && a[i] < b[i] && forall j | 0 <= j < i :: a[j] == b[j]
  }

  /** Versions are compared like tuples: by the first component in which they differ. */
  lemma LessIsLexicographic(a: Version, b: Version)
    ensures Less(a, b) <==> exists i :: FirstSmaller(Components(a), Components(b), i)
  {
    var x, y := Components(a), Components(b);
    if Less(a, b) {
      var i := if a.major != b.major then 0 else if a.minor != b.minor then 1 else if a.patch != b.patch then 2 else 3;
      assert FirstSmaller(x, y, i);
    }
    if i :| FirstSmaller(x, y, i) {
      assert i > 0 ==> x[0] == y[0];
      assert i > 1 ==> x[1] == y[1];
      assert i > 2 ==> x[2] == y[2];
    }
  }
}
