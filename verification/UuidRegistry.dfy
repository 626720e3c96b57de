/** The three Redis structures that register publication uuids (src/layman/uuid.py): the set of uuids, one metadata
    hash per uuid, and one hash of names per workspace and type. The hashes of names are kept here as one map from the
    whole triple. */
module UuidRegistry {
  type Uuid = string

  datatype HashKey = HashKey(workspace: string, publicationType: string)

  datatype Publ = Publ(key: HashKey, name: string)

  datatype Registry = Registry(uuids: set<Uuid>, meta: map<Uuid, Publ>, names: map<Publ, Uuid>)

  /** The transaction of a registration: SADD, HMSET and HSET. */
  function Registered(r: Registry, p: Publ, u: Uuid): Registry {
    Registry(r.uuids + {u}, r.meta[u := p], r.names[p := u])
  }

  predicate Free(r: Registry, p: Publ, u: Uuid) {
    u !in r.uuids && u !in r.meta && p !in r.names
  }

  /** The three structures hold exactly the pairs of `m`. */
  predicate Holds(r: Registry, m: map<Publ, Uuid>) {
    && r.names == m
    && (forall p | p in m :: m[p] in r.uuids && m[p] in r.meta && r.meta[m[p]] == p)
    && (forall u | u in r.uuids :: u in r.meta)
    && (forall u | u in r.meta :: r.meta[u] in m && m[r.meta[u]] == u)
  }

  predicate Bijective(r: Registry) {
    Holds(r, r.names)
  }

  /* ---- clients running at once ---- */

  /** A registration between WATCH and EXEC: the versions it watches and how many of its three checks it passed. */
  datatype Registering = Registering(publ: Publ, uuid: Uuid, setSeen: nat, metaSeen: nat, hashSeen: nat, passed: nat)

  /** A delete after its SREM; `metaGone` after its DEL. */
  datatype Deleting = Deleting(uuid: Uuid, metaGone: bool)

  datatype State = State(
    reg: Registry,
    setVersion: nat,
    metaVersions: map<Uuid, nat>,
    hashVersions: map<HashKey, nat>,
    registering: map<nat, Registering>,
    deleting: map<Publ, Deleting>)

  function Version<K>(versions: map<K, nat>, key: K): nat {
    if key in versions then versions[key] else 0
  }

  function Bumped<K>(versions: map<K, nat>, key: K): map<K, nat> {
    versions[key := Version(versions, key) + 1]
  }

  datatype Step =
    | Watch(pid: nat, publ: Publ, uuid: Uuid)
    | Check(pid: nat)
    | Exec(pid: nat)
    | RemoveFromSet(publ: Publ)
    | DeleteMetadata(publ: Publ)
    | DeleteName(publ: Publ)

  predicate CheckPasses(r: Registry, g: Registering) {
    if g.passed == 0 then g.uuid !in r.uuids
    else if g.passed == 1 then g.uuid !in r.meta
    else g.publ !in r.names
  }

  predicate InTime(s: State, g: Registering) {
    && g.setSeen == s.setVersion
    && g.metaSeen == Version(s.metaVersions, g.uuid)
    && g.hashSeen == Version(s.hashVersions, g.publ.key)
  }

  predicate Commits(s: State, pid: nat) {
    pid in s.registering && s.registering[pid].passed == 3 && InTime(s, s.registering[pid])
  }

  /** A failed check raises error 23 and a late EXEC starts the loop again, so either way the registration leaves the
      state; a step that is not possible changes nothing. A delete is called with a registered triple and runs once
      at a time for a publication. */
  function Apply(s: State, step: Step): State {
    match step
    case Watch(pid, p, u) =>
      if pid in s.registering then s
      else s.(registering := s.registering[pid := Registering(p, u, s.setVersion, Version(s.metaVersions, u),
                                                              Version(s.hashVersions, p.key), 0)])
    case Check(pid) =>
      if pid !in s.registering || s.registering[pid].passed >= 3 then s
      else if !CheckPasses(s.reg, s.registering[pid]) then s.(registering := s.registering - {pid})
      else s.(registering := s.registering[pid := s.registering[pid].(passed := s.registering[pid].passed + 1)])
    case Exec(pid) =>
      if pid !in s.registering || s.registering[pid].passed != 3 then s
      else if !InTime(s, s.registering[pid]) then s.(registering := s.registering - {pid})
      else Written(s, pid)
    case RemoveFromSet(p) =>
      if p in s.deleting || p !in s.reg.names || !MetaSays(s.reg, s.reg.names[p], p) then s
      else s.(reg := s.reg.(uuids := s.reg.uuids - {s.reg.names[p]}), setVersion := s.setVersion + 1,
              deleting := s.deleting[p := Deleting(s.reg.names[p], false)])
    case DeleteMetadata(p) =>
      if p !in s.deleting || s.deleting[p].metaGone then s
      else s.(reg := s.reg.(meta := s.reg.meta - {s.deleting[p].uuid}),
              metaVersions := Bumped(s.metaVersions, s.deleting[p].uuid),
              deleting := s.deleting[p := s.deleting[p].(metaGone := true)])
    case DeleteName(p) =>
      if p !in s.deleting || !s.deleting[p].metaGone then s
      else s.(reg := s.reg.(names := s.reg.names - {p}), hashVersions := Bumped(s.hashVersions, p.key),
              deleting := s.deleting - {p})
  }

  predicate MetaSays(r: Registry, u: Uuid, p: Publ) {
    u in r.meta && r.meta[u] == p
  }

  function Written(s: State, pid: nat): State
    requires pid in s.registering
  {
    var g := s.registering[pid];
    State(Registered(s.reg, g.publ, g.uuid), s.setVersion + 1, Bumped(s.metaVersions, g.uuid),
          Bumped(s.hashVersions, g.publ.key), s.registering - {pid}, s.deleting)
  }

  function Run(s: State, steps: seq<Step>): State
    decreases |steps|
  {
    if steps == [] then s else Run(Apply(s, steps[0]), steps[1..])
  }

  /* ---- what every run keeps ---- */

  /** The structures are in bijection but for the deletes under way. */
  predicate Linked(s: State) {
    var r := s.reg;
    && (forall u | u in r.uuids :: u in r.meta)
    && (forall u | u in r.meta :: r.meta[u] in r.names && r.names[r.meta[u]] == u)
    && (forall u | u in r.meta :: u in r.uuids || r.meta[u] in s.deleting)
    && (forall p | p in r.names :: MetaSays(r, r.names[p], p) || (p in s.deleting && s.deleting[p].metaGone))
    && (forall p | p in s.deleting :: p in r.names && r.names[p] == s.deleting[p].uuid)
    && (forall p | p in s.deleting && !s.deleting[p].metaGone ::
          MetaSays(r, s.deleting[p].uuid, p) && s.deleting[p].uuid !in r.uuids)
    && (forall p | p in s.deleting && s.deleting[p].metaGone :: !MetaSays(r, s.deleting[p].uuid, p))
  }

  /** While a watched key has its version, the check of that key still holds. */
  predicate Watched(s: State, g: Registering) {
    && g.setSeen <= s.setVersion && g.metaSeen <= Version(s.metaVersions, g.uuid)
    && g.hashSeen <= Version(s.hashVersions, g.publ.key)
    && (g.passed >= 1 && g.setSeen == s.setVersion ==> g.uuid !in s.reg.uuids)
    && (g.passed >= 2 && g.metaSeen == Version(s.metaVersions, g.uuid) ==> g.uuid !in s.reg.meta)
    && (g.passed >= 3 && g.hashSeen == Version(s.hashVersions, g.publ.key) ==> g.publ !in s.reg.names)
  }

  predicate Consistent(s: State) {
    Linked(s) && forall pid | pid in s.registering :: Watched(s, s.registering[pid])
  }

  /** WATCH makes the three checks and the transaction one step: at EXEC the uuid and the name are still free. */
  lemma CommitFindsThemFree(s: State, pid: nat)
    requires Consistent(s) && Commits(s, pid)
    ensures Free(s.reg, s.registering[pid].publ, s.registering[pid].uuid)
  {
    assert Watched(s, s.registering[pid]);
  }

  lemma WrittenKeepsLinks(s: State, pid: nat)
    requires Consistent(s) && Commits(s, pid)
    ensures Linked(Written(s, pid))
  {
    CommitFindsThemFree(s, pid);
  }

  lemma WrittenKeepsWatches(s: State, pid: nat, q: nat)
    requires Consistent(s) && Commits(s, pid) && q in s.registering
    ensures Watched(Written(s, pid), s.registering[q])
  {
    assert Watched(s, s.registering[q]);
  }

  lemma RemoveFromSetKeepsLinks(s: State, p: Publ)
    requires Linked(s)
    ensures Linked(Apply(s, RemoveFromSet(p)))
  {}

  lemma DeleteMetadataKeepsLinks(s: State, p: Publ)
    requires Linked(s)
    ensures Linked(Apply(s, DeleteMetadata(p)))
  {}

  lemma DeleteNameKeepsLinks(s: State, p: Publ)
    requires Linked(s)
    ensures Linked(Apply(s, DeleteName(p)))
  {}

  lemma ApplyKeepsLinks(s: State, step: Step)
    requires Consistent(s)
    ensures Linked(Apply(s, step))
  {
    match step
    case Exec(pid) =>
      if Commits(s, pid) {
        WrittenKeepsLinks(s, pid);
      }
    case RemoveFromSet(p) => RemoveFromSetKeepsLinks(s, p);
    case DeleteMetadata(p) => DeleteMetadataKeepsLinks(s, p);
    case DeleteName(p) => DeleteNameKeepsLinks(s, p);
    case _ =>
  }

  /** A step other than a commit only takes things away, and moves the version of what it takes from. */
  lemma StepKeepsWatches(s: State, step: Step, g: Registering)
    requires Watched(s, g) && !(step.Exec? && Commits(s, step.pid))
    ensures Watched(Apply(s, step), g)
  {}

  lemma CheckKeepsWatches(s: State, pid: nat)
    requires pid in s.registering && Watched(s, s.registering[pid])
    ensures var s' := Apply(s, Check(pid)); pid in s'.registering ==> Watched(s', s'.registering[pid])
  {}

  lemma WhoIsRegistering(s: State, step: Step, q: nat)
    requires q in Apply(s, step).registering
    ensures q in s.registering && step != Check(q) ==> Apply(s, step).registering[q] == s.registering[q]
    ensures q !in s.registering ==>
      step.Watch? && Apply(s, step) == s.(registering := s.registering[q := Apply(s, step).registering[q]])
  {}

  lemma ApplyKeepsWatches(s: State, step: Step, q: nat)
    requires q in s.registering ==> Watched(s, s.registering[q])
    requires q in Apply(s, step).registering && !(step.Exec? && Commits(s, step.pid))
    ensures Watched(Apply(s, step), Apply(s, step).registering[q])
  {
    WhoIsRegistering(s, step, q);
    if q in s.registering {
      if step == Check(q) {
        CheckKeepsWatches(s, q);
      } else {
        StepKeepsWatches(s, step, s.registering[q]);
      }
    }
  }

  lemma ApplyKeeps(s: State, step: Step)
    requires Consistent(s)
    ensures Consistent(Apply(s, step))
  {
    ApplyKeepsLinks(s, step);
    forall q | q in Apply(s, step).registering ensures Watched(Apply(s, step), Apply(s, step).registering[q]) {
      if step.Exec? && Commits(s, step.pid) {
        WrittenKeepsWatches(s, step.pid, q);
      } else {
        ApplyKeepsWatches(s, step, q);
      }
    }
  }

  lemma {:induction false} RunKeeps(s: State, steps: seq<Step>)
    requires Consistent(s)
    ensures Consistent(Run(s, steps))
    decreases |steps|
  {
    if steps != [] {
      ApplyKeeps(s, steps[0]);
      RunKeeps(Apply(s, steps[0]), steps[1..]);
    }
  }

  const START := State(Registry({}, map[], map[]), 0, map[], map[], map[], map[])

  /** In every reachable state the uuid set stays within the metadata keys and each metadata triple points back to its
      uuid; with no delete under way the three structures are in bijection. */
  lemma EveryRunIsLinked(steps: seq<Step>)
    ensures var s := Run(START, steps);
      && (forall u | u in s.reg.uuids :: u in s.reg.meta)
      && (forall u | u in s.reg.meta :: s.reg.meta[u] in s.reg.names && s.reg.names[s.reg.meta[u]] == u)
      && (s.deleting == map[] ==> Bijective(s.reg))
  {
    RunKeeps(START, steps);
  }

  /** In every run, at the moment a registration commits its uuid and its name are free. */
  lemma EveryCommitIsFresh(steps: seq<Step>, pid: nat)
    requires Commits(Run(START, steps), pid)
    ensures var s := Run(START, steps);
      && Free(s.reg, s.registering[pid].publ, s.registering[pid].uuid)
      && Apply(s, Exec(pid)).reg == Registered(s.reg, s.registering[pid].publ, s.registering[pid].uuid)
  {
    RunKeeps(START, steps);
    CommitFindsThemFree(Run(START, steps), pid);
  }

  function Attempt(pid: nat, p: Publ, u: Uuid): seq<Step> {
    [Watch(pid, p, u), Check(pid), Check(pid), Check(pid), Exec(pid)]
  }

  lemma {:induction false} RunOne(s: State, steps: seq<Step>)
    requires steps != []
    ensures Run(s, steps) == Run(Apply(s, steps[0]), steps[1..])
  {}

  /** A registration that nobody disturbs succeeds exactly when uuid and name are free. */
  lemma UndisturbedAttempt(s: State, pid: nat, p: Publ, u: Uuid)
    requires pid !in s.registering
    ensures Run(s, Attempt(pid, p, u)).reg == if Free(s.reg, p, u) then Registered(s.reg, p, u) else s.reg
  {
    var steps := Attempt(pid, p, u);
    var s1 := Apply(s, steps[0]);
    var s2 := Apply(s1, Check(pid));
    var s3 := Apply(s2, Check(pid));
    var s4 := Apply(s3, Check(pid));
    RunOne(s, steps);
    assert steps[1..] == [Check(pid), Check(pid), Check(pid), Exec(pid)];
    RunOne(s1, steps[1..]);
    assert steps[1..][1..] == [Check(pid), Check(pid), Exec(pid)];
    RunOne(s2, [Check(pid), Check(pid), Exec(pid)]);
    assert [Check(pid), Check(pid), Exec(pid)][1..] == [Check(pid), Exec(pid)];
    RunOne(s3, [Check(pid), Exec(pid)]);
    assert [Check(pid), Exec(pid)][1..] == [Exec(pid)];
    RunOne(s4, [Exec(pid)]);
    assert [Exec(pid)][1..] == [];
  }

  /** A delete that nobody disturbs removes the triple from all three structures and nothing else. */
  lemma UndisturbedDelete(s: State, p: Publ)
    requires p in s.reg.names && MetaSays(s.reg, s.reg.names[p], p) && p !in s.deleting
    ensures var u := s.reg.names[p];
      var s' := Run(s, [RemoveFromSet(p), DeleteMetadata(p), DeleteName(p)]);
      && s'.reg == Registry(s.reg.uuids - {u}, s.reg.meta - {u}, s.reg.names - {p}) && s'.deleting == s.deleting
  {
    var steps := [RemoveFromSet(p), DeleteMetadata(p), DeleteName(p)];
    var s1 := Apply(s, steps[0]);
    var s2 := Apply(s1, DeleteMetadata(p));
    RunOne(s, steps);
    assert steps[1..] == [DeleteMetadata(p), DeleteName(p)];
    RunOne(s1, [DeleteMetadata(p), DeleteName(p)]);
    assert [DeleteMetadata(p), DeleteName(p)][1..] == [DeleteName(p)];
    RunOne(s2, [DeleteName(p)]);
    assert [DeleteName(p)][1..] == [];
    assert s.deleting - {p} == s.deleting;
  }

  /* ---- the counting claims of check_redis_consistency ---- */

  /** The sum of HLEN over the hashes of names with the given keys. */
  ghost function SumOfLengths(names: map<Publ, Uuid>, keys: set<HashKey>): nat
    decreases keys
  {
    if keys == {} then 0
    else
      var k :| k in keys;
      |set p | p in names && p.key == k| + SumOfLengths(names, keys - {k})
  }

  lemma OneHashMore(names: map<Publ, Uuid>, keys: set<HashKey>, k: HashKey)
    requires k in keys
    ensures |set p | p in names && p.key in keys|
         == |set p | p in names && p.key == k| + |set p | p in names && p.key in keys - {k}|
  {
    var mine, rest := set p | p in names && p.key == k, set p | p in names && p.key in keys - {k};
    assert mine + rest == (set p | p in names && p.key in keys) && mine !! rest;
  }

  lemma {:induction false} LengthsAddUp(names: map<Publ, Uuid>, keys: set<HashKey>)
    ensures SumOfLengths(names, keys) == |set p | p in names && p.key in keys|
    decreases keys
  {
    if keys == {} {
      assert (set p | p in names && p.key in keys) == {};
    } else {
      var k :| k in keys && SumOfLengths(names, keys)
               == |set p | p in names && p.key == k| + SumOfLengths(names, keys - {k});
      LengthsAddUp(names, keys - {k});
      OneHashMore(names, keys, k);
    }
  }

  lemma {:induction false} SameSize(names: map<Publ, Uuid>, meta: map<Uuid, Publ>)
    requires forall p | p in names :: MetaSays(Registry({}, meta, names), names[p], p)
    requires forall u | u in meta :: meta[u] in names && names[meta[u]] == u
    ensures |names| == |meta|
    decreases names.Keys
  {
    assert |names| == |names.Keys| && |meta| == |meta.Keys|;
    if names.Keys == {} {
      assert meta.Keys == {};
    } else {
      var p :| p in names;
      var u := names[p];
      SameSize(names - {p}, meta - {u});
      assert (names - {p}).Keys == names.Keys - {p} && (meta - {u}).Keys == meta.Keys - {u};
      assert |names - {p}| == |(names - {p}).Keys| && |meta - {u}| == |(meta - {u}).Keys|;
    }
  }

  /** With no delete under way every assertion the consistency check makes about the three structures holds. */
  lemma CountsAgree(steps: seq<Step>)
    requires Run(START, steps).deleting == map[]
    ensures var r := Run(START, steps).reg;
      && |r.uuids| == |r.meta| == SumOfLengths(r.names, set p | p in r.names :: p.key)
      && r.uuids == r.meta.Keys
  {
    EveryRunIsLinked(steps);
    var r := Run(START, steps).reg;
    var keys := set p | p in r.names :: p.key;
    SameSize(r.names, r.meta);
    LengthsAddUp(r.names, keys);
    assert (set p | p in r.names && p.key in keys) == r.names.Keys;
    assert r.uuids == r.meta.Keys;
    assert |r.meta| == |r.meta.Keys| && |r.names| == |r.names.Keys|;
  }

  /* ---- registering with duplicates ignored, as the import at start does ---- */

  predicate Agrees(r: Registry, p: Publ, u: Uuid) {
    (p in r.names ==> r.names[p] == u) && (u in r.meta ==> r.meta[u] == p)
  }

  /** Without the checks, the bijection survives exactly when neither the name nor the uuid is taken by another. */
  lemma UncheckedRegistration(r: Registry, p: Publ, u: Uuid)
    requires Bijective(r)
    ensures Bijective(Registered(r, p, u)) <==> Agrees(r, p, u)
  {
    var r' := Registered(r, p, u);
    if p in r.names && r.names[p] != u {
      assert r.names[p] in r'.meta && r'.meta[r.names[p]] == p;
    }
    if u in r.meta && r.meta[u] != p {
      assert r.meta[u] in r'.names && r'.names[r.meta[u]] == u && r'.meta[u] == p;
    }
  }

  datatype Error = UuidInSet | UuidHasMetadata | NameTaken

  datatype Outcome = Done | Raised(error: Error)

  predicate OneToOne(m: map<Publ, Uuid>) {
    forall p, q | p in m && q in m && m[p] == m[q] :: p == q
  }

  class Redis {
    var uuids: set<Uuid>
    var meta: map<Uuid, Publ>
    var names: map<Publ, Uuid>

    ghost function Contents(): Registry
      reads this
    {
      Registry(uuids, meta, names)
    }

    constructor ()
      ensures Contents() == START.reg
    {
      uuids, meta, names := {}, map[], map[];
    }

    method Register(p: Publ, u: Uuid, ignoreDuplicate: bool) returns (result: Outcome)
      modifies this
      ensures result == Done <==> ignoreDuplicate || Free(old(Contents()), p, u)
      ensures Contents() == if result == Done then Registered(old(Contents()), p, u) else old(Contents())
      ensures result == Raised(UuidInSet) ==> u in uuids
      ensures result == Raised(UuidHasMetadata) ==> u !in uuids && u in meta
      ensures result == Raised(NameTaken) ==> u !in uuids && u !in meta && p in names
    {
      if !ignoreDuplicate {
        if u in uuids {
          return Raised(UuidInSet);
        }
        if u in meta {
          return Raised(UuidHasMetadata);
        }
        if p in names {
          return Raised(NameTaken);
        }
      }
      uuids := uuids + {u};
      meta := meta[u := p];
      names := names[p := u];
      return Done;
    }

    /** Deleting what was registered brings back the registry from before the registration. */
    method Delete(p: Publ, u: Uuid)
      modifies this
      ensures Contents() == Registry(old(uuids) - {u}, old(meta) - {u}, old(names) - {p})
      ensures forall r: Registry | Free(r, p, u) && old(Contents()) == Registered(r, p, u) :: Contents() == r
    {
      uuids := uuids - {u};
      meta := meta - {u};
      names := names - {p};
    }

    /** The import leaves the registered publications and the imported ones, in bijection. */
    method Import(infos: seq<(Publ, Uuid)>, ghost all: map<Publ, Uuid>)
      requires Bijective(Contents()) && OneToOne(all)
      requires forall p | p in names :: p in all && all[p] == names[p]
      requires forall i | 0 <= i < |infos| :: infos[i].0 in all && all[infos[i].0] == infos[i].1
      modifies this
      ensures Bijective(Contents())
      ensures forall p :: p in names <==> p in old(names) || exists i | 0 <= i < |infos| :: infos[i].0 == p
      ensures forall p | p in names :: names[p] == all[p]
    {
      for i := 0 to |infos|
        invariant Bijective(Contents())
        invariant forall p | p in names :: p in all && all[p] == names[p]
        invariant forall p :: p in names <==> p in old(names) || exists j | 0 <= j < i :: infos[j].0 == p
      {
        var (p, u) := infos[i];
        UncheckedRegistration(Contents(), p, u);
        var _ := Register(p, u, true);
      }
    }
  }
}
