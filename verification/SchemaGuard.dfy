/** lab/data_api.py, the race between the platform's settings write (`write_sql`) and a tenant's schema
    renames and drops (the event trigger guards of `guard_sql`), as a step system over one advisory lock.

    A transaction sees what is committed plus its own changes, statement by statement (section 13.2.1,
    Read Committed, of the PostgreSQL documentation); savepoints nest, and a lock taken inside one is
    given back when it is rolled back. */
module SchemaGuard {
  import opened Prelude

  type Id = nat

  const PUBLIC := "public"

  /** What `sbarbase_rest.settings()` answers: nothing, or the exposed schemas and the search path. */
  datatype Config = Unset | Chosen(schemas: set<string>, path: set<string>)

  /** The schemas PostgREST needs present: `public` when nothing is set. */
  function Exposed(config: Config): set<string> {
    match config
    case Unset => {PUBLIC}
    case Chosen(schemas, path) => schemas + path
  }

  datatype Isolation = ReadCommitted | OneSnapshot

  /** A transaction's own uncommitted changes. */
  datatype Change = Change(removed: set<string>, added: set<string>)

  function Over(schemas: set<string>, change: Change): set<string> {
    (schemas - change.removed) + change.added
  }

  function Then(first: Change, next: Change): Change {
    Change(first.removed + next.removed, (first.added - next.removed) + next.added)
  }

  /** Where a tenant's transaction is: between statements, a schema change whose guard waits for the lock,
      one whose guard holds it, or an error that only a rollback ends. */
  datatype Phase = Running | AtLock(pending: Change) | AtCheck(pending: Change) | Failed

  datatype Stage = Locking | Queued | Holding | Checked

  datatype Txn =
    | Tenant(isolation: Isolation, seen: (set<string>, Config), levels: seq<Change>, phase: Phase)
    | Platform(claims: bool, next: Config, stage: Stage)

  /** `lock` is the holder and the savepoint level it took the lock at. */
  datatype State = State(schemas: set<string>, config: Config, lock: Option<(Id, nat)>, txns: map<Id, Txn>)

  /** The guard as it is written, or without one of its two precautions. */
  datatype Guard = Guard(refusesSnapshots: bool, takesLock: bool)

  const AS_WRITTEN := Guard(true, true)

  datatype Action =
    | Begin(id: Id, isolation: Isolation)
    | Savepoint(id: Id)
    | Release(id: Id)
    | RollbackTo(id: Id, level: nat)
    | Create(id: Id, name: string)
    | Alter(id: Id, change: Change)
    | GuardLock(id: Id)
    | GuardCheck(id: Id)
    | Commit(id: Id)
    | Abort(id: Id)
    | Write(id: Id, claims: bool, next: Config)
    | TryLock(id: Id)
    | EndSessions(id: Id)
    | QueueLock(id: Id)
    | CheckPresent(id: Id)
    | CommitWrite(id: Id)

  predicate Owns(s: State, id: Id) {
    s.lock.Some? && s.lock.value.0 == id
  }

  function Without(s: State, id: Id): State {
    s.(txns := s.txns - {id}, lock := if Owns(s, id) then None else s.lock)
  }

  predicate HoldsOrWaits(s: State, id: Id) {
    id in s.txns && s.txns[id].Tenant? && (Owns(s, id) || s.txns[id].phase.AtLock?)
  }

  function Ended(s: State): set<Id> {
    set id | id in s.txns && HoldsOrWaits(s, id)
  }

  /** One tenant action; nothing when it is not possible in this state (a wait included). */
  function TenantStep(s: State, a: Action, t: Txn, guard: Guard): Option<State>
    requires a.id in s.txns && s.txns[a.id] == t && t.Tenant? && |t.levels| > 0
  {
    var last := |t.levels| - 1;
    var top := t.levels[last];
    match a
    case Savepoint(id) =>
      if t.phase.Running? then Some(s.(txns := s.txns[id := t.(levels := t.levels + [top])])) else None
    case Release(id) =>
      if t.phase.Running? && last > 0 then
        Some(s.(txns := s.txns[id := t.(levels := t.levels[..last - 1] + [top])],
                lock := if Owns(s, id) && s.lock.value.1 == last then Some((id, last - 1)) else s.lock))
      else None
    case RollbackTo(id, level) =>
      if 0 < level <= last && !t.phase.AtCheck? then
        Some(s.(txns := s.txns[id := t.(levels := t.levels[..level] + [t.levels[level - 1]], phase := Running)],
                lock := if Owns(s, id) && s.lock.value.1 >= level then None else s.lock))
      else None
    case Create(id, name) =>
      if t.phase.Running? && name !in Over(s.schemas, top) then
        Some(s.(txns := s.txns[id := t.(levels := t.levels[last := top.(added := top.added + {name})])]))
      else None
    case Alter(id, change) =>
      if t.phase.Running? && change.removed != {} && change.removed <= Over(s.schemas, top) then
        Some(s.(txns := s.txns[id := t.(phase := AtLock(Then(top, change)))]))
      else None
    case GuardLock(id) =>
      if !t.phase.AtLock? then None
      else if guard.refusesSnapshots && t.isolation.OneSnapshot? then Some(s.(txns := s.txns[id := t.(phase := Failed)]))
      else if !guard.takesLock || Owns(s, id) then Some(s.(txns := s.txns[id := t.(phase := AtCheck(t.phase.pending))]))
      else if s.lock.None? then
        Some(s.(txns := s.txns[id := t.(phase := AtCheck(t.phase.pending))], lock := Some((id, last))))
      else None
    case GuardCheck(id) =>
      if !t.phase.AtCheck? then None else
      var (schemas, config) := if t.isolation.OneSnapshot? then t.seen else (s.schemas, s.config);
      if Exposed(config) <= Over(schemas, t.phase.pending)
      then Some(s.(txns := s.txns[id := t.(levels := t.levels[last := t.phase.pending], phase := Running)]))
      else Some(s.(txns := s.txns[id := t.(phase := Failed)]))
    case Commit(id) =>
      if t.phase.Running? then Some(Without(s.(schemas := Over(s.schemas, top)), id)) else None
    case Abort(id) => Some(Without(s, id))
    case _ => None
  }

  /** One step of a settings write: a lock it only tries, or, claiming it, ends the sessions around it first. */
  function PlatformStep(s: State, a: Action, t: Txn): Option<State>
    requires a.id in s.txns && s.txns[a.id] == t && t.Platform?
  {
    match a
    case TryLock(id) =>
      if t.stage != Locking || t.claims then None
      else if s.lock.None? then Some(s.(txns := s.txns[id := t.(stage := Holding)], lock := Some((id, 0))))
      else Some(Without(s, id))
    case EndSessions(id) =>
      if t.stage != Locking || !t.claims then None else
      var ended := Ended(s);
      Some(s.(txns := (s.txns - ended)[id := t.(stage := Queued)],
              lock := if s.lock.Some? && s.lock.value.0 in ended then None else s.lock))
    case QueueLock(id) =>
      if t.stage == Queued && s.lock.None?
      then Some(s.(txns := s.txns[id := t.(stage := Holding)], lock := Some((id, 0)))) else None
    case CheckPresent(id) =>
      if t.stage != Holding then None
      else if Exposed(t.next) <= s.schemas then Some(s.(txns := s.txns[id := t.(stage := Checked)]))
      else Some(Without(s, id))
    case CommitWrite(id) =>
      if t.stage == Checked then Some(Without(s.(config := t.next), id)) else None
    case Abort(id) => Some(Without(s, id))
    case _ => None
  }

  function Step(s: State, a: Action, guard: Guard): Option<State> {
    if a.Begin? then
      if a.id in s.txns then None
      else Some(s.(txns := s.txns[a.id := Tenant(a.isolation, (s.schemas, s.config), [Change({}, {})], Running)]))
    else if a.Write? then
      if a.id in s.txns then None else Some(s.(txns := s.txns[a.id := Platform(a.claims, a.next, Locking)]))
    else if a.id !in s.txns then None
    else if s.txns[a.id].Platform? then PlatformStep(s, a, s.txns[a.id])
    else if |s.txns[a.id].levels| == 0 then None
    else TenantStep(s, a, s.txns[a.id], guard)
  }

  /** The state after a sequence of actions, or nothing when one of them is not possible. */
  function Run(s: State, actions: seq<Action>, guard: Guard): Option<State>
    decreases |actions|
  {
    if actions == [] then Some(s) else
    var next := Step(s, actions[0], guard);
    if next.None? then None else Run(next.value, actions[1..], guard)
  }

  // ------------------------------------------------------------ the safety of every interleaving

  predicate Safe(s: State) {
    Exposed(s.config) <= s.schemas
  }

  ghost predicate TenantSound(s: State, id: Id, t: Txn)
    requires t.Tenant?
  {
    && |t.levels| > 0
    && (Owns(s, id) ==> s.lock.value.1 < |t.levels|)
    && (t.phase.AtCheck? ==> Owns(s, id) && t.isolation.ReadCommitted?)
    && (forall i :: 0 <= i < |t.levels| && t.levels[i].removed != {} ==> Owns(s, id) && s.lock.value.1 <= i)
    && (forall i :: 0 <= i < |t.levels| ==> Exposed(s.config) <= Over(s.schemas, t.levels[i]))
  }

  ghost predicate PlatformSound(s: State, id: Id, t: Txn)
    requires t.Platform?
  {
    && (t.stage.Holding? || t.stage.Checked? <==> Owns(s, id))
    && (t.stage.Checked? ==> Exposed(t.next) <= s.schemas)
  }

  ghost predicate Sound(s: State, id: Id, t: Txn) {
    if t.Tenant? then TenantSound(s, id, t) else PlatformSound(s, id, t)
  }

  ghost predicate Inv(s: State) {
    && Safe(s)
    && (s.lock.Some? ==> s.lock.value.0 in s.txns)
    && forall id <- s.txns :: Sound(s, id, s.txns[id])
  }

  /** Other transactions are unaffected when the schemas and settings stay and the lock is not moved to them. */
  lemma OthersKeep(s: State, s': State, id: Id)
    requires Inv(s) && s'.schemas == s.schemas && s'.config == s.config
    requires forall other :: other != id && other in s'.txns ==> other in s.txns && s'.txns[other] == s.txns[other]
    requires s'.lock == s.lock || (s'.lock.None? && Owns(s, id)) || (s.lock.None? && Owns(s', id))
             || (Owns(s, id) && Owns(s', id))
    ensures forall other :: other != id && other in s'.txns ==> Sound(s', other, s'.txns[other])
  {
    forall other | other != id && other in s'.txns ensures Sound(s', other, s'.txns[other]) {
      assert Sound(s, other, s.txns[other]);
    }
  }

  lemma TenantKeepsInv(s: State, a: Action, t: Txn)
    requires Inv(s) && a.id in s.txns && s.txns[a.id] == t && t.Tenant? && |t.levels| > 0
    requires TenantStep(s, a, t, AS_WRITTEN).Some? && !a.Commit?
    ensures Inv(TenantStep(s, a, t, AS_WRITTEN).value)
  {
    assert Sound(s, a.id, t);
    var s' := TenantStep(s, a, t, AS_WRITTEN).value;
    OthersKeep(s, s', a.id);
    assert a.id in s'.txns ==> Sound(s', a.id, s'.txns[a.id]);
  }

  lemma TenantCommitKeepsInv(s: State, id: Id, t: Txn)
    requires Inv(s) && id in s.txns && s.txns[id] == t && t.Tenant? && |t.levels| > 0 && t.phase.Running?
    ensures Inv(TenantStep(s, Commit(id), t, AS_WRITTEN).value)
  {
    assert Sound(s, id, t);
    var s' := TenantStep(s, Commit(id), t, AS_WRITTEN).value;
    var top := t.levels[|t.levels| - 1];
    forall other | other in s'.txns ensures Sound(s', other, s'.txns[other]) {
      assert Sound(s, other, s.txns[other]);
      if top.removed == {} {
        assert s.schemas <= s'.schemas;
      }
    }
  }

  lemma PlatformKeepsInv(s: State, a: Action, t: Txn)
    requires Inv(s) && a.id in s.txns && s.txns[a.id] == t && t.Platform?
    requires PlatformStep(s, a, t).Some? && !a.CommitWrite? && !a.EndSessions?
    ensures Inv(PlatformStep(s, a, t).value)
  {
    assert Sound(s, a.id, t);
    var s' := PlatformStep(s, a, t).value;
    OthersKeep(s, s', a.id);
    assert a.id in s'.txns ==> Sound(s', a.id, s'.txns[a.id]);
  }

  lemma PlatformCommitKeepsInv(s: State, a: Action, t: Txn)
    requires Inv(s) && a.id in s.txns && s.txns[a.id] == t && t.Platform?
    requires PlatformStep(s, a, t).Some? && (a.CommitWrite? || a.EndSessions?)
    ensures Inv(PlatformStep(s, a, t).value)
  {
    assert Sound(s, a.id, t);
    var s' := PlatformStep(s, a, t).value;
    forall other | other in s'.txns ensures Sound(s', other, s'.txns[other]) {
      assert Sound(s, other, s.txns[other]);
    }
  }

  lemma StepKeepsInv(s: State, a: Action)
    requires Inv(s) && Step(s, a, AS_WRITTEN).Some?
    ensures Inv(Step(s, a, AS_WRITTEN).value)
  {
    if a.Begin? || a.Write? {
      OthersKeep(s, Step(s, a, AS_WRITTEN).value, a.id);
    } else {
      var t := s.txns[a.id];
      if t.Platform? {
        if a.CommitWrite? || a.EndSessions? { PlatformCommitKeepsInv(s, a, t); } else { PlatformKeepsInv(s, a, t); }
      } else if a.Commit? {
        TenantCommitKeepsInv(s, a.id, t);
      } else {
        TenantKeepsInv(s, a, t);
      }
    }
  }

  /** For every interleaving of settings writes (tried, claimed or back to the defaults) with tenants'
      schema changes, savepoints, aborts and killed sessions: every exposed schema is present. */
  lemma {:induction false} EveryRunStaysSafe(s: State, actions: seq<Action>)
    requires Inv(s) && Run(s, actions, AS_WRITTEN).Some?
    ensures Inv(Run(s, actions, AS_WRITTEN).value)
    ensures Present(Run(s, actions, AS_WRITTEN).value.config, Run(s, actions, AS_WRITTEN).value.schemas)
    decreases |actions|
  {
    PresentMeans(s.config, s.schemas);
    if actions != [] {
      StepKeepsInv(s, actions[0]);
      EveryRunStaysSafe(Step(s, actions[0], AS_WRITTEN).value, actions[1..]);
    }
  }

  /** An installation with its exposed schemas present and no transaction open is where every run starts. */
  lemma QuietStartIsInvariant(schemas: set<string>, config: Config)
    requires Exposed(config) <= schemas
    ensures Inv(State(schemas, config, None, map[]))
  {
  }

  // ------------------------------------------------------------ no tenant keeps the platform waiting

  /** Trying the lock always answers at once: taken, or refused because it is held. */
  lemma TryingNeverWaits(s: State, id: Id, guard: Guard)
    requires id in s.txns && s.txns[id].Platform? && s.txns[id].stage == Locking && !s.txns[id].claims
    ensures var next := Step(s, TryLock(id), guard);
            next.Some? && if s.lock.None? then Owns(next.value, id) else id !in next.value.txns
  {
  }

  /** Of the other sessions, exactly those of tenants that hold the lock or wait for it are gone. */
  ghost predicate OnlyInTheWayEnded(s: State, id: Id, after: map<Id, Txn>) {
    forall other :: other in after <==>
      other in s.txns && other != id
      && !(s.txns[other].Tenant? && (s.txns[other].phase.AtLock? || (s.lock.Some? && s.lock.value.0 == other)))
  }

  /** Claiming it gets the settings written from any reachable state, whatever tenants hold or wait for the
      lock, when the schemas are there and no other platform write holds the lock. */
  lemma ClaimingAlwaysGetsThrough(s: State, id: Id)
    requires Inv(s) && id in s.txns && s.txns[id].Platform? && s.txns[id].stage == Locking && s.txns[id].claims
    requires s.lock.Some? ==> s.txns[s.lock.value.0].Tenant?
    requires Exposed(s.txns[id].next) <= s.schemas
    ensures var end := Run(s, [EndSessions(id), QueueLock(id), CheckPresent(id), CommitWrite(id)], AS_WRITTEN);
            end.Some? && end.value.config == s.txns[id].next && end.value.schemas == s.schemas
            && end.value.lock.None? && OnlyInTheWayEnded(s, id, end.value.txns)
  {
    var s1 := Step(s, EndSessions(id), AS_WRITTEN).value;
    assert s.lock.Some? ==> s.lock.value.0 in Ended(s);
    assert s1.lock.None? && s1.txns[id] == s.txns[id].(stage := Queued) && s1.schemas == s.schemas;
    LockedWriteGoesThrough(s1, id);
    assert [EndSessions(id), QueueLock(id), CheckPresent(id), CommitWrite(id)][1..]
        == [QueueLock(id), CheckPresent(id), CommitWrite(id)];
  }

  /** Once nobody else holds the lock, the write takes it, finds its schemas and commits. */
  lemma LockedWriteGoesThrough(s1: State, id: Id)
    requires id in s1.txns && s1.txns[id].Platform? && s1.txns[id].stage == Queued && s1.lock.None?
    requires Exposed(s1.txns[id].next) <= s1.schemas
    ensures var end := Run(s1, [QueueLock(id), CheckPresent(id), CommitWrite(id)], AS_WRITTEN);
            end.Some? && end.value.config == s1.txns[id].next && end.value.schemas == s1.schemas
            && end.value.lock.None? && end.value.txns == s1.txns - {id}
  {
    var s2 := Step(s1, QueueLock(id), AS_WRITTEN).value;
    var s3 := Step(s2, CheckPresent(id), AS_WRITTEN).value;
    var s4 := Step(s3, CommitWrite(id), AS_WRITTEN).value;
    assert Run(s4, [], AS_WRITTEN) == Some(s4);
    assert s4.txns == s1.txns - {id};
    assert [CommitWrite(id)][1..] == [];
    assert Run(s3, [CommitWrite(id)], AS_WRITTEN) == Some(s4);
    assert [CheckPresent(id), CommitWrite(id)][1..] == [CommitWrite(id)];
    assert Run(s2, [CheckPresent(id), CommitWrite(id)], AS_WRITTEN) == Some(s4);
    assert [QueueLock(id), CheckPresent(id), CommitWrite(id)][1..] == [CheckPresent(id), CommitWrite(id)];
  }

  // ------------------------------------------------------------ runs put together

  lemma {:induction false} RunConcat(s: State, xs: seq<Action>, ys: seq<Action>, guard: Guard)
    requires Run(s, xs, guard).Some?
    ensures Run(s, xs + ys, guard) == Run(Run(s, xs, guard).value, ys, guard)
    decreases |xs|
  {
    if xs == [] {
      assert xs + ys == ys;
    } else {
      RunConcat(Step(s, xs[0], guard).value, xs[1..], ys, guard);
      assert (xs + ys)[1..] == xs[1..] + ys;
    }
  }

  lemma RunOne(s: State, a: Action, guard: Guard)
    requires Step(s, a, guard).Some?
    ensures Run(s, [a], guard) == Step(s, a, guard)
  {
    assert Run(Step(s, a, guard).value, [a][1..], guard) == Some(Step(s, a, guard).value);
  }

  lemma RunThen(s: State, actions: seq<Action>, s': State, a: Action, guard: Guard) returns (more: seq<Action>)
    requires Run(s, actions, guard) == Some(s') && Step(s', a, guard).Some?
    ensures more == actions + [a] && Run(s, more, guard) == Step(s', a, guard)
  {
    RunOne(s', a, guard);
    RunConcat(s, actions, [a], guard);
    more := actions + [a];
  }

  // ------------------------------------------------------------ what the guard lets through

  /** What PostgREST needs of the schemas: `public` while nothing is set, or each exposed and search path schema. */
  ghost predicate Present(config: Config, schemas: set<string>) {
    match config
    case Unset => "public" in schemas
    case Chosen(exposed, path) => (forall name <- exposed :: name in schemas) && (forall name <- path :: name in schemas)
  }

  lemma PresentMeans(config: Config, schemas: set<string>)
    ensures Present(config, schemas) <==> Exposed(config) <= schemas
  {
  }

  lemma OverThen(schemas: set<string>, first: Change, next: Change)
    ensures Over(schemas, Then(first, next)) == (Over(schemas, first) - next.removed) + next.added
  {
  }

  function Top(t: Txn): Change
    requires t.Tenant? && t.levels != []
  {
    t.levels[|t.levels| - 1]
  }

  /** An open transaction at read committed that nobody keeps waiting. */
  ghost predicate Ready(s: State, id: Id) {
    && id in s.txns && s.txns[id].Tenant? && s.txns[id].levels != [] && s.txns[id].phase.Running?
    && s.txns[id].isolation.ReadCommitted? && (s.lock.None? || Owns(s, id))
  }

  /** The transaction with its newest level replaced, and the lock. */
  function Altered(s: State, id: Id, top: Change): State
    requires id in s.txns && s.txns[id].Tenant? && s.txns[id].levels != []
  {
    var t := s.txns[id];
    s.(txns := s.txns[id := t.(levels := t.levels[|t.levels| - 1 := top])],
       lock := if Owns(s, id) then s.lock else Some((id, |t.levels| - 1)))
  }

  function OneChange(id: Id, change: Change): seq<Action> {
    [Alter(id, change), GuardLock(id), GuardCheck(id)]
  }

  lemma RunThree(s: State, a: Action, b: Action, c: Action, guard: Guard)
    requires Step(s, a, guard).Some? && Step(Step(s, a, guard).value, b, guard).Some?
    ensures Run(s, [a, b, c], guard) == Step(Step(Step(s, a, guard).value, b, guard).value, c, guard)
  {
    var s1 := Step(s, a, guard).value;
    var s2 := Step(s1, b, guard).value;
    if Step(s2, c, guard).Some? {
      RunOne(s2, c, guard);
    } else {
      assert Run(s2, [c], guard).None?;
    }
    assert [b, c][1..] == [c] && [a, b, c][1..] == [b, c];
    assert Run(s1, [b, c], guard) == Run(s2, [c], guard);
  }

  /** One change of a transaction: what it leaves is its newest level exactly when every schema that is needed is
      still there, and otherwise the transaction has failed. */
  lemma ChangeRuns(s: State, id: Id, change: Change)
    requires Ready(s, id) && change.removed != {} && change.removed <= Over(s.schemas, Top(s.txns[id]))
    ensures var after := (Over(s.schemas, Top(s.txns[id])) - change.removed) + change.added;
            var end := Run(s, OneChange(id, change), AS_WRITTEN);
            && end.Some? && Over(s.schemas, Then(Top(s.txns[id]), change)) == after
            && end.value == if Present(s.config, after) then Altered(s, id, Then(Top(s.txns[id]), change))
                            else Altered(s, id, Top(s.txns[id])).(txns := s.txns[id := s.txns[id].(phase := Failed)])
  {
    var pending := Then(Top(s.txns[id]), change);
    OverThen(s.schemas, Top(s.txns[id]), change);
    PresentMeans(s.config, Over(s.schemas, pending));
    assert Step(s, Alter(id, change), AS_WRITTEN) == Some(s.(txns := s.txns[id := s.txns[id].(phase := AtLock(pending))]));
    GuardTakesLock(s, id, pending);
    RunThree(s, Alter(id, change), GuardLock(id), GuardCheck(id), AS_WRITTEN);
    GuardDecides(s, id, pending);
  }

  /** The transaction with its guard holding the lock. */
  function Guarded(s: State, id: Id, pending: Change): State
    requires id in s.txns && s.txns[id].Tenant? && s.txns[id].levels != []
  {
    s.(txns := s.txns[id := s.txns[id].(phase := AtCheck(pending))],
       lock := if Owns(s, id) then s.lock else Some((id, |s.txns[id].levels| - 1)))
  }

  lemma GuardTakesLock(s: State, id: Id, pending: Change)
    requires Ready(s, id)
    ensures Step(s.(txns := s.txns[id := s.txns[id].(phase := AtLock(pending))]), GuardLock(id), AS_WRITTEN)
              == Some(Guarded(s, id, pending))
  {
    var s1 := s.(txns := s.txns[id := s.txns[id].(phase := AtLock(pending))]);
    assert s1.txns[id := s.txns[id].(phase := AtCheck(pending))] == Guarded(s, id, pending).txns;
  }

  lemma GuardDecides(s: State, id: Id, pending: Change)
    requires Ready(s, id)
    ensures Step(Guarded(s, id, pending), GuardCheck(id), AS_WRITTEN)
              == Some(if Exposed(s.config) <= Over(s.schemas, pending) then Altered(s, id, pending)
                      else Altered(s, id, Top(s.txns[id])).(txns := s.txns[id := s.txns[id].(phase := Failed)]))
  {
    var t, u := s.txns[id], Guarded(s, id, pending);
    if Exposed(s.config) <= Over(s.schemas, pending) {
      assert u.txns[id := t.(levels := t.levels[|t.levels| - 1 := pending])] == Altered(s, id, pending).txns;
    } else {
      assert u.txns[id := t.(phase := Failed)] == s.txns[id := t.(phase := Failed)];
    }
  }

  // ------------------------------------------------------------ whole transactions

  /** The schemas after the changes, one after another. */
  function After(schemas: set<string>, changes: seq<Change>): set<string> {
    if changes == [] then schemas
    else (After(schemas, changes[..|changes| - 1]) - changes[|changes| - 1].removed) + changes[|changes| - 1].added
  }

  /** Each change takes away schemas that are there, as a rename or a drop does. */
  ghost predicate Takes(schemas: set<string>, changes: seq<Change>) {
    changes == [] || (Takes(schemas, changes[..|changes| - 1])
                      && changes[|changes| - 1].removed != {}
                      && changes[|changes| - 1].removed <= After(schemas, changes[..|changes| - 1]))
  }

  /** After each of the changes every schema that is needed is there. */
  ghost predicate PresentAfterEach(config: Config, schemas: set<string>, changes: seq<Change>) {
    forall n :: 0 < n <= |changes| ==> Present(config, After(schemas, changes[..n]))
  }

  lemma PresentSplit(config: Config, schemas: set<string>, changes: seq<Change>)
    requires changes != []
    ensures PresentAfterEach(config, schemas, changes) <==>
            PresentAfterEach(config, schemas, changes[..|changes| - 1]) && Present(config, After(schemas, changes))
  {
    var k := |changes| - 1;
    assert changes[..|changes|] == changes;
    forall n | 0 < n <= k ensures After(schemas, changes[..k][..n]) == After(schemas, changes[..n]) {
      assert changes[..k][..n] == changes[..n];
    }
    if PresentAfterEach(config, schemas, changes) {
      assert Present(config, After(schemas, changes[..|changes|]));
      forall n | 0 < n <= k ensures Present(config, After(schemas, changes[..k][..n])) {
        assert Present(config, After(schemas, changes[..n]));
      }
    }
    if PresentAfterEach(config, schemas, changes[..k]) && Present(config, After(schemas, changes)) {
      forall n | 0 < n <= |changes| ensures Present(config, After(schemas, changes[..n])) {
        if n <= k { assert Present(config, After(schemas, changes[..k][..n])); }
      }
    }
  }

  function Statements(id: Id, changes: seq<Change>): seq<Action> {
    if changes == [] then [] else Statements(id, changes[..|changes| - 1]) + OneChange(id, changes[|changes| - 1])
  }

  lemma {:induction false} RunStops(s: State, xs: seq<Action>, ys: seq<Action>, guard: Guard)
    requires Run(s, xs, guard).None?
    ensures Run(s, xs + ys, guard).None?
    decreases |xs|
  {
    assert (xs + ys)[1..] == xs[1..] + ys;
    if Step(s, xs[0], guard).Some? {
      RunStops(Step(s, xs[0], guard).value, xs[1..], ys, guard);
    }
  }

  lemma FailedRuns(s: State, id: Id, change: Change)
    requires id in s.txns && s.txns[id].Tenant? && s.txns[id].levels != [] && s.txns[id].phase.Failed?
    ensures Run(s, OneChange(id, change), AS_WRITTEN).None? && Step(s, Commit(id), AS_WRITTEN).None?
  {
    assert Step(s, Alter(id, change), AS_WRITTEN).None?;
  }

  /** What the changes leave of the transaction: its level holds them all, and the lock is its own. */
  ghost predicate Holds(s: State, end: State, id: Id, changes: seq<Change>)
    requires Ready(s, id)
  {
    && Ready(end, id) && end.schemas == s.schemas && end.config == s.config
    && end.txns == s.txns[id := s.txns[id].(levels := s.txns[id].levels[|s.txns[id].levels| - 1 := Top(end.txns[id])])]
    && Over(s.schemas, Top(end.txns[id])) == After(Over(s.schemas, Top(s.txns[id])), changes)
    && end.lock == (if changes == [] || Owns(s, id) then s.lock else Some((id, |s.txns[id].levels| - 1)))
    && (changes == [] ==> end == s)
  }

  /** The transaction has failed: only its newest level changed, and it holds the lock. */
  ghost predicate Broken(s: State, end: State, id: Id)
    requires Ready(s, id)
  {
    && id in end.txns && end.txns[id].Tenant? && end.txns[id].levels != [] && end.txns[id].phase.Failed?
    && end.schemas == s.schemas && end.config == s.config
    && end.txns == s.txns[id := s.txns[id].(levels := s.txns[id].levels[|s.txns[id].levels| - 1 := Top(end.txns[id])], phase := Failed)]
    && end.lock == (if Owns(s, id) then s.lock else Some((id, |s.txns[id].levels| - 1)))
  }

  /** The changes of one transaction, however many: they all run exactly when what is needed is there after each. */
  lemma {:induction false} ChangesRun(s: State, id: Id, changes: seq<Change>)
    requires Ready(s, id) && Takes(Over(s.schemas, Top(s.txns[id])), changes)
    ensures var end := Run(s, Statements(id, changes), AS_WRITTEN);
            && (PresentAfterEach(s.config, Over(s.schemas, Top(s.txns[id])), changes) ==>
                  end.Some? && Holds(s, end.value, id, changes))
            && (!PresentAfterEach(s.config, Over(s.schemas, Top(s.txns[id])), changes) ==>
                  end.None? || Broken(s, end.value, id))
    decreases |changes|
  {
    if changes == [] {
      NothingHolds(s, id);
      return;
    }
    var front, last := changes[..|changes| - 1], changes[|changes| - 1];
    var schemas := Over(s.schemas, Top(s.txns[id]));
    ChangesRun(s, id, front);
    PresentSplit(s.config, schemas, changes);
    var mid := Run(s, Statements(id, front), AS_WRITTEN);
    if mid.None? {
      RunStops(s, Statements(id, front), OneChange(id, last), AS_WRITTEN);
    } else {
      RunConcat(s, Statements(id, front), OneChange(id, last), AS_WRITTEN);
      if PresentAfterEach(s.config, schemas, front) {
        ChangeRuns(mid.value, id, last);
        LastChangeHolds(s, mid.value, id, changes);
        LastChangeBreaks(s, mid.value, id, front);
      } else {
        FailedRuns(mid.value, id, last);
      }
    }
  }

  lemma NothingHolds(s: State, id: Id)
    requires Ready(s, id)
    ensures Holds(s, s, id, [])
  {
    var t := s.txns[id];
    assert t.levels[|t.levels| - 1 := Top(t)] == t.levels;
    assert s.txns[id := t] == s.txns;
  }

  lemma LastChangeBreaks(s: State, mid: State, id: Id, front: seq<Change>)
    requires Ready(s, id) && Holds(s, mid, id, front)
    ensures Broken(s, Altered(mid, id, Top(mid.txns[id])).(txns := mid.txns[id := mid.txns[id].(phase := Failed)]), id)
  {
    var t := mid.txns[id];
    var k := |s.txns[id].levels| - 1;
    assert t.levels == s.txns[id].levels[k := Top(t)];
  }

  lemma LastChangeHolds(s: State, mid: State, id: Id, changes: seq<Change>)
    requires Ready(s, id) && changes != [] && Holds(s, mid, id, changes[..|changes| - 1])
    ensures var last, t := changes[|changes| - 1], mid.txns[id];
            var top := Then(Top(t), last);
            && (Over(s.schemas, top) == After(Over(s.schemas, Top(s.txns[id])), changes))
            && Holds(s, Altered(mid, id, top), id, changes)
  {
    var last, t := changes[|changes| - 1], mid.txns[id];
    OverThen(s.schemas, Top(t), last);
    var u := Altered(mid, id, Then(Top(t), last));
    var k := |s.txns[id].levels| - 1;
    assert t.levels == s.txns[id].levels[k := Top(t)];
    assert u.txns[id].levels == s.txns[id].levels[k := Top(u.txns[id])];
  }

  /** Undisturbed, with the lock free, a read committed transaction of renames and drops commits what they leave exactly
      when every exposed and search path schema is there after each of them; otherwise it cannot be committed, and what
      was committed before stays. */
  lemma TransactionCommitsExactly(s: State, id: Id, changes: seq<Change>)
    requires id !in s.txns && s.lock.None? && Takes(s.schemas, changes)
    ensures var end := Run(s, [Begin(id, ReadCommitted)] + Statements(id, changes) + [Commit(id)], AS_WRITTEN);
            if PresentAfterEach(s.config, s.schemas, changes) then end == Some(s.(schemas := After(s.schemas, changes)))
            else end.None?
  {
    var t := Opened(s, id);
    ChangesRun(t, id, changes);
    RunOne(s, Begin(id, ReadCommitted), AS_WRITTEN);
    RunConcat(s, [Begin(id, ReadCommitted)], Statements(id, changes), AS_WRITTEN);
    var begun := [Begin(id, ReadCommitted)] + Statements(id, changes);
    var end := Run(t, Statements(id, changes), AS_WRITTEN);
    if end.None? {
      RunStops(s, begun, [Commit(id)], AS_WRITTEN);
    } else {
      RunConcat(s, begun, [Commit(id)], AS_WRITTEN);
      if PresentAfterEach(s.config, s.schemas, changes) {
        RunOne(end.value, Commit(id), AS_WRITTEN);
        assert end.value.txns - {id} == s.txns;
      } else {
        assert Step(end.value, Commit(id), AS_WRITTEN).None?;
      }
    }
  }

  /** The same through a savepoint that is released. */
  lemma ReleasedSavepointCommitsExactly(s: State, id: Id, changes: seq<Change>)
    requires id !in s.txns && s.lock.None? && Takes(s.schemas, changes)
    ensures var end := Run(s, [Begin(id, ReadCommitted), Savepoint(id)] + Statements(id, changes) + [Release(id), Commit(id)], AS_WRITTEN);
            if PresentAfterEach(s.config, s.schemas, changes) then end == Some(s.(schemas := After(s.schemas, changes)))
            else end.None?
  {
    var t := Opened(s, id);
    var u := Saved(t, id);
    ChangesRun(u, id, changes);
    RunOne(s, Begin(id, ReadCommitted), AS_WRITTEN);
    var begun := RunThen(s, [Begin(id, ReadCommitted)], t, Savepoint(id), AS_WRITTEN);
    assert begun == [Begin(id, ReadCommitted), Savepoint(id)];
    RunConcat(s, begun, Statements(id, changes), AS_WRITTEN);
    var end := Run(u, Statements(id, changes), AS_WRITTEN);
    if end.None? {
      RunStops(s, begun + Statements(id, changes), [Release(id), Commit(id)], AS_WRITTEN);
    } else {
      RunConcat(s, begun + Statements(id, changes), [Release(id), Commit(id)], AS_WRITTEN);
      assert [Release(id), Commit(id)][1..] == [Commit(id)];
      if PresentAfterEach(s.config, s.schemas, changes) {
        ReleasedThenCommitted(s, end.value, id);
      } else {
        assert Step(end.value, Release(id), AS_WRITTEN).None?;
      }
    }
  }

  lemma Saved(t: State, id: Id) returns (u: State)
    requires Ready(t, id)
    ensures Step(t, Savepoint(id), AS_WRITTEN) == Some(u) && Ready(u, id) && u.lock == t.lock
    ensures u.schemas == t.schemas && u.config == t.config && u.txns - {id} == t.txns - {id}
    ensures u.txns[id].levels == t.txns[id].levels + [Top(t.txns[id])] && Top(u.txns[id]) == Top(t.txns[id])
  {
    u := Step(t, Savepoint(id), AS_WRITTEN).value;
  }

  lemma ReleasedThenCommitted(s: State, end: State, id: Id)
    requires Ready(end, id) && |end.txns[id].levels| == 2 && end.txns - {id} == s.txns
    requires s.lock.None? && end.config == s.config
    ensures Run(end, [Release(id), Commit(id)], AS_WRITTEN) == Some(s.(schemas := Over(end.schemas, Top(end.txns[id]))))
  {
    var released := Step(end, Release(id), AS_WRITTEN).value;
    assert released.txns[id].levels == [Top(end.txns[id])] && released.txns - {id} == s.txns;
    RunOne(released, Commit(id), AS_WRITTEN);
    assert [Release(id), Commit(id)][1..] == [Commit(id)];
  }

  /** What follows a savepoint is undone by rolling back to it, failed or not: the lock is given back if it was taken
      since, and the transaction then commits what came before. */
  lemma RolledBackSavepointLeavesNothing(s: State, id: Id, first: seq<Change>, second: seq<Change>)
    requires id !in s.txns && s.lock.None? && Takes(s.schemas, first) && Takes(After(s.schemas, first), second)
    requires PresentAfterEach(s.config, s.schemas, first)
    ensures var inside := Run(s, [Begin(id, ReadCommitted)] + Statements(id, first) + [Savepoint(id)] + Statements(id, second), AS_WRITTEN);
            inside.Some? ==>
              && Run(inside.value, [RollbackTo(id, 1), Commit(id)], AS_WRITTEN) == Some(s.(schemas := After(s.schemas, first)))
              && Step(inside.value, RollbackTo(id, 1), AS_WRITTEN).Some?
              && Step(inside.value, RollbackTo(id, 1), AS_WRITTEN).value.lock == if first == [] then None else Some((id, 0))
  {
    var t := Opened(s, id);
    ChangesRun(t, id, first);
    RunOne(s, Begin(id, ReadCommitted), AS_WRITTEN);
    RunConcat(s, [Begin(id, ReadCommitted)], Statements(id, first), AS_WRITTEN);
    var mid := Run(t, Statements(id, first), AS_WRITTEN).value;
    var u := Saved(mid, id);
    RunOne(mid, Savepoint(id), AS_WRITTEN);
    RunConcat(s, [Begin(id, ReadCommitted)] + Statements(id, first), [Savepoint(id)], AS_WRITTEN);
    RunConcat(s, [Begin(id, ReadCommitted)] + Statements(id, first) + [Savepoint(id)], Statements(id, second), AS_WRITTEN);
    ChangesRun(u, id, second);
    var inside := Run(u, Statements(id, second), AS_WRITTEN);
    if inside.Some? {
      assert inside.value.txns - {id} == s.txns;
      assert inside.value.txns[id].levels[0] == Top(mid.txns[id]);
      RolledBackThenCommitted(s, inside.value, id);
    }
  }

  lemma RolledBackThenCommitted(s: State, inside: State, id: Id)
    requires id in inside.txns && inside.txns[id].Tenant? && |inside.txns[id].levels| == 2 && !inside.txns[id].phase.AtCheck?
    requires s.lock.None? && (inside.lock.None? || Owns(inside, id)) && inside.txns - {id} == s.txns && inside.config == s.config
    ensures Run(inside, [RollbackTo(id, 1), Commit(id)], AS_WRITTEN)
              == Some(s.(schemas := Over(inside.schemas, inside.txns[id].levels[0])))
  {
    var back := Step(inside, RollbackTo(id, 1), AS_WRITTEN).value;
    assert back.txns[id].levels == [inside.txns[id].levels[0], inside.txns[id].levels[0]];
    assert back.txns - {id} == s.txns;
    RunOne(back, Commit(id), AS_WRITTEN);
    assert [RollbackTo(id, 1), Commit(id)][1..] == [Commit(id)];
  }

  /** A created schema is committed, undisturbed, exactly when there was none of that name; it needs no guard. */
  lemma CreatedIsCommittedExactly(s: State, id: Id, name: string)
    requires id !in s.txns && s.lock.None?
    ensures var end := Run(s, [Begin(id, ReadCommitted), Create(id, name), Commit(id)], AS_WRITTEN);
            if name in s.schemas then end.None? else end == Some(s.(schemas := s.schemas + {name}))
  {
    var t := Opened(s, id);
    assert [Begin(id, ReadCommitted), Create(id, name), Commit(id)][1..] == [Create(id, name), Commit(id)];
    assert [Create(id, name), Commit(id)][1..] == [Commit(id)];
    if name !in s.schemas {
      var u := Step(t, Create(id, name), AS_WRITTEN).value;
      assert u.txns - {id} == s.txns && Over(u.schemas, Top(u.txns[id])) == s.schemas + {name};
      RunOne(u, Commit(id), AS_WRITTEN);
    } else {
      assert Step(t, Create(id, name), AS_WRITTEN).None?;
    }
  }

  /** A settings write that does not claim the lock: with the lock free it is committed exactly when every schema it
      needs is there, and otherwise, or while the lock is held, it leaves everything as it was. */
  lemma WriteCommitsExactly(s: State, id: Id, next: Config)
    requires id !in s.txns && (s.lock.Some? ==> s.lock.value.0 != id)
    ensures var end := Run(s, [Write(id, false, next), TryLock(id), CheckPresent(id), CommitWrite(id)], AS_WRITTEN);
            && (s.lock.None? && Present(next, s.schemas) ==> end == Some(s.(config := next)))
            && (s.lock.None? && !Present(next, s.schemas) ==>
                  end.None? && Run(s, [Write(id, false, next), TryLock(id), CheckPresent(id)], AS_WRITTEN) == Some(s))
            && (s.lock.Some? ==> Run(s, [Write(id, false, next), TryLock(id)], AS_WRITTEN) == Some(s))
  {
    PresentMeans(next, s.schemas);
    var write, try, check := Write(id, false, next), TryLock(id), CheckPresent(id);
    var s1 := s.(txns := s.txns[id := Platform(false, next, Locking)]);
    assert Step(s, write, AS_WRITTEN) == Some(s1);
    RunOne(s, write, AS_WRITTEN);
    assert s1.txns - {id} == s.txns;
    if s.lock.Some? {
      RunOne(s1, try, AS_WRITTEN);
      assert [write, try][1..] == [try];
    } else {
      WriteDecides(s, s1, id, next);
    }
  }

  lemma WriteDecides(s: State, s1: State, id: Id, next: Config)
    requires id !in s.txns && s.lock.None? && s1 == s.(txns := s.txns[id := Platform(false, next, Locking)])
    requires s1.txns - {id} == s.txns
    ensures var rest := [Write(id, false, next), TryLock(id), CheckPresent(id)];
            if Exposed(next) <= s.schemas then Run(s, rest + [CommitWrite(id)], AS_WRITTEN) == Some(s.(config := next))
            else Run(s, rest, AS_WRITTEN) == Some(s) && Run(s, rest + [CommitWrite(id)], AS_WRITTEN).None?
    ensures [Write(id, false, next), TryLock(id), CheckPresent(id)] + [CommitWrite(id)]
              == [Write(id, false, next), TryLock(id), CheckPresent(id), CommitWrite(id)]
  {
    var write, try, check := Write(id, false, next), TryLock(id), CheckPresent(id);
    var s2 := s.(txns := s.txns[id := Platform(false, next, Holding)], lock := Some((id, 0)));
    assert s1.txns[id := Platform(false, next, Holding)] == s2.txns;
    assert Step(s1, try, AS_WRITTEN) == Some(s2);
    assert s2.txns - {id} == s.txns;
    RunThree(s, write, try, check, AS_WRITTEN);
    if Exposed(next) <= s.schemas {
      var s3 := s.(txns := s.txns[id := Platform(false, next, Checked)], lock := Some((id, 0)));
      assert s2.txns[id := Platform(false, next, Checked)] == s3.txns && s3.txns - {id} == s.txns;
      assert Step(s2, check, AS_WRITTEN) == Some(s3);
      RunOne(s3, CommitWrite(id), AS_WRITTEN);
      RunConcat(s, [write, try, check], [CommitWrite(id)], AS_WRITTEN);
    } else {
      RunConcat(s, [write, try, check], [CommitWrite(id)], AS_WRITTEN);
    }
  }

  lemma Opened(s: State, id: Id) returns (t: State)
    requires id !in s.txns && s.lock.None?
    ensures Step(s, Begin(id, ReadCommitted), AS_WRITTEN) == Some(t) && Ready(t, id) && t.lock.None?
    ensures t.schemas == s.schemas && t.config == s.config && t.txns - {id} == s.txns
    ensures t.txns[id].levels == [Change({}, {})] && Over(t.schemas, Top(t.txns[id])) == s.schemas
  {
    t := Step(s, Begin(id, ReadCommitted), AS_WRITTEN).value;
  }

  // ------------------------------------------------------------ both precautions are needed

  /** A whole settings write up to its check, with nothing in between. */
  lemma WriteRuns(s: State, id: Id, next: Config, guard: Guard) returns (actions: seq<Action>)
    requires id !in s.txns && s.lock.None? && Exposed(next) <= s.schemas
    ensures Run(s, actions, guard)
              == Some(s.(txns := s.txns[id := Platform(false, next, Checked)], lock := Some((id, 0))))
  {
    var s1 := Step(s, Write(id, false, next), guard).value;
    var s2 := Step(s1, TryLock(id), guard).value;
    RunOne(s, Write(id, false, next), guard);
    actions := RunThen(s, [Write(id, false, next)], s1, TryLock(id), guard);
    actions := RunThen(s, actions, s2, CheckPresent(id), guard);
    assert s2.txns[id := Platform(false, next, Checked)] == s.txns[id := Platform(false, next, Checked)];
  }

  ghost predicate LetsThrough(s: State, id: Id, a: string, guard: Guard)
    requires id in s.txns && s.txns[id].Tenant?
  {
    var t := s.txns[id];
    if t.isolation == OneSnapshot
    then guard == Guard(false, true) && s.lock.None? && Exposed(t.seen.1) <= t.seen.0 - {a}
    else guard == Guard(true, false) && !Owns(s, id) && Exposed(s.config) <= s.schemas - {a}
  }

  /** A tenant's drop of one schema, which a guard without one of its precautions lets through when what
      it reads does not expose the schema. */
  lemma DropRuns(s: State, id: Id, a: string, guard: Guard) returns (actions: seq<Action>)
    requires id in s.txns && s.txns[id].Tenant? && s.txns[id].levels == [Change({}, {})] && s.txns[id].phase == Running
    requires a in s.schemas && LetsThrough(s, id, a, guard)
    ensures Run(s, actions, guard) == Some(State(s.schemas - {a}, s.config, s.lock, s.txns - {id}))
  {
    var drop := Change({a}, {});
    assert Then(Change({}, {}), drop) == drop && Over(s.schemas, drop) == s.schemas - {a};
    var s1 := Step(s, Alter(id, drop), guard).value;
    var s2 := Step(s1, GuardLock(id), guard).value;
    var s3 := Step(s2, GuardCheck(id), guard).value;
    RunOne(s, Alter(id, drop), guard);
    actions := RunThen(s, [Alter(id, drop)], s1, GuardLock(id), guard);
    actions := RunThen(s, actions, s2, GuardCheck(id), guard);
    actions := RunThen(s, actions, s3, Commit(id), guard);
    assert s3.txns - {id} == s.txns - {id};
  }

  ghost predicate CanBreak(schemas: set<string>, guard: Guard) {
    exists actions :: Run(State(schemas, Unset, None, map[]), actions, guard).Some?
                      && !Safe(Run(State(schemas, Unset, None, map[]), actions, guard).value)
  }

  /** A guard that let one snapshot serve the whole transaction would miss a schema exposed meanwhile. */
  lemma SnapshotsMustBeRefused(a: string)
    requires a != PUBLIC
    ensures CanBreak({PUBLIC, a}, Guard(false, true))
  {
    var g := Guard(false, true);
    var s := State({PUBLIC, a}, Unset, None, map[]);
    var next := Chosen({a}, {PUBLIC});
    var s1 := Step(s, Begin(1, OneSnapshot), g).value;
    RunOne(s, Begin(1, OneSnapshot), g);
    var written := WriteRuns(s1, 2, next, g);
    RunConcat(s, [Begin(1, OneSnapshot)], written, g);
    var s2 := Run(s1, written, g).value;
    var committed := RunThen(s, [Begin(1, OneSnapshot)] + written, s2, CommitWrite(2), g);
    var s3 := Step(s2, CommitWrite(2), g).value;
    var dropped := DropRuns(s3, 1, a, g);
    RunConcat(s, committed, dropped, g);
    assert a !in Run(s, committed + dropped, g).value.schemas;
    assert a in Exposed(next);
  }

  /** Without the lock, a drop fits between the platform's check and its write. */
  lemma TheLockIsNeeded(a: string)
    requires a != PUBLIC
    ensures CanBreak({PUBLIC, a}, Guard(true, false))
  {
    var g := Guard(true, false);
    var s := State({PUBLIC, a}, Unset, None, map[]);
    var next := Chosen({a}, {PUBLIC});
    var written := WriteRuns(s, 2, next, g);
    var s1 := Run(s, written, g).value;
    var begun := RunThen(s, written, s1, Begin(1, ReadCommitted), g);
    var s2 := Step(s1, Begin(1, ReadCommitted), g).value;
    var dropped := DropRuns(s2, 1, a, g);
    RunConcat(s, begun, dropped, g);
    var s3 := Run(s2, dropped, g).value;
    var committed := RunThen(s, begun + dropped, s3, CommitWrite(2), g);
    assert a !in Run(s, committed, g).value.schemas;
    assert a in Exposed(next);
  }
}
