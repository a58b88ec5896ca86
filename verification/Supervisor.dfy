/** lab/dev.py, class Supervisor: the polling loop that starts, follows and stops the installation's children, drains
    itself before an upgrade or rollback moves the checkout, and goes on only from the commit it started on. What
    the children and the files say is what each turn finds; an upgrade or rollback child moves the checkout. */
module Supervision {
  import opened Prelude
  import opened SupervisorLog

  const DRAIN_SECONDS := 600

  /** The upgrade state: nothing pending, a moved (or half moved) upgrade, or a rollback under way. */
  datatype Phase = Calm | Applied(moved: bool, to: Commit) | RollingBack(done: bool)

  /** Where recording the course of an update fails: writing its outcome, the request or the drain marker, removing that
      marker, or judging the handover. */
  datatype Fault = NoFault | Recording | Settling | Handover

  datatype Drain = Drain(kind: Kind, until: int)

  datatype StudioRow = StudioRow(runtime: Runtime, desiredRunning: bool, state: StudioState, failed: bool)

  datatype StudioState = StudioStopped | StudioStarting | StudioRunning | StudioFailed

  datatype Ask = Ask(kind: Kind, refused: bool)

  /** What one turn of the loop finds. */
  datatype Turn = Turn(
    now: int, stopAsked: bool, moved: Option<Commit>,
    serverExited: bool, exitOwned: bool, workerExited: bool, confirmed: bool, overdue: bool,
    backupStatus: Option<int>, backupDue: bool,
    studioExits: map<Runtime, int>, studios: seq<StudioRow>,
    signInExits: map<Runtime, int>, signIn: seq<Runtime>,
    dataApiExits: map<Runtime, int>, dataApi: seq<Runtime>,
    toggleExits: map<(Service, Runtime), int>, toggles: seq<(Service, Runtime)>,
    hostStatus: Option<int>, hostAsked: bool,
    schedulerExited: bool, rollingStatus: Option<int>, rollingDue: bool,
    updateStatus: Option<int>, ask: Option<Ask>, checkDue: bool,
    records: bool, readable: bool, phase: Phase, spawns: bool, fault: Fault)

  predicate Pending(phase: Phase) {
    phase.Applied? || phase.RollingBack?
  }

  /** Why the process must not go on after an update child ended. */
  predicate Unsettled(head: Option<Commit>, here: Option<Commit>, phase: Phase) {
    Pending(phase) || here.None? || here != head
  }

  /** The upgrade left the checkout on its version, or the rollback finished its way back. */
  predicate MovedForGood(kind: Kind, head: Option<Commit>, here: Option<Commit>, phase: Phase) {
    if kind.Apply? then phase.Applied? && phase.moved && here == Some(phase.to) && here != head
    else phase.RollingBack? && here.Some? && here != head && phase.done
  }

  /** The child got where it was going, as its exit or the upgrade state says. */
  predicate Completed(kind: Kind, status: int, head: Option<Commit>, here: Option<Commit>, phase: Phase) {
    status == 0 || MovedForGood(kind, head, here, phase)
  }

  /** How an upgrade or rollback ended: it got there when its child says so, or when the upgrade state has it move the
      checkout for good to where HEAD now is; and work goes on only after one that did not, with no state pending and HEAD
      where this process started. */
  lemma EndMeans(kind: Kind, status: int, head: Option<Commit>, here: Option<Commit>, phase: Phase)
    requires !kind.Check?
    ensures Completed(kind, status, head, here, phase) <==>
            || status == 0
            || (kind == Apply && here.Some? && phase == Applied(true, here.value) && here != head)
            || (kind == Rollback && here.Some? && phase == RollingBack(true) && here != head)
    ensures Completed(kind, status, head, here, phase) || Unsettled(head, here, phase) <==>
            !(status != 0 && phase == Calm && here.Some? && here == head)
  {
  }

  /** The failure comes before the decision it should have led to. */
  predicate Loses(fault: Fault, completed: bool) {
    match fault
    case NoFault => false
    case Recording => true
    case Settling => !completed
    case Handover => completed
  }

  predicate Wanted(row: StudioRow) {
    if row.desiredRunning then row.state.StudioStopped? || (row.state.StudioFailed? && !row.failed)
    else row.state.StudioRunning? || row.state.StudioStarting? || row.state.StudioFailed?
  }

  /** The Studio rows one turn starts a child for: each in order that asks for one and has none. */
  function StudioStarts(running: set<Runtime>, rows: seq<StudioRow>): seq<StudioRow>
    decreases |rows|
  {
    if rows == [] then []
    else if rows[0].runtime in running || !Wanted(rows[0]) then StudioStarts(running, rows[1..])
    else [rows[0]] + StudioStarts(running + {rows[0].runtime}, rows[1..])
  }

  /** A row asks for its Studio to be started, or for one to be stopped. */
  predicate AsksForAChild(row: StudioRow) {
    match row.state
    case StudioStopped => row.desiredRunning
    case StudioFailed => !row.desiredRunning || !row.failed
    case _ => !row.desiredRunning
  }

  /** A turn starts a child for an environment exactly when it has none and a row of it asks for one, and the first such
      row says whether it is to run. */
  lemma {:induction false} StudiosStartExactly(running: set<Runtime>, rows: seq<StudioRow>, r: Runtime)
    ensures r in Runtimes(StudioStarts(running, rows)) <==>
            r !in running && exists i :: 0 <= i < |rows| && rows[i].runtime == r && AsksForAChild(rows[i])
    ensures forall row :: row in StudioStarts(running, rows) && row.runtime == r ==>
              exists i :: 0 <= i < |rows| && rows[i] == row && AsksForAChild(row)
                          && forall j :: 0 <= j < i && rows[j].runtime == r ==> !AsksForAChild(rows[j])
    decreases |rows|
  {
    if rows != [] {
      var first, rest := rows[0], rows[1..];
      assert rows == [first] + rest;
      if first.runtime in running || !Wanted(first) {
        StudiosStartExactly(running, rest, r);
      } else {
        StudiosStartExactly(running + {first.runtime}, rest, r);
        assert StudioStarts(running, rows) == [first] + StudioStarts(running + {first.runtime}, rest);
        assert rows[0] == first && AsksForAChild(first);
      }
    }
  }

  function Runtimes(rows: seq<StudioRow>): set<Runtime> {
    set r | r in rows :: r.runtime
  }

  function Studios(rows: seq<StudioRow>): seq<Child> {
    seq(|rows|, i requires 0 <= i < |rows| => Studio(rows[i].runtime, rows[i].desiredRunning))
  }

  method StartWanted(running: set<Runtime>, rows: seq<StudioRow>) returns (all: set<Runtime>, started: seq<StudioRow>)
    ensures started == StudioStarts(running, rows) && all == running + Runtimes(started)
  {
    all, started := running, [];
    for i := 0 to |rows|
      invariant all == running + Runtimes(started)
      invariant StudioStarts(running, rows) == started + StudioStarts(all, rows[i..])
    {
      var row := rows[i];
      assert rows[i..][0] == row && rows[i..][1..] == rows[i + 1..];
      if row.runtime !in all && Wanted(row) {
        assert Runtimes(started + [row]) == Runtimes(started) + {row.runtime};
        all, started := all + {row.runtime}, started + [row];
      }
    }
  }

  function SignIns(runtimes: seq<Runtime>): seq<Child> {
    seq(|runtimes|, i requires 0 <= i < |runtimes| => SignIn(runtimes[i]))
  }

  function DataApis(runtimes: seq<Runtime>): seq<Child> {
    seq(|runtimes|, i requires 0 <= i < |runtimes| => DataApi(runtimes[i]))
  }

  function Toggles(keys: seq<(Service, Runtime)>): seq<Child> {
    seq(|keys|, i requires 0 <= i < |keys| => Toggle(keys[i].0, keys[i].1))
  }

  function Starting(children: seq<Child>, checkout: Commit): seq<Event> {
    seq(|children|, i requires 0 <= i < |children| => Started(children[i], checkout))
  }

  /** What a schedule started: one child for each request that had none and was due. */
  ghost predicate StartedDue<K(!new)>(started: seq<K>, running: set<K>, after: map<K, int>, requests: seq<K>, paused: bool, now: int) {
    && NoDuplicates(started)
    && forall k :: k in started <==> !paused && k in requests && k !in running && Due(after, k, now)
  }

  // ------------------------------------------------------------ what one turn leaves

  /** What a turn finds, and leaves. */
  datatype Picture = Picture(
    checkout: Commit, confirm: bool, worker: bool, backup: bool, studios: set<Runtime>,
    signIn: set<Runtime>, signInAfter: map<Runtime, int>, dataApi: set<Runtime>, dataApiAfter: map<Runtime, int>,
    toggles: set<(Service, Runtime)>, togglesAfter: map<(Service, Runtime), int>,
    hostAction: bool, hostActionAfter: int, scheduler: bool, schedulerAfter: int, rolling: bool, rollingAfter: int,
    update: Option<Kind>, updatesAfter: int, drain: Option<Drain>, restarts: seq<int>, stopped: bool)

  predicate PausedIn(p: Picture) {
    p.drain.Some? || (p.update.Some? && !p.update.value.Check?)
  }

  predicate IdleIn(p: Picture, records: bool) {
    && !p.worker && !p.backup && p.studios == {} && p.signIn == {} && p.dataApi == {} && p.toggles == {} && !p.scheduler
    && !p.rolling && !p.hostAction && !records
  }

  predicate BackupServed(was: bool, now: bool, t: Turn, paused: bool) {
    now == if was then t.backupStatus.None? else t.backupDue && !paused
  }

  predicate StudiosServed(was: set<Runtime>, now: set<Runtime>, t: Turn, paused: bool) {
    var left := was - t.studioExits.Keys;
    now == left + Runtimes(if paused then [] else StudioStarts(left, t.studios))
  }

  /** One key of a pool: its child is gone once it ended, it is asked again five seconds after the lock was found held,
      and unless an update keeps everything still a request that has no child and may be asked has one. */
  predicate KeyServed<K(==)>(was: set<K>, after: map<K, int>, now: set<K>, after': map<K, int>, exits: map<K, int>,
                             requests: seq<K>, paused: bool, moment: int, k: K) {
    var left := k in was && k !in exits;
    var busy := k in was && k in exits && exits[k] == 75;
    var held := if busy then true else k in after;
    var due := if busy then false else k !in after || moment >= after[k];
    && (k in now <==> left || (k in requests && !paused && due))
    && (k in after' <==> held && (left || k !in now))
    && (k in after' ==> after'[k] == if busy then moment + 5 else if k in after then after[k] else 0)
  }

  ghost predicate PoolServed<K(!new)>(was: set<K>, after: map<K, int>, now: set<K>, after': map<K, int>, exits: map<K, int>,
                                      requests: seq<K>, paused: bool, moment: int) {
    forall k :: KeyServed(was, after, now, after', exits, requests, paused, moment, k)
  }

  lemma DueServes<K(!new)>(was: set<K>, after: map<K, int>, exits: map<K, int>, requests: seq<K>, paused: bool, moment: int,
                          started: seq<K>, now: set<K>, after': map<K, int>)
    requires StartedDue(started, was - exits.Keys, after + Retries(was, exits, moment), requests, paused, moment)
    requires now == (was - exits.Keys) + (set k | k in started)
    requires var retry := after + Retries(was, exits, moment); after' == map k | k in retry && k !in started :: retry[k]
    ensures PoolServed(was, after, now, after', exits, requests, paused, moment)
  {
    forall k ensures KeyServed(was, after, now, after', exits, requests, paused, moment, k) {
      assert k in was && k in exits && exits[k] == 75 <==> k in Retries(was, exits, moment);
    }
  }

  predicate HostServed(was: bool, after: int, now: bool, after': int, t: Turn, paused: bool) {
    && (was && t.hostStatus.Some? ==> after' == t.now + if t.hostStatus.value == 0 then 0 else 30)
    && (!(was && t.hostStatus.Some?) ==> after' == after)
    && now == if was && t.hostStatus.None? then true else t.hostAsked && !paused && t.now >= after'
  }

  predicate SchedulerServed(was: bool, after: int, now: bool, after': int, t: Turn, paused: bool) {
    && after' == (if was && t.schedulerExited then t.now + 5 else after)
    && now == if paused then false else if was then !t.schedulerExited else t.now >= after
  }

  predicate RollingServed(was: bool, after: int, now: bool, after': int, t: Turn, paused: bool) {
    && (was && t.rollingStatus.Some? ==>
          after' == t.now + if t.rollingStatus.value == 0 then 1 else if t.rollingStatus.value == 75 then 5 else 60)
    && (!(was && t.rollingStatus.Some?) ==> after' == after)
    && now == if was then t.rollingStatus.None? else t.rollingDue && !paused && t.now >= after
  }

  /** Every schedule but the update channel's had its turn. */
  ghost predicate WorkServed(was: Picture, now: Picture, t: Turn) {
    var paused := PausedIn(was);
    && BackupServed(was.backup, now.backup, t, paused)
    && StudiosServed(was.studios, now.studios, t, paused)
    && PoolServed(was.signIn, was.signInAfter, now.signIn, now.signInAfter, t.signInExits, t.signIn, paused, t.now)
    && PoolServed(was.dataApi, was.dataApiAfter, now.dataApi, now.dataApiAfter, t.dataApiExits, t.dataApi, paused, t.now)
    && PoolServed(was.toggles, was.togglesAfter, now.toggles, now.togglesAfter, t.toggleExits, t.toggles, paused, t.now)
    && HostServed(was.hostAction, was.hostActionAfter, now.hostAction, now.hostActionAfter, t, paused)
    && SchedulerServed(was.scheduler, was.schedulerAfter, now.scheduler, now.schedulerAfter, t, paused)
    && RollingServed(was.rolling, was.rollingAfter, now.rolling, now.rollingAfter, t, paused)
  }

  lemma Assemble(was: Picture, now: Picture, t: Turn)
    requires BackupServed(was.backup, now.backup, t, PausedIn(was))
    requires StudiosServed(was.studios, now.studios, t, PausedIn(was))
    requires PoolServed(was.signIn, was.signInAfter, now.signIn, now.signInAfter, t.signInExits, t.signIn, PausedIn(was), t.now)
    requires PoolServed(was.dataApi, was.dataApiAfter, now.dataApi, now.dataApiAfter, t.dataApiExits, t.dataApi, PausedIn(was), t.now)
    requires PoolServed(was.toggles, was.togglesAfter, now.toggles, now.togglesAfter, t.toggleExits, t.toggles, PausedIn(was), t.now)
    requires HostServed(was.hostAction, was.hostActionAfter, now.hostAction, now.hostActionAfter, t, PausedIn(was))
    requires SchedulerServed(was.scheduler, was.schedulerAfter, now.scheduler, now.schedulerAfter, t, PausedIn(was))
    requires RollingServed(was.rolling, was.rollingAfter, now.rolling, now.rollingAfter, t, PausedIn(was))
    ensures WorkServed(was, now, t)
  {
  }

  /** Nothing but the schedules' own children changed. */
  predicate WorkOnly(was: Picture, now: Picture) {
    && now.checkout == was.checkout && now.confirm == was.confirm && now.worker == was.worker && now.update == was.update
    && now.updatesAfter == was.updatesAfter && now.drain == was.drain && now.stopped == was.stopped
  }

  predicate WorkUntouched(was: Picture, now: Picture) {
    && now.backup == was.backup && now.studios == was.studios
    && now.signIn == was.signIn && now.signInAfter == was.signInAfter
    && now.dataApi == was.dataApi && now.dataApiAfter == was.dataApiAfter
    && now.toggles == was.toggles && now.togglesAfter == was.togglesAfter
    && now.hostAction == was.hostAction && now.hostActionAfter == was.hostActionAfter
    && now.scheduler == was.scheduler && now.schedulerAfter == was.schedulerAfter
    && now.rolling == was.rolling && now.rollingAfter == was.rollingAfter
  }

  /** A check starts when it can be spawned; what fails is tried later. */
  predicate CheckServed(update: Option<Kind>, drain: Option<Drain>, t: Turn, failed: bool) {
    failed == !t.spawns && drain.None? && update == if t.spawns then Some(Kind.Check) else None
  }

  /** A drain goes on: to its child once everything is idle, over when it took too long. */
  predicate DrainServed(was: Drain, idle: bool, update: Option<Kind>, drain: Option<Drain>, t: Turn, failed: bool) {
    if idle then failed == !t.spawns && drain.None? && update == if t.spawns then Some(was.kind) else None
    else if t.now < was.until then !failed && drain == Some(was) && update.None?
    else drain.None? && update.None? && (failed <==> t.fault.Recording? || t.fault.Settling?)
  }

  /** An upgrade or rollback that was asked for begins its drain, but not beside the daily backup or when it is refused. */
  predicate AskServed(kind: Kind, refused: bool, backup: bool, idle: bool, update: Option<Kind>, drain: Option<Drain>, t: Turn,
                      failed: bool) {
    if backup || refused then !failed && update.None? && drain.None?
    else if t.fault.Recording? then failed && update.None? && drain.None?
    else DrainServed(Drain(kind, t.now + 600), idle, update, drain, t, failed)
  }

  /** The update channel had its turn: it follows a child, then a drain, then an order, then a check that is due. */
  predicate UpdatesServed(wasUpdate: Option<Kind>, wasDrain: Option<Drain>, backup: bool, idle: bool, update: Option<Kind>,
                          drain: Option<Drain>, t: Turn, failed: bool) {
    if wasUpdate.Some? then
      if t.updateStatus.None? then !failed && update == wasUpdate && drain == wasDrain else update.None? && drain.None?
    else if wasDrain.Some? then DrainServed(wasDrain.value, idle, update, drain, t, failed)
    else if t.ask.Some? then
      if t.ask.value.kind.Check? then CheckServed(update, drain, t, failed)
      else AskServed(t.ask.value.kind, t.ask.value.refused, backup, idle, update, drain, t, failed)
    else if t.checkDue then CheckServed(update, drain, t, failed)
    else !failed && update.None? && drain.None?
  }

  predicate ChannelServed(mid: Picture, now: Picture, t: Turn, failed: bool) {
    && UpdatesServed(mid.update, mid.drain, mid.backup, IdleIn(mid, t.records), now.update, now.drain, t, failed)
    && now.updatesAfter == if failed then t.now + 60 else mid.updatesAfter
  }

  lemma ServeChannel(mid: Picture, now: Picture, t: Turn, failed: bool)
    requires UpdatesServed(mid.update, mid.drain, mid.backup, IdleIn(mid, t.records), now.update, now.drain, t, failed)
    requires now.updatesAfter == if failed then t.now + 60 else mid.updatesAfter
    ensures ChannelServed(mid, now, t, failed)
  {
  }

  /** Looking at the console and the worker ends the program: the console exited, or the worker too often. */
  predicate ConsoleOrWorker(worker: bool, paused: bool, restarts: seq<int>, t: Turn) {
    (t.serverExited && !t.exitOwned) || (worker && t.workerExited && !paused && AtLimit(restarts, t.now))
  }

  predicate LookRaises(was: Picture, t: Turn) {
    ConsoleOrWorker(was.worker, PausedIn(was), was.restarts, t)
  }

  predicate TurnRaises(was: Picture, t: Turn, workerLock: bool) {
    LookRaises(was, t) || (was.confirm && if t.confirmed then !workerLock else t.overdue)
  }

  predicate TurnGoesOn(was: Picture, t: Turn, workerLock: bool) {
    !LookRaises(was, t) && (was.confirm ==> t.confirmed && workerLock)
  }

  /** The worker after it was looked at: started by the confirmation, started again after an exit, left otherwise. */
  predicate WorkerLookedAt(was: Picture, t: Turn) {
    if was.confirm then true else if was.worker && t.workerExited then !PausedIn(was) else was.worker
  }

  predicate CheckoutFollowed(was: Picture, now: Picture, t: Turn) {
    now.checkout == if was.update.Some? && !was.update.value.Check? && t.moved.Some? then t.moved.value else was.checkout
  }

  predicate ChannelUntouched(was: Picture, now: Picture) {
    now.update == was.update && now.drain == was.drain && now.updatesAfter == was.updatesAfter && now.stopped == was.stopped
  }

  lemma Looked(was: Picture, now: Picture, t: Turn, workerLock: bool, goesOn: bool, raised: bool)
    requires var bad := ConsoleOrWorker(was.worker, PausedIn(was), was.restarts, t);
             && (raised <==> bad || (was.confirm && if t.confirmed then !workerLock else t.overdue))
             && (goesOn <==> !bad && (was.confirm ==> t.confirmed && workerLock))
             && (goesOn ==> now.worker == (if was.confirm then true else if was.worker && t.workerExited then !PausedIn(was) else was.worker))
             && (goesOn ==> !now.confirm)
    requires WorkUntouched(was, now) && ChannelUntouched(was, now) && CheckoutFollowed(was, now, t)
    ensures BeginServed(was, now, t, workerLock, goesOn, raised)
  {
  }

  /** One whole turn. */
  ghost predicate TurnTaken(was: Picture, now: Picture, t: Turn, workerLock: bool) {
    && CheckoutFollowed(was, now, t)
    && if TurnGoesOn(was, t, workerLock) then
         exists mid, failed :: Went(was, mid, now, t, failed)
       else WorkUntouched(was, now) && now.update == was.update && now.drain == was.drain && !now.stopped
  }

  /** The turn of one that goes on: the worker looked at, then the schedules, then the update channel unless it waits. */
  ghost predicate Went(was: Picture, mid: Picture, now: Picture, t: Turn, failed: bool) {
    && mid.worker == WorkerLookedAt(was, t) && !mid.confirm && !mid.stopped
    && mid.update == was.update && mid.drain == was.drain && mid.updatesAfter == was.updatesAfter
    && WorkServed(was, mid, t)
    && if t.now < was.updatesAfter then now == mid else ChannelServed(mid, now, t, failed) && WorkUntouched(mid, now)
  }

  lemma GoesOn(was: Picture, looked: Picture, mid: Picture, now: Picture, t: Turn, failed: bool)
    requires WorkUntouched(was, looked) && ChannelUntouched(was, looked) && looked.worker == WorkerLookedAt(was, t)
    requires !looked.confirm && !was.stopped && WorkServed(looked, mid, t) && WorkOnly(looked, mid)
    requires if t.now < looked.updatesAfter then now == mid else ChannelServed(mid, now, t, failed) && WorkUntouched(mid, now)
    ensures Went(was, mid, now, t, failed)
  {
  }

  lemma Take(was: Picture, looked: Picture, mid: Picture, now: Picture, t: Turn, workerLock: bool, goesOn: bool, raised: bool,
             failed: bool)
    requires BeginServed(was, looked, t, workerLock, goesOn, raised) && !was.stopped
    requires if goesOn then ScheduleServed(looked, mid, now, t, failed) else now == looked
    ensures TurnTaken(was, now, t, workerLock) && (raised <==> TurnRaises(was, t, workerLock))
  {
    if goesOn { GoesOn(was, looked, mid, now, t, failed); }
  }

  /** The first half of a turn. */
  predicate BeginServed(was: Picture, looked: Picture, t: Turn, workerLock: bool, goesOn: bool, raised: bool) {
    && (raised <==> TurnRaises(was, t, workerLock)) && (goesOn <==> TurnGoesOn(was, t, workerLock))
    && WorkUntouched(was, looked) && ChannelUntouched(was, looked) && CheckoutFollowed(was, looked, t)
    && (goesOn ==> looked.worker == WorkerLookedAt(was, t) && !looked.confirm)
  }

  /** The second half. */
  ghost predicate ScheduleServed(looked: Picture, mid: Picture, now: Picture, t: Turn, failed: bool) {
    && WorkServed(looked, mid, t) && WorkOnly(looked, mid) && now.checkout == mid.checkout && now.confirm == mid.confirm
    && if t.now < looked.updatesAfter then now == mid else ChannelServed(mid, now, t, failed) && WorkUntouched(mid, now)
  }

  /** The pictures before and after each of the first turns, none of which was to stop. */
  ghost predicate Taken(start: Picture, trail: seq<Picture>, turns: seq<Turn>, workerLock: bool) {
    && 0 < |trail| <= |turns| + 1 && trail[0] == start
    && forall i :: 0 < i < |trail| ==> TakenAt(trail, turns, workerLock, i)
  }

  ghost predicate TakenAt(trail: seq<Picture>, turns: seq<Turn>, workerLock: bool, i: nat)
    requires 0 < i < |trail| <= |turns| + 1
  {
    !turns[i - 1].stopAsked && TurnTaken(trail[i - 1], trail[i], turns[i - 1], workerLock)
  }

  /** Turns were left out only after one was to stop, raised, or stopped the supervisor. */
  ghost predicate RunTaken(start: Picture, trail: seq<Picture>, turns: seq<Turn>, workerLock: bool, stopped: bool) {
    && Taken(start, trail, turns, workerLock)
    && (|trail| <= |turns| && !turns[|trail| - 1].stopAsked ==>
          stopped || (|trail| > 1 && TurnRaises(trail[|trail| - 2], turns[|trail| - 2], workerLock)))
  }

  lemma OneMoreTaken(start: Picture, trail: seq<Picture>, now: Picture, turns: seq<Turn>, workerLock: bool)
    requires Taken(start, trail, turns, workerLock) && |trail| <= |turns| && !turns[|trail| - 1].stopAsked
    requires TurnTaken(trail[|trail| - 1], now, turns[|trail| - 1], workerLock)
    ensures Taken(start, trail + [now], turns, workerLock)
  {
    forall i | 0 < i < |trail| + 1 ensures TakenAt(trail + [now], turns, workerLock, i) {
      if i < |trail| { assert TakenAt(trail, turns, workerLock, i); }
    }
  }

  class Supervisor {
    const head: Option<Commit>      // HEAD as this process read it when it started
    const workerLock: bool
    ghost const home: Commit        // HEAD when this process started
    var checkout: Commit            // HEAD now

    var worker: bool
    var backup: bool
    var studios: set<Runtime>
    var signIn: set<Runtime>
    var signInAfter: map<Runtime, int>
    var dataApi: set<Runtime>
    var dataApiAfter: map<Runtime, int>
    var toggles: set<(Service, Runtime)>
    var togglesAfter: map<(Service, Runtime), int>
    var hostAction: bool
    var hostActionAfter: int
    var scheduler: bool
    var schedulerAfter: int
    var rolling: bool
    var rollingAfter: int
    var update: Option<Kind>
    var updatesAfter: int
    var drain: Option<Drain>
    var confirm: bool
    var restarts: seq<int>
    var restartForUpgrade: bool
    var stopped: bool

    ghost var log: seq<Event>
    ghost var counted: seq<int>     // every restart of the worker that counted
    ghost var clock: int            // when the worker was last looked at
    ghost var escaped: bool         // an update child's end could not be recorded and left HEAD elsewhere

    function Now(): Picture
      reads this
    {
      Picture(checkout, confirm, worker, backup, studios, signIn, signInAfter, dataApi, dataApiAfter, toggles, togglesAfter,
              hostAction, hostActionAfter, scheduler, schedulerAfter, rolling, rollingAfter, update, updatesAfter, drain,
              restarts, stopped)
    }

    predicate Paused()
      reads `drain, `update
    {
      drain.Some? || (update.Some? && !update.value.Check?)
    }

    predicate Moving()
      reads `update
    {
      update.Some? && !update.value.Check?
    }

    predicate Alone()
      reads `worker, `backup, `studios, `signIn, `dataApi, `toggles, `scheduler, `rolling, `hostAction
    {
      !worker && !backup && studios == {} && signIn == {} && dataApi == {} && toggles == {} && !scheduler && !rolling
      && !hostAction
    }

    /** The log says what the fields say, and the update child runs alone. */
    ghost predicate Core()
      reads `log, `drain, `update, `confirm
      reads `worker, `backup, `studios, `signIn, `dataApi, `toggles, `scheduler, `rolling, `hostAction
    {
      && Orderly(log) && Watch(log) == View(Paused(), update)
      && (drain.Some? ==> update.None? && !drain.value.kind.Check?)
      && (confirm ==> drain.None? && update.None? && Alone())
      && (worker ==> workerLock)
      && (Moving() ==> Alone())
      && (head.Some? ==> head.value == home)
    }

    ghost predicate Remembered()
      reads `counted, `restarts, `clock
    {
      Kept(counted, restarts, clock)
    }

    /** The process goes on only from the commit it started on. */
    ghost predicate Home()
      reads `log, `escaped, `checkout, `update, `stopped
    {
      !escaped ==> AtHome(log, home) && (checkout == home || Moving() || stopped)
    }

    ghost predicate Valid()
      reads `log, `drain, `update, `confirm, `escaped, `checkout, `stopped
      reads `worker, `backup, `studios, `signIn, `dataApi, `toggles, `scheduler, `rolling, `hostAction
    {
      Core() && Home()
    }

    constructor (commit: Commit, readable: bool, workerLock: bool, confirm: bool)
      ensures Valid() && Remembered() && Alone() && checkout == home == commit && !stopped && !restartForUpgrade && !escaped
      ensures log == [] && counted == [] && clock == 0 && update.None? && drain.None? && this.confirm == confirm
      ensures this.workerLock == workerLock && head == if readable then Some(commit) else None
      ensures signInAfter == map[] && dataApiAfter == map[] && togglesAfter == map[]
      ensures hostActionAfter == schedulerAfter == rollingAfter == updatesAfter == 0 && restarts == []
    {
      head := if readable then Some(commit) else None;
      this.workerLock := workerLock;
      home := commit;
      checkout := commit;
      worker, backup, hostAction, scheduler, rolling := false, false, false, false, false;
      studios, signIn, dataApi, toggles := {}, {}, {}, {};
      signInAfter, dataApiAfter, togglesAfter := map[], map[], map[];
      hostActionAfter, schedulerAfter, rollingAfter, updatesAfter := 0, 0, 0, 0;
      update, drain := None, None;
      this.confirm := confirm;
      restarts, restartForUpgrade, stopped := [], false, false;
      log, counted, clock, escaped := [], [], 0, false;
    }

    ghost method Note(e: Event)
      requires Orderly(log) && Allowed(Watch(log), e)
      modifies `log
      ensures log == old(log) + [e] && Orderly(log) && Watch(log) == See(old(Watch(log)), e)
      ensures AtHome(log, home) <==> old(AtHome(log, home)) && StartsAt(e, home)
    {
      Append(log, e);
      log := log + [e];
    }

    // ---------------------------------------------------------- the worker

    method StartWorker()
      requires Core() && !Paused() && !confirm && workerLock
      modifies `worker, `log
      ensures Core() && worker && log == old(log) + [Started(Worker, checkout)]
      ensures old(AtHome(log, home)) && checkout == home ==> AtHome(log, home)
    {
      Note(Started(Worker, checkout));
      worker := true;
    }

    /** The worker exited while nothing drains: it is started again, unless this is its fourth exit within 60
        seconds. */
    method Restart(now: int) returns (raised: bool)
      requires Core() && !Paused() && !confirm && workerLock && Remembered() && clock == now
      modifies `worker, `log, `restarts, `counted
      ensures Core() && Remembered() && (old(AtHome(log, home)) && checkout == home ==> AtHome(log, home))
      ensures raised <==> AtLimit(old(restarts), now)
      ensures if raised then Same(old(worker), old(log), old(counted))
              else Same(true, old(log) + [Started(Worker, checkout)], old(counted) + [now])
    {
      raised := Count(now);
      if !raised { StartWorker(); }
    }

    /** Counts an exit, unless the limit is reached. */
    method Count(now: int) returns (limit: bool)
      requires Remembered() && clock == now
      modifies `restarts, `counted
      ensures Remembered()
      ensures limit <==> AtLimit(old(restarts), now)
      ensures counted == if limit then old(counted) else old(counted) + [now]
    {
      restarts := Prune(restarts, now, counted);
      limit := |restarts| >= LIMIT;
      if !limit {
        KeptCounted(counted, restarts, now);
        restarts, counted := restarts + [now], counted + [now];
      }
    }

    ghost method SetClock(now: int)
      requires Remembered() && clock <= now
      modifies `clock
      ensures Remembered() && clock == now
    {
      KeptLater(counted, restarts, clock, now);
      clock := now;
    }

    /** An exit while an update drains the supervisor is not counted. */
    method Check(serverExited: bool, exitOwned: bool, workerExited: bool, now: int) returns (raised: bool)
      requires Valid() && Remembered() && !stopped && clock <= now
      modifies `worker, `log, `restarts, `counted, `clock
      ensures Valid() && Remembered() && clock == now
      ensures if serverExited && !exitOwned then raised && Same(old(worker), old(log), old(counted))
              else if !(old(worker) && workerExited) then !raised && Same(old(worker), old(log), old(counted))
              else if Paused() then !raised && Same(false, old(log), old(counted))
              else if AtLimit(old(restarts), now) then raised && Same(old(worker), old(log), old(counted))
              else !raised && Same(true, old(log) + [Started(Worker, checkout)], old(counted) + [now])
    {
      SetClock(now);
      if serverExited && !exitOwned { return true; }
      raised := false;
      if worker && workerExited {
        if Paused() { worker := false; } else { raised := Restart(now); }
      }
    }

    ghost predicate Same(worker: bool, log: seq<Event>, counted: seq<int>)
      reads `worker, `log, `counted
    {
      this.worker == worker && this.log == log && this.counted == counted
    }

    // ---------------------------------------------------------- the schedules

    ghost method NoteAll(children: seq<Child>)
      requires Core() && !Paused()
      requires forall i :: 0 <= i < |children| ==> !children[i].Update?
      modifies `log
      ensures Core() && log == old(log) + Starting(children, checkout)
      ensures old(AtHome(log, home)) && checkout == home ==> AtHome(log, home)
      decreases |children|
    {
      if children != [] {
        var last := |children| - 1;
        NoteAll(children[..last]);
        Note(Started(children[last], checkout));
        assert Starting(children, checkout) == Starting(children[..last], checkout) + [Started(children[last], checkout)];
      } else {
        assert log == old(log) + Starting(children, checkout);
      }
    }

    method ScheduleBackup(status: Option<int>, due: bool)
      requires Valid() && !stopped && !confirm
      modifies `backup, `log
      ensures Valid()
      ensures if old(backup) then backup == status.None? && log == old(log)
              else if Paused() || !due then !backup && log == old(log)
              else backup && log == old(log) + [Started(Backup, checkout)]
    {
      if backup {
        if status.Some? { backup := false; }
        return;
      }
      if Paused() || !due { return; }
      Note(Started(Backup, checkout));
      backup := true;
    }

    method ScheduleStudios(exits: map<Runtime, int>, rows: seq<StudioRow>)
      requires Valid() && !stopped && !confirm
      modifies `studios, `log
      ensures Valid()
      ensures var starts := if Paused() then [] else StudioStarts(old(studios) - exits.Keys, rows);
              studios == (old(studios) - exits.Keys) + Runtimes(starts) && log == old(log) + Starting(Studios(starts), checkout)
    {
      var running, retry := Reap(studios, map[], exits, 0);
      studios := running;
      if Paused() {
        assert log == old(log) + Starting(Studios([]), checkout);
        return;
      }
      var all, started := StartWanted(running, rows);
      studios := all;
      NoteAll(Studios(started));
    }

    method ScheduleSignIn(exits: map<Runtime, int>, requests: seq<Runtime>, now: int) returns (started: seq<Runtime>)
      requires Valid() && !stopped && !confirm
      modifies `signIn, `signInAfter, `log
      ensures Valid()
      ensures StartedDue(started, old(signIn) - exits.Keys, old(signInAfter) + Retries(old(signIn), exits, now), requests, Paused(), now)
      ensures PoolServed(old(signIn), old(signInAfter), signIn, signInAfter, exits, requests, Paused(), now)
      ensures signIn == (old(signIn) - exits.Keys) + (set k | k in started)
      ensures log == old(log) + Starting(SignIns(started), checkout)
    {
      signIn, signInAfter := Reap(signIn, signInAfter, exits, now);
      started := [];
      if Paused() {
        assert log == old(log) + Starting(SignIns(started), checkout);
      } else {
        signInAfter, started := StartDue(signIn, signInAfter, requests, now);
        signIn := signIn + (set k | k in started);
        NoteAll(SignIns(started));
      }
      DueServes(old(signIn), old(signInAfter), exits, requests, Paused(), now, started, signIn, signInAfter);
    }

    method ScheduleDataApi(exits: map<Runtime, int>, requests: seq<Runtime>, now: int) returns (started: seq<Runtime>)
      requires Valid() && !stopped && !confirm
      modifies `dataApi, `dataApiAfter, `log
      ensures Valid()
      ensures StartedDue(started, old(dataApi) - exits.Keys, old(dataApiAfter) + Retries(old(dataApi), exits, now), requests, Paused(), now)
      ensures PoolServed(old(dataApi), old(dataApiAfter), dataApi, dataApiAfter, exits, requests, Paused(), now)
      ensures dataApi == (old(dataApi) - exits.Keys) + (set k | k in started)
      ensures log == old(log) + Starting(DataApis(started), checkout)
    {
      dataApi, dataApiAfter := Reap(dataApi, dataApiAfter, exits, now);
      started := [];
      if Paused() {
        assert log == old(log) + Starting(DataApis(started), checkout);
      } else {
        dataApiAfter, started := StartDue(dataApi, dataApiAfter, requests, now);
        dataApi := dataApi + (set k | k in started);
        NoteAll(DataApis(started));
      }
      DueServes(old(dataApi), old(dataApiAfter), exits, requests, Paused(), now, started, dataApi, dataApiAfter);
    }

    method ScheduleToggles(exits: map<(Service, Runtime), int>, requests: seq<(Service, Runtime)>, now: int)
      returns (started: seq<(Service, Runtime)>)
      requires Valid() && !stopped && !confirm
      modifies `toggles, `togglesAfter, `log
      ensures Valid()
      ensures StartedDue(started, old(toggles) - exits.Keys, old(togglesAfter) + Retries(old(toggles), exits, now), requests, Paused(), now)
      ensures PoolServed(old(toggles), old(togglesAfter), toggles, togglesAfter, exits, requests, Paused(), now)
      ensures toggles == (old(toggles) - exits.Keys) + (set k | k in started)
      ensures log == old(log) + Starting(Toggles(started), checkout)
    {
      toggles, togglesAfter := Reap(toggles, togglesAfter, exits, now);
      started := [];
      if Paused() {
        assert log == old(log) + Starting(Toggles(started), checkout);
      } else {
        togglesAfter, started := StartDue(toggles, togglesAfter, requests, now);
        toggles := toggles + (set k | k in started);
        NoteAll(Toggles(started));
      }
      DueServes(old(toggles), old(togglesAfter), exits, requests, Paused(), now, started, toggles, togglesAfter);
    }

    method ScheduleHostActions(status: Option<int>, asked: bool, now: int)
      requires Valid() && !stopped && !confirm
      modifies `hostAction, `hostActionAfter, `log
      ensures Valid()
      ensures old(hostAction) && status.Some? ==> hostActionAfter == now + (if status.value != 0 then 30 else 0)
      ensures !(old(hostAction) && status.Some?) ==> hostActionAfter == old(hostActionAfter)
      ensures if old(hostAction) && status.None? then hostAction && log == old(log)
              else if Paused() || now < hostActionAfter || !asked then !hostAction && log == old(log)
              else hostAction && log == old(log) + [Started(HostAction, checkout)]
    {
      if hostAction {
        if status.None? { return; }
        hostAction := false;
        hostActionAfter := now + if status.value != 0 then 30 else 0;
      }
      if Paused() || now < hostActionAfter || !asked { return; }
      Note(Started(HostAction, checkout));
      hostAction := true;
    }

    /** The scheduler is the one child an update does not wait for: it is stopped. */
    method ScheduleScheduler(exited: bool, now: int)
      requires Valid() && !stopped && !confirm
      modifies `scheduler, `schedulerAfter, `log
      ensures Valid()
      ensures Paused() ==> !scheduler && log == old(log)
      ensures !Paused() && old(scheduler) ==> (scheduler <==> !exited) && log == old(log)
      ensures !Paused() && !old(scheduler) ==>
                if now < schedulerAfter then !scheduler && log == old(log)
                else scheduler && log == old(log) + [Started(Scheduler, checkout)]
      ensures schedulerAfter == if old(scheduler) && exited then now + 5 else old(schedulerAfter)
    {
      if scheduler {
        if !exited {
          if Paused() { scheduler := false; }
          return;
        }
        scheduler := false;
        schedulerAfter := now + 5;
      }
      if Paused() || now < schedulerAfter { return; }
      Note(Started(Scheduler, checkout));
      scheduler := true;
    }

    method ScheduleRolling(status: Option<int>, due: bool, now: int)
      requires Valid() && !stopped && !confirm
      modifies `rolling, `rollingAfter, `log
      ensures Valid()
      ensures old(rolling) && status.Some? ==>
                rollingAfter == now + (if status.value == 0 then 1 else if status.value == BUSY then 5 else 60)
      ensures !(old(rolling) && status.Some?) ==> rollingAfter == old(rollingAfter)
      ensures if old(rolling) && status.None? then rolling && log == old(log)
              else if Paused() || now < rollingAfter || !due then !rolling && log == old(log)
              else rolling && log == old(log) + [Started(Rolling, checkout)]
    {
      if rolling {
        if status.None? { return; }
        rolling := false;
        rollingAfter := now + if status.value == 0 then 1 else if status.value == BUSY then 5 else 60;
      }
      if Paused() || now < rollingAfter || !due { return; }
      Note(Started(Rolling, checkout));
      rolling := true;
    }

    // ---------------------------------------------------------- updates

    /** HEAD as the process reads it, or none when it cannot. */
    function Here(readable: bool): Option<Commit>
      reads `checkout
    {
      if readable then Some(checkout) else None
    }

    /** Nothing is pending, and HEAD is where this process read it when it started. */
    predicate AtHomeNow(t: Turn)
      reads `checkout
    {
      t.phase == Calm && t.readable && head == Some(checkout)
    }

    method RestartToSettle(fault: Fault) returns (raised: bool)
      modifies `restartForUpgrade, `stopped
      ensures raised <==> fault.Settling?
      ensures if raised then restartForUpgrade == old(restartForUpgrade) && stopped == old(stopped) else restartForUpgrade && stopped
    {
      if fault.Settling? { return true; }
      restartForUpgrade, stopped, raised := true, true, false;
    }

    /** After an upgrade or rollback that did not go ahead: work goes on only at the commit this process started on
        with no phase pending, and otherwise it stops for the guard. */
    method ResumeWork(readable: bool, phase: Phase, fault: Fault) returns (raised: bool)
      requires Core() && update.None? && drain.None? && !confirm && !stopped
      requires !escaped ==> AtHome(log, home)
      modifies `worker, `log, `restartForUpgrade, `stopped
      ensures Core() && (!escaped ==> AtHome(log, home))
      ensures raised <==> fault.Settling?
      ensures raised || Unsettled(head, Here(readable), phase) ==> worker == old(worker) && log == old(log)
      ensures raised || !Unsettled(head, Here(readable), phase) ==> restartForUpgrade == old(restartForUpgrade) && !stopped
      ensures !raised && Unsettled(head, Here(readable), phase) ==> restartForUpgrade && stopped
      ensures !raised && !Unsettled(head, Here(readable), phase) ==>
                && checkout == home && phase == Calm && worker == workerLock
                && log == old(log) + (if !old(worker) && workerLock then [Started(Worker, checkout)] else [])
    {
      if Unsettled(head, Here(readable), phase) {
        raised := RestartToSettle(fault);
      } else if fault.Settling? {
        raised := true;
      } else {
        raised := false;
        if !worker && workerLock { StartWorker(); }
      }
    }

    method StartCheck(spawns: bool) returns (raised: bool)
      requires Valid() && !stopped && !confirm && drain.None? && update.None?
      modifies `update, `log
      ensures Valid() && raised == !spawns
      ensures if spawns then update == Some(Kind.Check) && log == old(log) + [Started(Update(Kind.Check), checkout)]
              else update.None? && log == old(log)
    {
      raised := !spawns;
      if spawns {
        Note(Started(Update(Kind.Check), checkout));
        update := Some(Kind.Check);
      }
    }

    /** The child a drain was for; when it cannot be started the drain is over. */
    method StartMove(spawns: bool) returns (raised: bool)
      requires Valid() && !stopped && drain.Some? && Alone()
      modifies `update, `drain, `log
      ensures Valid() && drain.None? && raised == !spawns
      ensures if spawns then update == Some(old(drain.value.kind)) && log == old(log) + [Started(Update(old(drain.value.kind)), checkout)]
              else update.None? && log == old(log) + [DrainOver]
    {
      raised := !spawns;
      if spawns {
        Note(Started(Update(drain.value.kind), checkout));
        update := Some(drain.value.kind);
      } else {
        Note(DrainOver);
      }
      drain := None;
    }

    predicate Idle(records: bool)
      reads `worker, `backup, `studios, `signIn, `dataApi, `toggles, `scheduler, `rolling, `hostAction
    {
      Alone() && !records
    }

    /** The child starts once nothing else runs and no operation record waits; a drain that takes too long is given up, and
        work is resumed unless recording that fails first: then the worker is left as it is. */
    method ContinueDrain(t: Turn) returns (raised: bool)
      requires Valid() && !stopped && drain.Some?
      modifies `drain, `update, `worker, `log, `restartForUpgrade, `stopped
      ensures Valid() && (stopped ==> !raised && restartForUpgrade)
      ensures DrainServed(old(drain.value), old(Idle(t.records)), update, drain, t, raised)
      ensures old(Idle(t.records)) ==>
                && drain.None? && raised == !t.spawns && !stopped
                && (t.spawns ==> update == Some(old(drain.value.kind))
                                 && log == old(log) + [Started(Update(old(drain.value.kind)), checkout)])
      ensures !old(Idle(t.records)) && t.now < old(drain.value.until) ==>
                !raised && drain == old(drain) && update.None? && log == old(log) && !stopped && worker == old(worker)
      ensures !old(Idle(t.records)) && t.now >= old(drain.value.until) ==>
                && drain.None? && update.None? && (raised <==> t.fault.Recording? || t.fault.Settling?)
                && (raised ==> !stopped && worker == old(worker) && log == old(log) + [DrainOver])
                && (!raised ==> if AtHomeNow(t) then !stopped && checkout == home && worker == workerLock else stopped && restartForUpgrade)
    {
      raised := false;
      if Idle(t.records) {
        raised := StartMove(t.spawns);
      } else if t.now >= drain.value.until {
        Note(DrainOver);
        drain := None;
        if t.fault.Recording? {
          raised := true;
        } else {
          raised := ResumeWork(t.readable, t.phase, t.fault);
        }
      }
    }

    method BeginDrain(kind: Kind, t: Turn) returns (raised: bool)
      requires Valid() && !stopped && !confirm && drain.None? && update.None? && !kind.Check?
      modifies `drain, `update, `worker, `log, `restartForUpgrade, `stopped
      ensures Valid() && !stopped
      ensures t.fault.Recording? ==> raised && drain.None? && update.None? && log == old(log) && worker == old(worker)
      ensures !raised ==> Paused() && old(log) + [DrainBegun] <= log
      ensures !t.fault.Recording? ==> (raised <==> old(Idle(t.records)) && !t.spawns)
      ensures !old(Idle(t.records)) ==> worker == old(worker)
      ensures !raised && !old(Idle(t.records)) ==> drain == Some(Drain(kind, t.now + DRAIN_SECONDS)) && update.None?
      ensures !raised && old(Idle(t.records)) ==> update == Some(kind) && drain.None?
      ensures !t.fault.Recording? ==> DrainServed(Drain(kind, t.now + 600), old(Idle(t.records)), update, drain, t, raised)
    {
      if t.fault.Recording? { return true; }
      Note(DrainBegun);
      drain := Some(Drain(kind, t.now + DRAIN_SECONDS));
      raised := ContinueDrain(t);
    }

    predicate Lost(kind: Kind, status: int, t: Turn)
      reads `checkout
    {
      !kind.Check? && Loses(t.fault, Completed(kind, status, head, Here(t.readable), t.phase))
    }

    /** How an update child ended. Unless recording it fails first, an upgrade or rollback that ended leads to a
        stop with the restart code, or to resumed work at the commit this process started on. */
    method UpdateFinished(kind: Kind, status: int, t: Turn) returns (raised: bool)
      requires Core() && update.None? && drain.None? && !confirm && !stopped
      requires !escaped ==> AtHome(log, home) && (kind.Check? ==> checkout == home)
      modifies `worker, `log, `restartForUpgrade, `stopped, `escaped
      ensures Valid() && old(log) <= log
      ensures !kind.Check? ==> (raised <==> Lost(kind, status, t))
      ensures escaped <==> old(escaped) || (Lost(kind, status, t) && checkout != home)
      ensures kind.Check? || raised ==> worker == old(worker) && log == old(log) && !stopped
      ensures !kind.Check? && !raised ==>
                if status != 0 && AtHomeNow(t)
                then !stopped && checkout == home && worker == workerLock
                else stopped && restartForUpgrade && log == old(log)
    {
      if kind.Check? { return !t.fault.NoFault?; }
      var completed := Completed(kind, status, head, Here(t.readable), t.phase);
      EndMeans(kind, status, head, Here(t.readable), t.phase);
      if t.fault.Recording? {
        raised := true;
      } else if !completed {
        raised := ResumeWork(t.readable, t.phase, t.fault);
      } else {
        restartForUpgrade := true;
        raised := t.fault.Handover?;
        if !raised { stopped := true; }
      }
      if raised && checkout != home { escaped := true; }
    }

    /** Follows the child, the drain and the requests: one child at a time. */
    method ScheduleUpdates(t: Turn) returns (raised: bool)
      requires Valid() && !stopped && !confirm
      modifies `drain, `update, `worker, `log, `restartForUpgrade, `stopped, `escaped
      ensures Valid()
      ensures UpdatesServed(old(update), old(drain), backup, old(Idle(t.records)), update, drain, t, raised)
      ensures escaped <==> old(escaped) || (old(update).Some? && t.updateStatus.Some?
                                            && Lost(old(update).value, t.updateStatus.value, t) && checkout != home)
      ensures old(update).Some? && t.updateStatus.None? ==> update == old(update) && log == old(log) && !stopped
      ensures old(update).Some? && t.updateStatus.Some? ==> !Paused() && old(log) + [UpdateEnded(old(update).value)] <= log
      ensures old(Moving()) && t.updateStatus.Some? ==> (raised <==> Lost(old(update).value, t.updateStatus.value, t))
      ensures old(Moving()) && t.updateStatus.Some? && !raised ==>
                if t.updateStatus.value != 0 && AtHomeNow(t) then !stopped && checkout == home && worker == workerLock else stopped && restartForUpgrade
      ensures stopped ==> !raised && restartForUpgrade
    {
      raised := false;
      if update.Some? {
        if t.updateStatus.None? { return; }
        var kind := update.value;
        Note(UpdateEnded(kind));
        update := None;
        raised := UpdateFinished(kind, t.updateStatus.value, t);
        return;
      }
      if drain.Some? {
        raised := ContinueDrain(t);
        return;
      }
      if t.ask.Some? {
        if t.ask.value.kind.Check? {
          raised := StartCheck(t.spawns);
        } else if !backup && !t.ask.value.refused {
          raised := BeginDrain(t.ask.value.kind, t);
        }
      } else if t.checkDue {
        raised := StartCheck(t.spawns);
      }
    }

    // ---------------------------------------------------------- the loop

    method ScheduleStudiosAndSignIn(t: Turn)
      requires Valid() && !stopped && !confirm
      modifies `studios, `signIn, `signInAfter, `log
      ensures Valid()
      ensures StudiosServed(old(studios), studios, t, Paused())
      ensures PoolServed(old(signIn), old(signInAfter), signIn, signInAfter, t.signInExits, t.signIn, Paused(), t.now)
    {
      ScheduleStudios(t.studioExits, t.studios);
      var signIns := ScheduleSignIn(t.signInExits, t.signIn, t.now);
    }

    method ScheduleEnvironments(t: Turn)
      requires Valid() && !stopped && !confirm
      modifies `studios, `signIn, `signInAfter, `dataApi, `dataApiAfter, `toggles, `togglesAfter, `log
      ensures Valid()
      ensures StudiosServed(old(studios), studios, t, Paused())
      ensures PoolServed(old(signIn), old(signInAfter), signIn, signInAfter, t.signInExits, t.signIn, Paused(), t.now)
      ensures PoolServed(old(dataApi), old(dataApiAfter), dataApi, dataApiAfter, t.dataApiExits, t.dataApi, Paused(), t.now)
      ensures PoolServed(old(toggles), old(togglesAfter), toggles, togglesAfter, t.toggleExits, t.toggles, Paused(), t.now)
    {
      ScheduleStudiosAndSignIn(t);
      var dataApis := ScheduleDataApi(t.dataApiExits, t.dataApi, t.now);
      var toggled := ScheduleToggles(t.toggleExits, t.toggles, t.now);
    }

    method ScheduleSingles(t: Turn)
      requires Valid() && !stopped && !confirm
      modifies `hostAction, `hostActionAfter, `scheduler, `schedulerAfter, `rolling, `rollingAfter, `log
      ensures Valid()
      ensures HostServed(old(hostAction), old(hostActionAfter), hostAction, hostActionAfter, t, Paused())
      ensures SchedulerServed(old(scheduler), old(schedulerAfter), scheduler, schedulerAfter, t, Paused())
      ensures RollingServed(old(rolling), old(rollingAfter), rolling, rollingAfter, t, Paused())
    {
      ScheduleHostActions(t.hostStatus, t.hostAsked, t.now);
      ScheduleScheduler(t.schedulerExited, t.now);
      ScheduleRolling(t.rollingStatus, t.rollingDue, t.now);
    }

    /** An upgrade waits for its health checks; work starts once they confirm it, and the program ends when they are
        overdue. */
    method Confirm(confirmed: bool, overdue: bool) returns (goesOn: bool, raised: bool)
      requires Valid() && !stopped
      modifies `confirm, `worker, `log
      ensures Valid() && (goesOn ==> !confirm && !raised)
      ensures old(confirm) && !confirmed ==> !goesOn && raised == overdue && log == old(log) && confirm
      ensures old(confirm) && confirmed ==> goesOn == workerLock && raised == !workerLock && !confirm
      ensures worker == (old(worker) || (old(confirm) && goesOn))
      ensures !old(confirm) ==> goesOn && log == old(log)
    {
      goesOn, raised := true, false;
      if confirm {
        if !confirmed { return false, overdue; }
        confirm := false;
        if !workerLock { return false, true; }
        StartWorker();
      }
    }

    /** An upgrade or rollback child that runs may have moved the checkout. */
    method CheckoutMoves(moved: Option<Commit>)
      requires Valid()
      modifies `checkout
      ensures Valid() && checkout == if Moving() && moved.Some? then moved.value else old(checkout)
    {
      if Moving() && moved.Some? { checkout := moved.value; }
    }

    method Poll(t: Turn) returns (raised: bool)
      requires Valid() && Remembered() && !stopped && clock <= t.now
      modifies `worker, `log, `restarts, `counted, `clock
      ensures Valid() && Remembered() && clock == t.now
      ensures raised <==> ConsoleOrWorker(old(worker), Paused(), old(restarts), t)
      ensures !raised ==> worker == if old(worker) && t.workerExited then !Paused() else old(worker)
    {
      raised := Check(t.serverExited, t.exitOwned, t.workerExited, t.now);
    }

    /** The start of a turn. */
    method Begin(t: Turn) returns (goesOn: bool, raised: bool)
      requires Valid() && Remembered() && !stopped && clock <= t.now
      modifies `checkout, `confirm, `worker, `log, `restarts, `counted, `clock
      ensures Valid() && Remembered() && clock == t.now && (goesOn ==> !confirm && !raised)
      ensures !old(confirm) && !raised ==> goesOn
      ensures BeginServed(old(Now()), Now(), t, workerLock, goesOn, raised)
    {
      ghost var was := Now();
      goesOn, raised := Look(t);
      Looked(was, Now(), t, workerLock, goesOn, raised);
    }

    method Look(t: Turn) returns (goesOn: bool, raised: bool)
      requires Valid() && Remembered() && !stopped && clock <= t.now
      modifies `checkout, `confirm, `worker, `log, `restarts, `counted, `clock
      ensures Valid() && Remembered() && clock == t.now && (goesOn ==> !confirm && !raised)
      ensures var bad := ConsoleOrWorker(old(worker), old(Paused()), old(restarts), t);
              && (raised <==> bad || (old(confirm) && if t.confirmed then !workerLock else t.overdue))
              && (goesOn <==> !bad && (old(confirm) ==> t.confirmed && workerLock))
              && (goesOn ==> worker == if old(confirm) then true else if old(worker) && t.workerExited then !old(Paused()) else old(worker))
      ensures checkout == if old(Moving()) && t.moved.Some? then t.moved.value else old(checkout)
    {
      CheckoutMoves(t.moved);
      raised := Poll(t);
      goesOn := false;
      if !raised { goesOn, raised := Confirm(t.confirmed, t.overdue); }
    }

    method Work(t: Turn)
      requires Valid() && !stopped && !confirm
      modifies `backup, `studios, `signIn, `signInAfter, `dataApi, `dataApiAfter, `toggles, `togglesAfter, `hostAction,
               `hostActionAfter, `scheduler, `schedulerAfter, `rolling, `rollingAfter, `log
      ensures Valid() && WorkServed(old(Now()), Now(), t) && WorkOnly(old(Now()), Now())
    {
      ghost var was := Now();
      ScheduleAll(t);
      Assemble(was, Now(), t);
    }

    method ScheduleAll(t: Turn)
      requires Valid() && !stopped && !confirm
      modifies `backup, `studios, `signIn, `signInAfter, `dataApi, `dataApiAfter, `toggles, `togglesAfter, `hostAction,
               `hostActionAfter, `scheduler, `schedulerAfter, `rolling, `rollingAfter, `log
      ensures Valid()
      ensures BackupServed(old(backup), backup, t, Paused())
      ensures StudiosServed(old(studios), studios, t, Paused())
      ensures PoolServed(old(signIn), old(signInAfter), signIn, signInAfter, t.signInExits, t.signIn, Paused(), t.now)
      ensures PoolServed(old(dataApi), old(dataApiAfter), dataApi, dataApiAfter, t.dataApiExits, t.dataApi, Paused(), t.now)
      ensures PoolServed(old(toggles), old(togglesAfter), toggles, togglesAfter, t.toggleExits, t.toggles, Paused(), t.now)
      ensures HostServed(old(hostAction), old(hostActionAfter), hostAction, hostActionAfter, t, Paused())
      ensures SchedulerServed(old(scheduler), old(schedulerAfter), scheduler, schedulerAfter, t, Paused())
      ensures RollingServed(old(rolling), old(rollingAfter), rolling, rollingAfter, t, Paused())
    {
      ScheduleBackup(t.backupStatus, t.backupDue);
      ScheduleOthers(t);
    }

    method ScheduleOthers(t: Turn)
      requires Valid() && !stopped && !confirm
      modifies `studios, `signIn, `signInAfter, `dataApi, `dataApiAfter, `toggles, `togglesAfter, `hostAction,
               `hostActionAfter, `scheduler, `schedulerAfter, `rolling, `rollingAfter, `log
      ensures Valid()
      ensures StudiosServed(old(studios), studios, t, Paused())
      ensures PoolServed(old(signIn), old(signInAfter), signIn, signInAfter, t.signInExits, t.signIn, Paused(), t.now)
      ensures PoolServed(old(dataApi), old(dataApiAfter), dataApi, dataApiAfter, t.dataApiExits, t.dataApi, Paused(), t.now)
      ensures PoolServed(old(toggles), old(togglesAfter), toggles, togglesAfter, t.toggleExits, t.toggles, Paused(), t.now)
      ensures HostServed(old(hostAction), old(hostActionAfter), hostAction, hostActionAfter, t, Paused())
      ensures SchedulerServed(old(scheduler), old(schedulerAfter), scheduler, schedulerAfter, t, Paused())
      ensures RollingServed(old(rolling), old(rollingAfter), rolling, rollingAfter, t, Paused())
    {
      ScheduleEnvironments(t);
      ScheduleSingles(t);
    }

    /** The rest of it. */
    method Schedule(t: Turn) returns (failed: bool, ghost mid: Picture)
      requires Valid() && !stopped && !confirm
      modifies `backup, `studios, `signIn, `signInAfter, `dataApi, `dataApiAfter, `toggles, `togglesAfter, `hostAction,
               `hostActionAfter, `scheduler, `schedulerAfter, `rolling, `rollingAfter, `log,
               `drain, `update, `worker, `restartForUpgrade, `stopped, `escaped, `updatesAfter
      ensures Valid() && (stopped ==> restartForUpgrade)
      ensures ScheduleServed(old(Now()), mid, Now(), t, failed)
      ensures escaped ==> old(escaped) || (old(Moving()) && !t.fault.NoFault?)
      ensures old(Moving()) && t.updateStatus.Some? && t.now >= old(updatesAfter) && t.fault.NoFault? ==>
                if t.updateStatus.value != 0 && AtHomeNow(t) then !stopped && checkout == home && worker == workerLock else stopped && restartForUpgrade
    {
      failed := false;
      Work(t);
      mid := Now();
      if t.now >= updatesAfter { failed := ScheduleChannel(t); }
    }

    /** What the update channel raises only pauses that channel. */
    method ScheduleChannel(t: Turn) returns (failed: bool)
      requires Valid() && !stopped && !confirm
      modifies `drain, `update, `worker, `log, `restartForUpgrade, `stopped, `escaped, `updatesAfter
      ensures Valid() && (stopped ==> restartForUpgrade)
      ensures ChannelServed(old(Now()), Now(), t, failed) && WorkUntouched(old(Now()), Now())
      ensures escaped ==> old(escaped) || (old(Moving()) && !t.fault.NoFault?)
      ensures old(Moving()) && t.updateStatus.Some? && t.fault.NoFault? ==>
                if t.updateStatus.value != 0 && AtHomeNow(t) then !stopped && checkout == home && worker == workerLock else stopped && restartForUpgrade
    {
      ghost var was := Now();
      failed := TryUpdates(t);
      ServeChannel(was, Now(), t, failed);
    }

    method TryUpdates(t: Turn) returns (failed: bool)
      requires Valid() && !stopped && !confirm
      modifies `drain, `update, `worker, `log, `restartForUpgrade, `stopped, `escaped, `updatesAfter
      ensures Valid() && (stopped ==> restartForUpgrade)
      ensures UpdatesServed(old(update), old(drain), backup, old(Idle(t.records)), update, drain, t, failed)
      ensures updatesAfter == if failed then t.now + 60 else old(updatesAfter)
      ensures escaped ==> old(escaped) || (old(Moving()) && !t.fault.NoFault?)
      ensures old(Moving()) && t.updateStatus.Some? && t.fault.NoFault? ==>
                if t.updateStatus.value != 0 && AtHomeNow(t) then !stopped && checkout == home && worker == workerLock else stopped && restartForUpgrade
    {
      failed := ScheduleUpdates(t);
      if failed { updatesAfter := t.now + 60; }
    }

    /** One turn of the loop; `raised` ends the program. */
    method Turn(t: Turn) returns (raised: bool)
      requires Valid() && Remembered() && !stopped && clock <= t.now
      modifies this
      ensures Valid() && Remembered() && clock == t.now
      ensures TurnTaken(old(Now()), Now(), t, workerLock) && (raised <==> TurnRaises(old(Now()), t, workerLock))
      ensures stopped ==> !raised && restartForUpgrade
      ensures escaped ==> old(escaped) || (old(Moving()) && !t.fault.NoFault?)
      ensures old(Moving()) && t.updateStatus.Some? && t.now >= old(updatesAfter) && t.fault.NoFault? && !raised ==>
                if t.updateStatus.value != 0 && AtHomeNow(t) then !stopped && checkout == home && worker == workerLock else stopped && restartForUpgrade
    {
      ghost var was := Now();
      var goesOn, failed;
      ghost var looked, mid;
      goesOn, raised, failed, looked, mid := Advance(t);
      Take(was, looked, mid, Now(), t, workerLock, goesOn, raised, failed);
    }

    method Advance(t: Turn) returns (goesOn: bool, raised: bool, failed: bool, ghost looked: Picture, ghost mid: Picture)
      requires Valid() && Remembered() && !stopped && clock <= t.now
      modifies this
      ensures Valid() && Remembered() && clock == t.now && (stopped ==> !raised && restartForUpgrade)
      ensures escaped ==> old(escaped) || (old(Moving()) && !t.fault.NoFault?)
      ensures old(Moving()) && t.updateStatus.Some? && t.now >= old(updatesAfter) && t.fault.NoFault? && !raised ==>
                if t.updateStatus.value != 0 && AtHomeNow(t) then !stopped && checkout == home && worker == workerLock else stopped && restartForUpgrade
      ensures BeginServed(old(Now()), looked, t, workerLock, goesOn, raised)
      ensures if goesOn then ScheduleServed(looked, mid, Now(), t, failed) else Now() == looked
    {
      goesOn, raised := Begin(t);
      looked := Now();
      assert Moving() == old(Moving()) && updatesAfter == old(updatesAfter);
      mid, failed := looked, false;
      if goesOn { failed, mid := Schedule(t); }
    }

    /** The console process, and the worker unless an upgrade still waits for its health checks. */
    method Open() returns (raised: bool)
      requires Valid() && !stopped && !Paused() && !escaped
      modifies `worker, `log
      ensures Valid() && (raised ==> worker == old(worker))
      ensures raised <==> !confirm && !workerLock
      ensures worker == (old(worker) || (!confirm && workerLock)) && old(log) + [Started(Server, checkout)] <= log
    {
      Note(Started(Server, checkout));
      raised := !confirm && !workerLock;
      if !confirm && workerLock { StartWorker(); }
    }

    /** Every child is ended, however the loop was left. */
    method Close()
      modifies `worker, `backup, `studios, `signIn, `dataApi, `toggles, `scheduler, `rolling, `hostAction, `update
      ensures Alone() && update.None?
    {
      worker, backup, hostAction, scheduler, rolling, update := false, false, false, false, false, None;
      studios, signIn, dataApi, toggles := {}, {}, {}, {};
    }

    /** Every turn is taken, in order, until one raises, the supervisor stops or is asked to. */
    method Loop(turns: seq<Turn>) returns (raised: bool, ghost trail: seq<Picture>)
      requires Valid() && Remembered() && !stopped && !escaped
      requires forall i :: 0 <= i < |turns| ==> clock <= turns[i].now
      requires forall i, j :: 0 <= i < j < |turns| ==> turns[i].now <= turns[j].now
      modifies this
      ensures Valid() && Remembered() && (stopped ==> restartForUpgrade)
      ensures (forall i :: 0 <= i < |turns| ==> turns[i].fault.NoFault?) ==> !escaped
      ensures RunTaken(old(Now()), trail, turns, workerLock, stopped) && trail[|trail| - 1] == Now()
    {
      var i := 0;
      raised, trail := false, [Now()];
      while i < |turns| && !raised && !stopped && !turns[i].stopAsked
        invariant 0 <= i <= |turns| && |trail| == i + 1 && trail[i] == Now()
        invariant Taken(old(Now()), trail, turns, workerLock)
        invariant raised ==> i > 0 && TurnRaises(trail[i - 1], turns[i - 1], workerLock)
        invariant Valid() && Remembered()
        invariant i < |turns| ==> clock <= turns[i].now
        invariant (forall j :: 0 <= j < i ==> turns[j].fault.NoFault?) ==> !escaped
        invariant stopped ==> restartForUpgrade
      {
        ghost var was := trail;
        raised := Turn(turns[i]);
        trail := trail + [Now()];
        OneMoreTaken(old(Now()), was, Now(), turns, workerLock);
        i := i + 1;
      }
    }

    /** A whole run, whatever its turns find: the log is orderly and the restarts are limited, every child is gone
        in the end, and as long as no end of an update child fails to be recorded every child started at the
        commit the supervisor started on. The turns are taken one after another. */
    method Run(turns: seq<Turn>) returns (restart: bool, ghost trail: seq<Picture>)
      requires Valid() && Remembered() && Alone() && !Paused() && !stopped && !restartForUpgrade && !escaped
      requires forall i :: 0 <= i < |turns| ==> clock <= turns[i].now
      requires forall i, j :: 0 <= i < j < |turns| ==> turns[i].now <= turns[j].now
      modifies this
      ensures Orderly(log) && Remembered()
      ensures (forall i :: 0 <= i < |turns| ==> turns[i].fault.NoFault?) ==> AtHome(log, home)
      ensures Alone() && update.None? && restart == restartForUpgrade && (stopped ==> restart)
      ensures if !old(confirm) && !workerLock then trail == []
              else RunTaken(old(Now()).(worker := !old(confirm)), trail, turns, workerLock, stopped)
    {
      trail := Serve(turns);
      restart := restartForUpgrade;
      Close();
    }

    method Serve(turns: seq<Turn>) returns (ghost trail: seq<Picture>)
      requires Valid() && Remembered() && Alone() && !Paused() && !stopped && !restartForUpgrade && !escaped
      requires forall i :: 0 <= i < |turns| ==> clock <= turns[i].now
      requires forall i, j :: 0 <= i < j < |turns| ==> turns[i].now <= turns[j].now
      modifies this
      ensures Valid() && Remembered() && (stopped ==> restartForUpgrade)
      ensures (forall i :: 0 <= i < |turns| ==> turns[i].fault.NoFault?) ==> !escaped
      ensures if !old(confirm) && !workerLock then trail == []
              else RunTaken(old(Now()).(worker := !old(confirm)), trail, turns, workerLock, stopped)
    {
      var raised := Open();
      trail := [];
      if !raised { raised, trail := Loop(turns); }
    }
  }

  /** When recording the end of an upgrade that moved the checkout fails, the failure is caught, work goes on from
      the moved checkout, and the next child starts there. */
  method LostEndStartsFromTheMovedCheckout(s: Supervisor, t: Turn, row: StudioRow)
    requires s.Valid() && !s.stopped && s.Moving()
    requires t.moved.Some? && t.moved.value != s.home && t.updateStatus.Some? && t.fault.Recording? && Wanted(row)
    modifies s
    ensures !s.stopped && !s.Paused() && !AtHome(s.log, s.home)
  {
    s.CheckoutMoves(t.moved);
    var raised := s.ScheduleUpdates(t);
    assert s.studios == {};
    ghost var before, child := s.log, Started(Studio(row.runtime, row.desiredRunning), s.checkout);
    var nothing: map<Runtime, int> := map[];
    assert s.studios - nothing.Keys == {};
    OneStudio(row);
    s.ScheduleStudios(nothing, [row]);
    assert Starting(Studios([row]), s.checkout) == [child];
    Append(before, child);
  }

  /** Such a run, from the start of the supervisor. */
  method LostEndIsReached(commit: Commit, other: Commit, t: Turn, row: StudioRow) returns (s: Supervisor)
    requires other != commit && t.fault.NoFault? && !t.records && t.spawns && Wanted(row)
    ensures fresh(s) && s.home == commit && !s.stopped && !s.Paused() && !AtHome(s.log, s.home)
  {
    s := new Supervisor(commit, true, false, false);
    var raised := s.BeginDrain(Kind.Apply, t);
    LostEndStartsFromTheMovedCheckout(s, t.(moved := Some(other), updateStatus := Some(0), fault := Recording), row);
  }

  /** A drain that waits for an operation record is given up, and recording that fails: the worker, which had finished for
      the drain, is left stopped although nothing drains any more. */
  method UnrecordedEndOfADrainStopsTheWorker(commit: Commit, t: Turn) returns (s: Supervisor)
    requires t.fault.NoFault? && t.records
    ensures fresh(s) && s.Valid() && s.workerLock && !s.stopped && !s.Paused() && !s.worker
  {
    s := new Supervisor(commit, true, true, false);
    var raised := s.Open();
    raised := s.BeginDrain(Kind.Apply, t.(now := 0));
    assert s.drain == Some(Drain(Kind.Apply, DRAIN_SECONDS));
    raised := s.Check(false, false, true, 1);
    raised := s.ContinueDrain(t.(now := DRAIN_SECONDS, fault := Recording));
  }

  lemma OneStudio(row: StudioRow)
    requires Wanted(row)
    ensures StudioStarts({}, [row]) == [row]
  {
    assert [row][1..] == [];
  }
}
