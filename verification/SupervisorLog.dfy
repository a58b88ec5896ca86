/** lab/dev.py: what an observer sees of the supervisor, the children it starts and the drain it announces, and
    what an orderly log means for any two moments in it. */
module SupervisorLog {
  import opened Prelude

  type Commit = nat
  type Runtime = nat

  datatype Service = Realtime | Functions | Database | Signing | Cron

  datatype Kind = Check | Apply | Rollback

  datatype Child =
    | Server
    | Worker
    | Backup
    | Studio(runtime: Runtime, up: bool)
    | SignIn(runtime: Runtime)
    | DataApi(runtime: Runtime)
    | Toggle(service: Service, runtime: Runtime)
    | HostAction
    | Scheduler
    | Rolling
    | Update(kind: Kind)

  datatype Event =
    | Started(child: Child, checkout: Commit)   // with the commit that HEAD names at that moment
    | DrainBegun
    | DrainOver                                 // given up, or its child could not be started
    | UpdateEnded(kind: Kind)

  /** Whether a drain or the child it was for keeps everything else still, and the update child that runs. */
  datatype View = View(quiesced: bool, updating: Option<Kind>)

  function See(v: View, e: Event): View {
    match e
    case Started(Update(kind), _) => v.(updating := Some(kind))
    case Started(_, _) => v
    case DrainBegun => v.(quiesced := true)
    case DrainOver => v.(quiesced := false)
    case UpdateEnded(kind) => View(if kind.Check? then v.quiesced else false, None)
  }

  function Watch(log: seq<Event>): View {
    if log == [] then View(false, None) else See(Watch(log[..|log| - 1]), log[|log| - 1])
  }

  predicate Moves(child: Child) {
    child.Update? && !child.kind.Check?
  }

  predicate Allowed(v: View, e: Event) {
    match e
    case Started(child, _) =>
      if child.Update? then v.updating.None? && (v.quiesced <==> Moves(child)) else !v.quiesced
    case DrainBegun => !v.quiesced && v.updating.None?
    case DrainOver => v.quiesced && v.updating.None?
    case UpdateEnded(kind) => v.updating == Some(kind) && (v.quiesced <==> !kind.Check?)
  }

  predicate Orderly(log: seq<Event>) {
    log == [] || (Orderly(log[..|log| - 1]) && Allowed(Watch(log[..|log| - 1]), log[|log| - 1]))
  }

  lemma Append(log: seq<Event>, e: Event)
    ensures Watch(log + [e]) == See(Watch(log), e)
    ensures Orderly(log + [e]) <==> Orderly(log) && Allowed(Watch(log), e)
    ensures forall home :: AtHome(log + [e], home) <==> AtHome(log, home) && StartsAt(e, home)
  {
    assert (log + [e])[..|log|] == log;
  }

  /** Every start but an upgrade's or rollback's own found HEAD at the commit the supervisor started on. */
  predicate AtHome(log: seq<Event>, home: Commit) {
    log == [] || (AtHome(log[..|log| - 1], home) && StartsAt(log[|log| - 1], home))
  }

  predicate StartsAt(e: Event, home: Commit) {
    e.Started? && !Moves(e.child) ==> e.checkout == home
  }

  lemma {:induction false} EveryStartAtHome(log: seq<Event>, home: Commit, i: nat)
    requires AtHome(log, home) && i < |log|
    ensures StartsAt(log[i], home)
    decreases |log|
  {
    if i < |log| - 1 { EveryStartAtHome(log[..|log| - 1], home, i); }
  }

  predicate Ends(e: Event) {
    e.DrainOver? || (e.UpdateEnded? && !e.kind.Check?)
  }

  lemma {:induction false} OrderlyPrefix(log: seq<Event>, n: nat)
    requires Orderly(log) && n <= |log|
    ensures Orderly(log[..n])
    ensures n < |log| ==> Allowed(Watch(log[..n]), log[n])
    decreases |log|
  {
    if n < |log| {
      var front := log[..|log| - 1];
      if n < |front| {
        OrderlyPrefix(front, n);
        assert front[..n] == log[..n] && front[n] == log[n];
      } else {
        assert front[..n] == front;
      }
    } else {
      assert log[..n] == log;
    }
  }

  lemma {:induction false} QuiescedSince(log: seq<Event>, i: nat, j: nat)
    requires Orderly(log) && i < j <= |log| && log[i].DrainBegun?
    requires forall k :: i < k < j ==> !Ends(log[k])
    ensures Watch(log[..j]).quiesced
    decreases j
  {
    assert log[..j][..j - 1] == log[..j - 1];
    if i + 1 < j { QuiescedSince(log, i, j - 1); }
  }

  /** From the beginning of a drain until it is given up or its child has ended, the only child that starts is
      the upgrade or rollback it was begun for. */
  lemma NothingElseStartsWhileQuiesced(log: seq<Event>, i: nat, j: nat)
    requires Orderly(log) && i < j < |log| && log[i].DrainBegun?
    requires forall k :: i < k < j ==> !Ends(log[k])
    ensures log[j].Started? ==> Moves(log[j].child)
  {
    QuiescedSince(log, i, j);
    OrderlyPrefix(log, j);
  }

  lemma {:induction false} UpdatingSince(log: seq<Event>, i: nat, j: nat)
    requires Orderly(log) && i < j <= |log| && log[i].Started? && log[i].child.Update?
    requires forall k :: i < k < j ==> !log[k].UpdateEnded?
    ensures Watch(log[..j]).updating.Some?
    decreases j
  {
    assert log[..j][..j - 1] == log[..j - 1];
    if i + 1 < j { UpdatingSince(log, i, j - 1); }
  }

  /** Between the starts of two update children, the first one ended. */
  lemma OneUpdateChildAtATime(log: seq<Event>, i: nat, j: nat)
    requires Orderly(log) && i < j < |log|
    requires log[i].Started? && log[i].child.Update? && log[j].Started? && log[j].child.Update?
    ensures exists k :: i < k < j && log[k].UpdateEnded?
  {
    if forall k :: i < k < j ==> !log[k].UpdateEnded? {
      UpdatingSince(log, i, j);
      OrderlyPrefix(log, j);
    }
  }

  // ------------------------------------------------------------ the restart limit

  const WINDOW := 60
  const LIMIT := 3

  function Last(counted: seq<int>): int
    requires counted != []
  {
    counted[|counted| - 1]
  }

  function Front(counted: seq<int>): seq<int>
    requires counted != []
  {
    counted[..|counted| - 1]
  }

  /** Four restarts in a row span more than the window. */
  predicate Spaced(counted: seq<int>) {
    counted == [] || (Spaced(Front(counted))
                      && (|counted| > LIMIT ==> Last(counted) - counted[|counted| - 1 - LIMIT] > WINDOW))
  }

  predicate Ascending(counted: seq<int>) {
    |counted| < 2 || (Ascending(Front(counted)) && Last(Front(counted)) <= Last(counted))
  }

  /** How many restarts counted within the 60 seconds that begin at `start`. */
  function Within(counted: seq<int>, start: int): nat {
    if counted == [] then 0
    else Within(Front(counted), start) + (if start <= Last(counted) <= start + WINDOW then 1 else 0)
  }

  lemma {:induction false} NoneBefore(counted: seq<int>, start: int)
    requires Ascending(counted) && (counted != [] ==> Last(counted) < start)
    ensures Within(counted, start) == 0
    decreases |counted|
  {
    if counted != [] { NoneBefore(Front(counted), start); }
  }

  /** No window of 60 seconds holds more than three counted restarts, wherever it begins. */
  lemma {:induction false} NoWindowHoldsMore(counted: seq<int>, start: int)
    requires Spaced(counted) && Ascending(counted)
    ensures Within(counted, start) <= LIMIT
    decreases |counted|
  {
    if counted == [] { return; }
    var front := Front(counted);
    if !(start <= Last(counted) <= start + WINDOW) {
      NoWindowHoldsMore(front, start);
    } else if |counted| > LIMIT {
      var two := Front(front);
      var three := Front(two);
      assert Ascending(front);
      assert Ascending(two);
      assert Ascending(three) && Last(three) == counted[|counted| - 1 - LIMIT];
      NoneBefore(three, start);
      assert Within(two, start) <= 1 && Within(front, start) <= 2;
    } else {
      WithinAll(front, start);
    }
  }

  lemma {:induction false} WithinAll(counted: seq<int>, start: int)
    ensures Within(counted, start) <= |counted|
    decreases |counted|
  {
    if counted != [] { WithinAll(Front(counted), start); }
  }

  /** One counted restart: after the one before it, more than 60 seconds after the third before it, and either
      remembered or more than 60 seconds before the last look at the worker. */
  ghost predicate Recorded(counted: seq<int>, restarts: seq<int>, clock: int, i: int)
    requires 0 <= i < |counted| && |restarts| <= |counted|
  {
    var remembered := i - (|counted| - |restarts|);
    && counted[i] <= clock && (i > 0 ==> counted[i - 1] <= counted[i])
    && (i >= LIMIT ==> counted[i] - counted[i - LIMIT] > WINDOW)
    && (if remembered >= 0 then counted[i] == restarts[remembered] else clock - counted[i] > WINDOW)
  }

  /** What the supervisor remembers of the restarts it counted: the last of them, at most the limit. */
  ghost predicate Kept(counted: seq<int>, restarts: seq<int>, clock: int) {
    && |restarts| <= LIMIT && |restarts| <= |counted|
    && forall i :: 0 <= i < |counted| ==> Recorded(counted, restarts, clock, i)
  }

  lemma KeptLater(counted: seq<int>, restarts: seq<int>, clock: int, now: int)
    requires Kept(counted, restarts, clock) && clock <= now
    ensures Kept(counted, restarts, now)
  {
    forall i | 0 <= i < |counted| ensures Recorded(counted, restarts, now, i) {
      assert Recorded(counted, restarts, clock, i);
    }
  }

  lemma KeptPruned(counted: seq<int>, restarts: seq<int>, clock: int)
    requires Kept(counted, restarts, clock) && restarts != [] && clock - restarts[0] > WINDOW
    ensures Kept(counted, restarts[1..], clock)
  {
    forall i | 0 <= i < |counted| ensures Recorded(counted, restarts[1..], clock, i) {
      assert Recorded(counted, restarts, clock, i);
    }
  }

  lemma KeptCounted(counted: seq<int>, restarts: seq<int>, clock: int)
    requires Kept(counted, restarts, clock) && |restarts| < LIMIT
    ensures Kept(counted + [clock], restarts + [clock], clock)
  {
    var all, n := counted + [clock], |counted|;
    forall i | 0 <= i < |all| ensures Recorded(all, restarts + [clock], clock, i) {
      if i < n {
        assert Recorded(counted, restarts, clock, i);
      } else {
        if n > 0 { assert Recorded(counted, restarts, clock, n - 1); }
        if n >= LIMIT { assert Recorded(counted, restarts, clock, n - LIMIT); }
      }
    }
  }

  lemma {:induction false} KeptSpaced(counted: seq<int>, restarts: seq<int>, clock: int, n: nat)
    requires Kept(counted, restarts, clock) && n <= |counted|
    ensures Spaced(counted[..n]) && Ascending(counted[..n])
    decreases n
  {
    if n > 0 {
      KeptSpaced(counted, restarts, clock, n - 1);
      assert Front(counted[..n]) == counted[..n - 1];
      assert Recorded(counted, restarts, clock, n - 1);
    }
  }

  /** However a run of the supervisor went, no 60 seconds of it hold more than three counted restarts. */
  lemma RestartsAreLimited(counted: seq<int>, restarts: seq<int>, clock: int, start: int)
    requires Kept(counted, restarts, clock)
    ensures Within(counted, start) <= LIMIT
    ensures forall i :: 3 <= i < |counted| ==> counted[i] - counted[i - 3] > 60
  {
    forall i | 3 <= i < |counted| ensures counted[i] - counted[i - 3] > 60 { assert Recorded(counted, restarts, clock, i); }
    KeptSpaced(counted, restarts, clock, |counted|);
    assert counted[..|counted|] == counted;
    NoWindowHoldsMore(counted, start);
  }

  /** The limit is reached: three restarts are remembered, the oldest of them from the last 60 seconds. */
  predicate AtLimit(restarts: seq<int>, now: int) {
    |restarts| >= LIMIT && now - restarts[0] <= WINDOW
  }

  /** The restarts older than 60 seconds are forgotten, from the oldest on. */
  method Prune(restarts: seq<int>, now: int, ghost counted: seq<int>) returns (recent: seq<int>)
    requires Kept(counted, restarts, now)
    ensures Kept(counted, recent, now) && (recent != [] ==> now - recent[0] <= WINDOW)
    ensures |recent| >= LIMIT <==> AtLimit(restarts, now)
  {
    recent := restarts;
    while recent != [] && now - recent[0] > WINDOW
      invariant Kept(counted, recent, now)
      invariant recent == restarts || (|recent| < |restarts| && now - restarts[0] > WINDOW)
      decreases |recent|
    {
      KeptPruned(counted, recent, now);
      recent := recent[1..];
    }
  }

  // ------------------------------------------------------------ children started per environment

  const BUSY := 75
  const RETRY := 5

  predicate Due<K(==)>(after: map<K, int>, key: K, now: int) {
    key !in after || now >= after[key]
  }

  predicate Busy<K(==)>(exits: map<K, int>, key: K) {
    key in exits && exits[key] == BUSY
  }

  /** When the environments whose child found the operation lock held are asked again. */
  function Retries<K(==)>(pool: set<K>, exits: map<K, int>, now: int): map<K, int> {
    map k | k in pool && Busy(exits, k) :: now + RETRY
  }

  /** The first loop of the sign-in, Data API and toggle schedules: the children that ended are reaped. */
  method Reap<K(==)>(pool: set<K>, after: map<K, int>, exits: map<K, int>, now: int)
    returns (running: set<K>, retry: map<K, int>)
    ensures running == pool - exits.Keys
    ensures retry == after + Retries(pool, exits, now)
  {
    running, retry := pool, after;
    var left := pool;
    while left != {}
      invariant left <= pool
      invariant forall k :: k in running <==> k in pool && (k in left || k !in exits)
      invariant forall k :: k in retry <==> k in after || (k in pool && k !in left && Busy(exits, k))
      invariant forall k :: k in retry ==>
                  retry[k] == if k in pool && k !in left && Busy(exits, k) then now + RETRY else after[k]
      decreases |left|
    {
      var key :| key in left;
      left := left - {key};
      if key in exits {
        running := running - {key};
        if exits[key] == BUSY { retry := retry[key := now + RETRY]; }
      }
    }
    assert forall k :: k in retry <==> k in after + Retries(pool, exits, now);
  }

  /** The second loop: one child for every request that has none and may be asked again. */
  method StartDue<K(==)>(running: set<K>, after: map<K, int>, requests: seq<K>, now: int)
    returns (retry: map<K, int>, started: seq<K>)
    ensures NoDuplicates(started)
    ensures forall k :: k in started <==> k in requests && k !in running && Due(after, k, now)
    ensures retry == map k | k in after && k !in started :: after[k]
  {
    retry, started := after, [];
    for i := 0 to |requests|
      invariant NoDuplicates(started)
      invariant forall k :: k in started <==> k in requests[..i] && k !in running && Due(after, k, now)
      invariant retry == map k | k in after && k !in started :: after[k]
    {
      var key := requests[i];
      if key !in running && key !in started && Due(retry, key, now) {
        retry := retry - {key};
        started := started + [key];
      }
    }
  }
}
