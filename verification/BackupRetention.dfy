/** lab/backup.py: which backups pruning keeps, over any history of daily runs, upgrade runs and marks. A backup is its
    scope and its run's time; times are numbers in their order. */
module BackupRetention {
  import opened Prelude

  type Stamp = nat
  type Scope = nat

  datatype Backup = Interrupted | Complete(upgrade: bool)

  type Folder = map<Stamp, Backup>

  const UPGRADE_RUNS_KEPT := 3
  const MOVED_KEPT := 20

  // ------------------------------------------------------------ the newest of a set

  function Later(s: set<Stamp>, x: Stamp): set<Stamp> {
    set y | y in s && y > x
  }

  /** Those with fewer than `n` later ones. */
  function Newest(s: set<Stamp>, n: nat): set<Stamp> {
    set x | x in s && |Later(s, x)| < n
  }

  lemma Fewer(a: set<Stamp>, b: set<Stamp>)
    requires a <= b
    ensures |a| <= |b|
  {
    assert b == a + (b - a);
  }

  predicate Increasing(xs: seq<Stamp>) {
    forall i, j :: 0 <= i < j < |xs| ==> xs[i] < xs[j]
  }

  function SetOf(xs: seq<Stamp>): set<Stamp> {
    set x | x in xs
  }

  lemma OneMoreInSet(front: seq<Stamp>, last: Stamp)
    requires forall i :: 0 <= i < |front| ==> front[i] < last
    ensures SetOf(front + [last]) == SetOf(front) + {last} && last !in SetOf(front)
  {
  }

  lemma {:induction false} CountedBySize(xs: seq<Stamp>)
    requires Increasing(xs)
    ensures |SetOf(xs)| == |xs|
    decreases |xs|
  {
    if xs == [] {
      assert SetOf(xs) == {};
    } else {
      var front, last := xs[..|xs| - 1], xs[|xs| - 1];
      assert xs == front + [last];
      CountedBySize(front);
      OneMoreInSet(front, last);
      assert |SetOf(front) + {last}| == |SetOf(front)| + 1;
    }
  }

  /** The last `n` of the sorted list are the newest `n` of the set. */
  lemma LastOfSorted(xs: seq<Stamp>, i: nat, n: nat)
    requires Increasing(xs) && i < |xs|
    ensures xs[i] in Newest(SetOf(xs), n) <==> i >= |xs| - n
  {
    var tail := xs[i + 1..];
    CountedBySize(tail);
    forall y ensures y in Later(SetOf(xs), xs[i]) <==> y in SetOf(tail) {
      if y in SetOf(xs) && y > xs[i] {
        var j :| 0 <= j < |xs| && xs[j] == y;
        assert j > i;
        assert tail[j - i - 1] == y;
      }
    }
    assert Later(SetOf(xs), xs[i]) == SetOf(tail);
  }

  /** `sorted(s)`. */
  method Sorted(s: set<Stamp>) returns (xs: seq<Stamp>)
    ensures Increasing(xs) && forall x :: x in xs <==> x in s
  {
    xs := [];
    var left := s;
    while left != {}
      invariant Increasing(xs) && left <= s
      invariant forall x :: x in s <==> x in xs || x in left
      invariant forall x, y :: x in xs && y in left ==> x < y
      decreases |left|
    {
      var least := Least(left);
      forall i | 0 <= i < |xs| ensures xs[i] < least { assert xs[i] in xs; }
      xs := xs + [least];
      left := left - {least};
    }
  }

  method Least(s: set<Stamp>) returns (least: Stamp)
    requires s != {}
    ensures least in s && forall x :: x in s ==> least <= x
  {
    least :| least in s;
    var left := s - {least};
    while left != {}
      invariant left <= s && least in s
      invariant forall x :: x in s && x !in left ==> least <= x
      decreases |left|
    {
      var x :| x in left;
      left := left - {x};
      if x < least { least := x; }
    }
  }

  /** `sorted(s)[-n:]`. */
  method LastOf(s: set<Stamp>, n: nat) returns (last: set<Stamp>)
    requires n > 0
    ensures last == Newest(s, n)
  {
    var xs := Sorted(s);
    var first := if |xs| >= n then |xs| - n else 0;
    last := SetOf(xs[first..]);
    assert SetOf(xs) == s;
    forall i | 0 <= i < |xs| ensures xs[i] in Newest(s, n) <==> i >= first { LastOfSorted(xs, i, n); }
    forall x ensures x in last <==> x in Newest(s, n) {
      if x in last {
        var j :| 0 <= j < |xs[first..]| && xs[first..][j] == x;
        assert xs[first + j] == x;
      }
      if x in Newest(s, n) {
        var i :| 0 <= i < |xs| && xs[i] == x;
        assert xs[first..][i - first] == x;
      }
    }
  }

  lemma TopJoins(s: set<Stamp>, top: Stamp, n: nat)
    requires top in s && n > 0 && forall x :: x in s ==> x <= top
    ensures |Newest(s, n)| >= |Newest(s - {top}, n - 1)| + 1
  {
    var rest := s - {top};
    forall x | x in Newest(rest, n - 1) ensures x in Newest(s, n) {
      assert Later(s, x) == Later(rest, x) + {top};
    }
    assert Later(s, top) == {};
    assert top !in Newest(rest, n - 1);
    Fewer(Newest(rest, n - 1) + {top}, Newest(s, n));
  }

  lemma {:induction false} NewestFills(s: set<Stamp>, n: nat)
    ensures |Newest(s, n)| >= if |s| < n then |s| else n
    decreases n
  {
    if n > 0 && s != {} {
      var top := Greatest(s);
      NewestFills(s - {top}, n - 1);
      TopJoins(s, top, n);
    }
  }

  lemma {:induction false} Greatest(s: set<Stamp>) returns (top: Stamp)
    requires s != {}
    ensures top in s && forall x :: x in s ==> x <= top
    decreases |s|
  {
    top :| top in s;
    var rest := s - {top};
    assert forall x :: x in s ==> x == top || x in rest;
    if rest != {} {
      var other := Greatest(rest);
      if other > top { top := other; }
    }
  }

  /** Dropping elements that are not among the newest does not change the newest. */
  lemma NewestOfPart(part: set<Stamp>, s: set<Stamp>, n: nat)
    requires Newest(s, n) <= part <= s
    ensures Newest(part, n) == Newest(s, n)
  {
    forall x ensures x in Newest(part, n) <==> x in Newest(s, n) {
      if x in Newest(s, n) { Fewer(Later(part, x), Later(s, x)); }
      if x in part && x !in Newest(s, n) {
        forall w | w in Newest(s, n) ensures w in Later(part, x) {
          if w <= x { Fewer(Later(s, x), Later(s, w)); }
        }
        NewestFills(s, n);
        Fewer(Later(s, x), s);
        Fewer(Newest(s, n), Later(part, x));
      }
    }
  }

  // ------------------------------------------------------------ what is kept

  function CompleteOf(folder: Folder): set<Stamp> {
    set t | t in folder && folder[t].Complete?
  }

  /** The backups that `keep` counts. */
  function Counted(folder: Folder, protected: set<Stamp>, completed: Option<Stamp>): set<Stamp> {
    set t | t in CompleteOf(folder) && t !in protected && Some(t) != completed
  }

  /** What `prune` removes: the counted backups but the newest `keep`, and interrupted ones older than a complete one. */
  function Doomed(folder: Folder, keep: nat, protected: set<Stamp>, completed: Option<Stamp>): set<Stamp> {
    (Counted(folder, protected, completed) - Newest(Counted(folder, protected, completed), keep))
    + (set t | t in folder && folder[t].Interrupted? && Later(CompleteOf(folder), t) != {})
  }

  function Pruned(folder: Folder, keep: nat, protected: set<Stamp>, completed: Option<Stamp>): Folder {
    folder - Doomed(folder, keep, protected, completed)
  }

  /** The times of the runs taken for an upgrade, in whatever scope a manifest of theirs is. */
  function UpgradeTimes(folders: map<Scope, Folder>): set<Stamp> {
    set e, t | e in folders && t in folders[e] && folders[e][t] == Complete(true) :: t
  }

  /** The last upgrade runs that moved, and the one under way; every upgrade run counts while none was marked. */
  function Protected(folders: map<Scope, Folder>, moved: Option<set<Stamp>>, current: Option<Stamp>): set<Stamp> {
    var runs := if moved.Some? then UpgradeTimes(folders) * moved.value else UpgradeTimes(folders);
    Newest(if current.Some? then runs + {current.value} else runs, UPGRADE_RUNS_KEPT)
  }

  function Marked(folders: map<Scope, Folder>, moved: Option<set<Stamp>>, stamp: Stamp): set<Stamp> {
    Newest((if moved.Some? then moved.value else UpgradeTimes(folders)) + {stamp}, MOVED_KEPT)
  }

  /** The directories and the record; a record that is absent or damaged counts as none. */
  class Backups {
    var folders: map<Scope, Folder>
    var moved: Option<set<Stamp>>

    method UpgradeRunTimes() returns (runs: set<Stamp>)
      ensures runs == UpgradeTimes(folders)
    {
      runs := {};
      var left := folders.Keys;
      while left != {}
        invariant left <= folders.Keys
        invariant runs == set e, t | e in folders && e !in left && t in folders[e] && folders[e][t] == Complete(true) :: t
        decreases |left|
      {
        var e :| e in left;
        var here := set t | t in folders[e] && folders[e][t] == Complete(true);
        ghost var before := left;
        left := left - {e};
        assert forall f :: f in folders && f !in left <==> f in folders && (f !in before || f == e);
        runs := runs + here;
      }
    }

    method UpgradeRuns(current: Option<Stamp>) returns (runs: set<Stamp>)
      ensures runs == Protected(folders, moved, current)
    {
      runs := UpgradeRunTimes();
      if moved.Some? { runs := runs * moved.value; }
      if current.Some? { runs := runs + {current.value}; }
      runs := LastOf(runs, UPGRADE_RUNS_KEPT);
    }

    method MarkMoved(stamp: Stamp)
      modifies `moved
      ensures moved == Some(Marked(folders, old(moved), stamp))
    {
      var earlier;
      if moved.Some? { earlier := moved.value; } else { earlier := UpgradeRunTimes(); }
      var runs := LastOf(earlier + {stamp}, MOVED_KEPT);
      moved := Some(runs);
    }

    /** Refused while a restore completion is pending or when nothing would be kept. */
    method Prune(e: Scope, keep: nat, protected: Option<set<Stamp>>, completed: Option<Stamp>, pending: bool)
      returns (refused: bool, doomed: set<Stamp>)
      modifies `folders
      ensures refused <==> pending || keep < 1
      ensures refused || e !in old(folders) ==> folders == old(folders)
      ensures !refused && e in old(folders) ==>
                var kept := if protected.Some? then protected.value else Protected(old(folders), moved, None);
                && doomed == Doomed(old(folders)[e], keep, kept, completed)
                && folders == old(folders)[e := Pruned(old(folders)[e], keep, kept, completed)]
    {
      doomed := {};
      refused := pending || keep < 1;
      if refused { return; }
      var kept;
      if protected.Some? { kept := protected.value; } else { kept := UpgradeRuns(None); }
      if e !in folders { return; }
      var folder := folders[e];
      var counted := Counted(folder, kept, completed);
      var newest := LastOf(counted, keep);
      doomed := counted - newest;
      var complete := CompleteOf(folder);
      doomed := doomed + set t | t in folder && folder[t].Interrupted? && (exists c :: c in complete && c > t);
      assert forall t :: (exists c :: c in complete && c > t) <==> Later(complete, t) != {} by {
        forall t ensures (exists c :: c in complete && c > t) <==> Later(complete, t) != {} {
          if c :| c in complete && c > t { assert c in Later(complete, t); }
        }
      }
      folders := folders[e := folder - doomed];
    }
  }

  /** Each backup after a prune: a protected one, the newest `keep` of the others, the one a completed restore names,
      and an interrupted one that no complete backup is newer than. */
  lemma PruneKeepsExactly(folder: Folder, keep: nat, protected: set<Stamp>, completed: Option<Stamp>, t: Stamp)
    requires keep > 0
    ensures t in Pruned(folder, keep, protected, completed) <==>
            && t in folder
            && (folder[t].Complete? ==> t in protected || completed == Some(t) || t in Newest(Counted(folder, protected, completed), keep))
            && (folder[t].Interrupted? ==> forall c :: c in folder && folder[c].Complete? ==> c <= t)
    ensures t in Pruned(folder, keep, protected, completed) ==> Pruned(folder, keep, protected, completed)[t] == folder[t]
  {
    if t in folder && folder[t].Interrupted? {
      if c :| c in folder && folder[c].Complete? && c > t { assert c in Later(CompleteOf(folder), t); }
    }
  }

  /** The first mark protects what was protected before: the upgrade runs that counted until then still do. */
  lemma FirstMarkDropsNothing(folders: map<Scope, Folder>, stamp: Stamp)
    ensures Protected(folders, Some(Marked(folders, None, stamp)), None) == Protected(folders, None, None)
  {
    var all := UpgradeTimes(folders);
    var moved := Marked(folders, None, stamp);
    forall x | x in Newest(all, UPGRADE_RUNS_KEPT) ensures x in moved {
      Fewer(Later(all + {stamp}, x), Later(all, x) + {stamp});
    }
    NewestOfPart(all * moved, all, UPGRADE_RUNS_KEPT);
  }

  // ------------------------------------------------------------ histories

  datatype Run = Run(stamp: Stamp, upgrade: bool, protected: set<Stamp>)

  /** `held` are the scopes in which a marked run had its backup when it was marked. */
  datatype State = State(folders: map<Scope, Folder>, moved: Option<set<Stamp>>, run: Option<Run>, held: map<Stamp, set<Scope>>)

  datatype Action =
    | Begin(stamp: Stamp, upgrade: bool)
    | Take(scope: Scope, completes: bool)
    | PruneScope(scope: Scope, keep: nat, completed: Option<Stamp>)
    | End
    | Mark(stamp: Stamp)

  function HeldBy(folders: map<Scope, Folder>, stamp: Stamp): set<Scope> {
    set e | e in folders && stamp in folders[e] && folders[e][stamp] == Complete(true)
  }

  /** A run reads the protection once, when it begins; marks need no lock. */
  function Step(s: State, a: Action): Option<State> {
    match a
    case Begin(stamp, upgrade) =>
      if s.run.Some? then None
      else Some(s.(run := Some(Run(stamp, upgrade, Protected(s.folders, s.moved, if upgrade then Some(stamp) else None)))))
    case Take(e, completes) =>
      if s.run.None? || (e in s.folders && s.run.value.stamp in s.folders[e]) then None
      else
        var folder := if e in s.folders then s.folders[e] else map[];
        Some(s.(folders := s.folders[e := folder[s.run.value.stamp := if completes then Complete(s.run.value.upgrade) else Interrupted]]))
    case PruneScope(e, keep, completed) =>
      if s.run.None? || keep < 1 || e !in s.folders then None
      else Some(s.(folders := s.folders[e := Pruned(s.folders[e], keep, s.run.value.protected, completed)]))
    case End => if s.run.None? then None else Some(s.(run := None))
    case Mark(stamp) =>
      Some(s.(moved := Some(Marked(s.folders, s.moved, stamp)), held := s.held[stamp := HeldBy(s.folders, stamp)]))
  }

  function Play(s: State, actions: seq<Action>): Option<State>
    decreases |actions|
  {
    if actions == [] then Some(s)
    else if Step(s, actions[0]).None? then None
    else Play(Step(s, actions[0]).value, actions[1..])
  }

  const LAST := 2

  /** A marked run among the last two that moved. */
  ghost predicate AmongLast(s: State, stamp: Stamp) {
    s.moved.Some? && stamp in s.held && stamp in Newest(s.moved.value, LAST)
  }

  ghost predicate Survives(s: State, stamp: Stamp)
    requires stamp in s.held
  {
    forall e :: e in s.held[stamp] ==> e in s.folders && stamp in s.folders[e] && s.folders[e][stamp] == Complete(true)
  }

  ghost predicate AllSurvive(s: State) {
    forall stamp :: AmongLast(s, stamp) ==> Survives(s, stamp)
  }

  /** A backup that is complete, or that the run can still take: now, or once its interrupted one is pruned. */
  ghost predicate CanCount(folder: Folder, run: Run, c: Stamp) {
    c !in run.protected && if c in folder && folder[c].Complete? then true
                           else c == run.stamp && (c !in folder || Later(CompleteOf(folder), c) != {})
  }

  /** A later backup that the run under way counts, or can count before it ends. */
  ghost predicate Exposed(folder: Folder, run: Run, stamp: Stamp) {
    exists c :: c > stamp && CanCount(folder, run, c)
  }

  /** What the run under way cannot remove: it protects the run marked, or has nothing later to keep instead. */
  ghost predicate Spares(folders: map<Scope, Folder>, run: Run, stamp: Stamp, held: set<Scope>) {
    stamp in run.protected || forall e :: e in held && e in folders ==> !Exposed(folders[e], run, stamp)
  }

  /** The last two moved upgrades have every backup they had when they were marked, and a run under way spares them. */
  ghost predicate Safe(s: State) {
    forall stamp :: AmongLast(s, stamp) ==>
      stamp in s.held && Survives(s, stamp) && (s.run.Some? ==> Spares(s.folders, s.run.value, stamp, s.held[stamp]))
  }

  lemma BeginIsSafe(s: State, stamp: Stamp, upgrade: bool)
    requires Safe(s) && s.run.None?
    ensures Safe(Step(s, Begin(stamp, upgrade)).value)
  {
    var next := Step(s, Begin(stamp, upgrade)).value;
    forall m | AmongLast(next, m) && next.held[m] != {} ensures m in next.run.value.protected {
      assert AmongLast(s, m) && Survives(s, m);
      var e :| e in s.held[m];
      var runs := UpgradeTimes(s.folders) * s.moved.value;
      assert m in runs;
      var all := if upgrade then runs + {stamp} else runs;
      Fewer(Later(runs, m), Later(s.moved.value, m));
      Fewer(Later(all, m), Later(runs, m) + {stamp});
    }
    forall m | AmongLast(next, m) ensures Survives(next, m) { assert AmongLast(s, m); }
  }

  lemma PruneSpares(folder: Folder, run: Run, keep: nat, completed: Option<Stamp>, m: Stamp)
    requires keep > 0 && m in folder && folder[m].Complete? && (m in run.protected || !Exposed(folder, run, m))
    ensures var after := Pruned(folder, keep, run.protected, completed);
            m in after && after[m] == folder[m] && (m in run.protected || !Exposed(after, run, m))
  {
    var after := Pruned(folder, keep, run.protected, completed);
    PruneKeepsExactly(folder, keep, run.protected, completed, m);
    if m !in run.protected {
      forall c | c > m ensures c !in Counted(folder, run.protected, completed) { assert !CanCount(folder, run, c); }
      assert Later(Counted(folder, run.protected, completed), m) == {};
      forall c | c > m && CanCount(after, run, c) ensures CanCount(folder, run, c) {
        if c !in after || after[c].Interrupted? {
          PruneKeepsExactly(folder, keep, run.protected, completed, c);
          if d :| d in Later(CompleteOf(after), c) { assert d in Later(CompleteOf(folder), c); }
          if c in folder && folder[c].Interrupted? && c !in after {
            var d :| d in folder && folder[d].Complete? && d > c;
            assert d in Later(CompleteOf(folder), c);
          }
        }
      }
    }
  }

  lemma PruneIsSafe(s: State, e: Scope, keep: nat, completed: Option<Stamp>)
    requires Safe(s) && Step(s, PruneScope(e, keep, completed)).Some?
    ensures Safe(Step(s, PruneScope(e, keep, completed)).value)
  {
    var next := Step(s, PruneScope(e, keep, completed)).value;
    forall m | AmongLast(next, m) ensures Survives(next, m) && Spares(next.folders, next.run.value, m, next.held[m]) {
      assert AmongLast(s, m) && Survives(s, m);
      if e in s.held[m] {
        PruneSpares(s.folders[e], s.run.value, keep, completed, m);
      }
    }
  }

  lemma TakeIsSafe(s: State, e: Scope, completes: bool)
    requires Safe(s) && Step(s, Take(e, completes)).Some?
    ensures Safe(Step(s, Take(e, completes)).value)
  {
    var next := Step(s, Take(e, completes)).value;
    var run := s.run.value;
    forall m | AmongLast(next, m) ensures Survives(next, m) && Spares(next.folders, run, m, next.held[m]) {
      assert AmongLast(s, m) && Survives(s, m);
      if m !in run.protected && e in s.held[m] {
        assert run.stamp > m && run.stamp !in run.protected ==> CanCount(s.folders[e], run, run.stamp);
        forall c | c > m && CanCount(next.folders[e], run, c) ensures CanCount(s.folders[e], run, c) {}
      }
    }
  }

  // ------------------------------------------------------------ what a run can remove

  ghost predicate InRun(actions: seq<Action>) {
    forall i :: 0 <= i < |actions| ==> actions[i].Take? || actions[i].PruneScope?
  }

  lemma {:induction false} InRunKeepsSafe(s: State, actions: seq<Action>)
    requires Safe(s) && InRun(actions) && Play(s, actions).Some?
    ensures Safe(Play(s, actions).value)
    decreases |actions|
  {
    if actions != [] {
      match actions[0] {
        case Take(e, completes) => TakeIsSafe(s, e, completes);
        case PruneScope(e, keep, completed) => PruneIsSafe(s, e, keep, completed);
      }
      InRunKeepsSafe(Step(s, actions[0]).value, actions[1..]);
    }
  }

  lemma PruneRemoves(s: State, e: Scope, stamp: Stamp, c: Stamp) returns (end: State)
    requires s.run.Some? && AmongLast(s, stamp) && e in s.held[stamp] && e in s.folders && stamp !in s.run.value.protected
    requires stamp in s.folders[e] ==> s.folders[e][stamp].Complete?
    requires c > stamp && c in s.folders[e] && s.folders[e][c].Complete? && c !in s.run.value.protected
    ensures Step(s, PruneScope(e, 1, None)) == Some(end) && Play(s, [PruneScope(e, 1, None)]) == Some(end)
    ensures AmongLast(end, stamp) && !Survives(end, stamp)
  {
    end := Step(s, PruneScope(e, 1, None)).value;
    var folder, run := s.folders[e], s.run.value;
    assert [PruneScope(e, 1, None)][1..] == [];
    if stamp in folder {
      assert c in Later(Counted(folder, run.protected, None), stamp);
      PruneKeepsExactly(folder, 1, run.protected, None, stamp);
    }
    assert stamp !in end.folders[e];
  }

  lemma TakeThenPruneRemoves(s: State, e: Scope, stamp: Stamp) returns (actions: seq<Action>, end: State)
    requires s.run.Some? && AmongLast(s, stamp) && e in s.held[stamp] && e in s.folders && stamp !in s.run.value.protected
    requires stamp in s.folders[e] ==> s.folders[e][stamp].Complete?
    requires s.run.value.stamp > stamp && s.run.value.stamp !in s.folders[e] && s.run.value.stamp !in s.run.value.protected
    ensures InRun(actions) && Play(s, actions) == Some(end) && AmongLast(end, stamp) && !Survives(end, stamp)
  {
    var next := Step(s, Take(e, true)).value;
    end := PruneRemoves(next, e, stamp, s.run.value.stamp);
    actions := [Take(e, true), PruneScope(e, 1, None)];
    assert actions[1..] == [PruneScope(e, 1, None)];
  }

  lemma ExposedIsRemoved(s: State, e: Scope, stamp: Stamp) returns (actions: seq<Action>, end: State)
    requires s.run.Some? && AmongLast(s, stamp) && Survives(s, stamp) && e in s.held[stamp]
    requires stamp !in s.run.value.protected && Exposed(s.folders[e], s.run.value, stamp)
    ensures InRun(actions) && Play(s, actions) == Some(end) && AmongLast(end, stamp) && !Survives(end, stamp)
  {
    var folder, run := s.folders[e], s.run.value;
    var c :| c > stamp && CanCount(folder, run, c);
    if c in folder && folder[c].Complete? {
      end := PruneRemoves(s, e, stamp, c);
      actions := [PruneScope(e, 1, None)];
    } else if c !in folder {
      actions, end := TakeThenPruneRemoves(s, e, stamp);
    } else {
      var next := Step(s, PruneScope(e, 1, None)).value;
      var d :| d in Later(CompleteOf(folder), c);
      PruneKeepsExactly(folder, 1, run.protected, None, c);
      PruneKeepsExactly(folder, 1, run.protected, None, stamp);
      var rest;
      rest, end := TakeThenPruneRemoves(next, e, stamp);
      actions := [PruneScope(e, 1, None)] + rest;
      assert actions[1..] == rest;
    }
  }

  /** A state is safe exactly when no backup of the last two moved upgrades can be missing before the run ends. */
  lemma SafeExactly(s: State)
    ensures Safe(s) <==> forall actions :: InRun(actions) && Play(s, actions).Some? ==> AllSurvive(Play(s, actions).value)
  {
    if Safe(s) {
      forall actions | InRun(actions) && Play(s, actions).Some? ensures AllSurvive(Play(s, actions).value) {
        InRunKeepsSafe(s, actions);
      }
    } else if AllSurvive(s) {
      var stamp :| AmongLast(s, stamp) && s.run.Some? && !Spares(s.folders, s.run.value, stamp, s.held[stamp]);
      var e :| e in s.held[stamp] && e in s.folders && Exposed(s.folders[e], s.run.value, stamp);
      var actions, end := ExposedIsRemoved(s, e, stamp);
      assert !AllSurvive(end);
    } else {
      assert Play(s, []) == Some(s) && InRun([]);
    }
  }

  // ------------------------------------------------------------ marks

  /** A mark comes in time when it is not among the last two, or the run under way spares what it marks. */
  ghost predicate InTime(s: State, stamp: Stamp) {
    s.run.Some? && stamp in Newest(Marked(s.folders, s.moved, stamp), LAST) ==>
      Spares(s.folders, s.run.value, stamp, HeldBy(s.folders, stamp))
  }

  /** A mark keeps the state safe exactly when it comes in time; otherwise the run under way can remove a backup. */
  lemma MarkIsSafeExactly(s: State, stamp: Stamp)
    requires Safe(s) && Ordered(s)
    ensures var next := Step(s, Mark(stamp)).value;
            && (Safe(next) <==> InTime(s, stamp))
            && (InTime(s, stamp) <==>
                  forall actions :: InRun(actions) && Play(next, actions).Some? ==> AllSurvive(Play(next, actions).value))
  {
    var next := Step(s, Mark(stamp)).value;
    SafeExactly(next);
    forall m | AmongLast(next, m) && m != stamp ensures AmongLast(s, m) {
      var before := s.moved.value + {stamp};
      LaterInNewest(before, m);
      assert m in Newest(s.moved.value, LAST) by { Fewer(Later(s.moved.value, m), Later(before, m)); }
    }
    assert AmongLast(next, stamp) <==> stamp in Newest(Marked(s.folders, s.moved, stamp), LAST);
    assert Survives(next, stamp);
    forall m | AmongLast(next, m) && m != stamp ensures Survives(next, m) { assert AmongLast(s, m) && Survives(s, m); }
  }

  /** The newest two of the twenty newest are the newest two. */
  lemma LaterInNewest(all: set<Stamp>, m: Stamp)
    requires m in Newest(Newest(all, MOVED_KEPT), LAST)
    ensures m in Newest(all, LAST)
  {
    forall x | x in Newest(all, LAST) ensures x in Newest(all, MOVED_KEPT) {}
    NewestOfPart(Newest(all, MOVED_KEPT), all, LAST);
  }

  ghost predicate Ordered(s: State) {
    s.moved.None? ==> s.held == map[]
  }

  /** Every mark comes in time, as one between two runs does. */
  ghost predicate WellTimed(s: State, actions: seq<Action>)
    decreases |actions|
  {
    actions == [] || (Step(s, actions[0]).Some? && (actions[0].Mark? ==> InTime(s, actions[0].stamp))
                      && WellTimed(Step(s, actions[0]).value, actions[1..]))
  }

  lemma {:induction false} LastTwoMovedSurvive(s: State, actions: seq<Action>)
    requires Safe(s) && Ordered(s) && WellTimed(s, actions)
    ensures Play(s, actions).Some? && Safe(Play(s, actions).value)
    decreases |actions|
  {
    if actions != [] {
      var next := Step(s, actions[0]).value;
      match actions[0] {
        case Begin(stamp, upgrade) => BeginIsSafe(s, stamp, upgrade);
        case Take(e, completes) => TakeIsSafe(s, e, completes);
        case PruneScope(e, keep, completed) => PruneIsSafe(s, e, keep, completed);
        case End =>
          forall m | AmongLast(next, m) ensures Survives(next, m) { assert AmongLast(s, m); }
        case Mark(stamp) => MarkIsSafeExactly(s, stamp);
      }
      LastTwoMovedSurvive(next, actions[1..]);
    }
  }

  /** What a mark leaves of the record: the one marked, and of those before (every upgrade run, at the first mark) what is
      among the newest twenty. */
  lemma MarkedExactly(folders: map<Scope, Folder>, moved: Option<set<Stamp>>, stamp: Stamp, x: Stamp)
    ensures var known := (if moved.Some? then moved.value else UpgradeTimes(folders)) + {stamp};
            x in Marked(folders, moved, stamp) <==> x in known && |set y | y in known && y > x| < 20
  {
    var known := (if moved.Some? then moved.value else UpgradeTimes(folders)) + {stamp};
    assert Later(known, x) == set y | y in known && y > x;
  }

  // ------------------------------------------------------------ a run's own backups

  /** The upgrade run under way counts among the last ones before its manifests are written. */
  lemma OwnRunIsProtected(folders: map<Scope, Folder>, moved: Option<set<Stamp>>, stamp: Stamp)
    requires forall t :: t in UpgradeTimes(folders) ==> t <= stamp
    ensures stamp in Protected(folders, moved, Some(stamp))
    ensures Protected(folders, moved, Some(stamp)) <= UpgradeTimes(folders) + {stamp}
  {
    var runs := (if moved.Some? then UpgradeTimes(folders) * moved.value else UpgradeTimes(folders)) + {stamp};
    assert Later(runs, stamp) == {};
  }

  /** Whatever is kept, a run that is later than every backup of a scope keeps the one it took there, a cut one as cut.
      An upgrade's own, and a cut one, does not take the place of the newest complete one before it. */
  lemma OwnBackupSurvives(s: State, stamp: Stamp, upgrade: bool, e: Scope, completes: bool, keep: nat, last: Stamp)
    returns (taken: State, end: State)
    requires s.run.None? && keep > 0 && (e in s.folders ==> forall t :: t in s.folders[e] ==> t < stamp)
    requires forall t :: t in UpgradeTimes(s.folders) ==> t <= stamp
    ensures Play(s, [Begin(stamp, upgrade), Take(e, completes)]) == Some(taken)
    ensures Step(taken, PruneScope(e, keep, None)) == Some(end) && Step(end, End) == Some(end.(run := None))
    ensures e in end.folders && stamp in end.folders[e]
    ensures end.folders[e][stamp] == if completes then Complete(upgrade) else Interrupted
    ensures (upgrade || !completes) && e in s.folders && last in CompleteOf(s.folders[e]) && Later(CompleteOf(s.folders[e]), last) == {} ==>
              last in end.folders[e]
  {
    var begun := Step(s, Begin(stamp, upgrade)).value;
    var take := Take(e, completes);
    taken := Step(begun, take).value;
    assert [Begin(stamp, upgrade), take][1..] == [take] && [take][1..] == [];
    assert Play(taken, []) == Some(taken);
    assert Play(begun, [take]) == Some(taken);
    end := Step(taken, PruneScope(e, keep, None)).value;
    var folder, protected := taken.folders[e], taken.run.value.protected;
    PruneKeepsExactly(folder, keep, protected, None, stamp);
    if stamp !in protected {
      assert Later(Counted(folder, protected, None), stamp) == {};
    }
    if (upgrade || !completes) && e in s.folders && last in CompleteOf(s.folders[e]) && Later(CompleteOf(s.folders[e]), last) == {} {
      if upgrade { OwnRunIsProtected(s.folders, s.moved, stamp); }
      NewestOfTheOthersStays(s.folders[e], stamp, folder[stamp], keep, protected, last);
    }
  }

  lemma NewestOfTheOthersStays(before: Folder, stamp: Stamp, own: Backup, keep: nat, protected: set<Stamp>, last: Stamp)
    requires keep > 0 && stamp !in before && (own.Complete? ==> stamp in protected)
    requires last in CompleteOf(before) && Later(CompleteOf(before), last) == {}
    ensures last in Pruned(before[stamp := own], keep, protected, None)
  {
    var folder := before[stamp := own];
    PruneKeepsExactly(folder, keep, protected, None, last);
    forall t | t in Later(Counted(folder, protected, None), last) ensures t in Later(CompleteOf(before), last) {}
    assert Later(Counted(folder, protected, None), last) == {};
  }

  const ONE: Folder := map[1 := Complete(true)]
  const BOTH: Folder := map[1 := Complete(true), 5 := Complete(false)]

  /** A mark takes no lock, so it can come while a run is under way; that run still prunes by the protection it read
      when it began, and removes the backups of the upgrade just marked. */
  lemma MarkInsideARunLosesABackup() returns (s: State, actions: seq<Action>)
    ensures Safe(s) && Ordered(s) && Play(s, actions).Some?
    ensures var end := Play(s, actions).value; AmongLast(end, 1) && !Survives(end, 1)
  {
    s := State(map[0 := ONE], Some({}), None, map[]);
    var s1, s2 := RunThenMark(s);
    var s3 := s2.(folders := map[0 := BOTH]);
    TakesTheRun(s2, s3);
    var end := LosesIt(s3);
    var last := PruneScope(0, 1, None);
    actions := [Begin(5, false), Mark(1), Take(0, true), last];
    assert Play(end, []) == Some(end);
    assert [last][1..] == [] && Play(s3, [last]) == Some(end);
    assert [Take(0, true), last][1..] == [last] && Play(s2, [Take(0, true), last]) == Some(end);
    assert [Mark(1), Take(0, true), last][1..] == [Take(0, true), last] && Play(s1, [Mark(1), Take(0, true), last]) == Some(end);
    assert actions[1..] == [Mark(1), Take(0, true), last];
  }

  lemma RunThenMark(s: State) returns (s1: State, s2: State)
    requires s == State(map[0 := ONE], Some({}), None, map[])
    ensures Step(s, Begin(5, false)) == Some(s1) && Step(s1, Mark(1)) == Some(s2)
    ensures s2 == State(map[0 := ONE], Some({1}), Some(Run(5, false, {})), map[1 := {0}])
    ensures 1 in Newest({1}, LAST)
  {
    s1 := s.(run := Some(Run(5, false, {})));
    assert Protected(s.folders, s.moved, None) == {};
    assert HeldBy(s1.folders, 1) == {0};
    assert Later({1}, 1) == {};
    assert Newest({} + {1}, MOVED_KEPT) == {1};
    s2 := State(map[0 := ONE], Some({1}), Some(Run(5, false, {})), map[1 := {0}]);
  }

  lemma TakesTheRun(s: State, next: State)
    requires s.run == Some(Run(5, false, {})) && s.folders == map[0 := ONE] && next == s.(folders := map[0 := BOTH])
    ensures Step(s, Take(0, true)) == Some(next)
  {
    assert ONE[5 := Complete(false)] == BOTH;
    assert s.folders[0 := BOTH] == map[0 := BOTH];
  }

  lemma LosesIt(s: State) returns (end: State)
    requires s.run == Some(Run(5, false, {})) && s.folders == map[0 := BOTH]
    requires s.held == map[1 := {0}] && s.moved == Some({1})
    ensures Step(s, PruneScope(0, 1, None)) == Some(end) && end.held == s.held && end.moved == s.moved
    ensures !Survives(end, 1)
  {
    end := Step(s, PruneScope(0, 1, None)).value;
    var folder := s.folders[0];
    assert Counted(folder, {}, None) == {1, 5};
    assert 5 in Later({1, 5}, 1);
    PruneKeepsExactly(folder, 1, {}, None, 1);
    assert 1 !in end.folders[0];
    assert 0 in end.held[1];
  }
}
