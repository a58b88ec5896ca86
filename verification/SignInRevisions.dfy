/** lab/auth_settings.py, `record` and `apply`, with the saves of src/control/sign-in.ts and settings-route.ts: the
    revision a row asks for, the one it was applied with, and the one the settings file carries, over every
    interleaving of saves and applies of one environment. */
module SignInRevisions {
  import opened Prelude

  type Revision = nat

  datatype RowState = Pending | Applied | Failed

  datatype Row = Row(revision: Revision, applied: Option<Revision>, state: RowState)

  /** A save under way: what it still has to write. */
  datatype Save = Save(revision: Revision, file: bool, row: bool)

  /** An apply under way: the revision of the file it loaded or, without a file, of the row it read then; `since` is
      the highest revision row and file carried when it looked last. */
  datatype Attempt = Attempt(fileRevision: Option<Revision>, rowRevision: Option<Revision>, readRow: bool, since: Revision)

  datatype State = State(row: Option<Row>, file: Option<Revision>, save: Option<Save>, applies: map<nat, Attempt>)

  datatype End = Worked | DidNotStart | Busy

  datatype Action =
    | BeginSave(writesFile: bool)
    | WriteFile
    | WriteRow
    | StopSave                      // the console process ends between the two writes
    | Load(id: nat)
    | LoadInvalid                   // a file that cannot be admitted
    | ReadRow(id: nat)
    | Finish(id: nat, end: End)

  /** The highest revision the row or the file carries. */
  function Highest(s: State): Revision {
    var a := if s.row.Some? then s.row.value.revision else 0;
    var b := if s.file.Some? then s.file.value else 0;
    if a < b then b else a
  }

  /** The revision an outcome is recorded for. */
  function Report(a: Attempt): Option<Revision> {
    if a.fileRevision.Some? then a.fileRevision else a.rowRevision
  }

  /** `requestSignIn`: the row asks for the revision, and is pending. */
  function Requested(row: Option<Row>, revision: Revision): Row {
    Row(revision, if row.Some? then row.value.applied else None, Pending)
  }

  /** `record`. Without a revision the outcome goes into the row as it is. */
  function Record(row: Option<Row>, state: RowState, revision: Option<Revision>): Option<Row> {
    if row.None? then None
    else if revision.None? then Some(row.value.(state := state))
    else Some(row.value.(
      state := if row.value.revision <= revision.value then state else row.value.state,
      applied := if state.Applied? then revision else row.value.applied))
  }

  function Without(applies: map<nat, Attempt>, id: nat): map<nat, Attempt> {
    applies - {id}
  }

  function Step(s: State, a: Action): Option<State> {
    match a
    case BeginSave(writesFile) =>
      // Saves follow one another: each reads the revisions and writes without giving way to another.
      if s.save.Some? || (s.file.Some? && !writesFile) then None
      else Some(s.(save := Some(Save(Highest(s) + 1, writesFile, true))))
    case WriteFile =>
      if s.save.None? || !s.save.value.file then None
      else Some(s.(file := Some(s.save.value.revision), save := Remaining(s.save.value.(file := false))))
    case WriteRow =>
      if s.save.None? || !s.save.value.row then None
      else Some(s.(row := Some(Requested(s.row, s.save.value.revision)), save := Remaining(s.save.value.(row := false))))
    case StopSave => if s.save.None? then None else Some(s.(save := None))
    case Load(id) => if id in s.applies then None else Some(s.(applies := s.applies[id := Attempt(s.file, None, s.file.Some?, Highest(s))]))
    case LoadInvalid => Some(s.(row := Record(s.row, Failed, None)))
    case ReadRow(id) =>
      if id !in s.applies || s.applies[id].readRow then None
      else
        var revision := if s.row.Some? then Some(s.row.value.revision) else None;
        Some(s.(applies := s.applies[id := s.applies[id].(rowRevision := revision, readRow := true, since := Highest(s))]))
    case Finish(id, end) =>
      if id !in s.applies || !s.applies[id].readRow then None
      else
        var report := Report(s.applies[id]);
        var done := s.(applies := Without(s.applies, id));
        match end
        case Worked => Some(done.(row := Record(s.row, Applied, report)))
        case DidNotStart => Some(done.(row := Record(s.row, Failed, report)))
        case Busy => Some(done)
  }

  function Remaining(save: Save): Option<Save> {
    if save.file || save.row then Some(save) else None
  }

  function Run(s: State, actions: seq<Action>): Option<State>
    decreases |actions|
  {
    if actions == [] then Some(s)
    else if Step(s, actions[0]).None? then None
    else Run(Step(s, actions[0]).value, actions[1..])
  }

  // ------------------------------------------------------------ a save is never marked done unseen

  ghost predicate Ordered(s: State) {
    && (s.save.Some? ==> s.save.value.revision >= Highest(s))
    && forall id :: id in s.applies ==> AttemptOrdered(s, id)
  }

  /** What an attempt reports was there when it looked. */
  ghost predicate AttemptOrdered(s: State, id: nat)
    requires id in s.applies
  {
    s.applies[id].since <= Highest(s) && (Report(s.applies[id]).Some? ==> Report(s.applies[id]).value <= s.applies[id].since)
  }

  lemma StepKeepsOrder(s: State, a: Action)
    requires Ordered(s) && Step(s, a).Some?
    ensures Ordered(Step(s, a).value) && Highest(s) <= Highest(Step(s, a).value)
  {
    var next := Step(s, a).value;
    assert Highest(s) <= Highest(next);
    forall id | id in next.applies ensures AttemptOrdered(next, id) {
      if id in s.applies { assert AttemptOrdered(s, id); }
    }
  }

  lemma {:induction false} RunKeepsOrder(s: State, actions: seq<Action>)
    requires Ordered(s) && Run(s, actions).Some?
    ensures Ordered(Run(s, actions).value) && Highest(s) <= Highest(Run(s, actions).value)
    decreases |actions|
  {
    if actions != [] {
      StepKeepsOrder(s, actions[0]);
      RunKeepsOrder(Step(s, actions[0]).value, actions[1..]);
    }
  }

  /** However saves and applies interleave, and however many applies run at once: an apply that reports a revision
      leaves a row alone that became pending for a save it did not see when it last looked. */
  lemma LaterSaveStaysPending(s: State, id: nat, end: End)
    requires Ordered(s) && Step(s, Finish(id, end)).Some? && s.row.Some? && s.row.value.state.Pending?
    requires Report(s.applies[id]).Some? && s.row.value.revision > s.applies[id].since
    ensures var row := Step(s, Finish(id, end)).value.row;
            row.Some? && row.value.state.Pending? && row.value.revision == s.row.value.revision
  {
    assert AttemptOrdered(s, id);
  }

  lemma OthersLeaveIt(s: State, id: nat, a: Action)
    requires id in s.applies && s.applies[id].readRow && Step(s, a).Some? && !(a.Finish? && a.id == id)
    ensures id in Step(s, a).value.applies && Step(s, a).value.applies[id] == s.applies[id]
  {
  }

  /** Every save that begins after an attempt looked is given a later revision than it saw. */
  lemma {:induction false} LaterSaveIsLater(s: State, id: nat, actions: seq<Action>)
    requires Ordered(s) && id in s.applies && s.applies[id].readRow && Run(s, actions).Some?
    requires forall i :: 0 <= i < |actions| ==> !(actions[i].Finish? && actions[i].id == id)
    ensures var end := Run(s, actions).value;
            id in end.applies && end.applies[id] == s.applies[id] && s.applies[id].since <= Highest(end)
    ensures var end := Run(s, actions).value;
            Step(end, BeginSave(true)).Some? ==> Step(end, BeginSave(true)).value.save.value.revision > s.applies[id].since
    decreases |actions|
  {
    assert AttemptOrdered(s, id);
    if actions != [] {
      StepKeepsOrder(s, actions[0]);
      OthersLeaveIt(s, id, actions[0]);
      LaterSaveIsLater(Step(s, actions[0]).value, id, actions[1..]);
    }
  }

  // ------------------------------------------------------------ an applied row was applied

  ghost predicate Told(row: Option<Row>) {
    row.Some? && row.value.state.Applied? ==> row.value.applied.Some? && row.value.revision <= row.value.applied.value
  }

  predicate Waits(row: Option<Row>) {
    row.Some? && row.value.state.Pending?
  }

  /** The supervisor runs one apply of an environment at a time, and only while its row is pending. */
  ghost predicate Supervised(s: State, actions: seq<Action>)
    decreases |actions|
  {
    actions == [] || (Step(s, actions[0]).Some? && (actions[0].Load? ==> s.applies == map[] && Waits(s.row))
                      && Supervised(Step(s, actions[0]).value, actions[1..]))
  }

  /** One attempt at most is under way, and while it is the row is not applied. */
  ghost predicate Settled(s: State) {
    && Told(s.row)
    && (forall a, b :: a in s.applies && b in s.applies ==> a == b)
    && forall id :: id in s.applies ==> AttemptSettled(s, id)
  }

  ghost predicate AttemptSettled(s: State, id: nat)
    requires id in s.applies
  {
    s.row.Some? && !s.row.value.state.Applied? && (s.applies[id].readRow ==> Report(s.applies[id]).Some?)
  }

  lemma NothingSavedIsSettled()
    ensures Settled(NOTHING_SAVED)
  {
  }

  lemma SaveKeepsSettled(s: State, a: Action)
    requires Settled(s) && Step(s, a).Some? && (a.BeginSave? || a.WriteFile? || a.WriteRow? || a.StopSave? || a.LoadInvalid?)
    ensures Settled(Step(s, a).value)
  {
    var next := Step(s, a).value;
    forall id | id in next.applies ensures AttemptSettled(next, id) { assert AttemptSettled(s, id); }
  }

  lemma ApplyBeginsSettled(s: State, id: nat)
    requires Settled(s) && s.applies == map[] && Waits(s.row) && Step(s, Load(id)).Some?
    ensures Settled(Step(s, Load(id)).value)
  {
    var next := Step(s, Load(id)).value;
    assert next.applies == map[id := Attempt(s.file, None, s.file.Some?, Highest(s))];
    assert AttemptSettled(next, id);
  }

  lemma RowReadKeepsSettled(s: State, id: nat)
    requires Settled(s) && Step(s, ReadRow(id)).Some?
    ensures Settled(Step(s, ReadRow(id)).value)
  {
    assert AttemptSettled(s, id);
    var next := Step(s, ReadRow(id)).value;
    assert AttemptSettled(next, id);
  }

  lemma FinishKeepsSettled(s: State, id: nat, end: End)
    requires Settled(s) && Step(s, Finish(id, end)).Some?
    ensures Settled(Step(s, Finish(id, end)).value)
  {
    assert AttemptSettled(s, id);
    assert Step(s, Finish(id, end)).value.applies == map[];
  }

  /** With one apply at a time, started only while its row is pending: a row in the state applied was applied with its own revision
      or a later one, whatever the interleaving of saves, kills, refused and busy applies. */
  lemma {:induction false} AppliedRowsWereApplied(s: State, actions: seq<Action>)
    requires Settled(s) && Supervised(s, actions)
    ensures Run(s, actions).Some? && Settled(Run(s, actions).value) && Told(Run(s, actions).value.row)
    decreases |actions|
  {
    if actions != [] {
      match actions[0] {
        case Load(id) => ApplyBeginsSettled(s, id);
        case ReadRow(id) => RowReadKeepsSettled(s, id);
        case Finish(id, end) => FinishKeepsSettled(s, id, end);
        case _ => SaveKeepsSettled(s, actions[0]);
      }
      AppliedRowsWereApplied(Step(s, actions[0]).value, actions[1..]);
    }
  }

  const NOTHING_SAVED := State(None, None, None, map[])

  /** From an environment nothing was saved for, in particular. */
  lemma SupervisedFromTheStart(actions: seq<Action>)
    requires Supervised(NOTHING_SAVED, actions)
    ensures Run(NOTHING_SAVED, actions).Some? && Told(Run(NOTHING_SAVED, actions).value.row)
  {
    NothingSavedIsSettled();
    AppliedRowsWereApplied(NOTHING_SAVED, actions);
  }

  /** The row an apply of the saved revision leaves: applied with it, failed, or pending as it was while the lock is held. */
  function Outcome(saved: Row, end: End): Row {
    match end
    case Worked => Row(saved.revision, Some(saved.revision), Applied)
    case DidNotStart => Row(saved.revision, saved.applied, Failed)
    case Busy => saved
  }

  lemma RunTwo(s: State, a: Action, s1: State, b: Action, s2: State)
    requires Step(s, a) == Some(s1) && Step(s1, b) == Some(s2)
    ensures Run(s, [a, b]) == Some(s2)
  {
    RunFollows(s1, [b], s2, []);
    RunFollows(s, [a, b], s1, [b]);
  }

  lemma RunThree(s: State, a: Action, s1: State, b: Action, s2: State, c: Action, s3: State)
    requires Step(s, a) == Some(s1) && Step(s1, b) == Some(s2) && Step(s2, c) == Some(s3)
    ensures Run(s, [a, b, c]) == Some(s3)
  {
    RunTwo(s1, b, s2, c, s3);
    RunFollows(s, [a, b, c], s1, [b, c]);
  }

  /** A save and then an apply, with nothing in between: file and row ask for one new revision, later than any before, and
      the row ends as that apply did. */
  lemma SavedThenApplied(s: State, id: nat, end: End) returns (saved: State, revision: Revision)
    requires s.save.None? && s.applies == map[]
    ensures Run(s, [BeginSave(true), WriteFile, WriteRow]) == Some(saved)
    ensures (s.row.Some? ==> revision > s.row.value.revision) && (s.file.Some? ==> revision > s.file.value)
    ensures saved.file == Some(revision)
    ensures saved.row == Some(Row(revision, if s.row.Some? then s.row.value.applied else None, Pending))
    ensures Run(saved, [Load(id), Finish(id, end)]) == Some(saved.(row := Some(Outcome(saved.row.value, end))))
  {
    revision := Highest(s) + 1;
    var s1 := s.(save := Some(Save(revision, true, true)));
    var s2 := s1.(file := Some(revision), save := Some(Save(revision, false, true)));
    saved := s2.(row := Some(Requested(s.row, revision)), save := None);
    RunThree(s, BeginSave(true), s1, WriteFile, s2, WriteRow, saved);
    var loaded := saved.(applies := map[id := Attempt(Some(revision), None, true, revision)]);
    assert Step(saved, Load(id)) == Some(loaded);
    var done := saved.(row := Some(Outcome(saved.row.value, end)));
    assert Without(loaded.applies, id) == map[];
    RunTwo(saved, Load(id), loaded, Finish(id, end), done);
  }

  /** The same of an environment that has no file: the row's own revision stands for it. */
  lemma RowSavedThenApplied(s: State, id: nat, end: End) returns (saved: State, revision: Revision)
    requires s.save.None? && s.applies == map[] && s.file.None?
    ensures Run(s, [BeginSave(false), WriteRow]) == Some(saved)
    ensures (s.row.Some? ==> revision > s.row.value.revision) && saved.file.None?
    ensures saved.row == Some(Row(revision, if s.row.Some? then s.row.value.applied else None, Pending))
    ensures Run(saved, [Load(id), ReadRow(id), Finish(id, end)]) == Some(saved.(row := Some(Outcome(saved.row.value, end))))
  {
    revision := Highest(s) + 1;
    var s1 := s.(save := Some(Save(revision, false, true)));
    saved := s.(row := Some(Requested(s.row, revision)));
    RunTwo(s, BeginSave(false), s1, WriteRow, saved);
    var loaded := saved.(applies := map[id := Attempt(None, None, false, revision)]);
    assert Step(saved, Load(id)) == Some(loaded);
    var looked := saved.(applies := map[id := Attempt(None, Some(revision), true, revision)]);
    assert loaded.applies[id := Attempt(None, Some(revision), true, revision)] == looked.applies;
    assert Step(loaded, ReadRow(id)) == Some(looked);
    var done := saved.(row := Some(Outcome(saved.row.value, end)));
    assert Without(looked.applies, id) == map[];
    RunThree(saved, Load(id), loaded, ReadRow(id), looked, Finish(id, end), done);
  }

  /** A save the console did not finish, its file written and its row not: the apply of that file settles the row too, and
      says that it was applied with the file's later revision. */
  lemma HalfSavedThenApplied(s: State, id: nat) returns (saved: State, revision: Revision)
    requires s.save.None? && s.applies == map[] && s.row.Some?
    ensures Run(s, [BeginSave(true), WriteFile, StopSave]) == Some(saved) && saved.row == s.row
    ensures revision > s.row.value.revision && saved.file == Some(revision)
    ensures Run(saved, [Load(id), Finish(id, Worked)])
              == Some(saved.(row := Some(Row(s.row.value.revision, Some(revision), Applied))))
  {
    revision := Highest(s) + 1;
    var s1 := s.(save := Some(Save(revision, true, true)));
    var s2 := s1.(file := Some(revision), save := Some(Save(revision, false, true)));
    saved := s2.(save := None);
    RunThree(s, BeginSave(true), s1, WriteFile, s2, StopSave, saved);
    var loaded := saved.(applies := map[id := Attempt(Some(revision), None, true, revision)]);
    assert Step(saved, Load(id)) == Some(loaded);
    var done := saved.(row := Some(Row(s.row.value.revision, Some(revision), Applied)));
    assert Without(loaded.applies, id) == map[];
    RunTwo(saved, Load(id), loaded, Finish(id, Worked), done);
  }

  /** A file that cannot be admitted fails its row, whichever revision that asks for, and applies nothing. */
  lemma InvalidFileFailsTheRow(s: State)
    ensures var next := Step(s, LoadInvalid);
            && next.Some? && next.value.file == s.file && next.value.applies == s.applies
            && next.value.row == if s.row.None? then None else Some(Row(s.row.value.revision, s.row.value.applied, Failed))
  {
  }

  // ------------------------------------------------------------ without that discipline

  /** A row already applied must not ask for more than is reported, and an outcome without a revision relies on what
      the row was applied with before. */
  predicate Tells(row: Option<Row>, report: Option<Revision>) {
    || row.None?
    || (report.Some? && (row.value.revision <= report.value || !row.value.state.Applied?))
    || (report.None? && row.value.applied.Some? && row.value.revision <= row.value.applied.value)
  }

  /** When one record keeps it, for any row and report. */
  lemma RecordTellsExactly(row: Option<Row>, report: Option<Revision>)
    requires Told(row)
    ensures Told(Record(row, Applied, report)) <==> Tells(row, report)
  {
  }

  predicate FinishTells(s: State, a: Action) {
    a.Finish? && a.end.Worked? && a.id in s.applies ==> Tells(s.row, Report(s.applies[a.id]))
  }

  /** A step of the system keeps it exactly when it is not the end of an apply that worked, or one that tells. */
  lemma StepTellsExactly(s: State, a: Action)
    requires Told(s.row) && Step(s, a).Some?
    ensures Told(Step(s, a).value.row) <==> FinishTells(s, a)
  {
    if a.Finish? && a.end.Worked? {
      RecordTellsExactly(s.row, Report(s.applies[a.id]));
    }
  }

  ghost predicate ToldThroughout(s: State, actions: seq<Action>)
    decreases |actions|
  {
    Told(s.row) && (actions == [] || (Step(s, actions[0]).Some? && ToldThroughout(Step(s, actions[0]).value, actions[1..])))
  }

  ghost predicate FinishesTell(s: State, actions: seq<Action>)
    decreases |actions|
  {
    actions == [] || (Step(s, actions[0]).Some? && FinishTells(s, actions[0]) && FinishesTell(Step(s, actions[0]).value, actions[1..]))
  }

  /** Over any run, with any number of applies at once: an applied row was applied at every point exactly when each
      apply that worked met, as it ended, a row it tells. */
  lemma {:induction false} RunTellsExactly(s: State, actions: seq<Action>)
    requires Told(s.row) && Run(s, actions).Some?
    ensures ToldThroughout(s, actions) <==> FinishesTell(s, actions)
    decreases |actions|
  {
    if actions != [] {
      var next := Step(s, actions[0]).value;
      StepTellsExactly(s, actions[0]);
      if Told(next.row) {
        RunTellsExactly(next, actions[1..]);
      }
    }
  }

  /** Two applies at once break it: the one that loaded the older file records last. */
  lemma OverlappingAppliesUntellIt() returns (s: State, actions: seq<Action>)
    ensures Settled(s) && Run(s, actions).Some? && !Told(Run(s, actions).value.row)
  {
    s := State(Some(Row(3, None, Pending)), Some(3), None, map[]);
    var early := Attempt(Some(3), None, true, 3);
    var late := Attempt(Some(4), None, true, 4);
    var row4 := Some(Row(4, None, Pending));
    var s1 := s.(applies := map[1 := early]);
    assert Step(s, Load(1)) == Some(s1);
    var s2 := s1.(save := Some(Save(4, true, true)));
    assert Step(s1, BeginSave(true)) == Some(s2);
    var s3 := s2.(file := Some(4), save := Some(Save(4, false, true)));
    assert Step(s2, WriteFile) == Some(s3);
    var s4 := s3.(row := row4, save := None);
    assert Step(s3, WriteRow) == Some(s4);
    var s5 := s4.(applies := map[1 := early, 2 := late]);
    assert s4.applies[2 := late] == s5.applies;
    assert Step(s4, Load(2)) == Some(s5);
    var s6 := s5.(applies := map[1 := early], row := Some(Row(4, Some(4), Applied)));
    assert Without(s5.applies, 2) == s6.applies;
    assert Step(s5, Finish(2, Worked)) == Some(s6);
    var s7 := s6.(applies := map[], row := Some(Row(4, Some(3), Applied)));
    assert Without(s6.applies, 1) == s7.applies;
    assert Step(s6, Finish(1, Worked)) == Some(s7);
    actions := [Load(1), BeginSave(true), WriteFile, WriteRow, Load(2), Finish(2, Worked), Finish(1, Worked)];
    RunFollows(s6, [Finish(1, Worked)], s7, []);
    RunFollows(s5, [Finish(2, Worked), Finish(1, Worked)], s6, [Finish(1, Worked)]);
    RunFollows(s4, [Load(2), Finish(2, Worked), Finish(1, Worked)], s5, [Finish(2, Worked), Finish(1, Worked)]);
    RunFollows(s3, [WriteRow, Load(2), Finish(2, Worked), Finish(1, Worked)], s4, [Load(2), Finish(2, Worked), Finish(1, Worked)]);
    RunFollows(s2, [WriteFile, WriteRow, Load(2), Finish(2, Worked), Finish(1, Worked)], s3, [WriteRow, Load(2), Finish(2, Worked), Finish(1, Worked)]);
    RunFollows(s1, [BeginSave(true), WriteFile, WriteRow, Load(2), Finish(2, Worked), Finish(1, Worked)], s2,
               [WriteFile, WriteRow, Load(2), Finish(2, Worked), Finish(1, Worked)]);
    RunFollows(s, actions, s1, [BeginSave(true), WriteFile, WriteRow, Load(2), Finish(2, Worked), Finish(1, Worked)]);
    assert Run(s7, []) == Some(s7);
  }

  lemma RunFollows(s: State, actions: seq<Action>, next: State, rest: seq<Action>)
    requires actions != [] && actions[1..] == rest && Step(s, actions[0]) == Some(next)
    ensures Run(s, actions) == Run(next, rest)
  {
  }

  /** So does an apply begun before there was a row: it reports no revision, and marks a later save's row applied. */
  lemma ApplyWithoutARowUntellsIt() returns (s: State, actions: seq<Action>)
    ensures Settled(s) && Run(s, actions).Some? && !Told(Run(s, actions).value.row)
  {
    s := State(None, None, None, map[]);
    var blind := Attempt(None, None, true, 0);
    var s1 := s.(applies := map[1 := Attempt(None, None, false, 0)]);
    assert Step(s, Load(1)) == Some(s1);
    var s2 := s1.(applies := map[1 := blind]);
    assert s1.applies[1 := blind] == s2.applies;
    assert Step(s1, ReadRow(1)) == Some(s2);
    var s3 := s2.(save := Some(Save(1, true, true)));
    assert Step(s2, BeginSave(true)) == Some(s3);
    var s4 := s3.(row := Some(Row(1, None, Pending)), save := Some(Save(1, true, false)));
    assert Step(s3, WriteRow) == Some(s4);
    var s5 := s4.(applies := map[], row := Some(Row(1, None, Applied)));
    assert Without(s4.applies, 1) == s5.applies;
    assert Step(s4, Finish(1, Worked)) == Some(s5);
    actions := [Load(1), ReadRow(1), BeginSave(true), WriteRow, Finish(1, Worked)];
    RunFollows(s4, [Finish(1, Worked)], s5, []);
    RunFollows(s3, [WriteRow, Finish(1, Worked)], s4, [Finish(1, Worked)]);
    RunFollows(s2, [BeginSave(true), WriteRow, Finish(1, Worked)], s3, [WriteRow, Finish(1, Worked)]);
    RunFollows(s1, [ReadRow(1), BeginSave(true), WriteRow, Finish(1, Worked)], s2, [BeginSave(true), WriteRow, Finish(1, Worked)]);
    RunFollows(s, actions, s1, [ReadRow(1), BeginSave(true), WriteRow, Finish(1, Worked)]);
    assert Run(s5, []) == Some(s5);
  }
}
