/** lab/cluster_takeover.py: a takeover excludes the move it supersedes, every crash inside it is finished by
    running it again, and when it can be released. */
module ClusterTakeover {
  import opened Prelude
  import opened MoveSteps
  import opened DatabaseMove

  // ------------------------------------------------------------ what a takeover's records say

  ghost predicate IntentGrounds(s: State) {
    s.migration.Intent? && s.migration.newVolume.Some? ==>
      && s.rebuild.Some? && s.migration.image == s.rebuild.value.image
      && (s.migration.progress.Pinned? || s.migration.progress.Named? ==> s.pin == s.migration.image)
  }

  ghost predicate MarkGrounds(s: State) {
    && (s.record.Some? && s.record.value.taken.Some? ==> s.rebuild.Some?)
    && (s.record.Some? && s.record.value.taken == Some(BackMoving) ==> s.site.fromImage == s.rebuild.value.image)
  }

  ghost predicate WaitGrounds(s: State) {
    s.waiting ==>
      s.rebuild.Some? && ((s.migration.Intent? && s.migration.newVolume.Some?) || s.volume != s.rebuild.value.volume)
  }

  predicate MovesBack(pc: Pc) {
    match pc
    case TakeMark(back) => back
    case SaveBack => true
    case MoveBack => true
    case CheckBack => true
    case _ => false
  }

  /** Every record a takeover left names the rebuild it was made for. */
  ghost predicate Grounds(s: State) {
    && IntentGrounds(s) && MarkGrounds(s) && WaitGrounds(s)
    && (MovesBack(s.pc) ==> s.rebuild.Some? && s.site.fromImage == s.rebuild.value.image)
  }

  lemma ResumeKeepsGrounds(s: State)
    requires Inv(s) && Grounds(s) && InResume(s.pc) && s.record.Some? && ResumeStep(s).Some?
    ensures Grounds(ResumeStep(s).value)
  {
    assert ResumePlace(s);
    match s.pc {
      case MarkRun => assert ResumeStep(s).value == s.(runMarked := true, pc := SaveMarked);
      case Change =>
      case _ =>
    }
  }

  lemma IntentKeepsGrounds(s: State, r: Rebuild)
    requires Inv(s) && Grounds(s) && s.pc.TakeChange? && s.rebuild == Some(r)
    requires s.migration.Intent? && TargetVolume(s) == r.volume
    ensures Grounds(TakeChangeStep(s, r))
  {
    var next := TakeChangeStep(s, r);
    match s.migration.progress {
      case Begun => assert next == s.(migration := s.migration.(progress := RetiredGone), running := false);
      case RetiredGone => assert next == s.(migration := s.migration.(progress := Replaced), running := true);
      case Replaced => assert next == s.(migration := s.migration.(progress := Pinned), pin := s.migration.image);
      case _ => PinnedKeepsGrounds(s, r);
    }
  }

  lemma PinnedKeepsGrounds(s: State, r: Rebuild)
    requires Inv(s) && Grounds(s) && s.pc.TakeChange? && s.rebuild == Some(r)
    requires s.migration.Intent? && TargetVolume(s) == r.volume && (s.migration.progress.Pinned? || s.migration.progress.Named?)
    ensures Grounds(TakeChangeStep(s, r))
  {
    var next := TakeChangeStep(s, r);
    if s.migration.progress.Named? {
      assert next == s.(migration := Absent, waiting := false, pc := TakeCheck);
    } else if s.migration.newVolume.Some? {
      assert next == s.(migration := s.migration.(progress := Named), volume := r.volume);
    } else {
      assert next == s.(migration := Absent, finished := s.finished + 1, pc := TakeCheck);
    }
  }

  lemma ChangeKeepsGrounds(s: State, r: Rebuild)
    requires Inv(s) && Grounds(s) && s.pc.TakeChange? && s.rebuild == Some(r)
    ensures Grounds(TakeChangeStep(s, r))
  {
    if s.migration.Intent? && TargetVolume(s) == r.volume { IntentKeepsGrounds(s, r); }
  }

  lemma BackKeepsGrounds(s: State, r: Rebuild)
    requires Inv(s) && Grounds(s) && s.rebuild == Some(r) && TakeoverStep(s, r).Some?
    requires s.pc.TakeMark? || s.pc.SaveBack? || s.pc.MoveBack? || s.pc.CheckBack?
    ensures Grounds(TakeoverStep(s, r).value)
  {
    var next := TakeoverStep(s, r).value;
    assert TakeoverPlace(s);
    match s.pc {
      case TakeMark(back) => assert next == Took(s, NotBegun, if back then SaveBack else TreeIsClean);
      case SaveBack => assert next == Took(s, BackMoving, MoveBack);
      case MoveBack => assert next == s.(head := From, dirty := false, pc := CheckBack);
      case CheckBack => CheckBackKeepsGrounds(s, r);
      case _ =>
    }
  }

  lemma CheckBackKeepsGrounds(s: State, r: Rebuild)
    requires Grounds(s) && s.rebuild == Some(r) && s.pc.CheckBack? && TakeoverStep(s, r).Some?
    ensures Grounds(TakeoverStep(s, r).value)
  {
  }

  lemma TakeoverKeepsGrounds(s: State, r: Rebuild)
    requires Inv(s) && Grounds(s) && InTakeover(s.pc) && s.rebuild == Some(r) && TakeoverStep(s, r).Some?
    ensures Grounds(TakeoverStep(s, r).value)
  {
    match s.pc {
      case TakeMark(_) => BackKeepsGrounds(s, r);
      case SaveBack => BackKeepsGrounds(s, r);
      case MoveBack => BackKeepsGrounds(s, r);
      case CheckBack => BackKeepsGrounds(s, r);
      case TakeChange => ChangeKeepsGrounds(s, r);
      case _ => EndKeepsGrounds(s, r);
    }
  }

  lemma EndKeepsGrounds(s: State, r: Rebuild)
    requires Grounds(s) && InTakeover(s.pc) && !MovesBack(s.pc) && !s.pc.TakeMark? && !s.pc.TakeChange?
    requires s.rebuild == Some(r) && TakeoverStep(s, r).Some?
    ensures Grounds(TakeoverStep(s, r).value)
  {
    var next := TakeoverStep(s, r).value;
    match s.pc {
      case TreeIsClean => assert next == s.(pc := next.pc);
      case TakeDecide => assert next == s.(pc := next.pc);
      case TakeCheck => assert next == s.(pc := next.pc);
      case TakeMarkRun => assert next == s.(runMarked := true, pc := TakeArchive);
      case TakeArchive => assert next == s.(archive := Some(Superseded), pc := TakeRemove);
      case TakeRemove => assert next == s.(record := None, pc := Idle);
      case _ =>
    }
  }

  lemma OperatorKeepsGrounds(s: State, a: Action)
    requires Inv(s) && Grounds(s) && s.pc.Idle? && IdleStep(s, a).Some? && !a.Takeover?
    ensures Grounds(IdleStep(s, a).value)
  {
  }

  lemma TakeoverBeginsGrounds(s: State)
    requires Inv(s) && Grounds(s) && s.pc.Idle? && TakeoverAdmitted(s)
    ensures Grounds(TakeoverStart(s))
  {
  }

  lemma StepKeepsGrounds(s: State, a: Action)
    requires Inv(s) && Grounds(s) && Step(s, a).Some?
    ensures Grounds(Step(s, a).value)
  {
    if s.pc.Idle? {
      if a.Takeover? { TakeoverBeginsGrounds(s); } else { OperatorKeepsGrounds(s, a); }
    } else if a.Go? {
      if InResume(s.pc) { ResumeKeepsGrounds(s); } else { TakeoverKeepsGrounds(s, s.rebuild.value); }
    }
  }

  /** Both invariants, over every run. */
  lemma {:induction false} RunKeepsGrounds(s: State, actions: seq<Action>)
    requires Inv(s) && Grounds(s) && Run(s, actions).Some?
    ensures Inv(Run(s, actions).value) && Grounds(Run(s, actions).value)
    decreases |actions|
  {
    if actions != [] {
      StepKeepsInv(s, actions[0]);
      StepKeepsGrounds(s, actions[0]);
      RunKeepsGrounds(Step(s, actions[0]).value, actions[1..]);
    }
  }

  // ------------------------------------------------------------ one of the two commands

  /** What the takeover admits, said of the records: a rebuild that completed; no move recorded, or one past `prepared`; no
      migration, or one onto the rebuilt volume and image, or a stuck one (its old container gone, the replacement never
      captured, the pin still the old image's); and a checkout whose lock names the rebuilt image, or one to move back to. */
  lemma TakeoverAdmittedExactly(s: State)
    requires s.pc.Idle?
    ensures Step(s, Takeover).Some? <==>
            && s.rebuild.Some?
            && (s.record.None? || s.record.value.phase == Moving || s.record.value.phase == Migrating)
            && (s.migration.Intent? ==>
                  var onto := if s.migration.newVolume.Some? then s.migration.newVolume.value else s.volume;
                  if onto == s.rebuild.value.volume then s.migration.image == s.rebuild.value.image
                  else && !s.migration.supersedes && s.migration.newVolume.None? && s.migration.progress == RetiredGone
                       && s.pin == s.site.fromImage)
            && ((s.record.Some? && s.record.value.taken == Some(BackMoving)) || LockImage(s) == s.rebuild.value.image
                || (s.record.Some? && s.site.fromImage == s.rebuild.value.image && s.site.fromFinishes))
  {
  }

  /** While a takeover is admitted, the move's own command is not once the move is marked, whether the database runs
      or not; before that it is, unless the database runs without a migration of the move to account for it. */
  lemma OneCommandExactlyOnceMarked(s: State)
    requires Inv(s) && s.pc.Idle? && s.record.Some? && TakeoverAdmitted(s)
    ensures Step(s, Resume).Some? <==>
            s.record.value.taken.None?
            && (s.running && s.migration.Absent? ==> s.record.value.phase.Migrating? && AlreadyMoved(s, LockImage(s)))
  {
  }

  ghost predicate OnlyTakenOver(s: State) {
    !InResume(s.pc) && (s.record.Some? ==> s.record.value.taken.Some?)
  }

  predicate Settles(a: Action) {
    a.Release? || a.PrepareMove?
  }

  lemma OnlyTakenOverStep(s: State, a: Action)
    requires OnlyTakenOver(s) && !Settles(a) && Step(s, a).Some?
    ensures OnlyTakenOver(Step(s, a).value) && Step(s, a).value.starts == s.starts
  {
    if a.Go? {
      TakeoverKeepsMark(s, s.rebuild.value);
    }
  }

  lemma BackKeepsMark(s: State, r: Rebuild)
    requires OnlyTakenOver(s) && (s.pc.TakeMark? || s.pc.SaveBack? || s.pc.MoveBack? || s.pc.CheckBack?)
    requires TakeoverStep(s, r).Some?
    ensures OnlyTakenOver(TakeoverStep(s, r).value) && TakeoverStep(s, r).value.starts == s.starts
  {
  }

  lemma TakeoverKeepsMark(s: State, r: Rebuild)
    requires OnlyTakenOver(s) && InTakeover(s.pc) && TakeoverStep(s, r).Some?
    ensures OnlyTakenOver(TakeoverStep(s, r).value) && TakeoverStep(s, r).value.starts == s.starts
  {
    var next := TakeoverStep(s, r).value;
    match s.pc {
      case TakeMark(_) => BackKeepsMark(s, r);
      case SaveBack => BackKeepsMark(s, r);
      case MoveBack => BackKeepsMark(s, r);
      case CheckBack => BackKeepsMark(s, r);
      case TakeChange => ChangeKeepsMark(s, r);
      case TreeIsClean => assert next == s.(pc := next.pc);
      case TakeDecide => assert next == s.(pc := next.pc);
      case TakeCheck => assert next == s.(pc := next.pc);
      case _ =>
    }
  }

  ghost predicate SameMove(s: State, next: State) {
    next.record == s.record && next.starts == s.starts && (next.pc.TakeChange? || next.pc.TakeCheck?)
  }

  lemma ChangeKeepsMark(s: State, r: Rebuild)
    requires s.pc.TakeChange?
    ensures SameMove(s, TakeChangeStep(s, r))
  {
    if !(s.migration.Intent? && TargetVolume(s) != r.volume) {
      MigrationKeepsMark(s, r.image, Some(r.volume), s.waiting);
    }
  }

  lemma MigrationKeepsMark(s: State, image: Image, volume: Option<Volume>, supersedes: bool)
    requires s.pc.TakeChange?
    ensures SameMove(s, MigrationStep(s, image, volume, supersedes, TakeCheck))
  {
  }

  /** Once marked, no effect of the move's own command happens until the record is archived or released,
      however often either command is run and killed. */
  lemma {:induction false} MarkedMoveIsOnlyTakenOver(s: State, actions: seq<Action>)
    requires OnlyTakenOver(s) && Run(s, actions).Some?
    requires forall i :: 0 <= i < |actions| ==> !Settles(actions[i])
    ensures OnlyTakenOver(Run(s, actions).value) && Run(s, actions).value.starts == s.starts
    decreases |actions|
  {
    if actions != [] {
      OnlyTakenOverStep(s, actions[0]);
      MarkedMoveIsOnlyTakenOver(Step(s, actions[0]).value, actions[1..]);
    }
  }

  // ------------------------------------------------------------ a takeover run again finishes

  ghost predicate TakeoverDone(s: State, r: Rebuild) {
    && s.pc.Idle? && s.record.None? && s.migration.Absent? && !s.waiting
    && s.volume == r.volume && s.pin == r.image && LockImage(s) == r.image && !s.dirty
    && Step(s, StartSbarbase).Some?
  }

  /** Running the takeover undisturbed ends with the installation on the rebuilt cluster, and a move that
      was recorded archived as superseded. */
  ghost predicate TakeoverCompletes(s: State) {
    && Step(s, Takeover).Some?
    && exists n: nat :: var end := Drive(Step(s, Takeover).value, n);
         TakeoverDone(end, s.rebuild.value) && (s.record.Some? ==> end.archive == Some(Superseded))
  }

  /** What the operator can check before running it. */
  ghost predicate TakeoverReady(s: State) {
    && TakeoverAdmitted(s)
    && (NeedsBack(s, s.rebuild.value) || !s.dirty)
    && (OnRebuilt(s, s.rebuild.value) ==> s.pin == s.rebuild.value.image)
  }

  function TakeChangeRank(s: State, r: Rebuild): nat {
    if s.migration.Intent? && TargetVolume(s) != r.volume then (if s.waiting then 20 else 21) else
    match s.migration
    case Absent => 18
    case Empty => 17
    case Intent(_, _, _, progress) =>
      match progress case Begun => 16 case RetiredGone => 15 case Replaced => 14 case Pinned => 13 case Named => 12
  }

  function TakeoverRank(s: State, r: Rebuild): nat {
    match s.pc
    case TakeMark(_) => 40 case SaveBack => 39 case MoveBack => 38 case CheckBack => 37 case TreeIsClean => 36
    case TakeDecide => 35
    case TakeChange => TakeChangeRank(s, r)
    case TakeCheck => 5 case TakeMarkRun => 4 case TakeArchive => 3 case TakeRemove => 2
    case _ => 0
  }

  ghost predicate OnRebuiltCluster(s: State, r: Rebuild) {
    s.migration.Absent? && !s.waiting && s.volume == r.volume && s.pin == r.image
  }

  ghost predicate TreeIsRebuilds(s: State, r: Rebuild) {
    LockImage(s) == r.image && !s.dirty && !(s.record.Some? && s.record.value.taken == Some(BackMoving))
  }

  /** A migration the takeover can go on with, or none and the rebuilt volume not named wrongly. */
  ghost predicate ChangeReady(s: State, r: Rebuild) {
    CommandFound(s, r) && (OnRebuilt(s, r) ==> s.pin == r.image) && !s.migration.Empty?
  }

  ghost predicate BackReady(s: State, r: Rebuild) {
    NeedsBack(s, r) && s.record.Some? && (s.record.value.taken == Some(BackMoving) || s.site.fromFinishes)
  }

  /** Where a takeover that is going to finish stands. */
  ghost predicate TakeoverCourse(s: State, r: Rebuild) {
    match s.pc
    case TakeMark(back) => ChangeReady(s, r) && (if back then BackReady(s, r) else TreeIsRebuilds(s, r))
    case SaveBack => ChangeReady(s, r) && BackReady(s, r)
    case MoveBack => ChangeReady(s, r) && s.record.Some? && s.record.value.taken == Some(BackMoving)
    case CheckBack => ChangeReady(s, r) && s.record.Some? && s.record.value.taken == Some(BackMoving) && s.head.From? && !s.dirty
    case TreeIsClean => ChangeReady(s, r) && TreeIsRebuilds(s, r)
    case TakeDecide => ChangeReady(s, r) && TreeIsRebuilds(s, r)
    case TakeChange => CommandFound(s, r) && TreeIsRebuilds(s, r)
    case TakeCheck => OnRebuiltCluster(s, r) && TreeIsRebuilds(s, r)
    case TakeMarkRun => OnRebuiltCluster(s, r) && TreeIsRebuilds(s, r)
    case TakeArchive => OnRebuiltCluster(s, r) && TreeIsRebuilds(s, r)
    case TakeRemove => OnRebuiltCluster(s, r) && TreeIsRebuilds(s, r)
    case _ => false
  }

  ghost predicate OnTakeover(s: State, r: Rebuild) {
    Inv(s) && Grounds(s) && s.rebuild == Some(r) && TakeoverCourse(s, r)
  }

  ghost predicate TakesUp(s: State, r: Rebuild, next: State) {
    && next.rebuild == Some(r) && TakeoverCourse(next, r) && TakeoverRank(next, r) < TakeoverRank(s, r)
    && (next.record.Some? <==> s.record.Some?)
  }

  lemma IntentOnCourse(s: State, r: Rebuild)
    requires OnTakeover(s, r) && s.pc.TakeChange? && s.migration.Intent? && TargetVolume(s) == r.volume
    ensures TakesUp(s, r, TakeChangeStep(s, r))
  {
    var next := TakeChangeStep(s, r);
    assert s.migration.image == r.image;
    match s.migration.progress {
      case Begun => assert next == s.(migration := s.migration.(progress := RetiredGone), running := false);
      case RetiredGone => assert next == s.(migration := s.migration.(progress := Replaced), running := true);
      case Replaced => assert next == s.(migration := s.migration.(progress := Pinned), pin := r.image);
      case Pinned =>
        assert s.pin == r.image;
        if s.migration.newVolume.None? {
          assert next == s.(migration := Absent, finished := s.finished + 1, pc := TakeCheck);
        } else {
          assert next == s.(migration := s.migration.(progress := Named), volume := r.volume);
        }
      case Named => assert next == s.(migration := Absent, waiting := false, pc := TakeCheck);
    }
  }

  lemma StuckOnCourse(s: State, r: Rebuild)
    requires OnTakeover(s, r) && s.pc.TakeChange? && s.migration.Intent? && TargetVolume(s) != r.volume
    ensures TakesUp(s, r, TakeChangeStep(s, r))
  {
    if s.waiting {
      assert TakeChangeStep(s, r) == s.(migration := Absent);
    } else {
      assert TakeChangeStep(s, r) == s.(waiting := true);
    }
  }

  lemma PublishOnCourse(s: State, r: Rebuild)
    requires OnTakeover(s, r) && s.pc.TakeChange? && !s.migration.Intent?
    ensures TakesUp(s, r, TakeChangeStep(s, r))
  {
    if s.migration.Absent? {
      assert TakeChangeStep(s, r) == s.(migration := Empty);
    } else {
      assert TakeChangeStep(s, r) == s.(migration := Intent(r.image, Some(r.volume), s.waiting, Progress.Begun));
    }
  }

  lemma MarkOnCourse(s: State, r: Rebuild)
    requires OnTakeover(s, r) && s.pc.TakeMark? && s.record.Some?
    ensures TakesUp(s, r, Took(s, NotBegun, if s.pc.back then SaveBack else TreeIsClean))
  {
  }

  lemma SaveBackOnCourse(s: State, r: Rebuild)
    requires OnTakeover(s, r) && s.pc.SaveBack? && s.record.Some?
    ensures TakesUp(s, r, Took(s, BackMoving, MoveBack))
  {
  }

  lemma MoveBackOnCourse(s: State, r: Rebuild)
    requires OnTakeover(s, r) && s.pc.MoveBack?
    ensures TakesUp(s, r, s.(head := From, dirty := false, pc := CheckBack))
  {
  }

  lemma CheckBackOnCourse(s: State, r: Rebuild)
    requires OnTakeover(s, r) && s.pc.CheckBack?
    ensures s.record.Some? && LockImage(s) == r.image && TakesUp(s, r, Took(s, BackMoved, TakeDecide))
  {
  }

  lemma ChecksOnCourse(s: State, r: Rebuild)
    requires OnTakeover(s, r) && (s.pc.TreeIsClean? || s.pc.TakeDecide? || (s.pc.TakeCheck? && s.record.Some?))
    ensures TakesUp(s, r, TakeoverStep(s, r).value)
  {
    match s.pc {
      case TreeIsClean => assert TakeoverStep(s, r).value == s.(pc := TakeDecide);
      case TakeDecide => assert TakeoverStep(s, r).value == s.(pc := if OnRebuilt(s, r) then TakeCheck else TakeChange);
      case TakeCheck => assert TakeoverStep(s, r).value == s.(pc := TakeoverStep(s, r).value.pc);
      case _ =>
    }
  }

  lemma ChangeOnCourse(s: State, r: Rebuild)
    requires OnTakeover(s, r) && s.pc.TakeChange?
    ensures TakesUp(s, r, TakeChangeStep(s, r))
  {
    if !s.migration.Intent? { PublishOnCourse(s, r); }
    else if TargetVolume(s) == r.volume { IntentOnCourse(s, r); }
    else { StuckOnCourse(s, r); }
  }

  lemma TakeoverOnCourse(s: State, r: Rebuild)
    requires OnTakeover(s, r) && TakeoverStep(s, r).Some? && !s.pc.TakeRemove? && (s.pc.TakeCheck? ==> s.record.Some?)
    ensures TakesUp(s, r, TakeoverStep(s, r).value)
  {
    match s.pc {
      case TakeMark(_) => MarkOnCourse(s, r);
      case SaveBack => SaveBackOnCourse(s, r);
      case MoveBack => MoveBackOnCourse(s, r);
      case CheckBack => CheckBackOnCourse(s, r);
      case TakeChange => ChangeOnCourse(s, r);
      case TakeMarkRun => assert TakeoverStep(s, r).value == s.(runMarked := true, pc := TakeArchive);
      case TakeArchive => assert TakeoverStep(s, r).value == s.(archive := Some(Superseded), pc := TakeRemove);
      case _ => ChecksOnCourse(s, r);
    }
  }

  ghost predicate Ended(s: State, r: Rebuild, hadMove: bool) {
    TakeoverDone(s, r) && (hadMove ==> s.archive == Some(Superseded))
  }

  /** The last effect: the record is removed, or there was none. */
  lemma LastEffect(s: State, r: Rebuild)
    requires OnTakeover(s, r) && (s.pc.TakeRemove? || (s.pc.TakeCheck? && s.record.None?))
    ensures Step(s, Go).Some? && Ended(Step(s, Go).value, r, s.record.Some?)
  {
    assert TakeoverPlace(s);
    if s.pc.TakeRemove? {
      assert Step(s, Go) == Some(s.(record := None, pc := Idle));
    } else {
      assert Step(s, Go) == Some(s.(pc := Idle));
    }
  }

  lemma {:induction false} TakeoverFinishes(s: State, r: Rebuild) returns (n: nat)
    requires OnTakeover(s, r)
    ensures Ended(Drive(s, n), r, s.record.Some?)
    decreases TakeoverRank(s, r)
  {
    if s.pc.TakeRemove? || (s.pc.TakeCheck? && s.record.None?) {
      LastEffect(s, r);
      assert Drive(Step(s, Go).value, 0) == Step(s, Go).value;
      n := 1;
    } else {
      assert TakeoverPlace(s);
      assert Step(s, Go) == TakeoverStep(s, r);
      TakeoverOnCourse(s, r);
      StepKeepsInv(s, Go);
      StepKeepsGrounds(s, Go);
      var m := TakeoverFinishes(Step(s, Go).value, r);
      n := m + 1;
    }
  }

  lemma StartDiscardsOnlyAnEmptyRecord(s: State, t: State, r: Rebuild)
    requires s.pc.Idle? && s.rebuild == Some(r) && t == TakeoverStart(s)
    ensures t == s.(migration := if s.migration.Empty? then Absent else s.migration, pc := t.pc)
    ensures LockImage(t) == LockImage(s) && OnRebuilt(t, r) == OnRebuilt(s, r) && (CommandFound(t, r) <==> CommandFound(s, r))
    ensures NeedsBack(t, r) == NeedsBack(s, r)
  {
  }

  lemma ReadyStartsTheCourse(s: State)
    requires Inv(s) && Grounds(s) && s.pc.Idle? && TakeoverReady(s)
    ensures OnTakeover(TakeoverStart(s), s.rebuild.value) && (TakeoverStart(s).record == s.record)
  {
    var t, r := TakeoverStart(s), s.rebuild.value;
    StartDiscardsOnlyAnEmptyRecord(s, t, r);
    assert TakeoverCourse(t, r);
    TakeoverBeginsInv(s);
    TakeoverBeginsGrounds(s);
  }

  // A takeover that cannot finish: the checkout has local changes, or the volume is named with another pin.

  ghost predicate Refusing(s: State, r: Rebuild) {
    && s.rebuild == Some(r)
    && (s.pc.Idle? || s.pc.TreeIsClean? || s.pc == TakeMark(false))
    && s.dirty
  }

  lemma {:induction false} DirtyTakeoverRefuses(s: State, r: Rebuild, n: nat)
    requires Refusing(s, r)
    ensures Drive(s, n).dirty
    decreases n
  {
    if n > 0 && Step(s, Go).Some? {
      assert Refusing(Step(s, Go).value, r);
      DirtyTakeoverRefuses(Step(s, Go).value, r, n - 1);
    }
  }

  predicate BeforeChange(pc: Pc) {
    match pc
    case Idle => true case TakeMark(_) => true case SaveBack => true case MoveBack => true case CheckBack => true
    case TreeIsClean => true case TakeDecide => true case TakeCheck => true
    case _ => false
  }

  ghost predicate Mispinned(s: State, r: Rebuild) {
    s.rebuild == Some(r) && OnRebuilt(s, r) && s.pin != r.image && BeforeChange(s.pc)
  }

  lemma MispinnedStep(s: State, r: Rebuild)
    requires Mispinned(s, r) && TakeoverStep(s, r).Some?
    ensures Mispinned(TakeoverStep(s, r).value, r)
  {
    match s.pc {
      case TakeDecide => assert TakeoverStep(s, r).value == s.(pc := TakeCheck);
      case TakeCheck => assert TakeoverStep(s, r).value == s.(pc := Idle);
      case _ =>
    }
  }

  lemma {:induction false} MispinnedTakeoverRefuses(s: State, r: Rebuild, n: nat)
    requires Mispinned(s, r)
    ensures Drive(s, n).pin != r.image
    decreases n
  {
    if n > 0 && Step(s, Go).Some? {
      assert Step(s, Go) == TakeoverStep(s, r);
      MispinnedStep(s, r);
      MispinnedTakeoverRefuses(Step(s, Go).value, r, n - 1);
    }
  }

  /** From every state any run can leave, running the takeover finishes exactly when the operator's own
      conditions hold: its refusals do not apply, the tree is clean unless it is moved back, and a volume
      already named was named with the rebuilt image. */
  lemma TakeoverCompletesExactlyWhenReady(s: State)
    requires Inv(s) && Grounds(s) && s.pc.Idle?
    ensures TakeoverCompletes(s) <==> TakeoverReady(s)
  {
    if TakeoverReady(s) {
      ReadyStartsTheCourse(s);
      var t := TakeoverStart(s);
      var n := TakeoverFinishes(t, s.rebuild.value);
      assert Step(s, Takeover) == Some(t);
      assert Ended(Drive(t, n), s.rebuild.value, s.record.Some?);
    } else if TakeoverAdmitted(s) {
      var r, t := s.rebuild.value, TakeoverStart(s);
      forall n: nat ensures !TakeoverDone(Drive(t, n), r) {
        if !(NeedsBack(s, r) || !s.dirty) { DirtyTakeoverRefuses(t, r, n); }
        else { MispinnedTakeoverRefuses(t, r, n); }
      }
    }
  }

  lemma HalfwayBackIsReady(s: State, r: Rebuild, t: State)
    requires OnTakeover(s, r) && MovesBack(s.pc) && t == s.(pc := Idle)
    ensures TakeoverReady(t)
  {
    assert TakeoverPlace(s);
    assert CommandFound(t, r) && OnRebuilt(t, r) == OnRebuilt(s, r);
  }

  lemma ChangeIsReady(s: State, r: Rebuild, t: State)
    requires OnTakeover(s, r) && !MovesBack(s.pc) && t == s.(pc := Idle)
    ensures TakeoverReady(t)
  {
    assert TakeoverPlace(s);
    assert LockImage(t) == r.image;
    assert CommandFound(t, r) && OnRebuilt(t, r) == OnRebuilt(s, r);
    match s.pc {
      case TakeChange => assert OnRebuilt(s, r) ==> false;
      case _ =>
    }
  }

  /** A takeover killed anywhere on its way can be run again, and then finishes; a checkout killed halfway
      through the move back is moved back again, whatever it holds. */
  lemma KilledTakeoverFinishesWhenRunAgain(s: State, r: Rebuild)
    requires OnTakeover(s, r)
    ensures TakeoverCompletes(Step(s, Stop).value)
    ensures (s.pc.MoveBack? ==> forall version, dirty :: var t := Step(s, Disturb(version, dirty)).value;
                                                           TakeoverCompletes(Step(t, Stop).value))
  {
    KilledTakeoverIsReady(s, r);
    if s.pc.MoveBack? {
      forall version, dirty ensures TakeoverCompletes(Step(Step(s, Disturb(version, dirty)).value, Stop).value) {
        var a := Disturb(version, dirty);
        var t := Step(s, a).value;
        StepKeepsInv(s, a);
        StepKeepsGrounds(s, a);
        assert t == s.(head := version, dirty := dirty);
        assert OnTakeover(t, r);
        KilledTakeoverIsReady(t, r);
      }
    }
  }

  lemma KilledTakeoverIsReady(s: State, r: Rebuild)
    requires OnTakeover(s, r)
    ensures TakeoverCompletes(Step(s, Stop).value)
  {
    var t := s.(pc := Idle);
    assert Step(s, Stop) == Some(t);
    StepKeepsInv(s, Stop);
    StepKeepsGrounds(s, Stop);
    if MovesBack(s.pc) { HalfwayBackIsReady(s, r, t); } else { ChangeIsReady(s, r, t); }
    TakeoverCompletesExactlyWhenReady(t);
  }

  // ------------------------------------------------------------ what a refusal leaves behind

  /** Local changes are refused only after the move was marked: the refusal does not leave the move as it was. */
  lemma LocalChangesRefuseAfterTheMark(s: State)
    requires s.pc.Idle? && TakeoverAdmitted(s) && s.record.Some? && s.record.value.taken.None?
    requires !NeedsBack(s, s.rebuild.value) && s.dirty
    ensures var end := Drive(Step(s, Takeover).value, 2);
            end.pc.Idle? && end.record == Some(s.record.value.(taken := Some(NotBegun))) && !ResumeAdmitted(end)
  {
    var t := Step(s, Takeover).value;
    var u := Step(t, Go).value;
    assert u == Took(t, NotBegun, TreeIsClean);
    var v := Step(u, Go).value;
    assert v == u.(pc := Idle);
    assert Drive(v, 0) == v && Drive(u, 1) == v && Drive(t, 2) == v;
  }

  // ------------------------------------------------------------ release

  /** In every reachable state, a marked takeover is released exactly while no migration onto the rebuilt
      volume is recorded, waiting or already named. */
  lemma ReleaseExactlyWhileUntouched(s: State)
    requires Inv(s) && Grounds(s) && s.pc.Idle? && s.record.Some? && s.record.value.taken.Some?
    ensures Step(s, Release).Some? <==> Untouched(s)
    ensures Step(s, Release).Some? ==>
              var released := Step(s, Release).value;
              && !TakenOver(released) && !released.migration.Empty? && released.record == Some(s.record.value.(taken := None))
              && (!released.running ==> Step(released, Resume).Some?)
  {
  }

  /** A rebuild record that can no longer be read takes that last guard away: the takeover is released although
      the rebuilt volume is already named. */
  lemma LostRebuildRecordReleasesTooLate(s: State)
    requires Inv(s) && Grounds(s) && s.pc.Idle? && s.record.Some? && s.record.value.taken.Some?
    requires OnRebuilt(s, s.rebuild.value)
    ensures Step(s, Release).None? && Step(s.(rebuild := None), Release).Some?
  {
  }

  // ------------------------------------------------------------ a takeover that can neither finish nor be undone

  /** The move is marked, the rebuilt volume is named, and the pin names another image. */
  ghost predicate Wedged(s: State) {
    && s.rebuild.Some? && Mispinned(s, s.rebuild.value)
    && MoveBegun(s) && s.record.value.taken.Some?
  }

  lemma WedgedStep(s: State, a: Action)
    requires Wedged(s) && Step(s, a).Some?
    ensures Wedged(Step(s, a).value)
  {
    if a.Go? { WedgedEffect(s, s.rebuild.value); }
    else if a.Takeover? { WedgedAgain(s); }
  }

  lemma WedgedAgain(s: State)
    requires Wedged(s) && s.pc.Idle?
    ensures Wedged(TakeoverStart(s))
  {
  }

  lemma WedgedEffect(s: State, r: Rebuild)
    requires Wedged(s) && s.rebuild == Some(r) && TakeoverStep(s, r).Some?
    ensures Wedged(TakeoverStep(s, r).value)
  {
    MispinnedStep(s, r);
    match s.pc {
      case TreeIsClean => assert TakeoverStep(s, r).value.record == s.record;
      case TakeDecide => assert TakeoverStep(s, r).value.record == s.record;
      case TakeCheck => assert TakeoverStep(s, r).value.record == s.record;
      case _ =>
    }
  }

  /** Nothing the commands or the operator do leads out of it; the records must be reviewed by hand. */
  lemma {:induction false} WedgedForGood(s: State, actions: seq<Action>)
    requires Wedged(s) && Run(s, actions).Some?
    ensures Wedged(Run(s, actions).value)
    decreases |actions|
  {
    if actions != [] {
      WedgedStep(s, actions[0]);
      WedgedForGood(Step(s, actions[0]).value, actions[1..]);
    }
  }

  /** How it is reached: a cluster is rebuilt and taken into use; a later move changes the pin and is killed
      before it is archived; then the old takeover is run again, and marks the move. */
  lemma LateTakeoverWedges(s: State)
    requires Inv(s) && Grounds(s) && s.pc.Idle? && TakeoverAdmitted(s) && s.record.Some?
    requires OnRebuilt(s, s.rebuild.value) && s.pin != s.rebuild.value.image
    ensures Wedged(Drive(Step(s, Takeover).value, 1))
  {
    var t, r := TakeoverStart(s), s.rebuild.value;
    assert Step(s, Takeover) == Some(t);
    LateTakeoverStarts(s, r);
    var u := Step(t, Go).value;
    WedgedStepFrom(t, r);
    assert Drive(u, 0) == u;
  }

  lemma LateTakeoverStarts(s: State, r: Rebuild)
    requires Inv(s) && s.pc.Idle? && TakeoverAdmitted(s) && s.record.Some?
    requires s.rebuild == Some(r) && OnRebuilt(s, r) && s.pin != r.image
    ensures var t := TakeoverStart(s);
            && (t.pc.TakeMark? || t.pc.SaveBack? || t.pc.TreeIsClean?)
            && Mispinned(t, r) && MoveBegun(t) && (!t.pc.TakeMark? ==> Wedged(t))
  {
    StartDiscardsOnlyAnEmptyRecord(s, TakeoverStart(s), r);
  }

  lemma MarkWedges(t: State, r: Rebuild)
    requires t.pc.TakeMark? && Mispinned(t, r) && MoveBegun(t)
    ensures Step(t, Go).Some? && Wedged(Step(t, Go).value)
  {
    assert Step(t, Go) == Some(Took(t, NotBegun, if t.pc.back then SaveBack else TreeIsClean));
  }

  lemma WedgedStepFrom(t: State, r: Rebuild)
    requires t.rebuild == Some(r) && (t.pc.TakeMark? || t.pc.SaveBack? || t.pc.TreeIsClean?)
    requires Mispinned(t, r) && MoveBegun(t) && (!t.pc.TakeMark? ==> Wedged(t))
    ensures Step(t, Go).Some? && Wedged(Step(t, Go).value)
  {
    if t.pc.TakeMark? { MarkWedges(t, r); }
    else {
      assert Step(t, Go) == TakeoverStep(t, r);
      WedgedEffect(t, r);
    }
  }

  lemma {:induction false} RunThen(s: State, actions: seq<Action>, a: Action)
    requires Run(s, actions).Some?
    ensures Run(s, actions + [a]) == Step(Run(s, actions).value, a)
    decreases |actions|
  {
    if actions == [] {
      assert actions + [a] == [a];
      var next := Step(s, a);
      if next.Some? { assert [a][1..] == [] && Run(next.value, []) == next; }
    } else {
      assert (actions + [a])[1..] == actions[1..] + [a];
      RunThen(Step(s, actions[0]).value, actions[1..], a);
    }
  }

  /** A run from `s` that ends in `end`. */
  ghost predicate Leads(s: State, actions: seq<Action>, end: State) {
    Run(s, actions) == Some(end)
  }

  lemma OneMore(s: State, actions: seq<Action>, mid: State, a: Action) returns (more: seq<Action>)
    requires Leads(s, actions, mid) && Step(mid, a).Some?
    ensures more == actions + [a] && Leads(s, more, Step(mid, a).value)
  {
    RunThen(s, actions, a);
    more := actions + [a];
  }

  /** An installation on the cluster it took into use, at the version before another image. */
  function AfterTakeover(): State {
    State(Site(1, 2, 3, true), None, None, From, false, Absent, false, 1, 7, Some(Rebuild(1, 7)), false, false, Idle, [], 0)
  }

  /** The next move, prepared, moved and at its change. */
  lemma MoveReachesItsChange() returns (actions: seq<Action>, end: State)
    ensures Leads(AfterTakeover(), actions, end)
    ensures end == AfterTakeover().(record := Some(Move(Migrating, false, false, None)), head := To, pc := Change,
                                    starts := [Start(To, false, false)])
  {
    var s0 := AfterTakeover();
    var before, s5 := MoveReachesItsTree();
    var a6 := OneMore(s0, before, s5, Go);
    var a7 := OneMore(s0, a6, s5.(pc := Discard), Go);
    end := s5.(pc := Change, starts := [Start(To, false, false)]);
    assert s5.starts + [Start(To, false, false)] == end.starts;
    assert Step(s5.(pc := Decide), Go) == Some(end);
    actions := OneMore(s0, a7, s5.(pc := Decide), Go);
  }

  lemma MoveBegins() returns (actions: seq<Action>, end: State)
    ensures Leads(AfterTakeover(), actions, end)
    ensures end == AfterTakeover().(record := Some(Move(Moving, false, false, None)), pc := MoveTo)
  {
    var s0 := AfterTakeover();
    assert Leads(s0, [], s0);
    var a1 := OneMore(s0, [], s0, PrepareMove(false));
    var s1 := s0.(record := Some(Move(Prepared, false, false, None)));
    var a2 := OneMore(s0, a1, s1, Resume);
    actions := OneMore(s0, a2, s1.(pc := SaveMoving), Go);
    end := s0.(record := Some(Move(Moving, false, false, None)), pc := MoveTo);
  }

  lemma MoveReachesItsTree() returns (actions: seq<Action>, end: State)
    ensures Leads(AfterTakeover(), actions, end)
    ensures end == AfterTakeover().(record := Some(Move(Migrating, false, false, None)), head := To, pc := CheckTree)
  {
    var s0 := AfterTakeover();
    var a3, s3 := MoveBegins();
    var a4 := OneMore(s0, a3, s3, Go);
    actions := OneMore(s0, a4, s3.(head := To, pc := SaveMigrating), Go);
    end := s3.(record := Some(Move(Migrating, false, false, None)), head := To, pc := CheckTree);
  }

  lemma ChangeStepIs(s: State)
    requires s.pc.Change? && s.record.Some?
    ensures Step(s, Go) == Some(MigrationStep(s, LockImage(s), None, false, CheckMoved))
  {
  }

  /** The change publishes its record and removes the retired container. */
  lemma ChangeBegins(s0: State, actions: seq<Action>, s: State) returns (more: seq<Action>, end: State)
    requires Leads(s0, actions, s) && s.pc.Change? && s.record.Some? && s.head.To? && s.migration.Absent?
    ensures Leads(s0, more, end)
    ensures end == s.(migration := Intent(s.site.toImage, None, false, RetiredGone), running := false)
  {
    var intent := Intent(s.site.toImage, None, false, Progress.Begun);
    ChangeStepIs(s);
    var a1 := OneMore(s0, actions, s, Go);
    var s1 := s.(migration := Empty);
    ChangeStepIs(s1);
    var a2 := OneMore(s0, a1, s1, Go);
    var s2 := s.(migration := intent);
    ChangeStepIs(s2);
    more := OneMore(s0, a2, s2, Go);
    end := s.(migration := intent.(progress := RetiredGone), running := false);
  }

  /** The change captures the replacement and finishes; the move is killed before its record is archived. */
  lemma ChangeFinishesAndIsKilled(s0: State, actions: seq<Action>, s: State) returns (more: seq<Action>, end: State)
    requires Leads(s0, actions, s) && s.pc.Change? && s.record.Some?
    requires s.migration == Intent(s.site.toImage, None, false, RetiredGone)
    ensures Leads(s0, more, end)
    ensures end == s.(migration := Absent, pin := s.site.toImage, running := true, finished := s.finished + 1, pc := Idle)
  {
    ChangeStepIs(s);
    var a4 := OneMore(s0, actions, s, Go);
    var s5 := s.(migration := s.migration.(progress := Replaced), running := true);
    ChangeStepIs(s5);
    var a5 := OneMore(s0, a4, s5, Go);
    var s6 := s.(migration := s.migration.(progress := Pinned), running := true, pin := s.site.toImage);
    ChangeStepIs(s6);
    var a6 := OneMore(s0, a5, s6, Go);
    var s7 := s.(migration := Absent, pin := s.site.toImage, running := true, finished := s.finished + 1, pc := CheckMoved);
    more := OneMore(s0, a6, s7, Stop);
    end := s7.(pc := Idle);
  }

  /** A run from a quiet installation into such a state. */
  lemma WedgeIsReached() returns (actions: seq<Action>, end: State)
    ensures Quiet(AfterTakeover()) && Leads(AfterTakeover(), actions, end) && Wedged(end)
  {
    var s0 := AfterTakeover();
    var before, s := MoveReachesItsChange();
    var begun, v := ChangeBegins(s0, before, s);
    var killed, t := ChangeFinishesAndIsKilled(s0, begun, v);
    RunKeepsGrounds(s0, killed);
    var started := OneMore(s0, killed, t, Takeover);
    var u := Step(t, Takeover).value;
    LateTakeoverWedges(t);
    assert Drive(u, 1) == Step(u, Go).value by { assert Drive(Step(u, Go).value, 0) == Step(u, Go).value; }
    actions := OneMore(s0, started, u, Go);
    end := Step(u, Go).value;
  }

  /** A run from there into the state a lost rebuild record is released from: the marked move is killed. */
  lemma ReleaseTooLateIsReached() returns (actions: seq<Action>, end: State)
    ensures Quiet(AfterTakeover()) && Leads(AfterTakeover(), actions, end)
    ensures end.rebuild.Some? && end.volume == end.rebuild.value.volume
    ensures Step(end, Release).None? && Step(end.(rebuild := None), Release).Some?
  {
    var wedged, s := WedgeIsReached();
    var before := wedged;
    end := s;
    actions := wedged;
    if !s.pc.Idle? {
      actions := OneMore(AfterTakeover(), before, s, Stop);
      end := Step(s, Stop).value;
    }
    RunKeepsGrounds(AfterTakeover(), actions);
    LostRebuildRecordReleasesTooLate(end);
  }

  /** A run into a state whose local changes a takeover refuses only after its mark. */
  lemma LateRefusalIsReached() returns (actions: seq<Action>, end: State)
    ensures Quiet(AfterTakeover()) && Leads(AfterTakeover(), actions, end)
    ensures end.pc.Idle? && TakeoverAdmitted(end) && end.record.Some? && end.record.value.taken.None?
    ensures !NeedsBack(end, end.rebuild.value) && end.dirty
  {
    var before, s := BothAreAdmittedBeforeTheMark();
    actions := OneMore(AfterTakeover(), before, s, Checkout(From, true));
    end := s.(head := From, dirty := true);
  }

  /** A run into a state where both commands are admitted: the move is killed once begun, and the cluster rebuilt. */
  lemma BothAreAdmittedBeforeTheMark() returns (actions: seq<Action>, end: State)
    ensures Quiet(AfterTakeover()) && Leads(AfterTakeover(), actions, end)
    ensures end.record.Some? && end.record.value.taken.None? && Step(end, Resume).Some? && Step(end, Takeover).Some?
    ensures end == AfterTakeover().(record := end.record, rebuild := Some(Rebuild(1, 8)))
  {
    var s0 := AfterTakeover();
    var a3, s3 := MoveBegins();
    var a4 := OneMore(s0, a3, s3, Stop);
    actions := OneMore(s0, a4, s3.(pc := Idle), RebuildCluster(Rebuild(1, 8)));
    end := s3.(pc := Idle, rebuild := Some(Rebuild(1, 8)));
  }
}
