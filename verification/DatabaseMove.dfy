/** lab/database_move.py: what the attended move keeps over every run, and that it can always be finished. */
module DatabaseMove {
  import opened Prelude
  import opened MoveSteps

  /** The database change runs on a clean checkout of the target. */
  ghost predicate StartedRight(starts: seq<Start>) {
    forall i :: 0 <= i < |starts| ==> starts[i].head.To? && !starts[i].dirty
  }

  ghost predicate LockIntent(s: State) {
    s.migration.Intent? && !OntoAnotherVolume(s)
  }

  ghost predicate AtTarget(s: State) {
    s.head.To? && !s.dirty
  }

  /** No migration onto a rebuilt volume is recorded, waiting or (marked by a takeover) already named. */
  ghost predicate Untouched(s: State) {
    && !s.waiting && !OntoAnotherVolume(s)
    && !(s.record.Some? && s.record.value.taken.Some? && s.rebuild.Some? && s.volume == s.rebuild.value.volume)
  }

  ghost predicate Marks(s: State) {
    && (s.record.Some? && s.record.value.marked ==> s.runMarked)
    && (s.record.Some? && s.record.value.phase.Prepared? ==> s.record.value.taken.None? && !s.migration.Intent?
                                                             && !s.waiting && s.finished == 0)
    && (s.record.Some? && (s.waiting || OntoAnotherVolume(s)) ==> s.record.value.taken.Some?)
    && StartedRight(s.starts)
  }

  ghost predicate Intents(s: State) {
    match s.migration
    case Intent(image, newVolume, supersedes, progress) =>
      if newVolume.Some?
      then s.rebuild.Some? && newVolume.value == s.rebuild.value.volume && (progress.Named? ==> s.volume == newVolume.value)
      else && !supersedes && MoveBegun(s) && image == s.site.toImage && !progress.Named? && s.finished == 0
           && (progress.Pinned? ==> s.pin == s.site.toImage)
    case _ => true
  }

  ghost predicate Finished(s: State) {
    && s.finished <= 1
    && (s.record.Some? && s.finished == 1 && Untouched(s) ==> s.pin == s.site.toImage && !s.migration.Intent?)
    && (s.record.Some? ==> s.site.fromImage != s.site.toImage)
    && (s.record.Some? && Untouched(s) && s.pin == s.site.toImage ==>
          s.finished == 1 || (s.migration.Intent? && s.migration.progress.Pinned?))
  }

  ghost predicate Running(s: State) {
    MoveBegun(s) && s.running && Untouched(s) ==>
      if s.migration.Intent? then s.migration.progress.Replaced? || s.migration.progress.Pinned?
      else s.pin == s.site.toImage && s.record.value.phase.Migrating?
  }

  ghost predicate Records(s: State) {
    Marks(s) && Intents(s) && Finished(s) && Running(s)
  }

  ghost predicate ResumePlace(s: State) {
    && s.record.Some? && !TakenOver(s)
    && var record := s.record.value;
    match s.pc
    case SaveMoving => record.phase.Prepared? && !s.running
    case MoveTo => record.phase.Moving?
    case SaveMigrating => record.phase.Moving? && AtTarget(s)
    case CheckTree => record.phase.Migrating?
    case MarkRun => record.phase.Migrating? && AtTarget(s) && record.backup
    case SaveMarked => record.phase.Migrating? && AtTarget(s) && s.runMarked
    case Discard => record.phase.Migrating? && AtTarget(s) && (record.backup ==> s.runMarked)
    case Decide => record.phase.Migrating? && AtTarget(s) && (record.backup ==> s.runMarked) && !s.migration.Empty?
    case Change => record.phase.Migrating? && AtTarget(s) && (record.backup ==> s.runMarked) && s.finished == 0
                   && (!s.migration.Intent? ==> s.pin != s.site.toImage)
    case CheckMoved => record.phase.Migrating? && AtTarget(s) && (record.backup ==> s.runMarked)
    case ArchiveMove => record.phase.Migrating? && AtTarget(s) && (record.backup ==> s.runMarked) && AlreadyMoved(s, s.site.toImage)
    case RemoveMove => record.phase.Migrating? && AtTarget(s) && (record.backup ==> s.runMarked) && AlreadyMoved(s, s.site.toImage)
                       && s.archive == Some(Completed)
    case _ => false
  }

  ghost predicate TakeoverPlace(s: State) {
    && s.rebuild.Some? && (s.record.Some? ==> MoveBegun(s) && (s.pc.TakeMark? <==> s.record.value.taken.None?))
    && match s.pc
       case TakeMark(_) => s.record.Some?
       case SaveBack => s.record.Some?
       case MoveBack => s.record.Some?
       case CheckBack => s.record.Some?
       case TakeChange => !s.migration.Intent? && !s.waiting ==> s.volume != s.rebuild.value.volume
       case TakeMarkRun => s.record.Some? && s.migration.Absent? && s.record.value.backup
       case TakeArchive => s.record.Some? && s.migration.Absent? && (s.record.value.backup ==> s.runMarked)
       case TakeRemove => s.record.Some? && s.migration.Absent? && (s.record.value.backup ==> s.runMarked)
                          && s.archive == Some(Superseded)
       case _ => true
  }

  ghost predicate Inv(s: State) {
    && Records(s)
    && (InResume(s.pc) ==> ResumePlace(s))
    && (InTakeover(s.pc) ==> TakeoverPlace(s))
  }

  /** An installation with no move recorded and no migration waiting. */
  ghost predicate Quiet(s: State) {
    s.record.None? && s.migration.Absent? && !s.waiting && s.pc.Idle? && s.starts == [] && s.finished == 0
  }

  lemma QuietIsInvariant(s: State)
    requires Quiet(s)
    ensures Inv(s)
  {
  }

  lemma ChangeKeepsInv(s: State)
    requires Inv(s) && s.record.Some? && s.pc.Change? && ResumeStep(s).Some?
    ensures Inv(ResumeStep(s).value)
  {
    assert ResumePlace(s);
    var next := ResumeStep(s).value;
    match s.migration {
      case Absent => assert next == s.(migration := Empty);
      case Empty => assert next == s.(migration := Intent(LockImage(s), None, false, Progress.Begun));
      case Intent(_, _, _, _) => IntentKeepsInv(s);
    }
  }

  lemma IntentKeepsInv(s: State)
    requires Inv(s) && s.record.Some? && s.pc.Change? && ResumeStep(s).Some? && s.migration.Intent?
    ensures Inv(ResumeStep(s).value)
  {
    assert ResumePlace(s);
    assert Intents(s);
    var next := ResumeStep(s).value;
    match s.migration.progress {
      case Begun => assert next == s.(migration := s.migration.(progress := RetiredGone), running := false);
      case RetiredGone => assert next == s.(migration := s.migration.(progress := Replaced), running := true);
      case Replaced => assert next == s.(migration := s.migration.(progress := Pinned), pin := s.migration.image);
      case Pinned => assert next == s.(migration := Absent, finished := s.finished + 1, pc := CheckMoved);
      case Named =>
    }
  }

  lemma CheckoutKeepsInv(s: State)
    requires Inv(s) && s.record.Some? && (s.pc.SaveMoving? || s.pc.MoveTo? || s.pc.SaveMigrating? || s.pc.CheckTree?) && ResumeStep(s).Some?
    ensures Inv(ResumeStep(s).value)
  {
    assert ResumePlace(s);
    var next := ResumeStep(s).value;
    match s.pc {
      case MoveTo => RecordsStay(s, To, false, s.archive, SaveMigrating);
      case CheckTree => RecordsStay(s, s.head, s.dirty, s.archive, next.pc);
      case SaveMoving => assert next == s.(record := Some(s.record.value.(phase := Moving)), pc := MoveTo);
      case SaveMigrating => assert next == s.(record := Some(s.record.value.(phase := Migrating)), pc := CheckTree);
      case _ =>
    }
  }

  lemma MarkKeepsInv(s: State)
    requires Inv(s) && s.record.Some? && (s.pc.MarkRun? || s.pc.SaveMarked? || s.pc.Discard? || s.pc.Decide?) && ResumeStep(s).Some?
    ensures Inv(ResumeStep(s).value)
  {
    assert ResumePlace(s);
    match s.pc {
      case MarkRun => assert ResumeStep(s).value == s.(runMarked := true, pc := SaveMarked);
      case SaveMarked => assert ResumeStep(s).value == s.(record := Some(s.record.value.(marked := true)), pc := Discard);
      case Discard =>
      case Decide => assert LockImage(s) == s.site.toImage;
      case _ =>
    }
  }

  lemma EndKeepsInv(s: State)
    requires Inv(s) && s.record.Some? && (s.pc.CheckMoved? || s.pc.ArchiveMove? || s.pc.RemoveMove?) && ResumeStep(s).Some?
    ensures Inv(ResumeStep(s).value)
  {
  }

  lemma SupersedeKeepsInv(s: State)
    requires Inv(s) && s.rebuild.Some? && s.pc.TakeChange? && TakeoverStep(s, s.rebuild.value).Some?
    requires s.migration.Intent? && TargetVolume(s) != s.rebuild.value.volume
    ensures Inv(TakeoverStep(s, s.rebuild.value).value)
  {
  }

  lemma TakeLockIntentKeepsInv(s: State)
    requires Inv(s) && s.rebuild.Some? && s.pc.TakeChange? && LockIntent(s) && s.volume == s.rebuild.value.volume
    ensures Inv(TakeoverStep(s, s.rebuild.value).value)
  {
    var next := TakeoverStep(s, s.rebuild.value).value;
    assert TakeoverPlace(s);
    match s.migration.progress {
      case Begun => assert next == s.(migration := s.migration.(progress := RetiredGone), running := false);
      case RetiredGone => assert next == s.(migration := s.migration.(progress := Replaced), running := true);
      case Replaced => assert next == s.(migration := s.migration.(progress := Pinned), pin := s.migration.image);
      case Pinned => assert next == s.(migration := Absent, finished := s.finished + 1, pc := TakeCheck);
      case Named =>
    }
  }

  lemma TakeIntentKeepsInv(s: State)
    requires Inv(s) && s.rebuild.Some? && s.pc.TakeChange? && s.migration.Intent? && s.migration.newVolume.Some?
    requires !s.migration.progress.Pinned? && !s.migration.progress.Named?
    ensures Inv(TakeoverStep(s, s.rebuild.value).value)
  {
    var next := TakeoverStep(s, s.rebuild.value).value;
    match s.migration.progress {
      case Begun => assert next == s.(migration := s.migration.(progress := RetiredGone), running := false);
      case RetiredGone => assert next == s.(migration := s.migration.(progress := Replaced), running := true);
      case Replaced => assert next == s.(migration := s.migration.(progress := Pinned), pin := s.migration.image);
      case _ =>
    }
  }

  lemma TakeNamedKeepsInv(s: State)
    requires Inv(s) && s.rebuild.Some? && s.pc.TakeChange? && s.migration.Intent? && s.migration.newVolume.Some?
    requires s.migration.progress.Pinned? || s.migration.progress.Named?
    ensures Inv(TakeoverStep(s, s.rebuild.value).value)
  {
  }

  lemma TakePublishKeepsInv(s: State)
    requires Inv(s) && s.rebuild.Some? && s.pc.TakeChange? && TakeoverStep(s, s.rebuild.value).Some? && !s.migration.Intent?
    ensures Inv(TakeoverStep(s, s.rebuild.value).value)
  {
    var r := s.rebuild.value;
    assert TakeoverPlace(s);
    if s.migration.Absent? {
      assert TakeoverStep(s, r).value == s.(migration := Empty);
    } else {
      assert TakeoverStep(s, r).value == s.(migration := Intent(r.image, Some(r.volume), s.waiting, Progress.Begun));
    }
  }

  lemma TakeMarkKeepsInv(s: State)
    requires Inv(s) && s.rebuild.Some? && (s.pc.TakeMark? || s.pc.SaveBack?) && TakeoverStep(s, s.rebuild.value).Some?
    ensures Inv(TakeoverStep(s, s.rebuild.value).value)
  {
  }

  /** The records say nothing about the checkout, the archive or the command that runs. */
  lemma RecordsStay(s: State, head: Version, dirty: bool, archive: Option<Outcome>, pc: Pc)
    requires Records(s)
    ensures Records(s.(head := head, dirty := dirty, archive := archive, pc := pc))
  {
  }

  lemma TakeBackKeepsInv(s: State)
    requires Inv(s) && s.rebuild.Some? && (s.pc.MoveBack? || s.pc.CheckBack?) && TakeoverStep(s, s.rebuild.value).Some?
    ensures Inv(TakeoverStep(s, s.rebuild.value).value)
  {
    if s.pc.MoveBack? {
      MoveBackKeepsInv(s);
    } else {
      CheckBackKeepsInv(s);
    }
  }

  lemma MoveBackKeepsInv(s: State)
    requires Inv(s) && s.rebuild.Some? && s.pc.MoveBack? && TakeoverStep(s, s.rebuild.value).Some?
    ensures Inv(TakeoverStep(s, s.rebuild.value).value)
  {
    RecordsStay(s, From, false, s.archive, CheckBack);
    assert TakeoverStep(s, s.rebuild.value).value == s.(head := From, dirty := false, archive := s.archive, pc := CheckBack);
  }

  lemma CheckBackKeepsInv(s: State)
    requires Inv(s) && s.rebuild.Some? && s.pc.CheckBack? && TakeoverStep(s, s.rebuild.value).Some?
    ensures Inv(TakeoverStep(s, s.rebuild.value).value)
  {
    assert TakeoverPlace(s);
    if LockImage(s) != s.rebuild.value.image {
      RecordsStay(s, s.head, s.dirty, s.archive, Idle);
      assert TakeoverStep(s, s.rebuild.value).value == s.(head := s.head, dirty := s.dirty, archive := s.archive, pc := Idle);
    } else {
      TakenFurther(s, BackMoved);
      var taken := s.(record := Some(s.record.value.(taken := Some(BackMoved))));
      RecordsStay(taken, s.head, s.dirty, s.archive, TakeDecide);
      assert TakeoverStep(s, s.rebuild.value).value == taken.(head := s.head, dirty := s.dirty, archive := s.archive, pc := TakeDecide);
    }
  }

  /** How far a takeover's move back went makes no difference to what the records say of each other. */
  lemma TakenFurther(s: State, back: Back)
    requires Records(s) && s.record.Some? && s.record.value.taken.Some?
    ensures Records(s.(record := Some(s.record.value.(taken := Some(back)))))
  {
  }

  lemma TakeEndKeepsInv(s: State)
    requires Inv(s) && s.rebuild.Some? && (s.pc.TreeIsClean? || s.pc.TakeDecide? || s.pc.TakeCheck?) && TakeoverStep(s, s.rebuild.value).Some?
    ensures Inv(TakeoverStep(s, s.rebuild.value).value)
  {
    var next := TakeoverStep(s, s.rebuild.value).value;
    assert TakeoverPlace(s);
    assert next == s.(head := s.head, dirty := s.dirty, archive := s.archive, pc := next.pc);
    RecordsStay(s, s.head, s.dirty, s.archive, next.pc);
    if s.pc.TakeCheck? { assert TakeoverPlace(next) || next.pc.Idle?; }
  }

  lemma RetireKeepsInv(s: State)
    requires Inv(s) && s.rebuild.Some? && (s.pc.TakeMarkRun? || s.pc.TakeArchive? || s.pc.TakeRemove?) && TakeoverStep(s, s.rebuild.value).Some?
    ensures Inv(TakeoverStep(s, s.rebuild.value).value)
  {
  }

  lemma OperatorKeepsInv(s: State, a: Action)
    requires Inv(s) && s.pc.Idle? && Step(s, a).Some? && !a.Resume? && !a.Takeover?
    ensures Inv(Step(s, a).value)
  {
  }

  lemma ResumeBeginsInv(s: State)
    requires Inv(s) && s.pc.Idle? && Step(s, Resume).Some?
    ensures Inv(Step(s, Resume).value)
  {
  }

  lemma TakeoverBeginsInv(s: State)
    requires Inv(s) && s.pc.Idle? && Step(s, Takeover).Some?
    ensures Inv(Step(s, Takeover).value)
  {
    TakeoverStartsInv(s);
  }

  lemma TakeoverStartsInv(s: State)
    requires Records(s) && TakeoverAdmitted(s)
    ensures Inv(TakeoverStart(s))
  {
    var next := TakeoverStart(s);
    assert next == s.(migration := if s.migration.Empty? then Absent else s.migration, pc := next.pc);
    assert Records(next);
  }

  lemma ResumeGoKeepsInv(s: State)
    requires Inv(s) && InResume(s.pc) && Step(s, Go).Some?
    ensures Inv(Step(s, Go).value)
  {
    match s.pc {
      case Change => ChangeKeepsInv(s);
      case SaveMoving => CheckoutKeepsInv(s);
      case MoveTo => CheckoutKeepsInv(s);
      case SaveMigrating => CheckoutKeepsInv(s);
      case CheckTree => CheckoutKeepsInv(s);
      case CheckMoved => EndKeepsInv(s);
      case ArchiveMove => EndKeepsInv(s);
      case RemoveMove => EndKeepsInv(s);
      case _ => MarkKeepsInv(s);
    }
  }

  lemma TakeoverGoKeepsInv(s: State)
    requires Inv(s) && InTakeover(s.pc) && Step(s, Go).Some?
    ensures Inv(Step(s, Go).value)
  {
    match s.pc {
      case TakeChange =>
        if !s.migration.Intent? { TakePublishKeepsInv(s); }
        else if TargetVolume(s) != s.rebuild.value.volume { SupersedeKeepsInv(s); }
        else if s.migration.newVolume.None? { TakeLockIntentKeepsInv(s); }
        else if s.migration.progress.Pinned? || s.migration.progress.Named? { TakeNamedKeepsInv(s); }
        else { TakeIntentKeepsInv(s); }
      case TakeMark(_) => TakeMarkKeepsInv(s);
      case SaveBack => TakeMarkKeepsInv(s);
      case MoveBack => TakeBackKeepsInv(s);
      case CheckBack => TakeBackKeepsInv(s);
      case TakeMarkRun => RetireKeepsInv(s);
      case TakeArchive => RetireKeepsInv(s);
      case TakeRemove => RetireKeepsInv(s);
      case _ => TakeEndKeepsInv(s);
    }
  }

  /** A kill, a refusal, or a checkout left half written. */
  lemma InterruptKeepsInv(s: State, a: Action)
    requires Inv(s) && !s.pc.Idle? && (a.Stop? || a.Disturb?) && Step(s, a).Some?
    ensures Inv(Step(s, a).value)
  {
  }

  lemma StepKeepsInv(s: State, a: Action)
    requires Inv(s) && Step(s, a).Some?
    ensures Inv(Step(s, a).value)
  {
    if s.pc.Idle? {
      if a.Resume? { ResumeBeginsInv(s); }
      else if a.Takeover? { TakeoverBeginsInv(s); }
      else { OperatorKeepsInv(s, a); }
    } else if a.Go? {
      if InResume(s.pc) { ResumeGoKeepsInv(s); } else { TakeoverGoKeepsInv(s); }
    } else {
      InterruptKeepsInv(s, a);
    }
  }

  lemma {:induction false} RunKeepsInv(s: State, actions: seq<Action>)
    requires Inv(s) && Run(s, actions).Some?
    ensures Inv(Run(s, actions).value)
    decreases |actions|
  {
    if actions != [] {
      StepKeepsInv(s, actions[0]);
      RunKeepsInv(Step(s, actions[0]).value, actions[1..]);
    }
  }

  // ------------------------------------------------------------ safety over every run

  /** However often the move's commands are killed and rerun, and whatever takeovers and operators do in
      between: each start of the database change found a clean checkout of the target, and the change finished
      at most once. */
  lemma ChangeStartsRightAndFinishesOnce(s: State, actions: seq<Action>)
    requires Quiet(s) && Run(s, actions).Some?
    ensures var end := Run(s, actions).value; StartedRight(end.starts) && end.finished <= 1
  {
    QuietIsInvariant(s);
    RunKeepsInv(s, actions);
  }

  // ------------------------------------------------------------ the backups are kept from pruning

  /** What the last preparation of a run asked for, if there was one. */
  function Asked(actions: seq<Action>, before: Option<bool>): Option<bool>
    decreases |actions|
  {
    if actions == [] then before
    else Asked(actions[1..], if actions[0].PrepareMove? then Some(actions[0].backup) else before)
  }

  /** A move that was asked to back up has its run marked before the change starts and before it is archived; one that
      was not marks none. */
  ghost predicate BackupsKept(s: State, asked: Option<bool>) {
    && (s.record.Some? ==> asked == Some(s.record.value.backup))
    && (s.record.Some? && s.record.value.phase.Prepared? ==> s.archive.None?)
    && (asked == Some(true) ==> forall i :: 0 <= i < |s.starts| ==> s.starts[i].runMarked)
    && (asked == Some(true) && s.record.None? && s.archive.Some? ==> s.runMarked)
    && (asked == Some(false) ==> !s.runMarked)
    && (asked.Some? && s.record.None? && s.archive == Some(Completed) ==> s.finished == 1)
  }

  lemma IdleKeepsBackups(s: State, a: Action, asked: Option<bool>)
    requires Inv(s) && BackupsKept(s, asked) && s.pc.Idle? && IdleStep(s, a).Some?
    ensures BackupsKept(IdleStep(s, a).value, if a.PrepareMove? then Some(a.backup) else asked)
  {
    match a {
      case Takeover =>
        var next := TakeoverStart(s);
        assert next == s.(migration := if s.migration.Empty? then Absent else s.migration, pc := next.pc);
      case _ =>
    }
  }

  lemma ResumeKeepsBackups(s: State, asked: Option<bool>)
    requires Inv(s) && BackupsKept(s, asked) && InResume(s.pc) && s.record.Some? && ResumeStep(s).Some?
    ensures BackupsKept(ResumeStep(s).value, asked)
  {
    assert ResumePlace(s);
    var next := ResumeStep(s).value;
    match s.pc {
      case Decide =>
        assert asked == Some(true) ==> s.runMarked;
        assert next.starts == s.starts || next.starts == s.starts + [Start(s.head, s.dirty, s.runMarked)];
      case Change => MigrationLeaves(s, LockImage(s), None, false, CheckMoved);
      case RemoveMove => assert Finished(s) && next == s.(record := None, pc := Idle);
      case MarkRun => assert next == s.(runMarked := true, pc := SaveMarked);
      case _ =>
    }
  }

  lemma MigrationLeaves(s: State, image: Image, volume: Option<Volume>, supersedes: bool, pc: Pc)
    ensures var next := MigrationStep(s, image, volume, supersedes, pc);
            Leaves(s, next) && (next.finished != s.finished ==> s.migration.Intent? && s.migration.newVolume.None?)
  {
    if s.migration.Intent? {
      IntentLeaves(s, image, volume, supersedes, pc);
    } else if s.migration.Absent? {
      assert MigrationStep(s, image, volume, supersedes, pc) == s.(migration := Empty);
    }
  }

  lemma IntentLeaves(s: State, image: Image, volume: Option<Volume>, supersedes: bool, pc: Pc)
    requires s.migration.Intent?
    ensures var next := MigrationStep(s, image, volume, supersedes, pc);
            Leaves(s, next) && (next.finished != s.finished ==> s.migration.newVolume.None?)
  {
    var next := MigrationStep(s, image, volume, supersedes, pc);
    match s.migration.progress {
      case Begun => assert next == s.(migration := s.migration.(progress := RetiredGone), running := false);
      case RetiredGone => assert next == s.(migration := s.migration.(progress := Replaced), running := true);
      case Replaced => assert next == s.(migration := s.migration.(progress := Pinned), pin := s.migration.image);
      case _ => PinnedLeaves(s, image, volume, supersedes, pc);
    }
  }

  lemma PinnedLeaves(s: State, image: Image, volume: Option<Volume>, supersedes: bool, pc: Pc)
    requires s.migration.Intent? && (s.migration.progress.Pinned? || s.migration.progress.Named?)
    ensures var next := MigrationStep(s, image, volume, supersedes, pc);
            Leaves(s, next) && (next.finished != s.finished ==> s.migration.newVolume.None?)
  {
    var next := MigrationStep(s, image, volume, supersedes, pc);
    if s.migration.progress.Named? {
      assert next == s.(migration := Absent, waiting := false, pc := pc);
    } else if s.migration.newVolume.None? {
      assert next == s.(migration := Absent, finished := s.finished + 1, pc := pc);
    } else {
      assert next == s.(migration := s.migration.(progress := Named), volume := s.migration.newVolume.value);
    }
  }

  /** The record, its archive and what was done for it are as they were. */
  ghost predicate Leaves(s: State, next: State) {
    next.record == s.record && next.archive == s.archive && next.starts == s.starts && next.runMarked == s.runMarked
  }

  lemma TakeChangeLeaves(s: State, r: Rebuild)
    ensures var next := TakeChangeStep(s, r);
            Leaves(s, next) && (next.finished != s.finished ==> s.migration.Intent? && s.migration.newVolume.None?)
  {
    if !(s.migration.Intent? && TargetVolume(s) != r.volume) {
      MigrationLeaves(s, r.image, Some(r.volume), s.waiting, TakeCheck);
    }
  }

  lemma TakeoverKeepsBackups(s: State, r: Rebuild, asked: Option<bool>)
    requires Inv(s) && BackupsKept(s, asked) && InTakeover(s.pc) && TakeoverStep(s, r).Some?
    ensures BackupsKept(TakeoverStep(s, r).value, asked)
  {
    if s.pc.TakeChange? {
      TakeChangeLeaves(s, r);
      assert Intents(s);
    } else if s.pc.TakeMark? || s.pc.SaveBack? || s.pc.MoveBack? || s.pc.CheckBack? {
      BackKeepsBackups(s, r, asked);
    } else {
      EndKeepsBackups(s, r, asked);
    }
  }

  lemma EndKeepsBackups(s: State, r: Rebuild, asked: Option<bool>)
    requires Inv(s) && BackupsKept(s, asked) && InTakeover(s.pc) && TakeoverStep(s, r).Some?
    requires !s.pc.TakeChange? && !s.pc.TakeMark? && !s.pc.SaveBack? && !s.pc.MoveBack? && !s.pc.CheckBack?
    ensures BackupsKept(TakeoverStep(s, r).value, asked)
  {
    assert TakeoverPlace(s);
    var next := TakeoverStep(s, r).value;
    match s.pc {
      case TakeMarkRun => assert next == s.(runMarked := true, pc := TakeArchive);
      case TakeArchive => assert next == s.(archive := Some(Superseded), pc := TakeRemove);
      case TakeRemove => assert next == s.(record := None, pc := Idle);
      case TreeIsClean => assert next == s.(pc := next.pc);
      case TakeDecide => assert next == s.(pc := next.pc);
      case TakeCheck => assert next == s.(pc := next.pc);
      case _ =>
    }
  }

  lemma BackKeepsBackups(s: State, r: Rebuild, asked: Option<bool>)
    requires Inv(s) && BackupsKept(s, asked) && TakeoverStep(s, r).Some?
    requires s.pc.TakeMark? || s.pc.SaveBack? || s.pc.MoveBack? || s.pc.CheckBack?
    ensures BackupsKept(TakeoverStep(s, r).value, asked)
  {
    var next := TakeoverStep(s, r).value;
    match s.pc {
      case TakeMark(back) => assert next == Took(s, NotBegun, if back then SaveBack else TreeIsClean);
      case SaveBack => assert next == Took(s, BackMoving, MoveBack);
      case CheckBack => assert next == s.(pc := Idle) || next == Took(s, BackMoved, TakeDecide);
      case MoveBack => assert next == s.(head := From, dirty := false, pc := CheckBack);
      case _ =>
    }
  }

  lemma StepKeepsBackups(s: State, a: Action, asked: Option<bool>)
    requires Inv(s) && BackupsKept(s, asked) && Step(s, a).Some?
    ensures BackupsKept(Step(s, a).value, if a.PrepareMove? then Some(a.backup) else asked)
  {
    if s.pc.Idle? { IdleKeepsBackups(s, a, asked); }
    else if !a.Go? {
      var next := Step(s, a).value;
      assert Leaves(s, next) && next.finished == s.finished;
    } else if InResume(s.pc) { ResumeKeepsBackups(s, asked); }
    else { TakeoverKeepsBackups(s, s.rebuild.value, asked); }
  }

  lemma {:induction false} RunKeepsBackups(s: State, actions: seq<Action>, asked: Option<bool>)
    requires Inv(s) && BackupsKept(s, asked) && Run(s, actions).Some?
    ensures BackupsKept(Run(s, actions).value, Asked(actions, asked))
    decreases |actions|
  {
    if actions != [] {
      StepKeepsInv(s, actions[0]);
      StepKeepsBackups(s, actions[0], asked);
      RunKeepsBackups(Step(s, actions[0]).value, actions[1..], if actions[0].PrepareMove? then Some(actions[0].backup) else asked);
    }
  }

  /** Over every run, with kills, takeovers and operators: when the last move was prepared to back up, each start of its
      change found the backup run marked, and so is it once the move was archived, completed or superseded; when it was
      prepared not to, nothing is marked. A move archived as completed finished its change exactly once. */
  lemma PreparedBackupsAreKept(s: State, actions: seq<Action>)
    requires Quiet(s) && Run(s, actions).Some?
    ensures var end := Run(s, actions).value;
            && (Asked(actions, None) == Some(true) ==> forall i :: 0 <= i < |end.starts| ==> end.starts[i].runMarked)
            && (Asked(actions, None) == Some(true) && end.record.None? && end.archive.Some? ==> end.runMarked)
            && (Asked(actions, None) == Some(false) ==> !end.runMarked)
            && (Asked(actions, None).Some? && end.record.None? && end.archive == Some(Completed) ==> end.finished == 1)
  {
    QuietIsInvariant(s);
    RunKeepsBackups(s, actions, None);
  }

  ghost predicate WithoutNewMove(actions: seq<Action>) {
    forall i :: 0 <= i < |actions| ==> !actions[i].PrepareMove?
  }

  /** A move past `prepared` is never dropped: it stays recorded, with every start of Sbarbase refused, until
      it is archived as completed or superseded. */
  lemma {:induction false} BegunMoveIsNeverDropped(s: State, actions: seq<Action>)
    requires Inv(s) && BegunOrArchived(s)
    requires WithoutNewMove(actions) && Run(s, actions).Some?
    ensures var end := Run(s, actions).value;
            (MoveBegun(end) && Step(end, StartSbarbase).None?) || (end.record.None? && end.archive.Some?)
    decreases |actions|
  {
    if actions != [] {
      StepKeepsInv(s, actions[0]);
      BegunStep(s, actions[0]);
      BegunMoveIsNeverDropped(Step(s, actions[0]).value, actions[1..]);
    }
  }

  /** A move is prepared only where the way back is known: at its from version, clean, on that version's image, with nothing
      waiting; and that changes nothing but what is recorded of moves. */
  lemma PreparedExactlyAtRest(s: State, backup: bool)
    requires s.pc.Idle?
    ensures Step(s, PrepareMove(backup)).Some? <==>
            && s.record.None? && s.migration == Absent && !s.waiting && s.head == From && !s.dirty
            && s.pin == s.site.fromImage && s.site.fromImage != s.site.toImage
    ensures Step(s, PrepareMove(backup)).Some? ==>
              var t := Step(s, PrepareMove(backup)).value;
              && t.head == s.head && t.dirty == s.dirty && t.migration == s.migration && t.pin == s.pin && t.volume == s.volume
              && t.running == s.running && t.record == Some(Move(Prepared, backup, false, None))
  {
  }

  /** A move that is only prepared can be dropped, and Sbarbase then starts as before. */
  lemma PreparedMoveCanBeDropped(s: State)
    requires Inv(s) && s.pc.Idle? && s.record.Some? && s.record.value.phase.Prepared? && s.migration.Absent?
    ensures var dropped := Step(s, Abandon);
            dropped == Some(s.(record := None)) && Step(dropped.value, StartSbarbase) == Some(s.(record := None, running := true))
  {
  }

  ghost predicate BegunOrArchived(s: State) {
    MoveBegun(s) || (s.record.None? && s.archive.Some?)
  }

  lemma BegunByResume(s: State)
    requires Inv(s) && InResume(s.pc) && s.record.Some? && MoveBegun(s) && ResumeStep(s).Some?
    ensures BegunOrArchived(ResumeStep(s).value)
  {
    assert ResumePlace(s);
    match s.pc {
      case RemoveMove => assert ResumeStep(s).value == s.(record := None, pc := Idle);
      case Change => assert ResumeStep(s).value.record == s.record;
      case MarkRun => assert ResumeStep(s).value.record == s.record;
      case Decide => assert ResumeStep(s).value.record == s.record;
      case _ =>
    }
  }

  lemma BegunAtMark(s: State, r: Rebuild)
    requires BegunOrArchived(s) && TakeoverStep(s, r).Some?
    requires s.pc.TakeMark? || s.pc.SaveBack? || s.pc.MoveBack? || s.pc.CheckBack?
    ensures BegunOrArchived(TakeoverStep(s, r).value)
  {
  }

  lemma ChangeLeavesTheRecord(s: State, r: Rebuild)
    ensures TakeChangeStep(s, r).record == s.record && TakeChangeStep(s, r).archive == s.archive
  {
  }

  lemma BegunByTakeover(s: State, r: Rebuild)
    requires Inv(s) && InTakeover(s.pc) && BegunOrArchived(s) && TakeoverStep(s, r).Some?
    ensures BegunOrArchived(TakeoverStep(s, r).value)
  {
    var next := TakeoverStep(s, r).value;
    match s.pc {
      case TakeMark(_) => BegunAtMark(s, r);
      case SaveBack => BegunAtMark(s, r);
      case MoveBack => BegunAtMark(s, r);
      case CheckBack => BegunAtMark(s, r);
      case TakeArchive => assert next == s.(archive := Some(Superseded), pc := TakeRemove);
      case TakeChange => ChangeLeavesTheRecord(s, r);
      case TakeRemove =>
        assert TakeoverPlace(s);
        assert next == s.(record := None, pc := Idle);
      case TreeIsClean => assert next.record == s.record && next.archive == s.archive;
      case TakeDecide => assert next.record == s.record && next.archive == s.archive;
      case TakeCheck => assert next.record == s.record && next.archive == s.archive;
      case TakeMarkRun => assert next.record == s.record && next.archive == s.archive;
      case _ =>
    }
  }

  lemma BegunWhileIdle(s: State, a: Action)
    requires s.pc.Idle? && BegunOrArchived(s) && !a.PrepareMove? && Step(s, a).Some?
    ensures BegunOrArchived(Step(s, a).value)
  {
    match a {
      case Takeover => assert Step(s, a).value.record == s.record && Step(s, a).value.archive == s.archive;
      case _ =>
    }
  }

  lemma BegunStep(s: State, a: Action)
    requires Inv(s) && BegunOrArchived(s) && !a.PrepareMove? && Step(s, a).Some?
    ensures BegunOrArchived(Step(s, a).value)
  {
    if s.pc.Idle? { BegunWhileIdle(s, a); }
    else if !a.Go? {
      assert Step(s, a).value.record == s.record && Step(s, a).value.archive == s.archive;
    } else if InResume(s.pc) { BegunByResume(s); }
    else { BegunByTakeover(s, s.rebuild.value); }
  }

  ghost predicate Repeats(s: State, next: State) {
    next.starts != s.starts || next.finished != s.finished
  }

  lemma FinishedWhileIdle(s: State, a: Action)
    requires s.pc.Idle? && !a.PrepareMove? && Step(s, a).Some?
    ensures !Repeats(s, Step(s, a).value)
  {
    match a {
      case Takeover => assert TakeoverStart(s).starts == s.starts && TakeoverStart(s).finished == s.finished;
      case _ =>
    }
  }

  /** The decision finds the pin moved, and the change itself is never reached. */
  lemma FinishedByResume(s: State)
    requires Inv(s) && s.finished == 1 && InResume(s.pc) && s.record.Some? && ResumeStep(s).Some?
    ensures !Repeats(s, ResumeStep(s).value)
  {
    assert ResumePlace(s);
    match s.pc {
      case MarkRun => assert ResumeStep(s).value == s.(runMarked := true, pc := SaveMarked);
      case Decide => assert ResumeStep(s).value == s.(pc := ArchiveMove);
      case _ =>
    }
  }

  /** Only a migration onto the lock's image counts, and none of those is recorded any more. */
  lemma FinishedByTakeover(s: State, r: Rebuild)
    requires Inv(s) && s.finished == 1 && InTakeover(s.pc) && TakeoverStep(s, r).Some?
    ensures !Repeats(s, TakeoverStep(s, r).value)
  {
    assert Intents(s);
    var next := TakeoverStep(s, r).value;
    match s.pc {
      case TakeChange => FinishedByTakeChange(s, r);
      case TakeMark(back) => assert next == Took(s, NotBegun, if back then SaveBack else TreeIsClean);
      case SaveBack => assert next == Took(s, BackMoving, MoveBack);
      case CheckBack => assert next == s.(pc := Idle) || next == Took(s, BackMoved, TakeDecide);
      case TakeMarkRun => assert next == s.(runMarked := true, pc := TakeArchive);
      case TakeArchive => assert next == s.(archive := Some(Superseded), pc := TakeRemove);
      case TakeRemove => assert next == s.(record := None, pc := Idle);
      case MoveBack => assert next == s.(head := From, dirty := false, pc := CheckBack);
      case TreeIsClean => assert next == s.(pc := next.pc);
      case TakeDecide => assert next == s.(pc := next.pc);
      case TakeCheck => assert next == s.(pc := next.pc);
      case _ =>
    }
  }

  lemma FinishedByTakeChange(s: State, r: Rebuild)
    requires Intents(s) && s.finished == 1
    ensures !Repeats(s, TakeChangeStep(s, r))
  {
  }

  lemma FinishedStep(s: State, a: Action)
    requires Inv(s) && s.finished == 1 && !a.PrepareMove? && Step(s, a).Some?
    ensures !Repeats(s, Step(s, a).value)
  {
    if s.pc.Idle? { FinishedWhileIdle(s, a); }
    else if !a.Go? { assert Step(s, a).value.starts == s.starts && Step(s, a).value.finished == s.finished; }
    else if InResume(s.pc) { FinishedByResume(s); }
    else { FinishedByTakeover(s, s.rebuild.value); }
  }

  /** A finished change is not started again, nor finished twice, by any later run of the move's own commands, of
      takeovers that are released or killed, and of what the operator does in between. */
  lemma {:induction false} FinishedChangeIsNotRepeated(s: State, actions: seq<Action>)
    requires Inv(s) && s.finished == 1 && WithoutNewMove(actions) && Run(s, actions).Some?
    ensures Run(s, actions).value.starts == s.starts && Run(s, actions).value.finished == 1
    decreases |actions|
  {
    if actions != [] {
      StepKeepsInv(s, actions[0]);
      FinishedStep(s, actions[0]);
      FinishedChangeIsNotRepeated(Step(s, actions[0]).value, actions[1..]);
    }
  }

  // ------------------------------------------------------------ every crash state can be finished

  ghost predicate MoveDone(s: State) {
    && s.pc.Idle? && s.record.None? && s.archive == Some(Completed) && AlreadyMoved(s, s.site.toImage) && AtTarget(s)
    && Step(s, StartSbarbase).Some?
  }

  /** Running `--continue` undisturbed ends with the move completed. */
  ghost predicate ContinueCompletes(s: State) {
    Step(s, Resume).Some? && exists n: nat :: MoveDone(Drive(Step(s, Resume).value, n))
  }

  /** What the operator can check before running it: Sbarbase's database is down while the move is only
      prepared, and once the checkout has moved it is clean at the target. */
  ghost predicate ContinueReady(s: State) {
    && s.record.Some? && !TakenOver(s)
    && (s.record.value.phase.Prepared? ==> !s.running)
    && (s.record.value.phase.Migrating? ==> AtTarget(s))
  }

  function ChangeRank(s: State): nat {
    match s.migration
    case Absent => 8
    case Empty => 7
    case Intent(_, _, _, progress) =>
      match progress case Begun => 6 case RetiredGone => 5 case Replaced => 4 case Pinned => 3 case Named => 2
  }

  function ResumeRank(s: State): nat {
    match s.pc
    case SaveMoving => 30 case MoveTo => 29 case SaveMigrating => 28 case CheckTree => 27
    case MarkRun => 26 case SaveMarked => 25 case Discard => 24 case Decide => 23
    case Change => 10 + ChangeRank(s)
    case CheckMoved => 3 case ArchiveMove => 2 case RemoveMove => 1
    case _ => 0
  }

  ghost predicate OnCourse(s: State) {
    && Inv(s) && InResume(s.pc)
    && (s.pc.CheckTree? ==> AtTarget(s))
    && (s.pc.CheckMoved? ==> AlreadyMoved(s, s.site.toImage))
  }

  lemma CourseStep(s: State)
    requires OnCourse(s)
    ensures Step(s, Go).Some?
    ensures s.pc.RemoveMove? ==> MoveDone(Step(s, Go).value)
    ensures !s.pc.RemoveMove? ==> OnCourse(Step(s, Go).value) && ResumeRank(Step(s, Go).value) < ResumeRank(s)
  {
    assert ResumePlace(s);
    assert ResumeStep(s).Some?;
    ResumeGoKeepsInv(s);
    if !s.pc.RemoveMove? {
      CourseContinues(s);
    }
  }

  ghost predicate Onwards(s: State, next: State) {
    && InResume(next.pc) && ResumeRank(next) < ResumeRank(s)
    && (next.pc.CheckTree? ==> AtTarget(next)) && (next.pc.CheckMoved? ==> AlreadyMoved(next, next.site.toImage))
  }

  lemma ChangeContinues(s: State)
    requires OnCourse(s) && s.pc.Change? && s.record.Some?
    ensures Onwards(s, ResumeStep(s).value)
  {
    assert ResumePlace(s);
    assert Intents(s);
  }

  lemma CourseContinues(s: State)
    requires OnCourse(s) && !s.pc.RemoveMove? && s.record.Some? && ResumeStep(s).Some?
    ensures Onwards(s, ResumeStep(s).value)
  {
    assert ResumePlace(s);
    match s.pc {
      case Change => ChangeContinues(s);
      case CheckTree => assert ResumeStep(s).value.pc == MarkRun || ResumeStep(s).value.pc == Discard;
      case MarkRun => assert ResumeStep(s).value.pc == SaveMarked;
      case Decide => assert ResumeStep(s).value.pc == ArchiveMove || ResumeStep(s).value.pc == Change;
      case CheckMoved => assert ResumeStep(s).value.pc == ArchiveMove;
      case _ =>
    }
  }

  lemma {:induction false} CourseCompletes(s: State) returns (n: nat)
    requires OnCourse(s)
    ensures MoveDone(Drive(s, n))
    decreases ResumeRank(s)
  {
    CourseStep(s);
    var next := Step(s, Go).value;
    if s.pc.RemoveMove? {
      assert Drive(next, 0) == next;
      n := 1;
    } else {
      var m := CourseCompletes(next);
      n := m + 1;
    }
  }

  lemma {:induction false} DirtyCheckoutStaysRefused(s: State, n: nat)
    requires s.record.Some? && ((s.pc.CheckTree? && !AtTarget(s)) || s.pc.Idle?)
    ensures Drive(s, n).record.Some?
    decreases n
  {
    if n > 0 && s.pc.CheckTree? {
      DirtyCheckoutStaysRefused(Step(s, Go).value, n - 1);
    }
  }

  lemma ReadyIsAdmitted(s: State)
    requires Inv(s) && s.pc.Idle? && ContinueReady(s)
    ensures Step(s, Resume).Some? && OnCourse(Step(s, Resume).value)
  {
    ResumeBeginsInv(s);
  }

  /** From every state any run of kills can leave, running the move again completes it exactly when the
      operator's own conditions hold. */
  lemma ContinueCompletesExactlyWhenReady(s: State)
    requires Inv(s) && s.pc.Idle? && s.record.Some? && !TakenOver(s)
    ensures ContinueCompletes(s) <==> ContinueReady(s)
  {
    if ContinueReady(s) {
      ReadyIsAdmitted(s);
      var n := CourseCompletes(Step(s, Resume).value);
    } else if Step(s, Resume).Some? {
      var t := Step(s, Resume).value;
      forall n: nat ensures !MoveDone(Drive(t, n)) {
        DirtyCheckoutStaysRefused(t, n);
      }
    }
  }

  /** A kill during the move leaves it ready to be run again, except a checkout the operator changes. */
  lemma KillLeavesTheMoveReady(s: State)
    requires OnCourse(s)
    ensures var t := Step(s, Stop).value; Inv(t) && t.pc.Idle? && ContinueReady(t)
  {
    InterruptKeepsInv(s, Stop);
  }
}
