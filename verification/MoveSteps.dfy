/** lab/database_move.py and lab/cluster_takeover.py: the attended move to another PostgreSQL image and the
    takeover of a rebuilt cluster, over the durable records they share. Every effect is one step, and a
    command may be killed between any two of them. The generation migration (lab/hba_migration.py) is the
    sequence of durable states its callers test for; a command that holds the upgrade lock is the only one
    that runs. */
module MoveSteps {
  import opened Prelude

  type Image = nat
  type Volume = nat

  /** The move's two commits, or any other. */
  datatype Version = From | To | Elsewhere

  /** What never changes: the images the locks of each version name, and whether the from version can
      finish a superseding migration. */
  datatype Site = Site(fromImage: Image, toImage: Image, otherImage: Image, fromFinishes: bool)

  datatype Phase = Prepared | Moving | Migrating

  /** How far a takeover's move back of the checkout went. */
  datatype Back = NotBegun | BackMoving | BackMoved

  datatype Move = Move(phase: Phase, backup: bool, marked: bool, taken: Option<Back>)

  datatype Outcome = Completed | Superseded

  /** What a migration's checkpoints say: its intent only, the retired container removed, the replacement
      captured, the pin replaced, and (onto another volume) the volume named. */
  datatype Progress = Begun | RetiredGone | Replaced | Pinned | Named

  /** The migration record: none, a directory without its intent, or an intent. */
  datatype Migration =
    | Absent
    | Empty
    | Intent(image: Image, newVolume: Option<Volume>, supersedes: bool, progress: Progress)

  datatype Rebuild = Rebuild(image: Image, volume: Volume)

  /** The next effect of the command that runs. */
  datatype Pc =
    | Idle
    | SaveMoving | MoveTo | SaveMigrating | CheckTree | MarkRun | SaveMarked | Discard | Decide
    | Change | CheckMoved | ArchiveMove | RemoveMove
    | TakeMark(back: bool) | SaveBack | MoveBack | CheckBack | TreeIsClean
    | TakeDecide | TakeChange | TakeCheck | TakeMarkRun | TakeArchive | TakeRemove

  /** Where a migration started by the move's own command found the installation. */
  datatype Start = Start(head: Version, dirty: bool, runMarked: bool)

  datatype State = State(
    site: Site, record: Option<Move>, archive: Option<Outcome>, head: Version, dirty: bool,
    migration: Migration, waiting: bool, pin: Image, volume: Volume, rebuild: Option<Rebuild>,
    runMarked: bool, running: bool, pc: Pc, starts: seq<Start>, finished: nat)

  datatype Action =
    | PrepareMove(backup: bool)
    | Abandon
    | StartSbarbase
    | StopSbarbase
    | Checkout(version: Version, dirty: bool)
    | RebuildCluster(rebuild: Rebuild)
    | Resume
    | Takeover
    | Release
    | Go                                          // the running command's next effect
    | Disturb(version: Version, dirty: bool)      // part of a checkout being written
    | Stop                                        // a refusal, a failed step or a kill

  function LockImage(s: State): Image {
    match s.head
    case From => s.site.fromImage
    case To => s.site.toImage
    case Elsewhere => s.site.otherImage
  }

  /** The move's change is finished: no record waits and the pin names the lock's image. */
  predicate AlreadyMoved(s: State, image: Image) {
    s.migration.Absent? && s.pin == image
  }

  predicate OntoAnotherVolume(s: State) {
    s.migration.Intent? && (s.migration.newVolume.Some? || s.migration.supersedes)
  }

  predicate TakenOver(s: State) {
    (s.record.Some? && s.record.value.taken.Some?) || OntoAnotherVolume(s) || s.waiting
  }

  predicate MoveBegun(s: State) {
    s.record.Some? && !s.record.value.phase.Prepared?
  }

  predicate StartRefused(s: State) {
    MoveBegun(s)
  }

  // ------------------------------------------------------------ the move's own command

  predicate ResumeAdmitted(s: State) {
    && s.record.Some? && !TakenOver(s)
    && (!s.running
        || (MoveBegun(s) && (!s.migration.Absent?
                         || (s.record.value.phase.Migrating? && AlreadyMoved(s, LockImage(s))))))
  }

  function ResumeStart(s: State): Pc
    requires s.record.Some?
  {
    match s.record.value.phase
    case Prepared => SaveMoving
    case Moving => MoveTo
    case Migrating => CheckTree
  }

  /** One effect of the generation migration; `image` and `volume` are those a new intent would record. */
  function MigrationStep(s: State, image: Image, volume: Option<Volume>, supersedes: bool, next: Pc): State {
    match s.migration
    case Absent => s.(migration := Empty)
    case Empty => s.(migration := Intent(image, volume, supersedes, Progress.Begun))
    case Intent(onto, newVolume, _, progress) =>
      match progress
      case Begun => s.(migration := s.migration.(progress := RetiredGone), running := false)
      case RetiredGone => s.(migration := s.migration.(progress := Replaced), running := true)
      case Replaced => s.(migration := s.migration.(progress := Pinned), pin := onto)
      case Pinned =>
        if newVolume.Some? then s.(migration := s.migration.(progress := Named), volume := newVolume.value)
        else s.(migration := Absent, finished := s.finished + 1, pc := next)
      case Named => s.(migration := Absent, waiting := false, pc := next)
  }

  function ResumeStep(s: State): Option<State>
    requires s.record.Some?
  {
    var record := s.record.value;
    match s.pc
    case SaveMoving => Some(s.(record := Some(record.(phase := Moving)), pc := MoveTo))
    case MoveTo => Some(s.(head := To, dirty := false, pc := SaveMigrating))
    case SaveMigrating => Some(s.(record := Some(record.(phase := Migrating)), pc := CheckTree))
    case CheckTree =>
      if s.head.To? && !s.dirty then Some(s.(pc := if record.backup && !record.marked then MarkRun else Discard))
      else Some(s.(pc := Idle))
    case MarkRun => Some(s.(runMarked := true, pc := SaveMarked))
    case SaveMarked => Some(s.(record := Some(record.(marked := true)), pc := Discard))
    case Discard => Some(s.(migration := if s.migration.Empty? then Absent else s.migration, pc := Decide))
    case Decide =>
      if AlreadyMoved(s, LockImage(s)) then Some(s.(pc := ArchiveMove))
      else Some(s.(pc := Change, starts := s.starts + [Start(s.head, s.dirty, s.runMarked)]))
    case Change => Some(MigrationStep(s, LockImage(s), None, false, CheckMoved))
    case CheckMoved => Some(s.(pc := if AlreadyMoved(s, LockImage(s)) then ArchiveMove else Idle))
    case ArchiveMove => Some(s.(archive := Some(Completed), pc := RemoveMove))
    case RemoveMove => Some(s.(record := None, pc := Idle))
    case _ => None
  }

  // ------------------------------------------------------------ the takeover

  /** A stuck migration: its retired container is gone, its replacement was never captured. */
  predicate Stuck(s: State) {
    s.migration.Intent? && !s.migration.supersedes && s.migration.newVolume.None?
    && s.migration.progress.RetiredGone? && s.pin == s.site.fromImage
  }

  function TargetVolume(s: State): Volume
    requires s.migration.Intent?
  {
    if s.migration.newVolume.Some? then s.migration.newVolume.value else s.volume
  }

  /** The recorded migration is one the takeover can finish, supersede or start from. */
  predicate CommandFound(s: State, r: Rebuild) {
    match s.migration
    case Intent(image, _, _, _) => if TargetVolume(s) == r.volume then image == r.image else Stuck(s)
    case _ => true
  }

  /** Nothing is left to migrate: the runtime names the rebuilt volume and no record waits. */
  predicate OnRebuilt(s: State, r: Rebuild) {
    !s.migration.Intent? && !s.waiting && s.volume == r.volume
  }

  predicate NeedsBack(s: State, r: Rebuild) {
    (s.record.Some? && s.record.value.taken == Some(BackMoving)) || LockImage(s) != r.image
  }

  predicate BackPossible(s: State, r: Rebuild) {
    || (s.record.Some? && s.record.value.taken == Some(BackMoving))
    || LockImage(s) == r.image
    || (s.record.Some? && s.site.fromImage == r.image && s.site.fromFinishes)
  }

  predicate TakeoverAdmitted(s: State) {
    && s.rebuild.Some? && (s.record.None? || MoveBegun(s))
    && CommandFound(s, s.rebuild.value) && BackPossible(s, s.rebuild.value)
  }

  function TakeoverStart(s: State): State
    requires s.rebuild.Some?
  {
    var back := NeedsBack(s, s.rebuild.value);
    var t := s.(migration := if s.migration.Empty? then Absent else s.migration);
    if s.record.Some? && s.record.value.taken.None? then t.(pc := TakeMark(back))
    else t.(pc := if back then SaveBack else TreeIsClean)
  }

  function Took(s: State, back: Back, pc: Pc): State
    requires s.record.Some?
  {
    s.(record := Some(s.record.value.(taken := Some(back))), pc := pc)
  }

  /** One effect of the migration onto the rebuilt volume; a stuck one is archived as superseded first. */
  function TakeChangeStep(s: State, r: Rebuild): State {
    if s.migration.Intent? && TargetVolume(s) != r.volume then
      if s.waiting then s.(migration := Absent) else s.(waiting := true)
    else MigrationStep(s, r.image, Some(r.volume), s.waiting, TakeCheck)
  }

  function TakeoverStep(s: State, r: Rebuild): Option<State> {
    match s.pc
    case TakeMark(back) => if s.record.None? then None else Some(Took(s, NotBegun, if back then SaveBack else TreeIsClean))
    case SaveBack => if s.record.None? then None else Some(Took(s, BackMoving, MoveBack))
    case MoveBack => Some(s.(head := From, dirty := false, pc := CheckBack))
    case CheckBack =>
      if s.record.None? || LockImage(s) != r.image then Some(s.(pc := Idle)) else Some(Took(s, BackMoved, TakeDecide))
    case TreeIsClean => Some(s.(pc := if s.dirty then Idle else TakeDecide))
    case TakeDecide => Some(s.(pc := if OnRebuilt(s, r) then TakeCheck else TakeChange))
    case TakeChange => Some(TakeChangeStep(s, r))
    case TakeCheck =>
      if !s.migration.Absent? || s.volume != r.volume || s.pin != r.image then Some(s.(pc := Idle))
      else if s.record.None? then Some(s.(pc := Idle))
      else Some(s.(pc := if s.record.value.backup && !s.record.value.marked then TakeMarkRun else TakeArchive))
    case TakeMarkRun => Some(s.(runMarked := true, pc := TakeArchive))
    case TakeArchive => Some(s.(archive := Some(Superseded), pc := TakeRemove))
    case TakeRemove => Some(s.(record := None, pc := Idle))
    case _ => None
  }

  predicate InResume(pc: Pc) {
    match pc
    case SaveMoving => true case MoveTo => true case SaveMigrating => true case CheckTree => true
    case MarkRun => true case SaveMarked => true case Discard => true case Decide => true
    case Change => true case CheckMoved => true case ArchiveMove => true case RemoveMove => true
    case _ => false
  }

  predicate InTakeover(pc: Pc) {
    !pc.Idle? && !InResume(pc)
  }

  /** `release` unmarks a takeover that cannot go on. */
  predicate ReleaseAdmitted(s: State) {
    && s.record.Some? && s.record.value.taken.Some? && !s.waiting
    && !(s.migration.Intent? && s.migration.newVolume.Some?)
    && !(s.rebuild.Some? && s.volume == s.rebuild.value.volume)
  }

  function Step(s: State, a: Action): Option<State> {
    match a
    case Go =>
      if s.pc.Idle? then None
      else if InResume(s.pc) then (if s.record.None? then None else ResumeStep(s))
      else if s.rebuild.None? then None
      else TakeoverStep(s, s.rebuild.value)
    case Stop => if s.pc.Idle? then None else Some(s.(pc := Idle))
    case Disturb(version, dirty) =>
      if s.pc.MoveTo? || s.pc.MoveBack? then Some(s.(head := version, dirty := dirty)) else None
    case _ => if s.pc.Idle? then IdleStep(s, a) else None
  }

  /** A command begins, or the operator acts while none runs. */
  function IdleStep(s: State, a: Action): Option<State> {
    match a
    case PrepareMove(backup) =>
      if s.record.None? && s.head.From? && !s.dirty && s.site.fromImage != s.site.toImage
         && s.pin == s.site.fromImage && s.migration.Absent? && !s.waiting
      then Some(s.(record := Some(Move(Prepared, backup, false, None)), archive := None, runMarked := false,
                   starts := [], finished := 0))
      else None
    case Abandon => if s.record.Some? && s.record.value.phase.Prepared? then Some(s.(record := None)) else None
    case StartSbarbase =>
      if StartRefused(s) || !s.migration.Absent? then None else Some(s.(running := true))
    case StopSbarbase => Some(s.(running := false))
    case Checkout(version, dirty) => Some(s.(head := version, dirty := dirty))
    case RebuildCluster(r) => if TakenOver(s) || r.volume == s.volume then None else Some(s.(rebuild := Some(r)))
    case Resume => if ResumeAdmitted(s) then Some(s.(pc := ResumeStart(s))) else None
    case Takeover => if TakeoverAdmitted(s) then Some(TakeoverStart(s)) else None
    case Release => if ReleaseAdmitted(s) then Some(s.(record := Some(s.record.value.(taken := None)),
                                                       migration := if s.migration.Empty? then Absent else s.migration))
                    else None
    case _ => None
  }

  function Run(s: State, actions: seq<Action>): Option<State>
    decreases |actions|
  {
    if actions == [] then Some(s) else
    var next := Step(s, actions[0]);
    if next.None? then None else Run(next.value, actions[1..])
  }

  /** The command that runs takes `n` effects, undisturbed; it stays where it ended. */
  function Drive(s: State, n: nat): State
    decreases n
  {
    if n == 0 then s else
    var next := Step(s, Go);
    if next.None? then s else Drive(next.value, n - 1)
  }
}
