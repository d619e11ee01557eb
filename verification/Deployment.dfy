/**
 The journalled release cutover of `xtask/src/deploy.rs`.

 The disk is a value and every filesystem operation is one step of a machine.
 Between two steps the machine may lose power (or the operation may fail), which
 drops the command in progress and nothing else, and the selected release may
 migrate the home upwards, except between a schema check and the switch that
 relies on it: that exception is what quiescence means here.
 */
module Deployment {
  import opened Common

  /** A sealed release: the path names immutable bytes, so it also fixes the schema. */
  datatype Release = Release(path: string, schema: nat)

  datatype Database = Database(bytes: seq<byte>, schema: nat)

  datatype Home = Home(db: Option<Database>, config: Option<seq<byte>>)

  datatype Backup = Backup(db: Option<Database>, config: Option<seq<byte>>, previous: Option<Release>)

  datatype Phase = Prepared | Committed | Recovered | RolledForward | RolledBack

  /** The fields of `deploy.json` that an operation reads back. */
  datatype Journal = Journal(
    phase: Phase,
    prior: Option<Release>,
    target: Release,
    backup: nat,
    priorSchema: Option<nat>,
    targetSchema: Option<nat>,
    selected: Option<Release>)

  datatype Disk = Disk(
    current: Option<Release>,
    temporary: Option<Release>,
    journal: Option<Journal>,
    backups: map<nat, Backup>,
    home: Home)

  /** Progress through `switch`: unlink, symlink, rename. */
  datatype Cutover = Pending | Cleared | Linked | Switched

  datatype DeployStage =
    | Entered | Journalled | Checked | Directory | StateSaved | ConfigSaved | PreviousSaved
    | Moving(cutover: Cutover)

  datatype RecoverStage = Unlinking | Selecting(cutover: Cutover)

  datatype RollbackStage = RestoringState | RestoringConfig | Returning(cutover: Cutover)

  /** What the running command keeps in memory; a crash forgets it. */
  datatype Task =
    | Idle
    | Deploying(prior: Option<Release>, target: Release, backup: nat, deploy: DeployStage)
    | Recovering(journal: Journal, choice: Release, recover: RecoverStage)
    | Forwarding(journal: Journal, forward: Cutover)
    | RollingBack(journal: Journal, rollback: RollbackStage)

  /**
   `baseline` is the home seen by the last deployment check that passed, and
   `forwarded` tells that roll-forward has switched since the journalled
   deployment began. Both are history variables: no step reads them.
   */
  datatype Machine = Machine(disk: Disk, task: Task, baseline: Option<Home>, forwarded: bool)

  datatype Command = Deploy(release: Release, stamp: nat) | Recover | RollForward | Rollback

  datatype Event = Issue(command: Command) | Advance | Crash | Live(home: Home)

  predicate SchemaCompatible(home: Home, release: Release) {
    home.db.Some? ==> home.db.value.schema <= release.schema
  }

  /** The store is too new for a release that knows schemas up to `schema`. */
  predicate NewerThan(home: Home, schema: nat) {
    home.db.Some? && home.db.value.schema > schema
  }

  function SchemaOf(release: Option<Release>): Option<nat> {
    if release.Some? then Some(release.value.schema) else None
  }

  /** What a completed `backup_at` holds for a home. */
  function Saved(home: Home, prior: Option<Release>): Backup {
    Backup(home.db, home.config, prior)
  }

  function PreparedJournal(prior: Option<Release>, target: Release, stamp: nat): Journal {
    Journal(Prepared, prior, target, stamp, None, None, None)
  }

  function EvidencedJournal(phase: Phase, prior: Option<Release>, target: Release, stamp: nat): Journal {
    Journal(phase, prior, target, stamp, SchemaOf(prior), Some(target.schema), None)
  }

  /** One filesystem operation of `switch`. */
  function SwitchStep(disk: Disk, release: Release, c: Cutover): (Disk, Cutover) {
    match c
    case Pending => (disk.(temporary := None), Cleared)
    case Cleared => (disk.(temporary := Some(release)), Linked)
    case Linked => (disk.(temporary := None, current := Some(release)), Switched)
    case Switched => (disk, Switched)
  }

  function DeployStep(m: Machine): Machine
    requires m.task.Deploying?
  {
    var d, t := m.disk, m.task;
    match t.deploy
    case Entered =>
      m.(disk := d.(journal := Some(PreparedJournal(t.prior, t.target, t.backup))),
         task := t.(deploy := Journalled), forwarded := false)
    case Journalled =>
      if SchemaCompatible(d.home, t.target)
      then m.(task := t.(deploy := Checked), baseline := Some(d.home))
      else m.(task := Idle)
    case Checked =>
      m.(disk := d.(backups := d.backups[t.backup := Backup(None, None, None)]),
         task := t.(deploy := Directory))
    case Directory =>
      m.(disk := d.(backups := d.backups[t.backup := Backup(d.home.db, None, None)]),
         task := t.(deploy := StateSaved))
    case StateSaved =>
      m.(disk := d.(backups := d.backups[t.backup := Backup(d.home.db, d.home.config, None)]),
         task := t.(deploy := ConfigSaved))
    case ConfigSaved =>
      m.(disk := d.(backups := d.backups[t.backup := Backup(d.home.db, d.home.config, t.prior)]),
         task := t.(deploy := PreviousSaved))
    case PreviousSaved =>
      m.(disk := d.(journal := Some(EvidencedJournal(Prepared, t.prior, t.target, t.backup))),
         task := t.(deploy := Moving(Pending)))
    case Moving(Switched) =>
      m.(disk := d.(journal := Some(EvidencedJournal(Committed, t.prior, t.target, t.backup))),
         task := Idle)
    case Moving(c) =>
      var (d', c') := SwitchStep(d, t.target, c);
      m.(disk := d', task := t.(deploy := Moving(c')))
  }

  function RecoverStep(m: Machine): Machine
    requires m.task.Recovering?
  {
    var d, t := m.disk, m.task;
    match t.recover
    case Unlinking =>
      m.(disk := d.(temporary := None),
         task := t.(recover := Selecting(if d.current == Some(t.choice) then Switched else Pending)))
    case Selecting(Switched) =>
      m.(disk := d.(journal := Some(t.journal.(phase := Recovered, selected := Some(t.choice)))),
         task := Idle)
    case Selecting(c) =>
      var (d', c') := SwitchStep(d, t.choice, c);
      m.(disk := d', task := t.(recover := Selecting(c')))
  }

  function ForwardStep(m: Machine): Machine
    requires m.task.Forwarding?
  {
    var d, t := m.disk, m.task;
    match t.forward
    case Switched =>
      m.(disk := d.(journal := Some(t.journal.(phase := RolledForward, selected := Some(t.journal.target)))),
         task := Idle)
    case c =>
      var (d', c') := SwitchStep(d, t.journal.target, c);
      m.(disk := d', task := t.(forward := c'), forwarded := m.forwarded || c'.Switched?)
  }

  function RestoreState(d: Disk, backup: nat): Disk {
    if backup in d.backups && d.backups[backup].db.Some?
    then d.(home := d.home.(db := d.backups[backup].db))
    else d
  }

  function RestoreConfig(d: Disk, backup: nat): Disk {
    if backup in d.backups && d.backups[backup].config.Some?
    then d.(home := d.home.(config := d.backups[backup].config))
    else d
  }

  function RollbackStep(m: Machine): Machine
    requires m.task.RollingBack?
  {
    var d, t := m.disk, m.task;
    match t.rollback
    case RestoringState =>
      m.(disk := RestoreState(d, t.journal.backup), task := t.(rollback := RestoringConfig))
    case RestoringConfig =>
      m.(disk := RestoreConfig(d, t.journal.backup), task := t.(rollback := Returning(Pending)))
    case Returning(Switched) =>
      m.(disk := d.(journal := Some(t.journal.(phase := RolledBack, selected := t.journal.prior))),
         task := Idle)
    case Returning(c) =>
      if t.journal.prior.None? then m.(task := Idle) else
      var (d', c') := SwitchStep(d, t.journal.prior.value, c);
      m.(disk := d', task := t.(rollback := Returning(c')))
  }

  /** The next filesystem operation of the command in progress. */
  function Next(m: Machine): Machine {
    match m.task
    case Idle => m
    case Deploying(_, _, _, _) => DeployStep(m)
    case Recovering(_, _, _) => RecoverStep(m)
    case Forwarding(_, _) => ForwardStep(m)
    case RollingBack(_, _) => RollbackStep(m)
  }

  /** The release `recover` selects from the journal, the pointer and the store's schema. */
  function RecoverChoice(d: Disk, j: Journal): Release {
    if d.home.db.Some? && j.prior.Some? && j.priorSchema.Some? && d.home.db.value.schema > j.priorSchema.value
    then j.target
    else if j.prior.Some? && d.current == j.prior then j.prior.value
    else if d.current == Some(j.target) then j.target
    else if j.prior.Some? then j.prior.value
    else j.target
  }

  /** Whether `recover` gets past its evidence checks. */
  predicate RecoverAdmitted(d: Disk) {
    && d.journal.Some?
    && d.journal.value.targetSchema.Some?
    && (d.home.db.Some? ==> d.home.db.value.schema <= d.journal.value.targetSchema.value)
  }

  predicate RollbackAdmitted(d: Disk) {
    && d.journal.Some?
    && d.journal.value.phase != RolledBack
    && d.journal.value.prior.Some?
    && SchemaCompatible(d.home, d.journal.value.prior.value)
  }

  /** Entry checks of a command; a refused command leaves the machine as it was. */
  function Begin(m: Machine, command: Command): Machine {
    var d := m.disk;
    match command
    case Deploy(release, stamp) => m.(task := Deploying(d.current, release, stamp, Entered))
    case Recover =>
      if RecoverAdmitted(d)
      then m.(task := Recovering(d.journal.value, RecoverChoice(d, d.journal.value), Unlinking))
      else m
    case RollForward =>
      if d.journal.Some? && SchemaCompatible(d.home, d.journal.value.target)
      then m.(task := Forwarding(d.journal.value, Pending))
      else m
    case Rollback =>
      if RollbackAdmitted(d) then m.(task := RollingBack(d.journal.value, RestoringState)) else m
  }

  /** Between its schema check and its switch a command must see a quiet home. */
  predicate Critical(task: Task) {
    match task
    case Idle => false
    case Deploying(_, _, _, stage) => !stage.Entered? && !stage.Journalled? && stage != Moving(Switched)
    case Recovering(_, _, stage) => stage != Selecting(Switched)
    case Forwarding(_, c) => c != Switched
    case RollingBack(_, stage) => stage != Returning(Switched)
  }

  /** What running services may do to the home: only the selected release migrates, and only upwards. */
  predicate Migrates(d: Disk, home: Home) {
    && (d.current.None? ==> home.db == d.home.db)
    && (d.home.db.Some? ==> home.db.Some? && d.home.db.value.schema <= home.db.value.schema)
    && (d.current.Some? ==> SchemaCompatible(home, d.current.value))
  }

  predicate Enabled(m: Machine, e: Event) {
    match e
    case Issue(command) => m.task.Idle? && (command.Deploy? ==> command.stamp !in m.disk.backups)
    case Advance => true
    case Crash => true
    case Live(home) => !Critical(m.task) && Migrates(m.disk, home)
  }

  function Apply(m: Machine, e: Event): Machine {
    if !Enabled(m, e) then m else
    match e
    case Issue(command) => Begin(m, command)
    case Advance => Next(m)
    case Crash => m.(task := Idle)
    case Live(home) => m.(disk := m.disk.(home := home))
  }

  function Run(m: Machine, events: seq<Event>): Machine
    decreases |events|
  {
    if events == [] then m else Run(Apply(m, events[0]), events[1..])
  }

  /** A prefix before its first deployment: no pointer, no journal, any home. */
  function Fresh(home: Home): Machine {
    Machine(Disk(None, None, None, map[], home), Idle, None, false)
  }

  ghost predicate Reachable(m: Machine) {
    exists home, events :: m == Run(Fresh(home), events)
  }

  /** `n` further filesystem operations of the command in progress. */
  function Forward(m: Machine, n: nat): Machine
    decreases n
  {
    if n == 0 then m else Forward(Next(m), n - 1)
  }

  lemma {:induction false} ForwardIdle(m: Machine, n: nat)
    requires m.task.Idle?
    ensures Forward(m, n) == m
    decreases n
  {
    if n > 0 {
      ForwardIdle(m, n - 1);
    }
  }
}
