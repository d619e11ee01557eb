/** What every run of the cutover machine keeps, and what the four commands achieve. */
module DeploymentSafety {
  import opened Common
  import opened Deployment

  /** The store is never newer than the release the pointer selects. */
  ghost predicate PointerSupportsStore(d: Disk) {
    d.current.Some? ==> !NewerThan(d.home, d.current.value.schema)
  }

  /** Schemas in the journal are the releases' own, and they come with a complete backup. */
  ghost predicate Evidence(m: Machine, j: Journal) {
    j.targetSchema.Some? ==>
      && j.targetSchema == Some(j.target.schema)
      && j.priorSchema == SchemaOf(j.prior)
      && m.baseline.Some?
      && j.backup in m.disk.backups
      && m.disk.backups[j.backup] == Saved(m.baseline.value, j.prior)
  }

  /** The journal's backup, complete or not, is no newer than the live store and fits the prior release. */
  ghost predicate BackupNotNewer(d: Disk, j: Journal) {
    j.backup in d.backups && d.backups[j.backup].db.Some? ==>
      && d.home.db.Some?
      && d.backups[j.backup].db.value.schema <= d.home.db.value.schema
      && (j.prior.Some? ==> d.backups[j.backup].db.value.schema <= j.prior.value.schema)
  }

  ghost predicate JournalInv(m: Machine, j: Journal) {
    && (m.disk.current == j.prior || m.disk.current == Some(j.target))
    && Evidence(m, j)
    && BackupNotNewer(m.disk, j)
    && (m.disk.current != j.prior && !m.forwarded ==> j.targetSchema.Some?)
  }

  /** The steps of one deployment between its check and its switch. */
  ghost predicate DeployInv(m: Machine)
    requires m.task.Deploying?
  {
    var d, t := m.disk, m.task;
    && (t.deploy == Moving(Switched) ==> d.current == Some(t.target))
    && (t.deploy != Moving(Switched) ==> d.current == t.prior)
    && (t.deploy.Entered? || t.deploy.Journalled? || t.deploy.Checked? ==> t.backup !in d.backups)
    && (!t.deploy.Entered? && !t.deploy.Moving? ==> d.journal == Some(PreparedJournal(t.prior, t.target, t.backup)))
    && (t.deploy.Moving? ==> d.journal == Some(EvidencedJournal(Prepared, t.prior, t.target, t.backup)))
    && (Critical(t) ==> SchemaCompatible(d.home, t.target) && m.baseline == Some(d.home))
    && (t.deploy.Directory? || t.deploy.StateSaved? || t.deploy.ConfigSaved? || t.deploy.PreviousSaved? ==>
         t.backup in d.backups)
    && (t.deploy.Directory? ==> d.backups[t.backup].db.None?)
    && (t.deploy.PreviousSaved? ==> d.backups[t.backup] == Saved(d.home, t.prior))
  }

  /** The selected release, or the target when nothing is selected yet. */
  function KeptRelease(d: Disk, j: Journal): Release {
    if d.current.Some? then d.current.value else j.target
  }

  ghost predicate TaskInv(m: Machine) {
    var d, t := m.disk, m.task;
    match t
    case Idle => true
    case Deploying(_, _, _, _) => DeployInv(m)
    case Recovering(j, choice, stage) =>
      && d.journal == Some(j)
      && (stage == Selecting(Switched) ==> d.current == Some(choice) && d.temporary.None?)
      && (Critical(t) ==> j.targetSchema.Some? && choice == KeptRelease(d, j) && SchemaCompatible(d.home, choice))
    case Forwarding(j, c) =>
      && d.journal == Some(j)
      && (c.Switched? ==> d.current == Some(j.target))
      && (Critical(t) ==> SchemaCompatible(d.home, j.target))
    case RollingBack(j, stage) =>
      && d.journal == Some(j)
      && j.prior.Some?
      && (stage == Returning(Switched) ==> d.current == j.prior)
      && (Critical(t) ==> SchemaCompatible(d.home, j.prior.value))
  }

  ghost predicate Inv(m: Machine) {
    && PointerSupportsStore(m.disk)
    && (m.disk.journal.Some? ==> JournalInv(m, m.disk.journal.value))
    && (m.disk.journal.None? ==> m.disk.current.None?)
    && TaskInv(m)
  }

  /** Writing either journal of a deployment, or failing its check. */
  lemma DeployJournalKeepsInv(m: Machine)
    requires Inv(m) && m.task.Deploying?
    requires m.task.deploy.Entered? || m.task.deploy.Journalled? || m.task.deploy.PreviousSaved? ||
      m.task.deploy == Moving(Switched)
    ensures Inv(DeployStep(m))
  {
  }

  /** Filling the backup copies the home the check saw. */
  lemma DeployBackupKeepsInv(m: Machine)
    requires Inv(m) && m.task.Deploying?
    requires m.task.deploy.Checked? || m.task.deploy.Directory? || m.task.deploy.StateSaved? ||
      m.task.deploy.ConfigSaved?
    ensures Inv(DeployStep(m))
  {
  }

  /** The three operations of the switch itself. */
  lemma DeploySwitchKeepsInv(m: Machine)
    requires Inv(m) && m.task.Deploying? && m.task.deploy.Moving? && !m.task.deploy.cutover.Switched?
    ensures Inv(DeployStep(m))
  {
  }

  lemma DeployStepKeepsInv(m: Machine)
    requires Inv(m) && m.task.Deploying?
    ensures Inv(DeployStep(m))
  {
    match m.task.deploy
    case Checked | Directory | StateSaved | ConfigSaved => DeployBackupKeepsInv(m);
    case Entered | Journalled | PreviousSaved => DeployJournalKeepsInv(m);
    case Moving(c) => if c.Switched? { DeployJournalKeepsInv(m); } else { DeploySwitchKeepsInv(m); }
  }

  /** In every state a run can reach, recovery selects the release already selected, if there is one. */
  lemma RecoverKeepsPointer(m: Machine)
    requires Inv(m) && RecoverAdmitted(m.disk)
    ensures RecoverChoice(m.disk, m.disk.journal.value) == KeptRelease(m.disk, m.disk.journal.value)
    ensures SchemaCompatible(m.disk.home, RecoverChoice(m.disk, m.disk.journal.value))
  {
  }

  /** Writing the recovered journal. */
  lemma RecoverJournalKeepsInv(m: Machine)
    requires Inv(m) && m.task.Recovering? && m.task.recover == Selecting(Switched)
    ensures Inv(RecoverStep(m))
  {
  }

  lemma RecoverStepKeepsInv(m: Machine)
    requires Inv(m) && m.task.Recovering?
    ensures Inv(RecoverStep(m))
  {
    if m.task.recover == Selecting(Switched) {
      RecoverJournalKeepsInv(m);
    } else {
      var m' := RecoverStep(m);
      var j := m.disk.journal.value;
      assert m'.disk.backups == m.disk.backups && m'.disk.home == m.disk.home && m'.disk.journal == m.disk.journal;
      assert m'.disk.current == m.disk.current || m'.disk.current == Some(j.target);
      assert Evidence(m', j) && BackupNotNewer(m'.disk, j);
    }
  }

  lemma ForwardStepKeepsInv(m: Machine)
    requires Inv(m) && m.task.Forwarding?
    ensures Inv(ForwardStep(m))
  {
  }

  /** Restoring a file lowers the store to the backup, which both releases support. */
  lemma RestoreKeepsInv(m: Machine)
    requires Inv(m) && m.task.RollingBack? && !m.task.rollback.Returning?
    ensures Inv(RollbackStep(m))
  {
    var m' := RollbackStep(m);
    var j := m.disk.journal.value;
    assert m'.disk.backups == m.disk.backups && m'.disk.current == m.disk.current && m'.disk.journal == m.disk.journal;
    assert BackupNotNewer(m.disk, j);
    assert BackupNotNewer(m'.disk, j);
    assert Evidence(m', j);
  }

  lemma RollbackStepKeepsInv(m: Machine)
    requires Inv(m) && m.task.RollingBack?
    ensures Inv(RollbackStep(m))
  {
    if !m.task.rollback.Returning? {
      RestoreKeepsInv(m);
    } else if m.task.rollback.cutover.Switched? {
      var m' := RollbackStep(m);
      assert m'.disk == m.disk.(journal := m'.disk.journal);
      assert Evidence(m', m'.disk.journal.value) && BackupNotNewer(m'.disk, m'.disk.journal.value);
    } else {
      var m' := RollbackStep(m);
      var j := m.disk.journal.value;
      assert m'.disk.backups == m.disk.backups && m'.disk.home == m.disk.home && m'.disk.journal == m.disk.journal;
      assert Evidence(m', j) && BackupNotNewer(m'.disk, j);
    }
  }

  lemma BeginKeepsInv(m: Machine, command: Command)
    requires Inv(m) && m.task.Idle? && (command.Deploy? ==> command.stamp !in m.disk.backups)
    ensures Inv(Begin(m, command))
  {
    if command.Recover? && RecoverAdmitted(m.disk) {
      RecoverKeepsPointer(m);
    }
  }

  lemma LiveKeepsInv(m: Machine, home: Home)
    requires Inv(m) && !Critical(m.task) && Migrates(m.disk, home)
    ensures Inv(m.(disk := m.disk.(home := home)))
  {
  }

  lemma ApplyKeepsInv(m: Machine, e: Event)
    requires Inv(m)
    ensures Inv(Apply(m, e))
  {
    if Enabled(m, e) {
      match e
      case Issue(command) => BeginKeepsInv(m, command);
      case Advance =>
        match m.task {
          case Idle =>
          case Deploying(_, _, _, _) => DeployStepKeepsInv(m);
          case Recovering(_, _, _) => RecoverStepKeepsInv(m);
          case Forwarding(_, _) => ForwardStepKeepsInv(m);
          case RollingBack(_, _) => RollbackStepKeepsInv(m);
        }
      case Crash =>
      case Live(home) => LiveKeepsInv(m, home);
    }
  }

  lemma {:induction false} RunKeepsInv(m: Machine, events: seq<Event>)
    requires Inv(m)
    ensures Inv(Run(m, events))
    decreases |events|
  {
    if events != [] {
      ApplyKeepsInv(m, events[0]);
      RunKeepsInv(Apply(m, events[0]), events[1..]);
    }
  }

  /**
   Safety of every run: whatever commands, crashes and migrations happen, the store
   is never newer than the selected release, the pointer is one of the two releases
   the journal names, and a pointer that has left the prior release without a
   roll-forward is backed by schemas and a complete backup.
   */
  lemma StoreNeverOutrunsPointer(home: Home, events: seq<Event>)
    ensures var m := Run(Fresh(home), events);
      && PointerSupportsStore(m.disk)
      && (m.disk.current.Some? ==> m.disk.journal.Some?)
      && (m.disk.journal.Some? ==> JournalInv(m, m.disk.journal.value))
  {
    RunKeepsInv(Fresh(home), events);
  }

  lemma ReachableInv(m: Machine)
    requires Reachable(m)
    ensures Inv(m)
  {
    var home, events :| m == Run(Fresh(home), events);
    RunKeepsInv(Fresh(home), events);
  }

  // ----- Crash points of one deployment -----

  /** A deployment of `release` from `m`, some operations later and with no service running. */
  ghost predicate DeployProgress(m: Machine, release: Release, stamp: nat, x: Machine) {
    && Inv(x)
    && x.disk.home == m.disk.home
    && (x.task.Deploying? ==>
          && x.task.prior == m.disk.current && x.task.target == release && x.task.backup == stamp
          && (x.task.deploy.Moving? ==> x.baseline == Some(m.disk.home)))
    && (!x.task.Deploying? ==>
          && x.task.Idle?
          && (x.disk.current != m.disk.current ==>
                && x.baseline == Some(m.disk.home)
                && x.disk.journal == Some(EvidencedJournal(Committed, m.disk.current, release, stamp))))
  }

  lemma {:induction false} DeployProgresses(m: Machine, release: Release, stamp: nat, x: Machine, k: nat)
    requires DeployProgress(m, release, stamp, x)
    ensures DeployProgress(m, release, stamp, Forward(x, k))
    decreases k
  {
    if k > 0 {
      if x.task.Deploying? {
        DeployStepKeepsInv(x);
      }
      DeployProgresses(m, release, stamp, Next(x), k - 1);
    }
  }

  /**
   After any number of operations of a deployment the pointer is the prior release
   or the new one; once it has moved, the durable journal names both releases, both
   schemas and a backup holding the home as the deployment found it.
   */
  lemma DeployCrashPoints(m: Machine, release: Release, stamp: nat, k: nat)
    requires Reachable(m) && m.task.Idle? && stamp !in m.disk.backups
    ensures var x := Forward(Begin(m, Deploy(release, stamp)), k);
      && (x.disk.current == m.disk.current || x.disk.current == Some(release))
      && (x.disk.current != m.disk.current ==>
            && x.disk.journal.Some?
            && (x.disk.journal.value.phase.Prepared? || x.disk.journal.value.phase.Committed?)
            && x.disk.journal.value == EvidencedJournal(x.disk.journal.value.phase, m.disk.current, release, stamp)
            && stamp in x.disk.backups
            && x.disk.backups[stamp] == Saved(m.disk.home, m.disk.current))
  {
    ReachableInv(m);
    var b := Begin(m, Deploy(release, stamp));
    BeginKeepsInv(m, Deploy(release, stamp));
    DeployProgresses(m, release, stamp, b, k);
    var x := Forward(b, k);
    assert x.task.Deploying? ==> DeployInv(x);
    if x.disk.current != m.disk.current {
      assert Evidence(x, x.disk.journal.value);
    }
  }

  // ----- Recovery -----

  /**
   A recovery is refused exactly without a journal, without schemas in it, or on a store newer
   than its new release. Otherwise it leaves no temporary pointer and records the release it kept.
   */
  lemma RecoverCompletes(m: Machine)
    requires Reachable(m) && m.task.Idle?
    ensures Begin(m, Recover) == m <==>
      || m.disk.journal.None? || m.disk.journal.value.targetSchema.None?
      || NewerThan(m.disk.home, m.disk.journal.value.targetSchema.value)
    ensures Begin(m, Recover) != m ==>
      var j := m.disk.journal.value;
      var kept := KeptRelease(m.disk, j);
      && (Some(kept) == j.prior || kept == j.target)
      && Forward(Begin(m, Recover), 5) ==
         m.(disk := m.disk.(current := Some(kept), temporary := None,
                            journal := Some(j.(phase := Recovered, selected := Some(kept)))))
  {
    if Begin(m, Recover) != m {
      RecoverEnds(m);
    }
  }

  lemma RecoverEnds(m: Machine)
    requires Reachable(m) && m.task.Idle? && RecoverAdmitted(m.disk)
    ensures var j := m.disk.journal.value;
      var kept := KeptRelease(m.disk, j);
      && (Some(kept) == j.prior || kept == j.target)
      && Forward(Begin(m, Recover), 5) ==
         m.(disk := m.disk.(current := Some(kept), temporary := None,
                            journal := Some(j.(phase := Recovered, selected := Some(kept)))))
  {
    ReachableInv(m);
    RecoverKeepsPointer(m);
    var j := m.disk.journal.value;
    var kept := KeptRelease(m.disk, j);
    assert JournalInv(m, j);
    var m1 := Next(Begin(m, Recover));
    if m.disk.current.Some? {
      assert Next(m1).task.Idle?;
      ForwardIdle(Next(m1), 3);
      assert Forward(m1, 4) == Forward(Next(m1), 3);
    } else {
      var m2 := Next(m1);
      var m3 := Next(m2);
      var m4 := Next(m3);
      assert m4.task.recover == Selecting(Switched);
      assert Forward(m3, 2) == Next(m4);
      assert Forward(m1, 4) == Forward(m3, 2);
    }
    assert Forward(Begin(m, Recover), 5) == Forward(m1, 4);
  }

  predicate OnlyRecovery(e: Event) {
    e.Issue? ==> e.command.Recover?
  }

  lemma RecoverStepKeepsChoice(m: Machine, e: Event)
    requires Inv(m) && (m.task.Idle? || m.task.Recovering?) && m.disk.journal.Some? && OnlyRecovery(e)
    ensures var m' := Apply(m, e);
      && (m'.task.Idle? || m'.task.Recovering?) && m'.disk.journal.Some?
      && KeptRelease(m'.disk, m'.disk.journal.value) == KeptRelease(m.disk, m.disk.journal.value)
  {
  }

  lemma {:induction false} RecoveryKeepsChoice(m: Machine, events: seq<Event>)
    requires Inv(m) && (m.task.Idle? || m.task.Recovering?) && m.disk.journal.Some?
    requires forall e :: e in events ==> OnlyRecovery(e)
    ensures var m' := Run(m, events);
      && Inv(m') && m'.disk.journal.Some?
      && KeptRelease(m'.disk, m'.disk.journal.value) == KeptRelease(m.disk, m.disk.journal.value)
    decreases |events|
  {
    if events != [] {
      var e := events[0];
      assert OnlyRecovery(e);
      ApplyKeepsInv(m, e);
      RecoverStepKeepsChoice(m, e);
      RecoveryKeepsChoice(Apply(m, e), events[1..]);
    }
  }

  /**
   Recovering again selects the same release, however often recovery is issued, crashes
   at any operation and is issued again, and whatever the selected release migrates meanwhile.
   */
  lemma RecoveryIsStable(m: Machine, events: seq<Event>)
    requires Reachable(m) && m.task.Idle? && RecoverAdmitted(m.disk)
    requires forall e :: e in events ==> OnlyRecovery(e)
    ensures var m' := Run(m, events);
      RecoverAdmitted(m'.disk) ==>
        RecoverChoice(m'.disk, m'.disk.journal.value) == RecoverChoice(m.disk, m.disk.journal.value)
  {
    ReachableInv(m);
    RecoverKeepsPointer(m);
    RecoveryKeepsChoice(m, events);
    if RecoverAdmitted(Run(m, events).disk) {
      RecoverKeepsPointer(Run(m, events));
    }
  }

  lemma {:induction false} RunAppend(m: Machine, a: seq<Event>, b: seq<Event>)
    ensures Run(m, a + b) == Run(Run(m, a), b)
    decreases |a|
  {
    if a == [] {
      assert a + b == b;
    } else {
      assert (a + b)[1..] == a[1..] + b;
      RunAppend(Apply(m, a[0]), a[1..], b);
    }
  }

  lemma ReachableStep(m: Machine, e: Event)
    requires Reachable(m)
    ensures Reachable(Apply(m, e))
  {
    var home, events :| m == Run(Fresh(home), events);
    RunAppend(Fresh(home), events, [e]);
    assert Run(m, [e]) == Run(Apply(m, e), []);
    assert Apply(m, e) == Run(Fresh(home), events + [e]);
  }

  lemma {:induction false} ReachableForward(m: Machine, k: nat)
    requires Reachable(m)
    ensures Reachable(Forward(m, k))
    decreases k
  {
    if k > 0 {
      ReachableStep(m, Advance);
      ReachableForward(Next(m), k - 1);
    }
  }

  const BACKUP_STAGES := [Checked, Directory, StateSaved, ConfigSaved, PreviousSaved]

  /** Where a deployment of `release` from `m` stands after `k` operations with no service running. */
  ghost predicate DeployStands(m: Machine, release: Release, stamp: nat, k: nat, x: Machine) {
    var prior := m.disk.current;
    && x.disk.home == m.disk.home
    && (k == 0 ==> x.task == Deploying(prior, release, stamp, Entered))
    && (k > 0 && (k < 7 || NewerThan(m.disk.home, release.schema)) ==>
         x.disk.journal == Some(PreparedJournal(prior, release, stamp)))
    && (k == 1 ==> x.task == Deploying(prior, release, stamp, Journalled))
    && if NewerThan(m.disk.home, release.schema) then k >= 2 ==> x.task.Idle? else
       && (2 <= k < 7 ==> x.task == Deploying(prior, release, stamp, BACKUP_STAGES[k - 2]))
       && (7 <= k < 11 ==>
            && x.task == Deploying(prior, release, stamp, Moving([Pending, Cleared, Linked, Switched][k - 7]))
            && x.disk.journal == Some(EvidencedJournal(Prepared, prior, release, stamp)))
       && (k >= 11 ==> x.task.Idle? && x.disk.journal == Some(EvidencedJournal(Committed, prior, release, stamp)))
  }

  lemma {:induction false} DeployStandsAfter(m: Machine, release: Release, stamp: nat, x: Machine, n: nat, k: nat)
    requires DeployStands(m, release, stamp, n, x)
    ensures DeployStands(m, release, stamp, n + k, Forward(x, k))
    decreases k
  {
    if k > 0 {
      DeployStandsAfter(m, release, stamp, Next(x), n + 1, k - 1);
    }
  }

  /**
   A deployment that loses power after its first journal write: recovery is admitted exactly
   when the second one, with the schemas, was written, and then it clears the temporary
   pointer, selects what was selected at the crash (the new release if nothing was) and leaves
   the home alone.
   */
  lemma CrashedDeployRecovers(m: Machine, release: Release, stamp: nat, k: nat)
    requires Reachable(m) && m.task.Idle? && stamp !in m.disk.backups && k > 0
    ensures
      var crashed := Forward(Begin(m, Deploy(release, stamp)), k).(task := Idle);
      var recovered := Forward(Begin(crashed, Recover), 5).disk;
      && (Begin(crashed, Recover) != crashed <==> k >= 7 && !NewerThan(m.disk.home, release.schema))
      && (crashed.disk.current == m.disk.current || crashed.disk.current == Some(release))
      && (Begin(crashed, Recover) != crashed ==>
            && recovered.temporary.None?
            && recovered.current == (if crashed.disk.current.Some? then crashed.disk.current else Some(release))
            && recovered.home == m.disk.home)
  {
    ReachableStep(m, Issue(Deploy(release, stamp)));
    var b := Begin(m, Deploy(release, stamp));
    ReachableForward(b, k);
    ReachableStep(Forward(b, k), Crash);
    var crashed := Forward(b, k).(task := Idle);
    DeployCrashPoints(m, release, stamp, k);
    assert DeployStands(m, release, stamp, 0, b);
    DeployStandsAfter(m, release, stamp, b, 0, k);
    if Begin(crashed, Recover) != crashed {
      RecoverCompletes(crashed);
    }
  }

  /**
   The evidence invariant needs its exception: rolling forward a journal that holds only the
   first, schema-free record moves the pointer without schemas, and recovery then refuses.
   */
  lemma ForwardedPointerMayLackEvidence(first: Release, second: Release, home: Home)
    requires home.db.None? && first != second
    ensures
      var installed := Forward(Begin(Fresh(home), Deploy(first, 0)), 11);
      var interrupted := Next(Begin(installed, Deploy(second, 1))).(task := Idle);
      var forwarded := Forward(Begin(interrupted, RollForward), 4);
      && forwarded.disk.current == Some(second)
      && forwarded.disk.journal.Some? && forwarded.disk.journal.value.targetSchema.None?
      && Begin(forwarded, Recover) == forwarded
  {
    DeployCompletes(Fresh(home), first, 0);
    var installed := Forward(Begin(Fresh(home), Deploy(first, 0)), 11);
    var interrupted := Next(Begin(installed, Deploy(second, 1))).(task := Idle);
    var m2 := Next(Next(Begin(interrupted, RollForward)));
    assert Forward(Begin(interrupted, RollForward), 4) == Forward(m2, 2) == Next(Next(m2));
  }

  /**
   A roll-forward is refused exactly without a journal or on a store newer than its new release.
   Otherwise it selects that release, and recovery accepts the result exactly when the journal
   already held the new release's schema before.
   */
  lemma ForwardedRecoversIff(m: Machine)
    requires Reachable(m) && m.task.Idle?
    ensures Begin(m, RollForward) == m <==>
      m.disk.journal.None? || NewerThan(m.disk.home, m.disk.journal.value.target.schema)
    ensures Begin(m, RollForward) != m ==>
      var j := m.disk.journal.value;
      var forwarded := Forward(Begin(m, RollForward), 4);
      && forwarded.task.Idle?
      && forwarded.disk == m.disk.(current := Some(j.target), temporary := None,
                                   journal := Some(j.(phase := RolledForward, selected := Some(j.target))))
      && (Begin(forwarded, Recover) != forwarded <==> j.targetSchema.Some?)
  {
    ReachableInv(m);
    if Begin(m, RollForward) != m {
      var m2 := Next(Next(Begin(m, RollForward)));
      assert Forward(Begin(m, RollForward), 4) == Forward(m2, 2) == Next(Next(m2));
    }
  }

  // ----- Rollback -----

  /** The journal a running command works from is the one on disk. */
  ghost predicate TaskJournal(m: Machine) {
    match m.task
    case Idle => true
    case Deploying(_, _, _, _) => false
    case Recovering(j, _, _) => m.disk.journal == Some(j)
    case Forwarding(j, _) => m.disk.journal == Some(j)
    case RollingBack(j, _) => m.disk.journal == Some(j)
  }

  /** The journal still describes deployment `j` and its backup is still `b`. */
  ghost predicate SameDeployment(m: Machine, j: Journal, b: Backup) {
    && m.disk.journal.Some?
    && m.disk.journal.value == j.(phase := m.disk.journal.value.phase, selected := m.disk.journal.value.selected)
    && j.backup in m.disk.backups
    && m.disk.backups[j.backup] == b
    && TaskJournal(m)
  }

  predicate NoDeploy(e: Event) {
    e.Issue? ==> !e.command.Deploy?
  }

  /** One event when nothing restrains the home: any change to it, at any point of any command. */
  function ApplyFreely(m: Machine, e: Event): Machine {
    if e.Live? then m.(disk := m.disk.(home := e.home)) else Apply(m, e)
  }

  function RunFreely(m: Machine, events: seq<Event>): Machine
    decreases |events|
  {
    if events == [] then m else RunFreely(ApplyFreely(m, events[0]), events[1..])
  }

  lemma StepKeepsDeployment(m: Machine, j: Journal, b: Backup)
    requires SameDeployment(m, j, b) && !m.task.Idle?
    ensures SameDeployment(Next(m), j, b)
  {
    match m.task
    case Recovering(_, _, _) => assert RecoverStep(m).disk.backups == m.disk.backups;
    case Forwarding(_, _) => assert ForwardStep(m).disk.backups == m.disk.backups;
    case RollingBack(_, _) => assert RollbackStep(m).disk.backups == m.disk.backups;
  }

  lemma {:induction false} RunKeepsDeployment(m: Machine, events: seq<Event>, j: Journal, b: Backup)
    requires SameDeployment(m, j, b)
    requires forall e :: e in events ==> NoDeploy(e)
    ensures SameDeployment(RunFreely(m, events), j, b)
    decreases |events|
  {
    if events != [] {
      assert NoDeploy(events[0]);
      if events[0].Advance? && !m.task.Idle? {
        StepKeepsDeployment(m, j, b);
      }
      RunKeepsDeployment(ApplyFreely(m, events[0]), events[1..], j, b);
    }
  }

  /** A deployment left alone: refused on a newer store, otherwise committed after eleven operations. */
  lemma DeployCompletes(m: Machine, release: Release, stamp: nat)
    requires m.task.Idle?
    ensures var x := Forward(Begin(m, Deploy(release, stamp)), 11);
      && x.task.Idle?
      && x.disk == if NewerThan(m.disk.home, release.schema)
                   then m.disk.(journal := Some(PreparedJournal(m.disk.current, release, stamp)))
                   else Disk(Some(release), None,
                             Some(EvidencedJournal(Committed, m.disk.current, release, stamp)),
                             m.disk.backups[stamp := Saved(m.disk.home, m.disk.current)],
                             m.disk.home)
  {
    var m2 := Next(Next(Begin(m, Deploy(release, stamp))));
    assert Forward(Begin(m, Deploy(release, stamp)), 11) == Forward(m2, 9);
    if SchemaCompatible(m.disk.home, release) {
      var m4 := Next(Next(m2));
      assert m4.task.deploy.StateSaved?;
      var m7 := Next(Next(Next(m4)));
      assert m7.disk.backups == m.disk.backups[stamp := Saved(m.disk.home, m.disk.current)];
      var m9 := Next(Next(m7));
      assert Forward(m2, 9) == Forward(m4, 7);
      assert Forward(m4, 7) == Forward(m7, 4);
      assert Forward(m7, 4) == Forward(m9, 2) == Next(Next(m9));
    } else {
      ForwardIdle(m2, 9);
    }
  }

  /** The file a rollback leaves: the saved one if there is one, else whatever is there now. */
  function Restored<T>(saved: Option<T>, live: Option<T>): Option<T> {
    if saved.Some? then saved else live
  }

  /** What the journal's backup holds; a backup that is gone holds nothing. */
  function BackupOf(d: Disk, j: Journal): Backup {
    if j.backup in d.backups then d.backups[j.backup] else Backup(None, None, None)
  }

  /**
   A rollback is refused exactly without a journal, after a rollback, without a prior release or
   on a store newer than that release. Otherwise six operations select the prior release, restore
   every file the backup holds and leave the others.
   */
  lemma RollbackCompletes(m: Machine)
    requires m.task.Idle?
    ensures Begin(m, Rollback) == m <==>
      || m.disk.journal.None? || m.disk.journal.value.phase == RolledBack || m.disk.journal.value.prior.None?
      || NewerThan(m.disk.home, m.disk.journal.value.prior.value.schema)
    ensures Begin(m, Rollback) != m ==>
      var j := m.disk.journal.value;
      var saved := BackupOf(m.disk, j);
      Forward(Begin(m, Rollback), 6) ==
      m.(disk := Disk(j.prior, None, Some(j.(phase := RolledBack, selected := j.prior)), m.disk.backups,
                      Home(Restored(saved.db, m.disk.home.db), Restored(saved.config, m.disk.home.config))))
  {
    if Begin(m, Rollback) != m {
      var m2 := Next(Next(Begin(m, Rollback)));
      var m4 := Next(Next(m2));
      assert Forward(Begin(m, Rollback), 6) == Forward(m2, 4) == Forward(m4, 2) == Next(Next(m4));
    }
  }

  /**
   Deploy, then any run without a new deployment (any change to the home whatever, crashes,
   recoveries, roll-forwards, interrupted rollbacks), then a rollback: it is refused exactly if
   nothing was deployed before, a rollback completed meanwhile, or the store is now newer than
   the prior release. Otherwise the pointer is back at the prior release and each file that
   existed at deploy time has its deploy-time content. The whole home is back if and only if no
   file absent at deploy time exists now. An immediate second rollback is refused.
   */
  lemma RollbackRestoresDeployedHome(m: Machine, release: Release, stamp: nat, later: seq<Event>)
    requires m.task.Idle? && !NewerThan(m.disk.home, release.schema)
    requires forall e :: e in later ==> NoDeploy(e)
    ensures
      var deployed := Forward(Begin(m, Deploy(release, stamp)), 11);
      var live := RunFreely(deployed, later);
      live.disk.journal.Some? &&
      (live.task.Idle? ==>
        var back := Forward(Begin(live, Rollback), 6);
        && (Begin(live, Rollback) == live <==>
              || m.disk.current.None? || live.disk.journal.value.phase == RolledBack
              || NewerThan(live.disk.home, m.disk.current.value.schema))
        && (Begin(live, Rollback) != live ==>
              && back.task.Idle?
              && back.disk.current == m.disk.current
              && back.disk.home.db == Restored(m.disk.home.db, live.disk.home.db)
              && back.disk.home.config == Restored(m.disk.home.config, live.disk.home.config)
              && (back.disk.home == m.disk.home <==>
                    && (m.disk.home.db.Some? || live.disk.home.db.None?)
                    && (m.disk.home.config.Some? || live.disk.home.config.None?))
              && Begin(back, Rollback) == back))
  {
    DeployCompletes(m, release, stamp);
    var deployed := Forward(Begin(m, Deploy(release, stamp)), 11);
    var j := EvidencedJournal(Committed, m.disk.current, release, stamp);
    var b := Saved(m.disk.home, m.disk.current);
    RunKeepsDeployment(deployed, later, j, b);
    var live := RunFreely(deployed, later);
    if live.task.Idle? {
      RollbackCompletes(live);
    }
  }

  /** A committed deployment over a prior release that supports the home rolls back to where it started. */
  lemma CommittedDeployRollsBack(m: Machine, release: Release, stamp: nat)
    requires m.task.Idle? && m.disk.current.Some?
    requires !NewerThan(m.disk.home, release.schema) && !NewerThan(m.disk.home, m.disk.current.value.schema)
    ensures var deployed := Forward(Begin(m, Deploy(release, stamp)), 11);
      var back := Forward(Begin(deployed, Rollback), 6);
      && deployed.disk.current == Some(release)
      && back.disk.current == m.disk.current && back.disk.home == m.disk.home
      && back.disk.journal.Some? && back.disk.journal.value.phase == RolledBack
  {
    DeployCompletes(m, release, stamp);
    RollbackCompletes(Forward(Begin(m, Deploy(release, stamp)), 11));
  }
}
