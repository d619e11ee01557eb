/** Where recovery, roll-forward and rollback may be cut, and that issuing them again finishes the work. */
module DeploymentCuts {
  import opened Common
  import opened Deployment
  import opened DeploymentSafety

  /** A disk on which a switch to `release` has got this far. */
  function Switching(d: Disk, release: Release, c: Cutover): Disk {
    match c
    case Pending => d
    case Cleared => d.(temporary := None)
    case Linked => d.(temporary := Some(release))
    case Switched => d.(temporary := None, current := Some(release))
  }

  /**
   What a cut command may leave of its start `m` and its end `done`: the pointer moves only once
   the home is as the end has it, and the journal is written last.
   */
  ghost predicate InOrder(m: Disk, x: Disk, done: Disk) {
    && (x.current == m.current || (x.current == done.current && x.home == done.home))
    && (x.journal == m.journal || x == done)
    && (x.home.db == m.home.db || x.home.db == done.home.db)
    && (x.home.config == m.home.config || x.home.config == done.home.config)
    && x.backups == m.backups
  }

  // ----- Rollback -----

  /** The prior state of the files the backup holds. */
  function RolledHome(d: Disk, j: Journal): Home {
    Home(Restored(BackupOf(d, j).db, d.home.db), Restored(BackupOf(d, j).config, d.home.config))
  }

  ghost predicate RollbackStands(m: Machine, x: Machine)
    requires m.disk.journal.Some? && m.disk.journal.value.prior.Some?
  {
    var d, j := m.disk, m.disk.journal.value;
    match x.task
    case RollingBack(kept, stage) =>
      && kept == j
      && x == m.(task := x.task, disk := match stage
         case RestoringState => d
         case RestoringConfig => d.(home := d.home.(db := Restored(BackupOf(d, j).db, d.home.db)))
         case Returning(c) => Switching(d.(home := RolledHome(d, j)), j.prior.value, c))
    case Idle => x == Forward(Begin(m, Rollback), 6)
    case _ => false
  }

  lemma RollbackStepStands(m: Machine, x: Machine)
    requires m.task.Idle? && Begin(m, Rollback) != m && RollbackStands(m, x)
    ensures RollbackStands(m, Next(x))
  {
    RollbackCompletes(m);
  }

  lemma {:induction false} RollbackStandsAfter(m: Machine, x: Machine, k: nat)
    requires m.task.Idle? && Begin(m, Rollback) != m && RollbackStands(m, x)
    ensures RollbackStands(m, Forward(x, k))
    decreases k
  {
    if k > 0 {
      RollbackStepStands(m, x);
      RollbackStandsAfter(m, Next(x), k - 1);
    }
  }

  lemma RollbackInOrder(m: Machine, x: Machine)
    requires m.task.Idle? && Begin(m, Rollback) != m && RollbackStands(m, x)
    ensures InOrder(m.disk, x.disk, Forward(Begin(m, Rollback), 6).disk)
    ensures x.disk.journal == m.disk.journal || x.task.Idle?
  {
    RollbackCompletes(m);
  }

  lemma CutRollbackIsAdmitted(m: Machine, x: Machine)
    requires Inv(m) && m.task.Idle? && Begin(m, Rollback) != m && RollbackStands(m, x) && !x.task.Idle?
    ensures Begin(x.(task := Idle), Rollback) != x.(task := Idle)
  {
    assert BackupNotNewer(m.disk, m.disk.journal.value);
    RollbackInOrder(m, x);
  }

  /** Restoring over files already restored changes nothing. */
  lemma RestoredStays(m: Machine, x: Machine)
    requires m.disk.journal.Some? && m.disk.journal.value.prior.Some? && RollbackStands(m, x) && !x.task.Idle?
    ensures RolledHome(x.disk, m.disk.journal.value) == RolledHome(m.disk, m.disk.journal.value)
    ensures x.baseline == m.baseline && x.forwarded == m.forwarded && x.disk.backups == m.disk.backups
  {
  }

  /**
   A rollback cut after any number of operations has moved the pointer only if every file is
   restored, and written the journal only if all is done; issued again, it is refused if it was
   done and otherwise ends exactly where it would have ended.
   */
  lemma CutRollbackResumes(m: Machine, k: nat)
    requires Reachable(m) && m.task.Idle? && Begin(m, Rollback) != m
    ensures var done := Forward(Begin(m, Rollback), 6);
      var cut := Forward(Begin(m, Rollback), k).(task := Idle);
      && InOrder(m.disk, cut.disk, done.disk)
      && (cut == done ==> Begin(cut, Rollback) == cut)
      && (cut != done ==> Begin(cut, Rollback) != cut && Forward(Begin(cut, Rollback), 6) == done)
  {
    RollbackCompletes(m);
    RollbackStandsAfter(m, Begin(m, Rollback), k);
    ReachableInv(m);
    var x := Forward(Begin(m, Rollback), k);
    RollbackInOrder(m, x);
    if !x.task.Idle? {
      CutRollbackIsAdmitted(m, x);
      RollbackCompletes(x.(task := Idle));
      RestoredStays(m, x);
    }
  }

  // ----- Roll-forward -----

  ghost predicate ForwardStands(m: Machine, x: Machine)
    requires m.disk.journal.Some?
  {
    var j := m.disk.journal.value;
    match x.task
    case Forwarding(kept, c) =>
      && kept == j
      && x == m.(task := x.task, disk := Switching(m.disk, j.target, c), forwarded := m.forwarded || c.Switched?)
    case Idle => x == Forward(Begin(m, RollForward), 4)
    case _ => false
  }

  lemma ForwardEnds(m: Machine)
    requires m.task.Idle? && Begin(m, RollForward) != m
    ensures var j := m.disk.journal.value;
      Forward(Begin(m, RollForward), 4) ==
      Machine(m.disk.(current := Some(j.target), temporary := None,
                      journal := Some(j.(phase := RolledForward, selected := Some(j.target)))), Idle, m.baseline, true)
  {
    var m2 := Next(Next(Begin(m, RollForward)));
    assert Forward(Begin(m, RollForward), 4) == Forward(m2, 2) == Next(Next(m2));
  }

  lemma {:induction false} ForwardStandsAfter(m: Machine, x: Machine, k: nat)
    requires m.task.Idle? && Begin(m, RollForward) != m && ForwardStands(m, x)
    ensures ForwardStands(m, Forward(x, k))
    decreases k
  {
    ForwardEnds(m);
    if k > 0 {
      ForwardStandsAfter(m, Next(x), k - 1);
    }
  }

  /** A cut roll-forward wrote the journal only if all is done; issued again, it ends where it would have ended. */
  lemma CutForwardResumes(m: Machine, k: nat)
    requires m.task.Idle? && Begin(m, RollForward) != m
    ensures var done := Forward(Begin(m, RollForward), 4);
      var cut := Forward(Begin(m, RollForward), k).(task := Idle);
      && InOrder(m.disk, cut.disk, done.disk)
      && Begin(cut, RollForward) != cut && Forward(Begin(cut, RollForward), 4) == done
  {
    ForwardEnds(m);
    ForwardStandsAfter(m, Begin(m, RollForward), k);
    ForwardEnds(Forward(Begin(m, RollForward), k).(task := Idle));
  }

  // ----- Recovery -----

  ghost predicate RecoverStands(m: Machine, x: Machine)
    requires m.disk.journal.Some?
  {
    var d, j := m.disk, m.disk.journal.value;
    var kept := KeptRelease(d, j);
    match x.task
    case Recovering(journal, choice, stage) =>
      && journal == j && choice == kept
      && x == m.(task := x.task, disk := match stage
         case Unlinking => d
         case Selecting(c) => Switching(d.(temporary := None), kept, c))
    case Idle => x == Forward(Begin(m, Recover), 5)
    case _ => false
  }

  lemma RecoverStepStands(m: Machine, x: Machine)
    requires Reachable(m) && m.task.Idle? && Begin(m, Recover) != m && RecoverStands(m, x)
    ensures RecoverStands(m, Next(x))
  {
    RecoverCompletes(m);
  }

  lemma {:induction false} RecoverStandsAfter(m: Machine, x: Machine, k: nat)
    requires Reachable(m) && m.task.Idle? && Begin(m, Recover) != m && RecoverStands(m, x)
    ensures RecoverStands(m, Forward(x, k))
    decreases k
  {
    if k > 0 {
      RecoverStepStands(m, x);
      RecoverStandsAfter(m, Next(x), k - 1);
    }
  }

  lemma RecoverInOrder(m: Machine, x: Machine)
    requires Reachable(m) && m.task.Idle? && Begin(m, Recover) != m && RecoverStands(m, x)
    ensures var done := Forward(Begin(m, Recover), 5);
      InOrder(m.disk, x.disk, done.disk) && CutLike(m, x.(task := Idle), done)
  {
    RecoverCompletes(m);
  }

  /** What matters to a recovery that is issued again. */
  ghost predicate CutLike(m: Machine, cut: Machine, done: Machine) {
    && cut.disk == done.disk.(current := cut.disk.current, temporary := cut.disk.temporary, journal := cut.disk.journal)
    && (cut.disk.current == m.disk.current || cut.disk.current == done.disk.current)
    && (cut.disk.journal == m.disk.journal || cut.disk.journal == done.disk.journal)
    && cut.task.Idle? && cut.baseline == m.baseline && cut.forwarded == m.forwarded
  }

  lemma CutRecoveryEnds(m: Machine, cut: Machine)
    requires Reachable(m) && m.task.Idle? && Begin(m, Recover) != m
    requires Reachable(cut) && CutLike(m, cut, Forward(Begin(m, Recover), 5))
    ensures Begin(cut, Recover) != cut && Forward(Begin(cut, Recover), 5) == Forward(Begin(m, Recover), 5)
  {
    RecoverCompletes(m);
    RecoverCompletes(cut);
  }

  /** A cut recovery has written the journal only if all is done; issued again, it ends where it would have ended. */
  lemma CutRecoveryResumes(m: Machine, k: nat)
    requires Reachable(m) && m.task.Idle? && Begin(m, Recover) != m
    ensures var done := Forward(Begin(m, Recover), 5);
      var cut := Forward(Begin(m, Recover), k).(task := Idle);
      && InOrder(m.disk, cut.disk, done.disk)
      && Begin(cut, Recover) != cut && Forward(Begin(cut, Recover), 5) == done
  {
    var b := Begin(m, Recover);
    ReachableInv(m);
    RecoverKeepsPointer(m);
    RecoverStandsAfter(m, b, k);
    ReachableStep(m, Issue(Recover));
    ReachableForward(b, k);
    ReachableStep(Forward(b, k), Crash);
    RecoverInOrder(m, Forward(b, k));
    CutRecoveryEnds(m, Forward(b, k).(task := Idle));
  }
}
