/**
 The four commands of `xtask/src/deploy.rs` as they update a prefix and a home in
 place. `power` is the number of operations that still happen before the machine
 stops; every command leaves exactly the disk the step machine has at that point.
 */
module DeploymentCommands {
  import opened Common
  import opened Deployment

  class Prefix {
    var current: Option<Release>
    var temporary: Option<Release>
    var journal: Option<Journal>
    var backups: map<nat, Backup>
    var home: Home

    constructor (home: Home)
      ensures Snapshot() == Fresh(home).disk
    {
      this.current, this.temporary, this.journal := None, None, None;
      this.backups, this.home := map[], home;
    }

    function Snapshot(): Disk
      reads this
    {
      Disk(current, temporary, journal, backups, home)
    }

    /** This prefix with no command running. */
    function Resting(): Machine
      reads this
    {
      Machine(Snapshot(), Idle, None, false)
    }

    /** Atomically replaces the pointer: unlink the temporary, link it, rename it over `current`. */
    method Switch(release: Release, power: nat) returns (done: bool)
      modifies this`current, this`temporary
      ensures done <==> power >= 3
      ensures Snapshot() == SwitchTo(old(Snapshot()), release, power)
    {
      done := false;
      if power == 0 { return; }
      temporary := None;
      if power == 1 { return; }
      temporary := Some(release);
      if power == 2 { return; }
      current, temporary := temporary, None;
      done := true;
    }

    /** Saves the store, the configuration and the prior pointer under a fresh stamp. */
    method BackUp(stamp: nat, prior: Option<Release>, power: nat) returns (done: bool)
      modifies this`backups
      ensures done <==> power >= 4
      ensures Snapshot() == BackedUp(old(Snapshot()), stamp, prior, power)
    {
      done := false;
      if power == 0 { return; }
      backups := backups[stamp := Backup(None, None, None)];
      if power == 1 { return; }
      backups := backups[stamp := backups[stamp].(db := home.db)];
      if power == 2 { return; }
      backups := backups[stamp := backups[stamp].(config := home.config)];
      if power == 3 { return; }
      backups := backups[stamp := backups[stamp].(previous := prior)];
      done := true;
    }

    method Deploy(release: Release, stamp: nat, power: nat) returns (committed: bool)
      modifies this
      ensures Snapshot() == Forward(Begin(old(Resting()), Command.Deploy(release, stamp)), power).disk
      ensures committed <==> power >= 11 && !NewerThan(old(home), release.schema)
    {
      committed := false;
      var prior := current;
      ghost var start := Begin(Resting(), Command.Deploy(release, stamp));
      if power == 0 { return; }
      journal := Some(PreparedJournal(prior, release, stamp));
      assert Forward(start, power) == Forward(Next(start), power - 1);
      if power == 1 { return; }
      ghost var checked := Next(Next(start));
      assert Forward(start, power) == Forward(checked, power - 2);
      if !SchemaCompatible(home, release) {
        ForwardIdle(checked, power - 2);
        return;
      }
      BackupIsForward(checked, power - 2);
      var saved := BackUp(stamp, prior, power - 2);
      if !saved { return; }
      ghost var filled := Forward(checked, 4);
      ForwardAdds(checked, 4, power - 6);
      if power == 6 { return; }
      journal := Some(EvidencedJournal(Prepared, prior, release, stamp));
      assert Forward(filled, power - 6) == Forward(Next(filled), power - 7);
      committed := Commit(prior, release, stamp, power - 7, Next(filled));
    }

    /** The rest of a deployment whose backup evidence is in the journal. */
    method Commit(prior: Option<Release>, release: Release, stamp: nat, power: nat, ghost ready: Machine)
      returns (committed: bool)
      requires ready.disk == Snapshot() && ready.task == Deploying(prior, release, stamp, Moving(Pending))
      modifies this
      ensures Snapshot() == Forward(ready, power).disk
      ensures committed <==> power >= 4
    {
      committed := false;
      SwitchIsForward(ready, release, power);
      var switched := Switch(release, power);
      if !switched { return; }
      ForwardAdds(ready, 3, power - 3);
      if power == 3 { return; }
      journal := Some(EvidencedJournal(Committed, prior, release, stamp));
      ForwardIdle(Next(Forward(ready, 3)), power - 4);
      committed := true;
    }

    method Recover(power: nat) returns (recovered: bool)
      modifies this
      ensures Snapshot() == Forward(Begin(old(Resting()), Command.Recover), power).disk
      ensures recovered ==> temporary.None? && journal.Some? && journal.value.phase == Recovered
      ensures recovered ==> current.Some? && journal.value.selected == current
      ensures recovered <==>
        && old(journal).Some? && old(journal).value.targetSchema.Some?
        && !NewerThan(old(home), old(journal).value.targetSchema.value)
        && var choice := RecoverChoice(old(Snapshot()), old(journal).value);
           power >= if old(current) == Some(choice) then 2 else 5
    {
      recovered := false;
      ghost var start := Begin(Resting(), Command.Recover);
      if !RecoverAdmitted(Snapshot()) {
        ForwardIdle(start, power);
        return;
      }
      var kept := journal.value;
      var choice := RecoverChoice(Snapshot(), kept);
      if power == 0 { return; }
      temporary := None;
      ghost var unlinked := Next(start);
      assert Forward(start, power) == Forward(unlinked, power - 1);
      var left := power - 1;
      ghost var selected := unlinked;
      if current != Some(choice) {
        SwitchIsForward(unlinked, choice, left);
        var switched := Switch(choice, left);
        if !switched { return; }
        ForwardAdds(unlinked, 3, left - 3);
        selected := Forward(unlinked, 3);
        left := left - 3;
      }
      if left == 0 { return; }
      journal := Some(kept.(phase := Recovered, selected := Some(choice)));
      ForwardIdle(Next(selected), left - 1);
      recovered := true;
    }

    method RollForward(power: nat) returns (done: bool)
      modifies this
      ensures Snapshot() == Forward(Begin(old(Resting()), Command.RollForward), power).disk
      ensures done ==> current.Some? && journal.Some? && current == Some(journal.value.target)
      ensures done <==>
        && power >= 4 && old(journal).Some?
        && !NewerThan(old(home), old(journal).value.target.schema)
    {
      done := false;
      ghost var start := Begin(Resting(), Command.RollForward);
      if journal.None? || !SchemaCompatible(home, journal.value.target) {
        ForwardIdle(start, power);
        return;
      }
      var kept := journal.value;
      SwitchIsForward(start, kept.target, power);
      var switched := Switch(kept.target, power);
      if !switched { return; }
      ForwardAdds(start, 3, power - 3);
      if power == 3 { return; }
      journal := Some(kept.(phase := RolledForward, selected := Some(kept.target)));
      ForwardIdle(Next(Forward(start, 3)), power - 4);
      done := true;
    }

    method Rollback(power: nat) returns (done: bool)
      modifies this
      ensures Snapshot() == Forward(Begin(old(Resting()), Command.Rollback), power).disk
      ensures done ==> journal.Some? && journal.value.phase == RolledBack && current == journal.value.prior
      ensures done <==>
        && power >= 6 && old(journal).Some? && old(journal).value.phase != RolledBack
        && old(journal).value.prior.Some? && !NewerThan(old(home), old(journal).value.prior.value.schema)
    {
      done := false;
      ghost var start := Begin(Resting(), Command.Rollback);
      if !RollbackAdmitted(Snapshot()) {
        ForwardIdle(start, power);
        return;
      }
      var kept := journal.value;
      if power == 0 { return; }
      if kept.backup in backups && backups[kept.backup].db.Some? {
        home := home.(db := backups[kept.backup].db);
      }
      assert Forward(start, power) == Forward(Next(start), power - 1);
      if power == 1 { return; }
      if kept.backup in backups && backups[kept.backup].config.Some? {
        home := home.(config := backups[kept.backup].config);
      }
      ghost var restored := Next(Next(start));
      assert Forward(start, power) == Forward(restored, power - 2);
      SwitchIsForward(restored, kept.prior.value, power - 2);
      var switched := Switch(kept.prior.value, power - 2);
      if !switched { return; }
      ForwardAdds(restored, 3, power - 5);
      if power == 5 { return; }
      journal := Some(kept.(phase := RolledBack, selected := kept.prior));
      ForwardIdle(Next(Forward(restored, 3)), power - 6);
      done := true;
    }
  }

  /** The disk after at most `power` operations of a switch. */
  function SwitchTo(d: Disk, release: Release, power: nat): Disk {
    if power == 0 then d
    else if power == 1 then d.(temporary := None)
    else if power == 2 then d.(temporary := Some(release))
    else d.(temporary := None, current := Some(release))
  }

  /** The disk after at most `power` operations of `backup_at`. */
  function BackedUp(d: Disk, stamp: nat, prior: Option<Release>, power: nat): Disk {
    if power == 0 then d else
    d.(backups := d.backups[stamp :=
      Backup(if power >= 2 then d.home.db else None,
             if power >= 3 then d.home.config else None,
             if power >= 4 then prior else None)])
  }

  lemma {:induction false} ForwardAdds(m: Machine, a: nat, b: nat)
    ensures Forward(m, a + b) == Forward(Forward(m, a), b)
    decreases a
  {
    if a > 0 {
      ForwardAdds(Next(m), a - 1, b);
    }
  }

  /** The release a task is about to switch to, when it is at the start of its switch. */
  predicate AtSwitch(t: Task, release: Release) {
    match t
    case Idle => false
    case Deploying(_, target, _, stage) => target == release && stage == Moving(Pending)
    case Recovering(_, choice, stage) => choice == release && stage == Selecting(Pending)
    case Forwarding(j, c) => j.target == release && c == Pending
    case RollingBack(j, stage) => j.prior == Some(release) && stage == Returning(Pending)
  }

  predicate AfterSwitch(t: Task, u: Task) {
    match t
    case Idle => false
    case Deploying(_, _, _, _) => u == t.(deploy := Moving(Switched))
    case Recovering(_, _, _) => u == t.(recover := Selecting(Switched))
    case Forwarding(_, _) => u == t.(forward := Switched)
    case RollingBack(_, _) => u == t.(rollback := Returning(Switched))
  }

  lemma SwitchIsForward(m: Machine, release: Release, power: nat)
    requires AtSwitch(m.task, release)
    ensures power <= 3 ==> Forward(m, power).disk == SwitchTo(m.disk, release, power)
    ensures Forward(m, 3).disk == SwitchTo(m.disk, release, 3)
    ensures AfterSwitch(m.task, Forward(m, 3).task)
  {
    var m1 := Next(m);
    var m2 := Next(m1);
    assert m1.disk == SwitchTo(m.disk, release, 1) && m2.disk == SwitchTo(m.disk, release, 2);
    assert Forward(m, 3) == Forward(m1, 2) == Forward(m2, 1) == Next(m2);
    assert Forward(m, 2) == m2;
    assert Forward(m, 1) == m1;
  }

  lemma BackupIsForward(m: Machine, power: nat)
    requires m.task.Deploying? && m.task.deploy.Checked?
    ensures power <= 4 ==> Forward(m, power).disk == BackedUp(m.disk, m.task.backup, m.task.prior, power)
    ensures Forward(m, 4) ==
      m.(disk := BackedUp(m.disk, m.task.backup, m.task.prior, 4), task := m.task.(deploy := PreviousSaved))
  {
    var m2 := Next(Next(m));
    assert Forward(m, 4) == Forward(m2, 2) == Next(Next(m2));
    assert Forward(m, 3) == Next(m2);
    assert Forward(m, 2) == m2;
    assert Forward(m, 1) == Next(m);
  }
}
