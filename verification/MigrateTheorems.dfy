/** What the start-up protocol of cmd/migrate guarantees over whole runs: one
    pod's baseline is everybody's, a torn one stays torn, and nobody waits for ever. */
module MigrateTheorems {

  import opened Wrappers
  import opened Migrate
  import opened MigrateProtocol

  lemma SettledStep(c: Release, s: State, a: Action)
    requires c.WellFormed() && LockInv(c, s) && Harmless(s, a) && Settled(s)
    ensures Settled(Step(c, s, a)) && Step(c, s, a).table == s.table && Step(c, s, a).torn == s.torn
  {
  }

  /** Every later pod's baseline is a no-op: once the table exists and the pod that
      was filling it is done or dead, no continuation of the run changes a row. A
      torn table is never completed. */
  lemma {:induction false} TableIsFinal(c: Release, s: State, actions: seq<Action>)
    requires c.WellFormed() && LockInv(c, s) && Settled(s) && LockKept(c, s, actions)
    ensures Settled(Run(c, s, actions))
    ensures Run(c, s, actions).table == s.table && Run(c, s, actions).torn == s.torn
  {
    hide LockInv, Step, Settled, LockKept, Harmless;
    if actions != [] {
      var init := actions[..|actions| - 1];
      LockKeptBefore(c, s, actions);
      TableIsFinal(c, s, init);
      RunKeepsLock(c, s, init);
      SettledStep(c, Run(c, s, init), actions[|actions| - 1]);
    }
  }

  // This action is the death of a pod that still has rows to insert.
  predicate IsTear(c: Release, s: State, a: Action) {
    a.Crash? && a.p < |s.pods| && s.pods[a.p].Inserting? && s.pods[a.p].next < c.Count()
  }

  ghost predicate Tears(c: Release, s: State, actions: seq<Action>, i: nat)
    requires i < |actions|
  {
    IsTear(c, Run(c, s, actions[..i]), actions[i])
  }

  lemma StepTears(c: Release, s: State, a: Action)
    ensures Step(c, s, a).torn <==> s.torn || IsTear(c, s, a)
  {
    hide Insert;
  }

  lemma {:induction false} TornByACrash(c: Release, n: nat, actions: seq<Action>)
    ensures Run(c, Initial(n), actions).torn <==> exists i :: 0 <= i < |actions| && Tears(c, Initial(n), actions, i)
  {
    hide Step, IsTear;
    if actions != [] {
      var k := |actions| - 1;
      var init := actions[..k];
      TornByACrash(c, n, init);
      StepTears(c, Run(c, Initial(n), init), actions[k]);
      forall i | 0 <= i < k ensures Tears(c, Initial(n), actions, i) == Tears(c, Initial(n), init, i) {
        assert actions[..i] == init[..i];
      }
      if i :| 0 <= i < |init| && Tears(c, Initial(n), init, i) {
        assert Tears(c, Initial(n), actions, i);
      }
      if Run(c, Initial(n), actions).torn && !Run(c, Initial(n), init).torn {
        assert Tears(c, Initial(n), actions, k);
      }
    }
  }

  // ------------------------------------------------------------ one pod on its own

  function Proceeds(k: nat, now: int): seq<Action> {
    seq(k, _ => Proceed(0, now))
  }

  function Alone(table: Table): State {
    State(None, [Idle], table, false, false, 0)
  }

  // Where the pod is after the lock and h more statements.
  function AloneAt(c: Release, table: Table, now: int, h: nat): Pc {
    if h == 0 then Locked
    else if table.Rows? || c.files == [] then
      if h == 1 then Migrating else if h == 2 then Unlocking else Finished
    else if h == 1 then Creating
    else if h <= c.Count() + 2 then Inserting(h - 2, now)
    else if h == c.Count() + 3 then Migrating
    else if h == c.Count() + 4 then Unlocking
    else Finished
  }

  // The pod and the table are where the method is after h statements.
  ghost predicate InStep(c: Release, table: Table, now: int, h: nat, s: State) {
    && s.pods == [AloneAt(c, table, now, h)]
    && s.table == BaselineEffect(Some(c), table, now, h).0
    && (s.migrated <==> s.pods[0].Unlocking? || s.pods[0].Finished?)
    && (BaselineEffect(Some(c), table, now, h).1 <==>
        s.pods[0].Locked? || s.pods[0].Creating? || (s.pods[0].Inserting? && s.pods[0].next < c.Count()))
  }

  lemma AloneStarts(c: Release, table: Table, now: int)
    ensures InStep(c, table, now, 0, Advance(c, Alone(table), 0, now))
  {
  }

  lemma AloneAdvances(c: Release, table: Table, now: int, h: nat, s: State)
    requires c.WellFormed() && h > 0 && InStep(c, table, now, h - 1, s)
    ensures InStep(c, table, now, h, Advance(c, s, 0, now))
  {
    if s.pods[0].Inserting? && s.pods[0].next < c.Count() {
      AloneInserts(c, table, now, h, s);
    } else if s.pods[0].Creating? {
      AloneCreates(c, table, now, h, s);
    } else {
      AloneMovesOn(c, table, now, h, s);
    }
  }

  lemma AloneInserts(c: Release, table: Table, now: int, h: nat, s: State)
    requires c.WellFormed() && h > 0 && InStep(c, table, now, h - 1, s)
    requires s.pods[0].Inserting? && s.pods[0].next < c.Count()
    ensures InStep(c, table, now, h, Advance(c, s, 0, now))
  {
    hide Insert, Release.Baselined, Release.Baseline, IsPrefix;
    var j := s.pods[0].next;
    assert h == j + 3 && s.table == Rows(c.Baselined(j, now));
    BaselinedIsPrefix(c, j, now);
    InsertNext(c, s.table.rows, j, now);
    BaselinedOneMore(c, j, now);
  }

  lemma AloneCreates(c: Release, table: Table, now: int, h: nat, s: State)
    requires h > 0 && InStep(c, table, now, h - 1, s) && s.pods[0].Creating?
    ensures InStep(c, table, now, h, Advance(c, s, 0, now))
  {
    hide Release.Baselined;
    BaselinedNone(c, now);
  }

  lemma AloneMovesOn(c: Release, table: Table, now: int, h: nat, s: State)
    requires h > 0 && InStep(c, table, now, h - 1, s) && !s.pods[0].Creating?
    requires s.pods[0].Inserting? ==> s.pods[0].next >= c.Count()
    ensures InStep(c, table, now, h, Advance(c, s, 0, now))
  {
    hide Insert, Release.Baselined, Release.Baseline;
  }

  /** The method and the protocol agree: a pod that is alone and gets through the
      lock and h more statements leaves the table that baselineAtlasIfNeeded
      leaves when the database fails after h statements, and has not got past the
      baseline exactly when the method fails. */
  lemma {:induction false} AlonePodRunsTheBaseline(c: Release, table: Table, now: int, h: nat)
    requires c.WellFormed()
    ensures InStep(c, table, now, h, Run(c, Alone(table), Proceeds(h + 1, now)))
  {
    hide Advance, BaselineEffect, AloneAt;
    var all := Proceeds(h + 1, now);
    assert all[..h] == Proceeds(h, now);
    if h == 0 {
      assert Run(c, Alone(table), []) == Alone(table);
      AloneStarts(c, table, now);
    } else {
      AlonePodRunsTheBaseline(c, table, now, h - 1);
      AloneAdvances(c, table, now, h, Run(c, Alone(table), Proceeds(h, now)));
    }
  }

  // A pod that is past Schema.Create has run it.
  ghost predicate MigratedInv(s: State) {
    forall p :: 0 <= p < |s.pods| && (s.pods[p].Unlocking? || s.pods[p].Finished?) ==> s.migrated
  }

  lemma StepMigrates(c: Release, s: State, a: Action)
    requires MigratedInv(s)
    ensures MigratedInv(Step(c, s, a))
  {
    hide Insert, Release.Baseline;
  }

  lemma {:induction false} RunMigrates(c: Release, n: nat, actions: seq<Action>)
    ensures MigratedInv(Run(c, Initial(n), actions))
  {
    hide Step;
    if actions != [] {
      RunMigrates(c, n, actions[..|actions| - 1]);
      StepMigrates(c, Run(c, Initial(n), actions[..|actions| - 1]), actions[|actions| - 1]);
    }
  }

  lemma BaselinedIsComplete(c: Release, when: int)
    requires c.WellFormed() && c.files != []
    ensures var rows := c.Baselined(c.Count(), when);
            Complete(c, rows) && forall i :: 0 <= i < |rows| ==> rows[i].executedAt == when
  {
    hide Release.Baselined, IsPrefix, Complete;
    BaselinedIsPrefix(c, c.Count(), when);
    PrefixRecords(c, c.Baselined(c.Count(), when));
    BaselinedTimes(c, c.Count(), when);
  }

  /** Any interleaving ends in the state of one sequential run: when any pod has
      finished, and no pod has died while it was filling the table, the database
      is the one that a single undisturbed pod leaves, with the row of every file but
      the newest. */
  lemma AnyRunEndsAsOne(c: Release, n: nat, actions: seq<Action>, p: nat)
    requires c.WellFormed() && LockKept(c, Initial(n), actions)
    requires var s := Run(c, Initial(n), actions); p < |s.pods| && s.pods[p].Finished?
    requires !exists i :: 0 <= i < |actions| && Tears(c, Initial(n), actions, i)
    ensures var s := Run(c, Initial(n), actions);
            var one := Run(c, Initial(1), Proceeds(c.Count() + 6, s.stamp));
            && one.pods == [Finished]
            && (s.table, s.migrated) == (one.table, one.migrated) && s.migrated
            && (c.files != [] ==>
                  && s.table.Rows? && Complete(c, s.table.rows)
                  && forall i :: 0 <= i < |s.table.rows| ==> s.table.rows[i].executedAt == s.stamp)
  {
    hide Insert, Run, Step, Tears, LockKept, Complete;
    var s := Run(c, Initial(n), actions);
    InitialLock(c, n);
    RunKeepsLock(c, Initial(n), actions);
    TornByACrash(c, n, actions);
    RunMigrates(c, n, actions);
    assert Initial(1) == Alone(Absent);
    AlonePodRunsTheBaseline(c, Absent, s.stamp, c.Count() + 5);
    if c.files != [] {
      BaselinedIsComplete(c, s.stamp);
    }
  }

  // ---------------------------------------------------------------- nobody waits for ever

  predicate Done(pc: Pc) {
    pc.Finished? || pc.Dead?
  }

  // The statements a pod has before it, at most.
  function Work(c: Release, pc: Pc): nat {
    match pc
    case Idle => c.Count() + 7
    case Locked => c.Count() + 6
    case Creating => c.Count() + 5
    case Inserting(next, _) => if next <= c.Count() then c.Count() - next + 3 else 3
    case Migrating => 2
    case Unlocking => 1
    case _ => 0
  }

  function AllWork(c: Release, pods: seq<Pc>): nat {
    if pods == [] then 0 else AllWork(c, pods[..|pods| - 1]) + Work(c, pods[|pods| - 1])
  }

  lemma {:induction false} WorkOfUpdate(c: Release, pods: seq<Pc>, p: nat, pc: Pc)
    requires p < |pods|
    ensures AllWork(c, pods[p := pc]) + Work(c, pods[p]) == AllWork(c, pods) + Work(c, pc)
  {
    hide Work;
    var init := pods[..|pods| - 1];
    if p < |pods| - 1 {
      WorkOfUpdate(c, init, p, pc);
      assert pods[p := pc][..|pods| - 1] == init[p := pc];
    } else {
      assert pods[p := pc][..|pods| - 1] == init;
    }
  }

  /** No livelock: every statement a pod gets executed brings the whole cluster
      closer to the end, lost sessions or not. */
  lemma ProceedingIsProgress(c: Release, s: State, p: nat, now: int)
    requires PrefixInv(c, s)
    requires Step(c, s, Proceed(p, now)) != s
    ensures AllWork(c, Step(c, s, Proceed(p, now)).pods) < AllWork(c, s.pods)
  {
    hide Insert, AllWork;
    var s' := Step(c, s, Proceed(p, now));
    assert s'.pods == s.pods[p := s'.pods[p]];
    assert Work(c, s'.pods[p]) < Work(c, s.pods[p]);
    WorkOfUpdate(c, s.pods, p, s'.pods[p]);
  }

  /** The pod whose session has the lock is between lock and unlock. This holds even
      where more pods than that one are. */
  ghost predicate HolderInv(s: State) {
    s.holder.Some? ==> s.holder.value < |s.pods| && Critical(s.pods[s.holder.value])
  }

  lemma StepKeepsHolder(c: Release, s: State, a: Action)
    requires HolderInv(s)
    ensures HolderInv(Step(c, s, a))
  {
    hide Insert, Release.Baseline;
  }

  lemma {:induction false} RunKeepsHolder(c: Release, n: nat, actions: seq<Action>)
    ensures HolderInv(Run(c, Initial(n), actions))
  {
    hide Step, HolderInv;
    if actions == [] {
      assert HolderInv(Initial(n)) by {
        NoHolder(n);
      }
    } else {
      RunKeepsHolder(c, n, actions[..|actions| - 1]);
      StepKeepsHolder(c, Run(c, Initial(n), actions[..|actions| - 1]), actions[|actions| - 1]);
    }
  }

  lemma NoHolder(n: nat)
    ensures HolderInv(Initial(n))
  {
  }

  lemma SomeoneProceeds(c: Release, s: State, q: nat, now: int) returns (p: nat)
    requires HolderInv(s) && q < |s.pods| && !Done(s.pods[q])
    ensures Step(c, s, Proceed(p, now)) != s
  {
    hide Insert, Release.Baseline;
    p := if s.holder.Some? then s.holder.value else q;
    var s' := Step(c, s, Proceed(p, now));
    assert s'.pods[p] != s.pods[p];
  }

  /** No deadlock: at every moment of every run, lost sessions included, while some
      pod is not done some pod can proceed, be the others dead or waiting. */
  lemma SomeoneCanProceed(c: Release, n: nat, actions: seq<Action>, q: nat, now: int) returns (p: nat)
    requires q < |Run(c, Initial(n), actions).pods| && !Done(Run(c, Initial(n), actions).pods[q])
    ensures Step(c, Run(c, Initial(n), actions), Proceed(p, now)) != Run(c, Initial(n), actions)
  {
    hide Step, Run;
    RunKeepsHolder(c, n, actions);
    p := SomeoneProceeds(c, Run(c, Initial(n), actions), q, now);
  }

  lemma ProceedKeepsPods(c: Release, s: State, p: nat, now: int)
    ensures var s' := Step(c, s, Proceed(p, now));
            && |s'.pods| == |s.pods|
            && forall q :: 0 <= q < |s.pods| ==> (s'.pods[q].Dead? <==> s.pods[q].Dead?)
  {
    hide Insert;
  }

  lemma {:induction false} Drain(c: Release, s: State, now: int) returns (actions: seq<Action>)
    requires c.WellFormed() && HolderInv(s) && PrefixInv(c, s)
    ensures |actions| <= AllWork(c, s.pods) && forall i :: 0 <= i < |actions| ==> actions[i].Proceed?
    ensures var s' := Run(c, s, actions);
            && |s'.pods| == |s.pods|
            && forall p :: 0 <= p < |s.pods| ==> Done(s'.pods[p]) && (s'.pods[p].Dead? <==> s.pods[p].Dead?)
    decreases AllWork(c, s.pods)
  {
    hide HolderInv, PrefixInv, Step, AllWork, Done;
    if q: nat :| q < |s.pods| && !Done(s.pods[q]) {
      var p := SomeoneProceeds(c, s, q, now);
      var s' := Step(c, s, Proceed(p, now));
      StepKeepsHolder(c, s, Proceed(p, now));
      StepKeepsPrefix(c, s, Proceed(p, now));
      ProceedingIsProgress(c, s, p, now);
      ProceedKeepsPods(c, s, p, now);
      var rest := Drain(c, s', now);
      actions := [Proceed(p, now)] + rest;
      RunSplits(c, s, [Proceed(p, now)], rest);
      RunOne(c, s, Proceed(p, now));
    } else {
      actions := [];
    }
  }

  /** From every state that any run reaches, lost sessions included, the pods that
      are alive can all finish, in at most as many statements as they have left. */
  lemma EveryoneCanFinish(c: Release, n: nat, actions: seq<Action>, now: int) returns (more: seq<Action>)
    requires c.WellFormed()
    ensures var s := Run(c, Initial(n), actions);
            var s' := Run(c, Initial(n), actions + more);
            && |more| <= AllWork(c, s.pods) && (forall i :: 0 <= i < |more| ==> more[i].Proceed?)
            && |s'.pods| == |s.pods|
            && forall p :: 0 <= p < |s.pods| ==> Done(s'.pods[p]) && (s'.pods[p].Dead? <==> s.pods[p].Dead?)
  {
    hide Step, Run, PrefixInv, HolderInv, Done, AllWork;
    RunKeepsHolder(c, n, actions);
    RunKeepsPrefix(c, n, actions);
    more := Drain(c, Run(c, Initial(n), actions), now);
    RunSplits(c, Initial(n), actions, more);
  }

  /** The exact condition: when a pod has finished or the table is settled, the
      baseline is complete, a row for every file but the newest, iff no pod died while
      filling it. One crash there loses
      the remaining baseline rows for good. */
  lemma CompleteIffNotTorn(c: Release, n: nat, actions: seq<Action>, more: seq<Action>)
    requires c.WellFormed() && LockKept(c, Initial(n), actions)
    requires LockKept(c, Run(c, Initial(n), actions), more)
    requires Settled(Run(c, Initial(n), actions))
    ensures var later := Run(c, Initial(n), actions + more);
            && later.table == Run(c, Initial(n), actions).table
            && later.table.Rows? && RecordsOldest(c, later.table.rows)
            && (Complete(c, later.table.rows) <==>
                !exists i :: 0 <= i < |actions| && Tears(c, Initial(n), actions, i))
  {
    hide Insert, Run, Step, Tears, LockKept;
    InitialLock(c, n);
    RunKeepsLock(c, Initial(n), actions);
    TornByACrash(c, n, actions);
    TableIsFinal(c, Run(c, Initial(n), actions), more);
    RunSplits(c, Initial(n), actions, more);
    RunKeepsPrefix(c, n, actions);
    PrefixRecords(c, Run(c, Initial(n), actions).table.rows);
    hide IsPrefix, Complete, RecordsOldest;
  }

  // -------------------------------------------- what holds even when sessions are lost

  ghost predicate SomeoneInserting(s: State) {
    exists p :: 0 <= p < |s.pods| && s.pods[p].Inserting?
  }

  /** A table with rows missing is being filled, or torn; and a pod past the baseline
      has seen the table. */
  ghost predicate FillInv(c: Release, s: State) {
    && (s.table.Rows? && !s.torn && |s.table.rows| < c.Count() ==> SomeoneInserting(s))
    && (forall p :: 0 <= p < |s.pods| && AfterBaseline(s.pods[p]) && c.files != [] ==> s.table.Rows?)
    && (c.files == [] ==> s.table.Absent?)
    && MigratedInv(s)
  }

  lemma StepKeepsRows(c: Release, s: State, a: Action)
    requires c.WellFormed() && PrefixInv(c, s)
    ensures Grows(s.table, Step(c, s, a).table)
  {
    hide PrefixInv, Advance;
    if a.Proceed? && a.p < |s.pods| {
      AdvanceFits(c, s, a.p, a.now);
    }
  }

  // The pod of the action leaves no row behind without tearing the table.
  lemma StepFills(c: Release, s: State, a: Action)
    requires c.WellFormed() && PrefixInv(c, s) && FillInv(c, s)
    ensures var s' := Step(c, s, a);
            s'.table.Rows? && !s'.torn && |s'.table.rows| < c.Count() ==> SomeoneInserting(s')
  {
    hide Insert, Release.Baseline, MigratedInv, IsPrefix;
    var s' := Step(c, s, a);
    StepMovesOne(c, s, a);
    StepKeepsRows(c, s, a);
    if a.p < |s.pods| {
      assert PodFits(c, s.table, s.pods[a.p]);
      assert s'.pods[a.p].Inserting? ==> SomeoneInserting(s');
    }
    if s.table.Rows? && !s.torn && |s.table.rows| < c.Count() {
      var p :| 0 <= p < |s.pods| && s.pods[p].Inserting?;
      assert p != a.p ==> s'.pods[p].Inserting?;
    }
  }

  // A pod gets past the baseline, or has migrated, by its own statement only.
  lemma StepPassesBaseline(c: Release, s: State, a: Action)
    requires PrefixInv(c, s) && FillInv(c, s)
    ensures var s' := Step(c, s, a);
            && (c.files == [] ==> s'.table.Absent?)
            && (a.p < |s.pods| && AfterBaseline(s'.pods[a.p]) && c.files != [] ==> s'.table.Rows?)
  {
    hide Insert, Release.Baseline, SomeoneInserting, IsPrefix, MigratedInv;
    if a.p < |s.pods| {
      assert PodFits(c, s.table, s.pods[a.p]);
    }
  }

  lemma StepKeepsFill(c: Release, s: State, a: Action)
    requires c.WellFormed() && PrefixInv(c, s) && FillInv(c, s)
    ensures FillInv(c, Step(c, s, a))
  {
    StepFills(c, s, a);
    StepKeepsRows(c, s, a);
    StepMovesOne(c, s, a);
    StepPassesBaseline(c, s, a);
    StepMigrates(c, s, a);
    hide Step, SomeoneInserting, PrefixInv, MigratedInv, AfterBaseline;
  }

  lemma {:induction false} RunFills(c: Release, n: nat, actions: seq<Action>)
    requires c.WellFormed()
    ensures FillInv(c, Run(c, Initial(n), actions))
  {
    hide Step;
    if actions != [] {
      hide FillInv, PrefixInv;
      RunFills(c, n, actions[..|actions| - 1]);
      RunKeepsPrefix(c, n, actions[..|actions| - 1]);
      StepKeepsFill(c, Run(c, Initial(n), actions[..|actions| - 1]), actions[|actions| - 1]);
    }
  }

  /** For every run, lost sessions included: a table that no pod is filling and that no
      pod died while filling has all its rows. */
  lemma UntornIsComplete(c: Release, n: nat, actions: seq<Action>)
    requires c.WellFormed()
    requires !exists i :: 0 <= i < |actions| && Tears(c, Initial(n), actions, i)
    ensures var s := Run(c, Initial(n), actions);
            s.table.Rows? && !SomeoneInserting(s) ==> IsPrefix(c, s.table.rows) && Complete(c, s.table.rows)
  {
    hide Run, Step, Tears, SomeoneInserting;
    TornByACrash(c, n, actions);
    RunFills(c, n, actions);
    RunKeepsPrefix(c, n, actions);
    var s := Run(c, Initial(n), actions);
    if s.table.Rows? {
      PrefixRecords(c, s.table.rows);
    }
    hide IsPrefix, Complete, RecordsOldest;
  }

  // The table without the times at which its rows were written.
  function Untimed(table: Table): Table {
    match table
    case Absent => Absent
    case Rows(rows) => Rows(seq(|rows|, i requires 0 <= i < |rows| => rows[i].(executedAt := 0)))
  }

  /** And so every such run, once a pod has finished, ends in the state of one
      sequential run but for those times: whatever sessions were lost. */
  lemma AnyUntornRunEndsAlike(c: Release, n: nat, actions: seq<Action>, p: nat, now: int)
    requires c.WellFormed()
    requires !exists i :: 0 <= i < |actions| && Tears(c, Initial(n), actions, i)
    requires var s := Run(c, Initial(n), actions);
             p < |s.pods| && s.pods[p].Finished? && !SomeoneInserting(s)
    ensures var s := Run(c, Initial(n), actions);
            var one := Run(c, Initial(1), Proceeds(c.Count() + 6, now));
            && (Untimed(s.table), s.migrated) == (Untimed(one.table), one.migrated) && s.migrated
            && (c.files != [] ==> s.table.Rows? && Complete(c, s.table.rows))
  {
    hide Run, Step, Tears, SomeoneInserting;
    var s := Run(c, Initial(n), actions);
    UntornIsComplete(c, n, actions);
    RunFills(c, n, actions);
    RunKeepsPrefix(c, n, actions);
    assert Initial(1) == Alone(Absent);
    AlonePodRunsTheBaseline(c, Absent, now, c.Count() + 5);
    if c.files != [] {
      forall i | 0 <= i < c.Count()
        ensures s.table.rows[i].(executedAt := 0) == c.Baselined(c.Count(), now)[i].(executedAt := 0)
      {
        assert IsBaseline(c, s.table.rows[i], i);
      }
      assert Untimed(s.table).rows == Untimed(Rows(c.Baselined(c.Count(), now))).rows;
    }
  }
}
