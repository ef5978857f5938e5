/** Any number of pods starting up at once: the advisory lock, the baseline and
    the schema migration of cmd/migrate as a protocol, with pods that crash and
    restart at any point and database sessions that are lost. */
module MigrateProtocol {

  import opened Wrappers
  import opened Migrate

  // Where a pod is: what its next statement will be.
  datatype Pc =
    | Idle                             // pg_advisory_lock
    | Locked                           // is there a revision table?
    | Creating                         // CREATE TABLE IF NOT EXISTS
    | Inserting(next: nat, when: int)  // INSERT row `next`, if there are more
    | Migrating                        // Schema.Create
    | Unlocking                        // pg_advisory_unlock
    | Finished
    | Dead

  /** `holder` is the pod whose session has the lock. `torn` and `stamp` are
      history: a pod died between creating the table and its last row, and the
      time at which the pod that created the table began to fill it. */
  datatype State = State(
    holder: Option<nat>,
    pods: seq<Pc>,
    table: Table,
    migrated: bool,
    torn: bool,
    stamp: int
  )

  /** Proceed: the pod executes its next statement. Crash: the process ends, be
      it killed or by log.Fatalf after a failed statement, and its session with
      it. LoseSession: the pod's connection breaks between two statements (a server
      restart, a terminated backend, the network), which frees the lock; the pool
      opens a new one for the next statement, and the pod goes on. */
  datatype Action = Proceed(p: nat, now: int) | Crash(p: nat) | Restart(p: nat) | LoseSession(p: nat)

  predicate Critical(pc: Pc) {
    pc.Locked? || pc.Creating? || pc.Inserting? || pc.Migrating? || pc.Unlocking?
  }

  function Freed(holder: Option<nat>, p: nat): Option<nat> {
    if holder == Some(p) then None else holder
  }

  function Advance(c: Release, s: State, p: nat, now: int): State
    requires p < |s.pods|
  {
    match s.pods[p]
    case Idle =>
      if s.holder.Some? then s else s.(holder := Some(p), pods := s.pods[p := Locked])
    case Locked =>
      s.(pods := s.pods[p := if s.table.Rows? || c.files == [] then Migrating else Creating])
    case Creating =>
      s.(table := if s.table.Absent? then Rows([]) else s.table,
         stamp := if s.table.Absent? then now else s.stamp,
         pods := s.pods[p := Inserting(0, now)])
    case Inserting(next, when) =>
      if next < c.Count() && s.table.Rows? then
        s.(table := Rows(Insert(s.table.rows, c.Baseline(next, when))), pods := s.pods[p := Inserting(next + 1, when)])
      else
        s.(pods := s.pods[p := Migrating])
    case Migrating => s.(migrated := true, pods := s.pods[p := Unlocking])
    case Unlocking => s.(holder := Freed(s.holder, p), pods := s.pods[p := Finished])
    case _ => s
  }

  // One action. An action that is not possible in s leaves it as it is.
  function Step(c: Release, s: State, a: Action): State {
    if a.p >= |s.pods| then s
    else
      match a
      case Proceed(p, now) => Advance(c, s, p, now)
      case Crash(p) =>
        if s.pods[p].Finished? || s.pods[p].Dead? then s
        else
          s.(holder := Freed(s.holder, p), pods := s.pods[p := Dead],
             torn := s.torn || (s.pods[p].Inserting? && s.pods[p].next < c.Count()))
      case Restart(p) =>
        if s.pods[p].Finished? || s.pods[p].Dead? then s.(pods := s.pods[p := Idle]) else s
      case LoseSession(p) => s.(holder := Freed(s.holder, p))
  }

  function Run(c: Release, s: State, actions: seq<Action>): State {
    if actions == [] then s else Step(c, Run(c, s, actions[..|actions| - 1]), actions[|actions| - 1])
  }

  // n pods about to start on a database that was never baselined.
  function Initial(n: nat): State {
    State(None, seq(n, _ => Idle), Absent, false, false, 0)
  }

  // -------------------------------------------- what holds even when sessions are lost

  ghost predicate TableFits(c: Release, table: Table) {
    table.Rows? ==> IsPrefix(c, table.rows)
  }

  // A pod that fills the table has at most the next row to insert.
  ghost predicate PodFits(c: Release, table: Table, pc: Pc) {
    && (pc.Inserting? ==> table.Rows? && c.files != [] && pc.next <= |table.rows|)
    && (pc.Creating? ==> c.files != [])
  }

  ghost predicate PrefixInv(c: Release, s: State) {
    TableFits(c, s.table) && forall p :: 0 <= p < |s.pods| ==> PodFits(c, s.table, s.pods[p])
  }

  ghost predicate Grows(table: Table, later: Table) {
    table.Rows? ==> later.Rows? && |table.rows| <= |later.rows|
  }

  lemma InsertingFits(c: Release, s: State, p: nat, now: int)
    requires c.WellFormed() && PrefixInv(c, s) && p < |s.pods| && s.pods[p].Inserting?
    ensures var s' := Advance(c, s, p, now);
            Grows(s.table, s'.table) && TableFits(c, s'.table) && PodFits(c, s'.table, s'.pods[p])
  {
    hide Insert, IsPrefix, Release.Baseline;
    assert PodFits(c, s.table, s.pods[p]);
    if s.pods[p].next < c.Count() {
      InsertKeepsPrefix(c, s.table.rows, s.pods[p].next, s.pods[p].when);
    }
  }

  lemma AdvanceFits(c: Release, s: State, p: nat, now: int)
    requires c.WellFormed() && PrefixInv(c, s) && p < |s.pods|
    ensures var s' := Advance(c, s, p, now);
            Grows(s.table, s'.table) && TableFits(c, s'.table) && PodFits(c, s'.table, s'.pods[p])
  {
    hide Insert, Release.Baseline;
    assert PodFits(c, s.table, s.pods[p]);
    if s.pods[p].Inserting? {
      InsertingFits(c, s, p, now);
    }
  }

  // An action moves its own pod only.
  lemma StepMovesOne(c: Release, s: State, a: Action)
    ensures var s' := Step(c, s, a);
            && |s'.pods| == |s.pods|
            && forall q :: 0 <= q < |s.pods| && q != a.p ==> s'.pods[q] == s.pods[q]
  {
    hide Insert, Release.Baseline;
  }

  lemma StepKeepsPrefix(c: Release, s: State, a: Action)
    requires c.WellFormed() && PrefixInv(c, s)
    ensures PrefixInv(c, Step(c, s, a))
  {
    hide Advance, IsPrefix;
    var s' := Step(c, s, a);
    StepMovesOne(c, s, a);
    if a.Proceed? && a.p < |s.pods| {
      AdvanceFits(c, s, a.p, a.now);
    }
    forall q | 0 <= q < |s'.pods| ensures PodFits(c, s'.table, s'.pods[q]) {
      assert PodFits(c, s.table, s.pods[q]);
    }
  }

  lemma {:induction false} RunKeepsPrefix(c: Release, n: nat, actions: seq<Action>)
    requires c.WellFormed()
    ensures PrefixInv(c, Run(c, Initial(n), actions))
  {
    hide Step;
    if actions != [] {
      hide PrefixInv;
      RunKeepsPrefix(c, n, actions[..|actions| - 1]);
      StepKeepsPrefix(c, Run(c, Initial(n), actions[..|actions| - 1]), actions[|actions| - 1]);
    }
  }

  /** At every moment of every run, with any crashes and any lost sessions, the
      revision rows are those of files[0..k) with their atlas.sum hashes, for some
      k below the number of files, and the newest migration is never among them. */
  lemma RowsAreAlwaysAPrefix(c: Release, n: nat, actions: seq<Action>)
    requires c.WellFormed()
    ensures var s := Run(c, Initial(n), actions);
            s.table.Rows? ==>
              && IsPrefix(c, s.table.rows) && RecordsOldest(c, s.table.rows)
              && forall i :: 0 <= i < |s.table.rows| ==>
                   s.table.rows[i].version + ".sql" != c.files[|c.files| - 1]
  {
    hide Step, Run, TrimSql;
    RunKeepsPrefix(c, n, actions);
    var s := Run(c, Initial(n), actions);
    if s.table.Rows? {
      PrefixRecords(c, s.table.rows);
      forall i | 0 <= i < |s.table.rows| ensures s.table.rows[i].version + ".sql" != c.files[|c.files| - 1] {
        assert Records(c, s.table.rows[i], c.files[i]);
      }
    }
  }

  // ------------------------------------------------- while the lock's session holds

  /** The lock is with the one pod in its critical section; the pod that fills the
      table has written exactly the rows before `next`; and when nobody is filling
      it, the table is complete unless it is torn. */
  ghost predicate LockInv(c: Release, s: State) {
    && (forall p :: 0 <= p < |s.pods| ==> (Critical(s.pods[p]) <==> s.holder == Some(p)))
    && (s.holder.Some? ==> s.holder.value < |s.pods|)
    && (s.table.Absent? ==> !s.torn)
    && (s.table.Rows? ==>
          && c.files != [] && |s.table.rows| <= c.Count()
          && s.table.rows == c.Baselined(|s.table.rows|, s.stamp))
    && (forall p :: 0 <= p < |s.pods| && s.pods[p].Creating? ==> s.table.Absent? && c.files != [])
    && (forall p :: 0 <= p < |s.pods| && s.pods[p].Inserting? ==>
          && s.table.Rows? && !s.torn && s.pods[p].when == s.stamp && s.pods[p].next == |s.table.rows|)
    && (s.table.Rows? && Filler(s).None? ==> (s.torn <==> |s.table.rows| < c.Count()))
    && (forall p :: 0 <= p < |s.pods| && AfterBaseline(s.pods[p]) && c.files != [] ==> Settled(s))
  }

  // The table exists and nobody is filling it.
  predicate Settled(s: State) {
    s.table.Rows? && Filler(s).None?
  }

  // The pod that is filling the table.
  function Filler(s: State): Option<nat> {
    if s.holder.Some? && s.holder.value < |s.pods| && s.pods[s.holder.value].Inserting? then s.holder else None
  }

  predicate AfterBaseline(pc: Pc) {
    pc.Migrating? || pc.Unlocking? || pc.Finished?
  }

  // The action does not take the session away from the pod that holds the lock.
  predicate Harmless(s: State, a: Action) {
    a.LoseSession? ==> s.holder != Some(a.p)
  }

  // No action of the run does.
  ghost predicate LockKept(c: Release, s: State, actions: seq<Action>) {
    forall i :: 0 <= i < |actions| ==> Harmless(Run(c, s, actions[..i]), actions[i])
  }

  lemma LockKeptBefore(c: Release, s: State, actions: seq<Action>)
    requires LockKept(c, s, actions) && actions != []
    ensures LockKept(c, s, actions[..|actions| - 1])
    ensures Harmless(Run(c, s, actions[..|actions| - 1]), actions[|actions| - 1])
  {
    hide Run, Harmless;
    var init := actions[..|actions| - 1];
    forall i | 0 <= i < |init| ensures Harmless(Run(c, s, init[..i]), init[i]) {
      assert init[..i] == actions[..i];
    }
  }

  lemma StepKeepsLock(c: Release, s: State, a: Action)
    requires c.WellFormed() && LockInv(c, s) && Harmless(s, a)
    ensures LockInv(c, Step(c, s, a))
  {
    hide LockInv, Advance;
    if a.Proceed? && a.p < |s.pods| {
      ProceedKeepsLock(c, s, a.p, a.now);
    } else {
      OthersKeepLock(c, s, a);
    }
  }

  lemma ProceedKeepsLock(c: Release, s: State, p: nat, now: int)
    requires c.WellFormed() && LockInv(c, s) && p < |s.pods|
    ensures LockInv(c, Advance(c, s, p, now))
  {
    hide LockInv;
    match s.pods[p]
    case Idle => IdleKeepsLock(c, s, p, now);
    case Locked => LockedKeepsLock(c, s, p, now);
    case Creating => CreatingKeepsLock(c, s, p, now);
    case Inserting(_, _) => InsertingKeepsLock(c, s, p, now);
    case Migrating => LastStepsKeepLock(c, s, p, now);
    case Unlocking => LastStepsKeepLock(c, s, p, now);
    case _ =>
  }

  lemma OthersKeepLock(c: Release, s: State, a: Action)
    requires LockInv(c, s) && Harmless(s, a) && !(a.Proceed? && a.p < |s.pods|)
    ensures LockInv(c, Step(c, s, a))
  {
    hide Release.Baselined, Advance;
  }

  lemma InsertingKeepsLock(c: Release, s: State, p: nat, now: int)
    requires c.WellFormed() && LockInv(c, s) && p < |s.pods| && s.pods[p].Inserting?
    ensures LockInv(c, Advance(c, s, p, now))
  {
    hide Insert, Release.Baselined, Release.Baseline;
    if s.pods[p].next < c.Count() {
      var j, when := s.pods[p].next, s.pods[p].when;
      BaselinedIsPrefix(c, j, when);
      InsertNext(c, s.table.rows, j, when);
      BaselinedOneMore(c, j, when);
    }
  }

  lemma CreatingKeepsLock(c: Release, s: State, p: nat, now: int)
    requires LockInv(c, s) && p < |s.pods| && s.pods[p].Creating?
    ensures LockInv(c, Advance(c, s, p, now))
  {
    hide Release.Baselined;
    BaselinedNone(c, now);
  }

  lemma IdleKeepsLock(c: Release, s: State, p: nat, now: int)
    requires LockInv(c, s) && p < |s.pods| && s.pods[p].Idle?
    ensures LockInv(c, Advance(c, s, p, now))
  {
    hide Release.Baselined;
  }

  lemma LockedKeepsLock(c: Release, s: State, p: nat, now: int)
    requires LockInv(c, s) && p < |s.pods| && s.pods[p].Locked?
    ensures LockInv(c, Advance(c, s, p, now))
  {
    hide Release.Baselined;
  }

  lemma LastStepsKeepLock(c: Release, s: State, p: nat, now: int)
    requires LockInv(c, s) && p < |s.pods| && (s.pods[p].Migrating? || s.pods[p].Unlocking?)
    ensures LockInv(c, Advance(c, s, p, now))
  {
    hide Release.Baselined;
  }

  lemma {:induction false} RunKeepsLock(c: Release, s: State, actions: seq<Action>)
    requires c.WellFormed() && LockInv(c, s) && LockKept(c, s, actions)
    ensures LockInv(c, Run(c, s, actions))
  {
    hide LockInv, Step, LockKept, Harmless;
    if actions != [] {
      LockKeptBefore(c, s, actions);
      RunKeepsLock(c, s, actions[..|actions| - 1]);
      StepKeepsLock(c, Run(c, s, actions[..|actions| - 1]), actions[|actions| - 1]);
    }
  }

  // Two pods are between lock and unlock.
  ghost predicate Broken(s: State) {
    exists p, q :: 0 <= p < q < |s.pods| && Critical(s.pods[p]) && Critical(s.pods[q])
  }

  /** Over every run in which every session that is lost is one without the lock,
      at most one pod is between lock and unlock. */
  lemma MutualExclusion(c: Release, n: nat, actions: seq<Action>)
    requires c.WellFormed() && LockKept(c, Initial(n), actions)
    ensures !Broken(Run(c, Initial(n), actions))
  {
    hide Run, Step, LockKept, Release.Baselined;
    InitialLock(c, n);
    RunKeepsLock(c, Initial(n), actions);
  }

  lemma InitialLock(c: Release, n: nat)
    ensures LockInv(c, Initial(n))
  {
  }

  /** The condition is exact. Where exclusion holds, losing pod p's session opens
      the way to two pods between lock and unlock, with no further session of a lock
      holder lost, iff p holds the lock and there is another pod at all. */
  lemma BreakableIff(c: Release, s: State, p: nat)
    requires c.WellFormed() && LockInv(c, s)
    ensures var lost := Step(c, s, LoseSession(p));
            (exists more :: LockKept(c, lost, more) && Broken(Run(c, lost, more))) <==>
            s.holder == Some(p) && |s.pods| >= 2
  {
    hide LockKept, Run, Advance, Release.Baselined;
    var lost := Step(c, s, LoseSession(p));
    if s.holder == Some(p) && |s.pods| >= 2 {
      var q := if p == 0 then 1 else 0;
      var more := BreaksIn(c, s, p, q);
    } else {
      forall more | LockKept(c, lost, more) ensures !Broken(Run(c, lost, more)) {
        if s.holder == Some(p) {
          RunKeepsCount(c, lost, more);
        } else {
          RunKeepsLock(c, lost, more);
        }
      }
    }
  }

  lemma {:induction false} RunKeepsCount(c: Release, s: State, actions: seq<Action>)
    ensures |Run(c, s, actions).pods| == |s.pods|
  {
    hide Step;
    if actions != [] {
      RunKeepsCount(c, s, actions[..|actions| - 1]);
      StepMovesOne(c, Run(c, s, actions[..|actions| - 1]), actions[|actions| - 1]);
    }
  }

  /** The pod that holds the lock loses its session: one statement of a pod that
      waits for the lock is enough, and a pod that is done only has to restart. */
  lemma BreaksIn(c: Release, s: State, p: nat, q: nat) returns (more: seq<Action>)
    requires LockInv(c, s) && s.holder == Some(p) && q < |s.pods| && q != p
    ensures var lost := Step(c, s, LoseSession(p));
            LockKept(c, lost, more) && Broken(Run(c, lost, more))
    ensures s.pods[q].Idle? ==> more == [Proceed(q, 0)]
    ensures |more| <= 2
  {
    hide Release.Baselined;
    var lost := Step(c, s, LoseSession(p));
    assert lost.pods == s.pods && Critical(s.pods[p]) && !Critical(s.pods[q]);
    if s.pods[q].Idle? {
      more := [Proceed(q, 0)];
      RunOne(c, lost, Proceed(q, 0));
      TwoIn(Run(c, lost, more), p, q);
    } else {
      more := [Restart(q), Proceed(q, 0)];
      var restarted := Step(c, lost, Restart(q));
      RunOne(c, lost, Restart(q));
      RunOne(c, restarted, Proceed(q, 0));
      RunSplits(c, lost, [Restart(q)], [Proceed(q, 0)]);
      assert [Restart(q)] + [Proceed(q, 0)] == more;
      TwoIn(Run(c, lost, more), p, q);
    }
  }

  /** One session lost at the wrong moment is enough, from the very start: the pod
      that has the lock loses it, and a second pod gets in. */
  lemma LostSessionLetsTwoIn(c: Release)
    ensures var actions := [Proceed(0, 0), LoseSession(0), Proceed(1, 0)];
            Broken(Run(c, Initial(2), actions)) && !LockKept(c, Initial(2), actions)
  {
    var actions := [Proceed(0, 0), LoseSession(0), Proceed(1, 0)];
    var s1 := Step(c, Initial(2), Proceed(0, 0));
    var s2 := Step(c, s1, LoseSession(0));
    RunOne(c, Initial(2), Proceed(0, 0));
    RunOne(c, s1, LoseSession(0));
    RunOne(c, s2, Proceed(1, 0));
    RunSplits(c, Initial(2), [Proceed(0, 0)], [LoseSession(0)]);
    RunSplits(c, Initial(2), [Proceed(0, 0)] + [LoseSession(0)], [Proceed(1, 0)]);
    assert [Proceed(0, 0)] + [LoseSession(0)] + [Proceed(1, 0)] == actions;
    TwoIn(Run(c, Initial(2), actions), 0, 1);
    assert actions[..1] == [Proceed(0, 0)];
    assert !Harmless(Run(c, Initial(2), actions[..1]), actions[1]);
  }

  lemma RunOne(c: Release, s: State, a: Action)
    ensures Run(c, s, [a]) == Step(c, s, a)
  {
    hide Step;
    assert [a][..0] == [];
  }

  lemma TwoIn(s: State, p: nat, q: nat)
    requires p < |s.pods| && q < |s.pods| && p != q && Critical(s.pods[p]) && Critical(s.pods[q])
    ensures Broken(s)
  {
    var lo, hi := if p < q then p else q, if p < q then q else p;
    assert Critical(s.pods[lo]) && Critical(s.pods[hi]);
  }

  lemma {:induction false} RunSplits(c: Release, s: State, some: seq<Action>, more: seq<Action>)
    ensures Run(c, s, some + more) == Run(c, Run(c, s, some), more)
  {
    if more == [] {
      assert some + more == some;
    } else {
      var init, last := more[..|more| - 1], more[|more| - 1];
      assert (some + more)[..|some + more| - 1] == some + init;
      RunSplits(c, s, some, init);
    }
  }
}
