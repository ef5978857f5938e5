/** Interrupted seeding converges, keeps referential integrity at every moment and
    touches nothing but what it seeds and retires: for every safe program of steps. */
module SeedTheorems {

  import opened Wrappers
  import opened Seed

  lemma CompatibleSteps(steps: seq<Step>, s: Step, t: Step)
    requires SafeProgram(steps) && s in steps && t in steps
    ensures Compatible(s, t) && Compatible(t, s)
  {
    var i :| 0 <= i < |steps| && steps[i] == s;
    var j :| 0 <= j < |steps| && steps[j] == t;
    assert Compatible(steps[i], steps[j]) && Compatible(steps[j], steps[i]);
  }

  // ---------------------------------------------------------------- convergence

  // A complete run leaves nothing for another one to do.
  lemma {:induction false} AllDone(st: State, steps: seq<Step>, k: nat, ids: seq<UUID>, s: Step)
    requires SafeProgram(steps) && k <= |steps| && |ids| == k
    requires s in steps[..k]
    ensures Done(Run(st, steps[..k], ids), s)
  {
    hide Exec, Done, SafeProgram, Compatible;
    var last, before := steps[k - 1], Run(st, steps[..k - 1], ids[..k - 1]);
    assert steps[..k][..k - 1] == steps[..k - 1];
    assert steps[..k] == steps[..k - 1] + [last];
    if s == last {
      DoneAfter(before, s, ids[k - 1]);
    } else {
      AllDone(st, steps, k - 1, ids[..k - 1], s);
      CompatibleSteps(steps, s, last);
      DoneStays(before, s, last, ids[k - 1]);
    }
  }

  lemma {:induction false} NothingToDo(st: State, steps: seq<Step>, ids: seq<UUID>)
    requires |ids| == |steps| && forall s :: s in steps ==> Done(st, s)
    ensures Run(st, steps, ids) == st
  {
    hide Exec, Done;
    if steps != [] {
      var n := |steps| - 1;
      assert forall s :: s in steps[..n] ==> s in steps;
      NothingToDo(st, steps[..n], ids[..n]);
      assert steps[n] in steps;
      DoneChangesNothing(st, steps[n], ids[n]);
    }
  }

  /** A further run changes nothing. */
  lemma Idempotent(st: State, steps: seq<Step>, ids: seq<UUID>, again: seq<UUID>)
    requires SafeProgram(steps) && |ids| == |steps| == |again|
    ensures Run(Run(st, steps, ids), steps, again) == Run(st, steps, ids)
  {
    hide SafeProgram, Done, Run;
    assert steps[..|steps|] == steps;
    forall s | s in steps ensures Done(Run(st, steps, ids), s) {
      AllDone(st, steps, |steps|, ids, s);
    }
    NothingToDo(Run(st, steps, ids), steps, again);
  }

  // A state with nothing to do is its own outcome.
  lemma DoneIsSeeded(steps: seq<Step>, st: State)
    requires SafeProgram(steps) && forall s :: s in steps ==> Done(st, s)
    ensures Seeded(steps, st, Erase(st))
  {
    hide SafeProgram, Compatible, Apart;
    forall i | 0 <= i < |steps| ensures Done(st, steps[i]) {
      assert steps[i] in steps;
    }
    forall code | code in st.permissions ensures !RetiredCode(steps, code) {
      forall i | 0 <= i < |steps| && steps[i].DropPermissions? ensures !(steps[i].prefix <= code) {
        assert Done(st, steps[i]);
      }
    }
    forall k | k in st.configs ensures !RetiredKey(steps, k.key) {
      forall i | 0 <= i < |steps| && steps[i].DropConfigs? ensures k.key !in steps[i].keys {
        assert Done(st, steps[i]);
      }
    }
  }

  // Executing one of the steps does not change where seeding leads.
  lemma PermissionsLeadBack(steps: seq<Step>, st: State, s: Step, id: UUID, permissions: map<string, PermissionSeed>)
    requires s in steps && SeededPermissions(steps, Exec(st, s, id), permissions)
    ensures SeededPermissions(steps, st, permissions)
  {
    var st' := Exec(st, s, id);
    forall code | code in permissions
      ensures if code in st.permissions then permissions[code] == st.permissions[code].seed
              else EnsurePermission(permissions[code]) in steps && permissions[code].code == code
    {
      assert s.DropPermissions? && s.prefix <= code ==> RetiredCode(steps, code);
    }
    forall code | code in st.permissions && !RetiredCode(steps, code) ensures code in permissions {
      assert s.DropPermissions? && s.prefix <= code ==> RetiredCode(steps, code);
      assert code in st'.permissions;
    }
  }

  lemma ConfigsLeadBack(steps: seq<Step>, st: State, s: Step, id: UUID, configs: map<ConfigKey, seq<Config>>)
    requires s in steps && SeededConfigs(steps, Exec(st, s, id), configs)
    ensures SeededConfigs(steps, st, configs)
  {
    var st' := Exec(st, s, id);
    forall k | k in configs
      ensures if k in st.configs then configs[k] == st.configs[k]
              else k.tenant == None && |configs[k]| == 1 && EnsureConfig(k.key, configs[k][0]) in steps
    {
      assert s.DropConfigs? && k.key in s.keys ==> RetiredKey(steps, k.key);
    }
    forall k | k in st.configs && !RetiredKey(steps, k.key) ensures k in configs {
      assert s.DropConfigs? && k.key in s.keys ==> RetiredKey(steps, k.key);
      assert k in st'.configs;
    }
  }

  lemma RatesLeadBack(steps: seq<Step>, st: State, s: Step, id: UUID, rates: map<RateKey, Rate>)
    requires s in steps && SeededRates(steps, Exec(st, s, id), rates)
    ensures SeededRates(steps, st, rates)
  {
  }

  lemma GrantsLeadBack(steps: seq<Step>, st: State, s: Step, id: UUID, g: Grant)
    requires SafeProgram(steps) && s in steps
    requires s.DropPermissions? ==> Done(st, DropGrants(s.prefix))
    ensures var st' := Exec(st, s, id);
            g in st'.grants && !RetiredGrant(steps, st', g) <==> g in st.grants && !RetiredGrant(steps, st, g)
  {
    var st' := Exec(st, s, id);
    if g in st.grants {
      if s.EnsurePermission? && s.seed.code !in st.permissions {
        forall i | 0 <= i < |steps| && steps[i].DropPermissions? ensures !(steps[i].prefix <= s.seed.code) {
          CompatibleSteps(steps, s, steps[i]);
        }
        assert !RetiredCode(steps, s.seed.code);
        if RetiredGrant(steps, st, g) {
          var code :| code in st.permissions && st.permissions[code].id == g.permission && RetiredCode(steps, code);
          assert code in st'.permissions && st'.permissions[code].id == g.permission;
        }
      } else if s.DropPermissions? {
        if RetiredGrant(steps, st, g) {
          var code :| code in st.permissions && st.permissions[code].id == g.permission && RetiredCode(steps, code);
          assert g.permission !in IdsOf(st.permissions, s.prefix);
          assert code in st'.permissions;
        }
      } else if s.DropGrants? && g !in st'.grants {
        assert g.permission in IdsOf(st.permissions, s.prefix);
        var code :| code in st.permissions && s.prefix <= code && st.permissions[code].id == g.permission;
        var j :| 0 <= j < |steps| && steps[j] == DropPermissions(s.prefix);
        assert RetiredCode(steps, code);
      }
    }
  }

  lemma LeadsBack(steps: seq<Step>, st: State, s: Step, id: UUID, end: Content)
    requires SafeProgram(steps) && s in steps
    requires s.DropPermissions? ==> Done(st, DropGrants(s.prefix))
    requires Seeded(steps, Exec(st, s, id), end)
    ensures Seeded(steps, st, end)
  {
    hide SafeProgram, Exec, Done, SeededPermissions, SeededRates, SeededConfigs, RetiredGrant;
    RatesLeadBack(steps, st, s, id, end.rates);
    PermissionsLeadBack(steps, st, s, id, end.permissions);
    ConfigsLeadBack(steps, st, s, id, end.configs);
    forall g ensures g in end.grants <==> g in st.grants && !RetiredGrant(steps, st, g) {
      GrantsLeadBack(steps, st, s, id, g);
    }
  }

  // Neither does executing any number of them, from the first on.
  lemma {:induction false} PartLeadsBack(steps: seq<Step>, st: State, k: nat, ids: seq<UUID>, end: Content)
    requires SafeProgram(steps) && k <= |steps| && |ids| == k
    requires Seeded(steps, Run(st, steps[..k], ids), end)
    ensures Seeded(steps, st, end)
  {
    hide Exec, Done, Seeded;
    if k > 0 {
      var before := Run(st, steps[..k - 1], ids[..k - 1]);
      assert steps[..k][..k - 1] == steps[..k - 1];
      if steps[k - 1].DropPermissions? {
        assert steps[k - 2] in steps[..k - 1];
        AllDone(st, steps, k - 1, ids[..k - 1], steps[k - 2]);
      }
      assert steps[k - 1] in steps;
      LeadsBack(steps, before, steps[k - 1], ids[k - 1], end);
      PartLeadsBack(steps, st, k - 1, ids[..k - 1], end);
    }
  }

  // There is one outcome.
  lemma OneOutcome(steps: seq<Step>, st: State, a: Content, b: Content)
    requires SafeProgram(steps) && Seeded(steps, st, a) && Seeded(steps, st, b)
    ensures a == b
  {
    hide Compatible;
    forall code | code in a.permissions ensures code in b.permissions && a.permissions[code] == b.permissions[code] {
      if code !in st.permissions {
        var i :| 0 <= i < |steps| && steps[i] == EnsurePermission(a.permissions[code]);
        assert code in b.permissions;
        var j :| 0 <= j < |steps| && steps[j] == EnsurePermission(b.permissions[code]);
        SameSeed(steps, i, j);
      }
    }
    forall code | code in b.permissions ensures code in a.permissions {
      if code !in st.permissions {
        var i :| 0 <= i < |steps| && steps[i] == EnsurePermission(b.permissions[code]);
      }
    }
    assert a.permissions == b.permissions;
    forall k | k in a.rates ensures k in b.rates && a.rates[k] == b.rates[k] {
      if k !in st.rates {
        var i :| 0 <= i < |steps| && steps[i] == EnsureRate(k, a.rates[k]);
        assert k in b.rates;
        var j :| 0 <= j < |steps| && steps[j] == EnsureRate(k, b.rates[k]);
        SameSeed(steps, i, j);
      }
    }
    forall k | k in b.rates ensures k in a.rates {
      if k !in st.rates {
        var i :| 0 <= i < |steps| && steps[i] == EnsureRate(k, b.rates[k]);
      }
    }
    assert a.rates == b.rates;
    SameConfigs(steps, st, a.configs, b.configs);
    assert a.grants == b.grants;
  }

  lemma SameConfigs(steps: seq<Step>, st: State, a: map<ConfigKey, seq<Config>>, b: map<ConfigKey, seq<Config>>)
    requires SafeProgram(steps) && SeededConfigs(steps, st, a) && SeededConfigs(steps, st, b)
    ensures a == b
  {
    hide Compatible;
    forall k | k in a ensures k in b && a[k] == b[k] {
      if k !in st.configs {
        var i :| 0 <= i < |steps| && steps[i] == EnsureConfig(k.key, a[k][0]);
        assert k == ConfigKey(None, steps[i].key);
        var j :| 0 <= j < |steps| && steps[j] == EnsureConfig(k.key, b[k][0]);
        SameSeed(steps, i, j);
        assert a[k] == [a[k][0]] && b[k] == [b[k][0]];
      }
    }
    forall k | k in b ensures k in a {
      if k !in st.configs {
        var i :| 0 <= i < |steps| && steps[i] == EnsureConfig(k.key, b[k][0]);
        assert k == ConfigKey(None, steps[i].key);
      }
    }
  }

  lemma SameSeed(steps: seq<Step>, i: nat, j: nat)
    requires SafeProgram(steps) && i < |steps| && j < |steps| && !Apart(steps[i], steps[j])
    ensures steps[i] == steps[j]
  {
  }

  /** What a complete run leaves: retired rows and their grants are gone, every
      other row has the value it had, admin edits and tenant overrides included,
      and the seeded rows whose key was free are there, with the seeded values. */
  lemma CompleteRunSeeds(st: State, steps: seq<Step>, ids: seq<UUID>)
    requires SafeProgram(steps) && |ids| == |steps|
    ensures Seeded(steps, st, Erase(Run(st, steps, ids)))
  {
    hide SafeProgram, Done, Run, Seeded;
    assert steps[..|steps|] == steps;
    forall s | s in steps ensures Done(Run(st, steps, ids), s) {
      AllDone(st, steps, |steps|, ids, s);
    }
    DoneIsSeeded(steps, Run(st, steps, ids));
    PartLeadsBack(steps, st, |steps|, ids, Erase(Run(st, steps, ids)));
  }

  // Runs that were cut off after any number of steps, one after another.
  function Attempts(st: State, steps: seq<Step>, attempts: seq<seq<UUID>>): State
    requires forall i :: 0 <= i < |attempts| ==> |attempts[i]| <= |steps|
  {
    if attempts == [] then st
    else
      var n := |attempts| - 1;
      Run(Attempts(st, steps, attempts[..n]), steps[..|attempts[n]|], attempts[n])
  }

  lemma {:induction false} AttemptsLeadBack(st: State, steps: seq<Step>, attempts: seq<seq<UUID>>, end: Content)
    requires SafeProgram(steps) && forall i :: 0 <= i < |attempts| ==> |attempts[i]| <= |steps|
    requires Seeded(steps, Attempts(st, steps, attempts), end)
    ensures Seeded(steps, st, end)
  {
    hide SafeProgram, Seeded, Run;
    if attempts != [] {
      var n := |attempts| - 1;
      PartLeadsBack(steps, Attempts(st, steps, attempts[..n]), |attempts[n]|, attempts[n], end);
      AttemptsLeadBack(st, steps, attempts[..n], end);
    }
  }

  /** Seeding converges: any number of interruptions, each after any write, and
      then one complete run leave the same rows as one undisturbed run (but for
      the generated permission IDs). */
  lemma Converges(st: State, steps: seq<Step>, attempts: seq<seq<UUID>>, ids: seq<UUID>, undisturbed: seq<UUID>)
    requires SafeProgram(steps) && |ids| == |steps| == |undisturbed|
    requires forall i :: 0 <= i < |attempts| ==> |attempts[i]| <= |steps|
    ensures Erase(Run(Attempts(st, steps, attempts), steps, ids)) == Erase(Run(st, steps, undisturbed))
  {
    hide SafeProgram, Seeded, Run, Erase;
    var end := Erase(Run(Attempts(st, steps, attempts), steps, ids));
    CompleteRunSeeds(Attempts(st, steps, attempts), steps, ids);
    AttemptsLeadBack(st, steps, attempts, end);
    CompleteRunSeeds(st, steps, undisturbed);
    OneOutcome(steps, st, end, Erase(Run(st, steps, undisturbed)));
  }

  // --------------------------------------------------------- referential integrity

  // Every grant refers to a permission that exists.
  ghost predicate Integrity(st: State) {
    forall g :: g in st.grants ==> exists code :: code in st.permissions && st.permissions[code].id == g.permission
  }

  lemma StepKeepsIntegrity(st: State, s: Step, id: UUID)
    requires Integrity(st) && (s.DropPermissions? ==> Done(st, DropGrants(s.prefix)))
    ensures Integrity(Exec(st, s, id))
  {
    var st' := Exec(st, s, id);
    forall g | g in st'.grants
      ensures exists code :: code in st'.permissions && st'.permissions[code].id == g.permission
    {
      var code :| code in st.permissions && st.permissions[code].id == g.permission;
      if s.DropPermissions? {
        assert g.permission !in IdsOf(st.permissions, s.prefix);
      }
      assert code in st'.permissions && st'.permissions[code].id == g.permission;
    }
  }

  /** Integrity holds after every single write of every attempt, so that the
      database never has to refuse one for its foreign key. */
  lemma {:induction false} IntegrityAtEveryMoment(st: State, steps: seq<Step>, k: nat, ids: seq<UUID>)
    requires SafeProgram(steps) && k <= |steps| && |ids| == k && Integrity(st)
    ensures Integrity(Run(st, steps[..k], ids))
  {
    hide Exec, Done, Integrity;
    if k > 0 {
      assert steps[..k][..k - 1] == steps[..k - 1];
      IntegrityAtEveryMoment(st, steps, k - 1, ids[..k - 1]);
      if steps[k - 1].DropPermissions? {
        assert steps[k - 2] in steps[..k - 1];
        AllDone(st, steps, k - 1, ids[..k - 1], steps[k - 2]);
      }
      StepKeepsIntegrity(Run(st, steps[..k - 1], ids[..k - 1]), steps[k - 1], ids[k - 1]);
    }
  }

  lemma {:induction false} AttemptsKeepIntegrity(st: State, steps: seq<Step>, attempts: seq<seq<UUID>>)
    requires SafeProgram(steps) && forall i :: 0 <= i < |attempts| ==> |attempts[i]| <= |steps|
    requires Integrity(st)
    ensures Integrity(Attempts(st, steps, attempts))
  {
    hide SafeProgram, Integrity, Run;
    if attempts != [] {
      var n := |attempts| - 1;
      AttemptsKeepIntegrity(st, steps, attempts[..n]);
      IntegrityAtEveryMoment(Attempts(st, steps, attempts[..n]), steps, |attempts[n]|, attempts[n]);
    }
  }
}
