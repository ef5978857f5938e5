/** runSeed over the database, statement by statement. */
module SeedStore {

  import opened Wrappers
  import opened Seed
  import opened SeedTheorems
  import opened SeedProgram
  import opened SeedOutcome

  // The writes that were done, or were found done, since the run began.
  datatype Progress = Progress(start: State, executed: seq<Step>, ids: seq<UUID>)

  // Of these steps, a beginning has been executed, and all of them iff ok.
  ghost predicate Extends(before: Progress, after: Progress, steps: seq<Step>, ok: bool) {
    && after.start == before.start
    && exists n: nat :: n <= |steps| && after.executed == before.executed + steps[..n] && (ok <==> n == |steps|)
  }

  /** Statements are the only reason for failing, and a step takes at most two: with
      h of them left before and h1 after, the steps up to `after` were paid for, and
      a failure means that the next one could not be. */
  ghost predicate Spent(before: Progress, after: Progress, h: nat, h1: nat, ok: bool) {
    && |before.executed| <= |after.executed|
    && var cost := 2 * (|after.executed| - |before.executed|);
       if ok then h <= h1 + cost else h1 == 0 && h <= cost + 1
  }

  lemma Executed(before: Progress, after: Progress, steps: seq<Step>, ok: bool, done: seq<Step>)
    requires after.start == before.start && after.executed == before.executed + done
    requires done <= steps && (ok <==> done == steps)
    ensures Extends(before, after, steps, ok)
  {
    assert steps[..|done|] == done;
  }

  // Parts that were executed one after another.
  lemma ExtendsFurther(first: Progress, second: Progress, third: Progress, some: seq<Step>, more: seq<Step>, ok: bool)
    requires Extends(first, second, some, true) && Extends(second, third, more, ok)
    ensures Extends(first, third, some + more, ok)
  {
    assert some[..|some|] == some;
    var n: nat :| n <= |more| && third.executed == second.executed + more[..n] && (ok <==> n == |more|);
    assert (some + more)[..|some| + n] == some + more[..n];
  }

  lemma ExtendsLonger(first: Progress, second: Progress, some: seq<Step>, more: seq<Step>)
    requires Extends(first, second, some, false)
    ensures Extends(first, second, some + more, false)
  {
    var n: nat :| n < |some| && second.executed == first.executed + some[..n];
    assert (some + more)[..n] == some[..n];
  }

  /** The database as one seeder sees it. It executes `healthy` more statements and
      then fails, be it an error, a timeout or the death of the process. */
  class Store {
    var permissions: map<string, Permission>
    var grants: set<Grant>
    var rates: map<RateKey, Rate>
    var configs: map<ConfigKey, seq<Config>>
    var healthy: nat
    var nextId: UUID  // what uuid.New returns next; it never repeats an ID

    ghost function Contents(): State
      reads this
    {
      State(permissions, grants, rates, configs)
    }

    // id is the primary key of the permissions.
    ghost predicate Valid()
      reads this
    {
      && (forall c, d :: c in permissions && d in permissions && c != d ==> permissions[c].id != permissions[d].id)
      && forall c :: c in permissions ==> permissions[c].id < nextId
    }

    // The tables are where this progress leads.
    ghost predicate Reached(p: Progress)
      reads this
    {
      Valid() && |p.ids| == |p.executed| && Contents() == Run(p.start, p.executed, p.ids)
    }

    method Statement() returns (ok: bool)
      modifies this`healthy
      ensures ok == (old(healthy) > 0)
      ensures healthy == if ok then old(healthy) - 1 else 0
    {
      ok := healthy > 0;
      if ok {
        healthy := healthy - 1;
      }
    }

    // The body of the loops in seedPermissions.
    method EnsureOnePermission(seed: PermissionSeed, ghost before: Progress) returns (ok: bool, ghost after: Progress)
      requires Reached(before)
      modifies this
      ensures Spent(before, after, old(healthy), healthy, ok)
      ensures Reached(after) && after.start == before.start
      ensures after.executed == before.executed + if ok then [EnsurePermission(seed)] else []
    {
      hide Run;
      after := before;
      ok := Statement();
      if !ok {
        return;
      }
      ghost var id := 0;
      if seed.code !in permissions {
        ok := Statement();
        if !ok {
          return;
        }
        id := nextId;
        permissions := permissions[seed.code := Permission(nextId, seed)];
        nextId := nextId + 1;
      }
      RunOneMore(before.start, before.executed, before.ids, EnsurePermission(seed), id);
      after := Progress(before.start, before.executed + [EnsurePermission(seed)], before.ids + [id]);
    }

    method SeedPermissions(ghost before: Progress) returns (ok: bool, ghost after: Progress)
      requires Reached(before)
      modifies this
      ensures Spent(before, after, old(healthy), healthy, ok)
      ensures Reached(after) && Extends(before, after, PermissionSteps(), ok)
    {
      hide MODULES, ACTIONS, TASK_OVERRIDE, GridSeed, Exec, GridSteps, RowSteps, Run, Reached, Extends;
      after := before;
      ghost var done: seq<Step> := [];
      GridStart();
      for i := 0 to |MODULES|
        invariant Reached(after) && after.start == before.start && Spent(before, after, old(healthy), healthy, true)
        invariant after.executed == before.executed + done
        invariant done == GridSteps(MODULES[..i], ACTIONS)
      {
        RowStart(MODULES[i]);
        for j := 0 to |ACTIONS|
          invariant Reached(after) && after.start == before.start && Spent(before, after, old(healthy), healthy, true)
          invariant after.executed == before.executed + done
          invariant done == GridSteps(MODULES[..i], ACTIONS) + RowSteps(MODULES[i], ACTIONS[..j])
        {
          GridPrefix(MODULES, ACTIONS, i, j);
          ok, after := EnsureOnePermission(GridSeed(MODULES[i], ACTIONS[j]), after);
          if !ok {
            Executed(before, after, PermissionSteps(), false, done);
            return;
          }
          RowOneMore(MODULES[i], ACTIONS, j);
          done := done + [EnsurePermission(GridSeed(MODULES[i], ACTIONS[j]))];
        }
        assert ACTIONS[..|ACTIONS|] == ACTIONS;
        GridOneMore(MODULES, ACTIONS, i);
      }
      assert MODULES[..|MODULES|] == MODULES;
      ok, after := EnsureOnePermission(TASK_OVERRIDE, after);
      done := done + if ok then [EnsurePermission(TASK_OVERRIDE)] else [];
      Executed(before, after, PermissionSteps(), ok, done);
    }

    // The body of the loop in seedRateLimitConfigs.
    method EnsureOneRate(key: RateKey, rate: Rate, ghost before: Progress) returns (ok: bool, ghost after: Progress)
      requires Reached(before)
      modifies this`rates, this`healthy
      ensures Spent(before, after, old(healthy), healthy, ok)
      ensures Reached(after) && after.start == before.start
      ensures after.executed == before.executed + if ok then [EnsureRate(key, rate)] else []
    {
      hide Run;
      after := before;
      ok := Statement();
      if !ok {
        return;
      }
      if key !in rates {
        ok := Statement();
        if !ok {
          return;
        }
        rates := rates[key := rate];
      }
      RunOneMore(before.start, before.executed, before.ids, EnsureRate(key, rate), 0);
      after := Progress(before.start, before.executed + [EnsureRate(key, rate)], before.ids + [0]);
    }

    method SeedRateLimitConfigs(ghost before: Progress) returns (ok: bool, ghost after: Progress)
      requires Reached(before)
      modifies this
      ensures Spent(before, after, old(healthy), healthy, ok)
      ensures Reached(after) && Extends(before, after, RateSteps(), ok)
    {
      hide RATES, Exec, Run, Reached, Extends;
      after := before;
      ghost var done: seq<Step> := [];
      for i := 0 to |RATES|
        invariant Reached(after) && after.start == before.start && Spent(before, after, old(healthy), healthy, true)
        invariant after.executed == before.executed + done
        invariant done == RateSteps()[..i]
      {
        ok, after := EnsureOneRate(RATES[i].0, RATES[i].1, after);
        if !ok {
          Executed(before, after, RateSteps(), false, done);
          return;
        }
        done := done + [EnsureRate(RATES[i].0, RATES[i].1)];
      }
      ok := true;
      Executed(before, after, RateSteps(), ok, done);
    }

    // One round of the loop over the retired prefixes.
    method RemovePrefix(prefix: string, ghost before: Progress) returns (ok: bool, ghost after: Progress)
      requires Reached(before)
      modifies this`permissions, this`grants, this`healthy
      ensures Spent(before, after, old(healthy), healthy, ok)
      ensures Reached(after) && after.start == before.start
      ensures after.executed == before.executed
           || after.executed == before.executed + [DropGrants(prefix)]
           || after.executed == before.executed + [DropGrants(prefix)] + [DropPermissions(prefix)]
      ensures ok <==> after.executed == before.executed + [DropGrants(prefix)] + [DropPermissions(prefix)]
    {
      hide Run, Exec;
      after := before;
      ok := Statement();
      if !ok {
        return;
      }
      var retired := set code | code in permissions && prefix <= code :: permissions[code].id;
      ghost var found := Contents();
      assert retired == IdsOf(found.permissions, prefix);
      if retired == {} {
        NothingRetired(found, prefix);
        after := Append(Append(before, DropGrants(prefix)), DropPermissions(prefix));
        return;
      }
      ok := Statement();
      if !ok {
        return;
      }
      grants := set g | g in grants && g.permission !in retired;
      DropsGrants(found, prefix, Contents());
      after := Append(before, DropGrants(prefix));
      ok := Statement();
      if !ok {
        return;
      }
      ghost var between := Contents();
      permissions := map code | code in permissions && permissions[code].id !in retired :: permissions[code];
      DropsPermissions(between, prefix, Contents());
      after := Append(after, DropPermissions(prefix));
    }

    method RemoveRetiredSeedRows(ghost before: Progress) returns (ok: bool, ghost after: Progress)
      requires Reached(before)
      modifies this
      ensures Spent(before, after, old(healthy), healthy, ok)
      ensures Reached(after) && Extends(before, after, RetireSteps(), ok)
    {
      hide RETIRED_PREFIXES, RETIRED_KEYS, DropSteps, Run, Exec, Reached, Extends;
      after := before;
      ghost var done: seq<Step> := [];
      DropStart();
      for i := 0 to |RETIRED_PREFIXES|
        invariant Reached(after) && after.start == before.start && Spent(before, after, old(healthy), healthy, true)
        invariant after.executed == before.executed + done
        invariant done == DropSteps(RETIRED_PREFIXES[..i])
      {
        DropPrefix(RETIRED_PREFIXES, i);
        ghost var grantsOnly, both := done + [DropGrants(RETIRED_PREFIXES[i])], DropSteps(RETIRED_PREFIXES[..i + 1]);
        assert done <= RetireSteps() && grantsOnly <= RetireSteps() && both <= RetireSteps();
        assert before.executed + grantsOnly == before.executed + done + [DropGrants(RETIRED_PREFIXES[i])];
        assert before.executed + both == before.executed + grantsOnly + [DropPermissions(RETIRED_PREFIXES[i])];
        ok, after := RemovePrefix(RETIRED_PREFIXES[i], after);
        if !ok {
          done := if after.executed == before.executed + done then done
                  else if after.executed == before.executed + grantsOnly then grantsOnly else both;
          Executed(before, after, RetireSteps(), false, done);
          return;
        }
        done := both;
      }
      assert RETIRED_PREFIXES[..|RETIRED_PREFIXES|] == RETIRED_PREFIXES;
      ok, after := RemoveConfigs(RETIRED_KEYS, after);
      done := done + if ok then [DropConfigs(RETIRED_KEYS)] else [];
      Executed(before, after, RetireSteps(), ok, done);
    }

    method RemoveConfigs(keys: seq<string>, ghost before: Progress) returns (ok: bool, ghost after: Progress)
      requires Reached(before)
      modifies this`configs, this`healthy
      ensures Spent(before, after, old(healthy), healthy, ok)
      ensures Reached(after) && after.start == before.start
      ensures after.executed == before.executed + if ok then [DropConfigs(keys)] else []
    {
      hide Run;
      after := before;
      ok := Statement();
      if !ok {
        return;
      }
      configs := map k | k in configs && k.key !in keys :: configs[k];
      RunOneMore(before.start, before.executed, before.ids, DropConfigs(keys), 0);
      after := Append(before, DropConfigs(keys));
    }

    // The body of the loop in seedServiceConfigs.
    method EnsureOneConfig(key: string, config: Config, ghost before: Progress)
      returns (ok: bool, ghost after: Progress)
      requires Reached(before)
      modifies this`configs, this`healthy
      ensures Spent(before, after, old(healthy), healthy, ok)
      ensures Reached(after) && after.start == before.start
      ensures after.executed == before.executed + if ok then [EnsureConfig(key, config)] else []
    {
      hide Run;
      after := before;
      ok := Statement();
      if !ok {
        return;
      }
      if ConfigKey(None, key) !in configs {
        ok := Statement();
        if !ok {
          return;
        }
        configs := configs[ConfigKey(None, key) := [config]];
      }
      RunOneMore(before.start, before.executed, before.ids, EnsureConfig(key, config), 0);
      after := Append(before, EnsureConfig(key, config));
    }

    method SeedServiceConfigs(ghost before: Progress) returns (ok: bool, ghost after: Progress)
      requires Reached(before)
      modifies this
      ensures Spent(before, after, old(healthy), healthy, ok)
      ensures Reached(after) && Extends(before, after, ConfigSteps(), ok)
    {
      hide CONFIGS, Exec, Run, Reached, Extends;
      after := before;
      ghost var done: seq<Step> := [];
      for i := 0 to |CONFIGS|
        invariant Reached(after) && after.start == before.start && Spent(before, after, old(healthy), healthy, true)
        invariant after.executed == before.executed + done
        invariant done == ConfigSteps()[..i]
      {
        ok, after := EnsureOneConfig(CONFIGS[i].0, CONFIGS[i].1, after);
        if !ok {
          Executed(before, after, ConfigSteps(), false, done);
          return;
        }
        done := done + [EnsureConfig(CONFIGS[i].0, CONFIGS[i].1)];
      }
      ok := true;
      Executed(before, after, ConfigSteps(), ok, done);
    }

    /** runSeed: whenever it ends, it has executed a beginning of the program, and
        all of it iff it reports success, which it does if the database lasts; and a
        success means that every seeded row is there and no retired one is left. */
    method RunSeed() returns (ok: bool, ghost ids: seq<UUID>)
      requires Valid()
      modifies this
      ensures Valid() && |ids| <= |Program()|
      ensures Contents() == Run(old(Contents()), Program()[..|ids|], ids)
      ensures ok <==> |ids| == |Program()|
      ensures old(healthy) >= 2 * |Program()| ==> ok
      ensures ok ==> SeedingDone(old(Contents()), Contents())
    {
      hide PermissionSteps, RateSteps, RetireSteps, ConfigSteps, Extends, Run, SeedingDone;
      RunNothing(Contents());
      ghost var start := Progress(Contents(), [], []);
      ghost var p, q;
      ok, p := SeedPermissions(start);
      if ok {
        ok, q := SeedRateLimitConfigs(p);
        ExtendsFurther(start, p, q, PermissionSteps(), RateSteps(), ok);
        p := q;
      } else {
        ExtendsLonger(start, p, PermissionSteps(), RateSteps());
      }
      if ok {
        ok, q := RemoveRetiredSeedRows(p);
        ExtendsFurther(start, p, q, PermissionSteps() + RateSteps(), RetireSteps(), ok);
        p := q;
      } else {
        ExtendsLonger(start, p, PermissionSteps() + RateSteps(), RetireSteps());
      }
      if ok {
        ok, q := SeedServiceConfigs(p);
        ExtendsFurther(start, p, q, PermissionSteps() + RateSteps() + RetireSteps(), ConfigSteps(), ok);
        p := q;
      } else {
        ExtendsLonger(start, p, PermissionSteps() + RateSteps() + RetireSteps(), ConfigSteps());
      }
      FromNothing(start, p, Program(), ok);
      ids := p.ids;
      if ok {
        RunIsDone(start.start, Contents(), ids);
      }
    }
  }

  lemma RunIsDone(st: State, end: State, ids: seq<UUID>)
    requires |ids| == |Program()| && end == Run(st, Program()[..|ids|], ids)
    ensures SeedingDone(st, end)
  {
    hide Program, Run, Seeded, SeedingDone, SafeProgram;
    ProgramIsSafe();
    assert Program()[..|Program()|] == Program();
    CompleteRunSeeds(st, Program(), ids);
    SeedingIsDone(st, end);
  }

  lemma RunNothing(st: State)
    ensures Run(st, [], []) == st
  {
  }

  lemma FromNothing(start: Progress, p: Progress, steps: seq<Step>, ok: bool)
    requires Extends(start, p, steps, ok) && start.executed == [] && |p.ids| == |p.executed|
    ensures p.start == start.start && |p.ids| <= |steps| && p.executed == steps[..|p.ids|]
    ensures ok <==> |p.ids| == |steps|
  {
  }

  ghost function Append(p: Progress, s: Step): (after: Progress)
    requires |p.ids| == |p.executed|
    ensures |after.ids| == |after.executed|
    ensures Run(after.start, after.executed, after.ids) == Exec(Run(p.start, p.executed, p.ids), s, 0)
  {
    RunOneMore(p.start, p.executed, p.ids, s, 0);
    Progress(p.start, p.executed + [s], p.ids + [0])
  }

  lemma RowStart(mod: string)
    ensures RowSteps(mod, ACTIONS[..0]) == []
  {
  }

  lemma RowOneMore(mod: string, actions: seq<string>, j: nat)
    requires j < |actions|
    ensures RowSteps(mod, actions[..j + 1]) ==
            RowSteps(mod, actions[..j]) + [EnsurePermission(GridSeed(mod, actions[j]))]
  {
    hide GridSeed;
  }

  lemma GridStart()
    ensures GridSteps(MODULES[..0], ACTIONS) == []
  {
  }

  lemma GridOneMore(mods: seq<string>, actions: seq<string>, i: nat)
    requires i < |mods|
    ensures GridSteps(mods[..i + 1], actions) == GridSteps(mods[..i], actions) + RowSteps(mods[i], actions)
  {
    assert mods[..i + 1][..i] == mods[..i];
  }

  lemma {:induction false} GridPrefix(mods: seq<string>, actions: seq<string>, i: nat, j: nat)
    requires i < |mods| && j <= |actions|
    ensures GridSteps(mods[..i], actions) + RowSteps(mods[i], actions[..j]) <= GridSteps(mods, actions)
  {
    hide GridSeed;
    var init := mods[..|mods| - 1];
    if i < |init| {
      assert init[..i] == mods[..i];
      GridPrefix(init, actions, i, j);
    }
  }

  lemma DropStart()
    ensures DropSteps(RETIRED_PREFIXES[..0]) == []
  {
  }

  lemma {:induction false} DropPrefix(prefixes: seq<string>, i: nat)
    requires i < |prefixes|
    ensures DropSteps(prefixes[..i + 1]) ==
            DropSteps(prefixes[..i]) + [DropGrants(prefixes[i]), DropPermissions(prefixes[i])]
    ensures DropSteps(prefixes[..i + 1]) <= DropSteps(prefixes)
  {
    assert prefixes[..i + 1][..i] == prefixes[..i];
    var init := prefixes[..|prefixes| - 1];
    if i < |init| {
      assert init[..i + 1] == prefixes[..i + 1];
      DropPrefix(init, i);
    } else {
      assert prefixes[..i + 1] == prefixes;
    }
  }

  lemma NothingRetired(st: State, prefix: string)
    requires IdsOf(st.permissions, prefix) == {}
    ensures Exec(st, DropGrants(prefix), 0) == st && Exec(st, DropPermissions(prefix), 0) == st
  {
    assert forall code :: code in st.permissions && prefix <= code ==>
        st.permissions[code].id in IdsOf(st.permissions, prefix);
    DoneChangesNothing(st, DropGrants(prefix), 0);
    DoneChangesNothing(st, DropPermissions(prefix), 0);
  }

  lemma DropsGrants(st: State, prefix: string, end: State)
    requires end == st.(grants := set g | g in st.grants && g.permission !in IdsOf(st.permissions, prefix))
    ensures end == Exec(st, DropGrants(prefix), 0)
  {
  }

  // Deleting by ID deletes by prefix, since no other permission has one of the IDs.
  lemma DropsPermissions(st: State, prefix: string, end: State)
    requires forall c, d :: c in st.permissions && d in st.permissions && c != d ==>
               st.permissions[c].id != st.permissions[d].id
    requires end == st.(permissions := map code | code in st.permissions
                          && st.permissions[code].id !in IdsOf(st.permissions, prefix) :: st.permissions[code])
    ensures end == Exec(st, DropPermissions(prefix), 0)
  {
    forall code | code in st.permissions
      ensures st.permissions[code].id in IdsOf(st.permissions, prefix) <==> prefix <= code
    {
      if st.permissions[code].id in IdsOf(st.permissions, prefix) {
        var c :| c in st.permissions && prefix <= c && st.permissions[c].id == st.permissions[code].id;
      }
    }
    assert end.permissions == Exec(st, DropPermissions(prefix), 0).permissions;
  }

  /** Seeding as an operator sees it. From any database whose grants refer to
      permissions: after any failed attempts no grant dangles, and the attempt that
      reports success leaves no retired permission or config, every other row that
      was there unchanged, and what one undisturbed run would have left. */
  lemma SeedingConverges(st: State, attempts: seq<seq<UUID>>, ids: seq<UUID>, undisturbed: seq<UUID>)
    requires Integrity(st) && |ids| == |Program()| == |undisturbed|
    requires forall i :: 0 <= i < |attempts| ==> |attempts[i]| <= |Program()|
    ensures var before := Attempts(st, Program(), attempts);
            var after := Run(before, Program(), ids);
            && Integrity(before) && Integrity(after)
            && Erase(after) == Erase(Run(st, Program(), undisturbed))
            && Seeded(Program(), st, Erase(after)) && SeedingDone(st, after)
            && forall again: seq<UUID> :: |again| == |Program()| ==> Run(after, Program(), again) == after
  {
    hide Program, Run, Seeded, Integrity, SafeProgram, Erase, SeedingDone;
    ProgramIsSafe();
    var before := Attempts(st, Program(), attempts);
    AttemptsKeepIntegrity(st, Program(), attempts);
    IntegrityAtEveryMoment(before, Program(), |Program()|, ids);
    assert Program()[..|Program()|] == Program();
    Converges(st, Program(), attempts, ids, undisturbed);
    CompleteRunSeeds(st, Program(), undisturbed);
    SeedingIsDone(st, Run(before, Program(), ids));
    forall again: seq<UUID> | |again| == |Program()|
      ensures Run(Run(before, Program(), ids), Program(), again) == Run(before, Program(), ids)
    {
      Idempotent(before, Program(), ids, again);
    }
  }
}
