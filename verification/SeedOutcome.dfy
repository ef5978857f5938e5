/** What a finished run of cmd/seed has put into the four tables, said of the tables
    alone. */
module SeedOutcome {

  import opened Wrappers
  import opened Seed
  import opened SeedTheorems
  import opened SeedProgram

  // "Tasks view own" for tasks and view_own: the module with a capital, a space, and
  // the action with spaces for its underscores.
  ghost predicate IsName(name: string, mod: string, action: string) {
    && mod != "" && |name| == |mod| + 1 + |action|
    && name[0] as int == mod[0] as int - 'a' as int + 'A' as int
    && name[1..|mod|] == mod[1..]
    && name[|mod|] == ' '
    && forall i :: 0 <= i < |action| ==> name[|mod| + 1 + i] == if action[i] == '_' then ' ' else action[i]
  }

  /** The permission for one action on one module is there; it is what it was, or new
      and then made of its code, its module, which is also its resource, and its action. */
  ghost predicate HasGrid(st: State, end: State, mod: string, action: string) {
    var code := "logistics." + mod + "." + action;
    && code in end.permissions
    && (code !in st.permissions ==>
          var seed := end.permissions[code].seed;
          && seed.code == code && seed.mod == mod && seed.action == action && seed.resource == mod
          && IsName(seed.name, mod, action))
  }

  ghost predicate PermissionsDone(st: State, end: State) {
    && (forall m, a :: m in MODULES && a in ACTIONS ==> HasGrid(st, end, m, a))
    && "logistics.tasks.override" in end.permissions
    && ("logistics.tasks.override" !in st.permissions ==>
          end.permissions["logistics.tasks.override"].seed == TASK_OVERRIDE)
    && (forall code :: code in end.permissions ==>
          && !("logistics.geofences." <= code)
          && (code in st.permissions || code == "logistics.tasks.override" || IsGridCode(code)))
    && (forall code :: code in st.permissions && !("logistics.geofences." <= code) ==>
          code in end.permissions && end.permissions[code].seed == st.permissions[code].seed)
  }

  ghost predicate IsGridCode(code: string) {
    exists m, a :: m in MODULES && a in ACTIONS && code == "logistics." + m + "." + a
  }

  ghost predicate HasRate(st: State, end: State, key: RateKey, rate: Rate) {
    key in end.rates && end.rates[key] == if key in st.rates then st.rates[key] else rate
  }

  ghost predicate RatesDone(st: State, end: State) {
    && (forall i :: 0 <= i < |RATES| ==> HasRate(st, end, RATES[i].0, RATES[i].1))
    && (forall k :: k in st.rates ==> k in end.rates && end.rates[k] == st.rates[k])
    && (forall k :: k in end.rates ==> k in st.rates || exists i :: 0 <= i < |RATES| && RATES[i].0 == k)
  }

  ghost predicate HasConfig(st: State, end: State, key: string, config: Config) {
    var k := ConfigKey(None, key);
    k in end.configs && end.configs[k] == if k in st.configs then st.configs[k] else [config]
  }

  ghost predicate ConfigsDone(st: State, end: State) {
    && (forall i :: 0 <= i < |CONFIGS| ==> HasConfig(st, end, CONFIGS[i].0, CONFIGS[i].1))
    && (forall k :: k in end.configs ==> k.key !in RETIRED_KEYS)
    && (forall k :: k in st.configs && k.key !in RETIRED_KEYS ==>
          k in end.configs && end.configs[k] == st.configs[k])
    && (forall k :: k in end.configs ==>
          k in st.configs || exists i :: 0 <= i < |CONFIGS| && k == ConfigKey(None, CONFIGS[i].0))
  }

  ghost predicate RefersToRetired(st: State, g: Grant) {
    exists code :: code in st.permissions && "logistics.geofences." <= code && st.permissions[code].id == g.permission
  }

  /** After seeding: every module and action has its permission, and so has the
      override; every rate limit and every platform config has its row, with the seeded
      value where there was none; nothing retired is left; every other row that was
      there has the value it had; and nothing else has been added. */
  ghost predicate SeedingDone(st: State, end: State) {
    && PermissionsDone(st, end)
    && RatesDone(st, end)
    && ConfigsDone(st, end)
    && forall g :: g in end.grants <==> g in st.grants && !RefersToRetired(st, g)
  }

  // ------------------------------------------------------ the steps of the program

  lemma {:induction false} GridHas(mods: seq<string>, actions: seq<string>, m: string, a: string)
    requires m in mods && a in actions
    ensures EnsurePermission(GridSeed(m, a)) in GridSteps(mods, actions)
  {
    hide GridSeed;
    var init, last := mods[..|mods| - 1], mods[|mods| - 1];
    if m == last {
      var j :| 0 <= j < |actions| && actions[j] == a;
      assert RowSteps(last, actions)[j] == EnsurePermission(GridSeed(m, a));
    } else {
      assert mods == init + [last];
      GridHas(init, actions, m, a);
    }
  }

  // What the program seeds.
  lemma GridIsSeeded(m: string, a: string)
    requires m in MODULES && a in ACTIONS
    ensures EnsurePermission(GridSeed(m, a)) in Program()
  {
    hide GridSteps, GridSeed, MODULES, ACTIONS, TASK_OVERRIDE, RateSteps, RetireSteps, ConfigSteps;
    GridHas(MODULES, ACTIONS, m, a);
    assert EnsurePermission(GridSeed(m, a)) in PermissionSteps();
  }

  lemma OverrideIsSeeded()
    ensures EnsurePermission(TASK_OVERRIDE) in Program()
  {
    hide GridSteps, MODULES, ACTIONS, TASK_OVERRIDE, RateSteps, RetireSteps, ConfigSteps;
    assert EnsurePermission(TASK_OVERRIDE) in PermissionSteps();
  }

  lemma RateIsSeeded(i: nat)
    requires i < |RATES|
    ensures EnsureRate(RATES[i].0, RATES[i].1) in Program()
  {
    hide PermissionSteps, RetireSteps, ConfigSteps, RATES;
    assert RateSteps()[i] in RateSteps();
  }

  lemma ConfigIsSeeded(i: nat)
    requires i < |CONFIGS|
    ensures EnsureConfig(CONFIGS[i].0, CONFIGS[i].1) in Program()
  {
    hide PermissionSteps, RetireSteps, RateSteps, CONFIGS;
    assert ConfigSteps()[i] in ConfigSteps();
  }

  ghost predicate IsStep(s: Step) {
    match s
    case EnsurePermission(seed) => seed == TASK_OVERRIDE || FromGrid(s, MODULES, ACTIONS)
    case EnsureRate(key, rate) => exists i :: 0 <= i < |RATES| && RATES[i] == (key, rate)
    case DropGrants(prefix) => prefix == RETIRED_PREFIXES[0]
    case DropPermissions(prefix) => prefix == RETIRED_PREFIXES[0]
    case DropConfigs(keys) => keys == RETIRED_KEYS
    case EnsureConfig(key, config) => exists i :: 0 <= i < |CONFIGS| && CONFIGS[i] == (key, config)
  }

  lemma OnlyPermissionSteps(s: Step)
    requires s in PermissionSteps()
    ensures IsStep(s)
  {
    hide GridSteps, MODULES, ACTIONS, TASK_OVERRIDE;
    GridIsGrid(MODULES, ACTIONS);
    if s in GridSteps(MODULES, ACTIONS) {
      var i :| 0 <= i < |GridSteps(MODULES, ACTIONS)| && GridSteps(MODULES, ACTIONS)[i] == s;
      assert FromGrid(GridSteps(MODULES, ACTIONS)[i], MODULES, ACTIONS);
    }
  }

  // And what it retires; it has no other steps.
  lemma OnlySteps(s: Step)
    requires s in Program()
    ensures IsStep(s)
  {
    RetireStepsAre();
    assert RETIRED_PREFIXES != [];
    hide PermissionSteps, RATES, CONFIGS, RETIRED_PREFIXES, RETIRED_KEYS, RetireSteps, MODULES, ACTIONS, TASK_OVERRIDE,
         FromGrid;
    if s in PermissionSteps() {
      OnlyPermissionSteps(s);
    } else if s in RateSteps() {
      var i :| 0 <= i < |RATES| && RateSteps()[i] == s;
      assert RATES[i] == (s.rateKey, s.rate);
    } else if s in ConfigSteps() {
      var i :| 0 <= i < |CONFIGS| && ConfigSteps()[i] == s;
      assert CONFIGS[i] == (s.key, s.config);
    } else {
      assert s in RetireSteps();
    }
  }

  lemma Retires()
    ensures DropPermissions(RETIRED_PREFIXES[0]) in Program() && DropConfigs(RETIRED_KEYS) in Program()
  {
    RetireStepsAre();
    assert RETIRED_PREFIXES != [];
    hide PermissionSteps, RateSteps, ConfigSteps, RetireSteps, RETIRED_PREFIXES, RETIRED_KEYS;
    assert RetireSteps()[1] == DropPermissions(RETIRED_PREFIXES[0]) && RetireSteps()[2] == DropConfigs(RETIRED_KEYS);
  }

  lemma RetiredCodes(code: string)
    ensures RetiredCode(Program(), code) <==> "logistics.geofences." <= code
  {
    hide Program, RETIRED_KEYS;
    Retires();
    assert RETIRED_PREFIXES[0] == "logistics.geofences.";
    hide RETIRED_PREFIXES;
    var steps := Program();
    if i :| 0 <= i < |steps| && steps[i].DropPermissions? && steps[i].prefix <= code {
      OnlySteps(steps[i]);
    }
  }

  lemma RetiredKeys(key: string)
    ensures RetiredKey(Program(), key) <==> key in RETIRED_KEYS
  {
    hide Program, RETIRED_KEYS, RETIRED_PREFIXES;
    Retires();
    var steps := Program();
    if i :| 0 <= i < |steps| && steps[i].DropConfigs? && key in steps[i].keys {
      OnlySteps(steps[i]);
    }
  }

  // ------------------------------------------------------ from the steps to the tables

  lemma EnsuredPermission(steps: seq<Step>, st: State, permissions: map<string, PermissionSeed>, seed: PermissionSeed)
    requires SafeProgram(steps) && SeededPermissions(steps, st, permissions) && EnsurePermission(seed) in steps
    ensures seed.code in permissions && (seed.code !in st.permissions ==> permissions[seed.code] == seed)
  {
    var i :| 0 <= i < |steps| && steps[i] == EnsurePermission(seed);
    if seed.code !in st.permissions {
      var j :| 0 <= j < |steps| && steps[j] == EnsurePermission(permissions[seed.code]);
      hide SafeProgram;
      SameSeed(steps, i, j);
    }
  }

  lemma EnsuredRate(steps: seq<Step>, st: State, rates: map<RateKey, Rate>, key: RateKey, rate: Rate)
    requires SafeProgram(steps) && SeededRates(steps, st, rates) && EnsureRate(key, rate) in steps
    ensures key in rates && rates[key] == if key in st.rates then st.rates[key] else rate
  {
    var i :| 0 <= i < |steps| && steps[i] == EnsureRate(key, rate);
    if key !in st.rates {
      var j :| 0 <= j < |steps| && steps[j] == EnsureRate(key, rates[key]);
      hide SafeProgram;
      SameSeed(steps, i, j);
    }
  }

  lemma EnsuredConfig(steps: seq<Step>, st: State, configs: map<ConfigKey, seq<Config>>, key: string, config: Config)
    requires SafeProgram(steps) && SeededConfigs(steps, st, configs) && EnsureConfig(key, config) in steps
    ensures var k := ConfigKey(None, key);
            k in configs && configs[k] == if k in st.configs then st.configs[k] else [config]
  {
    var k := ConfigKey(None, key);
    var i :| 0 <= i < |steps| && steps[i] == EnsureConfig(key, config);
    if k !in st.configs {
      var j :| 0 <= j < |steps| && steps[j] == EnsureConfig(key, configs[k][0]);
      hide SafeProgram;
      SameSeed(steps, i, j);
      assert configs[k] == [configs[k][0]];
    }
  }

  lemma SpacedAction(action: string, i: nat)
    requires i < |action|
    ensures Spaced(action)[i] == if action[i] == '_' then ' ' else action[i]
  {
  }

  // The seed for one action on one module.
  lemma GridSeedIs(m: string, a: string)
    requires m in MODULES
    ensures var seed := GridSeed(m, a);
            && seed.code == "logistics." + m + "." + a && seed.mod == m && seed.action == a && seed.resource == m
            && IsName(seed.name, m, a)
  {
    ModulesAreLower(m);
    hide MODULES;
    var prefix := "logistics.";
    assert prefix + m + "." + a == prefix + (m + "." + a);
    var name := GridSeed(m, a).name;
    assert name == Title(m) + " " + Spaced(a);
    forall i | 0 <= i < |a| ensures name[|m| + 1 + i] == if a[i] == '_' then ' ' else a[i] {
      assert name[|m| + 1 + i] == Spaced(a)[i];
    }
    assert name[1..|m|] == m[1..];
  }

  lemma ModulesAreLower(m: string)
    requires m in MODULES
    ensures m != "" && 'a' <= m[0] <= 'z'
  {
  }

  // A code that is there afterwards, and one that was there before.
  lemma SeededCode(st: State, permissions: map<string, PermissionSeed>, code: string)
    requires SeededPermissions(Program(), st, permissions) && code in permissions
    ensures !("logistics.geofences." <= code)
    ensures code in st.permissions || code == TASK_OVERRIDE.code || IsGridCode(code)
    ensures code in st.permissions ==> permissions[code] == st.permissions[code].seed
  {
    hide Program, MODULES, ACTIONS, TASK_OVERRIDE, GridSeed;
    RetiredCodes(code);
    if code !in st.permissions {
      var s := EnsurePermission(permissions[code]);
      OnlySteps(s);
      if s.seed != TASK_OVERRIDE {
        var m, a :| m in MODULES && a in ACTIONS && s == EnsurePermission(GridSeed(m, a));
        GridSeedIs(m, a);
        assert code == "logistics." + m + "." + a;
      }
    }
  }

  lemma KeptCode(st: State, permissions: map<string, PermissionSeed>, code: string)
    requires SeededPermissions(Program(), st, permissions)
    requires code in st.permissions && !("logistics.geofences." <= code)
    ensures code in permissions
  {
    hide Program;
    RetiredCodes(code);
  }

  lemma PermissionsAreDone(st: State, end: State)
    requires SafeProgram(Program()) && SeededPermissions(Program(), st, Erase(end).permissions)
    ensures PermissionsDone(st, end)
  {
    hide SafeProgram, Program, SeededPermissions, GridSeed, IsName, MODULES, ACTIONS, IsGridCode;
    var permissions := Erase(end).permissions;
    forall m, a | m in MODULES && a in ACTIONS ensures HasGrid(st, end, m, a) {
      GridIsSeeded(m, a);
      EnsuredPermission(Program(), st, permissions, GridSeed(m, a));
      GridSeedIs(m, a);
    }
    OverrideIsSeeded();
    EnsuredPermission(Program(), st, permissions, TASK_OVERRIDE);
    hide HasGrid;
    forall code | code in end.permissions
      ensures !("logistics.geofences." <= code)
      ensures code in st.permissions || code == "logistics.tasks.override" || IsGridCode(code)
      ensures code in st.permissions ==> end.permissions[code].seed == st.permissions[code].seed
    {
      SeededCode(st, permissions, code);
    }
    forall code | code in st.permissions && !("logistics.geofences." <= code) ensures code in end.permissions {
      KeptCode(st, permissions, code);
    }
  }

  lemma RatesAreDone(st: State, end: State)
    requires SafeProgram(Program()) && SeededRates(Program(), st, end.rates)
    ensures RatesDone(st, end)
  {
    hide SafeProgram, Program, RATES;
    forall i | 0 <= i < |RATES| ensures HasRate(st, end, RATES[i].0, RATES[i].1) {
      RateIsSeeded(i);
      EnsuredRate(Program(), st, end.rates, RATES[i].0, RATES[i].1);
    }
    forall k | k in end.rates && k !in st.rates ensures exists i :: 0 <= i < |RATES| && RATES[i].0 == k {
      OnlySteps(EnsureRate(k, end.rates[k]));
      var i :| 0 <= i < |RATES| && RATES[i] == (k, end.rates[k]);
    }
  }

  lemma ConfigsAreDone(st: State, end: State)
    requires SafeProgram(Program()) && SeededConfigs(Program(), st, end.configs)
    ensures ConfigsDone(st, end)
  {
    hide SafeProgram, Program, CONFIGS, RETIRED_KEYS, RetiredKey;
    forall i | 0 <= i < |CONFIGS| ensures HasConfig(st, end, CONFIGS[i].0, CONFIGS[i].1) {
      ConfigIsSeeded(i);
      EnsuredConfig(Program(), st, end.configs, CONFIGS[i].0, CONFIGS[i].1);
    }
    forall k: ConfigKey ensures RetiredKey(Program(), k.key) <==> k.key in RETIRED_KEYS {
      RetiredKeys(k.key);
    }
    forall k | k in end.configs && k !in st.configs
      ensures exists i :: 0 <= i < |CONFIGS| && k == ConfigKey(None, CONFIGS[i].0)
    {
      OnlySteps(EnsureConfig(k.key, end.configs[k][0]));
      var i :| 0 <= i < |CONFIGS| && CONFIGS[i] == (k.key, end.configs[k][0]);
      assert k == ConfigKey(None, CONFIGS[i].0);
    }
  }

  lemma RetiredGrants(st: State, g: Grant)
    ensures RetiredGrant(Program(), st, g) <==> RefersToRetired(st, g)
  {
    hide Program, RetiredCode;
    forall code ensures RetiredCode(Program(), code) <==> "logistics.geofences." <= code {
      RetiredCodes(code);
    }
  }

  /** Complete seeding, as SeedTheorems describes it for any program, is this for the
      program of cmd/seed. */
  lemma SeedingIsDone(st: State, end: State)
    requires Seeded(Program(), st, Erase(end))
    ensures SeedingDone(st, end)
  {
    ProgramIsSafe();
    hide Program, SafeProgram, SeededPermissions, SeededRates, SeededConfigs, RetiredGrant, PermissionsDone, RatesDone,
         ConfigsDone, RefersToRetired;
    PermissionsAreDone(st, end);
    RatesAreDone(st, end);
    ConfigsAreDone(st, end);
    forall g ensures RetiredGrant(Program(), st, g) <==> RefersToRetired(st, g) {
      RetiredGrants(st, g);
    }
  }
}
