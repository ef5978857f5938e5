/** The program of cmd/seed: the rows it seeds and the rows it retires, as steps,
    and why these are safe to interrupt. */
module SeedProgram {

  import opened Seed

  const MODULES: seq<string> :=
    ["tasks", "fleet", "vehicles", "zones", "pricing", "carriers", "routing", "telemetry", "earnings", "config",
     "users"]

  const ACTIONS: seq<string> :=
    ["add", "view", "view_own", "change", "change_own", "delete", "delete_own", "manage", "manage_own"]

  const RETIRED_PREFIXES: seq<string> := ["logistics.geofences."]

  const RETIRED_KEYS: seq<string> :=
    ["logistics.geofence_radius_meters", "logistics.default_task_timeout", "logistics.max_concurrent_tasks",
     "logistics.max_fleet_size", "logistics.telemetry_interval_seconds", "logistics.max_route_waypoints",
     "logistics.earnings_payout_cycle_days", "logistics.tracking_link_expiry_hours"]

  const TASK_OVERRIDE: PermissionSeed :=
    PermissionSeed("logistics.tasks.override", "Tasks override delivery", "tasks", "override", "tasks")

  const RATES: seq<(RateKey, Rate)> :=
    [(RateKey("logistics-api", "tenant", "*"), Rate(120, 60, 1.5, "Default tenant rate limit", true)),
     (RateKey("logistics-api", "ip", "*"), Rate(60, 60, 2.0, "Default IP rate limit", true)),
     (RateKey("logistics-api", "user", "*"), Rate(90, 60, 1.5, "Default per-user rate limit", true)),
     (RateKey("logistics-api", "endpoint", "/api/v1/*/tasks"), Rate(200, 60, 2.0, "Task endpoints rate limit", true)),
     (RateKey("logistics-api", "endpoint", "/api/v1/*/routing/*"),
      Rate(100, 60, 1.5, "Routing endpoints rate limit", true)),
     (RateKey("logistics-api", "endpoint", "/api/v1/*/tracking/*"),
      Rate(300, 60, 2.0, "Tracking endpoints rate limit", true)),
     (RateKey("logistics-api", "endpoint", "/api/v1/*/fleet/*"),
      Rate(150, 60, 1.5, "Fleet endpoints rate limit", true))]

  const CONFIGS: seq<(string, Config)> :=
    [("logistics.auto_assign_enabled",
      Config("true", "bool", "Auto-assign new delivery tasks to the nearest rider", false)),
     ("logistics.pod_required",
      Config("true", "bool", "Riders must submit proof of delivery to complete a job", false)),
     ("logistics.rider_self_claim_enabled",
      Config("true", "bool", "Riders on shift may take unassigned delivery jobs from Open jobs", false)),
     ("logistics.block_uninsured_vehicles",
      Config("true", "bool", "Riders on a motorised vehicle with no insurance recorded get no jobs", false)),
     ("logistics.block_expired_insurance",
      Config("true", "bool",
             "A vehicle whose insurance expired is deactivated and its rider gets no jobs until it is renewed", false)),
     ("logistics.insurance_reminder_days",
      Config("7", "int",
             "Days before a vehicle's insurance expires that the rider and the business are reminded", false))]

  // strings.Title of one lower-case word.
  function Title(word: string): string {
    if word != "" && 'a' <= word[0] <= 'z' then [word[0] - 'a' + 'A'] + word[1..] else word
  }

  function Spaced(action: string): string {
    seq(|action|, i requires 0 <= i < |action| => if action[i] == '_' then ' ' else action[i])
  }

  function Code(mod: string, action: string): string {
    "logistics." + (mod + "." + action)
  }

  function GridSeed(mod: string, action: string): PermissionSeed {
    PermissionSeed(Code(mod, action), Title(mod) + " " + Spaced(action), mod, action, mod)
  }

  // One module's permissions.
  function RowSteps(mod: string, actions: seq<string>): seq<Step> {
    seq(|actions|, j requires 0 <= j < |actions| => EnsurePermission(GridSeed(mod, actions[j])))
  }

  function GridSteps(mods: seq<string>, actions: seq<string>): seq<Step> {
    if mods == [] then [] else GridSteps(mods[..|mods| - 1], actions) + RowSteps(mods[|mods| - 1], actions)
  }

  function PermissionSteps(): seq<Step> {
    GridSteps(MODULES, ACTIONS) + [EnsurePermission(TASK_OVERRIDE)]
  }

  function RateSteps(): seq<Step> {
    seq(|RATES|, i requires 0 <= i < |RATES| => EnsureRate(RATES[i].0, RATES[i].1))
  }

  function DropSteps(prefixes: seq<string>): seq<Step> {
    if prefixes == [] then []
    else DropSteps(prefixes[..|prefixes| - 1])
         + [DropGrants(prefixes[|prefixes| - 1]), DropPermissions(prefixes[|prefixes| - 1])]
  }

  function RetireSteps(): seq<Step> {
    DropSteps(RETIRED_PREFIXES) + [DropConfigs(RETIRED_KEYS)]
  }

  function ConfigSteps(): seq<Step> {
    seq(|CONFIGS|, i requires 0 <= i < |CONFIGS| => EnsureConfig(CONFIGS[i].0, CONFIGS[i].1))
  }

  // runSeed, as its writes.
  function Program(): seq<Step> {
    PermissionSteps() + RateSteps() + RetireSteps() + ConfigSteps()
  }

  // ---------------------------------------------------------------- the program is safe

  // The permission seeds: a grid whose modules have no dot in them, and one more.
  ghost predicate FromGrid(s: Step, mods: seq<string>, actions: seq<string>) {
    exists m, a :: m in mods && a in actions && s == EnsurePermission(GridSeed(m, a))
  }

  lemma {:induction false} GridIsGrid(mods: seq<string>, actions: seq<string>)
    ensures forall i :: 0 <= i < |GridSteps(mods, actions)| ==> FromGrid(GridSteps(mods, actions)[i], mods, actions)
  {
    if mods != [] {
      var init, last := mods[..|mods| - 1], mods[|mods| - 1];
      GridIsGrid(init, actions);
      var grid, row := GridSteps(init, actions), RowSteps(last, actions);
      forall i | 0 <= i < |grid + row| ensures FromGrid((grid + row)[i], mods, actions) {
        if i < |grid| {
          assert FromGrid(grid[i], init, actions);
          var m, a :| m in init && a in actions && grid[i] == EnsurePermission(GridSeed(m, a));
          assert m in mods;
        } else {
          assert row[i - |grid|] == EnsurePermission(GridSeed(last, actions[i - |grid|]));
        }
      }
    }
  }

  function FirstDot(s: string): nat {
    if s == "" || s[0] == '.' then 0 else 1 + FirstDot(s[1..])
  }

  lemma {:induction false} FirstDotIs(m: string, a: string)
    requires '.' !in m
    ensures FirstDot(m + "." + a) == |m|
  {
    var x := m + "." + a;
    if m != "" {
      assert x[0] == m[0] && x[1..] == m[1..] + "." + a;
      FirstDotIs(m[1..], a);
    }
  }

  lemma DottedDiffer(m: string, a: string, n: string, b: string)
    requires '.' !in m && '.' !in n && m + "." + a == n + "." + b
    ensures m == n && a == b
  {
    FirstDotIs(m, a);
    FirstDotIs(n, b);
    var x, y := m + "." + a, n + "." + b;
    assert m == x[..|m|] && n == y[..|n|];
    assert a == x[|m| + 1..] && b == y[|n| + 1..];
  }

  // A code determines its module and its action.
  lemma CodesDiffer(m: string, a: string, n: string, b: string)
    requires '.' !in m && '.' !in n && (m != n || a != b)
    ensures Code(m, a) != Code(n, b)
  {
    var prefix := "logistics.";
    if Code(m, a) == Code(n, b) {
      assert Code(m, a)[|prefix|..] == m + "." + a && Code(n, b)[|prefix|..] == n + "." + b;
      DottedDiffer(m, a, n, b);
    }
  }

  lemma {:induction false} GridApart(mods: seq<string>, actions: seq<string>)
    requires forall m :: m in mods ==> '.' !in m
    requires forall i, j :: 0 <= i < j < |mods| ==> mods[i] != mods[j]
    requires forall i, j :: 0 <= i < j < |actions| ==> actions[i] != actions[j]
    ensures AllApart(GridSteps(mods, actions))
  {
    hide Code, MODULES, ACTIONS, RATES, CONFIGS;
    if mods != [] {
      var init, last := mods[..|mods| - 1], mods[|mods| - 1];
      var grid, row := GridSteps(init, actions), RowSteps(last, actions);
      GridApart(init, actions);
      GridIsGrid(init, actions);
      forall i, j | 0 <= i < j < |grid + row| ensures Apart((grid + row)[i], (grid + row)[j]) {
        if j < |grid| {
          assert Apart(grid[i], grid[j]);
        } else {
          var b := actions[j - |grid|];
          assert (grid + row)[j] == row[j - |grid|] == EnsurePermission(GridSeed(last, b));
          if i < |grid| {
            assert FromGrid(grid[i], init, actions);
            var m, a :| m in init && a in actions && grid[i] == EnsurePermission(GridSeed(m, a));
            var k :| 0 <= k < |init| && init[k] == m;
            assert mods[k] != mods[|mods| - 1];
            CodesDiffer(m, a, last, b);
          } else {
            assert (grid + row)[i] == row[i - |grid|] == EnsurePermission(GridSeed(last, actions[i - |grid|]));
            CodesDiffer(last, actions[i - |grid|], last, b);
          }
        }
      }
    }
  }

  lemma ModulesAreWords()
    ensures forall m :: m in MODULES ==> '.' !in m && m != "" && m[0] != 'g'
    ensures forall i, j :: 0 <= i < j < |MODULES| ==> MODULES[i] != MODULES[j]
  {
  }

  lemma ActionsDiffer()
    ensures forall i, j :: 0 <= i < j < |ACTIONS| ==> ACTIONS[i] != ACTIONS[j]
    ensures "override" !in ACTIONS
  {
  }

  lemma GridMeetsOthers(i: nat)
    requires i < |GridSteps(MODULES, ACTIONS)|
    ensures var s := GridSteps(MODULES, ACTIONS)[i];
            s.EnsurePermission? && s.seed.code != TASK_OVERRIDE.code && !(RETIRED_PREFIXES[0] <= s.seed.code)
  {
    hide GridSteps;
    ModulesAreWords();
    ActionsDiffer();
    hide MODULES, ACTIONS, Title, Spaced;
    GridIsGrid(MODULES, ACTIONS);
    var s := GridSteps(MODULES, ACTIONS)[i];
    assert FromGrid(s, MODULES, ACTIONS);
    var m, a :| m in MODULES && a in ACTIONS && s == EnsurePermission(GridSeed(m, a));
    CodesDiffer(m, a, "tasks", "override");
    OverrideCode();
    assert Code(m, a)[10] == m[0];
  }

  lemma OverrideCode()
    ensures Code("tasks", "override") == TASK_OVERRIDE.code
    ensures !(RETIRED_PREFIXES[0] <= TASK_OVERRIDE.code)
  {
    assert RETIRED_PREFIXES[0][10] == 'g' && TASK_OVERRIDE.code[10] == 't';
  }

  lemma PermissionStepsApart()
    ensures var steps := PermissionSteps();
            && (forall i :: 0 <= i < |steps| ==>
                  steps[i].EnsurePermission? && !(RETIRED_PREFIXES[0] <= steps[i].seed.code))
            && AllApart(steps)
  {
    hide GridSteps;
    ModulesAreWords();
    ActionsDiffer();
    hide MODULES, ACTIONS;
    GridApart(MODULES, ACTIONS);
    OverrideCode();
    hide TASK_OVERRIDE, RETIRED_PREFIXES;
    var grid := GridSteps(MODULES, ACTIONS);
    forall i | 0 <= i < |grid|
      ensures grid[i].EnsurePermission? && !(RETIRED_PREFIXES[0] <= grid[i].seed.code)
      ensures Apart(grid[i], EnsurePermission(TASK_OVERRIDE))
    {
      GridMeetsOthers(i);
    }
  }

  // What each step of the program seeds or retires.
  predicate Fine(s: Step) {
    match s
    case EnsurePermission(seed) => !(RETIRED_PREFIXES[0] <= seed.code)
    case EnsureRate(_, _) => true
    case DropGrants(prefix) => prefix == RETIRED_PREFIXES[0]
    case DropPermissions(prefix) => prefix == RETIRED_PREFIXES[0]
    case DropConfigs(keys) => keys == RETIRED_KEYS
    case EnsureConfig(key, _) => key !in RETIRED_KEYS
  }

  lemma RetireStepsAre()
    ensures RetireSteps() ==
            [DropGrants(RETIRED_PREFIXES[0]), DropPermissions(RETIRED_PREFIXES[0]), DropConfigs(RETIRED_KEYS)]
  {
    assert RETIRED_PREFIXES[..|RETIRED_PREFIXES| - 1] == [];
  }

  lemma ConfigsAreFine()
    ensures forall i :: 0 <= i < |CONFIGS| ==> CONFIGS[i].0 !in RETIRED_KEYS
    ensures forall i, j :: 0 <= i < j < |CONFIGS| ==> CONFIGS[i].0 != CONFIGS[j].0
  {
  }

  lemma RatesAreApart()
    ensures forall i, j :: 0 <= i < j < |RATES| ==> RATES[i].0 != RATES[j].0
  {
  }

  lemma ApartTogether(a: seq<Step>, b: seq<Step>)
    requires AllApart(a) && AllApart(b)
    requires forall i, j :: 0 <= i < |a| && 0 <= j < |b| ==> Apart(a[i], b[j])
    ensures AllApart(a + b)
  {
    hide Apart;
  }

  lemma ConfigStepsApart()
    ensures AllApart(ConfigSteps())
    ensures forall i :: 0 <= i < |ConfigSteps()| ==> ConfigSteps()[i].EnsureConfig? && Fine(ConfigSteps()[i])
  {
    ConfigsAreFine();
    hide CONFIGS, RETIRED_KEYS;
  }

  lemma RateStepsApart()
    ensures AllApart(RateSteps()) && forall i :: 0 <= i < |RateSteps()| ==> RateSteps()[i].EnsureRate?
  {
    RatesAreApart();
    hide RATES;
  }

  lemma AllFine(p: seq<Step>, r: seq<Step>, x: seq<Step>, c: seq<Step>)
    requires forall i :: 0 <= i < |p| ==> Fine(p[i])
    requires forall i :: 0 <= i < |r| ==> Fine(r[i])
    requires forall i :: 0 <= i < |x| ==> Fine(x[i])
    requires forall i :: 0 <= i < |c| ==> Fine(c[i])
    ensures var steps := p + r + x + c; forall i :: 0 <= i < |steps| ==> Fine(steps[i])
  {
    hide Fine;
  }

  lemma AllCompatible(steps: seq<Step>)
    requires forall i :: 0 <= i < |steps| ==> Fine(steps[i])
    ensures forall i, j :: 0 <= i < |steps| && 0 <= j < |steps| ==> Compatible(steps[i], steps[j])
  {
  }

  /** The seeded modules and keys are disjoint from the retired ones, and each is
      seeded once: the program of cmd/seed is safe to interrupt. */
  lemma ProgramIsSafe()
    ensures SafeProgram(Program())
  {
    PermissionStepsApart();
    RateStepsApart();
    RetireStepsAre();
    ConfigStepsApart();
    assert RETIRED_PREFIXES != [];
    hide PermissionSteps, RateSteps, RetireSteps, ConfigSteps, RETIRED_PREFIXES, RETIRED_KEYS;
    var p, r, x, c := PermissionSteps(), RateSteps(), RetireSteps(), ConfigSteps();
    var steps := Program();
    ApartTogether(p, r);
    ApartTogether(p + r, x);
    ApartTogether(p + r + x, c);
    AllFine(p, r, x, c);
    AllCompatible(steps);
    hide Fine, Apart, Compatible;
    assert steps[|p| + |r| + 1] == DropPermissions(RETIRED_PREFIXES[0]);
    forall i | 0 <= i < |steps| && steps[i].DropPermissions? ensures i == |p| + |r| + 1 {
    }
  }
}
