/** Seeding as a sequence of atomic database steps: what each step does, and what
    any sequence of them leaves behind when it is interrupted and run again. */
module Seed {

  import opened Wrappers

  type UUID = nat

  // A logistics_permissions row; permission_code is unique.
  datatype Permission = Permission(id: UUID, seed: PermissionSeed)

  datatype PermissionSeed = PermissionSeed(code: string, name: string, mod: string, action: string, resource: string)

  // A role_permissions row.
  datatype Grant = Grant(role: UUID, permission: UUID)

  // The unique index of rate_limit_configs.
  datatype RateKey = RateKey(service: string, keyType: string, pattern: string)

  datatype Rate = Rate(requests: int, window: int, burst: real, description: string, isActive: bool)

  // tenant_id is NULL in a platform row.
  datatype ConfigKey = ConfigKey(tenant: Option<UUID>, key: string)

  datatype Config = Config(value: string, kind: string, description: string, isSecret: bool)

  /** The four tables. Generated IDs of rows nothing refers to are left out. The
      unique index on (tenant_id, config_key) does not stop two platform rows with
      one key, so `configs` holds all rows of a key. */
  datatype State = State(
    permissions: map<string, Permission>,
    grants: set<Grant>,
    rates: map<RateKey, Rate>,
    configs: map<ConfigKey, seq<Config>>
  )

  /** One write of the seed, with the test in front of it. The ensuring steps
      create a row if there is none with its key, the others delete. */
  datatype Step =
    | EnsurePermission(seed: PermissionSeed)
    | EnsureRate(rateKey: RateKey, rate: Rate)
    | DropGrants(prefix: string)
    | DropPermissions(prefix: string)
    | DropConfigs(keys: seq<string>)
    | EnsureConfig(key: string, config: Config)

  // The IDs of the permissions whose code has this prefix.
  function IdsOf(permissions: map<string, Permission>, prefix: string): set<UUID> {
    set code | code in permissions && prefix <= code :: permissions[code].id
  }

  // `id` is what uuid.New returns for a row that is created.
  function Exec(st: State, s: Step, id: UUID): State {
    match s
    case EnsurePermission(seed) =>
      if seed.code in st.permissions then st
      else st.(permissions := st.permissions[seed.code := Permission(id, seed)])
    case EnsureRate(key, rate) =>
      if key in st.rates then st else st.(rates := st.rates[key := rate])
    case DropGrants(prefix) =>
      st.(grants := set g | g in st.grants && g.permission !in IdsOf(st.permissions, prefix))
    case DropPermissions(prefix) =>
      st.(permissions := map code | code in st.permissions && !(prefix <= code) :: st.permissions[code])
    case DropConfigs(keys) =>
      st.(configs := map k | k in st.configs && k.key !in keys :: st.configs[k])
    case EnsureConfig(key, config) =>
      if ConfigKey(None, key) in st.configs then st
      else st.(configs := st.configs[ConfigKey(None, key) := [config]])
  }

  function Run(st: State, steps: seq<Step>, ids: seq<UUID>): State
    requires |ids| == |steps|
  {
    if steps == [] then st
    else Exec(Run(st, steps[..|steps| - 1], ids[..|steps| - 1]), steps[|steps| - 1], ids[|steps| - 1])
  }

  lemma RunOneMore(st: State, steps: seq<Step>, ids: seq<UUID>, s: Step, id: UUID)
    requires |ids| == |steps|
    ensures Run(st, steps + [s], ids + [id]) == Exec(Run(st, steps, ids), s, id)
  {
    assert (steps + [s])[..|steps|] == steps && (ids + [id])[..|ids|] == ids;
  }

  lemma {:induction false} RunSplits(st: State, steps: seq<Step>, ids: seq<UUID>, more: seq<Step>, moreIds: seq<UUID>)
    requires |ids| == |steps| && |moreIds| == |more|
    ensures Run(st, steps + more, ids + moreIds) == Run(Run(st, steps, ids), more, moreIds)
  {
    hide Exec;
    if more == [] {
      assert steps + more == steps && ids + moreIds == ids;
    } else {
      var n := |more| - 1;
      RunSplits(st, steps, ids, more[..n], moreIds[..n]);
      RunOneMore(st, steps + more[..n], ids + moreIds[..n], more[n], moreIds[n]);
      assert steps + more[..n] + [more[n]] == steps + more && ids + moreIds[..n] + [moreIds[n]] == ids + moreIds;
    }
  }

  // The step would change nothing.
  predicate Done(st: State, s: Step) {
    match s
    case EnsurePermission(seed) => seed.code in st.permissions
    case EnsureRate(key, _) => key in st.rates
    case DropGrants(prefix) => forall g :: g in st.grants ==> g.permission !in IdsOf(st.permissions, prefix)
    case DropPermissions(prefix) => forall code :: code in st.permissions ==> !(prefix <= code)
    case DropConfigs(keys) => forall k :: k in st.configs ==> k.key !in keys
    case EnsureConfig(key, _) => ConfigKey(None, key) in st.configs
  }

  // The two steps do not undo each other: what one seeds the other does not retire.
  predicate Compatible(s: Step, t: Step) {
    && (s.EnsurePermission? && t.DropPermissions? ==> !(t.prefix <= s.seed.code))
    && (s.EnsurePermission? && t.DropGrants? ==> !(t.prefix <= s.seed.code))
    && (s.EnsureConfig? && t.DropConfigs? ==> s.key !in t.keys)
  }

  // Two different steps do not seed one key.
  predicate Apart(s: Step, t: Step) {
    && (s.EnsurePermission? && t.EnsurePermission? ==> s.seed.code != t.seed.code)
    && (s.EnsureRate? && t.EnsureRate? ==> s.rateKey != t.rateKey)
    && (s.EnsureConfig? && t.EnsureConfig? ==> s.key != t.key)
  }

  ghost predicate AllApart(steps: seq<Step>) {
    forall i, j :: 0 <= i < j < |steps| ==> Apart(steps[i], steps[j])
  }

  /** What makes a sequence of steps safe to interrupt: no step undoes another, no
      key is seeded twice, and grants are dropped with their permissions, right before them. */
  ghost predicate SafeProgram(steps: seq<Step>) {
    && (forall i, j :: 0 <= i < |steps| && 0 <= j < |steps| ==> Compatible(steps[i], steps[j]))
    && AllApart(steps)
    && (forall i :: 0 <= i < |steps| && steps[i].DropPermissions? ==>
          0 < i && steps[i - 1] == DropGrants(steps[i].prefix))
    && (forall i :: 0 <= i < |steps| && steps[i].DropGrants? ==> DropPermissions(steps[i].prefix) in steps)
  }

  // -------------------------------------------------- what one step does

  lemma DoneAfter(st: State, s: Step, id: UUID)
    ensures Done(Exec(st, s, id), s)
  {
    if s.DropGrants? {
      assert IdsOf(Exec(st, s, id).permissions, s.prefix) == IdsOf(st.permissions, s.prefix);
    }
  }

  lemma DoneChangesNothing(st: State, s: Step, id: UUID)
    requires Done(st, s)
    ensures Exec(st, s, id) == st
  {
    match s
    case DropGrants(prefix) =>
      assert (set g | g in st.grants && g.permission !in IdsOf(st.permissions, prefix)) == st.grants;
    case DropPermissions(prefix) =>
      assert (map code | code in st.permissions && !(prefix <= code) :: st.permissions[code]) == st.permissions;
    case DropConfigs(keys) =>
      assert (map k | k in st.configs && k.key !in keys :: st.configs[k]) == st.configs;
    case _ =>
  }

  lemma DoneStays(st: State, s: Step, t: Step, id: UUID)
    requires Done(st, s) && Compatible(s, t) && Compatible(t, s)
    ensures Done(Exec(st, t, id), s)
  {
    if s.DropGrants? {
      var ids := IdsOf(st.permissions, s.prefix);
      assert IdsOf(Exec(st, t, id).permissions, s.prefix) <= ids;
    }
  }

  // ------------------------------------------------- where all runs end

  predicate RetiredCode(steps: seq<Step>, code: string) {
    exists i :: 0 <= i < |steps| && steps[i].DropPermissions? && steps[i].prefix <= code
  }

  predicate RetiredKey(steps: seq<Step>, key: string) {
    exists i :: 0 <= i < |steps| && steps[i].DropConfigs? && key in steps[i].keys
  }

  // The grant refers to a retired permission.
  predicate RetiredGrant(steps: seq<Step>, st: State, g: Grant) {
    exists code :: code in st.permissions && st.permissions[code].id == g.permission && RetiredCode(steps, code)
  }

  // A state without the generated permission IDs.
  datatype Content = Content(
    permissions: map<string, PermissionSeed>,
    grants: set<Grant>,
    rates: map<RateKey, Rate>,
    configs: map<ConfigKey, seq<Config>>
  )

  function Erase(st: State): Content {
    Content(map code | code in st.permissions :: st.permissions[code].seed, st.grants, st.rates, st.configs)
  }

  /** `end` is what complete seeding makes of st, said table by table: retired rows
      and their grants are gone, every other row is as it was, and the seeded rows
      whose key was free have been added, and nothing else. */
  ghost predicate Seeded(steps: seq<Step>, st: State, end: Content) {
    && SeededPermissions(steps, st, end.permissions)
    && (forall g :: g in end.grants <==> g in st.grants && !RetiredGrant(steps, st, g))
    && SeededRates(steps, st, end.rates)
    && SeededConfigs(steps, st, end.configs)
  }

  ghost predicate SeededPermissions(steps: seq<Step>, st: State, permissions: map<string, PermissionSeed>) {
    && (forall code :: code in permissions ==>
          && !RetiredCode(steps, code)
          && if code in st.permissions then permissions[code] == st.permissions[code].seed
             else EnsurePermission(permissions[code]) in steps && permissions[code].code == code)
    && (forall code :: code in st.permissions && !RetiredCode(steps, code) ==> code in permissions)
    && (forall i :: 0 <= i < |steps| && steps[i].EnsurePermission? ==> steps[i].seed.code in permissions)
  }

  ghost predicate SeededRates(steps: seq<Step>, st: State, rates: map<RateKey, Rate>) {
    && (forall k :: k in rates ==>
          if k in st.rates then rates[k] == st.rates[k] else EnsureRate(k, rates[k]) in steps)
    && (forall k :: k in st.rates ==> k in rates)
    && (forall i :: 0 <= i < |steps| && steps[i].EnsureRate? ==> steps[i].rateKey in rates)
  }

  ghost predicate SeededConfigs(steps: seq<Step>, st: State, configs: map<ConfigKey, seq<Config>>) {
    && (forall k :: k in configs ==>
          && !RetiredKey(steps, k.key)
          && if k in st.configs then configs[k] == st.configs[k]
             else k.tenant == None && |configs[k]| == 1 && EnsureConfig(k.key, configs[k][0]) in steps)
    && (forall k :: k in st.configs && !RetiredKey(steps, k.key) ==> k in configs)
    && (forall i :: 0 <= i < |steps| && steps[i].EnsureConfig? ==> ConfigKey(None, steps[i].key) in configs)
  }
}
