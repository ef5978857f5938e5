/** The bulk-create chain: one mutator per builder, each wrapped in its stack of
    hooks; the core of a mutator checks, builds its node and row, and calls the
    next mutator; the last one issues the single batch insert. */
module Chain {

  import opened Wrappers
  import opened Schema
  import opened CreateRules

  // ent.Value, as returned by a mutator: the node type of the builder, or not.
  datatype Answer = NodeAnswer(node: Node) | OtherAnswer

  // (Value, error) of Mutator.Mutate.
  datatype Outcome = Done(answer: Answer) | Failed(error: Error)

  /** What a hook does once it has seen the mutation: call the next mutator after
      editing the mutation in place, call it with another mutation, or return at
      once. `after` is what it goes on with when the next mutator has returned: it
      turns that outcome into the hook's own, and may remember what was seen. */
  datatype Before =
    | Call(draft: Draft, after: Outcome -> Outcome)
    | CallWith(draft: Draft, after: Outcome -> Outcome)
    | Return(out: Outcome)

  // A hook, run as a mutator on a mutation.
  datatype Hook = Hook(before: Draft -> Before)

  type Table = map<UUID, Row>

  /** What the database decides besides the primary key: `accepts` are the other
      constraints of the table (NOT NULL, foreign keys), and `down` says that the
      driver fails the insert for a reason other than a constraint. */
  datatype Server = Server(down: bool, accepts: Row -> bool)

  datatype Event =
    | Enter(builder: nat, hook: nat)
    | Leave(builder: nat, hook: nat)
    | Checked(builder: nat, passed: bool)
    | Specified(builder: nat)
    | Batch(inserted: bool)
    | MarkedDone(builder: nat)

  // The mutation object a builder points at.
  datatype MutationState = MutationState(draft: Draft, done: bool)

  /** Everything the closures of one bulk save share. */
  datatype World = World(
    mutations: seq<MutationState>,
    nodes: seq<Option<Node>>,
    specs: seq<Option<Spec>>,
    table: Table,
    server: Server,
    log: seq<Event>
  )

  ghost predicate Shape(hooks: seq<seq<Hook>>, w: World) {
    |hooks| == |w.mutations| == |w.nodes| == |w.specs|
  }

  function Rows(specs: seq<Option<Spec>>): seq<Spec>
    requires forall s :: s in specs ==> s.Some?
  {
    seq(|specs|, i requires 0 <= i < |specs| => assert specs[i] in specs; specs[i].value)
  }

  // The primary key refuses a row without an ID and one whose ID is taken, in the
  // table or in the batch; the other constraints refuse the rows that break them.
  predicate Insertable(t: Table, server: Server, rows: seq<Spec>) {
    && (forall r :: r in rows ==> r.id.Some? && r.id.value !in t && server.accepts(Stored(r)))
    && (forall i, j :: 0 <= i < j < |rows| ==> rows[i].id != rows[j].id)
  }

  function AddRows(t: Table, rows: seq<Spec>): Table {
    if rows == [] then t
    else
      var row := Stored(rows[|rows| - 1]);
      AddRows(t, rows[..|rows| - 1])[row.id := row]
  }

  // sqlgraph.BatchCreate: all rows or none.
  function InsertError(t: Table, server: Server, rows: seq<Spec>): Option<Error> {
    if server.down then Some(DriverFailed)
    else if !Insertable(t, server, rows) then Some(ConstraintFailed) else None
  }

  // No reason to refuse any of the rows: each has an ID of its own that is not taken,
  // and meets the other constraints.
  ghost predicate Acceptable(t: Table, server: Server, specs: seq<Option<Spec>>) {
    && (forall k :: 0 <= k < |specs| ==> specs[k].Some? && AcceptsOne(t, server, specs[k].value))
    && (forall j, k :: 0 <= j < k < |specs| ==> specs[j].value.id != specs[k].value.id)
  }

  ghost predicate AcceptsOne(t: Table, server: Server, s: Spec) {
    s.id.Some? && s.id.value !in t && server.accepts(Row(s.id.value, s.cells))
  }

  // `after` holds the rows of t, the rows of the specs, and nothing else.
  ghost predicate Gained(t: Table, specs: seq<Option<Spec>>, after: Table) {
    && (forall id :: id in t ==> id in after && after[id] == t[id])
    && (forall k :: 0 <= k < |specs| && specs[k].Some? ==> HoldsSpec(after, specs[k].value))
    && (forall id :: id in after ==> id in t || IsIdOf(specs, id))
  }

  ghost predicate HoldsSpec(t: Table, s: Spec) {
    s.id.Some? && s.id.value in t && t[s.id.value] == Row(s.id.value, s.cells)
  }

  ghost predicate IsIdOf(specs: seq<Option<Spec>>, id: UUID) {
    exists k :: 0 <= k < |specs| && specs[k].Some? && specs[k].value.id == Some(id)
  }

  lemma InsertErrorIs(t: Table, server: Server, specs: seq<Option<Spec>>)
    requires forall s :: s in specs ==> s.Some?
    ensures InsertError(t, server, Rows(specs)) ==
            if server.down then Some(DriverFailed)
            else if Acceptable(t, server, specs) then None else Some(ConstraintFailed)
  {
    var rows := Rows(specs);
    forall k | 0 <= k < |specs|
      ensures specs[k].Some? && rows[k] == specs[k].value && rows[k] in rows
    {
      assert specs[k] in specs;
    }
  }

  lemma {:induction false} AddRowsGains(t: Table, server: Server, specs: seq<Option<Spec>>)
    requires (forall s :: s in specs ==> s.Some?) && Acceptable(t, server, specs)
    ensures Gained(t, specs, AddRows(t, Rows(specs)))
  {
    if specs != [] {
      var n := |specs| - 1;
      var init, last := specs[..n], specs[n].value;
      assert Rows(specs)[..n] == Rows(init) && Rows(specs)[n] == last;
      AddRowsGains(t, server, init);
      AddOneGains(t, init, AddRows(t, Rows(init)), last);
      assert specs == init + [Some(last)];
      assert AcceptsOne(t, server, last);
      assert forall k :: 0 <= k < n ==> init[k].value.id != last.id;
    }
  }

  lemma AddOneGains(t: Table, specs: seq<Option<Spec>>, after: Table, last: Spec)
    requires Gained(t, specs, after) && last.id.Some? && last.id.value !in t && !IsIdOf(specs, last.id.value)
    ensures Gained(t, specs + [Some(last)], after[last.id.value := Stored(last)])
  {
    var more := specs + [Some(last)];
    assert more[|specs|] == Some(last);
    assert forall k :: 0 <= k < |specs| ==> more[k] == specs[k];
    assert forall id :: IsIdOf(specs, id) ==> IsIdOf(more, id);
    assert IsIdOf(more, last.id.value);
  }

  function BatchInsert(w: World): (r: (World, Outcome))
    requires forall s :: s in w.specs ==> s.Some?
    ensures r.0.mutations == w.mutations && r.0.nodes == w.nodes && r.0.specs == w.specs && r.0.server == w.server
  {
    var err := InsertError(w.table, w.server, Rows(w.specs));
    if err.Some? then (Log(w, Batch(false)), Failed(err.value))
    else (Log(w, Batch(true)).(table := AddRows(w.table, Rows(w.specs))), Done(OtherAnswer))
  }

  function Log(w: World, ev: Event): World {
    w.(log := w.log + [ev])
  }

  /** Mutator i of the chain, entered at its hook h with mutation m. `same` says
      that m is the mutation builder i still points at; a hook that calls on with
      another mutation breaks that tie, and then the check in the core still
      looks at the builder's mutation while the node is built from m. */
  function Run(e: Entity, hooks: seq<seq<Hook>>, i: nat, h: nat, m: MutationState, same: bool, w: World)
    : (r: (World, Outcome))
    requires Shape(hooks, w)
    requires i < |hooks| && h <= |hooks[i]|
    requires same ==> w.mutations[i] == m
    requires forall j :: 0 <= j < i ==> w.specs[j].Some?
    ensures Shape(hooks, r.0)
    ensures r.0.server == w.server
    decreases |hooks| - i, |hooks[i]| - h, 1
  {
    if h < |hooks[i]| then
      var entered := Log(w, Enter(i, h));
      var hook := hooks[i][h];
      match hook.before(m.draft)
      case Return(out) => (Log(entered, Leave(i, h)), out)
      case Call(d, after) =>
        var edited := m.(draft := d);
        var w1 := if same then entered.(mutations := entered.mutations[i := edited]) else entered;
        var (w2, out) := Run(e, hooks, i, h + 1, edited, same, w1);
        (Log(w2, Leave(i, h)), after(out))
      case CallWith(d, after) =>
        var (w2, out) := Run(e, hooks, i, h + 1, MutationState(d, false), false, entered);
        (Log(w2, Leave(i, h)), after(out))
    else
      var err := Check(e, w.mutations[i].draft);
      if err.Some? then (Log(w, Checked(i, false)), Failed(err.value))
      else
        var w1 := Built(e, i, m, w);
        var (w2, out) := Below(e, hooks, i, w1);
        if out.Failed? then (w2, out)
        else
          var node := CreateNode(e, m.draft);
          (Marked(i, node.id, w2), Done(NodeAnswer(node)))
  }

  // What the core of mutator i calls: the next mutator, or the insert.
  function Below(e: Entity, hooks: seq<seq<Hook>>, i: nat, w: World): (r: (World, Outcome))
    requires Shape(hooks, w)
    requires i < |hooks| && forall j :: 0 <= j <= i ==> w.specs[j].Some?
    ensures Shape(hooks, r.0)
    ensures r.0.server == w.server
    decreases |hooks| - i, 0, 0
  {
    if i + 1 < |hooks| then Run(e, hooks, i + 1, 0, w.mutations[i + 1], true, w) else BatchInsert(w)
  }

  // builder.mutation = mutation; nodes[i], specs[i] = builder.createSpec()
  function Built(e: Entity, i: nat, m: MutationState, w: World): (w1: World)
    requires i < |w.mutations| == |w.nodes| == |w.specs|
  {
    w.(mutations := w.mutations[i := m],
       nodes := w.nodes[i := Some(CreateNode(e, m.draft))],
       specs := w.specs[i := Some(CreateSpec(e, m.draft))],
       log := w.log + [Checked(i, true), Specified(i)])
  }

  // mutation.id = &nodes[i].ID; mutation.done = true
  function Marked(i: nat, id: UUID, w: World): (w1: World)
    requires i < |w.mutations|
  {
    Log(w, MarkedDone(i)).(mutations := w.mutations[i := MutationState(w.mutations[i].draft.(id := Some(id)), true)])
  }

  // ---------------------------------------------------------------- on the heap

  class Mutation {
    var draft: Draft
    var done: bool

    constructor (draft: Draft)
      ensures this.draft == draft && !done
    {
      this.draft := draft;
      done := false;
    }
  }

  class Builder {
    var mutation: Mutation
    const hooks: seq<Option<Hook>>  // None is a nil hook

    constructor (mutation: Mutation, hooks: seq<Option<Hook>>)
      ensures this.mutation == mutation && this.hooks == hooks
    {
      this.mutation := mutation;
      this.hooks := hooks;
    }

    method SetDefaults(e: Entity, clock: Column -> int, newId: UUID)
      modifies mutation`draft
      ensures mutation.draft == Defaulted(e, old(mutation.draft), clock, newId)
      ensures FilledIn(e, old(mutation.draft), mutation.draft, clock, newId)
    {
      hide Entity.Defaults, FilledIn;
      DefaultedFillsIn(e, mutation.draft, clock, newId);
      var fields := mutation.draft.fields;
      for k := 0 to |e.Defaults()|
        invariant fields == DefaultFields(e.Defaults()[..k], mutation.draft.fields, clock)
      {
        assert e.Defaults()[..k + 1][..k] == e.Defaults()[..k];
        var rule := e.Defaults()[k];
        if rule.col !in fields {
          fields := fields[rule.col := if rule.Always? then rule.v else TimeV(clock(rule.col))];
        }
      }
      assert e.Defaults()[..|e.Defaults()|] == e.Defaults();
      var id := if mutation.draft.id.None? then Some(newId) else mutation.draft.id;
      mutation.draft := Draft(id, fields);
    }
  }

  class Database {
    var table: Table
    const server: Server
    var log: seq<Event>

    constructor (table: Table, server: Server)
      ensures this.table == table && this.server == server && log == []
    {
      this.table := table;
      this.server := server;
      log := [];
    }

    method BatchCreate(specs: array<Option<Spec>>, ghost w: World) returns (out: Outcome)
      requires forall k :: 0 <= k < specs.Length ==> specs[k].Some?
      requires w.specs == specs[..] && w.table == table && w.server == server && w.log == log
      modifies this
      ensures table == BatchInsert(w).0.table && log == BatchInsert(w).0.log && out == BatchInsert(w).1
      ensures server.down ==> out == Failed(DriverFailed)
      ensures !server.down && !Acceptable(old(table), server, specs[..]) ==> out == Failed(ConstraintFailed)
      ensures !server.down && Acceptable(old(table), server, specs[..]) ==> out.Done?
      ensures if out.Done? then Gained(old(table), specs[..], table) else table == old(table)
    {
      hide Acceptable, Gained, AddRows, InsertError, Rows;
      assert forall s :: s in specs[..] ==> s.Some?;
      InsertErrorIs(table, server, specs[..]);
      if Acceptable(table, server, specs[..]) {
        AddRowsGains(table, server, specs[..]);
      }
      var rows := Rows(specs[..]);
      var err := InsertError(table, server, rows);
      log := log + [Batch(err.None?)];
      if err.Some? {
        return Failed(err.value);
      }
      table := AddRows(table, rows);
      return Done(OtherAnswer);
    }
  }

  ghost predicate Distinct<T>(xs: seq<T>) {
    forall i, j :: 0 <= i < j < |xs| ==> xs[i] != xs[j]
  }

  // muts are the mutations the builders point at.
  ghost predicate Points(bs: seq<Builder>, muts: seq<Mutation>)
    reads bs
  {
    |bs| == |muts| && forall i :: 0 <= i < |bs| ==> bs[i].mutation == muts[i]
  }

  // The heap objects of a bulk save hold the values of w.
  ghost predicate Holds(muts: seq<Mutation>, nodes: array<Option<Node>>, specs: array<Option<Spec>>, db: Database,
                        w: World)
    reads muts, nodes, specs, db
  {
    && |muts| == |w.mutations|
    && (forall i :: 0 <= i < |muts| ==> w.mutations[i] == MutationState(muts[i].draft, muts[i].done))
    && nodes[..] == w.nodes && specs[..] == w.specs
    && db.table == w.table && db.server == w.server && db.log == w.log
  }

  /** Mutators[i].Mutate(m), from its hook h on. */
  method Mutate(e: Entity, mutators: seq<seq<Hook>>, bs: seq<Builder>, nodes: array<Option<Node>>,
                specs: array<Option<Spec>>, db: Database,
                i: nat, h: nat, m: Mutation, ghost muts: seq<Mutation>, ghost region: set<Mutation>, ghost w: World)
    returns (out: Outcome, ghost muts2: seq<Mutation>, ghost w2: World)
    requires |mutators| == |bs| && i < |bs| && h <= |mutators[i]|
    requires Distinct(bs) && Distinct(muts) && Points(bs, muts)
    requires Holds(muts, nodes, specs, db, w) && Shape(mutators, w)
    requires m == muts[i] || m !in muts
    requires m in region && forall x :: x in muts ==> x in region
    requires forall j :: 0 <= j < i ==> w.specs[j].Some?
    modifies region, bs, nodes, specs, db
    ensures Distinct(muts2) && Points(bs, muts2) && forall j :: 0 <= j < i ==> muts2[j] == muts[j]
    ensures Holds(muts2, nodes, specs, db, w2)
    ensures (w2, out) == Run(e, mutators, i, h, MutationState(old(m.draft), old(m.done)), m == muts[i], w)
    decreases |bs| - i, |mutators[i]| - h, 2
  {
    hide Run;
    if h == |mutators[i]| {
      out, muts2, w2 := Core(e, mutators, bs, nodes, specs, db, i, m, muts, region, w);
      return;
    }
    var hook := mutators[i][h];
    RunAtHook(e, mutators, i, h, MutationState(m.draft, m.done), m == muts[i], w);
    var before, next, w1 := EnterHook(hook, nodes, specs, db, i, h, m, muts, w);
    if before.Return? {
      LeaveHook(nodes, specs, db, i, h, muts, w1);
      return before.out, muts, Log(w1, Leave(i, h));
    }
    out, muts2, w2 := Mutate(e, mutators, bs, nodes, specs, db, i, h + 1, next, muts, region + {next}, w1);
    LeaveHook(nodes, specs, db, i, h, muts2, w2);
    w2 := Log(w2, Leave(i, h));
    out := before.after(out);
  }

  method LeaveHook(nodes: array<Option<Node>>, specs: array<Option<Spec>>, db: Database, i: nat, h: nat,
                   ghost muts: seq<Mutation>, ghost w: World)
    requires Holds(muts, nodes, specs, db, w)
    modifies db
    ensures Holds(muts, nodes, specs, db, Log(w, Leave(i, h)))
  {
    db.log := db.log + [Leave(i, h)];
  }

  lemma RunAtHook(e: Entity, hooks: seq<seq<Hook>>, i: nat, h: nat, m: MutationState, same: bool, w: World)
    requires Shape(hooks, w)
    requires i < |hooks| && h < |hooks[i]|
    requires same ==> w.mutations[i] == m
    requires forall j :: 0 <= j < i ==> w.specs[j].Some?
    ensures var entered := Log(w, Enter(i, h));
            var r := Run(e, hooks, i, h, m, same, w);
            match hooks[i][h].before(m.draft) {
              case Return(out) => r == (Log(entered, Leave(i, h)), out)
              case Call(d, after) =>
                var m1 := m.(draft := d);
                var w1 := if same then entered.(mutations := entered.mutations[i := m1]) else entered;
                var below := Run(e, hooks, i, h + 1, m1, same, w1);
                r == (Log(below.0, Leave(i, h)), after(below.1))
              case CallWith(d, after) =>
                var below := Run(e, hooks, i, h + 1, MutationState(d, false), false, entered);
                r == (Log(below.0, Leave(i, h)), after(below.1))
            }
  {
  }

  // The part of a hook before it calls the next mutator.
  method EnterHook(hook: Hook, nodes: array<Option<Node>>, specs: array<Option<Spec>>, db: Database,
                   i: nat, h: nat, m: Mutation, ghost muts: seq<Mutation>, ghost w: World)
    returns (before: Before, next: Mutation, ghost w1: World)
    requires i < |muts| && Distinct(muts) && Holds(muts, nodes, specs, db, w)
    requires m == muts[i] || m !in muts
    modifies m, db
    ensures before == hook.before(old(m.draft))
    ensures next == m || fresh(next)
    ensures before.Return? ==> next == m
    ensures before.Call? ==> next == m && m.draft == before.draft && m.done == old(m.done)
    ensures before.CallWith? ==> fresh(next) && next.draft == before.draft && !next.done
    ensures Holds(muts, nodes, specs, db, w1)
    ensures w1 == if before.Call? && m == muts[i]
                  then Log(w, Enter(i, h)).(mutations := w.mutations[i := w.mutations[i].(draft := before.draft)])
                  else Log(w, Enter(i, h))
  {
    db.log := db.log + [Enter(i, h)];
    before := hook.before(m.draft);
    next := m;
    w1 := Log(w, Enter(i, h));
    match before {
      case Return(_) =>
      case Call(d, _) =>
        m.draft := d;
        if m == muts[i] {
          w1 := w1.(mutations := w.mutations[i := w.mutations[i].(draft := d)]);
        }
      case CallWith(d, _) =>
        next := new Mutation(d);
    }
  }

  /** The closure at the bottom of mutator i's hooks. */
  method Core(e: Entity, mutators: seq<seq<Hook>>, bs: seq<Builder>, nodes: array<Option<Node>>,
              specs: array<Option<Spec>>, db: Database,
              i: nat, m: Mutation, ghost muts: seq<Mutation>, ghost region: set<Mutation>, ghost w: World)
    returns (out: Outcome, ghost muts2: seq<Mutation>, ghost w2: World)
    requires |mutators| == |bs| && i < |bs|
    requires Distinct(bs) && Distinct(muts) && Points(bs, muts)
    requires Holds(muts, nodes, specs, db, w) && Shape(mutators, w)
    requires m == muts[i] || m !in muts
    requires m in region && forall x :: x in muts ==> x in region
    requires forall j :: 0 <= j < i ==> w.specs[j].Some?
    modifies region, bs, nodes, specs, db
    ensures Distinct(muts2) && Points(bs, muts2) && forall j :: 0 <= j < i ==> muts2[j] == muts[j]
    ensures Holds(muts2, nodes, specs, db, w2)
    ensures (w2, out) == Run(e, mutators, i, |mutators[i]|, MutationState(old(m.draft), old(m.done)), m == muts[i], w)
    decreases |bs| - i, 0, 1
  {
    hide Check, CreateNode, CreateSpec, Below, Built, Marked;
    var err := Check(e, bs[i].mutation.draft);
    if err.Some? {
      db.log := db.log + [Checked(i, false)];
      return Failed(err.value), muts, Log(w, Checked(i, false));
    }
    ghost var w1 := Built(e, i, MutationState(m.draft, m.done), w);
    var node := Build(e, bs, nodes, specs, db, i, m, muts, w);
    BuiltShape(e, i, MutationState(old(m.draft), old(m.done)), w);
    muts2 := muts[i := m];
    out, muts2, w2 := Next(e, mutators, bs, nodes, specs, db, i, muts2, region, w1);
    if out.Done? {
      MarkDone(nodes, specs, db, i, m, node.id, muts2, w2);
      w2 := Marked(i, node.id, w2);
      out := Done(NodeAnswer(node));
    }
  }

  method Next(e: Entity, mutators: seq<seq<Hook>>, bs: seq<Builder>, nodes: array<Option<Node>>,
              specs: array<Option<Spec>>, db: Database,
              i: nat, ghost muts: seq<Mutation>, ghost region: set<Mutation>, ghost w: World)
    returns (out: Outcome, ghost muts2: seq<Mutation>, ghost w2: World)
    requires |mutators| == |bs| && i < |bs|
    requires Distinct(bs) && Distinct(muts) && Points(bs, muts)
    requires Holds(muts, nodes, specs, db, w) && Shape(mutators, w)
    requires forall x :: x in muts ==> x in region
    requires forall j :: 0 <= j <= i ==> w.specs[j].Some?
    modifies region, bs, nodes, specs, db
    ensures Distinct(muts2) && Points(bs, muts2) && forall j :: 0 <= j <= i ==> muts2[j] == muts[j]
    ensures Holds(muts2, nodes, specs, db, w2)
    ensures (w2, out) == Below(e, mutators, i, w)
    decreases |bs| - i, 0, 0
  {
    hide Run, BatchInsert;
    if i + 1 < |bs| {
      out, muts2, w2 := Mutate(e, mutators, bs, nodes, specs, db, i + 1, 0, bs[i + 1].mutation, muts, region, w);
    } else {
      out := db.BatchCreate(specs, w);
      muts2, w2 := muts, BatchInsert(w).0;
    }
  }

  lemma BuiltShape(e: Entity, i: nat, m: MutationState, w: World)
    requires i < |w.mutations| == |w.nodes| == |w.specs|
    ensures var w1 := Built(e, i, m, w);
            && |w1.mutations| == |w1.nodes| == |w1.specs| == |w.mutations|
            && w1.mutations[i] == m && w1.server == w.server
            && w1.nodes[i] == Some(CreateNode(e, m.draft)) && w1.specs[i] == Some(CreateSpec(e, m.draft))
            && (forall j :: 0 <= j < |w.mutations| && j != i ==>
                  w1.mutations[j] == w.mutations[j] && w1.specs[j] == w.specs[j] && w1.nodes[j] == w.nodes[j])
  {
  }

  method Build(e: Entity, bs: seq<Builder>, nodes: array<Option<Node>>, specs: array<Option<Spec>>, db: Database,
               i: nat, m: Mutation, ghost muts: seq<Mutation>, ghost w: World)
    returns (node: Node)
    requires i < |bs| == |w.nodes| == |w.specs| && Distinct(bs) && Points(bs, muts)
    requires Holds(muts, nodes, specs, db, w)
    requires m == muts[i] || m !in muts
    modifies bs[i], nodes, specs, db
    ensures Points(bs, muts[i := m])
    ensures Holds(muts[i := m], nodes, specs, db, Built(e, i, MutationState(m.draft, m.done), w))
    ensures node == CreateNode(e, m.draft)
  {
    hide CreateNode, CreateSpec;
    bs[i].mutation := m;
    node := CreateNode(e, m.draft);
    nodes[i], specs[i] := Some(node), Some(CreateSpec(e, m.draft));
    db.log := db.log + [Checked(i, true), Specified(i)];
  }

  method MarkDone(nodes: array<Option<Node>>, specs: array<Option<Spec>>, db: Database,
                  i: nat, m: Mutation, id: UUID, ghost muts: seq<Mutation>, ghost w: World)
    requires i < |muts| && Distinct(muts) && muts[i] == m && Holds(muts, nodes, specs, db, w)
    modifies m, db
    ensures Holds(muts, nodes, specs, db, Marked(i, id, w))
  {
    m.draft := m.draft.(id := Some(id));
    m.done := true;
    db.log := db.log + [MarkedDone(i)];
  }
}
