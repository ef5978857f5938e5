/** Create().Save: withHooks around check, createSpec and a one-row insert. */
module SingleSave {

  import opened Wrappers
  import opened Schema
  import opened CreateRules
  import opened Chain
  import opened BulkSave

  datatype SingleResult = Created(node: Node) | NotCreated(error: Error)

  /** sqlSave: what happens once the hooks let the call through; `own` is the
      mutation of the builder. */
  function SqlSave(e: Entity, own: MutationState, t: Table, server: Server): (MutationState, Table, Outcome) {
    var err := Check(e, own.draft);
    if err.Some? then (own, t, Failed(err.value))
    else
      var node := CreateNode(e, own.draft);
      var rows := [CreateSpec(e, own.draft)];
      var bad := InsertError(t, server, rows);
      if bad.Some? then (own, t, Failed(bad.value))
      else
        (MutationState(own.draft.(id := Some(node.id)), true), AddRows(t, rows), Done(NodeAnswer(node)))
  }

  /** The mutator that withHooks builds, entered at hook h with mutation m. The
      innermost one copies m into the builder's mutation before it saves. */
  function RunHooks(e: Entity, hooks: seq<Hook>, h: nat, own: MutationState, m: MutationState, same: bool,
                    t: Table, server: Server)
    : (MutationState, Table, Outcome)
    requires h <= |hooks| && (same ==> own == m)
    decreases |hooks| - h
  {
    if h == |hooks| then SqlSave(e, m, t, server)
    else
      match hooks[h].before(m.draft)
      case Return(out) => (own, t, out)
      case Call(d, after) =>
        var m1 := m.(draft := d);
        var (own2, t2, out) := RunHooks(e, hooks, h + 1, if same then m1 else own, m1, same, t, server);
        (own2, t2, after(out))
      case CallWith(d, after) =>
        var (own2, t2, out) := RunHooks(e, hooks, h + 1, own, MutationState(d, false), false, t, server);
        (own2, t2, after(out))
  }

  // withHooks, on a builder whose defaults are filled in.
  function SaveOne(e: Entity, hooks: seq<Option<Hook>>, m: MutationState, t: Table, server: Server)
    : (MutationState, Table, SingleResult)
  {
    if exists h :: 0 <= h < |hooks| && hooks[h].None? then (m, t, NotCreated(NilHook))
    else
      var (m2, t2, out) := RunHooks(e, Live(hooks), 0, m, m, true, t, server);
      (m2, t2,
       match out
       case Failed(err) => NotCreated(err)
       case Done(OtherAnswer) => NotCreated(UnexpectedNode)
       case Done(NodeAnswer(node)) => Created(node))
  }

  /** Save of a builder without hooks: the error of the check, then the driver's, then
      the constraint's (a taken ID among them), or else the node, with its row added. */
  lemma SaveWithoutHooks(e: Entity, m: MutationState, t: Table, server: Server)
    requires Typed(e, m.draft)
    ensures var r := SaveOne(e, [], m, t, server);
            var err := Check(e, m.draft);
            && (err.Some? ==> r == (m, t, NotCreated(err.value)))
            && (err.None? && server.down ==> r == (m, t, NotCreated(DriverFailed)))
            && (err.None? && !server.down && !AcceptsOne(t, server, Spec(m.draft.id, m.draft.fields)) ==>
                  r == (m, t, NotCreated(ConstraintFailed)))
            && (err.None? && !server.down && AcceptsOne(t, server, Spec(m.draft.id, m.draft.fields)) ==>
                  var id := m.draft.id.value;
                  r == (MutationState(m.draft, true), t[id := Row(id, m.draft.fields)],
                        Created(CreateNode(e, m.draft))))
  {
    hide Check, Entity.Field, Entity.Columns;
    CreateSpecIs(e, m.draft);
    hide CreateSpec, CreateNode;
    var spec := CreateSpec(e, m.draft);
    assert AddRows(t, []) == t && [spec][..0] == [];
    assert spec in [spec];
  }

  /** And so a fleet is created iff the caller has set its tenant, slug and name and
      the database takes the row: everything else has a default. */
  lemma FleetIsSavedIff(d: Draft, clock: Column -> int, newId: UUID, t: Table, server: Server)
    requires Typed(Fleet, d)
    ensures var m := MutationState(Defaulted(Fleet, d, clock, newId), false);
            SaveOne(Fleet, [], m, t, server).2.Created? <==>
              && IsSet(d, TenantIdCol) && HasText(d, TenantSlugCol) && HasText(d, NameCol)
              && !server.down && AcceptsOne(t, server, Spec(m.draft.id, m.draft.fields))
  {
    hide Defaulted, Check, SaveOne, AcceptsOne, Entity.Field, Entity.Columns;
    DefaultedIsTyped(Fleet, d, clock, newId);
    FleetCheck(d, clock, newId);
    SaveWithoutHooks(Fleet, MutationState(Defaulted(Fleet, d, clock, newId), false), t, server);
  }

  // A nil hook anywhere: nothing is run, checked or stored.
  lemma NilHookStops(e: Entity, hooks: seq<Option<Hook>>, h: nat, m: MutationState, t: Table, server: Server)
    requires h < |hooks| && hooks[h].None?
    ensures SaveOne(e, hooks, m, t, server) == (m, t, NotCreated(NilHook))
  {
  }

  /** A hook that answers by itself: an error and a node of the entity are handed to the
      caller, anything else is an unexpected node, and nothing is stored. */
  lemma OwnAnswerIsHandedOn(e: Entity, hook: Hook, inner: seq<Option<Hook>>, m: MutationState, t: Table,
                            server: Server)
    requires hook.before(m.draft).Return? && forall h :: 0 <= h < |inner| ==> inner[h].Some?
    ensures var (m2, t2, res) := SaveOne(e, [Some(hook)] + inner, m, t, server);
            && m2 == m && t2 == t
            && match hook.before(m.draft).out {
                 case Failed(err) => res == NotCreated(err)
                 case Done(NodeAnswer(node)) => res == Created(node)
                 case Done(OtherAnswer) => res == NotCreated(UnexpectedNode)
               }
  {
    hide SqlSave;
    var hooks := [Some(hook)] + inner;
    assert hooks[0] == Some(hook) && Live(hooks)[0] == hook;
    assert forall h :: 1 <= h < |hooks| ==> hooks[h] == inner[h - 1];
  }

  method Save(e: Entity, b: Builder, clock: Column -> int, newId: UUID, db: Database) returns (res: SingleResult)
    modifies b.mutation, db
    ensures var start := MutationState(Defaulted(e, old(b.mutation.draft), clock, newId), old(b.mutation.done));
            (MutationState(b.mutation.draft, b.mutation.done), db.table, res) ==
            SaveOne(e, b.hooks, start, old(db.table), db.server)
  {
    hide Check, CreateNode, CreateSpec, AddRows, InsertError, Defaulted;
    b.SetDefaults(e, clock, newId);
    var stack: seq<Hook> := [];
    var h := |b.hooks|;
    while h > 0
      invariant 0 <= h <= |b.hooks| && |stack| == |b.hooks| - h
      invariant forall k :: h <= k < |b.hooks| ==> b.hooks[k] == Some(stack[k - h])
    {
      h := h - 1;
      if b.hooks[h].None? {
        return NotCreated(NilHook);
      }
      stack := [b.hooks[h].value] + stack;
    }
    assert stack == Live(b.hooks);
    var out := Mutate(e, stack, 0, b.mutation, b.mutation, db);
    match out {
      case Failed(err) => return NotCreated(err);
      case Done(OtherAnswer) => return NotCreated(UnexpectedNode);
      case Done(NodeAnswer(node)) => return Created(node);
    }
  }

  method Mutate(e: Entity, hooks: seq<Hook>, h: nat, own: Mutation, m: Mutation, db: Database) returns (out: Outcome)
    requires h <= |hooks|
    modifies own, m, db
    ensures (MutationState(own.draft, own.done), db.table, out) ==
            RunHooks(e, hooks, h, old(MutationState(own.draft, own.done)), old(MutationState(m.draft, m.done)),
                     own == m, old(db.table), db.server)
    decreases |hooks| - h
  {
    hide Check, CreateNode, CreateSpec, AddRows, InsertError;
    if h < |hooks| {
      match hooks[h].before(m.draft) {
        case Return(o) =>
          out := o;
        case Call(d, after) =>
          m.draft := d;
          out := Mutate(e, hooks, h + 1, own, m, db);
          out := after(out);
        case CallWith(d, after) =>
          var other := new Mutation(d);
          out := Mutate(e, hooks, h + 1, own, other, db);
          out := after(out);
      }
      return;
    }
    own.draft, own.done := m.draft, m.done;
    var err := Check(e, own.draft);
    if err.Some? {
      return Failed(err.value);
    }
    var node := CreateNode(e, own.draft);
    var rows := [CreateSpec(e, own.draft)];
    var bad := InsertError(db.table, db.server, rows);
    if bad.Some? {
      return Failed(bad.value);
    }
    db.table := AddRows(db.table, rows);
    own.draft, own.done := own.draft.(id := Some(node.id)), true;
    return Done(NodeAnswer(node));
  }
}
