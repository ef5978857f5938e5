/** How withHooks wraps a mutator in a stack of hooks, and how Use builds the
    stack. */
module HookStack {

  import opened Wrappers
  import opened Schema
  import opened Chain
  import opened BulkSave
  import opened SingleSave

  /** What a mutator works on: the mutation the builder points at, the mutation
      it is handed (`same` if they are one object), and the table. */
  datatype Input = Input(own: MutationState, m: MutationState, same: bool, table: Table)

  type Mutator = Input -> (MutationState, Table, Outcome)

  // hook(next), as a mutator.
  function Wrap(hook: Hook, next: Mutator): Mutator {
    (x: Input) =>
      match hook.before(x.m.draft)
      case Return(out) => (x.own, x.table, out)
      case Call(d, after) =>
        var m := x.m.(draft := d);
        var (own, table, out) := next(Input(if x.same then m else x.own, m, x.same, x.table));
        (own, table, after(out))
      case CallWith(d, after) =>
        var (own, table, out) := next(Input(x.own, MutationState(d, false), false, x.table));
        (own, table, after(out))
  }

  // The right fold h0(h1(...(exec))).
  function Fold(hooks: seq<Hook>, exec: Mutator): Mutator {
    if hooks == [] then exec else Wrap(hooks[0], Fold(hooks[1..], exec))
  }

  /** The loop of withHooks: from the last hook to the first, and no mutator at
      all if one of them is nil. */
  method WithHooks(hooks: seq<Option<Hook>>, exec: Mutator) returns (mut: Option<Mutator>)
    ensures mut.None? <==> HasNil(hooks)
    ensures mut.Some? ==> mut.value == Fold(Live(hooks), exec)
  {
    hide Wrap;
    var built := exec;
    ghost var live: seq<Hook> := [];
    var i := |hooks|;
    while i > 0
      invariant 0 <= i <= |hooks| && |live| == |hooks| - i
      invariant forall k :: i <= k < |hooks| ==> hooks[k] == Some(live[k - i])
      invariant built == Fold(live, exec)
    {
      i := i - 1;
      if hooks[i].None? {
        return None;
      }
      built := Wrap(hooks[i].value, built);
      live := [hooks[i].value] + live;
    }
    assert live == Live(hooks);
    return Some(built);
  }

  /** The closures that withHooks nests run the hooks from the outermost in: the
      fold is the recursion over the stack that the single save is modelled by. */
  lemma {:induction false} FoldRunsHooks(e: Entity, hooks: seq<Hook>, h: nat, own: MutationState, m: MutationState,
                                         same: bool, t: Table, server: Server)
    requires h <= |hooks| && (same ==> own == m)
    ensures Fold(hooks[h..], (x: Input) => SqlSave(e, x.m, x.table, server))(Input(own, m, same, t)) ==
            RunHooks(e, hooks, h, own, m, same, t, server)
    decreases |hooks| - h
  {
    hide SqlSave;
    if h < |hooks| {
      assert hooks[h..][1..] == hooks[h + 1..];
      match hooks[h].before(m.draft)
      case Return(_) =>
      case Call(d, _) =>
        var m1 := m.(draft := d);
        FoldRunsHooks(e, hooks, h + 1, if same then m1 else own, m1, same, t, server);
      case CallWith(d, _) =>
        FoldRunsHooks(e, hooks, h + 1, own, MutationState(d, false), false, t, server);
    }
  }

  // The hook list of one entity in a client.
  class HookList {
    var hooks: seq<Option<Hook>>

    constructor ()
      ensures hooks == []
    {
      hooks := [];
    }

    method Use(more: seq<Option<Hook>>)
      modifies this
      ensures hooks == old(hooks) + more
    {
      hooks := hooks + more;
    }
  }

  /** Registering xs and then ys puts xs outside ys, whatever the mutator. */
  lemma {:induction false} UseComposes(xs: seq<Hook>, ys: seq<Hook>, exec: Mutator)
    ensures Fold(xs + ys, exec) == Fold(xs, Fold(ys, exec))
  {
    hide Wrap;
    if xs == [] {
      assert xs + ys == ys;
    } else {
      assert (xs + ys)[1..] == xs[1..] + ys;
      UseComposes(xs[1..], ys, exec);
    }
  }
}
