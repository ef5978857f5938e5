/** CreateBulk(...).Save: building the chain of mutators and running it. */
module BulkSave {

  import opened Wrappers
  import opened Schema
  import opened Chain

  // A node slot that no core filled is a nil pointer in the returned slice.
  datatype SaveResult = Saved(nodes: seq<Option<Node>>) | NotSaved(error: Error) | Panicked

  function Start(ms: seq<MutationState>, t: Table, server: Server, log: seq<Event>): (w: World)
    ensures |w.mutations| == |w.nodes| == |w.specs| == |ms|
  {
    World(ms, seq(|ms|, i => None), seq(|ms|, i => None), t, server, log)
  }

  function BulkRun(e: Entity, hooks: seq<seq<Hook>>, w: World): (World, SaveResult)
    requires Shape(hooks, w)
  {
    if hooks == [] then (w, Saved([]))
    else
      var (w2, out) := Run(e, hooks, 0, 0, w.mutations[0], true, w);
      (w2, if out.Failed? then NotSaved(out.error) else Saved(w2.nodes))
  }

  ghost predicate HasNil(hooks: seq<Option<Hook>>) {
    exists h :: 0 <= h < |hooks| && hooks[h].None?
  }

  function Live(hooks: seq<Option<Hook>>): seq<Hook>
    requires !HasNil(hooks)
  {
    seq(|hooks|, h requires 0 <= h < |hooks| => hooks[h].value)
  }

  ghost predicate States(bs: seq<Builder>, ms: seq<MutationState>)
    reads bs, set i | 0 <= i < |bs| :: bs[i].mutation
  {
    && |bs| == |ms|
    && forall i :: 0 <= i < |bs| ==> ms[i] == MutationState(bs[i].mutation.draft, bs[i].mutation.done)
  }

  // The mutations after defaults().
  ghost function Ready(e: Entity, ms: seq<MutationState>, clocks: seq<Column -> int>, ids: seq<UUID>)
    : (r: seq<MutationState>)
    requires |ms| == |clocks| == |ids|
  {
    seq(|ms|, i requires 0 <= i < |ms| == |clocks| == |ids| =>
      ms[i].(draft := Defaulted(e, ms[i].draft, clocks[i], ids[i])))
  }

  ghost predicate NilFree(bs: seq<Builder>) {
    forall i :: 0 <= i < |bs| ==> !HasNil(bs[i].hooks)
  }

  ghost function Stacks(bs: seq<Builder>): seq<seq<Hook>>
    requires NilFree(bs)
  {
    seq(|bs|, i requires 0 <= i < |bs| && NilFree(bs) => Live(bs[i].hooks))
  }

  lemma StatesHold(bs: seq<Builder>, muts: seq<Mutation>, nodes: array<Option<Node>>, specs: array<Option<Spec>>,
                   db: Database, w: World)
    requires Points(bs, muts) && States(bs, w.mutations)
    requires nodes[..] == w.nodes && specs[..] == w.specs
    requires db.table == w.table && db.server == w.server && db.log == w.log
    ensures Holds(muts, nodes, specs, db, w)
  {
  }

  lemma HoldsStates(bs: seq<Builder>, muts: seq<Mutation>, nodes: array<Option<Node>>, specs: array<Option<Spec>>,
                    db: Database, w: World)
    requires Points(bs, muts) && Holds(muts, nodes, specs, db, w)
    ensures States(bs, w.mutations) && nodes[..] == w.nodes && db.table == w.table && db.log == w.log
  {
  }

  class BulkBuilder {
    const err: Option<Error>  // set by MapCreateBulk on a bad argument
    const builders: seq<Builder>

    constructor (err: Option<Error>, builders: seq<Builder>)
      ensures this.err == err && this.builders == builders
    {
      this.err := err;
      this.builders := builders;
    }

    /** Save. A nil hook makes the construction of the chain panic; nothing is
        inserted then. */
    method Save(e: Entity, clocks: seq<Column -> int>, ids: seq<UUID>, db: Database, ghost muts: seq<Mutation>,
                ghost ms: seq<MutationState>)
      returns (res: SaveResult)
      requires |clocks| == |ids| == |builders|
      requires Distinct(builders) && Distinct(muts) && Points(builders, muts) && States(builders, ms)
      modifies muts, builders, db
      ensures err.Some? ==> res == NotSaved(err.value) && States(builders, ms)
      ensures err.None? && !NilFree(builders) ==> res == Panicked
      ensures err.Some? || res.Panicked? ==> db.table == old(db.table) && db.log == old(db.log)
      ensures err.None? && NilFree(builders) ==>
                var w := Start(Ready(e, ms, clocks, ids), old(db.table), db.server, old(db.log));
                var (w2, r) := BulkRun(e, Stacks(builders), w);
                res == r && States(builders, w2.mutations) && db.table == w2.table && db.log == w2.log
    {
      hide Run, Defaulted;
      if err.Some? {
        return NotSaved(err.value);
      }
      var n := |builders|;
      var specs := new Option<Spec>[n](i => None);
      var nodes := new Option<Node>[n](i => None);
      var mutators, panicked := Prepare(e, clocks, ids, muts, ms);
      if panicked {
        return Panicked;
      }
      ghost var w := Start(Ready(e, ms, clocks, ids), db.table, db.server, db.log);
      assert nodes[..] == w.nodes && specs[..] == w.specs;
      StatesHold(builders, muts, nodes, specs, db, w);
      hide Holds, States;
      if n > 0 {
        ghost var region := set x | x in muts;
        var out, muts2, w2 :=
          Mutate(e, mutators, builders, nodes, specs, db, 0, 0, builders[0].mutation, muts, region, w);
        HoldsStates(builders, muts2, nodes, specs, db, w2);
        if out.Failed? {
          return NotSaved(out.error);
        }
      }
      return Saved(nodes[..]);
    }

    // The loop of Save: defaults, and one mutator per builder.
    method Prepare(e: Entity, clocks: seq<Column -> int>, ids: seq<UUID>, ghost muts: seq<Mutation>,
                   ghost ms: seq<MutationState>)
      returns (mutators: seq<seq<Hook>>, panicked: bool)
      requires |clocks| == |ids| == |builders|
      requires Distinct(muts) && Points(builders, muts) && States(builders, ms)
      modifies muts
      ensures panicked <==> !NilFree(builders)
      ensures !panicked ==> States(builders, Ready(e, ms, clocks, ids)) && mutators == Stacks(builders)
    {
      hide Defaulted;
      mutators := [];
      for i := 0 to |builders|
        invariant |mutators| == i
        invariant forall j :: 0 <= j < i ==> !HasNil(builders[j].hooks) && mutators[j] == Live(builders[j].hooks)
        invariant forall j :: 0 <= j < |builders| ==>
                    && muts[j].done == ms[j].done
                    && muts[j].draft == if j < i then Defaulted(e, ms[j].draft, clocks[j], ids[j]) else ms[j].draft
      {
        builders[i].SetDefaults(e, clocks[i], ids[i]);
        var hooks := builders[i].hooks;
        var stack: seq<Hook> := [];
        var h := |hooks|;
        while h > 0
          invariant 0 <= h <= |hooks|
          invariant |stack| == |hooks| - h
          invariant forall k :: h <= k < |hooks| ==> hooks[k] == Some(stack[k - h])
        {
          h := h - 1;
          if hooks[h].None? {
            assert HasNil(builders[i].hooks);
            return mutators, true;
          }
          stack := [hooks[h].value] + stack;
        }
        assert stack == Live(hooks);
        mutators := mutators + [stack];
      }
      return mutators, false;
    }
  }
}
