/** What one run of the chain does, read off each builder on its own: whether
    its hooks and its check let it through, and which draft reaches its core. */
module ChainProofs {

  import opened Wrappers
  import opened Schema
  import opened Chain

  /** Clear: the core of the builder builds from this mutation. Blocked: `depth`
      hooks called on, and then hook `depth` returned (depth < |hooks|), or the
      check failed (depth == |hooks|), with this outcome. `afters` is what the hooks
      that called on will do with what comes back, the outermost first. */
  datatype Verdict =
    | Clear(m: MutationState, afters: seq<Outcome -> Outcome>)
    | Blocked(depth: nat, out: Outcome, afters: seq<Outcome -> Outcome>)

  // One hook more that called on.
  function Under(after: Outcome -> Outcome, v: Verdict): Verdict {
    v.(afters := [after] + v.afters)
  }

  // origin is the draft of the mutation the builder points at, m the mutation
  // the hooks pass along.
  function Judge(e: Entity, hooks: seq<Hook>, h: nat, origin: Draft, m: MutationState, same: bool): (v: Verdict)
    requires h <= |hooks|
    ensures v.Blocked? ==> h <= v.depth <= |hooks|
    ensures |v.afters| == (if v.Blocked? then v.depth else |hooks|) - h
    decreases |hooks| - h
  {
    if h < |hooks| then
      match hooks[h].before(m.draft)
      case Return(out) => Blocked(h, out, [])
      case Call(d, after) => Under(after, Judge(e, hooks, h + 1, if same then d else origin, m.(draft := d), same))
      case CallWith(d, after) => Under(after, Judge(e, hooks, h + 1, origin, MutationState(d, false), false))
    else
      var err := Check(e, origin);
      if err.Some? then Blocked(h, Failed(err.value), []) else Clear(m, [])
  }

  function JudgeBuilder(e: Entity, hooks: seq<Hook>, m: MutationState): Verdict {
    Judge(e, hooks, 0, m.draft, m, true)
  }

  // The hooks that called on get to change an outcome on its way out, the innermost
  // first.
  function Unwind(afters: seq<Outcome -> Outcome>, out: Outcome): Outcome {
    if afters == [] then out else afters[0](Unwind(afters[1..], out))
  }

  function Relay(e: Entity, d: Draft, below: Outcome): Outcome {
    if below.Failed? then below else Done(NodeAnswer(CreateNode(e, d)))
  }

  ghost predicate Fit(hooks: seq<seq<Hook>>, vs: seq<Verdict>) {
    |vs| == |hooks| && forall i :: 0 <= i < |vs| && vs[i].Blocked? ==> vs[i].depth <= |hooks[i]|
  }

  // What mutator i returns, given what the batch insert returns.
  function Reply(e: Entity, hooks: seq<seq<Hook>>, vs: seq<Verdict>, i: nat, end: Outcome): Outcome
    requires i <= |hooks| && Fit(hooks, vs)
    decreases |hooks| - i
  {
    if i == |hooks| then end
    else
      match vs[i]
      case Blocked(_, out, afters) => Unwind(afters, out)
      case Clear(m, afters) => Unwind(afters, Relay(e, m.draft, Reply(e, hooks, vs, i + 1, end)))
  }

  function Entered(i: nat, lo: nat, hi: nat): seq<Event>
    requires lo <= hi
    decreases hi - lo
  {
    if lo == hi then [] else [Enter(i, lo)] + Entered(i, lo + 1, hi)
  }

  function Left(i: nat, lo: nat, hi: nat): seq<Event>
    requires lo <= hi
    decreases hi - lo
  {
    if lo == hi then [] else Left(i, lo + 1, hi) + [Leave(i, lo)]
  }

  // The events of a builder that blocks: its hooks, and its check if they let it.
  function BlockedTrace(i: nat, h: nat, depth: nat, count: nat): seq<Event>
    requires h <= depth <= count
  {
    if depth < count then Entered(i, h, depth + 1) + Left(i, h, depth + 1)
    else Entered(i, h, depth) + [Checked(i, false)] + Left(i, h, depth)
  }

  // The events of mutator i and of everything below it.
  function Trace(e: Entity, hooks: seq<seq<Hook>>, vs: seq<Verdict>, i: nat, end: Outcome): seq<Event>
    requires i <= |hooks| && Fit(hooks, vs)
    decreases |hooks| - i
  {
    if i == |hooks| then [Batch(end.Done?)]
    else
      match vs[i]
      case Blocked(depth, _, _) => BlockedTrace(i, 0, depth, |hooks[i]|)
      case Clear(_, _) =>
        Entered(i, 0, |hooks[i]|) + [Checked(i, true), Specified(i)]
        + Trace(e, hooks, vs, i + 1, end)
        + (if Reply(e, hooks, vs, i + 1, end).Done? then [MarkedDone(i)] else [])
        + Left(i, 0, |hooks[i]|)
  }

  // The world in which mutator i has built and is about to call what is below it.
  function Arrived(e: Entity, i: nat, m: MutationState, w: World, h: nat, count: nat): World
    requires i < |w.mutations| == |w.nodes| == |w.specs| && h <= count
  {
    Built(e, i, m, w.(log := w.log + Entered(i, h, count)))
  }

  // The world once mutator i returns.
  function Returned(e: Entity, i: nat, d: Draft, below: (World, Outcome), h: nat, count: nat): World
    requires i < |below.0.mutations| && h <= count
  {
    var w := if below.1.Done? then Marked(i, CreateNode(e, d).id, below.0) else below.0;
    w.(log := w.log + Left(i, h, count))
  }

  // One hook more on the way down is one hook more on the way up.
  lemma ArrivedOneHookUp(e: Entity, i: nat, h: nat, n: nat, m: MutationState, w: World, w1: World)
    requires i < |w.mutations| == |w.nodes| == |w.specs| == |w1.mutations| && h < n
    requires w1.mutations == w.mutations[i := w1.mutations[i]]
    requires w1 == w.(mutations := w1.mutations, log := w.log + [Enter(i, h)])
    ensures Arrived(e, i, m, w1, h + 1, n) == Arrived(e, i, m, w, h, n)
  {
    hide CreateNode, CreateSpec;
    assert w1.mutations[i := m] == w.mutations[i := m];
    assert w1.log + Entered(i, h + 1, n) == w.log + Entered(i, h, n);
  }

  lemma ReturnedOneHookUp(e: Entity, i: nat, h: nat, n: nat, d: Draft, below: (World, Outcome))
    requires i < |below.0.mutations| && h < n
    ensures Log(Returned(e, i, d, below, h + 1, n), Leave(i, h)) == Returned(e, i, d, below, h, n)
  {
    hide CreateNode;
    var w := if below.1.Done? then Marked(i, CreateNode(e, d).id, below.0) else below.0;
    assert w.log + Left(i, h + 1, n) + [Leave(i, h)] == w.log + Left(i, h, n);
  }

  lemma BlockedOneHookUp(i: nat, h: nat, depth: nat, n: nat, log: seq<Event>)
    requires h < depth <= n
    ensures log + [Enter(i, h)] + BlockedTrace(i, h + 1, depth, n) + [Leave(i, h)] ==
            log + BlockedTrace(i, h, depth, n)
  {
    var k := if depth < n then depth + 1 else depth;
    var mid := if depth < n then [] else [Checked(i, false)];
    Framed(log, Enter(i, h), Entered(i, h + 1, k), mid, Left(i, h + 1, k), Leave(i, h));
  }

  lemma Framed<T>(log: seq<T>, first: T, a: seq<T>, mid: seq<T>, b: seq<T>, last: T)
    ensures log + [first] + (a + mid + b) + [last] == log + ([first] + a + mid + (b + [last]))
    ensures log + [first] + (a + b) + [last] == log + ([first] + a + (b + [last]))
  {
  }

  // The way down through the hooks of one builder and back up.
  ghost predicate GoesThrough(e: Entity, hooks: seq<seq<Hook>>, i: nat, h: nat, v: Verdict, w: World,
                              r: (World, Outcome))
    requires Shape(hooks, w) && Shape(hooks, r.0)
    requires i < |hooks| && h <= |hooks[i]|
    requires v.Blocked? ==> h <= v.depth <= |hooks[i]|
    requires forall j :: 0 <= j < i ==> w.specs[j].Some?
  {
    var n := |hooks[i]|;
    match v
    case Blocked(depth, out, afters) =>
      && r.1 == Unwind(afters, out)
      && r.0 == w.(mutations := w.mutations[i := r.0.mutations[i]], log := w.log + BlockedTrace(i, h, depth, n))
      && r.0.mutations[i].done == w.mutations[i].done
    case Clear(m, afters) =>
      var below := Below(e, hooks, i, Arrived(e, i, m, w, h, n));
      && r.0 == Returned(e, i, m.draft, below, h, n)
      && r.1 == Unwind(afters, Relay(e, m.draft, below.1))
  }

  lemma {:induction false} Descends(e: Entity, hooks: seq<seq<Hook>>, i: nat, h: nat, m: MutationState, same: bool,
                                    w: World)
    requires Shape(hooks, w)
    requires i < |hooks| && h <= |hooks[i]|
    requires same ==> w.mutations[i] == m
    requires forall j :: 0 <= j < i ==> w.specs[j].Some?
    ensures GoesThrough(e, hooks, i, h, Judge(e, hooks[i], h, w.mutations[i].draft, m, same), w,
                        Run(e, hooks, i, h, m, same, w))
    decreases |hooks[i]| - h
  {
    hide Check, CreateNode, CreateSpec, Below, GoesThrough;
    var v := Judge(e, hooks[i], h, w.mutations[i].draft, m, same);
    if h == |hooks[i]| {
      AtCore(e, hooks, i, m, same, w);
    } else {
      var entered := Log(w, Enter(i, h));
      var before := hooks[i][h].before(m.draft);
      if before.Return? {
        AtReturningHook(e, hooks, i, h, before.out, w);
      } else {
        var m1 := MutationState(before.draft, before.Call? && m.done);
        var w1 := if before.Call? && same then entered.(mutations := entered.mutations[i := m1]) else entered;
        Descends(e, hooks, i, h + 1, m1, before.Call? && same, w1);
        var v1 := Judge(e, hooks[i], h + 1, w1.mutations[i].draft, m1, before.Call? && same);
        OneHookUp(e, hooks, i, h, before.after, v1, w, w1, Run(e, hooks, i, h + 1, m1, before.Call? && same, w1));
      }
    }
  }

  lemma AtCore(e: Entity, hooks: seq<seq<Hook>>, i: nat, m: MutationState, same: bool, w: World)
    requires Shape(hooks, w) && i < |hooks|
    requires same ==> w.mutations[i] == m
    requires forall j :: 0 <= j < i ==> w.specs[j].Some?
    ensures GoesThrough(e, hooks, i, |hooks[i]|, Judge(e, hooks[i], |hooks[i]|, w.mutations[i].draft, m, same), w,
                        Run(e, hooks, i, |hooks[i]|, m, same, w))
  {
    hide Check, CreateNode, CreateSpec, Below;
    var n := |hooks[i]|;
    assert w.mutations[i := w.mutations[i]] == w.mutations;
    assert w.log + Entered(i, n, n) == w.log;
    assert w.log + BlockedTrace(i, n, n, n) == w.log + [Checked(i, false)];
    if Check(e, w.mutations[i].draft).None? {
      var below := Below(e, hooks, i, Built(e, i, m, w));
      var last := if below.1.Done? then Marked(i, CreateNode(e, m.draft).id, below.0) else below.0;
      assert last.log + Left(i, n, n) == last.log;
    }
  }

  lemma AtReturningHook(e: Entity, hooks: seq<seq<Hook>>, i: nat, h: nat, out: Outcome, w: World)
    requires Shape(hooks, w) && i < |hooks| && h < |hooks[i]|
    requires forall j :: 0 <= j < i ==> w.specs[j].Some?
    ensures GoesThrough(e, hooks, i, h, Blocked(h, out, []), w, (Log(Log(w, Enter(i, h)), Leave(i, h)), out))
  {
    assert w.mutations[i := w.mutations[i]] == w.mutations;
    assert Entered(i, h, h + 1) == [Enter(i, h)] + Entered(i, h + 1, h + 1);
    assert Left(i, h, h + 1) == Left(i, h + 1, h + 1) + [Leave(i, h)];
    assert w.log + BlockedTrace(i, h, h, |hooks[i]|) == w.log + [Enter(i, h)] + [Leave(i, h)];
  }

  lemma OneHookUp(e: Entity, hooks: seq<seq<Hook>>, i: nat, h: nat, after: Outcome -> Outcome, v: Verdict, w: World,
                  w1: World, r: (World, Outcome))
    requires Shape(hooks, w) && Shape(hooks, w1) && Shape(hooks, r.0)
    requires i < |hooks| && h < |hooks[i]|
    requires v.Blocked? ==> h < v.depth <= |hooks[i]|
    requires forall j :: 0 <= j < i ==> w.specs[j].Some?
    requires w1.mutations == w.mutations[i := w1.mutations[i]] && w1.mutations[i].done == w.mutations[i].done
    requires w1 == w.(mutations := w1.mutations, log := w.log + [Enter(i, h)])
    requires GoesThrough(e, hooks, i, h + 1, v, w1, r)
    ensures GoesThrough(e, hooks, i, h, Under(after, v), w, (Log(r.0, Leave(i, h)), after(r.1)))
  {
    hide Check, CreateNode, CreateSpec, Below, Returned, BlockedTrace;
    var n := |hooks[i]|;
    assert ([after] + v.afters)[1..] == v.afters;
    match v
    case Blocked(depth, _, _) =>
      BlockedOneHookUp(i, h, depth, n, w.log);
    case Clear(m, _) =>
      ArrivedOneHookUp(e, i, h, n, m, w, w1);
      ReturnedOneHookUp(e, i, h, n, m.draft, Below(e, hooks, i, Arrived(e, i, m, w, h, n)));
  }

  ghost predicate AllClear(vs: seq<Verdict>, i: nat) {
    forall j :: i <= j < |vs| ==> vs[j].Clear?
  }

  // The rows in the shared specs slots once every builder from i on has built.
  ghost function BatchRows(e: Entity, specs: seq<Option<Spec>>, vs: seq<Verdict>, i: nat): seq<Spec>
    requires i <= |vs| == |specs|
    requires forall j :: 0 <= j < i ==> specs[j].Some?
    requires AllClear(vs, i)
  {
    seq(|vs|, j requires 0 <= j < |vs| => if j < i then specs[j].value else CreateSpec(e, vs[j].m.draft))
  }

  function InsertOutcome(w: World, rows: seq<Spec>): Outcome {
    var err := InsertError(w.table, w.server, rows);
    if err.Some? then Failed(err.value) else Done(OtherAnswer)
  }

  /** The chain is about to be entered at builder i: the slots before it are
      filled, vs judges the builders from i on, and end is what the insert will
      say if they are all clear. */
  ghost predicate Poised(e: Entity, hooks: seq<seq<Hook>>, vs: seq<Verdict>, i: nat, w: World, end: Outcome) {
    && Fit(hooks, vs) && Shape(hooks, w) && i <= |hooks|
    && (forall j :: 0 <= j < i ==> w.specs[j].Some?)
    && (forall j :: i <= j < |hooks| ==> vs[j] == JudgeBuilder(e, hooks[j], w.mutations[j]))
    && (AllClear(vs, i) ==> end == InsertOutcome(w, BatchRows(e, w.specs, vs, i)))
  }

  // Calling what is below builder i keeps the chain poised.
  lemma StaysPoised(e: Entity, hooks: seq<seq<Hook>>, vs: seq<Verdict>, i: nat, w: World, end: Outcome)
    requires Poised(e, hooks, vs, i, w, end) && i < |hooks| && vs[i].Clear?
    ensures Poised(e, hooks, vs, i + 1, Arrived(e, i, vs[i].m, w, 0, |hooks[i]|), end)
    ensures AllClear(vs, i) <==> AllClear(vs, i + 1)
    ensures AllClear(vs, i) ==>
              BatchRows(e, w.specs, vs, i) ==
              BatchRows(e, Arrived(e, i, vs[i].m, w, 0, |hooks[i]|).specs, vs, i + 1)
  {
    hide CreateNode, CreateSpec, InsertError, JudgeBuilder;
    var w1 := Arrived(e, i, vs[i].m, w, 0, |hooks[i]|);
    if AllClear(vs, i + 1) {
      assert BatchRows(e, w.specs, vs, i) == BatchRows(e, w1.specs, vs, i + 1);
    }
  }

  // The chain from builder i on; past the last builder, the batch insert.
  function From(e: Entity, hooks: seq<seq<Hook>>, i: nat, w: World): (r: (World, Outcome))
    requires Shape(hooks, w) && i <= |hooks| && forall j :: 0 <= j < i ==> w.specs[j].Some?
    ensures Shape(hooks, r.0)
  {
    if i < |hooks| then Run(e, hooks, i, 0, w.mutations[i], true, w) else BatchInsert(w)
  }

  lemma AtBatch(e: Entity, hooks: seq<seq<Hook>>, vs: seq<Verdict>, w: World, end: Outcome)
    requires Poised(e, hooks, vs, |hooks|, w, end)
    ensures From(e, hooks, |hooks|, w) ==
            (Log(w, Batch(end.Done?)).(table := if end.Done? then AddRows(w.table, Rows(w.specs)) else w.table), end)
  {
    hide InsertError, AddRows;
    assert Rows(w.specs) == BatchRows(e, w.specs, vs, |hooks|);
  }

  // The result of the chain from builder i on.
  lemma {:induction false} ReplyIs(e: Entity, hooks: seq<seq<Hook>>, vs: seq<Verdict>, i: nat, w: World, end: Outcome)
    requires Poised(e, hooks, vs, i, w, end)
    ensures From(e, hooks, i, w).1 == Reply(e, hooks, vs, i, end)
    decreases |hooks| - i
  {
    hide From, BatchRows, InsertOutcome, JudgeBuilder, Returned, Arrived, BlockedTrace, Unwind, Relay;
    if i == |hooks| {
      AtBatch(e, hooks, vs, w, end);
    } else {
      Enters(e, hooks, vs, i, w, end);
      if vs[i].Clear? {
        ReplyIs(e, hooks, vs, i + 1, Arrived(e, i, vs[i].m, w, 0, |hooks[i]|), end);
      }
    }
  }

  // The events of the chain from builder i on.
  lemma {:induction false} TraceIs(e: Entity, hooks: seq<seq<Hook>>, vs: seq<Verdict>, i: nat, w: World, end: Outcome)
    requires Poised(e, hooks, vs, i, w, end)
    ensures From(e, hooks, i, w).0.log == w.log + Trace(e, hooks, vs, i, end)
    decreases |hooks| - i
  {
    hide From, BatchRows, InsertOutcome, JudgeBuilder, BlockedTrace, Entered, Left, Unwind, Relay, Reply, CreateNode,
         CreateSpec;
    if i == |hooks| {
      AtBatch(e, hooks, vs, w, end);
    } else {
      Enters(e, hooks, vs, i, w, end);
      if vs[i].Clear? {
        var n := |hooks[i]|;
        var w1 := Arrived(e, i, vs[i].m, w, 0, n);
        TraceIs(e, hooks, vs, i + 1, w1, end);
        ReplyIs(e, hooks, vs, i + 1, w1, end);
        var mark := if Reply(e, hooks, vs, i + 1, end).Done? then [MarkedDone(i)] else [];
        var rest := Trace(e, hooks, vs, i + 1, end);
        assert From(e, hooks, i, w).0.log ==
               w.log + Entered(i, 0, n) + [Checked(i, true), Specified(i)] + rest + mark + Left(i, 0, n);
        Regroup(w.log, Entered(i, 0, n), [Checked(i, true), Specified(i)], rest, mark, Left(i, 0, n));
      }
    }
  }

  lemma Regroup<T>(a: seq<T>, b: seq<T>, c: seq<T>, d: seq<T>, e: seq<T>, f: seq<T>)
    ensures a + b + c + d + e + f == a + (b + c + d + e + f)
  {
  }

  // Descends, at the first hook of builder i.
  lemma Enters(e: Entity, hooks: seq<seq<Hook>>, vs: seq<Verdict>, i: nat, w: World, end: Outcome)
    requires Poised(e, hooks, vs, i, w, end) && i < |hooks|
    ensures match vs[i] {
              case Blocked(depth, out, afters) =>
                var (w2, o) := From(e, hooks, i, w);
                && o == Unwind(afters, out)
                && w2 == w.(mutations := w.mutations[i := w2.mutations[i]],
                            log := w.log + BlockedTrace(i, 0, depth, |hooks[i]|))
                && w2.mutations[i].done == w.mutations[i].done
              case Clear(m, afters) =>
                var w1 := Arrived(e, i, m, w, 0, |hooks[i]|);
                && Poised(e, hooks, vs, i + 1, w1, end)
                && var below := From(e, hooks, i + 1, w1);
                   From(e, hooks, i, w) ==
                   (Returned(e, i, m.draft, below, 0, |hooks[i]|),
                    Unwind(afters, Relay(e, m.draft, below.1)))
            }
  {
    hide CreateNode, CreateSpec, BatchInsert, Unwind, Run, Check, InsertError;
    Descends(e, hooks, i, 0, w.mutations[i], true, w);
    if vs[i].Clear? {
      StaysPoised(e, hooks, vs, i, w, end);
    }
  }

  // The rows are inserted when every builder from i on is clear and the insert
  // succeeds; in every other case the table stays as it is.
  lemma {:induction false} TableIs(e: Entity, hooks: seq<seq<Hook>>, vs: seq<Verdict>, i: nat, w: World, end: Outcome)
    requires Poised(e, hooks, vs, i, w, end)
    ensures From(e, hooks, i, w).0.table ==
            if AllClear(vs, i) && end.Done? then AddRows(w.table, BatchRows(e, w.specs, vs, i)) else w.table
    decreases |hooks| - i
  {
    hide From, JudgeBuilder, BlockedTrace, Entered, Left, Unwind, Relay, CreateNode, CreateSpec, AddRows, InsertError;
    if i == |hooks| {
      AtBatch(e, hooks, vs, w, end);
      assert Rows(w.specs) == BatchRows(e, w.specs, vs, i);
    } else {
      Enters(e, hooks, vs, i, w, end);
      if vs[i].Clear? {
        TableIs(e, hooks, vs, i + 1, Arrived(e, i, vs[i].m, w, 0, |hooks[i]|), end);
        StaysPoised(e, hooks, vs, i, w, end);
      }
    }
  }

  // Builder j's core has run: it and the builders before it let the call through.
  ghost predicate Reached(vs: seq<Verdict>, i: nat, j: nat)
    requires j < |vs|
  {
    forall k :: i <= k <= j ==> vs[k].Clear?
  }

  /** What the chain from builder i on leaves in the slots of builder j: filled
      if its core has run, and its mutation marked done with the ID of its node
      if everything below it succeeded. */
  ghost predicate SlotIs(e: Entity, hooks: seq<seq<Hook>>, vs: seq<Verdict>, i: nat, j: nat, end: Outcome,
                         w: World, w2: World)
    requires Fit(hooks, vs) && i <= |hooks| && j < |hooks|
    requires Shape(hooks, w) && Shape(hooks, w2)
  {
    if j < i then
      w2.mutations[j] == w.mutations[j] && w2.nodes[j] == w.nodes[j] && w2.specs[j] == w.specs[j]
    else if !Reached(vs, i, j) then
      w2.mutations[j].done == w.mutations[j].done && w2.nodes[j] == w.nodes[j] && w2.specs[j] == w.specs[j]
    else
      var node := CreateNode(e, vs[j].m.draft);
      && w2.nodes[j] == Some(node)
      && w2.specs[j] == Some(CreateSpec(e, vs[j].m.draft))
      && w2.mutations[j] ==
         if Reply(e, hooks, vs, j + 1, end).Done?
         then MutationState(vs[j].m.draft.(id := Some(node.id)), true) else vs[j].m
  }

  lemma {:induction false} SlotsAre(e: Entity, hooks: seq<seq<Hook>>, vs: seq<Verdict>, i: nat, j: nat, w: World,
                                    end: Outcome)
    requires Poised(e, hooks, vs, i, w, end) && j < |hooks|
    ensures SlotIs(e, hooks, vs, i, j, end, w, From(e, hooks, i, w).0)
    decreases |hooks| - i
  {
    hide From, BatchRows, InsertOutcome, JudgeBuilder, BlockedTrace, Entered, Left, Unwind, Relay, CreateNode,
         CreateSpec, Reply;
    if i == |hooks| {
      AtBatch(e, hooks, vs, w, end);
    } else {
      Enters(e, hooks, vs, i, w, end);
      if vs[i].Clear? {
        var w1 := Arrived(e, i, vs[i].m, w, 0, |hooks[i]|);
        SlotsAre(e, hooks, vs, i + 1, j, w1, end);
        ReplyIs(e, hooks, vs, i + 1, w1, end);
        assert j > i ==> (Reached(vs, i, j) <==> Reached(vs, i + 1, j));
        assert Reached(vs, i, i);
      } else if j >= i {
        assert !Reached(vs, i, j);
      }
    }
  }
}
