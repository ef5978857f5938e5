/** What the caller of a bulk save can conclude from its result. */
module BulkCallers {

  import opened Wrappers
  import opened Schema
  import opened Chain
  import opened ChainProofs
  import opened BulkSave
  import opened BulkTheorems

  // The hooks hand back whatever the next mutator returned.
  ghost predicate Transparent(hooks: seq<seq<Hook>>) {
    forall i, h, d, o :: 0 <= i < |hooks| && 0 <= h < |hooks[i]| && !hooks[i][h].before(d).Return? ==>
      hooks[i][h].before(d).after(o) == o
  }

  ghost predicate HandsBack(afters: seq<Outcome -> Outcome>) {
    forall k, o :: 0 <= k < |afters| ==> afters[k](o) == o
  }

  // So do the hooks that called on, builder by builder.
  ghost predicate AllHandBack(vs: seq<Verdict>) {
    forall i :: 0 <= i < |vs| ==> HandsBack(vs[i].afters)
  }

  lemma {:induction false} JudgeHandsBack(e: Entity, hooks: seq<seq<Hook>>, i: nat, h: nat, origin: Draft,
                                          m: MutationState, same: bool)
    requires Transparent(hooks) && i < |hooks| && h <= |hooks[i]|
    ensures HandsBack(Judge(e, hooks[i], h, origin, m, same).afters)
    decreases |hooks[i]| - h
  {
    hide Check;
    if h < |hooks[i]| {
      match hooks[i][h].before(m.draft)
      case Return(_) =>
      case Call(d, _) => JudgeHandsBack(e, hooks, i, h + 1, if same then d else origin, m.(draft := d), same);
      case CallWith(d, _) => JudgeHandsBack(e, hooks, i, h + 1, origin, MutationState(d, false), false);
    }
  }

  lemma VerdictsHandBack(e: Entity, hooks: seq<seq<Hook>>, ms: seq<MutationState>)
    requires Transparent(hooks) && |hooks| == |ms|
    ensures AllHandBack(Verdicts(e, hooks, ms))
  {
    hide Transparent, HandsBack, Judge;
    var vs := Verdicts(e, hooks, ms);
    forall i | 0 <= i < |vs| ensures HandsBack(vs[i].afters) {
      JudgeHandsBack(e, hooks, i, 0, ms[i].draft, ms[i], true);
      JudgeBuilderIs(e, hooks[i], ms[i]);
      assert vs[i] == JudgeBuilder(e, hooks[i], ms[i]);
    }
  }

  ghost predicate LowestBlock(vs: seq<Verdict>, k: nat) {
    k < |vs| && vs[k].Blocked? && forall j :: 0 <= j < k ==> vs[j].Clear?
  }

  // The chain ends at a hook that answers with a value of its own.
  ghost predicate ShortCircuited(vs: seq<Verdict>) {
    exists k: nat :: LowestBlock(vs, k) && vs[k].out.Done?
  }

  lemma {:induction false} UnwindHandsBack(afters: seq<Outcome -> Outcome>, out: Outcome)
    requires HandsBack(afters)
    ensures Unwind(afters, out) == out
  {
    if afters != [] {
      UnwindHandsBack(afters[1..], out);
    }
  }

  // Through hooks that hand back what they get an error travels up unchanged from where it arose.
  lemma {:induction false} ReplyTransparent(e: Entity, hooks: seq<seq<Hook>>, vs: seq<Verdict>, i: nat, end: Outcome)
    requires AllHandBack(vs) && Fit(hooks, vs) && i <= |hooks|
    ensures AllClear(vs, i) ==> (if end.Failed? then Reply(e, hooks, vs, i, end) == end
                                 else Reply(e, hooks, vs, i, end).Done?)
    ensures forall k :: i <= k < |vs| && vs[k].Blocked? && (forall j :: i <= j < k ==> vs[j].Clear?) ==>
              if vs[k].out.Failed? then Reply(e, hooks, vs, i, end) == vs[k].out
              else Reply(e, hooks, vs, i, end).Done?
    decreases |hooks| - i
  {
    hide CreateNode, Unwind, HandsBack;
    if i < |hooks| {
      ReplyTransparent(e, hooks, vs, i + 1, end);
      match vs[i]
      case Blocked(_, out, afters) => UnwindHandsBack(afters, out);
      case Clear(m, afters) =>
        UnwindHandsBack(afters, Relay(e, m.draft, Reply(e, hooks, vs, i + 1, end)));
        assert AllClear(vs, i) <==> AllClear(vs, i + 1);
    }
  }

  lemma {:induction false} SomeLowestBlock(vs: seq<Verdict>, i: nat) returns (k: nat)
    requires i <= |vs| && !AllClear(vs, i) && forall j :: 0 <= j < i ==> vs[j].Clear?
    ensures LowestBlock(vs, k)
    decreases |vs| - i
  {
    if i < |vs| && vs[i].Blocked? {
      k := i;
    } else {
      k := SomeLowestBlock(vs, i + 1);
    }
  }

  /** Only the lowest builder that blocks counts: no row is inserted, the cores
      of exactly the builders before it have filled their slots, and if it blocks
      with an error, that error is returned and no mutation becomes done. If a
      hook answers with a value instead, the save reports success, with nil nodes
      from there on, and the mutations before it are marked done: nothing of it
      was stored. */
  lemma LowestBlockDecides(e: Entity, hooks: seq<seq<Hook>>, ms: seq<MutationState>, t: Table, server: Server, k: nat)
    requires |hooks| == |ms| > 0 && Transparent(hooks)
    requires LowestBlock(Verdicts(e, hooks, ms), k)
    ensures var out := Verdicts(e, hooks, ms)[k].out;
            var (w2, res) := BulkRun(e, hooks, Start(ms, t, server, []));
            && w2.table == t
            && Shape(hooks, w2)
            && (forall j :: 0 <= j < |hooks| ==> (w2.nodes[j].Some? <==> j < k) && (w2.specs[j].Some? <==> j < k))
            && (out.Failed? ==> res == NotSaved(out.error) && forall j :: 0 <= j < |hooks| ==>
                  (w2.mutations[j].done ==> ms[j].done))
            && (out.Done? ==> res == Saved(w2.nodes) && forall j :: 0 <= j < k ==> w2.mutations[j].done)
  {
    hide CreateNode, CreateSpec, AddRows, InsertError, Run, Trace, JudgeBuilder, Reply;
    BulkIs(e, hooks, ms, t, server, []);
    var w := Start(ms, t, server, []);
    var vs := Verdicts(e, hooks, ms);
    var end := End(e, vs, w);
    var w2 := BulkRun(e, hooks, w).0;
    assert !AllClear(vs, 0);
    VerdictsHandBack(e, hooks, ms);
    ReplyTransparent(e, hooks, vs, 0, end);
    forall j | 0 <= j < |hooks|
      ensures w2.nodes[j].Some? <==> j < k
      ensures w2.specs[j].Some? <==> j < k
      ensures vs[k].out.Failed? && w2.mutations[j].done ==> ms[j].done
      ensures vs[k].out.Done? && j < k ==> w2.mutations[j].done
    {
      assert SlotIs(e, hooks, vs, 0, j, end, w, w2);
      assert Reached(vs, 0, j) <==> j < k;
      if j < k {
        ReplyTransparent(e, hooks, vs, j + 1, end);
        ClearKeepsDone(e, hooks[j], 0, ms[j].draft, ms[j], true);
        assert vs[j] == JudgeBuilder(e, hooks[j], ms[j]);
        JudgeBuilderIs(e, hooks[j], ms[j]);
      }
    }
  }

  lemma JudgeBuilderIs(e: Entity, hooks: seq<Hook>, m: MutationState)
    ensures JudgeBuilder(e, hooks, m) == Judge(e, hooks, 0, m.draft, m, true)
  {
  }

  lemma {:induction false} ClearKeepsDone(e: Entity, hooks: seq<Hook>, h: nat, origin: Draft, m: MutationState,
                                          same: bool)
    requires h <= |hooks|
    ensures Judge(e, hooks, h, origin, m, same).Clear? ==> (Judge(e, hooks, h, origin, m, same).m.done ==> m.done)
    decreases |hooks| - h
  {
    hide Check;
    if h < |hooks| {
      match hooks[h].before(m.draft)
      case Return(_) =>
      case Call(d, _) => ClearKeepsDone(e, hooks, h + 1, if same then d else origin, m.(draft := d), same);
      case CallWith(d, _) => ClearKeepsDone(e, hooks, h + 1, origin, MutationState(d, false), false);
    }
  }

  /** When all builders are clear the insert decides: either every row is in the
      table, every node is returned, and every mutation is done and has the ID of
      its own node; or nothing is stored, the insert's error is returned, and no
      mutation becomes done. */
  lemma ClearBuildersDecide(e: Entity, hooks: seq<seq<Hook>>, ms: seq<MutationState>, t: Table, server: Server)
    requires |hooks| == |ms| > 0 && Transparent(hooks)
    requires AllClear(Verdicts(e, hooks, ms), 0)
    ensures var vs := Verdicts(e, hooks, ms);
            var err := InsertError(t, server, AllRows(e, vs));
            var (w2, res) := BulkRun(e, hooks, Start(ms, t, server, []));
            && Shape(hooks, w2)
            && (forall j :: 0 <= j < |hooks| ==> w2.specs[j] == Some(CreateSpec(e, vs[j].m.draft)))
            && (err.None? ==>
                  && w2.table == AddRows(t, AllRows(e, vs))
                  && res == Saved(w2.nodes)
                  && forall j :: 0 <= j < |hooks| ==>
                       var node := CreateNode(e, vs[j].m.draft);
                       && w2.nodes[j] == Some(node)
                       && w2.mutations[j] == MutationState(vs[j].m.draft.(id := Some(node.id)), true))
            && (err.Some? ==>
                  && w2.table == t
                  && res == NotSaved(err.value)
                  && forall j :: 0 <= j < |hooks| ==> (w2.mutations[j].done ==> ms[j].done))
  {
    hide CreateNode, CreateSpec, AddRows, InsertError, Run, Trace, JudgeBuilder, Reply;
    BulkIs(e, hooks, ms, t, server, []);
    var w := Start(ms, t, server, []);
    var vs := Verdicts(e, hooks, ms);
    var end := End(e, vs, w);
    var w2 := BulkRun(e, hooks, w).0;
    VerdictsHandBack(e, hooks, ms);
    ReplyTransparent(e, hooks, vs, 0, end);
    forall j | 0 <= j < |hooks|
      ensures w2.specs[j] == Some(CreateSpec(e, vs[j].m.draft))
      ensures w2.nodes[j] == Some(CreateNode(e, vs[j].m.draft))
      ensures end.Done? ==>
                w2.mutations[j] == MutationState(vs[j].m.draft.(id := Some(CreateNode(e, vs[j].m.draft).id)), true)
      ensures end.Failed? && w2.mutations[j].done ==> ms[j].done
    {
      assert SlotIs(e, hooks, vs, 0, j, end, w, w2);
      assert Reached(vs, 0, j);
      assert AllClear(vs, j + 1);
      ReplyTransparent(e, hooks, vs, j + 1, end);
      ClearKeepsDone(e, hooks[j], 0, ms[j].draft, ms[j], true);
      JudgeBuilderIs(e, hooks[j], ms[j]);
      assert vs[j] == JudgeBuilder(e, hooks[j], ms[j]);
    }
  }

  // The events on the way down, from builder i to the last.
  function Downs(hooks: seq<seq<Hook>>, i: nat): seq<Event>
    requires i <= |hooks|
    decreases |hooks| - i
  {
    if i == |hooks| then [] else Entered(i, 0, |hooks[i]|) + [Checked(i, true), Specified(i)] + Downs(hooks, i + 1)
  }

  // The events on the way up, from the last builder to builder i.
  function Ups(hooks: seq<seq<Hook>>, i: nat): seq<Event>
    requires i <= |hooks|
    decreases |hooks| - i
  {
    if i == |hooks| then [] else Ups(hooks, i + 1) + [MarkedDone(i)] + Left(i, 0, |hooks[i]|)
  }

  /** A successful save, in order: for every builder its hooks, its check and its
      spec; then the one batch; then, from the last builder to the first, the mark
      and its hooks on the way back. */
  lemma {:induction false} SuccessTrace(e: Entity, hooks: seq<seq<Hook>>, vs: seq<Verdict>, i: nat, end: Outcome)
    requires AllHandBack(vs) && Fit(hooks, vs) && i <= |hooks|
    requires AllClear(vs, i) && end.Done?
    ensures Trace(e, hooks, vs, i, end) == Downs(hooks, i) + [Batch(true)] + Ups(hooks, i)
    decreases |hooks| - i
  {
    hide Entered, Left, Reply;
    if i < |hooks| {
      SuccessTrace(e, hooks, vs, i + 1, end);
      assert AllClear(vs, i + 1);
      ReplyTransparent(e, hooks, vs, i + 1, end);
      var n := |hooks[i]|;
      Folded(Entered(i, 0, n) + [Checked(i, true), Specified(i)], Downs(hooks, i + 1), [Batch(true)], Ups(hooks, i + 1),
             [MarkedDone(i)], Left(i, 0, n));
    }
  }

  lemma Folded<T>(a: seq<T>, b: seq<T>, c: seq<T>, d: seq<T>, e: seq<T>, f: seq<T>)
    ensures a + (b + c + d) + e + f == (a + b) + c + (d + e + f)
  {
  }

  // How many of the hooks that called on turn a success into an error or an error
  // into a success, when `out` comes up to them.
  function Flips(afters: seq<Outcome -> Outcome>, out: Outcome): nat {
    if afters == [] then 0
    else
      var inner := Unwind(afters[1..], out);
      Flips(afters[1..], out) + if afters[0](inner).Done? == inner.Done? then 0 else 1
  }

  // The same over all builders from i on, with what really comes up to them.
  function AllFlips(e: Entity, hooks: seq<seq<Hook>>, vs: seq<Verdict>, i: nat, end: Outcome): nat
    requires i <= |hooks| && Fit(hooks, vs)
    decreases |hooks| - i
  {
    if i == |hooks| then 0
    else
      match vs[i]
      case Blocked(_, out, afters) => Flips(afters, out)
      case Clear(m, afters) =>
        AllFlips(e, hooks, vs, i + 1, end) + Flips(afters, Relay(e, m.draft, Reply(e, hooks, vs, i + 1, end)))
  }

  // The outcome at the turning point of the chain: of the lowest builder that
  // blocks, or of the insert.
  function Innermost(vs: seq<Verdict>, i: nat, end: Outcome): Outcome
    requires i <= |vs|
    decreases |vs| - i
  {
    if i == |vs| then end else if vs[i].Blocked? then vs[i].out else Innermost(vs, i + 1, end)
  }

  lemma {:induction false} UnwindFlips(afters: seq<Outcome -> Outcome>, out: Outcome)
    ensures Unwind(afters, out).Done? <==> (out.Done? <==> Flips(afters, out) % 2 == 0)
  {
    if afters != [] {
      UnwindFlips(afters[1..], out);
    }
  }

  /** For any hooks, the caller is told of a success iff the turning point was one
      and was turned round an even number of times on the way up. */
  lemma {:induction false} ReplyFlips(e: Entity, hooks: seq<seq<Hook>>, vs: seq<Verdict>, i: nat, end: Outcome)
    requires i <= |hooks| && Fit(hooks, vs)
    ensures Reply(e, hooks, vs, i, end).Done? <==>
            (Innermost(vs, i, end).Done? <==> AllFlips(e, hooks, vs, i, end) % 2 == 0)
    decreases |hooks| - i
  {
    hide CreateNode, Unwind, Flips;
    if i < |hooks| {
      match vs[i]
      case Blocked(_, out, afters) => UnwindFlips(afters, out);
      case Clear(m, afters) =>
        ReplyFlips(e, hooks, vs, i + 1, end);
        var below := Relay(e, m.draft, Reply(e, hooks, vs, i + 1, end));
        UnwindFlips(afters, below);
        ParityOfSum(AllFlips(e, hooks, vs, i + 1, end), Flips(afters, below));
    }
  }

  lemma ParityOfSum(a: nat, b: nat)
    ensures (a + b) % 2 == 0 <==> (a % 2 == 0 <==> b % 2 == 0)
  {
  }

  lemma {:induction false} InnermostIs(vs: seq<Verdict>, i: nat, end: Outcome)
    requires i <= |vs|
    ensures AllClear(vs, i) ==> Innermost(vs, i, end) == end
    ensures forall k :: i <= k < |vs| && vs[k].Blocked? && (forall j :: i <= j < k ==> vs[j].Clear?) ==>
              Innermost(vs, i, end) == vs[k].out
    decreases |vs| - i
  {
    if i < |vs| && vs[i].Clear? {
      InnermostIs(vs, i + 1, end);
    }
  }

  /** The rows are in the table exactly when the insert was reached and accepted,
      whatever the hooks then make of its result. For any hooks, what the caller is
      told and what happened agree exactly when either no hook ended the chain with
      a value of its own and the result was turned round an even number of times on
      its way up, or one did and it was turned round an odd number of times. */
  lemma SavedMeansInsertedIff(e: Entity, hooks: seq<seq<Hook>>, ms: seq<MutationState>, t: Table, server: Server)
    requires |hooks| == |ms| > 0
    ensures var vs := Verdicts(e, hooks, ms);
            var w := Start(ms, t, server, []);
            var (w2, res) := BulkRun(e, hooks, w);
            && Fit(hooks, vs) && !res.Panicked?
            && (Inserts(e, vs, w) <==> w2.table != t)
            && ((res.Saved? <==> w2.table != t) <==>
                (ShortCircuited(vs) <==> AllFlips(e, hooks, vs, 0, End(e, vs, w)) % 2 == 1))
  {
    hide CreateNode, CreateSpec, AddRows, InsertError, Run, JudgeBuilder, AllFlips, Innermost, Reply, Trace;
    var vs := Verdicts(e, hooks, ms);
    var w := Start(ms, t, server, []);
    var end := End(e, vs, w);
    BulkIs(e, hooks, ms, t, server, []);
    ReplyFlips(e, hooks, vs, 0, end);
    InnermostIs(vs, 0, end);
    if AllClear(vs, 0) {
      if InsertError(t, server, AllRows(e, vs)).None? {
        InsertGrows(t, server, AllRows(e, vs));
      }
    } else {
      var k := SomeLowestBlock(vs, 0);
      if ShortCircuited(vs) {
        var k2: nat :| LowestBlock(vs, k2) && vs[k2].out.Done?;
        assert !(k2 < k) && !(k < k2);
      }
    }
  }

  // The hooks hand back a success for a success and an error for an error.
  ghost predicate KeepsKind(hooks: seq<seq<Hook>>) {
    forall i, h, d, o :: 0 <= i < |hooks| && 0 <= h < |hooks[i]| && !hooks[i][h].before(d).Return? ==>
      (hooks[i][h].before(d).after(o).Done? <==> o.Done?)
  }

  ghost predicate KeepKind(afters: seq<Outcome -> Outcome>) {
    forall k, o :: 0 <= k < |afters| ==> (afters[k](o).Done? <==> o.Done?)
  }

  lemma {:induction false} JudgeKeepsKind(e: Entity, hooks: seq<seq<Hook>>, i: nat, h: nat, origin: Draft,
                                          m: MutationState, same: bool)
    requires KeepsKind(hooks) && i < |hooks| && h <= |hooks[i]|
    ensures KeepKind(Judge(e, hooks[i], h, origin, m, same).afters)
    decreases |hooks[i]| - h
  {
    hide Check;
    if h < |hooks[i]| {
      match hooks[i][h].before(m.draft)
      case Return(_) =>
      case Call(d, _) => JudgeKeepsKind(e, hooks, i, h + 1, if same then d else origin, m.(draft := d), same);
      case CallWith(d, _) => JudgeKeepsKind(e, hooks, i, h + 1, origin, MutationState(d, false), false);
    }
  }

  lemma {:induction false} NoFlips(afters: seq<Outcome -> Outcome>, out: Outcome)
    requires KeepKind(afters)
    ensures Flips(afters, out) == 0
  {
    if afters != [] {
      NoFlips(afters[1..], out);
    }
  }

  lemma {:induction false} NoFlipsAtAll(e: Entity, hooks: seq<seq<Hook>>, vs: seq<Verdict>, i: nat, end: Outcome)
    requires i <= |hooks| && Fit(hooks, vs)
    requires forall j :: 0 <= j < |vs| ==> KeepKind(vs[j].afters)
    ensures AllFlips(e, hooks, vs, i, end) == 0
    decreases |hooks| - i
  {
    hide CreateNode, Flips, KeepKind;
    if i < |hooks| {
      match vs[i]
      case Blocked(_, out, afters) => NoFlips(afters, out);
      case Clear(m, afters) =>
        NoFlipsAtAll(e, hooks, vs, i + 1, end);
        NoFlips(afters, Relay(e, m.draft, Reply(e, hooks, vs, i + 1, end)));
    }
  }

  /** With hooks that do not turn results round, what the caller is told is true
      exactly when no hook ends the chain with a value of its own. */
  lemma KindKeptMeansInsertedIff(e: Entity, hooks: seq<seq<Hook>>, ms: seq<MutationState>, t: Table, server: Server)
    requires |hooks| == |ms| > 0 && KeepsKind(hooks)
    ensures var (w2, res) := BulkRun(e, hooks, Start(ms, t, server, []));
            (res.Saved? <==> w2.table != t) <==> !ShortCircuited(Verdicts(e, hooks, ms))
  {
    hide AllFlips, BulkRun, End, ShortCircuited, KeepsKind, KeepKind, Judge;
    SavedMeansInsertedIff(e, hooks, ms, t, server);
    var vs := Verdicts(e, hooks, ms);
    forall j | 0 <= j < |vs| ensures KeepKind(vs[j].afters) {
      JudgeKeepsKind(e, hooks, j, 0, ms[j].draft, ms[j], true);
      JudgeBuilderIs(e, hooks[j], ms[j]);
      assert vs[j] == JudgeBuilder(e, hooks[j], ms[j]);
    }
    NoFlipsAtAll(e, hooks, vs, 0, End(e, vs, Start(ms, t, server, [])));
  }

  lemma InsertGrows(t: Table, server: Server, rows: seq<Spec>)
    requires InsertError(t, server, rows).None? && rows != []
    ensures AddRows(t, rows) != t
  {
    var last := rows[|rows| - 1];
    assert last in rows;
    assert last.id.value in AddRows(t, rows);
  }

  // A database that accepts every row with a free ID, and one that is down.
  const UP := Server(false, (r: Row) => true)
  const DOWN := Server(true, (r: Row) => true)

  // A builder every example uses: all required fields of a fleet are set.
  const NORTH := MutationState(
    Draft(Some(7), map[
      TenantIdCol := UuidV(1), TenantSlugCol := TextV("demo"), NameCol := TextV("North"), TypeCol := TextV("internal"),
      FleetTypeCol := TextV("delivery"), StatusCol := TextV("active"), MetadataCol := JsonV(0),
      CreatedAtCol := TimeV(1), UpdatedAtCol := TimeV(1)]),
    false)

  lemma NorthIsValid()
    ensures Check(Fleet, NORTH.draft) == None
  {
    forall k | 0 <= k < |Fleet.Rules()| ensures Violation(Fleet.Rules()[k], NORTH.draft).None? {
    }
    CheckFindsFirst(Fleet.Rules(), NORTH.draft);
  }

  // A hook that answers by itself makes the save succeed with nothing stored.
  lemma ShortCircuitSavesNothing()
    ensures var answers := Hook(d => Return(Done(OtherAnswer)));
            BulkRun(Fleet, [[answers]], Start([NORTH], map[], UP, [])).1 == Saved([None]) &&
            BulkRun(Fleet, [[answers]], Start([NORTH], map[], UP, [])).0.table == map[]
  {
    var answers := Hook(d => Return(Done(OtherAnswer)));
    assert JudgeBuilder(Fleet, [answers], NORTH) == Blocked(0, Done(OtherAnswer), []);
    LowestBlockDecides(Fleet, [[answers]], [NORTH], map[], UP, 0);
  }

  // A bulk save of this one builder with one hook that calls on.
  lemma OneHook(hook: Hook, after: Outcome -> Outcome, t: Table, server: Server)
    requires hook.before(NORTH.draft) == Call(NORTH.draft, after)
    ensures var rows := [CreateSpec(Fleet, NORTH.draft)];
            var err := InsertError(t, server, rows);
            var (w2, res) := BulkRun(Fleet, [[hook]], Start([NORTH], t, server, []));
            && w2.table == (if err.None? then AddRows(t, rows) else t)
            && res == match after(if err.Some? then Failed(err.value)
                                  else Done(NodeAnswer(CreateNode(Fleet, NORTH.draft))))
                      case Failed(x) => NotSaved(x)
                      case Done(_) => Saved(w2.nodes)
  {
    hide Check, CreateNode, CreateSpec, AddRows, InsertError, Run, Trace, Entity.Rules;
    NorthIsValid();
    var hooks, ms := [[hook]], [NORTH];
    BulkIs(Fleet, hooks, ms, t, server, []);
    var vs := Verdicts(Fleet, hooks, ms);
    var core := Judge(Fleet, [hook], 1, NORTH.draft, NORTH, true);
    assert core == Clear(NORTH, []);
    JudgeBuilderIs(Fleet, [hook], NORTH);
    assert NORTH.(draft := NORTH.draft) == NORTH;
    assert Judge(Fleet, [hook], 0, NORTH.draft, NORTH, true) == Under(after, core);
    assert [after] + [] == [after] && [after][1..] == [];
    assert vs[0] == JudgeBuilder(Fleet, [hook], NORTH) == Clear(NORTH, [after]);
    assert AllRows(Fleet, vs) == [CreateSpec(Fleet, NORTH.draft)];
    var end := End(Fleet, vs, Start(ms, t, server, []));
    assert Reply(Fleet, hooks, vs, 1, end) == end;
    var relayed := Relay(Fleet, NORTH.draft, end);
    assert Unwind([after], relayed) == after(Unwind([], relayed)) == after(relayed);
    assert Reply(Fleet, hooks, vs, 0, end) == after(relayed);
  }

  // A hook that rejects after the fact makes the save fail with the row stored.
  lemma LateRejectionKeepsTheRow()
    ensures var late := Hook(d => Call(d, o => Failed(HookFailed(1))));
            BulkRun(Fleet, [[late]], Start([NORTH], map[], UP, [])).1 == NotSaved(HookFailed(1)) &&
            7 in BulkRun(Fleet, [[late]], Start([NORTH], map[], UP, [])).0.table
  {
    hide BulkRun, CreateNode;
    var late := Hook(d => Call(d, o => Failed(HookFailed(1))));
    OneHook(late, late.before(NORTH.draft).after, map[], UP);
    var spec := CreateSpec(Fleet, NORTH.draft);
    assert spec.id == Some(7) && [spec][..0] == [];
    assert AddRows(map[], [spec]) == map[7 := Stored(spec)];
  }

  // A hook that hides a failed insert makes the save succeed with nothing stored.
  lemma SwallowedErrorSavesNothing()
    ensures var swallows := Hook(d => Call(d, o => Done(OtherAnswer)));
            BulkRun(Fleet, [[swallows]], Start([NORTH], map[], DOWN, [])).1.Saved? &&
            BulkRun(Fleet, [[swallows]], Start([NORTH], map[], DOWN, [])).0.table == map[]
  {
    hide BulkRun, CreateNode, CreateSpec;
    var swallows := Hook(d => Call(d, o => Done(OtherAnswer)));
    OneHook(swallows, swallows.before(NORTH.draft).after, map[], DOWN);
  }
}
