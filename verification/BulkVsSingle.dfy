/** Saving in bulk against saving the builders one after another. */
module BulkVsSingle {

  import opened Wrappers
  import opened Schema
  import opened Chain
  import opened ChainProofs
  import opened BulkSave
  import opened SingleSave
  import opened BulkTheorems
  import opened BulkCallers

  function NonNil(hooks: seq<Hook>): (r: seq<Option<Hook>>)
    ensures |r| == |hooks| && !HasNil(r) && Live(r) == hooks
  {
    seq(|hooks|, h requires 0 <= h < |hooks| => Some(hooks[h]))
  }

  // Create().Save for the builders from i on, stopping at the first error.
  function SaveEach(e: Entity, hooks: seq<seq<Hook>>, ms: seq<MutationState>, i: nat, t: Table, server: Server)
    : (r: (seq<MutationState>, Table, seq<Node>, Option<Error>))
    requires |hooks| == |ms| && i <= |hooks|
    ensures |r.0| == |ms|
    decreases |hooks| - i
  {
    if i == |hooks| then (ms, t, [], None)
    else
      var (m, t1, one) := SaveOne(e, NonNil(hooks[i]), ms[i], t, server);
      match one
      case NotCreated(err) => (ms[i := m], t1, [], Some(err))
      case Created(node) =>
        var (ms2, t2, nodes, err) := SaveEach(e, hooks, ms[i := m], i + 1, t1, server);
        (ms2, t2, [node] + nodes, err)
  }

  /** Hooks that hand back what comes up to them, and on the way in call on, with
      the mutation they were given or with another one, or refuse with an error. */
  ghost predicate OnlyRefuse(hooks: seq<seq<Hook>>) {
    && Transparent(hooks)
    && forall i, h, d :: 0 <= i < |hooks| && 0 <= h < |hooks[i]| && hooks[i][h].before(d).Return? ==>
         hooks[i][h].before(d).out.Failed?
  }

  function MarkedWith(e: Entity, m: MutationState): MutationState {
    MutationState(m.draft.(id := Some(CreateNode(e, m.draft).id)), true)
  }

  /** The verdict of a single save on its builder: the mutation that is handed on
      takes the place of the builder's own before the check looks at it. */
  function JudgeSingle(e: Entity, hooks: seq<Hook>, h: nat, m: MutationState): Verdict
    requires h <= |hooks|
    decreases |hooks| - h
  {
    if h < |hooks| then
      match hooks[h].before(m.draft)
      case Return(out) => Blocked(h, out, [])
      case Call(d, after) => Under(after, JudgeSingle(e, hooks, h + 1, m.(draft := d)))
      case CallWith(d, after) => Under(after, JudgeSingle(e, hooks, h + 1, MutationState(d, false)))
    else
      var err := Check(e, m.draft);
      if err.Some? then Blocked(h, Failed(err.value), []) else Clear(m, [])
  }

  ghost predicate Stores(t: Table, server: Server, e: Entity, v: Verdict) {
    v.Clear? && InsertError(t, server, [CreateSpec(e, v.m.draft)]).None?
  }

  /** For any hooks, a single save stores the row of the mutation that was handed
      on, and marks it, exactly when its verdict is clear and the database accepts
      the row; otherwise it stores nothing. */
  lemma {:induction false} SingleStoresIff(e: Entity, hooks: seq<Hook>, h: nat, own: MutationState, m: MutationState,
                                           same: bool, t: Table, server: Server)
    requires h <= |hooks| && (same ==> own == m)
    ensures var v := JudgeSingle(e, hooks, h, m);
            var (own2, t2, _) := RunHooks(e, hooks, h, own, m, same, t, server);
            if Stores(t, server, e, v) then t2 == AddRows(t, [CreateSpec(e, v.m.draft)]) && own2 == MarkedWith(e, v.m)
            else t2 == t
    decreases |hooks| - h
  {
    hide Check, CreateNode, CreateSpec, AddRows, InsertError;
    if h < |hooks| {
      match hooks[h].before(m.draft)
      case Return(_) =>
      case Call(d, _) =>
        var m1 := m.(draft := d);
        SingleStoresIff(e, hooks, h + 1, if same then m1 else own, m1, same, t, server);
      case CallWith(d, _) => SingleStoresIff(e, hooks, h + 1, own, MutationState(d, false), false, t, server);
    }
  }

  // What a single save returns through hooks that only refuse.
  lemma {:induction false} SingleIs(e: Entity, hooks: seq<seq<Hook>>, i: nat, h: nat, own: MutationState,
                                    m: MutationState, same: bool, t: Table, server: Server)
    requires OnlyRefuse(hooks) && i < |hooks| && h <= |hooks[i]| && (same ==> own == m)
    ensures var out := RunHooks(e, hooks[i], h, own, m, same, t, server).2;
            match JudgeSingle(e, hooks[i], h, m) {
              case Blocked(_, o, _) => o.Failed? && out == o
              case Clear(m1, _) =>
                var bad := InsertError(t, server, [CreateSpec(e, m1.draft)]);
                out == if bad.Some? then Failed(bad.value) else Done(NodeAnswer(CreateNode(e, m1.draft)))
            }
    decreases |hooks[i]| - h
  {
    hide Check, CreateNode, CreateSpec, AddRows, InsertError;
    if h < |hooks[i]| {
      match hooks[i][h].before(m.draft)
      case Return(_) =>
      case Call(d, _) =>
        var m1 := m.(draft := d);
        SingleIs(e, hooks, i, h + 1, if same then m1 else own, m1, same, t, server);
      case CallWith(d, _) => SingleIs(e, hooks, i, h + 1, own, MutationState(d, false), false, t, server);
    }
  }

  ghost function RowsFrom(e: Entity, vs: seq<Verdict>, i: nat): seq<Spec>
    requires i <= |vs| && AllClear(vs, i)
    decreases |vs| - i
  {
    if i == |vs| then [] else [CreateSpec(e, vs[i].m.draft)] + RowsFrom(e, vs, i + 1)
  }

  lemma {:induction false} AddRowsCons(t: Table, r: Spec, rows: seq<Spec>)
    ensures AddRows(t, [r] + rows) == AddRows(AddRows(t, [r]), rows)
  {
    if rows == [] {
      assert [r] + rows == [r];
    } else {
      var init := rows[..|rows| - 1];
      assert ([r] + rows)[..|rows|] == [r] + init;
      AddRowsCons(t, r, init);
    }
  }

  lemma InsertableCons(t: Table, server: Server, r: Spec, rows: seq<Spec>)
    ensures InsertError(t, server, [r] + rows).None? <==>
            InsertError(t, server, [r]).None? && InsertError(AddRows(t, [r]), server, rows).None?
  {
    var all := [r] + rows;
    assert [r][..0] == [];
    assert AddRows(t, [r]) == t[Stored(r).id := Stored(r)];
    if Insertable(t, server, all) {
      assert all[0] in all;
      forall x | x in rows ensures x.id.value !in t && x.id != r.id {
        var k :| 0 <= k < |rows| && rows[k] == x;
        assert all[k + 1] == x && x in all;
      }
      forall i, j | 0 <= i < j < |rows| ensures rows[i].id != rows[j].id {
        assert all[i + 1].id != all[j + 1].id;
      }
    }
    if Insertable(t, server, [r]) && Insertable(AddRows(t, [r]), server, rows) {
      assert r in [r];
      forall i, j | 0 <= i < j < |all| ensures all[i].id != all[j].id {
        if i == 0 {
          assert rows[j - 1] in rows;
        } else {
          assert rows[i - 1].id != rows[j - 1].id;
        }
      }
    }
  }

  // The state in which the single saves from i on leave table and mutations.
  ghost predicate EachSaved(e: Entity, vs: seq<Verdict>, i: nat, ms: seq<MutationState>, t: Table,
                            r: (seq<MutationState>, Table, seq<Node>, Option<Error>))
    requires i <= |vs| == |ms| == |r.0| && AllClear(vs, i)
  {
    && r.1 == AddRows(t, RowsFrom(e, vs, i))
    && |r.2| == |vs| - i
    && (forall j :: i <= j < |vs| ==> r.2[j - i] == CreateNode(e, vs[j].m.draft) && r.0[j] == MarkedWith(e, vs[j].m))
    && (forall j :: 0 <= j < i ==> r.0[j] == ms[j])
  }

  ghost predicate Accepts(t: Table, server: Server, rows: seq<Spec>) {
    rows != [] ==> InsertError(t, server, rows).None?
  }

  lemma AcceptsCons(t: Table, server: Server, r: Spec, rows: seq<Spec>)
    ensures Accepts(t, server, [r] + rows) <==>
            InsertError(t, server, [r]).None? && Accepts(AddRows(t, [r]), server, rows)
  {
    if rows == [] {
      assert [r] + rows == [r];
    } else {
      InsertableCons(t, server, r, rows);
    }
  }

  // One by one, the saves succeed exactly when all builders are clear and the
  // rows could be inserted together.
  lemma {:induction false} SinglesSucceedIff(e: Entity, hooks: seq<seq<Hook>>, vs: seq<Verdict>, ms: seq<MutationState>,
                                             i: nat, t: Table, server: Server)
    requires OnlyRefuse(hooks) && |hooks| == |ms| == |vs| && i <= |hooks|
    requires forall j :: i <= j < |hooks| ==> vs[j] == JudgeSingle(e, hooks[j], 0, ms[j])
    ensures SaveEach(e, hooks, ms, i, t, server).3.None? <==>
            AllClear(vs, i) && Accepts(t, server, RowsFrom(e, vs, i))
    decreases |hooks| - i
  {
    hide Check, CreateNode, CreateSpec, AddRows, InsertError, RunHooks, JudgeSingle, Accepts;
    if i == |hooks| {
      assert Accepts(t, server, []) by {
        NothingToInsert(t, server);
      }
    } else {
      FirstSave(e, hooks, vs, ms, i, t, server);
      var (m, t1, one) := SaveOne(e, NonNil(hooks[i]), ms[i], t, server);
      if vs[i].Clear? {
        assert AllClear(vs, i) <==> AllClear(vs, i + 1);
        if one.Created? {
          SinglesSucceedIff(e, hooks, vs, ms[i := m], i + 1, t1, server);
        }
        if AllClear(vs, i) {
          AcceptsCons(t, server, CreateSpec(e, vs[i].m.draft), RowsFrom(e, vs, i + 1));
        }
      }
    }
  }

  lemma NothingToInsert(t: Table, server: Server)
    ensures Accepts(t, server, [])
    ensures AddRows(t, []) == t
  {
  }

  // Create().Save of builder i, by its verdict.
  lemma FirstSave(e: Entity, hooks: seq<seq<Hook>>, vs: seq<Verdict>, ms: seq<MutationState>, i: nat, t: Table,
                  server: Server)
    requires OnlyRefuse(hooks) && |hooks| == |ms| == |vs| && i < |hooks|
    requires vs[i] == JudgeSingle(e, hooks[i], 0, ms[i])
    ensures var (m, t1, one) := SaveOne(e, NonNil(hooks[i]), ms[i], t, server);
            && (one.Created? <==> vs[i].Clear? && InsertError(t, server, [CreateSpec(e, vs[i].m.draft)]).None?)
            && (one.Created? ==>
                  && m == MarkedWith(e, vs[i].m)
                  && t1 == AddRows(t, [CreateSpec(e, vs[i].m.draft)])
                  && one == Created(CreateNode(e, vs[i].m.draft)))
  {
    hide Check, CreateNode, CreateSpec, AddRows, InsertError, RunHooks, JudgeSingle;
    SingleIs(e, hooks, i, 0, ms[i], ms[i], true, t, server);
    SingleStoresIff(e, hooks[i], 0, ms[i], ms[i], true, t, server);
  }

  lemma {:induction false} SinglesLeave(e: Entity, hooks: seq<seq<Hook>>, vs: seq<Verdict>, ms: seq<MutationState>,
                                        i: nat, t: Table, server: Server)
    requires OnlyRefuse(hooks) && |hooks| == |ms| == |vs| && i <= |hooks|
    requires forall j :: i <= j < |hooks| ==> vs[j] == JudgeSingle(e, hooks[j], 0, ms[j])
    requires SaveEach(e, hooks, ms, i, t, server).3.None?
    ensures AllClear(vs, i) && EachSaved(e, vs, i, ms, t, SaveEach(e, hooks, ms, i, t, server))
    decreases |hooks| - i
  {
    hide Check, CreateNode, CreateSpec, AddRows, InsertError, SaveOne, JudgeSingle, Accepts;
    SinglesSucceedIff(e, hooks, vs, ms, i, t, server);
    if i == |hooks| {
      NothingToInsert(t, server);
    } else {
      FirstSave(e, hooks, vs, ms, i, t, server);
      var (m, t1, one) := SaveOne(e, NonNil(hooks[i]), ms[i], t, server);
      SinglesLeave(e, hooks, vs, ms[i := m], i + 1, t1, server);
      OneMoreSaved(e, vs, i, ms, t, m, SaveEach(e, hooks, ms[i := m], i + 1, t1, server));
    }
  }

  lemma OneMoreSaved(e: Entity, vs: seq<Verdict>, i: nat, ms: seq<MutationState>, t: Table, m: MutationState,
                     rest: (seq<MutationState>, Table, seq<Node>, Option<Error>))
    requires i < |vs| == |ms| == |rest.0| && AllClear(vs, i) && m == MarkedWith(e, vs[i].m)
    requires EachSaved(e, vs, i + 1, ms[i := m], AddRows(t, [CreateSpec(e, vs[i].m.draft)]), rest)
    ensures EachSaved(e, vs, i, ms, t, (rest.0, rest.1, [CreateNode(e, vs[i].m.draft)] + rest.2, rest.3))
  {
    hide CreateNode, CreateSpec, AddRows, MarkedWith;
    AddRowsCons(t, CreateSpec(e, vs[i].m.draft), RowsFrom(e, vs, i + 1));
    assert RowsFrom(e, vs, i) == [CreateSpec(e, vs[i].m.draft)] + RowsFrom(e, vs, i + 1);
    hide RowsFrom;
    var nodes := [CreateNode(e, vs[i].m.draft)] + rest.2;
    forall j | i <= j < |vs|
      ensures nodes[j - i] == CreateNode(e, vs[j].m.draft) && rest.0[j] == MarkedWith(e, vs[j].m)
    {
      if j > i {
        assert nodes[j - i] == rest.2[j - (i + 1)];
      }
    }
    forall j | 0 <= j < i ensures rest.0[j] == ms[j] {
    }
  }

  lemma {:induction false} RowsFromIsAll(e: Entity, vs: seq<Verdict>, i: nat)
    requires i <= |vs| && AllClear(vs, 0)
    ensures AllClear(vs, i) && RowsFrom(e, vs, i) == AllRows(e, vs)[i..]
    decreases |vs| - i
  {
    if i < |vs| {
      RowsFromIsAll(e, vs, i + 1);
    }
  }

  /** What reaches the core of a builder: the draft that its own mutation then
      holds, and the mutation that was handed on. */
  function Handed(hooks: seq<Hook>, h: nat, origin: Draft, m: MutationState, same: bool)
    : Option<(Draft, MutationState)>
    requires h <= |hooks|
    decreases |hooks| - h
  {
    if h == |hooks| then Some((origin, m))
    else
      match hooks[h].before(m.draft)
      case Return(_) => None
      case Call(d, _) => Handed(hooks, h + 1, if same then d else origin, m.(draft := d), same)
      case CallWith(d, _) => Handed(hooks, h + 1, origin, MutationState(d, false), false)
  }

  function HandedTo(hooks: seq<Hook>, m: MutationState): Option<(Draft, MutationState)> {
    Handed(hooks, 0, m.draft, m, true)
  }

  // The verdicts that follow from what is handed on: the core of a bulk mutator checks
  // the one draft, a single save the other, and both build from the second.
  ghost predicate BulkFollows(e: Entity, handed: Option<(Draft, MutationState)>, v: Verdict) {
    if handed.None? then v.Blocked?
    else v.Clear? == Check(e, handed.value.0).None? && (v.Clear? ==> v.m == handed.value.1)
  }

  ghost predicate SingleFollows(e: Entity, handed: Option<(Draft, MutationState)>, v: Verdict) {
    if handed.None? then v.Blocked?
    else v.Clear? == Check(e, handed.value.1.draft).None? && (v.Clear? ==> v.m == handed.value.1)
  }

  lemma {:induction false} BulkByHanded(e: Entity, hooks: seq<Hook>, h: nat, origin: Draft, m: MutationState,
                                        same: bool)
    requires h <= |hooks|
    ensures BulkFollows(e, Handed(hooks, h, origin, m, same), Judge(e, hooks, h, origin, m, same))
    decreases |hooks| - h
  {
    hide Check;
    if h < |hooks| {
      match hooks[h].before(m.draft)
      case Return(_) =>
      case Call(d, _) => BulkByHanded(e, hooks, h + 1, if same then d else origin, m.(draft := d), same);
      case CallWith(d, _) => BulkByHanded(e, hooks, h + 1, origin, MutationState(d, false), false);
    }
  }

  lemma {:induction false} SingleByHanded(e: Entity, hooks: seq<Hook>, h: nat, origin: Draft, m: MutationState,
                                          same: bool)
    requires h <= |hooks|
    ensures SingleFollows(e, Handed(hooks, h, origin, m, same), JudgeSingle(e, hooks, h, m))
    decreases |hooks| - h
  {
    hide Check;
    if h < |hooks| {
      match hooks[h].before(m.draft)
      case Return(_) =>
      case Call(d, _) => SingleByHanded(e, hooks, h + 1, if same then d else origin, m.(draft := d), same);
      case CallWith(d, _) => SingleByHanded(e, hooks, h + 1, origin, MutationState(d, false), false);
    }
  }

  lemma {:induction false} SameAfters(e: Entity, hooks: seq<Hook>, h: nat, origin: Draft, m: MutationState, same: bool)
    requires h <= |hooks|
    ensures Judge(e, hooks, h, origin, m, same).afters == JudgeSingle(e, hooks, h, m).afters
    decreases |hooks| - h
  {
    hide Check;
    if h < |hooks| {
      match hooks[h].before(m.draft)
      case Return(_) =>
      case Call(d, _) => SameAfters(e, hooks, h + 1, if same then d else origin, m.(draft := d), same);
      case CallWith(d, _) => SameAfters(e, hooks, h + 1, origin, MutationState(d, false), false);
    }
  }

  lemma VerdictsByHanded(e: Entity, hooks: seq<Hook>, m: MutationState)
    ensures BulkFollows(e, HandedTo(hooks, m), JudgeBuilder(e, hooks, m))
    ensures SingleFollows(e, HandedTo(hooks, m), JudgeSingle(e, hooks, 0, m))
    ensures JudgeBuilder(e, hooks, m).afters == JudgeSingle(e, hooks, 0, m).afters
  {
    hide Check, Judge, JudgeSingle, Handed;
    JudgeBuilderIs(e, hooks, m);
    BulkByHanded(e, hooks, 0, m.draft, m, true);
    SingleByHanded(e, hooks, 0, m.draft, m, true);
    SameAfters(e, hooks, 0, m.draft, m, true);
  }

  predicate ChecksAgree(e: Entity, hooks: seq<Hook>, m: MutationState) {
    match HandedTo(hooks, m)
    case None => true
    case Some((o, m1)) => Check(e, o).None? == Check(e, m1.draft).None?
  }

  /** For one builder with any hooks, a bulk save and a single save leave the same
      table exactly when a hook returns early, or the database refuses the row that
      is handed on, or the check does not tell apart the draft of the builder's
      mutation and the draft that is handed on. */
  lemma ChecksAgreeIff(e: Entity, hooks: seq<Hook>, m: MutationState, t: Table, server: Server)
    ensures var bulk := BulkRun(e, [hooks], Start([m], t, server, [])).0.table;
            var single := SaveOne(e, NonNil(hooks), m, t, server).1;
            bulk == single <==>
            match HandedTo(hooks, m) {
              case None => true
              case Some((_, m1)) =>
                InsertError(t, server, [CreateSpec(e, m1.draft)]).Some? || ChecksAgree(e, hooks, m)
            }
  {
    hide Check, CreateNode, CreateSpec, AddRows, InsertError, Run, RunHooks, Judge, JudgeSingle, Trace, Reply;
    var vs := Verdicts(e, [hooks], [m]);
    BulkIs(e, [hooks], [m], t, server, []);
    SingleStoresIff(e, hooks, 0, m, m, true, t, server);
    VerdictsByHanded(e, hooks, m);
    assert vs[0] == JudgeBuilder(e, hooks, m);
    if vs[0].Clear? {
      assert AllRows(e, vs) == [CreateSpec(e, vs[0].m.draft)];
    }
    match HandedTo(hooks, m)
    case None =>
    case Some((_, m1)) =>
      var rows := [CreateSpec(e, m1.draft)];
      if InsertError(t, server, rows).None? {
        InsertGrows(t, server, rows);
      }
  }

  function SingleVerdicts(e: Entity, hooks: seq<seq<Hook>>, ms: seq<MutationState>): (vs: seq<Verdict>)
    requires |hooks| == |ms|
    ensures |vs| == |hooks|
  {
    seq(|hooks|, i requires 0 <= i < |hooks| == |ms| => JudgeSingle(e, hooks[i], 0, ms[i]))
  }

  // No hook of any builder returns early.
  ghost predicate AllHanded(hooks: seq<seq<Hook>>, ms: seq<MutationState>)
    requires |hooks| == |ms|
  {
    forall i :: 0 <= i < |hooks| ==> HandedTo(hooks[i], ms[i]).Some?
  }

  ghost function HandedRows(e: Entity, hooks: seq<seq<Hook>>, ms: seq<MutationState>): seq<Spec>
    requires |hooks| == |ms| && AllHanded(hooks, ms)
  {
    seq(|hooks|, i requires 0 <= i < |hooks| == |ms| && AllHanded(hooks, ms) =>
      CreateSpec(e, HandedTo(hooks[i], ms[i]).value.1.draft))
  }

  // The drafts the builders hold, and the drafts that are handed on, all pass.
  ghost predicate OwnPass(e: Entity, hooks: seq<seq<Hook>>, ms: seq<MutationState>)
    requires |hooks| == |ms| && AllHanded(hooks, ms)
  {
    forall i :: 0 <= i < |hooks| ==> Check(e, HandedTo(hooks[i], ms[i]).value.0).None?
  }

  ghost predicate HandedPass(e: Entity, hooks: seq<seq<Hook>>, ms: seq<MutationState>)
    requires |hooks| == |ms| && AllHanded(hooks, ms)
  {
    forall i :: 0 <= i < |hooks| ==> Check(e, HandedTo(hooks[i], ms[i]).value.1.draft).None?
  }

  lemma AllClearByHanded(e: Entity, hooks: seq<seq<Hook>>, ms: seq<MutationState>)
    requires |hooks| == |ms|
    ensures var bulk, single := Verdicts(e, hooks, ms), SingleVerdicts(e, hooks, ms);
            && (AllClear(bulk, 0) <==> AllHanded(hooks, ms) && OwnPass(e, hooks, ms))
            && (AllClear(single, 0) <==> AllHanded(hooks, ms) && HandedPass(e, hooks, ms))
            && (AllClear(bulk, 0) ==> AllRows(e, bulk) == HandedRows(e, hooks, ms))
            && (AllClear(single, 0) ==> AllRows(e, single) == HandedRows(e, hooks, ms))
            && (AllClear(bulk, 0) && AllClear(single, 0) ==> bulk == single)
  {
    hide Check, CreateSpec, Judge, JudgeSingle;
    var bulk, single := Verdicts(e, hooks, ms), SingleVerdicts(e, hooks, ms);
    forall i | 0 <= i < |hooks|
      ensures BulkFollows(e, HandedTo(hooks[i], ms[i]), bulk[i])
      ensures SingleFollows(e, HandedTo(hooks[i], ms[i]), single[i]) && bulk[i].afters == single[i].afters
    {
      VerdictsByHanded(e, hooks[i], ms[i]);
      assert bulk[i] == JudgeBuilder(e, hooks[i], ms[i]) && single[i] == JudgeSingle(e, hooks[i], 0, ms[i]);
    }
  }

  // Through hooks that only refuse, the bulk save succeeds exactly when all
  // builders are clear and the insert is accepted; otherwise it stores nothing.
  lemma BulkSucceedsIff(e: Entity, hooks: seq<seq<Hook>>, ms: seq<MutationState>, t: Table, server: Server)
    requires |hooks| == |ms| > 0 && OnlyRefuse(hooks)
    ensures var vs := Verdicts(e, hooks, ms);
            var (w2, res) := BulkRun(e, hooks, Start(ms, t, server, []));
            && (res.Saved? <==> AllClear(vs, 0) && InsertError(t, server, AllRows(e, vs)).None?)
            && (!res.Saved? ==> w2.table == t)
  {
    hide Check, CreateNode, CreateSpec, AddRows, InsertError, Run, JudgeBuilder;
    var vs := Verdicts(e, hooks, ms);
    if AllClear(vs, 0) {
      ClearBuildersDecide(e, hooks, ms, t, server);
    } else {
      var k := SomeLowestBlock(vs, 0);
      LowestBlockDecides(e, hooks, ms, t, server, k);
      RefusalsFail(e, hooks, k, 0, ms[k].draft, ms[k], true);
      JudgeBuilderIs(e, hooks[k], ms[k]);
      assert vs[k] == JudgeBuilder(e, hooks[k], ms[k]);
    }
  }

  lemma {:induction false} RefusalsFail(e: Entity, hooks: seq<seq<Hook>>, k: nat, h: nat, origin: Draft,
                                        m: MutationState, same: bool)
    requires OnlyRefuse(hooks) && k < |hooks| && h <= |hooks[k]|
    ensures var v := Judge(e, hooks[k], h, origin, m, same); v.Blocked? ==> v.out.Failed?
    decreases |hooks[k]| - h
  {
    hide Check;
    if h < |hooks[k]| {
      match hooks[k][h].before(m.draft)
      case Return(_) =>
      case Call(d, _) => RefusalsFail(e, hooks, k, h + 1, if same then d else origin, m.(draft := d), same);
      case CallWith(d, _) => RefusalsFail(e, hooks, k, h + 1, origin, MutationState(d, false), false);
    }
  }

  /** Saving in bulk against saving one after another, through hooks that only
      refuse and without conflict options. When both succeed they leave the same
      table, the same nodes and the same mutations; when the bulk save fails it
      stores nothing. And they succeed or fail together exactly when a hook refuses,
      or the database refuses the rows that are handed on, or the check, over all
      builders, passes the drafts they hold iff it passes the drafts handed on. */
  lemma BulkEqualsSingles(e: Entity, hooks: seq<seq<Hook>>, ms: seq<MutationState>, t: Table, server: Server)
    requires |hooks| == |ms| > 0 && OnlyRefuse(hooks)
    ensures var (w2, res) := BulkRun(e, hooks, Start(ms, t, server, []));
            var (ms2, t2, nodes, err) := SaveEach(e, hooks, ms, 0, t, server);
            && (res.Saved? && err.None? ==>
                  w2.table == t2 && w2.mutations == ms2 &&
                  res == Saved(seq(|nodes|, j requires 0 <= j < |nodes| => Some(nodes[j]))))
            && (!res.Saved? ==> w2.table == t)
            && ((res.Saved? <==> err.None?) <==>
                (AllHanded(hooks, ms) && InsertError(t, server, HandedRows(e, hooks, ms)).None? ==>
                   (OwnPass(e, hooks, ms) <==> HandedPass(e, hooks, ms))))
  {
    hide Check, CreateNode, CreateSpec, AddRows, InsertError, SaveEach, Run, JudgeBuilder, JudgeSingle, OwnPass,
         HandedPass, HandedRows, AllHanded;
    var vs := SingleVerdicts(e, hooks, ms);
    var (ms2, t2, nodes, err) := SaveEach(e, hooks, ms, 0, t, server);
    var (w2, res) := BulkRun(e, hooks, Start(ms, t, server, []));
    AllClearByHanded(e, hooks, ms);
    BulkSucceedsIff(e, hooks, ms, t, server);
    SinglesSucceedIff(e, hooks, vs, ms, 0, t, server);
    if AllClear(vs, 0) {
      RowsFromIsAll(e, vs, 0);
    }
    if res.Saved? && err.None? {
      ClearBuildersDecide(e, hooks, ms, t, server);
      SinglesLeave(e, hooks, vs, ms, 0, t, server);
      assert w2.nodes == seq(|nodes|, j requires 0 <= j < |nodes| => Some(nodes[j]));
      assert w2.mutations == ms2;
    }
  }

  /** In particular they succeed or fail together, and then agree in everything,
      whenever the two checks agree builder by builder: as with hooks that never
      hand on another mutation. */
  lemma AgreeingChecksSucceedTogether(e: Entity, hooks: seq<seq<Hook>>, ms: seq<MutationState>, t: Table,
                                      server: Server)
    requires |hooks| == |ms| > 0 && OnlyRefuse(hooks)
    requires forall i :: 0 <= i < |hooks| ==> ChecksAgree(e, hooks[i], ms[i])
    ensures BulkRun(e, hooks, Start(ms, t, server, [])).1.Saved? <==> SaveEach(e, hooks, ms, 0, t, server).3.None?
  {
    hide Check, SaveEach, BulkRun, HandedRows, InsertError, Handed;
    BulkEqualsSingles(e, hooks, ms, t, server);
    if AllHanded(hooks, ms) {
      forall i | 0 <= i < |hooks|
        ensures Check(e, HandedTo(hooks[i], ms[i]).value.0).None? ==
                Check(e, HandedTo(hooks[i], ms[i]).value.1.draft).None?
      {
        assert ChecksAgree(e, hooks[i], ms[i]);
      }
    }
  }

  // Hooks that edit the builder's mutation in place keep the two drafts one.
  lemma {:induction false} EditsInPlaceAgree(e: Entity, hooks: seq<Hook>, h: nat, m: MutationState)
    requires h <= |hooks| && forall k, d :: 0 <= k < |hooks| ==> !hooks[k].before(d).CallWith?
    ensures match Handed(hooks, h, m.draft, m, true) case None => true case Some((o, m1)) => o == m1.draft
    decreases |hooks| - h
  {
    if h < |hooks| {
      match hooks[h].before(m.draft)
      case Return(_) =>
      case Call(d, _) => EditsInPlaceAgree(e, hooks, h + 1, m.(draft := d));
    }
  }

  lemma InPlaceHooksAgree(e: Entity, hooks: seq<Hook>, m: MutationState)
    requires forall k, d :: 0 <= k < |hooks| ==> !hooks[k].before(d).CallWith?
    ensures ChecksAgree(e, hooks, m)
  {
    hide Check;
    EditsInPlaceAgree(e, hooks, 0, m);
  }

  // Handing on a fleet without a name: a single save refuses it, a bulk save
  // stores it.
  lemma BulkStoresWhatSinglesRefuse()
    ensures var unnamed := NORTH.draft.(fields := NORTH.draft.fields[NameCol := TextV("")]);
            var handBack := (o: Outcome) => o;
            var swap := Hook(d => CallWith(unnamed, handBack));
            var bulk := BulkRun(Fleet, [[swap]], Start([NORTH], map[], UP, []));
            && SaveOne(Fleet, [Some(swap)], NORTH, map[], UP).2 == NotCreated(InvalidField(NameCol))
            && bulk.1.Saved? && bulk.0.table == map[7 := Stored(CreateSpec(Fleet, unnamed))]
  {
    var unnamed := NORTH.draft.(fields := NORTH.draft.fields[NameCol := TextV("")]);
    var handBack := (o: Outcome) => o;
    var swap := Hook(d => CallWith(unnamed, handBack));
    UnnamedIsInvalid(unnamed);
    SingleRefuses(unnamed, swap, handBack);
    BulkStores(unnamed, swap, handBack);
  }

  lemma UnnamedIsInvalid(unnamed: Draft)
    requires unnamed == NORTH.draft.(fields := NORTH.draft.fields[NameCol := TextV("")])
    ensures Check(Fleet, unnamed) == Some(InvalidField(NameCol))
  {
    var rules := Fleet.Rules();
    forall k | 0 <= k < 4 ensures Violation(rules[k], unnamed).None? {
    }
    assert Violation(rules[4], unnamed) == Some(InvalidField(NameCol));
    CheckFindsFirst(rules, unnamed);
    var k :| 0 <= k < |rules| && CheckRules(rules, unnamed) == Violation(rules[k], unnamed)
             && forall j :: 0 <= j < k ==> Violation(rules[j], unnamed).None?;
    assert k == 4;
  }

  lemma SingleRefuses(unnamed: Draft, swap: Hook, after: Outcome -> Outcome)
    requires (forall d :: swap.before(d) == CallWith(unnamed, after)) && forall o :: after(o) == o
    requires Check(Fleet, unnamed) == Some(InvalidField(NameCol))
    ensures SaveOne(Fleet, [Some(swap)], NORTH, map[], UP).2 == NotCreated(InvalidField(NameCol))
  {
    hide Check, CreateNode, CreateSpec;
    assert Live([Some(swap)]) == [swap];
    var inner := RunHooks(Fleet, [swap], 1, NORTH, MutationState(unnamed, false), false, map[], UP);
    assert inner.2 == Failed(InvalidField(NameCol));
    assert swap.before(NORTH.draft) == CallWith(unnamed, after);
    assert RunHooks(Fleet, [swap], 0, NORTH, NORTH, true, map[], UP).2 == after(inner.2);
  }

  lemma BulkStores(unnamed: Draft, swap: Hook, after: Outcome -> Outcome)
    requires (forall d :: swap.before(d) == CallWith(unnamed, after)) && forall o :: after(o) == o
    requires unnamed.id == Some(7)
    ensures var bulk := BulkRun(Fleet, [[swap]], Start([NORTH], map[], UP, []));
            bulk.1.Saved? && bulk.0.table == map[7 := Stored(CreateSpec(Fleet, unnamed))]
  {
    hide Check, CreateNode;
    NorthIsValid();
    var hooks := [[swap]];
    var vs := Verdicts(Fleet, hooks, [NORTH]);
    var replaced := MutationState(unnamed, false);
    assert Judge(Fleet, [swap], 1, NORTH.draft, replaced, false) == Clear(replaced, []);
    assert swap.before(NORTH.draft) == CallWith(unnamed, after);
    assert Judge(Fleet, [swap], 0, NORTH.draft, NORTH, true) == Under(after, Clear(replaced, []));
    JudgeBuilderIs(Fleet, [swap], NORTH);
    assert vs[0] == JudgeBuilder(Fleet, [swap], NORTH);
    ClearBuildersDecide(Fleet, hooks, [NORTH], map[], UP);
    assert AllRows(Fleet, vs) == [CreateSpec(Fleet, unnamed)];
    assert AllRows(Fleet, vs)[..0] == [];
  }
}
