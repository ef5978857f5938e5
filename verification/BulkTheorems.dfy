/** The effect of a bulk save for any number of builders and any hooks: its
    result, its table, the slots and mutations it leaves, and its events. */
module BulkTheorems {

  import opened Wrappers
  import opened Schema
  import opened Chain
  import opened ChainProofs
  import opened BulkSave

  function Verdicts(e: Entity, hooks: seq<seq<Hook>>, ms: seq<MutationState>): (vs: seq<Verdict>)
    requires |hooks| == |ms|
    ensures |vs| == |hooks|
  {
    seq(|hooks|, i requires 0 <= i < |hooks| == |ms| => JudgeBuilder(e, hooks[i], ms[i]))
  }

  // The rows every builder wants to insert, when all are clear.
  ghost function AllRows(e: Entity, vs: seq<Verdict>): seq<Spec>
    requires AllClear(vs, 0)
  {
    seq(|vs|, j requires 0 <= j < |vs| => CreateSpec(e, vs[j].m.draft))
  }

  // What the insert answers if the chain gets that far.
  ghost function End(e: Entity, vs: seq<Verdict>, w: World): Outcome {
    if AllClear(vs, 0) then InsertOutcome(w, AllRows(e, vs)) else Done(OtherAnswer)
  }

  ghost predicate Inserts(e: Entity, vs: seq<Verdict>, w: World) {
    AllClear(vs, 0) && InsertError(w.table, w.server, AllRows(e, vs)).None?
  }

  /** The whole effect of a bulk save, builder by builder. The table gains all
      the rows or none; the rows are inserted exactly when every builder is clear
      and the database accepts all of them. */
  lemma BulkIs(e: Entity, hooks: seq<seq<Hook>>, ms: seq<MutationState>, t: Table, server: Server, log: seq<Event>)
    requires |hooks| == |ms| > 0
    ensures var w := Start(ms, t, server, log);
            var vs := Verdicts(e, hooks, ms);
            var end := End(e, vs, w);
            var (w2, res) := BulkRun(e, hooks, w);
            && Fit(hooks, vs)
            && w2.log == log + Trace(e, hooks, vs, 0, end)
            && w2.table == (if Inserts(e, vs, w) then AddRows(t, AllRows(e, vs)) else t)
            && (res == match Reply(e, hooks, vs, 0, end)
                       case Failed(err) => NotSaved(err)
                       case Done(_) => Saved(w2.nodes))
            && Shape(hooks, w2)
            && forall j :: 0 <= j < |hooks| ==> SlotIs(e, hooks, vs, 0, j, end, w, w2)
  {
    hide CreateNode, CreateSpec, AddRows, InsertError, Run, Trace, Reply, JudgeBuilder;
    var w := Start(ms, t, server, log);
    var vs := Verdicts(e, hooks, ms);
    var end := End(e, vs, w);
    FitVerdicts(e, hooks, ms);
    if AllClear(vs, 0) {
      assert BatchRows(e, w.specs, vs, 0) == AllRows(e, vs);
    }
    assert Poised(e, hooks, vs, 0, w, end);
    ReplyIs(e, hooks, vs, 0, w, end);
    TraceIs(e, hooks, vs, 0, w, end);
    TableIs(e, hooks, vs, 0, w, end);
    forall j | 0 <= j < |hooks| ensures SlotIs(e, hooks, vs, 0, j, end, w, From(e, hooks, 0, w).0) {
      SlotsAre(e, hooks, vs, 0, j, w, end);
    }
  }

  lemma FitVerdicts(e: Entity, hooks: seq<seq<Hook>>, ms: seq<MutationState>)
    requires |hooks| == |ms|
    ensures Fit(hooks, Verdicts(e, hooks, ms))
  {
  }

  // ------------------------------------------------------------- the event trace

  // Hooks are left in the reverse of the order they were entered in: run the
  // events against a stack of open hooks.
  function Replay(log: seq<Event>, open: seq<(nat, nat)>): Option<seq<(nat, nat)>> {
    if log == [] then Some(open)
    else
      match log[0]
      case Enter(i, h) => Replay(log[1..], open + [(i, h)])
      case Leave(i, h) =>
        if open != [] && open[|open| - 1] == (i, h) then Replay(log[1..], open[..|open| - 1]) else None
      case _ => Replay(log[1..], open)
  }

  lemma {:induction false} ReplayAppend(a: seq<Event>, b: seq<Event>, open: seq<(nat, nat)>)
    ensures Replay(a + b, open) ==
            match Replay(a, open) case None => None case Some(mid) => Replay(b, mid)
  {
    if a == [] {
      assert a + b == b;
    } else {
      assert (a + b)[1..] == a[1..] + b && (a + b)[0] == a[0];
      match a[0]
      case Enter(i, h) => ReplayAppend(a[1..], b, open + [(i, h)]);
      case Leave(i, h) =>
        if open != [] && open[|open| - 1] == (i, h) {
          ReplayAppend(a[1..], b, open[..|open| - 1]);
        }
      case _ => ReplayAppend(a[1..], b, open);
    }
  }

  function Opened(i: nat, lo: nat, hi: nat): seq<(nat, nat)>
    requires lo <= hi
    decreases hi - lo
  {
    if lo == hi then [] else [(i, lo)] + Opened(i, lo + 1, hi)
  }

  // Entering the hooks lo..hi, something balanced, and leaving them again.
  lemma {:induction false} ReplayAround(i: nat, lo: nat, hi: nat, mid: seq<Event>, open: seq<(nat, nat)>)
    requires lo <= hi
    requires Replay(mid, open + Opened(i, lo, hi)) == Some(open + Opened(i, lo, hi))
    ensures Replay(Entered(i, lo, hi) + mid + Left(i, lo, hi), open) == Some(open)
    decreases hi - lo
  {
    if lo == hi {
      assert open + Opened(i, lo, hi) == open;
      assert Entered(i, lo, hi) + mid + Left(i, lo, hi) == mid;
    } else {
      assert open + [(i, lo)] + Opened(i, lo + 1, hi) == open + Opened(i, lo, hi);
      ReplayAround(i, lo + 1, hi, mid, open + [(i, lo)]);
      var inner := Entered(i, lo + 1, hi) + mid + Left(i, lo + 1, hi);
      ReplayAppend([Enter(i, lo)], inner + [Leave(i, lo)], open);
      ReplayAppend(inner, [Leave(i, lo)], open + [(i, lo)]);
      assert (open + [(i, lo)])[..|open|] == open;
      assert Replay([Enter(i, lo)], open) == Some(open + [(i, lo)]) by {
        assert [Enter(i, lo)][1..] == [];
      }
      assert Replay([Leave(i, lo)], open + [(i, lo)]) == Some(open) by {
        assert [Leave(i, lo)][1..] == [];
      }
      assert Entered(i, lo, hi) + mid + Left(i, lo, hi) == [Enter(i, lo)] + (inner + [Leave(i, lo)]);
    }
  }

  /** The events of a bulk save are well nested, whatever the hooks do: the
      hooks of builder i enclose its check, its spec and all that happens for
      the builders after it, and a hook that was entered is left. */
  lemma {:induction false} TraceIsNested(e: Entity, hooks: seq<seq<Hook>>, vs: seq<Verdict>, i: nat, end: Outcome,
                                         open: seq<(nat, nat)>)
    requires i <= |hooks| && Fit(hooks, vs)
    ensures Replay(Trace(e, hooks, vs, i, end), open) == Some(open)
    decreases |hooks| - i
  {
    hide Reply, CreateNode, Entered, Left, Opened, BlockedTrace;
    if i == |hooks| {
      Silent([Batch(end.Done?)], open);
    } else {
      var n := |hooks[i]|;
      match vs[i]
      case Blocked(depth, _, _) => BlockedIsNested(i, depth, n, open);
      case Clear(_, _) =>
        var inside := open + Opened(i, 0, n);
        var rest := Trace(e, hooks, vs, i + 1, end);
        var mark := if Reply(e, hooks, vs, i + 1, end).Done? then [MarkedDone(i)] else [];
        TraceIsNested(e, hooks, vs, i + 1, end, inside);
        NestedBetween([Checked(i, true), Specified(i)], rest, mark, inside);
        ReplayAround(i, 0, n, [Checked(i, true), Specified(i)] + rest + mark, open);
        Regroup5(Entered(i, 0, n), [Checked(i, true), Specified(i)], rest, mark, Left(i, 0, n));
    }
  }

  lemma Regroup5<T>(a: seq<T>, b: seq<T>, c: seq<T>, d: seq<T>, e: seq<T>)
    ensures a + b + c + d + e == a + (b + c + d) + e
  {
  }

  lemma NestedBetween(a: seq<Event>, rest: seq<Event>, b: seq<Event>, open: seq<(nat, nat)>)
    requires forall ev :: ev in a + b ==> !ev.Enter? && !ev.Leave?
    requires Replay(rest, open) == Some(open)
    ensures Replay(a + rest + b, open) == Some(open)
  {
    hide Replay;
    forall ev | ev in a || ev in b ensures !ev.Enter? && !ev.Leave? {
      assert ev in a + b;
    }
    Silent(a, open);
    Silent(b, open);
    ReplayAppend(a, rest, open);
    ReplayAppend(a + rest, b, open);
  }

  lemma BlockedIsNested(i: nat, depth: nat, n: nat, open: seq<(nat, nat)>)
    requires depth <= n
    ensures Replay(BlockedTrace(i, 0, depth, n), open) == Some(open)
  {
    hide Replay, Entered, Left, Opened;
    if depth < n {
      Silent([], open + Opened(i, 0, depth + 1));
      ReplayAround(i, 0, depth + 1, [], open);
      assert Entered(i, 0, depth + 1) + [] + Left(i, 0, depth + 1) == BlockedTrace(i, 0, depth, n);
    } else {
      Silent([Checked(i, false)], open + Opened(i, 0, n));
      ReplayAround(i, 0, n, [Checked(i, false)], open);
    }
  }

  lemma {:induction false} Silent(log: seq<Event>, open: seq<(nat, nat)>)
    requires forall ev :: ev in log ==> !ev.Enter? && !ev.Leave?
    ensures Replay(log, open) == Some(open)
  {
    if log != [] {
      Silent(log[1..], open);
    }
  }

  function Batches(log: seq<Event>): nat {
    if log == [] then 0 else Batches(log[1..]) + (if log[0].Batch? then 1 else 0)
  }

  lemma {:induction false} BatchesAppend(a: seq<Event>, b: seq<Event>)
    ensures Batches(a + b) == Batches(a) + Batches(b)
  {
    if a == [] {
      assert a + b == b;
    } else {
      assert (a + b)[1..] == a[1..] + b;
      BatchesAppend(a[1..], b);
    }
  }

  lemma {:induction false} NoBatch(log: seq<Event>)
    requires forall ev :: ev in log ==> !ev.Batch?
    ensures Batches(log) == 0
  {
    if log != [] {
      NoBatch(log[1..]);
    }
  }

  lemma {:induction false} HookEvents(i: nat, lo: nat, hi: nat)
    requires lo <= hi
    ensures forall ev :: ev in Entered(i, lo, hi) ==> ev.Enter?
    ensures forall ev :: ev in Left(i, lo, hi) ==> ev.Leave?
    decreases hi - lo
  {
    if lo < hi {
      HookEvents(i, lo + 1, hi);
    }
  }

  // The insert is attempted once if every builder is clear, and never otherwise.
  lemma {:induction false} BatchOnceIffAllClear(e: Entity, hooks: seq<seq<Hook>>, vs: seq<Verdict>, i: nat,
                                                end: Outcome)
    requires i <= |hooks| && Fit(hooks, vs)
    ensures Batches(Trace(e, hooks, vs, i, end)) == if AllClear(vs, i) then 1 else 0
    decreases |hooks| - i
  {
    hide Reply, CreateNode, Entered, Left;
    if i == |hooks| {
      assert [Batch(end.Done?)][1..] == [];
    } else {
      var n := |hooks[i]|;
      match vs[i]
      case Blocked(depth, _, _) =>
        BlockedHasNoBatch(i, depth, n);
        assert !AllClear(vs, i);
      case Clear(_, _) =>
        var rest := Trace(e, hooks, vs, i + 1, end);
        var mark := if Reply(e, hooks, vs, i + 1, end).Done? then [MarkedDone(i)] else [];
        BatchOnceIffAllClear(e, hooks, vs, i + 1, end);
        HookEvents(i, 0, n);
        BatchesBetween(Entered(i, 0, n) + [Checked(i, true), Specified(i)], rest, mark + Left(i, 0, n));
        assert Trace(e, hooks, vs, i, end) ==
               Entered(i, 0, n) + [Checked(i, true), Specified(i)] + rest + (mark + Left(i, 0, n));
        assert AllClear(vs, i) <==> AllClear(vs, i + 1);
    }
  }

  lemma BatchesBetween(a: seq<Event>, rest: seq<Event>, b: seq<Event>)
    requires forall ev :: ev in a || ev in b ==> !ev.Batch?
    ensures Batches(a + rest + b) == Batches(rest)
  {
    NoBatch(a);
    NoBatch(b);
    BatchesAppend(a, rest);
    BatchesAppend(a + rest, b);
  }

  lemma BlockedHasNoBatch(i: nat, depth: nat, n: nat)
    requires depth <= n
    ensures Batches(BlockedTrace(i, 0, depth, n)) == 0
  {
    hide Entered, Left, Batches;
    HookEvents(i, 0, depth);
    if depth < n {
      HookEvents(i, 0, depth + 1);
    }
    NoBatch(BlockedTrace(i, 0, depth, n));
  }
}
