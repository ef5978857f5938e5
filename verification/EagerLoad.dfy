/** Eager loading of many rows per node: one query for the neighbours of all
    nodes, whose rows are handed out through a map from ID to node. This is the
    template of loadMembers and loadVehicles. */
module EagerLoad {

  import opened Wrappers
  import opened Schema
  import opened ReadBack
  import opened Query

  // The foreign key a neighbour was read with; a uuid.UUID field is never nil.
  function KeyOf(n: Node, fk: Column): UUID {
    var v := Get(n, fk);
    if v.UuidV? then v.u else ZERO_UUID
  }

  // The neighbours with this foreign key, in the order they were returned.
  function ChildrenOf(rows: seq<Node>, fk: Column, id: UUID): seq<Node> {
    if rows == [] then []
    else
      var init := ChildrenOf(rows[..|rows| - 1], fk, id);
      if KeyOf(rows[|rows| - 1], fk) == id then init + [rows[|rows| - 1]] else init
  }

  // The last position of id: the node that the map from ID to node ends up with.
  function LastAt(ids: seq<UUID>, id: UUID): nat
    requires id in ids
    ensures LastAt(ids, id) < |ids| && ids[LastAt(ids, id)] == id
    ensures forall j :: LastAt(ids, id) < j < |ids| ==> ids[j] != id
  {
    if ids[|ids| - 1] == id then |ids| - 1 else LastAt(ids[..|ids| - 1], id)
  }

  // What the node at position i is given.
  function Share(ids: seq<UUID>, i: nat, rows: seq<Node>, fk: Column): seq<Node>
    requires i < |ids|
  {
    if LastAt(ids, ids[i]) == i then ChildrenOf(rows, fk, ids[i]) else []
  }

  // The position of the first row whose key is not among ids, or |rows|.
  function FirstStray(ids: seq<UUID>, rows: seq<Node>, fk: Column, k: nat): (r: nat)
    requires k <= |rows|
    ensures k <= r <= |rows|
    decreases |rows| - k
  {
    if k == |rows| || KeyOf(rows[k], fk) !in ids then k else FirstStray(ids, rows, fk, k + 1)
  }

  lemma {:induction false} FirstStrayIs(ids: seq<UUID>, rows: seq<Node>, fk: Column, k: nat)
    requires k <= |rows|
    ensures var r := FirstStray(ids, rows, fk, k);
            && (forall j :: k <= j < r ==> KeyOf(rows[j], fk) in ids)
            && (r < |rows| ==> KeyOf(rows[r], fk) !in ids)
    decreases |rows| - k
  {
    hide KeyOf;
    if k < |rows| && KeyOf(rows[k], fk) in ids {
      FirstStrayIs(ids, rows, fk, k + 1);
    }
  }

  lemma StrayStep(ids: seq<UUID>, rows: seq<Node>, fk: Column, k: nat)
    requires k <= |rows|
    ensures FirstStray(ids, rows, fk, k) ==
            if k < |rows| && KeyOf(rows[k], fk) in ids then FirstStray(ids, rows, fk, k + 1) else k
  {
  }

  function AppendFieldOnce(fields: seq<Column>, fk: Column): seq<Column> {
    if fields == [] || fk in fields then fields else fields + [fk]
  }

  // One more row goes to one node only: the last with its key.
  lemma ShareStep(ids: seq<UUID>, i: nat, rows: seq<Node>, last: Node, fk: Column)
    requires i < |ids| && KeyOf(last, fk) in ids
    ensures Share(ids, i, rows + [last], fk) ==
            Share(ids, i, rows, fk) + (if LastAt(ids, KeyOf(last, fk)) == i then [last] else [])
  {
    hide KeyOf, LastAt;
    assert (rows + [last])[..|rows|] == rows;
  }

  ghost predicate DistinctNodes(nodes: seq<NodeObject>) {
    forall i, j :: 0 <= i < j < |nodes| ==> nodes[i] != nodes[j]
  }

  ghost function Ids(nodes: seq<NodeObject>): seq<UUID>
    reads nodes
  {
    seq(|nodes|, i requires 0 <= i < |nodes| reads nodes => nodes[i].node.id)
  }

  // The map points every ID to the last node with it.
  ghost predicate Indexed(nodes: seq<NodeObject>, ids: seq<UUID>, nodeids: map<UUID, NodeObject>) {
    && |ids| <= |nodes|
    && (forall id :: id in nodeids <==> id in ids)
    && (forall id :: id in nodeids ==> nodeids[id] == nodes[LastAt(ids, id)])
  }

  lemma KnownKey(nodes: seq<NodeObject>, ids: seq<UUID>, nodeids: map<UUID, NodeObject>, key: UUID)
    requires Indexed(nodes, ids, nodeids)
    ensures key in nodeids <==> key in ids
  {
  }

  lemma IndexOneMore(nodes: seq<NodeObject>, ids: seq<UUID>, nodeids: map<UUID, NodeObject>, id: UUID)
    requires Indexed(nodes, ids, nodeids) && |ids| < |nodes|
    ensures Indexed(nodes, ids + [id], nodeids[id := nodes[|ids|]])
  {
    var more := ids + [id];
    assert more[..|ids|] == ids && more[|ids|] == id;
    forall x | x in more ensures LastAt(more, x) == if x == id then |ids| else LastAt(ids, x) {
    }
  }

  // First loop: the keys to ask for, the index, and an empty list for every node.
  method IndexNodes(nodes: seq<NodeObject>) returns (fks: seq<UUID>, nodeids: map<UUID, NodeObject>)
    requires DistinctNodes(nodes)
    modifies nodes`children
    ensures fks == Ids(nodes) && Indexed(nodes, fks, nodeids)
    ensures forall i :: 0 <= i < |nodes| ==> nodes[i].children == []
  {
    hide LastAt;
    fks, nodeids := [], map[];
    for i := 0 to |nodes|
      invariant fks == Ids(nodes)[..i]
      invariant Indexed(nodes, fks, nodeids)
      invariant forall j :: 0 <= j < i ==> nodes[j].children == []
    {
      IndexOneMore(nodes, fks, nodeids, nodes[i].node.id);
      fks := fks + [nodes[i].node.id];
      nodeids := nodeids[nodes[i].node.id := nodes[i]];
      nodes[i].children := [];
    }
  }

  lemma NothingGiven(ids: seq<UUID>, fk: Column)
    ensures forall i :: 0 <= i < |ids| ==> Share(ids, i, [], fk) == []
  {
  }

  // The lists are what the first rows give.
  ghost predicate Given(nodes: seq<NodeObject>, ids: seq<UUID>, rows: seq<Node>, fk: Column)
    requires |ids| == |nodes|
    reads nodes
  {
    forall i :: 0 <= i < |nodes| ==> nodes[i].children == Share(ids, i, rows, fk)
  }

  // One round of the second loop: the row goes to the node its key leads to.
  method Give(nodes: seq<NodeObject>, ghost ids: seq<UUID>, nodeids: map<UUID, NodeObject>, ghost rows: seq<Node>,
              row: Node, fk: Column)
    requires DistinctNodes(nodes) && |ids| == |nodes| && Indexed(nodes, ids, nodeids)
    requires KeyOf(row, fk) in nodeids && Given(nodes, ids, rows, fk)
    modifies nodes`children
    ensures Given(nodes, ids, rows + [row], fk)
  {
    hide LastAt, KeyOf;
    forall i | 0 <= i < |nodes|
      ensures Share(ids, i, rows + [row], fk) ==
              Share(ids, i, rows, fk) + (if LastAt(ids, KeyOf(row, fk)) == i then [row] else [])
    {
      ShareStep(ids, i, rows, row, fk);
    }
    hide Share;
    var node := nodeids[KeyOf(row, fk)];
    node.children := node.children + [row];
  }

  // Second loop: every row is handed out, up to the first whose key is unknown.
  method Distribute(nodes: seq<NodeObject>, ghost ids: seq<UUID>, nodeids: map<UUID, NodeObject>, rows: seq<Node>,
                    fk: Column)
    returns (err: Option<Error>)
    requires DistinctNodes(nodes) && |ids| == |nodes| && Indexed(nodes, ids, nodeids)
    requires Given(nodes, ids, [], fk)
    modifies nodes`children
    ensures var k := FirstStray(ids, rows, fk, 0);
            && err == (if k < |rows| then Some(UnexpectedForeignKey(KeyOf(rows[k], fk))) else None)
            && Given(nodes, ids, rows[..k], fk)
  {
    hide LastAt, KeyOf, Given, Indexed, DistinctNodes, FirstStray;
    assert rows[..0] == [];
    for k := 0 to |rows|
      invariant FirstStray(ids, rows, fk, 0) == FirstStray(ids, rows, fk, k)
      invariant Given(nodes, ids, rows[..k], fk)
    {
      var key := KeyOf(rows[k], fk);
      StrayStep(ids, rows, fk, k);
      KnownKey(nodes, ids, nodeids, key);
      if key !in nodeids {
        return Some(UnexpectedForeignKey(key));
      }
      assert rows[..k + 1] == rows[..k] + [rows[k]];
      Give(nodes, ids, nodeids, rows[..k], rows[k], fk);
    }
    StrayStep(ids, rows, fk, |rows|);
    return None;
  }

  /** `all` is query.All with the IN predicate over the given keys and the given
      projection. Rows before a stray one are handed out before the error. */
  method LoadChildren(nodes: seq<NodeObject>, fields: seq<Column>, fk: Column,
                      all: (seq<UUID>, seq<Column>) -> Result<seq<Node>, Error>)
    returns (err: Option<Error>)
    requires DistinctNodes(nodes)
    modifies nodes`children
    ensures var ids := old(Ids(nodes));
            match all(ids, AppendFieldOnce(fields, fk)) {
              case Failure(e) =>
                err == Some(e) && forall i :: 0 <= i < |nodes| ==> nodes[i].children == []
              case Success(rows) =>
                var k := FirstStray(ids, rows, fk, 0);
                && err == (if k < |rows| then Some(UnexpectedForeignKey(KeyOf(rows[k], fk))) else None)
                && forall i :: 0 <= i < |nodes| ==> nodes[i].children == Share(ids, i, rows[..k], fk)
            }
  {
    hide LastAt, KeyOf, Share, FirstStray;
    var fks, nodeids := IndexNodes(nodes);
    assert fks == old(Ids(nodes));
    NothingGiven(fks, fk);
    var result := all(fks, AppendFieldOnce(fields, fk));
    match result {
      case Failure(e) => return Some(e);
      case Success(rows) =>
        err := Distribute(nodes, fks, nodeids, rows, fk);
    }
  }

  // ------------------------------------------------- against the nested-loop join

  // The IN predicate on the stored foreign key: NULL is in no list.
  predicate KeyIn(r: Row, fk: Column, ids: seq<UUID>) {
    Cell(r, fk).UuidV? && Cell(r, fk).u in ids
  }

  // query.All after loadMembers has narrowed the query to the children of ids.
  function ChildQuery(q: QueryState, fk: Column, ids: seq<UUID>): QueryState {
    q.(predicates := q.predicates + [(r: Row) => KeyIn(r, fk, ids)], fields := AppendFieldOnce(q.fields, fk))
  }

  // The foreign keys of the edges that are loaded this way: the members and vehicles
  // of a fleet, the custody events of a shipment.
  lemma JoinKeys()
    ensures Member.Field(FleetIdCol) == Vehicle.Field(FleetIdCol) == Custody.Field(ShipmentIdCol) == Some(Uuid)
  {
  }

  // Under any projection that selects it, the foreign key is read as stored.
  lemma KeyIsRead(e: Entity, fields: seq<Column>, eager: Option<Column>, fk: Column, r: Row)
    requires e.Field(fk) == Some(Uuid) && fk != IdCol
    requires fields == [] || fk in fields || eager == Some(fk)
    requires eager.Some? ==> eager == Some(fk)
    ensures Get(ReadRow(e, QueryColumns(e, fields, eager), r), fk) ==
            if Cell(r, fk).UuidV? then Cell(r, fk) else UuidV(ZERO_UUID)
  {
    hide Entity.Field, Entity.Columns, Entity.Scan, QueryColumns;
    var columns := QueryColumns(e, fields, eager);
    assert fk in columns by {
      IdFirstAndForeignKey(e, fields, eager);
      SwitchesAgree(e, fk);
      AllColumns(e, eager);
    }
    SwitchesAgree(e, fk);
    ReadsCell(e, columns, r, fk);
  }

  lemma AllColumns(e: Entity, eager: Option<Column>)
    ensures QueryColumns(e, [], eager) == e.Columns()
  {
  }

  lemma ReadAppend(e: Entity, q: QueryState, rows: seq<Row>, last: Row)
    ensures Read(e, q, rows + [last]) == Read(e, q, rows) + [ReadRow(e, QueryColumns(e, q.fields, None), last)]
  {
    hide ReadRow, QueryColumns;
  }

  lemma ChildrenSplit(rows: seq<Node>, last: Node, fk: Column, id: UUID)
    ensures ChildrenOf(rows + [last], fk, id) ==
            ChildrenOf(rows, fk, id) + (if KeyOf(last, fk) == id then [last] else [])
  {
    hide KeyOf;
    assert (rows + [last])[..|rows|] == rows;
  }

  // Picking one ID's rows out of the answer for many IDs gives the answer for the one.
  lemma {:induction false} PickedIsOwn(e: Entity, q: QueryState, table: seq<Row>, fk: Column, id: UUID,
                                       many: Row -> bool, one: Row -> bool)
    requires e.Field(fk) == Some(Uuid) && fk != IdCol && (q.fields == [] || fk in q.fields)
    requires forall r :: many(r) ==> Cell(r, fk).UuidV?
    requires forall r :: one(r) <==> many(r) && Cell(r, fk) == UuidV(id)
    ensures ChildrenOf(Read(e, q, Filter(table, many)), fk, id) == Read(e, q, Filter(table, one))
    decreases |table|
  {
    if table != [] {
      hide Entity.Field, Entity.Columns, ReadRow, QueryColumns, Cell, Filter, Read, ChildrenOf;
      var init, last := table[..|table| - 1], table[|table| - 1];
      assert table == init + [last];
      PickedIsOwn(e, q, init, fk, id, many, one);
      FilterSplits(init, last, many);
      FilterSplits(init, last, one);
      KeyIsRead(e, q.fields, None, fk, last);
      var node := ReadRow(e, QueryColumns(e, q.fields, None), last);
      if many(last) {
        ReadAppend(e, q, Filter(init, many), last);
        ChildrenSplit(Read(e, q, Filter(init, many)), node, fk, id);
      } else {
        assert Filter(init, many) + [] == Filter(init, many);
      }
      if one(last) {
        ReadAppend(e, q, Filter(init, one), last);
      } else {
        assert Filter(init, one) + [] == Filter(init, one);
      }
    }
  }

  lemma {:induction false} NoStray(ids: seq<UUID>, rows: seq<Node>, fk: Column, k: nat)
    requires k <= |rows| && forall n :: n in rows ==> KeyOf(n, fk) in ids
    ensures FirstStray(ids, rows, fk, k) == |rows|
    decreases |rows| - k
  {
    if k < |rows| {
      assert rows[k] in rows;
      NoStray(ids, rows, fk, k + 1);
    }
  }

  lemma ChildQueryIsValid(e: Entity, q: QueryState, fk: Column, ids: seq<UUID>)
    requires ValidFields(e, q) && e.Field(fk).Some?
    ensures BadField(e, ChildQuery(q, fk, ids).fields).None?
  {
    hide Entity.Field, Entity.Columns;
    SwitchesAgree(e, fk);
    NoBadField(e, ChildQuery(q, fk, ids).fields);
  }

  // What one more predicate asks on top of those the query has.
  lemma HoldsOneMore(predicates: seq<Row -> bool>, p: Row -> bool, r: Row)
    ensures Holds(predicates + [p], r) <==> Holds(predicates, r) && p(r)
  {
    var more := predicates + [p];
    assert more[|predicates|] == p;
    assert forall i :: 0 <= i < |predicates| ==> more[i] == predicates[i];
  }

  // Every row the narrowed query returns, under any page, was read with a key of ids.
  lemma NeighboursHaveKeys(e: Entity, q: QueryState, table: seq<Row>, fk: Column, ids: seq<UUID>)
    requires ValidFields(e, q) && e.Field(fk) == Some(Uuid) && fk != IdCol
    ensures AllOf(e, ChildQuery(q, fk, ids), table).Success?
    ensures forall n :: n in AllOf(e, ChildQuery(q, fk, ids), table).value ==> KeyOf(n, fk) in ids
  {
    hide Entity.Field, Entity.Columns, ReadRow, QueryColumns, Filter, Cell, BadField;
    ChildQueryIsValid(e, q, fk, ids);
    var q' := ChildQuery(q, fk, ids);
    var picked := Returned(q', table);
    FilterKeeps(table, r => Holds(q'.predicates, r));
    forall k | 0 <= k < |picked|
      ensures KeyOf(ReadRow(e, QueryColumns(e, q'.fields, None), picked[k]), fk) in ids
    {
      assert picked[k] in picked;
      assert picked[k] in Filter(table, r => Holds(q'.predicates, r));
      HoldsOneMore(q.predicates, (r: Row) => KeyIn(r, fk, ids), picked[k]);
      KeyIsRead(e, q'.fields, None, fk, picked[k]);
    }
  }

  /** The unexpected-foreign-key error does not occur, for every projection,
      predicates, limit, offset and table. */
  lemma UnexpectedKeyIsUnreachable(e: Entity, q: QueryState, table: seq<Row>, fk: Column, ids: seq<UUID>)
    requires ValidFields(e, q) && e.Field(fk) == Some(Uuid) && fk != IdCol
    ensures AllOf(e, ChildQuery(q, fk, ids), table).Success?
    ensures var rows := AllOf(e, ChildQuery(q, fk, ids), table).value; FirstStray(ids, rows, fk, 0) == |rows|
  {
    hide AllOf, KeyOf, Entity.Field, Entity.Columns, ChildQuery;
    NeighboursHaveKeys(e, q, table, fk, ids);
    NoStray(ids, AllOf(e, ChildQuery(q, fk, ids), table).value, fk, 0);
  }

  /** The nodes are the rows of the table that meet the query's predicates and whose
      stored foreign key is `id`, those and no others, in the order of the table. */
  ghost predicate ReadsRowsOf(children: seq<Node>, e: Entity, q: QueryState, table: seq<Row>, fk: Column, id: UUID) {
    exists pos: seq<nat> :: RowsOf(pos, q, table, fk, id) && ReadsRowsAt(children, e, q, table, fk, pos)
  }

  ghost predicate RowsOf(pos: seq<nat>, q: QueryState, table: seq<Row>, fk: Column, id: UUID) {
    && (forall j, k :: 0 <= j < k < |pos| ==> pos[j] < pos[k])
    && (forall i: nat :: i in pos <==>
          && i < |table|
          && (forall k :: 0 <= k < |q.predicates| ==> q.predicates[k](table[i]))
          && Cell(table[i], fk) == UuidV(id))
  }

  ghost predicate ReadsRowsAt(children: seq<Node>, e: Entity, q: QueryState, table: seq<Row>, fk: Column,
                              pos: seq<nat>) {
    && |children| == |pos|
    && forall j :: 0 <= j < |pos| ==>
         && pos[j] < |table|
         && children[j] == ReadRow(e, QueryColumns(e, AppendFieldOnce(q.fields, fk), None), table[pos[j]])
  }

  // The columns they are read with: all, or those requested, the ID and the foreign key.
  lemma EagerColumns(e: Entity, fields: seq<Column>, fk: Column)
    ensures var columns := QueryColumns(e, AppendFieldOnce(fields, fk), None);
            && (fields == [] ==> columns == e.Columns())
            && (fields != [] ==> forall c :: c in columns <==> c == IdCol || c in fields || c == fk)
  {
    hide Entity.Columns;
    IdFirstAndForeignKey(e, AppendFieldOnce(fields, fk), None);
  }

  lemma PicksOwn(pos: seq<nat>, q: QueryState, table: seq<Row>, fk: Column, id: UUID)
    requires Picks(pos, table, ChildQuery(q, fk, [id]).predicates)
    ensures RowsOf(pos, q, table, fk, id)
  {
    hide Cell;
    var predicates := ChildQuery(q, fk, [id]).predicates;
    forall i: nat
      ensures i in pos <==>
              && i < |table|
              && (forall k :: 0 <= k < |q.predicates| ==> q.predicates[k](table[i]))
              && Cell(table[i], fk) == UuidV(id)
    {
      if i < |table| {
        HoldsOneMore(q.predicates, (r: Row) => KeyIn(r, fk, [id]), table[i]);
        assert Holds(predicates, table[i]) <==> i in pos;
        assert Holds(q.predicates, table[i]) <==> forall k :: 0 <= k < |q.predicates| ==> q.predicates[k](table[i]);
      }
    }
  }

  lemma WholePage(nodes: seq<Node>, e: Entity, q: QueryState, table: seq<Row>) returns (pos: seq<nat>)
    requires q.limit.None? && q.offset.None? && ReadsPage(nodes, e, q, table)
    ensures Picks(pos, table, q.predicates) && |nodes| == |pos|
    ensures forall j :: 0 <= j < |pos| ==>
              pos[j] < |table| && nodes[j] == ReadRow(e, QueryColumns(e, q.fields, None), table[pos[j]])
  {
    hide ReadRow, QueryColumns, Picks;
    var rows: seq<Row> :|
      && IsPage(rows, q, None, table)
      && |nodes| == |rows|
      && forall j :: 0 <= j < |rows| ==> nodes[j] == ReadRow(e, QueryColumns(e, q.fields, None), rows[j]);
    pos :| Picks(pos, table, q.predicates) && IsSlice(rows, pos, None, None, table);
    forall j | 0 <= j < |pos|
      ensures pos[j] < |table| && nodes[j] == ReadRow(e, QueryColumns(e, q.fields, None), table[pos[j]])
    {
      assert nodes[j] == ReadRow(e, QueryColumns(e, q.fields, None), rows[j]);
    }
  }

  lemma ReadAtOwn(nodes: seq<Node>, e: Entity, fields: seq<Column>, q: QueryState, table: seq<Row>, fk: Column,
                  pos: seq<nat>)
    requires fields == AppendFieldOnce(q.fields, fk) && |nodes| == |pos|
    requires forall j :: 0 <= j < |pos| ==>
               pos[j] < |table| && nodes[j] == ReadRow(e, QueryColumns(e, fields, None), table[pos[j]])
    ensures ReadsRowsAt(nodes, e, q, table, fk, pos)
  {
    hide ReadRow, QueryColumns, AppendFieldOnce;
  }

  // What the query for one node returns, said of the table; own is this query.
  lemma OwnQueryReadsRows(e: Entity, q: QueryState, own: QueryState, table: seq<Row>, fk: Column, id: UUID)
    requires own == ChildQuery(q, fk, [id]) && own.limit.None? && own.offset.None? && AllOf(e, own, table).Success?
    ensures ReadsRowsOf(AllOf(e, own, table).value, e, q, table, fk, id)
  {
    hide ReadRow, QueryColumns, Picks, AllOf, RowsOf, ReadsPage, NamesFirstUnknown, Entity.Columns, AppendFieldOnce,
         ReadsRowsAt;
    assert own.fields == AppendFieldOnce(q.fields, fk);
    AllIsThePage(e, own, table);
    var pos := WholePage(AllOf(e, own, table).value, e, own, table);
    PicksOwn(pos, q, table, fk, id);
    ReadAtOwn(AllOf(e, own, table).value, e, own.fields, q, table, fk, pos);
  }

  /** The eager load is the nested-loop join: for every projection, predicates and
      table each node gets exactly the rows, in the order, that the same query for this node alone
      returns, and these are the matching rows with its key; of several nodes with one
      ID the last does, and the others get none. */
  lemma EagerLoadIsTheJoin(e: Entity, q: QueryState, table: seq<Row>, fk: Column, ids: seq<UUID>, i: nat)
    requires ValidFields(e, q) && e.Field(fk) == Some(Uuid) && fk != IdCol && i < |ids|
    requires q.limit.None? && q.offset.None?
    ensures AllOf(e, ChildQuery(q, fk, ids), table).Success?
    ensures var rows := AllOf(e, ChildQuery(q, fk, ids), table).value;
            && AllOf(e, ChildQuery(q, fk, [ids[i]]), table) ==
               Success(ChildrenOf(rows, fk, ids[i]))
            && ReadsRowsOf(ChildrenOf(rows, fk, ids[i]), e, q, table, fk, ids[i])
            && ((exists j :: i < j < |ids| && ids[j] == ids[i]) ==> Share(ids, i, rows, fk) == [])
            && ((forall j :: i < j < |ids| ==> ids[j] != ids[i]) ==>
                  AllOf(e, ChildQuery(q, fk, [ids[i]]), table) == Success(Share(ids, i, rows, fk)))
  {
    hide Entity.Field, Entity.Columns, ReadRow, QueryColumns, Cell, BadField, Filter, KeyOf, ChildrenOf;
    ChildQueryIsValid(e, q, fk, ids);
    ChildQueryIsValid(e, q, fk, [ids[i]]);
    var all, own := ChildQuery(q, fk, ids), ChildQuery(q, fk, [ids[i]]);
    var many := (r: Row) => Holds(all.predicates, r);
    var one := (r: Row) => Holds(own.predicates, r);
    OneAmongMany(q, fk, ids, ids[i]);
    hide Holds, KeyIn, ReadsRowsOf;
    PickedIsOwn(e, all, table, fk, ids[i], many, one);
    assert Read(e, own, Filter(table, one)) == Read(e, all, Filter(table, one));
    assert Returned(own, table) == Filter(table, one);
    OwnQueryReadsRows(e, q, own, table, fk, ids[i]);
  }

  // The predicates for one ID among many: those for the many, and the stored key.
  lemma OneAmongMany(q: QueryState, fk: Column, ids: seq<UUID>, id: UUID)
    requires id in ids
    ensures forall r :: Holds(ChildQuery(q, fk, ids).predicates, r) ==> Cell(r, fk).UuidV?
    ensures forall r :: Holds(ChildQuery(q, fk, [id]).predicates, r) <==>
                        Holds(ChildQuery(q, fk, ids).predicates, r) && Cell(r, fk) == UuidV(id)
  {
    hide Holds, Cell;
    forall r
      ensures Holds(ChildQuery(q, fk, ids).predicates, r) <==> Holds(q.predicates, r) && KeyIn(r, fk, ids)
      ensures Holds(ChildQuery(q, fk, [id]).predicates, r) <==> Holds(q.predicates, r) && KeyIn(r, fk, [id])
    {
      HoldsOneMore(q.predicates, (r: Row) => KeyIn(r, fk, ids), r);
      HoldsOneMore(q.predicates, (r: Row) => KeyIn(r, fk, [id]), r);
    }
  }

  // All the nodes' lists, one after another.
  function Shares(ids: seq<UUID>, k: nat, rows: seq<Node>, fk: Column): multiset<Node>
    requires k <= |ids|
  {
    if k == 0 then multiset{} else Shares(ids, k - 1, rows, fk) + multiset(Share(ids, k - 1, rows, fk))
  }

  /** Nothing is lost and nothing handed out twice: the lists of all nodes
      together are the returned rows. */
  lemma {:induction false} SharesPartition(ids: seq<UUID>, rows: seq<Node>, fk: Column)
    requires forall n :: n in rows ==> KeyOf(n, fk) in ids
    ensures Shares(ids, |ids|, rows, fk) == multiset(rows)
    decreases |rows|
  {
    hide KeyOf, LastAt, Share;
    if rows == [] {
      NoShares(ids, |ids|, fk);
    } else {
      var init, last := rows[..|rows| - 1], rows[|rows| - 1];
      assert rows == init + [last];
      SharesPartition(ids, init, fk);
      SharesStep(ids, |ids|, init, last, fk);
    }
  }

  lemma {:induction false} NoShares(ids: seq<UUID>, k: nat, fk: Column)
    requires k <= |ids|
    ensures Shares(ids, k, [], fk) == multiset{}
  {
    if k > 0 {
      NoShares(ids, k - 1, fk);
    }
  }

  lemma {:induction false} SharesStep(ids: seq<UUID>, k: nat, rows: seq<Node>, last: Node, fk: Column)
    requires k <= |ids| && KeyOf(last, fk) in ids
    ensures Shares(ids, k, rows + [last], fk) ==
            Shares(ids, k, rows, fk) + (if LastAt(ids, KeyOf(last, fk)) < k then multiset{last} else multiset{})
  {
    hide KeyOf, LastAt, Share;
    if k > 0 {
      SharesStep(ids, k - 1, rows, last, fk);
      ShareStep(ids, k - 1, rows, last, fk);
    }
  }

  // Nodes that get the same lists from two answers leave no row out of either.
  lemma SameListsSameCount(ids: seq<UUID>, some: seq<Node>, rows: seq<Node>, fk: Column)
    requires forall n :: n in some || n in rows ==> KeyOf(n, fk) in ids
    requires forall i :: 0 <= i < |ids| ==> Share(ids, i, some, fk) == Share(ids, i, rows, fk)
    ensures |some| == |rows|
  {
    hide KeyOf, LastAt, Share;
    SharesPartition(ids, rows, fk);
    SharesPartition(ids, some, fk);
    SameShares(ids, |ids|, some, rows, fk);
    assert |multiset(some)| == |multiset(rows)|;
  }

  // The page of the query keeps all of n rows.
  predicate KeepsAll(q: QueryState, n: nat) {
    || n == 0
    || ((q.offset.None? || q.offset.value == 0) && (q.limit.None? || q.limit.value == 0 || n <= q.limit.value))
  }

  lemma PageKeepsAll(q: QueryState, table: seq<Row>)
    ensures var all := Filter(table, r => Holds(q.predicates, r));
            && |Returned(q, table)| <= |all|
            && (|Returned(q, table)| == |all| <==> KeepsAll(q, |all|))
            && (|Returned(q, table)| == |all| ==> Returned(q, table) == all)
  {
    hide Filter, Holds;
  }

  /** The page of the eager-loaded query is one for the rows of all nodes together:
      every node has the rows it would have without limit and offset iff the page
      keeps every row that matches. */
  lemma PageIsShared(e: Entity, q: QueryState, table: seq<Row>, fk: Column, ids: seq<UUID>)
    requires ValidFields(e, q) && e.Field(fk) == Some(Uuid) && fk != IdCol
    ensures var paged := ChildQuery(q, fk, ids);
            var unpaged := ChildQuery(q.(limit := None, offset := None), fk, ids);
            && AllOf(e, paged, table).Success? && AllOf(e, unpaged, table).Success?
            && ((forall i :: 0 <= i < |ids| ==>
                   Share(ids, i, AllOf(e, paged, table).value, fk) == Share(ids, i, AllOf(e, unpaged, table).value, fk))
                <==> KeepsAll(q, |AllOf(e, unpaged, table).value|))
  {
    hide KeyOf, LastAt, Share, Filter, Entity.Field, Entity.Columns, ReadRow, QueryColumns, BadField, KeyIn, Returned,
         Holds, KeepsAll, ValidFields, AppendFieldOnce;
    var q0 := q.(limit := None, offset := None);
    var paged, unpaged := ChildQuery(q, fk, ids), ChildQuery(q0, fk, ids);
    ValidWithoutPage(e, q, q0);
    NeighboursHaveKeys(e, q, table, fk, ids);
    NeighboursHaveKeys(e, q0, table, fk, ids);
    PageKeepsAll(paged, table);
    PageKeepsAll(unpaged, table);
    KeepsAllByPage(q, paged, q0, unpaged, |Returned(unpaged, table)|);
    var some, rows := AllOf(e, paged, table).value, AllOf(e, unpaged, table).value;
    if forall i :: 0 <= i < |ids| ==> Share(ids, i, some, fk) == Share(ids, i, rows, fk) {
      SameListsSameCount(ids, some, rows, fk);
    }
  }

  lemma ValidWithoutPage(e: Entity, q: QueryState, q0: QueryState)
    requires ValidFields(e, q) && q0.fields == q.fields
    ensures ValidFields(e, q0)
  {
  }

  lemma KeepsAllByPage(q: QueryState, paged: QueryState, q0: QueryState, unpaged: QueryState, n: nat)
    requires paged.limit == q.limit && paged.offset == q.offset
    requires unpaged.limit == None && unpaged.offset == None
    ensures KeepsAll(paged, n) == KeepsAll(q, n)
    ensures forall m :: KeepsAll(unpaged, m)
  {
  }

  lemma {:induction false} SameShares(ids: seq<UUID>, k: nat, some: seq<Node>, rows: seq<Node>, fk: Column)
    requires k <= |ids| && forall i :: 0 <= i < |ids| ==> Share(ids, i, some, fk) == Share(ids, i, rows, fk)
    ensures Shares(ids, k, some, fk) == Shares(ids, k, rows, fk)
  {
    hide KeyOf, LastAt, Share;
    if k > 0 {
      SameShares(ids, k - 1, some, rows, fk);
    }
  }

  /** Eager loading against a table: there is no error, and each node ends up with the
      reads of exactly the rows that match and refer to it, in the table's order, or
      with none if a later node has its ID. */
  method LoadEdge(nodes: seq<NodeObject>, e: Entity, q: QueryState, table: seq<Row>, fk: Column)
    returns (err: Option<Error>)
    requires DistinctNodes(nodes) && e.Field(fk) == Some(Uuid) && fk != IdCol
    requires ValidFields(e, q)
    modifies nodes`children
    ensures err == None
    ensures var ids := old(Ids(nodes));
            var rows := AllOf(e, ChildQuery(q, fk, ids), table);
            rows.Success? && forall i :: 0 <= i < |nodes| ==> nodes[i].children == Share(ids, i, rows.value, fk)
    ensures q.limit.None? && q.offset.None? ==>
              var ids := old(Ids(nodes));
              forall i :: 0 <= i < |nodes| ==>
                if exists j :: i < j < |nodes| && ids[j] == ids[i] then nodes[i].children == []
                else
                  && ReadsRowsOf(nodes[i].children, e, q, table, fk, ids[i])
                  && AllOf(e, ChildQuery(q, fk, [ids[i]]), table) == Success(nodes[i].children)
  {
    hide ReadsRowsOf, LastAt, KeyOf, Share, FirstStray, Entity.Field, Entity.Columns, ReadRow, QueryColumns, BadField,
         Filter, AllOf, ChildrenOf;
    ghost var ids := Ids(nodes);
    UnexpectedKeyIsUnreachable(e, q, table, fk, ids);
    if q.limit.None? && q.offset.None? {
      forall i | 0 <= i < |nodes|
        ensures var rows := AllOf(e, ChildQuery(q, fk, ids), table).value;
                if exists j :: i < j < |nodes| && ids[j] == ids[i] then Share(ids, i, rows, fk) == []
                else
                  && ReadsRowsOf(Share(ids, i, rows, fk), e, q, table, fk, ids[i])
                  && AllOf(e, ChildQuery(q, fk, [ids[i]]), table) == Success(Share(ids, i, rows, fk))
      {
        EagerLoadIsTheJoin(e, q, table, fk, ids, i);
      }
    }
    var all := (keys: seq<UUID>, fields: seq<Column>) =>
      AllOf(e, q.(predicates := q.predicates + [(r: Row) => KeyIn(r, fk, keys)], fields := fields), table);
    assert all(ids, AppendFieldOnce(q.fields, fk)) == AllOf(e, ChildQuery(q, fk, ids), table);
    err := LoadChildren(nodes, q.fields, fk, all);
    assert forall rows: seq<Node> :: rows[..|rows|] == rows;
  }
}
