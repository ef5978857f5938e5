/** Eager loading of one row per node, and the query it belongs to:
    ChainOfCustodyQuery.sqlAll with loadShipment. Nodes that refer to the same
    shipment share it. */
module EagerShipment {

  import opened Wrappers
  import opened Schema
  import opened ReadBack
  import opened Query
  import opened EagerLoad

  ghost function Keys(nodes: seq<NodeObject>): seq<UUID>
    reads nodes
  {
    seq(|nodes|, i requires 0 <= i < |nodes| reads nodes => KeyOf(nodes[i].node, ShipmentIdCol))
  }

  // The keys without repeats, in the order in which they first occur.
  function FirstOccurrences(keys: seq<UUID>): seq<UUID> {
    if keys == [] then []
    else
      var init, last := FirstOccurrences(keys[..|keys| - 1]), keys[|keys| - 1];
      if last in keys[..|keys| - 1] then init else init + [last]
  }

  // The position of the first row whose ID is not among keys, or |rows|.
  function FirstUnknown(keys: seq<UUID>, rows: seq<Node>, k: nat): (r: nat)
    requires k <= |rows|
    ensures k <= r <= |rows|
    decreases |rows| - k
  {
    if k == |rows| || rows[k].id !in keys then k else FirstUnknown(keys, rows, k + 1)
  }

  lemma {:induction false} FirstUnknownIs(keys: seq<UUID>, rows: seq<Node>, k: nat)
    requires k <= |rows|
    ensures var r := FirstUnknown(keys, rows, k);
            && (forall j :: k <= j < r ==> rows[j].id in keys)
            && (r < |rows| ==> rows[r].id !in keys)
    decreases |rows| - k
  {
    if k < |rows| && rows[k].id in keys {
      FirstUnknownIs(keys, rows, k + 1);
    }
  }

  // The last of the rows with this ID.
  function WithId(rows: seq<Node>, id: UUID, none: Option<Node>): Option<Node> {
    if rows == [] then none
    else if rows[|rows| - 1].id == id then Some(rows[|rows| - 1]) else WithId(rows[..|rows| - 1], id, none)
  }

  /** Each key is asked for exactly once, and no other is, in the order in which they
      first occur: more nodes only append to the list. */
  lemma {:induction false} AskedOnce(keys: seq<UUID>)
    ensures forall x :: x in FirstOccurrences(keys) <==> x in keys
    ensures forall i, j :: 0 <= i < j < |FirstOccurrences(keys)| ==>
              FirstOccurrences(keys)[i] != FirstOccurrences(keys)[j]
    ensures forall n :: 0 <= n <= |keys| ==> FirstOccurrences(keys[..n]) <= FirstOccurrences(keys)
  {
    if keys != [] {
      var init, last := keys[..|keys| - 1], keys[|keys| - 1];
      AskedOnce(init);
      assert keys == init + [last];
      forall n | 0 <= n <= |keys| ensures FirstOccurrences(keys[..n]) <= FirstOccurrences(keys) {
        assert n < |keys| ==> keys[..n] == init[..n];
        assert n == |keys| ==> keys[..n] == keys;
      }
    }
  }

  // The multimap sends a key to the nodes that have it, and to no others.
  ghost predicate Grouped(nodes: seq<NodeObject>, keys: seq<UUID>, nodeids: map<UUID, seq<NodeObject>>) {
    && |keys| <= |nodes|
    && (forall key :: key in nodeids <==> key in keys)
    && (forall key, j :: key in nodeids && 0 <= j < |keys| ==> (nodes[j] in nodeids[key] <==> keys[j] == key))
    && (forall key :: key in nodeids ==> forall o :: o in nodeids[key] ==> o in nodes[..|keys|])
  }

  // First loop: the distinct keys, and the nodes of each.
  method GroupNodes(nodes: seq<NodeObject>) returns (ids: seq<UUID>, nodeids: map<UUID, seq<NodeObject>>)
    requires DistinctNodes(nodes)
    ensures ids == FirstOccurrences(Keys(nodes))
    ensures Grouped(nodes, Keys(nodes), nodeids)
  {
    hide KeyOf;
    ids, nodeids := [], map[];
    ghost var keys := Keys(nodes);
    for i := 0 to |nodes|
      invariant ids == FirstOccurrences(keys[..i])
      invariant Grouped(nodes, keys[..i], nodeids)
    {
      var fk := KeyOf(nodes[i].node, ShipmentIdCol);
      GroupOneMore(nodes, keys[..i], nodeids, fk);
      assert keys[..i + 1] == keys[..i] + [fk];
      assert keys[..i + 1][..i] == keys[..i];
      if fk !in nodeids {
        ids := ids + [fk];
      }
      nodeids := nodeids[fk := (if fk in nodeids then nodeids[fk] else []) + [nodes[i]]];
    }
    assert keys[..|nodes|] == keys;
  }

  lemma GroupOneMore(nodes: seq<NodeObject>, keys: seq<UUID>, nodeids: map<UUID, seq<NodeObject>>, fk: UUID)
    requires DistinctNodes(nodes) && Grouped(nodes, keys, nodeids) && |keys| < |nodes|
    ensures Grouped(nodes, keys + [fk],
                    nodeids[fk := (if fk in nodeids then nodeids[fk] else []) + [nodes[|keys|]]])
  {
    var node := nodes[|keys|];
    var group := (if fk in nodeids then nodeids[fk] else []) + [node];
    var more := nodeids[fk := group];
    var keys' := keys + [fk];
    assert nodes[..|keys'|] == nodes[..|keys|] + [node];
    assert node !in nodes[..|keys|];
    forall key, j | key in more && 0 <= j < |keys'| ensures nodes[j] in more[key] <==> keys'[j] == key {
      if j < |keys| && key == fk && key !in nodeids {
        assert keys[j] in keys;
      }
    }
    forall key, o | key in more && o in more[key] ensures o in nodes[..|keys'|] {
    }
  }

  method AssignAll(group: seq<NodeObject>, n: Node, ghost nodes: seq<NodeObject>)
    requires forall o :: o in group ==> o in nodes
    modifies nodes`shipment
    ensures forall i :: 0 <= i < |nodes| ==>
              nodes[i].shipment == if nodes[i] in group then Some(n) else old(nodes[i].shipment)
  {
    for i := 0 to |group|
      invariant forall j :: 0 <= j < |nodes| ==>
                  nodes[j].shipment == if nodes[j] in group[..i] then Some(n) else old(nodes[j].shipment)
    {
      assert group[..i + 1] == group[..i] + [group[i]];
      assert group[i] in nodes;
      group[i].shipment := Some(n);
    }
  }

  // Second loop: every returned shipment goes to all nodes that refer to it.
  method ShareOut(nodes: seq<NodeObject>, ghost keys: seq<UUID>, nodeids: map<UUID, seq<NodeObject>>, rows: seq<Node>)
    returns (err: Option<Error>)
    requires |keys| == |nodes| && Grouped(nodes, keys, nodeids)
    modifies nodes`shipment
    ensures var k := FirstUnknown(keys, rows, 0);
            && err == (if k < |rows| then Some(UnexpectedForeignKey(rows[k].id)) else None)
            && forall i :: 0 <= i < |nodes| ==> nodes[i].shipment == WithId(rows[..k], keys[i], old(nodes[i].shipment))
  {
    for k := 0 to |rows|
      invariant FirstUnknown(keys, rows, 0) == FirstUnknown(keys, rows, k)
      invariant forall i :: 0 <= i < |nodes| ==> nodes[i].shipment == WithId(rows[..k], keys[i], old(nodes[i].shipment))
    {
      assert rows[..k + 1][..k] == rows[..k];
      if rows[k].id !in nodeids {
        return Some(UnexpectedForeignKey(rows[k].id));
      }
      var group := nodeids[rows[k].id];
      assert nodes[..|keys|] == nodes;
      AssignAll(group, rows[k], nodes);
    }
    assert rows[..|rows|] == rows;
    return None;
  }

  /** loadShipment. `all` is query.All with the IDIn predicate. */
  method LoadShipment(nodes: seq<NodeObject>, all: seq<UUID> -> Result<seq<Node>, Error>) returns (err: Option<Error>)
    requires DistinctNodes(nodes)
    modifies nodes`shipment
    ensures var keys := old(Keys(nodes));
            nodes != [] ==>
            match all(FirstOccurrences(keys)) {
              case Failure(e) =>
                err == Some(e) && forall i :: 0 <= i < |nodes| ==> nodes[i].shipment == old(nodes[i].shipment)
              case Success(rows) =>
                var k := FirstUnknown(keys, rows, 0);
                && err == (if k < |rows| then Some(UnexpectedForeignKey(rows[k].id)) else None)
                && forall i :: 0 <= i < |nodes| ==>
                     nodes[i].shipment == WithId(rows[..k], keys[i], old(nodes[i].shipment))
            }
    ensures nodes == [] ==> err == None
  {
    hide KeyOf, FirstUnknown, WithId;
    var ids, nodeids := GroupNodes(nodes);
    AskedOnce(Keys(nodes));
    assert nodes != [] ==> Keys(nodes)[0] in Keys(nodes);
    if |ids| == 0 {
      return None;
    }
    var result := all(ids);
    match result {
      case Failure(e) => return Some(e);
      case Success(rows) =>
        err := ShareOut(nodes, Keys(nodes), nodeids, rows);
    }
  }

  // ShipmentOrErr.
  function ShipmentOrErr(shipment: Option<Node>, loaded: bool): Result<Node, Error> {
    if shipment.Some? then Success(shipment.value) else if loaded then Failure(NotFound) else Failure(NotLoaded)
  }

  function EagerKey(withShipment: bool): Option<Column> {
    if withShipment then Some(ShipmentIdCol) else None
  }

  // The Assign closure of sqlAll: one struct per row, through scanValues and assignValues.
  method ReadNodes(fields: seq<Column>, withShipment: bool, rows: seq<Row>) returns (nodes: seq<NodeObject>)
    ensures fresh(nodes) && DistinctNodes(nodes) && |nodes| == |rows|
    ensures forall i :: 0 <= i < |rows| ==>
              && nodes[i].node == ReadRow(Custody, QueryColumns(Custody, fields, EagerKey(withShipment)), rows[i])
              && nodes[i].loaded == withShipment && nodes[i].shipment == None
  {
    hide Entity.Field, Entity.Columns, Entity.Scan, QueryColumns, Filled, AssignUpTo;
    var columns := QuerySpecColumns(Custody, fields, EagerKey(withShipment));
    nodes := [];
    for i := 0 to |rows|
      invariant fresh(nodes) && DistinctNodes(nodes) && |nodes| == i
      invariant forall k :: 0 <= k < i ==>
                  && nodes[k].node == ReadRow(Custody, columns, rows[k])
                  && nodes[k].loaded == withShipment && nodes[k].shipment == None
    {
      var node := new NodeObject(Custody, withShipment);
      ReadCannotFail(columns, rows[i]);
      var err := node.AssignValues(Custody, columns, Filled(Custody, columns, rows[i]));
      nodes := nodes + [node];
    }
  }

  lemma ReadCannotFail(columns: seq<Column>, r: Row)
    ensures |Filled(Custody, columns, r)| == |columns|
    ensures AssignUpTo(Custody, ZeroNode(Custody), columns, Filled(Custody, columns, r), |columns|).1 == None
  {
    hide Entity.Field, Entity.Columns, Entity.Scan;
    ScannedFilled(Custody, columns, r);
    SwitchesAgree(Custody, IdCol);
    AssignTakesLastNotNull(Custody, ZeroNode(Custody), columns, Filled(Custody, columns, r), |columns|, IdCol);
  }

  // The stored shipment_id; the column is not nullable.
  function StoredKey(r: Row): UUID {
    if Cell(r, ShipmentIdCol).UuidV? then Cell(r, ShipmentIdCol).u else ZERO_UUID
  }

  ghost function StoredKeys(rows: seq<Row>): seq<UUID> {
    seq(|rows|, i requires 0 <= i < |rows| => StoredKey(rows[i]))
  }

  /** sqlAll over the rows the custody query selects. */
  method SqlAll(fields: seq<Column>, withShipment: bool, rows: seq<Row>, all: seq<UUID> -> Result<seq<Node>, Error>)
    returns (res: Result<seq<NodeObject>, Error>)
    ensures res.Success? ==>
              var nodes := res.value;
              && fresh(nodes) && |nodes| == |rows|
              && forall i :: 0 <= i < |rows| ==>
                   nodes[i].node == ReadRow(Custody, QueryColumns(Custody, fields, EagerKey(withShipment)), rows[i])
                   && nodes[i].loaded == withShipment
    ensures !withShipment || rows == [] ==>
              res.Success? && forall n :: n in res.value ==>
                n.shipment == None && ShipmentOrErr(n.shipment, n.loaded) == Failure(NotLoaded)
    ensures withShipment && rows != [] ==>
              var keys := StoredKeys(rows);
              match all(FirstOccurrences(keys)) {
                case Failure(e) => res == Failure(e)
                case Success(found) =>
                  var k := FirstUnknown(keys, found, 0);
                  && (k < |found| ==> res == Failure(UnexpectedForeignKey(found[k].id)))
                  && (k == |found| ==>
                        && res.Success?
                        && forall i :: 0 <= i < |rows| ==> res.value[i].shipment == WithId(found, keys[i], None))
              }
  {
    hide FirstUnknown, WithId, FirstOccurrences, ReadRow, QueryColumns, Cell;
    var nodes := ReadNodes(fields, withShipment, rows);
    if withShipment {
      JoinKeyIsRead(fields, rows);
      assert Keys(nodes) == StoredKeys(rows);
      var err := LoadShipment(nodes, all);
      if err.Some? {
        return Failure(err.value);
      }
      forall found: seq<Node> ensures found[..|found|] == found {
      }
    }
    return Success(nodes);
  }

  // The join key is read as stored under every projection of an eager query.
  lemma JoinKeyIsRead(fields: seq<Column>, rows: seq<Row>)
    ensures forall i :: 0 <= i < |rows| ==>
              KeyOf(ReadRow(Custody, QueryColumns(Custody, fields, Some(ShipmentIdCol)), rows[i]), ShipmentIdCol)
              == StoredKey(rows[i])
  {
    hide ReadRow, QueryColumns, Cell;
    forall i | 0 <= i < |rows|
      ensures KeyOf(ReadRow(Custody, QueryColumns(Custody, fields, Some(ShipmentIdCol)), rows[i]), ShipmentIdCol)
              == StoredKey(rows[i])
    {
      KeyIsRead(Custody, fields, Some(ShipmentIdCol), ShipmentIdCol, rows[i]);
    }
  }

  // ------------------------------------------------- against the nested-loop join

  // The shipment query narrowed to these IDs, with its own predicates and page.
  function IdQuery(q: QueryState, ids: seq<UUID>): QueryState {
    q.(predicates := q.predicates + [(r: Row) => r.id in ids])
  }

  // What query.All returns; `read` is how the shipment query reads a row.
  function Shipments(q: QueryState, table: seq<Row>, read: Row -> Node, ids: seq<UUID>): seq<Node> {
    var picked := Returned(IdQuery(q, ids), table);
    seq(|picked|, i requires 0 <= i < |picked| => read(picked[i]))
  }

  // Every returned row is one of the table that the predicates admit; all of them are
  // if the page keeps all.
  lemma PickedRows(q: QueryState, table: seq<Row>, ids: seq<UUID>)
    ensures var picked := Returned(IdQuery(q, ids), table);
            var all := Filter(table, r => Holds(IdQuery(q, ids).predicates, r));
            && (forall r :: r in picked ==> r in table && Holds(q.predicates, r) && r.id in ids)
            && (KeepsAll(q, |all|) ==>
                  forall r :: r in table && Holds(q.predicates, r) && r.id in ids ==> r in picked)
  {
    hide Filter, Holds;
    var q' := IdQuery(q, ids);
    var p := (r: Row) => Holds(q'.predicates, r);
    var all := Filter(table, p);
    FilterKeeps(table, p);
    PageKeepsAll(q', table);
    forall r ensures p(r) <==> Holds(q.predicates, r) && r.id in ids {
      HoldsOneMore(q.predicates, (r: Row) => r.id in ids, r);
    }
    forall r | r in Returned(q', table) ensures r in all {
      ReturnedIsPart(q', table, r);
    }
  }

  lemma ReturnedIsPart(q: QueryState, table: seq<Row>, r: Row)
    requires r in Returned(q, table)
    ensures r in Filter(table, r => Holds(q.predicates, r))
  {
    hide Filter, Holds;
  }

  lemma {:induction false} NoneUnknown(keys: seq<UUID>, rows: seq<Node>, k: nat)
    requires k <= |rows| && forall n :: n in rows ==> n.id in keys
    ensures FirstUnknown(keys, rows, k) == |rows|
    decreases |rows| - k
  {
    if k < |rows| {
      assert rows[k] in rows;
      NoneUnknown(keys, rows, k + 1);
    }
  }

  lemma {:induction false} WithIdFinds(rows: seq<Node>, id: UUID)
    ensures var found := WithId(rows, id, None); found.Some? ==> found.value in rows && found.value.id == id
    ensures WithId(rows, id, None).None? <==> forall n :: n in rows ==> n.id != id
  {
    if rows != [] {
      WithIdFinds(rows[..|rows| - 1], id);
      assert rows == rows[..|rows| - 1] + [rows[|rows| - 1]];
    }
  }

  /** loadShipment is the join on the primary key: whatever the shipment query
      filters and whatever its page, the unexpected-foreign-key error does not occur,
      and each custody event gets the shipment it refers to if the query returns it;
      then and only then ShipmentOrErr succeeds, and otherwise it says not found, never
      not loaded. */
  lemma EagerShipmentIsTheJoin(rows: seq<Row>, q: QueryState, table: seq<Row>, read: Row -> Node, i: nat)
    requires i < |rows|
    requires forall r :: read(r).id == r.id
    requires forall j, k :: 0 <= j < k < |table| ==> table[j].id != table[k].id
    ensures var keys := StoredKeys(rows);
            var ids := FirstOccurrences(keys);
            var picked := Returned(IdQuery(q, ids), table);
            var found := Shipments(q, table, read, ids);
            && FirstUnknown(keys, found, 0) == |found|
            && Answers(picked, read, keys[i], ShipmentOrErr(WithId(found, keys[i], None), true))
            && Admitted(q, table, read, keys[i], ShipmentOrErr(WithId(found, keys[i], None), true))
  {
    hide StoredKey, FirstOccurrences, WithId, FirstUnknown, Filter, Holds, Returned;
    var keys := StoredKeys(rows);
    var ids := FirstOccurrences(keys);
    var picked := Returned(IdQuery(q, ids), table);
    var found := Shipments(q, table, read, ids);
    AskedOnce(keys);
    PickedRows(q, table, ids);
    forall n | n in found ensures exists r :: r in picked && n == read(r) {
      var j :| 0 <= j < |found| && found[j] == n;
      assert picked[j] in picked;
    }
    forall n | n in found ensures n.id in keys {
      var r :| r in picked && n == read(r);
    }
    NoneUnknown(keys, found, 0);
    WithIdFinds(found, keys[i]);
    forall r | r in picked && r.id == keys[i]
      ensures WithId(found, keys[i], None) == Some(read(r))
    {
      var j :| 0 <= j < |picked| && picked[j] == r;
      assert found[j] == read(r);
      var n := WithId(found, keys[i], None).value;
      var r' :| r' in picked && n == read(r');
      assert r' == r;
    }
  }

  // An answer is a row of the table that the query's predicates admit, with this ID, or not found.
  ghost predicate Admitted(q: QueryState, table: seq<Row>, read: Row -> Node, key: UUID, answer: Result<Node, Error>) {
    match answer
    case Success(n) =>
      exists i :: 0 <= i < |table| && Holds(q.predicates, table[i]) && table[i].id == key && n == read(table[i])
    case Failure(err) => err == NotFound
  }

  // The answer for a key: the returned row with this ID, or not found.
  ghost predicate Answers(picked: seq<Row>, read: Row -> Node, key: UUID, answer: Result<Node, Error>) {
    && (forall r :: r in picked && r.id == key ==> answer == Success(read(r)))
    && ((forall r :: r in picked ==> r.id != key) ==> answer == Failure(NotFound))
    && answer != Failure(NotLoaded)
  }

  /** The eager custody query against its two tables: it succeeds, and each event of
      the result answers ShipmentOrErr with the shipment its row refers to if the
      shipment query returns it, which is one of the table that its predicates admit,
      and with not found otherwise. A query without a page,
      or with one that keeps all, returns every such shipment its predicates admit. */
  method CustodyWithShipments(fields: seq<Column>, rows: seq<Row>, q: QueryState, table: seq<Row>, read: Row -> Node)
    returns (res: Result<seq<NodeObject>, Error>)
    requires forall r :: read(r).id == r.id
    requires forall j, k :: 0 <= j < k < |table| ==> table[j].id != table[k].id
    ensures res.Success? && fresh(res.value) && |res.value| == |rows|
    ensures var query := IdQuery(q, FirstOccurrences(StoredKeys(rows)));
            && (forall i :: 0 <= i < |rows| ==>
                  var n := res.value[i];
                  && n.node == ReadRow(Custody, QueryColumns(Custody, fields, Some(ShipmentIdCol)), rows[i])
                  && Answers(Returned(query, table), read, StoredKey(rows[i]), ShipmentOrErr(n.shipment, n.loaded))
                  && Admitted(q, table, read, StoredKey(rows[i]), ShipmentOrErr(n.shipment, n.loaded)))
            && (KeepsAll(q, |Filter(table, r => Holds(query.predicates, r))|) ==>
                  forall i :: 0 <= i < |rows| ==>
                    forall r :: r in table && Holds(q.predicates, r) && r.id == StoredKey(rows[i]) ==>
                      ShipmentOrErr(res.value[i].shipment, res.value[i].loaded) == Success(read(r)))
  {
    hide FirstUnknown, WithId, FirstOccurrences, ReadRow, QueryColumns, StoredKey, Shipments, Returned, Filter, Holds,
         IdQuery, KeepsAll, Admitted;
    ghost var keys := StoredKeys(rows);
    ghost var ids := FirstOccurrences(keys);
    ghost var picked := Returned(IdQuery(q, ids), table);
    ghost var found := Shipments(q, table, read, ids);
    AskedOnce(keys);
    PickedRows(q, table, ids);
    forall i | 0 <= i < |rows|
      ensures FirstUnknown(keys, found, 0) == |found| && keys[i] in ids
      ensures Answers(picked, read, keys[i], ShipmentOrErr(WithId(found, keys[i], None), true))
      ensures Admitted(q, table, read, keys[i], ShipmentOrErr(WithId(found, keys[i], None), true))
    {
      assert keys[i] in keys;
      EagerShipmentIsTheJoin(rows, q, table, read, i);
    }
    assert rows != [] ==> FirstUnknown(keys, found, 0) == |found| by {
      if rows != [] {
        EagerShipmentIsTheJoin(rows, q, table, read, 0);
      }
    }
    res := SqlAll(fields, true, rows, (ids: seq<UUID>) => Success(Shipments(q, table, read, ids)));
  }
}
