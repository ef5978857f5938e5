/** The query builder: which columns it selects, which rows it returns, and the
    lookups that limit it to one or two rows. */
module Query {

  import opened Wrappers
  import opened Schema
  import opened ReadBack

  function Without(fields: seq<Column>, c: Column): seq<Column> {
    if fields == [] then []
    else (if fields[|fields| - 1] == c then Without(fields[..|fields| - 1], c)
          else Without(fields[..|fields| - 1], c) + [fields[|fields| - 1]])
  }

  function AddColumnOnce(columns: seq<Column>, c: Column): seq<Column> {
    if c in columns then columns else columns + [c]
  }

  // The columns of querySpec: `fields` is the projection (empty: everything),
  // `eager` the foreign key of an edge that is eager-loaded from this side.
  function QueryColumns(e: Entity, fields: seq<Column>, eager: Option<Column>): seq<Column> {
    if fields == [] then e.Columns()
    else
      var picked := [IdCol] + Without(fields, IdCol);
      if eager.Some? then AddColumnOnce(picked, eager.value) else picked
  }

  method QuerySpecColumns(e: Entity, fields: seq<Column>, eager: Option<Column>) returns (columns: seq<Column>)
    ensures columns == QueryColumns(e, fields, eager)
  {
    hide Entity.Columns;
    columns := e.Columns();
    if |fields| > 0 {
      columns := [IdCol];
      for i := 0 to |fields|
        invariant columns == [IdCol] + Without(fields[..i], IdCol)
      {
        assert fields[..i + 1][..i] == fields[..i];
        if fields[i] != IdCol {
          columns := columns + [fields[i]];
        }
      }
      assert fields[..|fields|] == fields;
      if eager.Some? {
        columns := AddColumnOnce(columns, eager.value);
      }
    }
  }

  lemma {:induction false} WithoutKeepsOthers(fields: seq<Column>, c: Column)
    ensures forall x :: x in Without(fields, c) <==> x in fields && x != c
  {
    if fields != [] {
      var init, last := fields[..|fields| - 1], fields[|fields| - 1];
      WithoutKeepsOthers(init, c);
      assert fields == init + [last];
    }
  }

  /** For every projection the ID comes first and only there, the foreign key of
      an eager-loaded edge is selected, and apart from these two exactly the
      requested columns are. */
  lemma IdFirstAndForeignKey(e: Entity, fields: seq<Column>, eager: Option<Column>)
    requires eager.Some? ==> e.Field(eager.value).Some? && eager.value != IdCol
    ensures var columns := QueryColumns(e, fields, eager);
            && |columns| > 0 && columns[0] == IdCol
            && (forall i :: 1 <= i < |columns| ==> columns[i] != IdCol)
            && (eager.Some? ==> eager.value in columns)
            && (fields != [] ==> forall c :: c in columns <==> c == IdCol || c in fields || eager == Some(c))
  {
    if fields == [] {
      if eager.Some? {
        SwitchesAgree(e, eager.value);
      }
      assert e.Columns()[0] == IdCol;
    } else {
      hide Entity.Columns, Entity.Field;
      WithoutKeepsOthers(fields, IdCol);
      var rest := Without(fields, IdCol);
      assert forall i :: 0 <= i < |rest| ==> rest[i] in rest;
    }
  }

  // ------------------------------------------------------------- the builder

  // The value of a builder: its predicates, its page and its projection.
  datatype QueryState = QueryState(
    predicates: seq<Row -> bool>,
    limit: Option<nat>,
    offset: Option<nat>,
    fields: seq<Column>
  )

  predicate Holds(predicates: seq<Row -> bool>, r: Row) {
    forall i :: 0 <= i < |predicates| ==> predicates[i](r)
  }

  function Filter(rows: seq<Row>, p: Row -> bool): seq<Row> {
    if rows == [] then []
    else if p(rows[0]) then [rows[0]] + Filter(rows[1..], p) else Filter(rows[1..], p)
  }

  function Take<T>(xs: seq<T>, n: Option<nat>): seq<T> {
    if n.Some? && n.value < |xs| then xs[..n.value] else xs
  }

  // The rows of the query without its limit. `table` is in the query's order.
  function Unlimited(q: QueryState, table: seq<Row>): seq<Row> {
    var matching := Filter(table, r => Holds(q.predicates, r));
    if q.offset.None? then matching else if q.offset.value <= |matching| then matching[q.offset.value..] else []
  }

  // querySpec leaves the limit of the spec at zero when none is set: zero is none.
  function SpecLimit(limit: Option<nat>): Option<nat> {
    if limit == Some(0) then None else limit
  }

  function Returned(q: QueryState, table: seq<Row>): seq<Row> {
    Take(Unlimited(q, table), SpecLimit(q.limit))
  }

  // sqlQuery, which IDs goes through, takes a limit of zero at its word, and an
  // offset without a limit sets the largest one.
  function SelectLimit(q: QueryState): Option<nat> {
    if q.limit.None? && q.offset.Some? then Some(0x7FFF_FFFF) else q.limit
  }

  function Selected(q: QueryState, table: seq<Row>): seq<Row> {
    Take(Unlimited(q, table), SelectLimit(q))
  }

  // prepareQuery: the first requested column that the entity does not have.
  function BadField(e: Entity, fields: seq<Column>): Option<Column> {
    if fields == [] then None
    else if fields[0] !in e.Columns() then Some(fields[0]) else BadField(e, fields[1..])
  }

  function Read(e: Entity, q: QueryState, rows: seq<Row>): seq<Node> {
    seq(|rows|, i requires 0 <= i < |rows| => ReadRow(e, QueryColumns(e, q.fields, None), rows[i]))
  }

  function AllOf(e: Entity, q: QueryState, table: seq<Row>): Result<seq<Node>, Error> {
    var bad := BadField(e, q.fields);
    if bad.Some? then Failure(UnknownField(bad.value)) else Success(Read(e, q, Returned(q, table)))
  }

  function RowIds(rows: seq<Row>): seq<UUID> {
    seq(|rows|, i requires 0 <= i < |rows| => rows[i].id)
  }

  /** Select(id).Scan: the ID column is added to the projection, and all its columns
      are selected. Scanning them into a list of IDs takes a single one. */
  function IDsOf(e: Entity, q: QueryState, table: seq<Row>): Result<seq<UUID>, Error> {
    var columns := q.fields + [IdCol];
    var bad := BadField(e, columns);
    if bad.Some? then Failure(UnknownField(bad.value))
    else if |columns| != 1 then Failure(TooManyColumns)
    else Success(RowIds(Selected(q, table)))
  }

  // pos are the positions of the rows that meet all these predicates, in the order of the table.
  ghost predicate Picks(pos: seq<nat>, table: seq<Row>, predicates: seq<Row -> bool>) {
    && (forall j, k :: 0 <= j < k < |pos| ==> pos[j] < pos[k])
    && (forall i: nat :: i in pos <==> i < |table| && forall k :: 0 <= k < |predicates| ==> predicates[k](table[i]))
  }

  // Row j is the one at position offset + j among those that meet the predicates, and
  // there are as many as are left from there on, or as the limit allows.
  ghost predicate IsPage(rows: seq<Row>, q: QueryState, limit: Option<nat>, table: seq<Row>) {
    exists pos :: Picks(pos, table, q.predicates) && IsSlice(rows, pos, q.offset, limit, table)
  }

  ghost predicate IsSlice(rows: seq<Row>, pos: seq<nat>, offset: Option<nat>, limit: Option<nat>, table: seq<Row>) {
    var from := if offset.Some? then offset.value else 0;
    var left := if from <= |pos| then |pos| - from else 0;
    && |rows| == (if limit.Some? && limit.value < left then limit.value else left)
    && forall j :: 0 <= j < |rows| ==> pos[from + j] < |table| && rows[j] == table[pos[from + j]]
  }

  // The nodes are the rows of the page, read through the projection; a limit of zero is none.
  ghost predicate ReadsPage(nodes: seq<Node>, e: Entity, q: QueryState, table: seq<Row>) {
    exists rows: seq<Row> ::
      && IsPage(rows, q, if q.limit == Some(0) then None else q.limit, table)
      && |nodes| == |rows|
      && forall j :: 0 <= j < |rows| ==> nodes[j] == ReadRow(e, QueryColumns(e, q.fields, None), rows[j])
  }

  // The IDs of the rows of the page; here zero is a limit, and an offset brings one with it.
  ghost predicate IdsPage(ids: seq<UUID>, q: QueryState, table: seq<Row>) {
    exists rows: seq<Row> ::
      && IsPage(rows, q, if q.limit.None? && q.offset.Some? then Some(0x7FFF_FFFF) else q.limit, table)
      && |ids| == |rows|
      && forall j :: 0 <= j < |rows| ==> ids[j] == rows[j].id
  }

  // The error names the first requested column that the entity does not have.
  ghost predicate NamesFirstUnknown(err: Error, e: Entity, fields: seq<Column>) {
    exists k :: 0 <= k < |fields| && fields[k] !in e.Columns() && err == UnknownField(fields[k])
             && forall j :: 0 <= j < k ==> fields[j] in e.Columns()
  }

  lemma {:induction false} FilterSplits(rows: seq<Row>, last: Row, p: Row -> bool)
    ensures Filter(rows + [last], p) == Filter(rows, p) + (if p(last) then [last] else [])
  {
    if rows == [] {
      assert [last][1..] == [];
    } else {
      assert (rows + [last])[1..] == rows[1..] + [last] && (rows + [last])[0] == rows[0];
      FilterSplits(rows[1..], last, p);
    }
  }

  lemma PicksOneMore(pos: seq<nat>, table: seq<Row>, last: Row, predicates: seq<Row -> bool>)
    requires Picks(pos, table, predicates)
    ensures Picks(if Holds(predicates, last) then pos + [|table|] else pos, table + [last], predicates)
  {
    var more := table + [last];
    assert forall i :: 0 <= i < |table| ==> more[i] == table[i];
    forall j | 0 <= j < |pos| ensures pos[j] < |table| {
      assert pos[j] in pos;
    }
  }

  ghost predicate Places(kept: seq<Row>, pos: seq<nat>, table: seq<Row>) {
    |kept| == |pos| && forall j :: 0 <= j < |pos| ==> pos[j] < |table| && kept[j] == table[pos[j]]
  }

  lemma PlacesOneMore(kept: seq<Row>, pos: seq<nat>, table: seq<Row>, last: Row)
    requires Places(kept, pos, table)
    ensures Places(kept + [last], pos + [|table|], table + [last]) && Places(kept, pos, table + [last])
  {
  }

  // Filter keeps the rows that meet the predicates, and no others, in the table's order.
  lemma {:induction false} FilterPicks(table: seq<Row>, predicates: seq<Row -> bool>, p: Row -> bool)
    returns (pos: seq<nat>)
    requires forall r :: p(r) <==> Holds(predicates, r)
    ensures Picks(pos, table, predicates) && Places(Filter(table, p), pos, table)
    decreases |table|
  {
    hide Places, Holds;
    if table == [] {
      pos := [];
      NothingPlaced();
    } else {
      hide Filter, Picks;
      var init, last := table[..|table| - 1], table[|table| - 1];
      assert table == init + [last];
      pos := FilterPicks(init, predicates, p);
      FilterSplits(init, last, p);
      PicksOneMore(pos, init, last, predicates);
      PlacesOneMore(Filter(init, p), pos, init, last);
      assert Filter(init, p) + [] == Filter(init, p);
      pos := if p(last) then pos + [|init|] else pos;
    }
  }

  lemma NothingPlaced()
    ensures Places([], [], [])
  {
  }

  // The rows after the offset and up to the limit are the page.
  lemma PageOf(q: QueryState, limit: Option<nat>, table: seq<Row>)
    ensures IsPage(Take(Unlimited(q, table), limit), q, limit, table)
  {
    hide Filter, Holds, Picks;
    var pos := FilterPicks(table, q.predicates, r => Holds(q.predicates, r));
    assert IsSlice(Take(Unlimited(q, table), limit), pos, q.offset, limit, table);
  }

  lemma {:induction false} BadFieldIsFirst(e: Entity, fields: seq<Column>)
    requires BadField(e, fields).Some?
    ensures NamesFirstUnknown(UnknownField(BadField(e, fields).value), e, fields)
  {
    hide Entity.Columns;
    if fields[0] in e.Columns() {
      BadFieldIsFirst(e, fields[1..]);
      var k :| 0 <= k < |fields[1..]| && fields[1..][k] !in e.Columns() && BadField(e, fields) == Some(fields[1..][k])
               && forall j :: 0 <= j < k ==> fields[1..][j] in e.Columns();
      assert fields[k + 1] == fields[1..][k];
      assert forall j :: 1 <= j < k + 1 ==> fields[j] == fields[1..][j - 1];
    } else {
      assert fields[0] !in e.Columns();
    }
  }

  /** What All answers, from the table: the rows that meet the predicates, from the
      offset on and up to the limit, read through the projection; or the first unknown column. */
  lemma AllIsThePage(e: Entity, q: QueryState, table: seq<Row>)
    ensures AllOf(e, q, table).Success? <==> forall c :: c in q.fields ==> c in e.Columns()
    ensures AllOf(e, q, table).Success? ==> ReadsPage(AllOf(e, q, table).value, e, q, table)
    ensures AllOf(e, q, table).Failure? ==> NamesFirstUnknown(AllOf(e, q, table).error, e, q.fields)
  {
    hide Entity.Columns, ReadRow, QueryColumns, Unlimited, IsPage, NamesFirstUnknown;
    NoBadField(e, q.fields);
    if BadField(e, q.fields).Some? {
      BadFieldIsFirst(e, q.fields);
    } else {
      hide BadField;
      PageOf(q, SpecLimit(q.limit), table);
    }
  }

  // IDs answers for builders without a projection, and then with the IDs of the page.
  lemma IDsAreThePage(e: Entity, q: QueryState, table: seq<Row>)
    requires q.fields == []
    ensures IDsOf(e, q, table).Success? && IdsPage(IDsOf(e, q, table).value, q, table)
  {
    hide Entity.Columns, Unlimited, BadField, IsPage, Entity.Field;
    SwitchesAgree(e, IdCol);
    NoBadField(e, [IdCol]);
    assert q.fields + [IdCol] == [IdCol];
    PageOf(q, SelectLimit(q), table);
  }

  // The pages of one size, one after another, from this offset to the end.
  function Pages(q: QueryState, table: seq<Row>, size: nat, from: nat): seq<Row>
    requires size > 0
    decreases |table| - from
  {
    if from >= |table| then []
    else Returned(q.(limit := Some(size), offset := Some(from)), table) + Pages(q, table, size, from + size)
  }

  lemma {:induction false} PagesConcatenate(q: QueryState, table: seq<Row>, size: nat, from: nat)
    requires size > 0
    ensures Pages(q, table, size, from) == Unlimited(q.(offset := Some(from)), table)
    decreases |table| - from
  {
    hide Filter, Holds;
    FilterIsShorter(table, r => Holds(q.predicates, r));
    if from < |table| {
      PagesConcatenate(q, table, size, from + size);
    }
  }

  /** Paging through a query, as the list endpoints do, gives every matching row from
      the first page on, once and in order: the pages are the query without a limit. */
  lemma PagesAreTheQuery(q: QueryState, table: seq<Row>, size: nat, from: nat)
    requires size > 0
    ensures IsPage(Pages(q, table, size, from), q.(offset := Some(from)), None, table)
  {
    hide Pages, Unlimited, IsPage;
    PagesConcatenate(q, table, size, from);
    PageOf(q.(offset := Some(from)), None, table);
  }

  lemma {:induction false} FilterIsShorter(rows: seq<Row>, p: Row -> bool)
    ensures |Filter(rows, p)| <= |rows|
  {
    if rows != [] {
      FilterIsShorter(rows[1..], p);
    }
  }

  class QueryBuilder {
    var predicates: seq<Row -> bool>
    var limit: Option<nat>
    var offset: Option<nat>
    var fields: seq<Column>

    ghost function State(): QueryState
      reads this
    {
      QueryState(predicates, limit, offset, fields)
    }

    constructor (q: QueryState)
      ensures State() == q
    {
      predicates, limit, offset, fields := q.predicates, q.limit, q.offset, q.fields;
    }

    method Where(p: Row -> bool)
      modifies this
      ensures State() == old(State()).(predicates := old(predicates) + [p])
    {
      predicates := predicates + [p];
    }

    method Limit(n: nat)
      modifies this
      ensures State() == old(State()).(limit := Some(n))
    {
      limit := Some(n);
    }

    method Offset(n: nat)
      modifies this
      ensures State() == old(State()).(offset := Some(n))
    {
      offset := Some(n);
    }

    method Clone() returns (copy: QueryBuilder)
      ensures fresh(copy) && copy.State() == State()
    {
      copy := new QueryBuilder(QueryState(predicates, limit, offset, fields));
    }

    // prepareQuery: an unknown requested column is an error, the first one.
    method PrepareQuery(e: Entity) returns (err: Option<Error>)
      ensures err == match BadField(e, fields) case None => None case Some(c) => Some(UnknownField(c))
    {
      hide Entity.Columns;
      for i := 0 to |fields|
        invariant BadField(e, fields) == BadField(e, fields[i..])
      {
        assert fields[i..][1..] == fields[i + 1..];
        if fields[i] !in e.Columns() {
          return Some(UnknownField(fields[i]));
        }
      }
      return None;
    }

    method All(e: Entity, table: seq<Row>) returns (res: Result<seq<Node>, Error>)
      ensures res == AllOf(e, State(), table)
      ensures res.Success? <==> forall c :: c in fields ==> c in e.Columns()
      ensures res.Success? ==> ReadsPage(res.value, e, State(), table)
      ensures res.Failure? ==> NamesFirstUnknown(res.error, e, fields)
    {
      hide Entity.Columns, ReadsPage, NamesFirstUnknown;
      AllIsThePage(e, State(), table);
      var err := PrepareQuery(e);
      if err.Some? {
        return Failure(err.value);
      }
      var q := QueryState(predicates, limit, offset, fields);
      return Success(Read(e, q, Returned(q, table)));
    }

    /** IDs. It leaves the ID column on the builder. */
    method IDs(e: Entity, table: seq<Row>) returns (res: Result<seq<UUID>, Error>)
      modifies this
      ensures State() == old(State()).(fields := old(fields) + [IdCol])
      ensures res == IDsOf(e, old(State()), table)
      ensures old(fields) == [] ==> res.Success? && IdsPage(res.value, old(State()), table)
      ensures old(fields) != [] ==> res.Failure? && res.error != NotFound
    {
      hide BadField, Filter, Holds, IdsPage;
      if fields == [] {
        IDsAreThePage(e, State(), table);
      } else {
        ProjectionBreaksIDs(e, State(), table);
      }
      fields := fields + [IdCol];
      var err := PrepareQuery(e);
      if err.Some? {
        return Failure(err.value);
      }
      if |fields| != 1 {
        return Failure(TooManyColumns);
      }
      return Success(RowIds(Selected(QueryState(predicates, limit, offset, fields), table)));
    }

    /** Only. It leaves its limit of two on the builder. */
    method Only(e: Entity, table: seq<Row>) returns (res: Result<Node, Error>)
      modifies this
      ensures State() == old(State()).(limit := Some(2))
      ensures res == OnlyOf(e, old(State()), table)
    {
      Limit(2);
      var nodes := All(e, table);
      match nodes {
        case Failure(err) => return Failure(err);
        case Success(ns) =>
          if |ns| == 1 {
            return Success(ns[0]);
          } else if |ns| == 0 {
            return Failure(NotFound);
          }
          return Failure(NotSingular);
      }
    }

    /** First. It leaves its limit of one on the builder. */
    method First(e: Entity, table: seq<Row>) returns (res: Result<Node, Error>)
      modifies this
      ensures State() == old(State()).(limit := Some(1))
      ensures res == FirstOf(e, old(State()), table)
    {
      Limit(1);
      var nodes := All(e, table);
      match nodes {
        case Failure(err) => return Failure(err);
        case Success(ns) =>
          return if |ns| == 0 then Failure(NotFound) else Success(ns[0]);
      }
    }

    // FirstID. It leaves its limit of one and the ID column on the builder.
    method FirstID(e: Entity, table: seq<Row>) returns (res: Result<UUID, Error>)
      modifies this
      ensures State() == AfterExist(old(State()))
      ensures res == FirstIDOf(e, old(State()), table)
    {
      Limit(1);
      var ids := IDs(e, table);
      match ids {
        case Failure(err) => return Failure(err);
        case Success(us) =>
          return if |us| == 0 then Failure(NotFound) else Success(us[0]);
      }
    }

    method Exist(e: Entity, table: seq<Row>) returns (res: Result<bool, Error>)
      modifies this
      ensures State() == AfterExist(old(State()))
      ensures res == ExistOf(e, old(State()), table)
    {
      var id := FirstID(e, table);
      match id {
        case Success(_) => return Success(true);
        case Failure(err) => return if err == NotFound then Success(false) else Failure(err);
      }
    }
  }

  function OnlyOf(e: Entity, q: QueryState, table: seq<Row>): Result<Node, Error> {
    match AllOf(e, q.(limit := Some(2)), table)
    case Failure(err) => Failure(err)
    case Success(ns) => if |ns| == 1 then Success(ns[0]) else Failure(if |ns| == 0 then NotFound else NotSingular)
  }

  function FirstOf(e: Entity, q: QueryState, table: seq<Row>): Result<Node, Error> {
    match AllOf(e, q.(limit := Some(1)), table)
    case Failure(err) => Failure(err)
    case Success(ns) => if |ns| == 0 then Failure(NotFound) else Success(ns[0])
  }

  function AfterExist(q: QueryState): QueryState {
    q.(limit := Some(1), fields := q.fields + [IdCol])
  }

  function FirstIDOf(e: Entity, q: QueryState, table: seq<Row>): Result<UUID, Error> {
    match IDsOf(e, q.(limit := Some(1)), table)
    case Failure(err) => Failure(err)
    case Success(us) => if |us| == 0 then Failure(NotFound) else Success(us[0])
  }

  function ExistOf(e: Entity, q: QueryState, table: seq<Row>): Result<bool, Error> {
    match FirstIDOf(e, q, table)
    case Success(_) => Success(true)
    case Failure(err) => if err == NotFound then Success(false) else Failure(err)
  }

  // All the requested columns exist.
  ghost predicate ValidFields(e: Entity, q: QueryState) {
    forall c :: c in q.fields ==> c in e.Columns()
  }

  lemma {:induction false} NoBadField(e: Entity, fields: seq<Column>)
    ensures BadField(e, fields).None? <==> forall c :: c in fields ==> c in e.Columns()
  {
    hide Entity.Columns;
    if fields != [] {
      NoBadField(e, fields[1..]);
      assert fields == [fields[0]] + fields[1..];
    }
  }

  /** Two rows are enough: whatever limit the builder had, Only decides by the
      number of rows the unlimited query has. */
  lemma OnlyDecidesByTheFullCount(e: Entity, q: QueryState, table: seq<Row>)
    requires ValidFields(e, q)
    ensures var all := Unlimited(q, table);
            OnlyOf(e, q, table) ==
            if |all| == 0 then Failure(NotFound)
            else if |all| == 1 then Success(ReadRow(e, QueryColumns(e, q.fields, None), all[0]))
            else Failure(NotSingular)
  {
    hide ReadRow, QueryColumns, Filter;
    NoBadField(e, q.fields);
    assert Unlimited(q.(limit := Some(2)), table) == Unlimited(q, table);
  }

  // First gives the first row of the query without its limit.
  lemma FirstIsTheFirst(e: Entity, q: QueryState, table: seq<Row>)
    requires ValidFields(e, q)
    ensures var all := Unlimited(q, table);
            FirstOf(e, q, table) ==
            if |all| == 0 then Failure(NotFound) else Success(ReadRow(e, QueryColumns(e, q.fields, None), all[0]))
  {
    hide ReadRow, QueryColumns, Filter;
    NoBadField(e, q.fields);
    assert Unlimited(q.(limit := Some(1)), table) == Unlimited(q, table);
  }

  lemma FirstIDIsTheFirst(e: Entity, q: QueryState, table: seq<Row>)
    requires q.fields == []
    ensures var all := Unlimited(q, table);
            FirstIDOf(e, q, table) == if |all| == 0 then Failure(NotFound) else Success(all[0].id)
  {
    hide Filter, BadField, Entity.Columns, Entity.Field, Holds;
    SwitchesAgree(e, IdCol);
    NoBadField(e, [IdCol]);
    assert q.fields + [IdCol] == [IdCol];
    assert Unlimited(q.(limit := Some(1)), table) == Unlimited(q, table);
  }

  // With a projection IDs fails: on an unknown column, or on the columns selected
  // beside the ID.
  lemma ProjectionBreaksIDs(e: Entity, q: QueryState, table: seq<Row>)
    requires q.fields != []
    ensures IDsOf(e, q, table).Failure? && IDsOf(e, q, table).error != NotFound
    ensures ValidFields(e, q) ==> IDsOf(e, q, table) == Failure(TooManyColumns)
  {
    hide Entity.Columns, Filter, Unlimited;
    SwitchesAgree(e, IdCol);
    NoBadField(e, q.fields + [IdCol]);
  }

  /** Exist answers exactly for builders without a projection, and then it is true
      iff the query has a row. With a projection it fails, whatever the table holds. */
  lemma ExistIffSomeRow(e: Entity, q: QueryState, table: seq<Row>)
    ensures ExistOf(e, q, table).Success? <==> q.fields == []
    ensures q.fields == [] ==> ExistOf(e, q, table) == Success(Unlimited(q, table) != [])
    ensures q.fields != [] && ValidFields(e, q) ==> ExistOf(e, q, table) == Failure(TooManyColumns)
  {
    hide Unlimited, IDsOf;
    if q.fields == [] {
      FirstIDIsTheFirst(e, q, table);
    } else {
      ProjectionBreaksIDs(e, q.(limit := Some(1)), table);
    }
  }

  /** So a builder can be asked once: Exist leaves its own column on it. */
  lemma SecondExistFails(e: Entity, q: QueryState, table: seq<Row>)
    ensures ExistOf(e, AfterExist(q), table).Failure?
  {
    hide ExistOf;
    ExistIffSomeRow(e, AfterExist(q), table);
  }

  lemma {:induction false} FilterKeeps(rows: seq<Row>, p: Row -> bool)
    ensures forall r :: r in Filter(rows, p) <==> r in rows && p(r)
  {
    if rows != [] {
      FilterKeeps(rows[1..], p);
      assert rows == [rows[0]] + rows[1..];
    }
  }

  // Get asks for a primary key, and a table holds at most one row with it.
  lemma GetIsNeverNotSingular(e: Entity, table: seq<Row>, id: UUID)
    requires forall i, j :: 0 <= i < j < |table| ==> table[i].id != table[j].id
    ensures var q := QueryState([(r: Row) => r.id == id], None, None, []);
            && OnlyOf(e, q, table) != Failure(NotSingular)
            && (OnlyOf(e, q, table).Success? <==> exists i :: 0 <= i < |table| && table[i].id == id)
  {
    hide ReadRow, QueryColumns;
    var q := QueryState([(r: Row) => r.id == id], None, None, []);
    OnlyDecidesByTheFullCount(e, q, table);
    var p := (r: Row) => Holds(q.predicates, r);
    assert forall r :: p(r) ==> q.predicates[0](r);
    AtMostOne(table, p, id);
    FilterKeeps(table, p);
    var all := Filter(table, p);
    if i :| 0 <= i < |table| && table[i].id == id {
      assert table[i] in table;
      assert p(table[i]);
      assert table[i] in all;
    }
    if all != [] {
      assert all[0] in all;
    }
  }

  lemma {:induction false} AtMostOne(table: seq<Row>, p: Row -> bool, id: UUID)
    requires forall i, j :: 0 <= i < j < |table| ==> table[i].id != table[j].id
    requires forall r :: p(r) ==> r.id == id
    ensures |Filter(table, p)| <= 1
  {
    if table != [] {
      AtMostOne(table[1..], p, id);
      if p(table[0]) {
        forall r | r in table[1..] ensures !p(r) {
          var j :| 0 <= j < |table[1..]| && table[1..][j] == r;
          assert table[0].id != table[j + 1].id;
        }
        NothingFiltered(table[1..], p);
      }
    }
  }

  lemma {:induction false} NothingFiltered(rows: seq<Row>, p: Row -> bool)
    requires forall r :: r in rows ==> !p(r)
    ensures Filter(rows, p) == []
  {
    if rows != [] {
      NothingFiltered(rows[1..], p);
    }
  }

  /** Lookups write to the builder they are called on: after Exist the builder
      returns at most one row. Its other rows are reached through a clone only. */
  lemma ExistNarrowsTheBuilder(e: Entity, q: QueryState, table: seq<Row>)
    ensures Returned(AfterExist(q), table) == Take(Unlimited(q, table), Some(1))
    ensures Returned(AfterExist(q), table) == Unlimited(q, table) <==> |Unlimited(q, table)| <= 1
  {
    hide Filter;
    assert Unlimited(AfterExist(q), table) == Unlimited(q, table);
  }
}
