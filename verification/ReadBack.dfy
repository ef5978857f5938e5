/** Reading a row into a struct: scanValues makes one holder per selected
    column, database/sql fills the holders, assignValues moves them into the
    fields of the struct. */
module ReadBack {

  import opened Wrappers
  import opened Schema

  /** A struct on the heap, with its Edges. `loaded` is loadedTypes[0] of a
      struct with one edge kind in play: the edge was requested. */
  class NodeObject {
    var node: Node
    var loaded: bool
    var shipment: Option<Node>
    var children: seq<Node>

    constructor (e: Entity, loaded: bool)
      ensures node == ZeroNode(e) && this.loaded == loaded && shipment == None && children == []
    {
      node := ZeroNode(e);
      this.loaded := loaded;
      shipment := None;
      children := [];
    }

    method AssignValues(e: Entity, columns: seq<Column>, values: seq<Holder>) returns (err: Option<Error>)
      modifies this`node
      ensures |values| < |columns| ==> err == Some(LengthMismatch) && node == old(node)
      ensures |columns| <= |values| ==> (node, err) == AssignUpTo(e, old(node), columns, values, |columns|)
      ensures |columns| <= |values| ==>
                (err == None <==> forall i :: 0 <= i < |columns| ==> Suits(e, columns[i], values[i]))
    {
      hide Suits, Entity.Field, StopsAt;
      if |columns| <= |values| {
        AssignStopsAtWrongHolder(e, node, columns, values, |columns|);
      }
      if |values| < |columns| {
        return Some(LengthMismatch);
      }
      for i := 0 to |columns|
        invariant (node, None) == AssignUpTo(e, old(node), columns, values, i)
      {
        var (n, bad) := AssignOne(e, node, columns[i], values[i]);
        node := n;
        if bad.Some? {
          StuckAt(e, old(node), columns, values, i + 1);
          return bad;
        }
      }
      return None;
    }
  }

  method ScanValues(e: Entity, columns: seq<Column>) returns (values: array<HolderKind>)
    ensures fresh(values)
    ensures values[..] == seq(|columns|, i requires 0 <= i < |columns| => e.Scan(columns[i]))
  {
    values := new HolderKind[|columns|];
    for i := 0 to |columns|
      invariant forall k :: 0 <= k < i ==> values[k] == e.Scan(columns[k])
    {
      values[i] := e.Scan(columns[i]);
    }
  }

  // What scanning leaves in a holder: a uuid.UUID reads NULL as the zero UUID,
  // every other holder remembers that it saw NULL.
  function Fill(k: HolderKind, cell: Value): Holder {
    Holder(k, if k == UuidHolder && !cell.UuidV? then UuidV(ZERO_UUID) else cell)
  }

  function Cell(r: Row, c: Column): Value {
    if c == IdCol then UuidV(r.id) else if c in r.cells then r.cells[c] else Nil
  }

  function Filled(e: Entity, columns: seq<Column>, r: Row): (values: seq<Holder>)
  {
    seq(|columns|, i requires 0 <= i < |columns| => Fill(e.Scan(columns[i]), Cell(r, columns[i])))
  }

  // One round of the switch in assignValues.
  function AssignOne(e: Entity, n: Node, c: Column, h: Holder): (Node, Option<Error>) {
    match e.Field(c)
    case None => (n.(selected := n.selected[c := h]), None)
    case Some(kind) =>
      if h.kind != Expected(kind) then (n, Some(UnexpectedType(c)))
      else if h.content == Nil then (n, None)
      else if c != IdCol then (n.(fields := n.fields[c := h.content]), None)
      else (if h.content.UuidV? then n.(id := h.content.u) else n, None)
  }

  // The first k rounds of the loop in assignValues, which stops at an error.
  function AssignUpTo(e: Entity, n: Node, columns: seq<Column>, values: seq<Holder>, k: nat): (Node, Option<Error>)
    requires k <= |columns| <= |values|
  {
    if k == 0 then (n, None)
    else
      var (before, err) := AssignUpTo(e, n, columns, values, k - 1);
      if err.Some? then (before, err) else AssignOne(e, before, columns[k - 1], values[k - 1])
  }

  lemma {:induction false} StuckAt(e: Entity, n: Node, columns: seq<Column>, values: seq<Holder>, k: nat)
    requires k <= |columns| <= |values|
    requires AssignUpTo(e, n, columns, values, k).1.Some?
    ensures AssignUpTo(e, n, columns, values, |columns|) == AssignUpTo(e, n, columns, values, k)
    decreases |columns| - k
  {
    if k < |columns| {
      StuckAt(e, n, columns, values, k + 1);
    }
  }

  // The holder has the type that the column's field is read from; an unknown column
  // takes any.
  ghost predicate Suits(e: Entity, c: Column, h: Holder) {
    e.Field(c).Some? ==> h.kind == Expected(e.Field(c).value)
  }

  /** Assigning fails iff a holder does not suit its column: the first such column is
      reported, and the columns in front of it have been assigned. */
  lemma {:induction false} AssignStopsAtWrongHolder(e: Entity, n: Node, columns: seq<Column>, values: seq<Holder>,
                                                    k: nat)
    requires k <= |columns| <= |values|
    ensures var (n1, err) := AssignUpTo(e, n, columns, values, k);
            && (err.None? <==> forall i :: 0 <= i < k ==> Suits(e, columns[i], values[i]))
            && (err.Some? ==> exists i :: 0 <= i < k && StopsAt(e, n, columns, values, i, n1, err.value))
  {
    hide Entity.Field, Expected;
    if k > 0 {
      AssignStopsAtWrongHolder(e, n, columns, values, k - 1);
      var (before, err) := AssignUpTo(e, n, columns, values, k - 1);
      if err.None? && !Suits(e, columns[k - 1], values[k - 1]) {
        assert StopsAt(e, n, columns, values, k - 1, before, UnexpectedType(columns[k - 1]));
      }
    }
  }

  ghost predicate StopsAt(e: Entity, n: Node, columns: seq<Column>, values: seq<Holder>, i: nat, n1: Node, err: Error)
    requires i < |columns| <= |values|
  {
    && !Suits(e, columns[i], values[i]) && err == UnexpectedType(columns[i])
    && (forall j :: 0 <= j < i ==> Suits(e, columns[j], values[j]))
    && n1 == AssignUpTo(e, n, columns, values, i).0
  }

  function Get(n: Node, c: Column): Value {
    if c == IdCol then UuidV(n.id) else if c in n.fields then n.fields[c] else Nil
  }

  // The content of the last holder for column c that is not NULL.
  function LastNotNull(columns: seq<Column>, values: seq<Holder>, c: Column, k: nat, none: Value): Value
    requires k <= |columns| <= |values|
  {
    if k == 0 then none
    else if columns[k - 1] == c && values[k - 1].content != Nil then values[k - 1].content
    else LastNotNull(columns, values, c, k - 1, none)
  }

  // Holders as scanValues makes them, with anything a database may put in them.
  ghost predicate Scanned(e: Entity, columns: seq<Column>, values: seq<Holder>) {
    && |columns| <= |values|
    && forall i :: 0 <= i < |columns| ==>
         values[i].kind == e.Scan(columns[i]) && (values[i].kind == UuidHolder ==> values[i].content.UuidV?)
  }

  /** With scanValues' holders assignValues never fails, and every known field
      takes the last value that is not NULL, over any column list: repeats,
      unknown names and all. A later NULL does not erase an earlier value. Stored
      documents are taken to be well formed, so that reading one cannot fail, and to
      replace the field: json.Unmarshal would merge two different documents of one
      repeated column, which one row cannot have. */
  lemma {:induction false} AssignTakesLastNotNull(e: Entity, n: Node, columns: seq<Column>, values: seq<Holder>, k: nat,
                                                  c: Column)
    requires Scanned(e, columns, values) && k <= |columns|
    requires e.Field(c).Some?
    ensures AssignUpTo(e, n, columns, values, k).1 == None
    ensures Get(AssignUpTo(e, n, columns, values, k).0, c) == LastNotNull(columns, values, c, k, Get(n, c))
  {
    hide Entity.Field, Entity.Scan, Entity.Columns, AssignOne;
    if k > 0 {
      AssignTakesLastNotNull(e, n, columns, values, k - 1, c);
      AssignOneIs(e, AssignUpTo(e, n, columns, values, k - 1).0, columns[k - 1], values[k - 1]);
      AssignOneTakes(e, AssignUpTo(e, n, columns, values, k - 1).0, columns[k - 1], values[k - 1], c);
    }
  }

  // One round with a holder that scanValues made cannot fail, and writes at most the
  // one field.
  lemma AssignOneIs(e: Entity, n: Node, column: Column, h: Holder)
    requires h.kind == e.Scan(column) && (h.kind == UuidHolder ==> h.content.UuidV?)
    ensures AssignOne(e, n, column, h) ==
            (if e.Field(column).None? then n.(selected := n.selected[column := h])
             else if h.content == Nil then n
             else if column == IdCol then n.(id := h.content.u)
             else n.(fields := n.fields[column := h.content]), None)
    ensures column == IdCol ==> h.content.UuidV?
  {
    hide Entity.Field, Entity.Scan, Entity.Columns;
    SwitchesAgree(e, column);
    SwitchesAgree(e, IdCol);
  }

  lemma AssignOneTakes(e: Entity, n: Node, column: Column, h: Holder, c: Column)
    requires h.kind == e.Scan(column) && (h.kind == UuidHolder ==> h.content.UuidV?)
    requires e.Field(c).Some?
    ensures Get(AssignOne(e, n, column, h).0, c) == if column == c && h.content != Nil then h.content else Get(n, c)
  {
    hide Entity.Field, Entity.Scan, Entity.Columns, AssignOne;
    AssignOneIs(e, n, column, h);
    if column != c {
      GetElsewhere(n, column, h, c);
    }
  }

  lemma GetElsewhere(n: Node, column: Column, h: Holder, c: Column)
    requires column != c
    ensures Get(n.(fields := n.fields[column := h.content]), c) == Get(n, c)
    ensures Get(n.(selected := n.selected[column := h]), c) == Get(n, c)
    ensures column == IdCol && h.content.UuidV? ==> Get(n.(id := h.content.u), c) == Get(n, c)
  {
  }

  // The columns whose fields the first k rounds write.
  ghost function Written(e: Entity, columns: seq<Column>, values: seq<Holder>, k: nat): set<Column>
    requires k <= |columns| <= |values|
  {
    set i | 0 <= i < k && columns[i] != IdCol && e.Field(columns[i]).Some? && values[i].content != Nil :: columns[i]
  }

  lemma WrittenOneMore(e: Entity, columns: seq<Column>, values: seq<Holder>, k: nat)
    requires 0 < k <= |columns| <= |values|
    ensures Written(e, columns, values, k) ==
            Written(e, columns, values, k - 1)
            + if columns[k - 1] != IdCol && e.Field(columns[k - 1]).Some? && values[k - 1].content != Nil
              then {columns[k - 1]} else {}
  {
    hide Entity.Field;
  }

  lemma AssignOneKeeps(e: Entity, n: Node, column: Column, h: Holder, c: Column)
    requires h.kind == e.Scan(column) && (h.kind == UuidHolder ==> h.content.UuidV?)
    ensures var after := AssignOne(e, n, column, h).0;
            c in after.selected <==> c in n.selected || (column == c && e.Field(c).None?)
  {
    hide Entity.Field, Entity.Scan, Entity.Columns, AssignOne;
    AssignOneIs(e, n, column, h);
  }

  lemma AssignOneWrites(e: Entity, n: Node, column: Column, h: Holder)
    requires h.kind == e.Scan(column) && (h.kind == UuidHolder ==> h.content.UuidV?)
    ensures AssignOne(e, n, column, h).0.fields.Keys ==
            n.fields.Keys + if column != IdCol && e.Field(column).Some? && h.content != Nil then {column} else {}
  {
    hide Entity.Field, Entity.Scan, Entity.Columns, AssignOne;
    AssignOneIs(e, n, column, h);
    IdIsAField(e);
  }

  lemma IdIsAField(e: Entity)
    ensures e.Field(IdCol) == Some(Uuid)
  {
    hide Entity.Field, Entity.Scan, Entity.Columns;
    SwitchesAgree(e, IdCol);
  }

  // Holders as scanValues makes them never stop the loop.
  lemma {:induction false} NeverStops(e: Entity, n: Node, columns: seq<Column>, values: seq<Holder>, k: nat)
    requires Scanned(e, columns, values) && k <= |columns|
    ensures AssignUpTo(e, n, columns, values, k).1 == None
  {
    hide Entity.Field, Entity.Scan, Entity.Columns, AssignOne;
    if k > 0 {
      NeverStops(e, n, columns, values, k - 1);
      AssignOneIs(e, AssignUpTo(e, n, columns, values, k - 1).0, columns[k - 1], values[k - 1]);
    }
  }

  // The columns assignValues does not know are kept by name, and no known
  // column is ever among them.
  lemma {:induction false} AssignKeepsUnknown(e: Entity, n: Node, columns: seq<Column>, values: seq<Holder>, k: nat,
                                              c: Column)
    requires Scanned(e, columns, values) && k <= |columns|
    ensures c in AssignUpTo(e, n, columns, values, k).0.selected <==>
            c in n.selected || (e.Field(c).None? && c in columns[..k])
  {
    hide Entity.Field, Entity.Scan, Entity.Columns, AssignOne;
    if k > 0 {
      AssignKeepsUnknown(e, n, columns, values, k - 1, c);
      NeverStops(e, n, columns, values, k - 1);
      assert columns[..k] == columns[..k - 1] + [columns[k - 1]];
      AssignOneKeeps(e, AssignUpTo(e, n, columns, values, k - 1).0, columns[k - 1], values[k - 1], c);
    }
  }

  // Only fields whose columns were selected are written, and no key is removed.
  lemma {:induction false} AssignWrites(e: Entity, n: Node, columns: seq<Column>, values: seq<Holder>, k: nat)
    requires Scanned(e, columns, values) && k <= |columns|
    ensures AssignUpTo(e, n, columns, values, k).0.fields.Keys == n.fields.Keys + Written(e, columns, values, k)
  {
    hide Entity.Field, Entity.Scan, Entity.Columns, AssignOne;
    if k > 0 {
      hide Written;
      AssignWrites(e, n, columns, values, k - 1);
      NeverStops(e, n, columns, values, k - 1);
      AssignOneWrites(e, AssignUpTo(e, n, columns, values, k - 1).0, columns[k - 1], values[k - 1]);
      WrittenOneMore(e, columns, values, k);
    }
  }

  // A row as the query with these columns hands it back.
  function ReadRow(e: Entity, columns: seq<Column>, r: Row): Node {
    AssignUpTo(e, ZeroNode(e), columns, Filled(e, columns, r), |columns|).0
  }

  // The same holder is filled for every occurrence of a column of one row.
  lemma {:induction false} LastOfFilled(e: Entity, columns: seq<Column>, r: Row, c: Column, k: nat, none: Value)
    requires k <= |columns|
    ensures LastNotNull(columns, Filled(e, columns, r), c, k, none) ==
            if c in columns[..k] && Fill(e.Scan(c), Cell(r, c)).content != Nil
            then Fill(e.Scan(c), Cell(r, c)).content else none
  {
    hide Entity.Field, Entity.Scan, Entity.Columns;
    if k > 0 {
      LastOfFilled(e, columns, r, c, k - 1, none);
      assert columns[..k] == columns[..k - 1] + [columns[k - 1]];
    }
  }

  /** Create/read agreement under any projection: reading back the row a draft
      creates gives the struct that createSpec returned, in every selected
      column, and the zero value in every other one. Unset optional fields come
      back nil or zero, as createSpec left them. */
  lemma ReadsWhatWasCreated(e: Entity, d: Draft, columns: seq<Column>, c: Column)
    requires Typed(e, d)
    requires e.Field(c).Some?
    ensures Get(ReadRow(e, columns, Stored(CreateSpec(e, d))), c) ==
            Get(if c in columns then CreateNode(e, d) else ZeroNode(e), c)
  {
    hide Entity.Field, Entity.Scan, Entity.Columns, ReadRow;
    var r := Stored(CreateSpec(e, d));
    ReadsCell(e, columns, r, c);
    hide CreateSpec, CreateNode, ZeroNode, Fill;
    CreatedCell(e, d, c);
  }

  // A field is read as its cell, or else stays zero.
  lemma ReadsCell(e: Entity, columns: seq<Column>, r: Row, c: Column)
    requires e.Field(c).Some?
    ensures var content := Fill(e.Scan(c), Cell(r, c)).content;
            Get(ReadRow(e, columns, r), c) == if c in columns && content != Nil then content else Get(ZeroNode(e), c)
  {
    hide Entity.Field, Entity.Scan, Entity.Columns, ZeroNode, Fill, Get;
    assert columns[..|columns|] == columns;
    ScannedFilled(e, columns, r);
    AssignTakesLastNotNull(e, ZeroNode(e), columns, Filled(e, columns, r), |columns|, c);
    LastOfFilled(e, columns, r, c, |columns|, Get(ZeroNode(e), c));
  }

  // The cell of a created row holds what createSpec left in the struct.
  lemma CreatedCell(e: Entity, d: Draft, c: Column)
    requires Typed(e, d) && e.Field(c).Some?
    ensures var content := Fill(e.Scan(c), Cell(Stored(CreateSpec(e, d)), c)).content;
            Get(CreateNode(e, d), c) == if content != Nil then content else Get(ZeroNode(e), c)
  {
    hide Entity.Field, Entity.Scan, Entity.Columns;
    SwitchesAgree(e, c);
  }

  lemma ScannedFilled(e: Entity, columns: seq<Column>, r: Row)
    ensures Scanned(e, columns, Filled(e, columns, r))
  {
  }

  // Reading all columns writes known fields only.
  lemma FullReadKeys(e: Entity, r: Row)
    ensures ReadRow(e, e.Columns(), r).fields.Keys == ZeroNode(e).fields.Keys
    ensures ReadRow(e, e.Columns(), r).selected == map[]
  {
    hide Entity.Field, Entity.Scan, Entity.Columns, Written, Filled;
    var columns := e.Columns();
    var values := Filled(e, columns, r);
    var n := ReadRow(e, columns, r);
    ScannedFilled(e, columns, r);
    AssignWrites(e, ZeroNode(e), columns, values, |columns|);
    WrittenAreFields(e, columns, values, |columns|);
    forall c ensures c !in n.selected {
      AssignKeepsUnknown(e, ZeroNode(e), columns, values, |columns|, c);
      SwitchesAgree(e, c);
      assert columns[..|columns|] == columns;
    }
  }

  lemma WrittenAreFields(e: Entity, columns: seq<Column>, values: seq<Holder>, k: nat)
    requires k <= |columns| <= |values|
    ensures Written(e, columns, values, k) <= ZeroNode(e).fields.Keys
  {
    hide Entity.Field, Entity.Scan, Entity.Columns;
    forall c | c in Written(e, columns, values, k) ensures c in ZeroNode(e).fields {
      SwitchesAgree(e, c);
    }
  }

  // With all columns selected the two structs are equal, field for field.
  lemma FullReadRoundTrip(e: Entity, d: Draft)
    requires Typed(e, d)
    ensures ReadRow(e, e.Columns(), Stored(CreateSpec(e, d))) == CreateNode(e, d)
  {
    hide Entity.Field, Entity.Scan, Entity.Columns, ReadRow, CreateSpec;
    var columns := e.Columns();
    var n, m := ReadRow(e, columns, Stored(CreateSpec(e, d))), CreateNode(e, d);
    FullReadKeys(e, Stored(CreateSpec(e, d)));
    assert m.fields.Keys == ZeroNode(e).fields.Keys;
    forall c | c in n.fields ensures n.fields[c] == m.fields[c] {
      ReadsWhatWasCreated(e, d, columns, c);
      assert Get(n, c) == Get(m, c);
    }
    assert n.fields == m.fields;
    SwitchesAgree(e, IdCol);
    ReadsWhatWasCreated(e, d, columns, IdCol);
  }

  // After the last occurrence of a column nothing more is found.
  lemma {:induction false} NoneAfterLast(columns: seq<Column>, values: seq<Holder>, c: Column, last: nat, k: nat,
                                         none: Value)
    requires last < k <= |columns| <= |values| && columns[last] == c
    requires forall j :: last < j < |columns| ==> columns[j] != c
    ensures LastNotNull(columns, values, c, k, none) ==
            if values[last].content != Nil then values[last].content else LastNotNull(columns, values, c, last, none)
  {
    if k > last + 1 {
      NoneAfterLast(columns, values, c, last, k - 1, none);
    }
  }

  /** The last occurrence of a column decides, as if it were the only one, exactly when
      it is not NULL or no earlier occurrence left a value of its own. */
  lemma LastOccurrenceWinsIff(e: Entity, n: Node, columns: seq<Column>, values: seq<Holder>, c: Column, last: nat)
    requires Scanned(e, columns, values) && e.Field(c).Some?
    requires last < |columns| && columns[last] == c && forall j :: last < j < |columns| ==> columns[j] != c
    ensures Get(AssignUpTo(e, n, columns, values, |columns|).0, c) ==
            (if values[last].content != Nil then values[last].content else Get(n, c))
            <==> values[last].content != Nil || LastNotNull(columns, values, c, last, Get(n, c)) == Get(n, c)
  {
    hide Entity.Field, Entity.Scan, Entity.Columns, AssignUpTo, LastNotNull;
    AssignTakesLastNotNull(e, n, columns, values, |columns|, c);
    NoneAfterLast(columns, values, c, last, |columns|, Get(n, c));
  }

  /** Repeating a column lets a NULL in the later place keep the earlier value. The
      columns of one row are equal wherever they are repeated (LastOfFilled), so this
      takes a second expression that a query modifier selects under the same name. */
  lemma LaterNullKeepsEarlierValue()
    ensures var columns := [NotesCol, NotesCol];
            var values := [Holder(StringHolder, TextV("sealed")), Holder(StringHolder, Nil)];
            Scanned(Custody, columns, values) &&
            Get(AssignUpTo(Custody, ZeroNode(Custody), columns, values, 2).0, NotesCol) == TextV("sealed")
  {
    var columns := [NotesCol, NotesCol];
    var values := [Holder(StringHolder, TextV("sealed")), Holder(StringHolder, Nil)];
    AssignTakesLastNotNull(Custody, ZeroNode(Custody), columns, values, 2, NotesCol);
    assert LastNotNull(columns, values, NotesCol, 1, TextV("")) == TextV("sealed");
  }
}
