/**
 Restoring a workbook archive into another database: every archived row reference goes
 from its archived id to a semantic key and from there to the id of the target database.
 */
module WorkbookRemap {
  import opened Prelude

  datatype Kind = Item | Port | Face | Slot

  /** One identity row: a canonical id and the semantic key it stands for. */
  datatype Identity = Identity(id: nat, key: string)

  datatype Table =
    | Projects | Workspaces | CanvasWorkspaces | Preferences | Policies
    | Memberships | Overrides | Placements | Assignments | AssignmentSlots
    | Connections | Endpoints | Visibility | BendPoints | Audits | Findings | Ignores

  /** How a column that holds an id is carried over. */
  datatype Column = Required(kind: Kind) | Nullable(kind: Kind) | User

  function Columns(table: Table): seq<Column> {
    match table
    case Memberships => [Required(Item)]
    case Overrides => [Required(Item)]
    case Placements => [Required(Item)]
    case Assignments => [Required(Item), Required(Item), Nullable(Slot)]
    case AssignmentSlots => [Required(Item), Required(Slot)]
    case Endpoints => [Required(Port), Nullable(Face)]
    case Findings => [Required(Item), Nullable(Item), Nullable(Slot)]
    case Ignores => [User]
    case _ => []
  }

  /** A row with the columns that hold ids of other domains; everything else is in `rest`. */
  datatype Row = Row(table: Table, refs: seq<Option<nat>>, rest: string)

  /** What an export keeps of a database: its identity tables, its users and its workbook rows. */
  datatype Database = Database(
    items: seq<Identity>,
    ports: seq<Identity>,
    faces: seq<Identity>,
    slots: seq<Identity>,
    users: set<nat>,
    workbook: seq<Row>) {

    function Identities(kind: Kind): seq<Identity> {
      match kind
      case Item => items
      case Port => ports
      case Face => faces
      case Slot => slots
    }
  }

  // ----- One reference

  /** Archived id to semantic key; a repeated id takes its last key. */
  function KeyById(rows: seq<Identity>): map<nat, string> {
    if rows == [] then map[]
    else KeyById(rows[..|rows| - 1])[rows[|rows| - 1].id := rows[|rows| - 1].key]
  }

  /** Semantic key to current id; a repeated key takes its last id. */
  function IdByKey(rows: seq<Identity>): map<string, nat> {
    if rows == [] then map[]
    else IdByKey(rows[..|rows| - 1])[rows[|rows| - 1].key := rows[|rows| - 1].id]
  }

  /** The new id of a reference; an empty key and a zero id count as missing. */
  function MapRequired(source: seq<Identity>, target: seq<Identity>, id: nat): Result<nat> {
    var keys, ids := KeyById(source), IdByKey(target);
    if id !in keys || keys[id] == "" || keys[id] !in ids || ids[keys[id]] == 0
    then Thrown("cannot be resolved during project restore")
    else Ok(ids[keys[id]])
  }

  /** A column together with the value it holds; a missing value is null. */
  datatype Cell = Cell(column: Column, value: Option<nat>)

  function RemapCell(source: Database, target: Database, cell: Cell): Result<Option<nat>> {
    match cell.column
    case Required(kind) =>
      var id :- MapRequired(source.Identities(kind), target.Identities(kind),
                            if cell.value.None? then 0 else cell.value.value);
      Ok(Some(id))
    case Nullable(kind) =>
      if cell.value.None? then Ok(None)
      else
        var id :- MapRequired(source.Identities(kind), target.Identities(kind), cell.value.value);
        Ok(Some(id))
    case User =>
      Ok(if cell.value.Some? && cell.value.value !in target.users then None else cell.value)
  }

  // ----- Rows and whole archives

  /** Applies `f` from left to right and stops at the first error. */
  function Traverse<A, B>(s: seq<A>, f: A -> Result<B>): Result<seq<B>> {
    if s == [] then Ok([])
    else
      var front :- Traverse(s[..|s| - 1], f);
      var last :- f(s[|s| - 1]);
      Ok(front + [last])
  }

  lemma {:induction false} TraverseMeaning<A, B>(s: seq<A>, f: A -> Result<B>)
    ensures Traverse(s, f).Ok? <==> forall i :: 0 <= i < |s| ==> f(s[i]).Ok?
    ensures Traverse(s, f).Ok? ==>
      && |Traverse(s, f).value| == |s|
      && forall i :: 0 <= i < |s| ==> f(s[i]) == Ok(Traverse(s, f).value[i])
  {
    if s != [] {
      TraverseMeaning(s[..|s| - 1], f);
    }
  }

  function Cells(row: Row): seq<Cell> {
    var columns := Columns(row.table);
    seq(|columns|, i requires 0 <= i < |columns| => Cell(columns[i], if i < |row.refs| then row.refs[i] else None))
  }

  function RemapRow(source: Database, target: Database, row: Row): Result<Row> {
    var refs :- Traverse(Cells(row), c => RemapCell(source, target, c));
    Ok(row.(refs := refs))
  }

  function RemapRows(source: Database, target: Database, rows: seq<Row>): Result<seq<Row>> {
    Traverse(rows, row => RemapRow(source, target, row))
  }

  // ----- What a remap means

  /** The identities are real: positive ids, nonempty keys, and neither repeated. */
  ghost predicate Unique(rows: seq<Identity>) {
    && (forall i :: 0 <= i < |rows| ==> rows[i].id > 0 && rows[i].key != "")
    && (forall i, j :: 0 <= i < j < |rows| ==> rows[i].id != rows[j].id && rows[i].key != rows[j].key)
  }

  ghost predicate UniqueIdentities(d: Database) {
    forall kind: Kind :: Unique(d.Identities(kind))
  }

  lemma {:induction false} KeyByIdAt(rows: seq<Identity>, i: nat)
    requires Unique(rows) && i < |rows|
    ensures rows[i].id in KeyById(rows) && KeyById(rows)[rows[i].id] == rows[i].key
  {
    var n := |rows| - 1;
    if i < n {
      assert rows[..n][i] == rows[i];
      KeyByIdAt(rows[..n], i);
    }
  }

  lemma {:induction false} KeyByIdFrom(rows: seq<Identity>, id: nat)
    requires id in KeyById(rows)
    ensures Identity(id, KeyById(rows)[id]) in rows
  {
    var n := |rows| - 1;
    assert rows == rows[..n] + [rows[n]];
    if id != rows[n].id {
      KeyByIdFrom(rows[..n], id);
    }
  }

  lemma KeyByIdMeaning(rows: seq<Identity>)
    requires Unique(rows)
    ensures forall id :: id in KeyById(rows) ==> Identity(id, KeyById(rows)[id]) in rows
    ensures forall i :: 0 <= i < |rows| ==> rows[i].id in KeyById(rows) && KeyById(rows)[rows[i].id] == rows[i].key
  {
    forall id | id in KeyById(rows) ensures Identity(id, KeyById(rows)[id]) in rows {
      KeyByIdFrom(rows, id);
    }
    forall i | 0 <= i < |rows| ensures rows[i].id in KeyById(rows) && KeyById(rows)[rows[i].id] == rows[i].key {
      KeyByIdAt(rows, i);
    }
  }

  lemma {:induction false} IdByKeyAt(rows: seq<Identity>, i: nat)
    requires Unique(rows) && i < |rows|
    ensures rows[i].key in IdByKey(rows) && IdByKey(rows)[rows[i].key] == rows[i].id
  {
    var n := |rows| - 1;
    if i < n {
      assert rows[..n][i] == rows[i];
      IdByKeyAt(rows[..n], i);
    }
  }

  lemma {:induction false} IdByKeyFrom(rows: seq<Identity>, key: string)
    requires key in IdByKey(rows)
    ensures Identity(IdByKey(rows)[key], key) in rows
  {
    var n := |rows| - 1;
    assert rows == rows[..n] + [rows[n]];
    if key != rows[n].key {
      IdByKeyFrom(rows[..n], key);
    }
  }

  lemma IdByKeyMeaning(rows: seq<Identity>)
    requires Unique(rows)
    ensures forall key :: key in IdByKey(rows) ==> Identity(IdByKey(rows)[key], key) in rows
    ensures forall i :: 0 <= i < |rows| ==> rows[i].key in IdByKey(rows) && IdByKey(rows)[rows[i].key] == rows[i].id
  {
    forall key | key in IdByKey(rows) ensures Identity(IdByKey(rows)[key], key) in rows {
      IdByKeyFrom(rows, key);
    }
    forall i | 0 <= i < |rows| ensures rows[i].key in IdByKey(rows) && IdByKey(rows)[rows[i].key] == rows[i].id {
      IdByKeyAt(rows, i);
    }
  }

  /** Two ids name the same thing: they carry the same semantic key. */
  ghost predicate SameThing(source: seq<Identity>, target: seq<Identity>, a: nat, b: nat) {
    exists i, j ::
      && 0 <= i < |source| && 0 <= j < |target|
      && source[i].id == a && target[j].id == b && source[i].key == target[j].key
  }

  /** A reference goes to the one target row with its semantic key, and fails exactly when there is none. */
  lemma MapRequiredMeaning(source: seq<Identity>, target: seq<Identity>, a: nat)
    requires Unique(source) && Unique(target)
    ensures forall b: nat :: MapRequired(source, target, a) == Ok(b) <==> SameThing(source, target, a, b)
  {
    KeyByIdMeaning(source);
    IdByKeyMeaning(target);
    forall b: nat ensures MapRequired(source, target, a) == Ok(b) <==> SameThing(source, target, a, b) {
      if MapRequired(source, target, a) == Ok(b) {
        var key := KeyById(source)[a];
        var i :| 0 <= i < |source| && source[i] == Identity(a, key);
        var j :| 0 <= j < |target| && target[j] == Identity(b, key);
      }
    }
  }

  /** An archived id whose key is empty resolves to nothing, and so does a key whose current id is zero. */
  lemma EmptyIsMissing(source: seq<Identity>, target: seq<Identity>, id: nat, key: string)
    ensures MapRequired(source + [Identity(id, "")], target, id).Thrown?
    ensures MapRequired(source + [Identity(id, key)], target + [Identity(0, key)], id).Thrown?
  {
    var a, b, t := source + [Identity(id, "")], source + [Identity(id, key)], target + [Identity(0, key)];
    assert a[..|a| - 1] == source && b[..|b| - 1] == source && t[..|t| - 1] == target;
  }

  lemma MapToItself(rows: seq<Identity>, a: nat)
    requires Unique(rows)
    ensures MapRequired(rows, rows, a) == Ok(a) <==> exists i :: 0 <= i < |rows| && rows[i].id == a
    ensures MapRequired(rows, rows, a).Ok? ==> MapRequired(rows, rows, a).value == a
  {
    MapRequiredMeaning(rows, rows, a);
    if i :| 0 <= i < |rows| && rows[i].id == a {
      assert SameThing(rows, rows, a, a);
    }
    if MapRequired(rows, rows, a).Ok? {
      assert SameThing(rows, rows, a, MapRequired(rows, rows, a).value);
    }
  }

  lemma MapComposes(a: seq<Identity>, b: seq<Identity>, c: seq<Identity>, id: nat)
    requires Unique(a) && Unique(b) && Unique(c) && MapRequired(a, b, id).Ok?
    ensures MapRequired(b, c, MapRequired(a, b, id).value) == MapRequired(a, c, id)
  {
    KeyByIdMeaning(a);
    KeyByIdMeaning(b);
    IdByKeyMeaning(b);
    var key := KeyById(a)[id];
    var j :| 0 <= j < |b| && b[j] == Identity(IdByKey(b)[key], key);
    assert KeyById(b)[b[j].id] == key;
  }

  /** What a remapped cell has to be, said without the lookups. */
  ghost predicate Carried(source: Database, target: Database, cell: Cell, out: Option<nat>) {
    match cell.column
    case User => out == if cell.value.Some? && cell.value.value in target.users then cell.value else None
    case _ =>
      var kind := cell.column.kind;
      if cell.value.None? then cell.column.Nullable? && out.None?
      else out.Some? && SameThing(source.Identities(kind), target.Identities(kind), cell.value.value, out.value)
  }

  lemma CellMeaning(source: Database, target: Database, cell: Cell, out: Option<nat>)
    requires UniqueIdentities(source) && UniqueIdentities(target)
    ensures RemapCell(source, target, cell) == Ok(out) <==> Carried(source, target, cell, out)
  {
    if !cell.column.User? {
      var kind := cell.column.kind;
      var id := if cell.value.None? then 0 else cell.value.value;
      MapRequiredMeaning(source.Identities(kind), target.Identities(kind), id);
    }
  }

  /** Everything else in the row is as archived, and each cell is carried to the same thing. */
  ghost predicate RowCarried(source: Database, target: Database, row: Row, out: Row) {
    && out.table == row.table && out.rest == row.rest && |out.refs| == |Columns(row.table)|
    && forall i :: 0 <= i < |out.refs| ==> Carried(source, target, Cells(row)[i], out.refs[i])
  }

  lemma RowMeaning(source: Database, target: Database, row: Row, out: Row)
    requires UniqueIdentities(source) && UniqueIdentities(target)
    ensures RemapRow(source, target, row) == Ok(out) <==> RowCarried(source, target, row, out)
  {
    var f := c => RemapCell(source, target, c);
    TraverseMeaning(Cells(row), f);
    forall i | 0 <= i < |Cells(row)| && i < |out.refs|
      ensures f(Cells(row)[i]) == Ok(out.refs[i]) <==> Carried(source, target, Cells(row)[i], out.refs[i])
    {
      CellMeaning(source, target, Cells(row)[i], out.refs[i]);
    }
    if RowCarried(source, target, row, out) {
      assert Traverse(Cells(row), f).value == out.refs;
    }
  }

  /**
   The remap is exact: it returns `out` if and only if every row is carried to the row of
   `out` at its place, so it aborts exactly when some required reference has no counterpart.
   */
  lemma RemapMeaning(source: Database, target: Database, rows: seq<Row>, out: seq<Row>)
    requires UniqueIdentities(source) && UniqueIdentities(target)
    ensures RemapRows(source, target, rows) == Ok(out) <==>
      |out| == |rows| && forall i :: 0 <= i < |rows| ==> RowCarried(source, target, rows[i], out[i])
  {
    var f := row => RemapRow(source, target, row);
    TraverseMeaning(rows, f);
    forall i | 0 <= i < |rows| && i < |out|
      ensures f(rows[i]) == Ok(out[i]) <==> RowCarried(source, target, rows[i], out[i])
    {
      RowMeaning(source, target, rows[i], out[i]);
    }
    if |out| == |rows| && forall i :: 0 <= i < |rows| ==> RowCarried(source, target, rows[i], out[i]) {
      assert forall i :: 0 <= i < |rows| ==> f(rows[i]) == Ok(out[i]);
      assert Traverse(rows, f).value == out;
    }
  }

  /** A required reference and its new value name the same thing. */
  ghost predicate SameRequired(source: seq<Identity>, target: seq<Identity>, a: Option<nat>, b: Option<nat>) {
    a.Some? && b.Some? && SameThing(source, target, a.value, b.value)
  }

  ghost predicate SameOptional(source: seq<Identity>, target: seq<Identity>, a: Option<nat>, b: Option<nat>) {
    if a.None? then b.None? else SameRequired(source, target, a, b)
  }

  /** How many columns of a table hold ids of other domains. */
  function Width(table: Table): nat {
    match table
    case Assignments => 3
    case Findings => 3
    case AssignmentSlots => 2
    case Endpoints => 2
    case Memberships => 1
    case Overrides => 1
    case Placements => 1
    case Ignores => 1
    case _ => 0
  }

  /** Table by table, which columns are carried over and as what. */
  ghost predicate ColumnsCarried(source: Database, target: Database, table: Table, a: seq<Option<nat>>,
                                 b: seq<Option<nat>>)
    requires |a| == |b| == Width(table)
  {
    match table
    case Memberships => SameRequired(source.items, target.items, a[0], b[0])
    case Overrides => SameRequired(source.items, target.items, a[0], b[0])
    case Placements => SameRequired(source.items, target.items, a[0], b[0])
    case Assignments =>
      && SameRequired(source.items, target.items, a[0], b[0]) && SameRequired(source.items, target.items, a[1], b[1])
      && SameOptional(source.slots, target.slots, a[2], b[2])
    case AssignmentSlots =>
      SameRequired(source.items, target.items, a[0], b[0]) && SameRequired(source.slots, target.slots, a[1], b[1])
    case Endpoints =>
      SameRequired(source.ports, target.ports, a[0], b[0]) && SameOptional(source.faces, target.faces, a[1], b[1])
    case Findings =>
      && SameRequired(source.items, target.items, a[0], b[0]) && SameOptional(source.items, target.items, a[1], b[1])
      && SameOptional(source.slots, target.slots, a[2], b[2])
    case Ignores => b[0] == if a[0].Some? && a[0].value in target.users then a[0] else None
    case _ => true
  }

  ghost predicate ColumnCarried(source: Database, target: Database, column: Column, a: Option<nat>, b: Option<nat>) {
    match column
    case Required(kind) => SameRequired(source.Identities(kind), target.Identities(kind), a, b)
    case Nullable(kind) => SameOptional(source.Identities(kind), target.Identities(kind), a, b)
    case User => b == if a.Some? && a.value in target.users then a else None
  }

  lemma CellIsColumn(source: Database, target: Database, column: Column, a: Option<nat>, b: Option<nat>)
    ensures Carried(source, target, Cell(column, a), b) <==> ColumnCarried(source, target, column, a, b)
  {
  }

  lemma TableColumns(source: Database, target: Database, table: Table, a: seq<Option<nat>>, b: seq<Option<nat>>)
    requires |a| == |b| == Width(table) == |Columns(table)|
    ensures ColumnsCarried(source, target, table, a, b) <==>
      forall i :: 0 <= i < |a| ==> ColumnCarried(source, target, Columns(table)[i], a[i], b[i])
  {
    var columns := Columns(table);
    if forall i :: 0 <= i < |a| ==> ColumnCarried(source, target, columns[i], a[i], b[i]) {
      assert |a| > 0 ==> ColumnCarried(source, target, columns[0], a[0], b[0]);
      assert |a| > 1 ==> ColumnCarried(source, target, columns[1], a[1], b[1]);
      assert |a| > 2 ==> ColumnCarried(source, target, columns[2], a[2], b[2]);
    }
  }

  lemma RowIsColumns(source: Database, target: Database, row: Row, out: Row)
    requires |row.refs| == |Columns(row.table)|
    ensures RowCarried(source, target, row, out) <==>
      && out.table == row.table && out.rest == row.rest && |out.refs| == |row.refs|
      && forall i :: 0 <= i < |row.refs| ==>
           ColumnCarried(source, target, Columns(row.table)[i], row.refs[i], out.refs[i])
  {
    forall i: nat | i < |row.refs| && i < |out.refs|
      ensures Carried(source, target, Cells(row)[i], out.refs[i])
         <==> ColumnCarried(source, target, Columns(row.table)[i], row.refs[i], out.refs[i])
    {
      CellIsColumn(source, target, Columns(row.table)[i], row.refs[i], out.refs[i]);
    }
  }

  /** A row is restored as `out` exactly when every column of its table is carried as that table demands. */
  lemma RestoredColumns(source: Database, target: Database, row: Row, out: Row)
    requires UniqueIdentities(source) && UniqueIdentities(target)
    requires |row.refs| == Width(row.table) == |out.refs|
    ensures RemapRow(source, target, row) == Ok(out) <==>
      && out.table == row.table && out.rest == row.rest
      && ColumnsCarried(source, target, row.table, row.refs, out.refs)
  {
    WidthIsColumns(row.table);
    RowMeaning(source, target, row, out);
    RowIsColumns(source, target, row, out);
    TableColumns(source, target, row.table, row.refs, out.refs);
  }

  lemma WidthIsColumns(table: Table)
    ensures |Columns(table)| == Width(table)
  {
  }

  // ----- The database it was exported from

  /** The foreign keys of a database: every id in a row is the id of something in it. */
  ghost predicate CellKnown(d: Database, cell: Cell) {
    match cell.column
    case User => cell.value.Some? ==> cell.value.value in d.users
    case _ =>
      if cell.value.None? then cell.column.Nullable?
      else
        var rows := d.Identities(cell.column.kind);
        exists i :: 0 <= i < |rows| && rows[i].id == cell.value.value
  }

  ghost predicate RowKnown(d: Database, row: Row) {
    && |row.refs| == |Columns(row.table)|
    && forall i :: 0 <= i < |row.refs| ==> CellKnown(d, Cells(row)[i])
  }

  lemma CellToItself(d: Database, cell: Cell)
    requires UniqueIdentities(d)
    ensures RemapCell(d, d, cell) == Ok(cell.value) <==> CellKnown(d, cell)
  {
    if !cell.column.User? {
      MapToItself(d.Identities(cell.column.kind), if cell.value.None? then 0 else cell.value.value);
    }
  }

  lemma RowToItself(d: Database, row: Row)
    requires UniqueIdentities(d)
    ensures RemapRow(d, d, row) == Ok(row) <==> RowKnown(d, row)
  {
    var f := c => RemapCell(d, d, c);
    TraverseMeaning(Cells(row), f);
    forall i | 0 <= i < |Cells(row)|
      ensures f(Cells(row)[i]) == Ok(Cells(row)[i].value) <==> CellKnown(d, Cells(row)[i])
    {
      CellToItself(d, Cells(row)[i]);
    }
    if RowKnown(d, row) {
      assert forall i :: 0 <= i < |Cells(row)| ==> f(Cells(row)[i]) == Ok(Cells(row)[i].value);
      assert Traverse(Cells(row), f).value == row.refs;
    }
  }

  /** Remapping to the database of origin changes nothing, exactly when all rows satisfy its foreign keys. */
  lemma RemapToItself(d: Database, rows: seq<Row>)
    requires UniqueIdentities(d)
    ensures RemapRows(d, d, rows) == Ok(rows) <==> forall i :: 0 <= i < |rows| ==> RowKnown(d, rows[i])
  {
    var f := row => RemapRow(d, d, row);
    TraverseMeaning(rows, f);
    forall i | 0 <= i < |rows| ensures f(rows[i]) == Ok(rows[i]) <==> RowKnown(d, rows[i]) {
      RowToItself(d, rows[i]);
    }
    if forall i :: 0 <= i < |rows| ==> RowKnown(d, rows[i]) {
      assert forall i :: 0 <= i < |rows| ==> f(rows[i]) == Ok(rows[i]);
      assert Traverse(rows, f).value == rows;
    }
  }

  // ----- Composition

  /** The cell names a user that the last database has and the middle one lacks. */
  predicate Forgotten(b: Database, c: Database, cell: Cell) {
    cell.column.User? && cell.value.Some? && cell.value.value in c.users && cell.value.value !in b.users
  }

  predicate RowForgotten(b: Database, c: Database, row: Row) {
    exists i :: 0 <= i < |Cells(row)| && Forgotten(b, c, Cells(row)[i])
  }

  lemma CellComposes(a: Database, b: Database, c: Database, cell: Cell)
    requires UniqueIdentities(a) && UniqueIdentities(b) && UniqueIdentities(c) && RemapCell(a, b, cell).Ok?
    ensures var twice := RemapCell(b, c, Cell(cell.column, RemapCell(a, b, cell).value));
      && (twice.Ok? <==> RemapCell(a, c, cell).Ok?)
      && (twice == RemapCell(a, c, cell) <==> !Forgotten(b, c, cell))
  {
    if !cell.column.User? && (cell.column.Required? || cell.value.Some?) {
      var kind := cell.column.kind;
      MapComposes(a.Identities(kind), b.Identities(kind), c.Identities(kind),
                  if cell.value.None? then 0 else cell.value.value);
    }
  }

  /** The pointwise form of composing two traversals. */
  lemma TraverseAgree<A, B, C>(s: seq<A>, t: seq<B>, f: A -> Result<C>, g: B -> Result<C>)
    requires |s| == |t| && forall i :: 0 <= i < |s| ==> (f(s[i]).Ok? <==> g(t[i]).Ok?)
    ensures Traverse(s, f).Ok? <==> Traverse(t, g).Ok?
    ensures Traverse(s, f).Ok? ==>
      (Traverse(s, f) == Traverse(t, g) <==> forall i :: 0 <= i < |s| ==> f(s[i]) == g(t[i]))
  {
    TraverseMeaning(s, f);
    TraverseMeaning(t, g);
    if Traverse(s, f).Ok? {
      assert forall i :: 0 <= i < |s| ==> f(s[i]).Ok?;
      assert forall i :: 0 <= i < |t| ==> g(t[i]).Ok?;
      if forall i :: 0 <= i < |s| ==> f(s[i]) == g(t[i]) {
        assert Traverse(s, f).value == Traverse(t, g).value;
      }
    }
  }

  lemma RowComposes(a: Database, b: Database, c: Database, row: Row)
    requires UniqueIdentities(a) && UniqueIdentities(b) && UniqueIdentities(c) && RemapRow(a, b, row).Ok?
    ensures var twice := RemapRow(b, c, RemapRow(a, b, row).value);
      && (twice.Ok? <==> RemapRow(a, c, row).Ok?)
      && (twice.Ok? ==> (twice == RemapRow(a, c, row) <==> !RowForgotten(b, c, row)))
  {
    var ab := x => RemapCell(a, b, x);
    var bc := x => RemapCell(b, c, x);
    var ac := x => RemapCell(a, c, x);
    var middle := RemapRow(a, b, row).value;
    var s, t := Cells(row), Cells(middle);
    TraverseMeaning(s, ab);
    forall i | 0 <= i < |s|
      ensures (ac(s[i]).Ok? <==> bc(t[i]).Ok?) && (ac(s[i]) == bc(t[i]) <==> !Forgotten(b, c, s[i]))
    {
      assert t[i] == Cell(s[i].column, ab(s[i]).value);
      CellComposes(a, b, c, s[i]);
    }
    TraverseAgree(s, t, ac, bc);
  }

  /**
   Restoring from A to B and from there to C gives what restoring from A to C gives,
   except for a note of who ignored a finding when B does not know that user and C does.
   */
  lemma RemapComposes(a: Database, b: Database, c: Database, rows: seq<Row>)
    requires UniqueIdentities(a) && UniqueIdentities(b) && UniqueIdentities(c) && RemapRows(a, b, rows).Ok?
    ensures var twice, direct := RemapRows(b, c, RemapRows(a, b, rows).value), RemapRows(a, c, rows);
      && (twice.Ok? <==> direct.Ok?)
      && (twice.Ok? ==> (twice == direct <==> forall i :: 0 <= i < |rows| ==> !RowForgotten(b, c, rows[i])))
  {
    var ab := row => RemapRow(a, b, row);
    var bc := row => RemapRow(b, c, row);
    var ac := row => RemapRow(a, c, row);
    var t := RemapRows(a, b, rows).value;
    TraverseMeaning(rows, ab);
    forall i | 0 <= i < |rows|
      ensures ac(rows[i]).Ok? <==> bc(t[i]).Ok?
      ensures ac(rows[i]).Ok? ==> (ac(rows[i]) == bc(t[i]) <==> !RowForgotten(b, c, rows[i]))
    {
      assert ab(rows[i]) == Ok(t[i]);
      RowComposes(a, b, c, rows[i]);
    }
    TraverseAgree(rows, t, ac, bc);
    if Traverse(rows, ac).Ok? {
      TraverseMeaning(rows, ac);
      assert forall i :: 0 <= i < |rows| ==> ac(rows[i]).Ok?;
    }
  }

  /** The exception occurs: restored through a database without users, the note of who ignored a finding is lost. */
  lemma UserIsForgotten(user: nat, rest: string)
    ensures var a := Database([], [], [], [], {user}, []);
      var b := Database([], [], [], [], {}, []);
      var row, lost := Row(Ignores, [Some(user)], rest), Row(Ignores, [None], rest);
      && RemapRows(a, b, [row]) == Ok([lost]) && RemapRows(b, a, [lost]) == Ok([lost])
      && RemapRows(a, a, [row]) == Ok([row])
  {
    var a, b := Database([], [], [], [], {user}, []), Database([], [], [], [], {}, []);
    var row, lost := Row(Ignores, [Some(user)], rest), Row(Ignores, [None], rest);
    assert Carried(a, b, Cells(row)[0], None) && Carried(b, a, Cells(lost)[0], None);
    assert Carried(a, a, Cells(row)[0], Some(user));
    assert RowCarried(a, b, row, lost) && RowCarried(b, a, lost, lost) && RowCarried(a, a, row, row);
    RemapMeaning(a, b, [row], [lost]);
    RemapMeaning(b, a, [lost], [lost]);
    RemapMeaning(a, a, [row], [row]);
  }

  // ----- The restore as it runs

  /** An archive: contract version, the tables it has, their rows in insertion order and the identities. */
  datatype Archive = Archive(contract: nat, tables: set<Table>, source: Database)

  const INSERT_ORDER: seq<Table> := [
    Projects, Workspaces, CanvasWorkspaces, Preferences, Policies, Memberships, Overrides, Placements, Assignments,
    AssignmentSlots, Connections, Endpoints, Visibility, BendPoints, Audits, Findings, Ignores]

  /** The staged copy after the workbook rows have been replaced, or the error that ends the restore. */
  function Restored(d: Database, archive: Archive): Result<Database> {
    if archive.contract != 1 then Thrown("contract is unsupported")
    else if exists i :: 0 <= i < |INSERT_ORDER| && INSERT_ORDER[i] !in archive.tables then Thrown("table is missing")
    else
      var rows :- RemapRows(archive.source, d, archive.source.workbook);
      Ok(d.(workbook := rows))
  }

  /**
   A restore succeeds exactly for contract version 1, with all tables there and every reference resolvable,
   and then it has replaced the workbook rows and nothing else.
   */
  lemma RestoredExactlyWhen(d: Database, archive: Archive, out: Database)
    ensures Restored(d, archive) == Ok(out) <==>
      && archive.contract == 1 && (forall table: Table :: table in archive.tables)
      && RemapRows(archive.source, d, archive.source.workbook) == Ok(out.workbook)
      && out.items == d.items && out.ports == d.ports && out.faces == d.faces && out.slots == d.slots
      && out.users == d.users
  {
    if forall table: Table :: table in archive.tables {
      assert forall i :: 0 <= i < |INSERT_ORDER| ==> INSERT_ORDER[i] in archive.tables;
    }
    if forall i :: 0 <= i < |INSERT_ORDER| ==> INSERT_ORDER[i] in archive.tables {
      forall table: Table ensures table in archive.tables {
        EveryTableIsInserted(table);
      }
    }
  }

  lemma EveryTableIsInserted(table: Table)
    ensures exists i :: 0 <= i < |INSERT_ORDER| && INSERT_ORDER[i] == table
  {
    var order := INSERT_ORDER;
    assert order[0] == Projects && order[1] == Workspaces && order[2] == CanvasWorkspaces && order[3] == Preferences;
    assert order[4] == Policies && order[5] == Memberships && order[6] == Overrides && order[7] == Placements;
    assert order[8] == Assignments && order[9] == AssignmentSlots && order[10] == Connections && order[11] == Endpoints;
    assert order[12] == Visibility && order[13] == BendPoints && order[14] == Audits && order[15] == Findings;
    assert order[16] == Ignores;
  }

  /** Rewrites the rows of the archive's clone in place, up to the first reference that cannot be resolved. */
  method RemapInPlace(source: Database, target: Database, rows: array<Row>) returns (error: Option<string>)
    modifies rows
    ensures RemapRows(source, target, old(rows[..])) == if error.None? then Ok(rows[..]) else Thrown(error.value)
  {
    ghost var f := row => RemapRow(source, target, row);
    ghost var all := rows[..];
    var i := 0;
    while i < rows.Length
      invariant 0 <= i <= rows.Length
      invariant rows[i..] == all[i..]
      invariant Traverse(all[..i], f) == Ok(rows[..i])
    {
      assert rows[i] == rows[i..][0] == all[i..][0];
      TraverseStep(all, i, f);
      var row := RemapRow(source, target, rows[i]);
      if row.Thrown? {
        TraverseStops(all, i + 1, f);
        return Some(row.error);
      }
      ghost var done := rows[..i];
      rows[i] := row.value;
      assert rows[..i + 1] == done + [row.value];
      assert rows[i + 1..] == all[i..][1..] == all[i + 1..];
      i := i + 1;
    }
    assert all[..i] == all && rows[..i] == rows[..];
    return None;
  }

  lemma TraverseStep<A, B>(s: seq<A>, n: nat, f: A -> Result<B>)
    requires n < |s| && Traverse(s[..n], f).Ok?
    ensures f(s[n]).Ok? ==> Traverse(s[..n + 1], f) == Ok(Traverse(s[..n], f).value + [f(s[n]).value])
    ensures f(s[n]).Thrown? ==> Traverse(s[..n + 1], f) == Thrown(f(s[n]).error)
  {
    assert s[..n + 1][..n] == s[..n];
  }

  lemma {:induction false} TraverseStops<A, B>(s: seq<A>, n: nat, f: A -> Result<B>)
    requires n <= |s| && Traverse(s[..n], f).Thrown?
    ensures Traverse(s, f) == Traverse(s[..n], f)
  {
    if n == |s| {
      assert s[..n] == s;
    } else {
      assert s[..|s| - 1][..n] == s[..n];
      TraverseStops(s[..|s| - 1], n, f);
    }
  }

  class LiveStore {
    var database: Database

    constructor (d: Database)
      ensures database == d
    {
      database := d;
    }

    /** Works on a staged copy and activates it only at the end, so that an error leaves the live database alone. */
    method RestoreWorkbooks(archive: Archive) returns (error: Option<string>)
      modifies this
      ensures error.None? ==> Restored(old(database), archive) == Ok(database)
      ensures error.Some? ==> Restored(old(database), archive) == Thrown(error.value) && database == old(database)
    {
      if archive.contract != 1 {
        return Some("contract is unsupported");
      }
      var i := 0;
      while i < |INSERT_ORDER|
        invariant 0 <= i <= |INSERT_ORDER|
        invariant forall j :: 0 <= j < i ==> INSERT_ORDER[j] in archive.tables
      {
        if INSERT_ORDER[i] !in archive.tables {
          return Some("table is missing");
        }
        i := i + 1;
      }
      var workbook := archive.source.workbook;
      var rows := new Row[|workbook|](k requires 0 <= k < |workbook| => workbook[k]);
      assert rows[..] == workbook;
      var staged := database;
      error := RemapInPlace(archive.source, staged, rows);
      if error.None? {
        staged := staged.(workbook := rows[..]);
        database := staged;
      }
    }
  }

  /** Restoring an export into the database it came from gives that database back. */
  lemma ExportRestoresItself(d: Database)
    requires UniqueIdentities(d)
    requires forall i :: 0 <= i < |d.workbook| ==> RowKnown(d, d.workbook[i])
    ensures Restored(d, Archive(1, ToSet(INSERT_ORDER), d)) == Ok(d)
  {
    RemapToItself(d, d.workbook);
  }
}
