/** The events export: ragged per-event data flattened into one wide table, in two passes. */
module EventExport {
  import opened Wrappers
  import opened Text

  // ---- events and their resources

  datatype Value = Null | Number(n: int) | Decimals(x: real) | Words(text: string)

  datatype DataType = TIME | STRING | INTEGER | FLOAT | BOOLEAN | OPAQUE

  /** A resource of an event, with the name and data type of its resource type; `size` is the byte
      length of an opaque value. */
  datatype Resource = Resource(name: string, dataType: DataType, value: Value, size: Option<nat>)

  datatype Event = Event(time: string, endpoint: string, kind: string, resources: seq<Resource>)

  const BLANK := Words("")

  /** What the export shows of one resource. */
  function Shown(r: Resource): Value {
    if r.dataType == OPAQUE then
      Words(if r.size.Some? then "<raw: " + Decimal(r.size.value) + " bytes>" else "<raw: N/A>")
    else r.value
  }

  /** A single value, or the list a repeated name has become. */
  datatype Cell = Scalar(value: Value) | List(values: seq<Value>)

  // ---- grouping by name

  /** The values shown under `name`, in order. */
  function ValuesOf(rs: seq<Resource>, name: string): seq<Value> {
    if rs == [] then []
    else
      var last := rs[|rs| - 1];
      ValuesOf(rs[..|rs| - 1], name) + if last.name == name then [Shown(last)] else []
  }

  /** The names, in the order in which they first occur. */
  function NamesOf(rs: seq<Resource>): seq<string> {
    if rs == [] then []
    else
      var names, last := NamesOf(rs[..|rs| - 1]), rs[|rs| - 1];
      if last.name in names then names else names + [last.name]
  }

  function CellOf(values: seq<Value>): Cell
    requires values != []
  {
    if |values| == 1 then Scalar(values[0]) else List(values)
  }

  /** One event grouped: its names in order, and a cell for each. */
  datatype Grouped = Grouped(names: seq<string>, cells: map<string, Cell>)

  predicate NoDuplicates(s: seq<string>) {
    forall i, j :: 0 <= i < j < |s| ==> s[i] != s[j]
  }

  ghost predicate Groups(g: Grouped, rs: seq<Resource>) {
    && g.names == NamesOf(rs)
    && NoDuplicates(g.names)
    && (forall name :: name in g.names <==> name in g.cells)
    && (forall name :: name in g.cells <==> ValuesOf(rs, name) != [])
    && (forall name :: name in g.cells ==> g.cells[name] == CellOf(ValuesOf(rs, name)))
  }

  /** The dictionary after one more resource. */
  function Added(g: Grouped, r: Resource): Grouped {
    if r.name in g.cells then
      var old_ := g.cells[r.name];
      var list := match old_ case Scalar(v) => [v] case List(vs) => vs;
      g.(cells := g.cells[r.name := List(list + [Shown(r)])])
    else Grouped(g.names + [r.name], g.cells[r.name := Scalar(Shown(r))])
  }

  lemma ValuesOneMore(rs: seq<Resource>, r: Resource, name: string)
    ensures ValuesOf(rs + [r], name) == ValuesOf(rs, name) + if r.name == name then [Shown(r)] else []
  {
    assert (rs + [r])[..|rs|] == rs;
  }

  lemma AddedGroups(g: Grouped, rs: seq<Resource>, r: Resource)
    requires Groups(g, rs)
    ensures Groups(Added(g, r), rs + [r])
  {
    var h := Added(g, r);
    assert (rs + [r])[..|rs|] == rs;
    assert h.names == NamesOf(rs + [r]);
    forall name
      ensures name in h.cells <==> ValuesOf(rs + [r], name) != []
      ensures name in h.cells ==> h.cells[name] == CellOf(ValuesOf(rs + [r], name))
      ensures name in h.names <==> name in h.cells
    {
      ValuesOneMore(rs, r, name);
    }
  }

  /** The inner loop of the first pass. One occurrence of a name gives its value, two or more the
      list of its values in order. */
  method Group(rs: seq<Resource>) returns (g: Grouped)
    ensures Groups(g, rs)
  {
    g := Grouped([], map[]);
    for i := 0 to |rs|
      invariant Groups(g, rs[..i])
    {
      AddedGroups(g, rs[..i], rs[i]);
      assert rs[..i] + [rs[i]] == rs[..i + 1];
      var r := rs[i];
      var value := Shown(r);
      if r.name in g.cells {
        var existing := g.cells[r.name];
        if existing.Scalar? {
          existing := List([existing.value]);
        }
        g := g.(cells := g.cells[r.name := List(existing.values + [value])]);
      } else {
        g := Grouped(g.names + [r.name], g.cells[r.name := Scalar(value)]);
      }
    }
    assert rs[..|rs|] == rs;
  }

  // ---- column names

  /** What a column stands for: a name, or one index of a repeated name. */
  datatype Key = Plain(name: string) | Indexed(name: string, index: nat)

  function ColumnOf(k: Key): string {
    match k
    case Plain(name) => name
    case Indexed(name, index) => name + "[" + Decimal(index) + "]"
  }

  /** The test by which the second pass takes a column for an indexed one. */
  predicate Bracketed(col: string) {
    RFind(col, '[').Some? && col[|col| - 1] == ']'
  }

  function BaseOf(col: string): string
    requires Bracketed(col)
  {
    col[..RFind(col, '[').value]
  }

  function IndexText(col: string): string
    requires Bracketed(col)
  {
    col[RFind(col, '[').value + 1..|col| - 1]
  }

  lemma RFindUnique(s: string, c: char, i: nat)
    requires i < |s| && s[i] == c && forall j :: i < j < |s| ==> s[j] != c
    ensures RFind(s, c) == Some(i)
  {
    assert c in s;
  }

  lemma LastBracket(name: string, digits: string, col: string)
    requires AllDigits(digits) && |col| == |name| + |digits| + 2
    requires col[|name|] == '[' && col[|col| - 1] == ']' && col[|name| + 1..|col| - 1] == digits
    ensures RFind(col, '[') == Some(|name|)
  {
    forall j | |name| < j < |col| ensures col[j] != '[' {
      if j < |col| - 1 {
        assert col[j] == col[|name| + 1..|col| - 1][j - |name| - 1];
      }
    }
    RFindUnique(col, '[', |name|);
  }

  /** Splitting at the last bracket and reading the number gives back the name and the index,
      whatever characters the name holds. */
  lemma IndexedColumnDecodes(name: string, index: nat)
    ensures var col := ColumnOf(Indexed(name, index));
            Bracketed(col) && BaseOf(col) == name && PyInt(IndexText(col)) == Some(index)
  {
    var digits := Decimal(index);
    var col := name + "[" + digits + "]";
    DecimalReads(index);
    PyIntReads(index);
    assert col[..|name|] == name;
    assert col[|name| + 1..|col| - 1] == digits;
    LastBracket(name, digits, col);
  }

  predicate PlainOk(k: Key) {
    k.Plain? ==> !Bracketed(k.name)
  }

  /** Different keys have different columns, as long as plain names are not bracketed. */
  lemma ColumnsInjective(k: Key, l: Key)
    requires PlainOk(k) && PlainOk(l)
    ensures ColumnOf(k) == ColumnOf(l) ==> k == l
  {
    if k.Indexed? { IndexedColumnDecodes(k.name, k.index); }
    if l.Indexed? { IndexedColumnDecodes(l.name, l.index); }
  }

  /** The event has something to show under this key. */
  ghost predicate Has(g: Grouped, k: Key) {
    && k.name in g.cells
    && match k
       case Plain(name) => g.cells[name].Scalar?
       case Indexed(name, index) => g.cells[name].List? && index < |g.cells[name].values|
  }

  /** The grouped value for a key, or a blank. */
  ghost function Expected(g: Grouped, k: Key): Value {
    if !Has(g, k) then BLANK
    else
      match k
      case Plain(name) => g.cells[name].value
      case Indexed(name, index) => g.cells[name].values[index]
  }

  ghost predicate IsColumn(gs: seq<Grouped>, col: string) {
    exists i, k :: 0 <= i < |gs| && Has(gs[i], k) && ColumnOf(k) == col
  }

  /** The columns of the data so far: each once, and exactly those that some event uses. */
  ghost predicate Columns(cols: seq<string>, gs: seq<Grouped>) {
    NoDuplicates(cols) && forall col :: col in cols <==> IsColumn(gs, col)
  }

  /** Inserting a key into the ordered dictionary of column names. */
  method AddColumn(cols: seq<string>, col: string) returns (r: seq<string>)
    requires NoDuplicates(cols)
    ensures NoDuplicates(r) && cols <= r
    ensures forall c :: c in r <==> c in cols || c == col
  {
    r := if col in cols then cols else cols + [col];
  }

  ghost predicate UsesIn(g: Grouped, names: seq<string>, col: string) {
    exists k: Key :: k.name in names && Has(g, k) && ColumnOf(k) == col
  }

  /** The columns of one event, added to those collected before. */
  method AddColumns(cols: seq<string>, g: Grouped) returns (r: seq<string>)
    requires NoDuplicates(cols) && forall name :: name in g.names <==> name in g.cells
    ensures NoDuplicates(r) && cols <= r
    ensures forall c :: c in r <==> c in cols || UsesIn(g, g.names, c)
  {
    r := cols;
    for i := 0 to |g.names|
      invariant NoDuplicates(r) && cols <= r
      invariant forall c :: c in r <==> c in cols || UsesIn(g, g.names[..i], c)
    {
      var name := g.names[i];
      ghost var before := r;
      assert g.names[..i + 1] == g.names[..i] + [name];
      var cell := g.cells[name];
      if cell.List? {
        for index := 0 to |cell.values|
          invariant NoDuplicates(r) && cols <= r
          invariant forall c :: c in r <==> c in before || exists j :: 0 <= j < index && c == ColumnOf(Indexed(name, j))
        {
          r := AddColumn(r, ColumnOf(Indexed(name, index)));
        }
      } else {
        r := AddColumn(r, ColumnOf(Plain(name)));
      }
      forall c ensures c in r <==> c in cols || UsesIn(g, g.names[..i + 1], c) {
        UsesOneMore(g, g.names[..i], name, c);
      }
    }
    assert g.names[..|g.names|] == g.names;
  }

  /** What the columns of one more name are. */
  lemma UsesOneMore(g: Grouped, names: seq<string>, name: string, c: string)
    requires name in g.cells
    ensures UsesIn(g, names + [name], c) <==>
            UsesIn(g, names, c) ||
            (match g.cells[name]
             case Scalar(_) => c == ColumnOf(Plain(name))
             case List(vs) => exists j :: 0 <= j < |vs| && c == ColumnOf(Indexed(name, j)))
  {
    if UsesIn(g, names + [name], c) {
      var k: Key :| k.name in names + [name] && Has(g, k) && ColumnOf(k) == c;
      if k.name in names {
        assert UsesIn(g, names, c);
      } else {
        assert k.name == name;
      }
    }
    if UsesIn(g, names, c) {
      var k: Key :| k.name in names && Has(g, k) && ColumnOf(k) == c;
      assert k.name in names + [name];
    }
    assert name in names + [name];
    match g.cells[name]
    case Scalar(v) =>
      assert Has(g, Plain(name));
    case List(vs) =>
      if j :| 0 <= j < |vs| && c == ColumnOf(Indexed(name, j)) {
        assert Has(g, Indexed(name, j)) && Indexed(name, j).name in names + [name];
      }
  }

  // ---- rows

  datatype Error = ValueError | IndexError

  /** The value at an index of a repeated name. As in Python, a negative one counts from the end. */
  function ListCell(g: Grouped, base: string, index: Option<int>): Result<Value, Error> {
    if index.None? then Err(ValueError)
    else if base in g.cells && g.cells[base].List? then
      var vs := g.cells[base].values;
      if index.value >= |vs| then Ok(BLANK)
      else if index.value >= 0 then Ok(vs[index.value])
      else if -index.value <= |vs| then Ok(vs[|vs| + index.value])
      else Err(IndexError)
    else Ok(BLANK)
  }

  /** The value the second pass puts under `col`; the error cases abort the export. */
  function CellAt(g: Grouped, col: string): Result<Value, Error> {
    if Bracketed(col) then ListCell(g, BaseOf(col), PyInt(IndexText(col)))
    else if col in g.cells then
      match g.cells[col]
      case Scalar(v) => Ok(v)
      case List(_) => Ok(BLANK)
    else Ok(BLANK)
  }

  /** The second pass reads every column back to exactly the value its key stands for. */
  lemma CellIsExpected(g: Grouped, k: Key)
    requires PlainOk(k)
    ensures CellAt(g, ColumnOf(k)) == Ok(Expected(g, k))
  {
    if k.Indexed? {
      IndexedColumnDecodes(k.name, k.index);
    }
  }

  /** A full row for event `e`, each cell what the second pass reads for its column. */
  ghost predicate RowFilled(row: seq<Value>, e: Event, g: Grouped, cols: seq<string>) {
    && |row| == 3 + |cols|
    && row[..3] == [Words(e.time), Words(e.endpoint), Words(e.kind)]
    && forall j :: 0 <= j < |cols| ==> Ok(row[3 + j]) == CellAt(g, cols[j])
  }

  method BuildRow(e: Event, g: Grouped, cols: seq<string>) returns (row: Result<seq<Value>, Error>)
    ensures row.Ok? <==> forall j :: 0 <= j < |cols| ==> CellAt(g, cols[j]).Ok?
    ensures row.Ok? ==> RowFilled(row.value, e, g, cols)
  {
    var r := [Words(e.time), Words(e.endpoint), Words(e.kind)];
    for j := 0 to |cols|
      invariant |r| == 3 + j && r[..3] == [Words(e.time), Words(e.endpoint), Words(e.kind)]
      invariant forall i :: 0 <= i < j ==> Ok(r[3 + i]) == CellAt(g, cols[i])
    {
      match CellAt(g, cols[j]) {
        case Ok(v) => r := r + [v];
        case Err(e) => return Err(e);
      }
    }
    return Ok(r);
  }

  // ---- the table

  datatype Table = Table(headers: seq<string>, rows: seq<seq<Value>>)

  /** No name that occurs once in some event looks like an indexed column. */
  ghost predicate NamesOk(events: seq<Event>) {
    forall i, name :: 0 <= i < |events| && |ValuesOf(events[i].resources, name)| == 1 ==> !Bracketed(name)
  }

  /** The value an event shows under a key, straight from its resources; None if it shows none. */
  function ShownUnder(e: Event, k: Key): Option<Value> {
    var vs := ValuesOf(e.resources, k.name);
    match k
    case Plain(_) => if |vs| == 1 then Some(vs[0]) else None
    case Indexed(_, index) => if |vs| >= 2 && index < |vs| then Some(vs[index]) else None
  }

  lemma ExpectedIsShown(g: Grouped, e: Event, k: Key)
    requires Groups(g, e.resources)
    ensures Has(g, k) <==> ShownUnder(e, k).Some?
    ensures Expected(g, k) == if ShownUnder(e, k).Some? then ShownUnder(e, k).value else BLANK
  {
  }

  ghost predicate SomeKey(events: seq<Event>, col: string, k: Key) {
    ColumnOf(k) == col && exists i :: 0 <= i < |events| && ShownUnder(events[i], k).Some?
  }

  /** Column `col` stands for a key that some event uses. */
  ghost predicate StandsForKey(events: seq<Event>, col: string) {
    exists k :: SomeKey(events, col, k)
  }

  ghost predicate HasColumn(t: Table, col: string) {
    exists j :: 3 <= j < |t.headers| && t.headers[j] == col
  }

  /** Cell `v` of the event's row is right for key `k`. */
  ghost predicate CellRight(e: Event, k: Key, v: Value) {
    v == if ShownUnder(e, k).Some? then ShownUnder(e, k).value else BLANK
  }

  /** The table says what the events say: a column for each key that occurs and no other, no column
      twice, full rows, and under every key the value the event shows there, or a blank. */
  ghost predicate Lossless(t: Table, events: seq<Event>) {
    && |t.headers| >= 3 && t.headers[..3] == ["Time", "Endpoint", "Event Type"]
    && NoDuplicates(t.headers[3..])
    && |t.rows| == |events|
    && (forall i :: 0 <= i < |events| ==>
          && |t.rows[i]| == |t.headers|
          && t.rows[i][..3] == [Words(events[i].time), Words(events[i].endpoint), Words(events[i].kind)])
    && (forall j :: 3 <= j < |t.headers| ==> StandsForKey(events, t.headers[j]))
    && (forall i, j, k :: 0 <= i < |events| && 3 <= j < |t.headers| && SomeKey(events, t.headers[j], k) ==>
          CellRight(events[i], k, t.rows[i][j]))
    && (forall i, k :: 0 <= i < |events| && ShownUnder(events[i], k).Some? ==> HasColumn(t, ColumnOf(k)))
  }

  ghost predicate AllGroup(gs: seq<Grouped>, events: seq<Event>) {
    |gs| == |events| && forall i :: 0 <= i < |gs| ==> Groups(gs[i], events[i].resources)
  }

  lemma ColumnHasKey(gs: seq<Grouped>, events: seq<Event>, col: string) returns (k: Key)
    requires AllGroup(gs, events) && NamesOk(events) && IsColumn(gs, col)
    ensures SomeKey(events, col, k) && PlainOk(k)
  {
    var i, l :| 0 <= i < |gs| && Has(gs[i], l) && ColumnOf(l) == col;
    k := l;
    ExpectedIsShown(gs[i], events[i], k);
  }

  lemma KeyIsColumn(gs: seq<Grouped>, events: seq<Event>, i: nat, k: Key)
    requires AllGroup(gs, events) && NamesOk(events) && i < |events| && ShownUnder(events[i], k).Some?
    ensures IsColumn(gs, ColumnOf(k)) && PlainOk(k)
  {
    ExpectedIsShown(gs[i], events[i], k);
  }

  /** Columns that an earlier event uses stand before those that only later ones use. */
  ghost predicate InOrder(cols: seq<string>, gs: seq<Grouped>) {
    forall n, x, y :: 0 <= n < |gs| && 0 <= x < |cols| && 0 <= y < |cols| ==>
      IsColumn(gs[..n], cols[x]) && !IsColumn(gs[..n], cols[y]) ==> x < y
  }

  lemma OrderOneMore(before: seq<string>, cols: seq<string>, gs: seq<Grouped>, g: Grouped)
    requires Columns(before, gs) && InOrder(before, gs) && before <= cols && NoDuplicates(cols)
    requires forall c :: c in cols ==> IsColumn(gs + [g], c)
    ensures InOrder(cols, gs + [g])
  {
    var more := gs + [g];
    forall n, x, y | 0 <= n < |more| && 0 <= x < |cols| && 0 <= y < |cols|
                     && IsColumn(more[..n], cols[x]) && !IsColumn(more[..n], cols[y])
      ensures x < y
    {
      assert more[..n] == gs[..n] && gs[..|gs|] == gs;
      PrefixColumn(gs, n, cols[x]);
      var z :| 0 <= z < |before| && before[z] == cols[x];
      assert cols[z] == cols[x] && z == x;
      if y < |before| {
        assert before[y] == cols[y] && IsColumn(gs, before[y]);
      }
    }
  }

  lemma PrefixColumn(gs: seq<Grouped>, n: nat, col: string)
    requires n <= |gs| && IsColumn(gs[..n], col)
    ensures IsColumn(gs, col)
  {
    var i, k :| 0 <= i < |gs[..n]| && Has(gs[..n][i], k) && ColumnOf(k) == col;
    assert Has(gs[i], k);
  }

  /** The first pass over all events. */
  method CollectColumns(events: seq<Event>) returns (gs: seq<Grouped>, cols: seq<string>)
    ensures AllGroup(gs, events) && Columns(cols, gs) && InOrder(cols, gs)
  {
    gs, cols := [], [];
    for i := 0 to |events|
      invariant AllGroup(gs, events[..i]) && Columns(cols, gs) && InOrder(cols, gs)
    {
      var g := Group(events[i].resources);
      ghost var before, colsBefore := gs, cols;
      cols := AddColumns(cols, g);
      gs := gs + [g];
      forall col ensures col in cols <==> IsColumn(gs, col) {
        ColumnsOneMore(before, g, col);
      }
      OrderOneMore(colsBefore, cols, before, g);
    }
    assert events[..|events|] == events;
  }

  lemma ColumnsOneMore(gs: seq<Grouped>, g: Grouped, col: string)
    requires forall name :: name in g.names <==> name in g.cells
    ensures IsColumn(gs + [g], col) <==> IsColumn(gs, col) || UsesIn(g, g.names, col)
  {
    if IsColumn(gs + [g], col) {
      var i, k :| 0 <= i < |gs + [g]| && Has((gs + [g])[i], k) && ColumnOf(k) == col;
      if i < |gs| {
        assert Has(gs[i], k);
      } else {
        assert UsesIn(g, g.names, col);
      }
    }
    if IsColumn(gs, col) {
      var i, k :| 0 <= i < |gs| && Has(gs[i], k) && ColumnOf(k) == col;
      assert Has((gs + [g])[i], k);
    }
    if UsesIn(g, g.names, col) {
      var k: Key :| k.name in g.names && Has(g, k) && ColumnOf(k) == col;
      assert Has((gs + [g])[|gs|], k);
    }
  }

  ghost predicate RowsFilled(rows: seq<seq<Value>>, events: seq<Event>, gs: seq<Grouped>, cols: seq<string>)
    requires |rows| <= |events| == |gs|
  {
    forall i :: 0 <= i < |rows| ==> RowFilled(rows[i], events[i], gs[i], cols)
  }

  lemma CellIsShown(events: seq<Event>, gs: seq<Grouped>, i: nat, col: string, k: Key, v: Value)
    requires AllGroup(gs, events) && NamesOk(events) && i < |events| && SomeKey(events, col, k)
    requires Ok(v) == CellAt(gs[i], col)
    ensures CellRight(events[i], k, v)
  {
    var n :| 0 <= n < |events| && ShownUnder(events[n], k).Some?;
    KeyIsColumn(gs, events, n, k);
    CellIsExpected(gs[i], k);
    ExpectedIsShown(gs[i], events[i], k);
  }

  lemma KeyHasColumn(events: seq<Event>, gs: seq<Grouped>, cols: seq<string>, i: nat, k: Key) returns (j: nat)
    requires AllGroup(gs, events) && Columns(cols, gs) && NamesOk(events) && i < |events| && ShownUnder(events[i], k).Some?
    ensures j < |cols| && cols[j] == ColumnOf(k)
  {
    KeyIsColumn(gs, events, i, k);
    assert ColumnOf(k) in cols;
    j :| j < |cols| && cols[j] == ColumnOf(k);
  }

  lemma TableIsLossless(t: Table, events: seq<Event>, gs: seq<Grouped>, cols: seq<string>)
    requires AllGroup(gs, events) && Columns(cols, gs) && NamesOk(events)
    requires t.headers == ["Time", "Endpoint", "Event Type"] + cols && |t.rows| == |events|
    requires RowsFilled(t.rows, events, gs, cols)
    ensures Lossless(t, events)
  {
    assert t.headers[3..] == cols;
    forall j | 3 <= j < |t.headers| ensures StandsForKey(events, t.headers[j]) {
      assert t.headers[j] == cols[j - 3] && cols[j - 3] in cols;
      var k := ColumnHasKey(gs, events, t.headers[j]);
      assert SomeKey(events, t.headers[j], k);
    }
    forall i, j, k | 0 <= i < |events| && 3 <= j < |t.headers| && SomeKey(events, t.headers[j], k)
      ensures CellRight(events[i], k, t.rows[i][j])
    {
      assert Ok(t.rows[i][3 + (j - 3)]) == CellAt(gs[i], cols[j - 3]);
      CellIsShown(events, gs, i, t.headers[j], k, t.rows[i][j]);
    }
    forall i, k | 0 <= i < |events| && ShownUnder(events[i], k).Some? ensures HasColumn(t, ColumnOf(k)) {
      var j := KeyHasColumn(events, gs, cols, i, k);
      assert t.headers[3 + j] == ColumnOf(k);
    }
  }

  /** The second pass: one row for each event, or the error of the first unreadable column. */
  method WriteRows(events: seq<Event>, gs: seq<Grouped>, cols: seq<string>) returns (rows: Result<seq<seq<Value>>, Error>)
    requires |gs| == |events|
    ensures rows.Ok? ==> |rows.value| == |events| && RowsFilled(rows.value, events, gs, cols)
    ensures !rows.Ok? ==> exists i, j :: 0 <= i < |gs| && 0 <= j < |cols| && !CellAt(gs[i], cols[j]).Ok?
  {
    var done: seq<seq<Value>> := [];
    for i := 0 to |events|
      invariant |done| == i && RowsFilled(done, events, gs, cols)
    {
      var row := BuildRow(events[i], gs[i], cols);
      match row {
        case Ok(r) => done := done + [r];
        case Err(e) => return Err(e);
      }
    }
    return Ok(done);
  }

  // ---- the export as a whole

  /** The dictionary of an event. */
  ghost function Dict(rs: seq<Resource>): Grouped {
    Grouped(NamesOf(rs), map name | name in NamesOf(rs) && ValuesOf(rs, name) != [] :: CellOf(ValuesOf(rs, name)))
  }

  lemma GroupsIsDict(g: Grouped, rs: seq<Resource>)
    requires Groups(g, rs)
    ensures g == Dict(rs)
  {
    assert g.cells == Dict(rs).cells;
  }

  lemma {:induction false} DictGroups(rs: seq<Resource>)
    ensures Groups(Dict(rs), rs)
  {
    if rs != [] {
      var n := |rs| - 1;
      DictGroups(rs[..n]);
      AddedGroups(Dict(rs[..n]), rs[..n], rs[n]);
      assert rs == rs[..n] + [rs[n]];
      GroupsIsDict(Added(Dict(rs[..n]), rs[n]), rs);
    }
  }

  /** The second pass can read every column in every event. */
  ghost predicate AllReadable(events: seq<Event>) {
    forall i, col :: 0 <= i < |events| && StandsForKey(events, col) ==> CellAt(Dict(events[i].resources), col).Ok?
  }

  /** A table as the two passes make it, whatever the names are. */
  ghost predicate Filled(t: Table, events: seq<Event>) {
    && |t.headers| >= 3 && t.headers[..3] == ["Time", "Endpoint", "Event Type"]
    && NoDuplicates(t.headers[3..])
    && (forall col :: col in t.headers[3..] <==> StandsForKey(events, col))
    && |t.rows| == |events|
    && forall i :: 0 <= i < |events| ==> RowFilled(t.rows[i], events[i], Dict(events[i].resources), t.headers[3..])
  }

  /** What the export of these events may return. */
  ghost predicate IsExport(t: Result<Table, Error>, events: seq<Event>) {
    if AllReadable(events) then t.Ok? && Filled(t.value, events) else !t.Ok?
  }

  lemma ColumnIsKey(gs: seq<Grouped>, events: seq<Event>, col: string)
    requires AllGroup(gs, events)
    ensures IsColumn(gs, col) <==> StandsForKey(events, col)
  {
    if IsColumn(gs, col) {
      var i, k :| 0 <= i < |gs| && Has(gs[i], k) && ColumnOf(k) == col;
      ExpectedIsShown(gs[i], events[i], k);
      assert SomeKey(events, col, k);
    }
    if StandsForKey(events, col) {
      var k :| SomeKey(events, col, k);
      var i :| 0 <= i < |events| && ShownUnder(events[i], k).Some?;
      ExpectedIsShown(gs[i], events[i], k);
      assert Has(gs[i], k);
    }
  }

  /** The export of a list of events. It aborts exactly when some column cannot be read. */
  method Export(events: seq<Event>) returns (t: Result<Table, Error>)
    ensures IsExport(t, events)
    ensures NamesOk(events) ==> t.Ok? && Lossless(t.value, events)
  {
    var gs, cols := CollectColumns(events);
    forall i | 0 <= i < |gs| ensures gs[i] == Dict(events[i].resources) {
      GroupsIsDict(gs[i], events[i].resources);
    }
    forall col ensures col in cols <==> StandsForKey(events, col) {
      ColumnIsKey(gs, events, col);
    }
    var rows := WriteRows(events, gs, cols);
    match rows {
      case Err(e) => t := Err(e);
      case Ok(r) => t := Ok(Table(["Time", "Endpoint", "Event Type"] + cols, r));
    }
    if rows.Ok? {
      assert t.value.headers[3..] == cols;
      forall i, col | 0 <= i < |events| && StandsForKey(events, col) ensures CellAt(gs[i], col).Ok? {
        var j :| 0 <= j < |cols| && cols[j] == col;
        assert Ok(rows.value[i][3 + j]) == CellAt(gs[i], cols[j]);
      }
    } else {
      var i, j :| 0 <= i < |gs| && 0 <= j < |cols| && !CellAt(gs[i], cols[j]).Ok?;
      assert cols[j] in cols && StandsForKey(events, cols[j]);
    }
    if NamesOk(events) {
      ExportIsLossless(t, events);
    }
  }

  /** Without bracketed once-only names, what the export returns is lossless. */
  lemma ExportIsLossless(t: Result<Table, Error>, events: seq<Event>)
    requires NamesOk(events) && IsExport(t, events)
    ensures t.Ok? && Lossless(t.value, events)
  {
    var gs := Dicts(events);
    forall i, col | 0 <= i < |events| && StandsForKey(events, col) ensures CellAt(gs[i], col).Ok? {
      ColumnIsKey(gs, events, col);
      var k := ColumnHasKey(gs, events, col);
      CellIsExpected(gs[i], k);
    }
    assert AllReadable(events);
    var cols := t.value.headers[3..];
    forall col ensures col in cols <==> IsColumn(gs, col) {
      ColumnIsKey(gs, events, col);
    }
    assert t.value.headers == t.value.headers[..3] + cols;
    TableIsLossless(t.value, events, gs, cols);
  }

  ghost function Dicts(events: seq<Event>): (gs: seq<Grouped>)
    ensures AllGroup(gs, events)
    ensures forall i :: 0 <= i < |gs| ==> gs[i] == Dict(events[i].resources)
  {
    forall i | 0 <= i < |events| ensures Groups(Dict(events[i].resources), events[i].resources) {
      DictGroups(events[i].resources);
    }
    seq(|events|, i requires 0 <= i < |events| => Dict(events[i].resources))
  }

  // ---- when the export aborts

  predicate OnceOnly(e: Event, name: string) {
    |ValuesOf(e.resources, name)| == 1
  }

  /** The text in the brackets of `name` is a whole number, and if it is negative, it does not reach
      back beyond the list that the event may have under the base name. */
  predicate IndexFits(e: Event, name: string)
    requires Bracketed(name)
  {
    var index, values := PyInt(IndexText(name)), ValuesOf(e.resources, BaseOf(name));
    index.Some? && (|values| >= 2 ==> -index.value <= |values|)
  }

  /** What the second pass reads under a bracketed name, from the values of its base name. */
  function ReadFrom(values: seq<Value>, index: Option<int>): Result<Value, Error> {
    if index.None? then Err(ValueError)
    else if |values| < 2 || index.value >= |values| then Ok(BLANK)
    else if index.value >= 0 then Ok(values[index.value])
    else if -index.value <= |values| then Ok(values[|values| + index.value])
    else Err(IndexError)
  }

  lemma DictCell(rs: seq<Resource>, name: string)
    ensures name in Dict(rs).cells <==> ValuesOf(rs, name) != []
    ensures name in Dict(rs).cells ==> Dict(rs).cells[name] == CellOf(ValuesOf(rs, name))
  {
    DictGroups(rs);
  }

  lemma ReadsFrom(g: Grouped, base: string, values: seq<Value>, index: Option<int>)
    requires base in g.cells <==> values != []
    requires base in g.cells ==> g.cells[base] == CellOf(values)
    ensures ListCell(g, base, index) == ReadFrom(values, index)
  {
  }

  lemma BracketedCell(rs: seq<Resource>, name: string)
    requires Bracketed(name)
    ensures CellAt(Dict(rs), name) == ReadFrom(ValuesOf(rs, BaseOf(name)), PyInt(IndexText(name)))
  {
    DictCell(rs, BaseOf(name));
    ReadsFrom(Dict(rs), BaseOf(name), ValuesOf(rs, BaseOf(name)), PyInt(IndexText(name)));
  }

  lemma PlainReadable(e: Event, name: string)
    requires Bracketed(name)
    ensures CellAt(Dict(e.resources), name).Ok? <==> IndexFits(e, name)
  {
    BracketedCell(e.resources, name);
  }

  /** The export goes through if and only if the brackets of every bracketed name that occurs once
      in some event hold an index that fits every event. */
  lemma ReadableExactly(events: seq<Event>)
    ensures AllReadable(events) <==>
            forall i, n, name :: 0 <= i < |events| && 0 <= n < |events| && OnceOnly(events[n], name) && Bracketed(name) ==>
              IndexFits(events[i], name)
  {
    if AllReadable(events) {
      forall i, n, name | 0 <= i < |events| && 0 <= n < |events| && OnceOnly(events[n], name) && Bracketed(name)
        ensures IndexFits(events[i], name)
      {
        assert ShownUnder(events[n], Plain(name)).Some?;
        assert SomeKey(events, name, Plain(name)) && StandsForKey(events, name);
        PlainReadable(events[i], name);
      }
    } else {
      var i, col :| 0 <= i < |events| && StandsForKey(events, col) && !CellAt(Dict(events[i].resources), col).Ok?;
      var k :| SomeKey(events, col, k);
      var n :| 0 <= n < |events| && ShownUnder(events[n], k).Some?;
      if PlainOk(k) {
        CellIsExpected(Dict(events[i].resources), k);
      } else {
        PlainReadable(events[i], k.name);
        assert OnceOnly(events[n], k.name);
      }
    }
  }

  // ---- when the export loses something

  /** Event `i` shows a bracketed name once, and the second pass reads something else there. */
  ghost predicate ReadsElsewhere(events: seq<Event>, i: nat, name: string) {
    && i < |events| && OnceOnly(events[i], name) && Bracketed(name)
    && CellAt(Dict(events[i].resources), name) != Ok(ValuesOf(events[i].resources, name)[0])
  }

  /** Then no table that the export can make is lossless. */
  lemma ElsewhereIsLost(t: Table, events: seq<Event>, i: nat, name: string)
    requires Filled(t, events) && ReadsElsewhere(events, i, name)
    ensures !Lossless(t, events)
  {
    var k, cols := Plain(name), t.headers[3..];
    assert ShownUnder(events[i], k) == Some(ValuesOf(events[i].resources, name)[0]);
    assert SomeKey(events, name, k) && StandsForKey(events, name);
    var j :| 0 <= j < |cols| && cols[j] == name;
    assert t.headers[3 + j] == name;
    assert Ok(t.rows[i][3 + j]) == CellAt(Dict(events[i].resources), name);
    assert !CellRight(events[i], k, t.rows[i][3 + j]);
  }

  /** The same resource names and data types, with whatever values. */
  ghost predicate SameNames(events: seq<Event>, others: seq<Event>) {
    && |events| == |others|
    && forall i :: 0 <= i < |events| ==> NamesAlike(events[i].resources, others[i].resources)
  }

  predicate NamesAlike(rs: seq<Resource>, qs: seq<Resource>) {
    |rs| == |qs| && forall j :: 0 <= j < |rs| ==> rs[j].name == qs[j].name && rs[j].dataType == qs[j].dataType
  }

  lemma {:induction false} NamesAlikeCount(rs: seq<Resource>, qs: seq<Resource>, name: string)
    requires NamesAlike(rs, qs)
    ensures |ValuesOf(rs, name)| == |ValuesOf(qs, name)|
  {
    if rs != [] {
      NamesAlikeCount(rs[..|rs| - 1], qs[..|qs| - 1], name);
    }
  }

  lemma SameNamesOk(events: seq<Event>, others: seq<Event>)
    requires SameNames(events, others) && NamesOk(events)
    ensures NamesOk(others)
  {
    forall i, name | 0 <= i < |others| && |ValuesOf(others[i].resources, name)| == 1 ensures !Bracketed(name) {
      NamesAlikeCount(events[i].resources, others[i].resources, name);
    }
  }

  /** The value is missing, or one that the column of the data type can hold. */
  predicate Typed(r: Resource) {
    r.value.Null? ||
    match r.dataType
    case STRING => r.value.Words?
    case FLOAT => r.value.Decimals?
    case OPAQUE => false
    case _ => r.value.Number?
  }

  ghost predicate AllTyped(events: seq<Event>) {
    forall i, j :: 0 <= i < |events| && 0 <= j < |events[i].resources| ==> Typed(events[i].resources[j])
  }

  /** Two values that a resource of this type can have, and that show differently. */
  function Variant(r: Resource, second: bool): Resource {
    match r.dataType
    case STRING => r.(value := Words(if second then "1" else "0"))
    case FLOAT => r.(value := Decimals(if second then 1.0 else 0.0))
    case OPAQUE => r.(size := if second then Some(0) else None)
    case _ => r.(value := Number(if second then 1 else 0))
  }

  lemma VariantsDiffer(r: Resource)
    ensures Shown(Variant(r, false)) != Shown(Variant(r, true))
  {
    if r.dataType == OPAQUE {
      assert Decimal(0) == "0";
      assert ("<raw: " + "0" + " bytes>")[6] == '0' && "<raw: N/A>"[6] == 'N';
    }
  }

  /** Every resource of this name replaced by a variant. */
  function Varied(rs: seq<Resource>, name: string, second: bool): seq<Resource> {
    seq(|rs|, j requires 0 <= j < |rs| => if rs[j].name == name then Variant(rs[j], second) else rs[j])
  }

  lemma {:induction false} VariedValues(rs: seq<Resource>, name: string, second: bool, other: string)
    ensures |ValuesOf(Varied(rs, name, second), other)| == |ValuesOf(rs, other)|
    ensures other != name ==> ValuesOf(Varied(rs, name, second), other) == ValuesOf(rs, other)
  {
    if rs != [] {
      var n := |rs| - 1;
      VariedValues(rs[..n], name, second, other);
      assert Varied(rs, name, second)[..n] == Varied(rs[..n], name, second);
    }
  }

  lemma VariedOneMore(rs: seq<Resource>, name: string, second: bool)
    requires rs != []
    ensures var n := |rs| - 1;
            ValuesOf(Varied(rs, name, second), name) ==
            ValuesOf(Varied(rs[..n], name, second), name) + if rs[n].name == name then [Shown(Variant(rs[n], second))] else []
  {
    var n, qs := |rs| - 1, Varied(rs, name, second);
    assert qs[..n] == Varied(rs[..n], name, second);
    assert qs[n].name == rs[n].name;
  }

  lemma {:induction false} VariantsShowDifferently(rs: seq<Resource>, name: string)
    requires |ValuesOf(rs, name)| == 1
    ensures |ValuesOf(Varied(rs, name, false), name)| == |ValuesOf(Varied(rs, name, true), name)| == 1
    ensures ValuesOf(Varied(rs, name, false), name)[0] != ValuesOf(Varied(rs, name, true), name)[0]
  {
    var n := |rs| - 1;
    VariedOneMore(rs, name, false);
    VariedOneMore(rs, name, true);
    if rs[n].name == name {
      VariedValues(rs[..n], name, false, name);
      VariedValues(rs[..n], name, true, name);
      VariantsDiffer(rs[n]);
    } else {
      VariantsShowDifferently(rs[..n], name);
    }
  }

  /** What is read under a bracketed name does not depend on the value the event shows there. */
  lemma ReadIgnoresOwnValue(rs: seq<Resource>, name: string, second: bool)
    requires Bracketed(name)
    ensures CellAt(Dict(Varied(rs, name, second)), name) == CellAt(Dict(rs), name)
  {
    BracketedCell(rs, name);
    BracketedCell(Varied(rs, name, second), name);
    assert |BaseOf(name)| < |name|;
    VariedValues(rs, name, second, BaseOf(name));
  }

  /** So one of two values of a bracketed once-only name is read as something else. */
  lemma OneVariantIsLost(rs: seq<Resource>, name: string) returns (second: bool)
    requires |ValuesOf(rs, name)| == 1 && Bracketed(name)
    ensures var values := ValuesOf(Varied(rs, name, second), name);
            |values| == 1 && CellAt(Dict(Varied(rs, name, second)), name) != Ok(values[0])
  {
    VariantsShowDifferently(rs, name);
    ReadIgnoresOwnValue(rs, name, false);
    ReadIgnoresOwnValue(rs, name, true);
    second := CellAt(Dict(rs), name) == Ok(ValuesOf(Varied(rs, name, false), name)[0]);
  }

  lemma VariedAlike(rs: seq<Resource>, name: string, second: bool)
    ensures NamesAlike(rs, Varied(rs, name, second))
    ensures (forall j :: 0 <= j < |rs| ==> Typed(rs[j])) ==>
              forall j :: 0 <= j < |rs| ==> Typed(Varied(rs, name, second)[j])
  {
  }

  lemma ReplacedAlike(events: seq<Event>, i: nat, qs: seq<Resource>) returns (others: seq<Event>)
    requires i < |events| && NamesAlike(events[i].resources, qs)
    ensures SameNames(events, others) && others[i].resources == qs
    ensures AllTyped(events) && (forall j :: 0 <= j < |qs| ==> Typed(qs[j])) ==> AllTyped(others)
  {
    others := events[i := events[i].(resources := qs)];
  }

  lemma SomeValueIsLost(events: seq<Event>, i: nat, name: string) returns (others: seq<Event>)
    requires i < |events| && OnceOnly(events[i], name) && Bracketed(name)
    ensures SameNames(events, others) && ReadsElsewhere(others, i, name)
    ensures AllTyped(events) ==> AllTyped(others)
  {
    var second := OneVariantIsLost(events[i].resources, name);
    VariedAlike(events[i].resources, name, second);
    others := ReplacedAlike(events, i, Varied(events[i].resources, name, second));
  }

  /** Every export of these events goes through and is lossless. */
  ghost predicate ExportsLosslessly(events: seq<Event>) {
    forall t :: IsExport(t, events) ==> t.Ok? && Lossless(t.value, events)
  }

  /** The same events with all values missing. */
  lemma Blanked(events: seq<Event>) returns (others: seq<Event>)
    ensures SameNames(events, others) && AllTyped(others)
  {
    others := seq(|events|, i requires 0 <= i < |events| => events[i].(resources := WithoutValues(events[i].resources)));
  }

  function WithoutValues(rs: seq<Resource>): (qs: seq<Resource>)
    ensures NamesAlike(rs, qs) && forall j :: 0 <= j < |qs| ==> Typed(qs[j])
  {
    seq(|rs|, j requires 0 <= j < |rs| => rs[j].(value := Null))
  }

  /** Every export goes through and is lossless, whatever values of the same types these events hold. */
  ghost predicate AlwaysLossless(events: seq<Event>) {
    forall others :: SameNames(events, others) && AllTyped(others) ==> ExportsLosslessly(others)
  }

  /** For given resource names and data types, the export is lossless whatever values of these types
      the events hold if and only if no name that occurs once in some event is bracketed. */
  lemma LosslessExactly(events: seq<Event>)
    ensures AlwaysLossless(events) <==> NamesOk(events)
  {
    if NamesOk(events) {
      forall others, t | SameNames(events, others) && AllTyped(others) && IsExport(t, others)
        ensures t.Ok? && Lossless(t.value, others)
      {
        SameNamesOk(events, others);
        ExportIsLossless(t, others);
      }
    } else {
      var i, name :| 0 <= i < |events| && |ValuesOf(events[i].resources, name)| == 1 && Bracketed(name);
      var blank := Blanked(events);
      NamesAlikeCount(events[i].resources, blank[i].resources, name);
      var others := SomeValueIsLost(blank, i, name);
      LossyExport(others, i, name);
      assert SameNames(events, others);
    }
  }

  lemma LossyExport(events: seq<Event>, i: nat, name: string)
    requires ReadsElsewhere(events, i, name)
    ensures !ExportsLosslessly(events)
  {
    var t := SomeExport(events);
    if t.Ok? {
      ElsewhereIsLost(t.value, events, i, name);
    }
  }

  /** No once-only name but `name` is bracketed. */
  ghost predicate OthersOk(events: seq<Event>, name: string) {
    forall i, other :: 0 <= i < |events| && OnceOnly(events[i], other) && Bracketed(other) ==> other == name
  }

  /** Row `i` shows `v` under the header `col`. */
  ghost predicate ShowsAt(t: Table, i: nat, col: string, v: Value) {
    && i < |t.rows| && |t.rows[i]| == |t.headers|
    && exists j :: 3 <= j < |t.headers| && t.headers[j] == col && t.rows[i][j] == v
  }

  /** Event `i` shows `name` once, and the export has that value under that header. */
  ghost predicate ShowsOwn(t: Result<Table, Error>, events: seq<Event>, i: nat, name: string)
    requires i < |events| && OnceOnly(events[i], name)
  {
    t.Ok? && ShowsAt(t.value, i, name, ValuesOf(events[i].resources, name)[0])
  }

  lemma ShownIsRead(t: Table, events: seq<Event>, i: nat, col: string, v: Value)
    requires Filled(t, events) && i < |events| && ShowsAt(t, i, col, v)
    ensures CellAt(Dict(events[i].resources), col) == Ok(v)
  {
    var j :| 3 <= j < |t.headers| && t.headers[j] == col && t.rows[i][j] == v;
    assert t.headers[3..][j - 3] == col && t.rows[i][3 + (j - 3)] == v;
  }

  lemma ElsewhereNotShown(t: Result<Table, Error>, events: seq<Event>, i: nat, name: string)
    requires IsExport(t, events) && ReadsElsewhere(events, i, name)
    ensures !ShowsOwn(t, events, i, name)
  {
    forall v | t.Ok? && ShowsAt(t.value, i, name, v) ensures CellAt(Dict(events[i].resources), name) == Ok(v) {
      ShownIsRead(t.value, events, i, name, v);
    }
  }

  /** A name is exported under itself wherever it occurs once, in all exports whose other once-only
      names are not bracketed, if and only if it is not bracketed itself. */
  lemma ScalarExportedExactly(name: string)
    ensures (forall events, t, i: nat ::
               OthersOk(events, name) && IsExport(t, events) && i < |events| && OnceOnly(events[i], name) ==>
               ShowsOwn(t, events, i, name))
            <==> !Bracketed(name)
  {
    if Bracketed(name) {
      var events := [Event("", "", "", [Resource(name, INTEGER, Null, None)])];
      assert OnceOnly(events[0], name) by {
        assert events[0].resources[..0] == [];
      }
      var others := SomeValueIsLost(events, 0, name);
      var t := SomeExport(others);
      OnlyName(others, name);
      ElsewhereNotShown(t, others, 0, name);
    } else {
      forall events, t, i: nat | OthersOk(events, name) && IsExport(t, events) && i < |events| && OnceOnly(events[i], name)
        ensures ShowsOwn(t, events, i, name)
      {
        ExportIsLossless(t, events);
        assert ShownUnder(events[i], Plain(name)).Some?;
        assert HasColumn(t.value, ColumnOf(Plain(name)));
        var j :| 3 <= j < |t.value.headers| && t.value.headers[j] == name;
        assert SomeKey(events, t.value.headers[j], Plain(name));
        assert CellRight(events[i], Plain(name), t.value.rows[i][j]);
      }
    }
  }

  lemma OnlyName(events: seq<Event>, name: string)
    requires |events| == 1 && |events[0].resources| == 1 && events[0].resources[0].name == name
    ensures OthersOk(events, name)
  {
    forall other | OnceOnly(events[0], other) ensures other == name {
      var j := NameOccurs(events[0].resources, other);
    }
  }

  // ---- what a lossless table holds, resource by resource

  /** The text or value that resource `r` has in the table. */
  predicate ShownAs(r: Resource, v: Value) {
    && (r.dataType != OPAQUE ==> v == r.value)
    && (r.dataType == OPAQUE && r.size.None? ==> v == Words("<raw: N/A>"))
    && (r.dataType == OPAQUE && r.size.Some? ==> v == Words("<raw: " + Decimal(r.size.value) + " bytes>"))
  }

  lemma ShownIsShownAs(r: Resource)
    ensures ShownAs(r, Shown(r))
  {
  }

  /** The positions before `j` that hold a resource named `name`. */
  function Earlier(rs: seq<Resource>, name: string, j: nat): set<nat>
    requires j <= |rs|
  {
    set p | 0 <= p < j && rs[p].name == name
  }

  /** Position `j` holds the only resource of its name. */
  predicate Only(rs: seq<Resource>, j: nat) {
    j < |rs| && forall p :: 0 <= p < |rs| && rs[p].name == rs[j].name ==> p == j
  }

  lemma {:induction false} ValuesCount(rs: seq<Resource>, name: string)
    ensures |ValuesOf(rs, name)| == |Earlier(rs, name, |rs|)|
  {
    if rs != [] {
      var n := |rs| - 1;
      ValuesCount(rs[..n], name);
      assert Earlier(rs[..n], name, n) == Earlier(rs, name, n);
      assert Earlier(rs, name, |rs|) == Earlier(rs, name, n) + if rs[n].name == name then {n} else {};
    }
  }

  /** The value of the resource at `j` has its place among the values of the name. */
  lemma {:induction false} ValueAt(rs: seq<Resource>, j: nat)
    requires j < |rs|
    ensures var k := |Earlier(rs, rs[j].name, j)|;
            k < |ValuesOf(rs, rs[j].name)| && ValuesOf(rs, rs[j].name)[k] == Shown(rs[j])
  {
    var n, name := |rs| - 1, rs[j].name;
    if j == n {
      ValuesCount(rs[..n], name);
      assert Earlier(rs[..n], name, n) == Earlier(rs, name, n);
    } else {
      ValueAt(rs[..n], j);
      assert Earlier(rs[..n], name, j) == Earlier(rs, name, j);
    }
  }

  lemma OnlyMeansOnce(rs: seq<Resource>, j: nat)
    requires j < |rs|
    ensures |ValuesOf(rs, rs[j].name)| >= 1
    ensures |ValuesOf(rs, rs[j].name)| == 1 <==> Only(rs, j)
  {
    var all := Earlier(rs, rs[j].name, |rs|);
    ValuesCount(rs, rs[j].name);
    assert j in all;
    if Only(rs, j) {
      assert all == {j};
    } else {
      var p :| 0 <= p < |rs| && rs[p].name == rs[j].name && p != j;
      assert {p, j} <= all;
      assert |all - {p, j}| == |all| - 2;
    }
  }

  /** Under the key of a shown value, every lossless table has that value. */
  lemma LosslessCell(t: Table, events: seq<Event>, i: nat, k: Key) returns (col: nat)
    requires Lossless(t, events) && i < |events| && ShownUnder(events[i], k).Some?
    ensures 3 <= col < |t.headers| && t.headers[col] == ColumnOf(k)
    ensures |t.rows| == |events| && |t.rows[i]| == |t.headers| && t.rows[i][col] == ShownUnder(events[i], k).value
  {
    assert HasColumn(t, ColumnOf(k));
    col :| 3 <= col < |t.headers| && t.headers[col] == ColumnOf(k);
    assert SomeKey(events, t.headers[col], k);
    assert CellRight(events[i], k, t.rows[i][col]);
  }

  /** The only resource of a name in its event is found under that name, with its own value, or with
      its size if it is opaque. */
  lemma OnlyResourceExported(t: Table, events: seq<Event>, i: nat, j: nat) returns (col: nat)
    requires Lossless(t, events) && i < |events| && Only(events[i].resources, j)
    ensures 3 <= col < |t.headers| && t.headers[col] == events[i].resources[j].name
    ensures |t.rows| == |events| && |t.rows[i]| == |t.headers| && ShownAs(events[i].resources[j], t.rows[i][col])
  {
    var rs := events[i].resources;
    OnlyMeansOnce(rs, j);
    ValueAt(rs, j);
    ShownIsShownAs(rs[j]);
    col := LosslessCell(t, events, i, Plain(rs[j].name));
  }

  /** Each resource of a repeated name is found under the name and its place among them, counted
      from 0 in the order of the event. */
  lemma RepeatedResourceExported(t: Table, events: seq<Event>, i: nat, j: nat) returns (col: nat)
    requires Lossless(t, events) && i < |events| && j < |events[i].resources| && !Only(events[i].resources, j)
    ensures 3 <= col < |t.headers|
    ensures var rs := events[i].resources;
            t.headers[col] == rs[j].name + "[" + Decimal(|Earlier(rs, rs[j].name, j)|) + "]"
    ensures |t.rows| == |events| && |t.rows[i]| == |t.headers| && ShownAs(events[i].resources[j], t.rows[i][col])
  {
    var rs := events[i].resources;
    OnlyMeansOnce(rs, j);
    ValueAt(rs, j);
    ShownIsShownAs(rs[j]);
    col := LosslessCell(t, events, i, Indexed(rs[j].name, |Earlier(rs, rs[j].name, j)|));
  }

  /** Under an unbracketed header, an event without a resource of that name, or with several, has a
      blank. */
  lemma AbsentIsBlank(t: Table, events: seq<Event>, i: nat, col: nat)
    requires Lossless(t, events) && i < |events| && 3 <= col < |t.headers| && !Bracketed(t.headers[col])
    requires forall j :: 0 <= j < |events[i].resources| && events[i].resources[j].name == t.headers[col] ==>
               !Only(events[i].resources, j)
    ensures |t.rows| == |events| && |t.rows[i]| == |t.headers| && t.rows[i][col] == Words("")
  {
    var name, rs := t.headers[col], events[i].resources;
    assert StandsForKey(events, name);
    var k :| SomeKey(events, name, k);
    if k.Indexed? {
      IndexedColumnDecodes(k.name, k.index);
    }
    assert k == Plain(name);
    if |ValuesOf(rs, name)| == 1 {
      var j := NameOccurs(rs, name);
      OnlyMeansOnce(rs, j);
    }
    assert CellRight(events[i], k, t.rows[i][col]);
  }

  lemma KeyOfIndexed(events: seq<Event>, key: Key, name: string, k: nat)
    requires NamesOk(events) && SomeKey(events, ColumnOf(Indexed(name, k)), key)
    ensures key == Indexed(name, k)
  {
    assert PlainOk(key);
    ColumnsInjective(key, Indexed(name, k));
  }

  /** Under an indexed header, an event with fewer resources of the name, or with only one, has a blank. */
  lemma AbsentIndexIsBlank(t: Table, events: seq<Event>, i: nat, col: nat, name: string, k: nat)
    requires Lossless(t, events) && NamesOk(events) && i < |events| && 3 <= col < |t.headers|
    requires t.headers[col] == name + "[" + Decimal(k) + "]"
    requires var n := |Earlier(events[i].resources, name, |events[i].resources|)|; n <= 1 || n <= k
    ensures |t.rows| == |events| && |t.rows[i]| == |t.headers| && t.rows[i][col] == Words("")
  {
    assert t.headers[col] == ColumnOf(Indexed(name, k));
    assert StandsForKey(events, t.headers[col]);
    var key :| SomeKey(events, t.headers[col], key);
    KeyOfIndexed(events, key, name, k);
    ValuesCount(events[i].resources, name);
    assert CellRight(events[i], key, t.rows[i][col]);
  }

  /** The grouping of one event, resource by resource. */
  lemma GroupedResource(g: Grouped, rs: seq<Resource>, j: nat)
    requires Groups(g, rs) && j < |rs|
    ensures rs[j].name in g.cells
    ensures match g.cells[rs[j].name]
            case Scalar(v) => Only(rs, j) && ShownAs(rs[j], v)
            case List(vs) =>
              var k := |Earlier(rs, rs[j].name, j)|;
              !Only(rs, j) && |vs| == |Earlier(rs, rs[j].name, |rs|)| && k < |vs| && ShownAs(rs[j], vs[k])
  {
    OnlyMeansOnce(rs, j);
    ValueAt(rs, j);
    ValuesCount(rs, rs[j].name);
    ShownIsShownAs(rs[j]);
  }

  // ---- there is always an export

  lemma {:induction false} NameOccurs(rs: seq<Resource>, name: string) returns (j: nat)
    requires ValuesOf(rs, name) != []
    ensures j < |rs| && rs[j].name == name
  {
    j := |rs| - 1;
    if rs[j].name != name {
      j := NameOccurs(rs[..j], name);
    }
  }

  /** The keys event `e` uses. */
  function KeysOf(e: Event): set<Key> {
    (set j | 0 <= j < |e.resources| && ShownUnder(e, Plain(e.resources[j].name)).Some? :: Plain(e.resources[j].name)) +
    (set j, x | 0 <= j < |e.resources| && 0 <= x < |ValuesOf(e.resources, e.resources[j].name)|
                && ShownUnder(e, Indexed(e.resources[j].name, x)).Some? :: Indexed(e.resources[j].name, x))
  }

  lemma KeysOfAll(e: Event, k: Key)
    ensures k in KeysOf(e) <==> ShownUnder(e, k).Some?
  {
    if ShownUnder(e, k).Some? {
      var j := NameOccurs(e.resources, k.name);
    }
  }

  lemma ListedOnce(s: set<string>) returns (q: seq<string>)
    ensures NoDuplicates(q) && forall c :: c in q <==> c in s
  {
    q := [];
    if c :| c in s {
      var rest := ListedOnce(s - {c});
      q := rest + [c];
    }
  }

  lemma SomeColumns(events: seq<Event>) returns (cols: seq<string>)
    ensures NoDuplicates(cols) && forall col :: col in cols <==> StandsForKey(events, col)
  {
    var all := set i, k | 0 <= i < |events| && k in KeysOf(events[i]) :: ColumnOf(k);
    cols := ListedOnce(all);
    forall col ensures col in cols <==> StandsForKey(events, col) {
      if col in all {
        var i, k :| 0 <= i < |events| && k in KeysOf(events[i]) && ColumnOf(k) == col;
        KeysOfAll(events[i], k);
        assert SomeKey(events, col, k);
      }
      if StandsForKey(events, col) {
        var k :| SomeKey(events, col, k);
        var i :| 0 <= i < |events| && ShownUnder(events[i], k).Some?;
        KeysOfAll(events[i], k);
      }
    }
  }

  lemma SomeExport(events: seq<Event>) returns (t: Result<Table, Error>)
    ensures IsExport(t, events)
  {
    t := Err(ValueError);
    if AllReadable(events) {
      var cols := SomeColumns(events);
      var rows: seq<seq<Value>> := [];
      for i := 0 to |events|
        invariant |rows| == i
        invariant forall n :: 0 <= n < i ==> RowFilled(rows[n], events[n], Dict(events[n].resources), cols)
      {
        var e, g := events[i], Dict(events[i].resources);
        forall j | 0 <= j < |cols| ensures CellAt(g, cols[j]).Ok? {
          assert cols[j] in cols;
        }
        rows := rows + [[Words(e.time), Words(e.endpoint), Words(e.kind)] +
                        seq(|cols|, j requires 0 <= j < |cols| => CellAt(g, cols[j]).value)];
      }
      t := Ok(Table(["Time", "Endpoint", "Event Type"] + cols, rows));
      assert t.value.headers[3..] == cols;
    }
  }
}
