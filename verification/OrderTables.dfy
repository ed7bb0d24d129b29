// Ordering table rows by several columns (service/tabulate.go): one stable sort by all the keys, against one stable
// sort for each key from the last to the first.
module OrderTables {
  import opened Paths
  import opened Sorting

  /* ---- one order and then another ---- */

  function Lex<T>(first: (T, T) -> bool, second: (T, T) -> bool): (T, T) -> bool {
    (x: T, y: T) => first(x, y) || (!first(y, x) && second(x, y))
  }

  lemma LexIsWeak<T(!new)>(first: (T, T) -> bool, second: (T, T) -> bool)
    requires StrictWeak(first) && StrictWeak(second)
    ensures StrictWeak(Lex(first, second))
  {
    var less := Lex(first, second);
    forall x, y, z ensures less(x, z) ==> less(x, y) || less(y, z) {
      if less(x, z) {
        assert first(x, z) ==> first(x, y) || first(y, z);
        assert first(y, x) ==> first(y, z) || first(z, x);
        assert first(z, y) ==> first(z, x) || first(x, y);
        assert second(x, z) ==> second(x, y) || second(y, z);
      }
    }
    forall x, y ensures less(x, y) ==> !less(y, x) {
    }
  }

  lemma {:induction false} ClassTwice<T(!new)>(first: (T, T) -> bool, second: (T, T) -> bool, c: T, s: seq<T>)
    ensures Class(second, c, Class(first, c, s)) == Class(Lex(first, second), c, s)
    ensures Class(first, c, Class(second, c, s)) == Class(Lex(first, second), c, s)
  {
    if s != [] {
      ClassTwice(first, second, c, s[1..]);
      assert ([s[0]] + Class(first, c, s[1..]))[1..] == Class(first, c, s[1..]);
      assert ([s[0]] + Class(second, c, s[1..]))[1..] == Class(second, c, s[1..]);
    }
  }

  // A class picked from a sorted list is sorted.
  lemma {:induction false} ClassStaysSorted<T(!new)>(first: (T, T) -> bool, second: (T, T) -> bool, c: T, s: seq<T>)
    requires Sorted(second, s)
    ensures Sorted(second, Class(first, c, s))
  {
    if s != [] {
      ClassStaysSorted(first, second, c, s[1..]);
      ClassMembers(first, c, s[1..]);
      var rest := Class(first, c, s[1..]);
      forall x | x in rest ensures !second(x, s[0]) {
        assert x in s[1..];
        var i :| 0 <= i < |s[1..]| && s[1..][i] == x;
        assert s[i + 1] == x;
      }
      assert forall i | 0 <= i < |rest| :: rest[i] in rest;
    }
  }

  // Two items of a class come in the list in the order they come in their class.
  lemma {:induction false} InOrderInClass<T(!new)>(first: (T, T) -> bool, second: (T, T) -> bool, c: T, t: seq<T>, i: nat, j: nat)
    requires i < j < |t| && Same(first, c, t[i]) && Same(first, c, t[j]) && Sorted(second, Class(first, c, t))
    ensures !second(t[j], t[i])
  {
    var rest := Class(first, c, t[1..]);
    if Same(first, c, t[0]) {
      assert ([t[0]] + rest)[1..] == rest;
      SortedRest(second, t[0], rest);
    }
    if i > 0 {
      InOrderInClass(first, second, c, t[1..], i - 1, j - 1);
    } else {
      ClassMembers(first, c, t[1..]);
      assert t[1..][j - 1] == t[j];
      assert t[j] in t[1..] && t[j] in rest;
      var k :| 0 <= k < |rest| && rest[k] == t[j];
      var all := Class(first, c, t);
      assert all == [t[0]] + rest && all[k + 1] == t[j] && all[0] == t[0];
    }
  }

  lemma SortedRest<T(!new)>(less: (T, T) -> bool, x: T, rest: seq<T>)
    requires Sorted(less, [x] + rest)
    ensures Sorted(less, rest)
  {
    forall i, j | 0 <= i < j < |rest| ensures !less(rest[j], rest[i]) {
      assert ([x] + rest)[i + 1] == rest[i] && ([x] + rest)[j + 1] == rest[j];
    }
  }

  // Sorting by the second order and then stably by the first is sorting by both.
  lemma SortTwiceIsLex<T(!new)>(first: (T, T) -> bool, second: (T, T) -> bool, s: seq<T>)
    requires StrictWeak(first) && StrictWeak(second)
    ensures Sort(first, Sort(second, s)) == Sort(Lex(first, second), s)
  {
    var less, mid := Lex(first, second), Sort(second, s);
    var t := Sort(first, mid);
    LexIsWeak(first, second);
    SortTwiceIsSorted(first, second, mid);
    forall c ensures Class(less, c, t) == Class(less, c, Sort(less, s)) {
      ClassTwice(first, second, c, t);
      ClassTwice(first, second, c, mid);
      ClassTwice(first, second, c, s);
      ClassOfSort(first, mid, c);
      ClassOfSort(second, s, c);
      ClassOfSort(less, s, c);
    }
    SortSorts(less, s);
    StableSortIsUnique(less, t, Sort(less, s));
  }

  lemma SortTwiceIsSorted<T(!new)>(first: (T, T) -> bool, second: (T, T) -> bool, s: seq<T>)
    requires StrictWeak(first) && StrictWeak(second)
    requires exists u :: s == Sort(second, u)
    ensures Sorted(Lex(first, second), Sort(first, s))
  {
    var u :| s == Sort(second, u);
    var t := Sort(first, s);
    SortSorts(second, u);
    SortSorts(first, s);
    forall i, j | 0 <= i < j < |t| ensures !Lex(first, second)(t[j], t[i]) {
      if Same(first, t[i], t[j]) {
        ClassOfSort(first, s, t[i]);
        ClassStaysSorted(first, second, t[i], s);
        InOrderInClass(first, second, t[i], t, i, j);
      }
    }
  }

  // Only the items sorted are ever compared.
  lemma {:induction false} SortAgrees<T(!new)>(less: (T, T) -> bool, other: (T, T) -> bool, s: seq<T>)
    requires forall x, y | x in s && y in s :: less(x, y) == other(x, y)
    ensures Sort(less, s) == Sort(other, s)
  {
    if s != [] {
      var rest := Sort(less, s[1..]);
      SortAgrees(less, other, s[1..]);
      SortPermutes(less, s[1..]);
      SameMembers(rest, s[1..]);
      forall y | y in rest ensures less(y, s[0]) == other(y, s[0]) {
        assert y in s[1..] && s[0] in s;
      }
      InsertAgrees(less, other, s[0], rest);
    }
  }

  lemma {:induction false} InsertAgrees<T(!new)>(less: (T, T) -> bool, other: (T, T) -> bool, x: T, s: seq<T>)
    requires forall y | y in s :: less(y, x) == other(y, x)
    ensures Insert(less, x, s) == Insert(other, x, s)
  {
    if s != [] {
      assert s[0] in s;
      InsertAgrees(less, other, x, s[1..]);
    }
  }

  /* ---- comparing cells ---- */

  datatype Float = NaN | NegInf | Finite(r: real) | PosInf

  datatype ColumnType = Text | Name | Number

  // How a cell reads as a number, when it does, and how two names compare in natural order.
  datatype World = World(parse: string -> Option<Float>, natural: (string, string) -> int)

  // IEEE order: a NaN is neither less nor greater than anything.
  predicate FloatLess(a: Float, b: Float) {
    match (a, b)
    case (NaN, _) => false
    case (_, NaN) => false
    case (_, NegInf) => false
    case (NegInf, _) => true
    case (PosInf, _) => false
    case (_, PosInf) => true
    case (Finite(x), Finite(y)) => x < y
  }

  function CompareText(x: string, y: string): int {
    if Before(x, y) then -1 else if Before(y, x) then 1 else 0
  }

  function CompareCells(w: World, x: string, y: string, typ: ColumnType): int {
    match typ
    case Name => w.natural(x, y)
    case Text => CompareText(x, y)
    case Number =>
      match (w.parse(x), w.parse(y))
      case (Some(a), Some(b)) => if FloatLess(a, b) then -1 else if FloatLess(b, a) then 1 else 0
      case (Some(_), None) => -1
      case (None, Some(_)) => 1
      case (None, None) => CompareText(x, y)
  }

  // The natural order of names is a weak order.
  ghost predicate NaturalOrders(w: World) {
    && (forall x, y :: w.natural(x, y) < 0 <==> w.natural(y, x) > 0)
    && (forall x, y, z :: w.natural(x, z) < 0 ==> w.natural(x, y) < 0 || w.natural(y, z) < 0)
  }

  ghost predicate NeverNaN(w: World) {
    forall x :: w.parse(x) != Some(NaN)
  }

  function CellLess(w: World, typ: ColumnType): (string, string) -> bool {
    (x: string, y: string) => CompareCells(w, x, y, typ) < 0
  }

  lemma TextIsWeak(x: string, y: string, z: string)
    ensures CompareText(x, y) < 0 <==> CompareText(y, x) > 0
    ensures CompareText(x, z) < 0 ==> CompareText(x, y) < 0 || CompareText(y, z) < 0
  {
    StringsAreOrdered();
    BeforeIsAsymmetric(x, y);
  }

  lemma CellsCompare(w: World, typ: ColumnType, x: string, y: string, z: string)
    requires NaturalOrders(w) && NeverNaN(w)
    ensures CompareCells(w, x, y, typ) < 0 <==> CompareCells(w, y, x, typ) > 0
    ensures CompareCells(w, x, z, typ) < 0 ==> CompareCells(w, x, y, typ) < 0 || CompareCells(w, y, z, typ) < 0
  {
    TextIsWeak(x, y, z);
    assert w.parse(x) != Some(NaN) && w.parse(y) != Some(NaN) && w.parse(z) != Some(NaN);
  }

  /* ---- comparing rows ---- */

  type Row = seq<string>

  // A column to order by, at its place in the table.
  datatype Col = Col(i: nat, desc: bool, typ: ColumnType)

  // A row shorter than the table reads as empty past its end.
  function CellAt(cells: Row, i: nat): string {
    if i < |cells| then cells[i] else ""
  }

  // Empty cells sort last whichever way the column runs.
  function ColLess(w: World, c: Col): (Row, Row) -> bool {
    (a: Row, b: Row) =>
      var x, y := CellAt(a, c.i), CellAt(b, c.i);
      if (x == "") != (y == "") then y == ""
      else
        var cmp := CompareCells(w, x, y, c.typ);
        (if c.desc then -cmp else cmp) < 0
  }

  function Never<T>(): (T, T) -> bool {
    (x: T, y: T) => false
  }

  function RowLess(w: World, cols: seq<Col>): (Row, Row) -> bool {
    if cols == [] then Never() else Lex(ColLess(w, cols[0]), RowLess(w, cols[1..]))
  }

  // The comparison of two rows, a column at a time, as the sort asks it.
  method LessRows(w: World, cols: seq<Col>, a: Row, b: Row) returns (less: bool)
    requires NaturalOrders(w)
    ensures less == RowLess(w, cols)(a, b)
  {
    for i := 0 to |cols|
      invariant RowLess(w, cols)(a, b) == RowLess(w, cols[i..])(a, b)
    {
      var c := cols[i];
      assert cols[i..][0] == c && cols[i..][1..] == cols[i + 1..] && c in cols;
      ColDecides(w, c, a, b);
      var x, y := CellAt(a, c.i), CellAt(b, c.i);
      if (x == "") != (y == "") {
        return y == "";
      }
      var cmp := CompareCells(w, x, y, c.typ);
      if c.desc {
        cmp := -cmp;
      }
      if cmp != 0 {
        return cmp < 0;
      }
    }
    assert cols[|cols|..] == [];
    less := false;
  }

  // A column compares two rows one way or the other: its two directions are opposite.
  lemma ColDecides(w: World, c: Col, a: Row, b: Row)
    requires NaturalOrders(w)
    ensures var x, y := CellAt(a, c.i), CellAt(b, c.i);
            && (CompareCells(w, x, y, c.typ) < 0 <==> CompareCells(w, y, x, c.typ) > 0)
            && (CompareCells(w, x, y, c.typ) > 0 <==> CompareCells(w, y, x, c.typ) < 0)
  {
    TextIsWeak(CellAt(a, c.i), CellAt(b, c.i), "");
    TextIsWeak(CellAt(b, c.i), CellAt(a, c.i), "");
  }

  lemma ColIsWeak(w: World, c: Col)
    requires NaturalOrders(w) && NeverNaN(w)
    ensures StrictWeak(ColLess(w, c))
  {
    var less := ColLess(w, c);
    forall a, b ensures less(a, b) ==> !less(b, a) {
      CellsCompare(w, c.typ, CellAt(a, c.i), CellAt(b, c.i), "");
      CellsCompare(w, c.typ, CellAt(b, c.i), CellAt(a, c.i), "");
    }
    forall a, b, d ensures less(a, d) ==> less(a, b) || less(b, d) {
      var x, y, z := CellAt(a, c.i), CellAt(b, c.i), CellAt(d, c.i);
      CellsCompare(w, c.typ, x, y, z);
      CellsCompare(w, c.typ, z, y, x);
      CellsCompare(w, c.typ, y, x, z);
      CellsCompare(w, c.typ, y, z, x);
      CellsCompare(w, c.typ, x, z, y);
    }
  }

  lemma {:induction false} RowIsWeak(w: World, cols: seq<Col>)
    requires NaturalOrders(w) && NeverNaN(w)
    ensures StrictWeak(RowLess(w, cols))
  {
    if cols != [] {
      ColIsWeak(w, cols[0]);
      RowIsWeak(w, cols[1..]);
      LexIsWeak(ColLess(w, cols[0]), RowLess(w, cols[1..]));
    }
  }

  // One stable sort for each key, from the last to the first.
  function KeyByKey(w: World, cols: seq<Col>, rows: seq<Row>): seq<Row> {
    if cols == [] then rows else Sort(ColLess(w, cols[0]), KeyByKey(w, cols[1..], rows))
  }

  lemma {:induction false} NothingToSortBy(rows: seq<Row>)
    ensures Sort(Never(), rows) == rows
  {
    if rows != [] {
      NothingToSortBy(rows[1..]);
    }
  }

  lemma {:induction false} SortIsKeyByKey(w: World, cols: seq<Col>, rows: seq<Row>)
    requires NaturalOrders(w) && NeverNaN(w)
    ensures Sort(RowLess(w, cols), rows) == KeyByKey(w, cols, rows)
  {
    if cols == [] {
      NothingToSortBy(rows);
    } else {
      SortIsKeyByKey(w, cols[1..], rows);
      ColIsWeak(w, cols[0]);
      RowIsWeak(w, cols[1..]);
      SortTwiceIsLex(ColLess(w, cols[0]), RowLess(w, cols[1..]), rows);
    }
  }

  /* ---- cells that read as no number ---- */

  // No cell the keys compare as a number reads as a NaN.
  ghost predicate NoNaN(w: World, cols: seq<Col>, rows: seq<Row>) {
    forall c, r | c in cols && r in rows && c.typ == Number :: w.parse(CellAt(r, c.i)) != Some(NaN)
  }

  function WithoutNaN(w: World): World {
    w.(parse := (x: string) => if w.parse(x) == Some(NaN) then None else w.parse(x))
  }

  lemma {:induction false} RowsCompareAlike(w: World, cols: seq<Col>, a: Row, b: Row)
    requires NoNaN(w, cols, [a, b])
    ensures RowLess(w, cols)(a, b) == RowLess(WithoutNaN(w), cols)(a, b)
    ensures RowLess(w, cols)(b, a) == RowLess(WithoutNaN(w), cols)(b, a)
  {
    if cols != [] {
      var c := cols[0];
      assert a in [a, b] && b in [a, b] && c in cols;
      assert NoNaN(w, cols[1..], [a, b]) by {
        assert forall d | d in cols[1..] :: d in cols;
      }
      RowsCompareAlike(w, cols[1..], a, b);
      var x, y := CellAt(a, c.i), CellAt(b, c.i);
      assert CompareCells(w, x, y, c.typ) == CompareCells(WithoutNaN(w), x, y, c.typ);
      assert CompareCells(w, y, x, c.typ) == CompareCells(WithoutNaN(w), y, x, c.typ);
    }
  }

  // Rows with no NaN among the cells compared end sorted, stably, and as one stable sort for each key would leave them.
  lemma RowsAreOrdered(w: World, cols: seq<Col>, rows: seq<Row>)
    requires NaturalOrders(w) && NoNaN(w, cols, rows)
    ensures var less, sorted := RowLess(WithoutNaN(w), cols), Sort(RowLess(w, cols), rows);
            && Sorted(less, sorted) && StablyRearranges(less, rows, sorted)
            && sorted == KeyByKey(WithoutNaN(w), cols, rows)
  {
    var clean := WithoutNaN(w);
    forall a, b | a in rows && b in rows ensures RowLess(w, cols)(a, b) == RowLess(clean, cols)(a, b) {
      RowsCompareAlike(w, cols, a, b);
    }
    SortAgrees(RowLess(w, cols), RowLess(clean, cols), rows);
    RowIsWeak(clean, cols);
    SortSorts(RowLess(clean, cols), rows);
    SortIsStable(RowLess(clean, cols), rows);
    SortIsKeyByKey(clean, cols, rows);
  }

  // In sorted rows every empty cell of the first key comes after every other, in either direction.
  lemma EmptyCellsAreLast(w: World, cols: seq<Col>, rows: seq<Row>, i: nat, j: nat)
    requires cols != [] && Sorted(RowLess(w, cols), rows) && i < j < |rows|
    ensures CellAt(rows[i], cols[0].i) == "" ==> CellAt(rows[j], cols[0].i) == ""
  {
    assert !RowLess(w, cols)(rows[j], rows[i]);
  }

  ghost predicate Transitive(less: (string, string) -> bool, cells: set<string>) {
    forall x, y, z | x in cells && y in cells && z in cells :: less(x, z) ==> less(x, y) || less(y, z)
  }

  // A NaN is the one thing that breaks the order of numbers, and only when there are two numbers it fails to tell apart:
  // it ties with both.
  lemma NumbersOrderWithoutNaN(w: World, cells: set<string>)
    ensures Transitive(CellLess(w, Number), cells) <==>
              !(exists n, x, y :: n in cells && x in cells && y in cells && w.parse(n) == Some(NaN)
                                  && w.parse(x).Some? && w.parse(y).Some? && FloatLess(w.parse(x).value, w.parse(y).value))
  {
    var less := CellLess(w, Number);
    if n, x, y :| n in cells && x in cells && y in cells && w.parse(n) == Some(NaN)
                  && w.parse(x).Some? && w.parse(y).Some? && FloatLess(w.parse(x).value, w.parse(y).value)
    {
      assert less(x, y) && !less(x, n) && !less(n, y);
    } else {
      forall x, y, z | x in cells && y in cells && z in cells && less(x, z) ensures less(x, y) || less(y, z) {
        TextIsWeak(x, y, z);
      }
    }
  }

  /* ---- the tables of an answer ---- */

  datatype Column = Column(name: string, typ: ColumnType)

  datatype Table = Table(columns: seq<Column>, rows: seq<Row>)

  datatype Key = Key(name: string, desc: bool)

  datatype Outcome = Done | NamesNothing(entry: string) | NoSuchColumns(names: seq<string>)

  // An order_by entry: a column's name, descending when a dash leads it.
  function KeyOf(entry: string): Key {
    if |entry| > 0 && entry[0] == '-' then Key(entry[1..], true) else Key(entry, false)
  }

  // The first column of that name.
  function IndexOf(columns: seq<Column>, name: string): Option<nat> {
    if columns == [] then None
    else if columns[0].name == name then Some(0)
    else
      match IndexOf(columns[1..], name)
      case None => None
      case Some(i) => Some(i + 1)
  }

  function TypeOf(c: Column, types: map<string, ColumnType>): ColumnType {
    if c.name in types then types[c.name] else c.typ
  }

  lemma {:induction false} IndexIsFirst(columns: seq<Column>, name: string)
    ensures match IndexOf(columns, name)
            case None => forall c | c in columns :: c.name != name
            case Some(i) => i < |columns| && columns[i].name == name && forall j | 0 <= j < i :: columns[j].name != name
  {
    if columns != [] {
      IndexIsFirst(columns[1..], name);
    }
  }

  // The columns the keys name in a table, in the order of the keys; a key it does not have is passed over.
  function ColsOf(columns: seq<Column>, keys: seq<Key>, types: map<string, ColumnType>): seq<Col> {
    if keys == [] then []
    else
      var rest := ColsOf(columns, keys[..|keys| - 1], types);
      var k := keys[|keys| - 1];
      IndexIsFirst(columns, k.name);
      match IndexOf(columns, k.name)
      case None => rest
      case Some(i) => rest + [Col(i, k.desc, TypeOf(columns[i], types))]
  }

  ghost predicate Has(t: Table, name: string) {
    exists c :: c in t.columns && c.name == name
  }

  function Ordered(w: World, t: Table, keys: seq<Key>, types: map<string, ColumnType>): Table {
    t.(rows := Sort(RowLess(w, ColsOf(t.columns, keys, types)), t.rows))
  }

  // A table after sorting: its own rows, in some order, and in the order of the keys where no NaN is compared. With no key
  // it has it is left alone.
  ghost predicate Sorts(w: World, was: Table, keys: seq<Key>, types: map<string, ColumnType>, now: Table) {
    var cols := ColsOf(was.columns, keys, types);
    && now.columns == was.columns && multiset(now.rows) == multiset(was.rows) && (cols == [] ==> now == was)
    && (NaturalOrders(w) && NoNaN(w, cols, was.rows) ==> now == Ordered(w, was, keys, types))
  }

  // The library's stable sort. It promises an order only where the comparison is one, and any rearrangement otherwise.
  method StableSort(w: World, cols: seq<Col>, rows: seq<Row>) returns (sorted: seq<Row>)
    ensures multiset(sorted) == multiset(rows)
    ensures NaturalOrders(w) && NoNaN(w, cols, rows) ==> sorted == Sort(RowLess(w, cols), rows)
  {
    SortPermutes(RowLess(w, cols), rows);
    sorted := Sort(RowLess(w, cols), rows);
  }

  method FindCols(t: Table, keys: seq<Key>, types: map<string, ColumnType>, found: set<string>)
    returns (cols: seq<Col>, now: set<string>)
    ensures cols == ColsOf(t.columns, keys, types)
    ensures forall n :: n in now <==> n in found || (Has(t, n) && exists k :: k in keys && k.name == n)
  {
    cols, now := [], found;
    for i := 0 to |keys|
      invariant cols == ColsOf(t.columns, keys[..i], types)
      invariant forall n :: n in now <==> n in found || (Has(t, n) && exists k :: k in keys[..i] && k.name == n)
    {
      var k := keys[i];
      assert keys[..i + 1][..i] == keys[..i] && keys[..i + 1] == keys[..i] + [k];
      IndexIsFirst(t.columns, k.name);
      assert Has(t, k.name) <==> IndexOf(t.columns, k.name).Some?;
      for j := 0 to |t.columns|
        invariant cols == ColsOf(t.columns, keys[..i], types)
        invariant forall l | 0 <= l < j :: t.columns[l].name != k.name
      {
        if t.columns[j].name == k.name {
          FirstIs(t.columns, k.name, j);
          cols := cols + [Col(j, k.desc, TypeOf(t.columns[j], types))];
          now := now + {k.name};
          break;
        }
      }
    }
    assert keys[..|keys|] == keys;
  }

  lemma FirstIs(columns: seq<Column>, name: string, i: nat)
    requires i < |columns| && columns[i].name == name && forall j | 0 <= j < i :: columns[j].name != name
    ensures IndexOf(columns, name) == Some(i)
  {
    IndexIsFirst(columns, name);
  }

  function Keys(orderBy: seq<string>): (r: seq<Key>)
    ensures |r| == |orderBy| && forall i | 0 <= i < |r| :: r[i] == KeyOf(orderBy[i])
  {
    seq(|orderBy|, i requires 0 <= i < |orderBy| => KeyOf(orderBy[i]))
  }

  // The keys no table has, in order.
  ghost predicate NamesMissing(tables: seq<Table>, keys: seq<Key>, names: seq<string>) {
    forall n :: n in names <==> (exists k :: k in keys && k.name == n) && forall t | t in tables :: !Has(t, n)
  }

  // Sorts each table's rows in place. An entry that names nothing leaves every table alone; a column that no table has
  // is reported once the tables that can be sorted are.
  method OrderTables(w: World, tables: array<Table>, orderBy: seq<string>, types: map<string, ColumnType>)
    returns (r: Outcome)
    modifies tables
    ensures r.NamesNothing? <==> exists o :: o in orderBy && KeyOf(o).name == ""
    ensures r.NamesNothing? ==> tables[..] == old(tables[..]) && KeyOf(r.entry).name == "" && r.entry in orderBy
    ensures !r.NamesNothing? ==>
              forall i | 0 <= i < tables.Length :: Sorts(w, old(tables[i]), Keys(orderBy), types, tables[i])
    ensures r.NoSuchColumns? ==> r.names != [] && NamesMissing(old(tables[..]), Keys(orderBy), r.names)
    ensures r == Done ==> NamesMissing(old(tables[..]), Keys(orderBy), [])
  {
    var keys := [];
    for i := 0 to |orderBy|
      invariant keys == Keys(orderBy[..i]) && forall k | k in keys :: k.name != ""
      invariant forall j | 0 <= j < i :: KeyOf(orderBy[j]).name != ""
    {
      var k := KeyOf(orderBy[i]);
      if k.name == "" {
        return NamesNothing(orderBy[i]);
      }
      keys := keys + [k];
    }
    assert orderBy[..|orderBy|] == orderBy;
    var found := SortEach(w, tables, keys, types);
    var missing := [];
    for i := 0 to |keys|
      invariant forall n :: n in missing <==> (exists k :: k in keys[..i] && k.name == n) && n !in found
    {
      assert keys[..i + 1] == keys[..i] + [keys[i]];
      if keys[i].name !in found {
        missing := missing + [keys[i].name];
      }
    }
    assert keys[..|keys|] == keys;
    r := if missing != [] then NoSuchColumns(missing) else Done;
  }

  method SortEach(w: World, tables: array<Table>, keys: seq<Key>, types: map<string, ColumnType>)
    returns (found: set<string>)
    modifies tables
    ensures forall i | 0 <= i < tables.Length :: Sorts(w, old(tables[i]), keys, types, tables[i])
    ensures forall n :: n in found <==> (exists k :: k in keys && k.name == n) && exists t :: t in old(tables[..]) && Has(t, n)
  {
    found := {};
    ghost var was := tables[..];
    for i := 0 to tables.Length
      invariant forall j | 0 <= j < i :: Sorts(w, was[j], keys, types, tables[j])
      invariant forall j | i <= j < tables.Length :: tables[j] == was[j]
      invariant forall n :: n in found <==> (exists k :: k in keys && k.name == n) && exists t :: t in was[..i] && Has(t, n)
    {
      assert was[..i + 1] == was[..i] + [was[i]];
      var cols;
      cols, found := FindCols(tables[i], keys, types, found);
      if cols == [] {
        NothingToSortBy(tables[i].rows);
        assert RowLess(w, cols) == Never();
        continue;
      }
      var sorted := StableSort(w, cols, tables[i].rows);
      tables[i] := tables[i].(rows := sorted);
    }
    assert was[..tables.Length] == was;
  }
}
