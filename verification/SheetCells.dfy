/** Column names and cell references of the exported spreadsheet. */
module SheetCells {
  import opened Text

  predicate IsLetter(c: char) { 'A' <= c <= 'Z' }

  predicate IsOther(c: char) { !IsLetter(c) }

  predicate IsWord(w: string) { forall i :: 0 <= i < |w| ==> IsLetter(w[i]) }

  function Letter(d: nat): (c: char)
    requires d < 26
    ensures IsLetter(c) && (c - 'A') as int == d
  {
    'A' + d as char
  }

  /** Bijective base 26: the value of a word, `A` being 1. */
  function Number(w: string): nat
    requires IsWord(w)
  {
    if w == [] then 0 else 26 * Number(w[..|w| - 1]) + (w[|w| - 1] - 'A') as nat + 1
  }

  function Column(index: nat): (w: string)
    ensures IsWord(w)
  {
    if index == 0 then [] else Column((index - 1) / 26) + [Letter((index - 1) % 26)]
  }

  /** `_col_name`: the letters come out last first. */
  method ColName(index: nat) returns (name: string)
    ensures name == Column(index)
  {
    var rest := index;
    name := "";
    while rest > 0
      invariant Column(index) == Column(rest) + name
    {
      var rem := (rest - 1) % 26;
      assert Column(rest) == Column((rest - 1) / 26) + [Letter(rem)];
      rest := (rest - 1) / 26;
      name := [Letter(rem)] + name;
    }
  }

  lemma {:induction false} NumberOfColumn(index: nat)
    ensures Number(Column(index)) == index
    ensures Column(index) == [] <==> index == 0
  {
    if index > 0 {
      NumberOfColumn((index - 1) / 26);
      assert Column(index)[..|Column(index)| - 1] == Column((index - 1) / 26);
    }
  }

  lemma {:induction false} ColumnOfNumber(w: string)
    requires IsWord(w)
    ensures Column(Number(w)) == w
  {
    if w != [] {
      var init := w[..|w| - 1];
      ColumnOfNumber(init);
      assert (Number(w) - 1) / 26 == Number(init);
      assert w == init + [w[|w| - 1]];
    }
  }

  /** Alphabetical order of two words of one length: at the first difference `a` has the smaller letter. */
  ghost predicate Alphabetical(a: string, b: string)
    requires |a| == |b|
  {
    exists k :: 0 <= k < |a| && a[..k] == b[..k] && a[k] < b[k]
  }

  /** Shorter words first, then the alphabet. */
  ghost predicate Before(a: string, b: string) {
    |a| < |b| || (|a| == |b| && Alphabetical(a, b))
  }

  lemma {:induction false} ShorterIsSmaller(a: string, b: string)
    requires IsWord(a) && IsWord(b) && |a| < |b|
    ensures Number(a) < Number(b)
  {
    if a != [] {
      ShorterIsSmaller(a[..|a| - 1], b[..|b| - 1]);
    }
  }

  /** Equal-length words compare by what precedes the last letter, then by that letter. */
  lemma AlphabeticalByLast(a: string, b: string)
    requires |a| == |b| > 0
    ensures
      var n := |a| - 1;
      Alphabetical(a, b) <==> Alphabetical(a[..n], b[..n]) || (a[..n] == b[..n] && a[n] < b[n])
  {
    var n := |a| - 1;
    if Alphabetical(a[..n], b[..n]) {
      var k :| 0 <= k < n && a[..n][..k] == b[..n][..k] && a[..n][k] < b[..n][k];
      assert a[..k] == a[..n][..k] && b[..k] == b[..n][..k];
    }
    if Alphabetical(a, b) {
      var k :| 0 <= k < |a| && a[..k] == b[..k] && a[k] < b[k];
      if k < n {
        assert a[..n][..k] == a[..k] && b[..n][..k] == b[..k];
      }
    }
  }

  /** Appending a letter keeps the order of the numbers and decides between equal ones. */
  lemma LastLetterDecides(x: nat, y: nat, d: nat, e: nat)
    requires 1 <= d <= 26 && 1 <= e <= 26
    ensures 26 * x + d < 26 * y + e <==> x < y || (x == y && d < e)
    ensures 26 * x + d == 26 * y + e <==> x == y && d == e
  {
  }

  lemma {:induction false} AlphabeticalIsSmaller(a: string, b: string)
    requires IsWord(a) && IsWord(b) && |a| == |b|
    ensures Number(a) < Number(b) <==> Alphabetical(a, b)
    ensures Number(a) == Number(b) <==> a == b
  {
    if a != [] {
      var n := |a| - 1;
      hide Alphabetical;
      AlphabeticalIsSmaller(a[..n], b[..n]);
      AlphabeticalByLast(a, b);
      assert a == a[..n] + [a[n]] && b == b[..n] + [b[n]];
      LastLetterDecides(Number(a[..n]), Number(b[..n]), (a[n] - 'A') as nat + 1, (b[n] - 'A') as nat + 1);
    }
  }

  /** Column order is name order: by length, then by the alphabet. */
  lemma ColumnsKeepOrder(i: nat, j: nat)
    ensures i < j <==> Before(Column(i), Column(j))
  {
    NumberOfColumn(i);
    NumberOfColumn(j);
    var a, b := Column(i), Column(j);
    if |a| < |b| {
      ShorterIsSmaller(a, b);
    } else if |b| < |a| {
      ShorterIsSmaller(b, a);
    } else {
      AlphabeticalIsSmaller(a, b);
    }
  }

  // ------------------------------------------------------------- references

  function Reference(column: nat, row: nat): string {
    Column(column) + Decimal(row)
  }

  /** A reference can be read back: its letters give the column, the digits the row. */
  lemma ReferenceIsReadable(column: nat, row: nat)
    ensures
      var s := Reference(column, row);
      var n := StopAt(s, IsOther);
      && IsWord(s[..n]) && Number(s[..n]) == column
      && AllDigits(s[n..]) && Value(s[n..]) == row
  {
    var w, digits := Column(column), Decimal(row);
    assert digits[0] in digits;
    StopsAfter(w, digits, IsOther);
    assert (w + digits)[..|w|] == w && (w + digits)[|w|..] == digits;
    NumberOfColumn(column);
    ValueOfDecimal(row);
  }

  lemma ReferencesAreDistinct(c: nat, r: nat, c': nat, r': nat)
    ensures Reference(c, r) == Reference(c', r') <==> c == c' && r == r'
  {
    ReferenceIsReadable(c, r);
    ReferenceIsReadable(c', r');
  }

  // ------------------------------------------------------------------ the sheet

  /** A value of a row: a number, or anything else by its text. */
  datatype Content = Numeric(text: string) | Textual(text: string)

  type Row = map<string, Content>

  datatype Cell = Cell(reference: string, value: Content)

  function ValueAt(row: Row, column: string): Content {
    if column in row then row[column] else Textual("")
  }

  method HeaderCells(columns: seq<string>) returns (cells: seq<Cell>)
    ensures |cells| == |columns|
    ensures forall j :: 0 <= j < |columns| ==> cells[j] == Cell(Reference(j + 1, 1), Textual(columns[j]))
  {
    hide Column, Decimal, ValueAt;
    cells := [];
    for i := 1 to |columns| + 1
      invariant |cells| == i - 1
      invariant forall j :: 0 <= j < i - 1 ==> cells[j] == Cell(Reference(j + 1, 1), Textual(columns[j]))
    {
      var name := ColName(i);
      cells := cells + [Cell(name + Decimal(1), Textual(columns[i - 1]))];
    }
  }

  method RowCells(columns: seq<string>, row: Row, index: nat) returns (cells: seq<Cell>)
    ensures |cells| == |columns|
    ensures forall j :: 0 <= j < |columns| ==> cells[j] == Cell(Reference(j + 1, index), ValueAt(row, columns[j]))
  {
    hide Column, Decimal, ValueAt;
    cells := [];
    for i := 1 to |columns| + 1
      invariant |cells| == i - 1
      invariant forall j :: 0 <= j < i - 1 ==> cells[j] == Cell(Reference(j + 1, index), ValueAt(row, columns[j]))
    {
      var name := ColName(i);
      cells := cells + [Cell(name + Decimal(index), ValueAt(row, columns[i - 1]))];
    }
  }

  /** `sheet` has the column names in row 1 and the values of `rows[i]` in row `i + 2`. */
  ghost predicate IsSheet(sheet: seq<seq<Cell>>, columns: seq<string>, rows: seq<Row>) {
    && |sheet| == |rows| + 1
    && (forall i :: 0 <= i < |sheet| ==> |sheet[i]| == |columns|)
    && (forall j :: 0 <= j < |columns| ==> sheet[0][j] == Cell(Column(j + 1) + "1", Textual(columns[j])))
    && (forall i, j :: 1 <= i < |sheet| && 0 <= j < |columns| ==>
          sheet[i][j] == Cell(Column(j + 1) + Decimal(i + 1),
                              if columns[j] in rows[i - 1] then rows[i - 1][columns[j]] else Textual("")))
  }

  ghost predicate NoReferenceTwice(sheet: seq<seq<Cell>>) {
    forall i, j, i', j' |
      && 0 <= i < |sheet| && 0 <= j < |sheet[i]| && 0 <= i' < |sheet| && 0 <= j' < |sheet[i']|
      && sheet[i][j].reference == sheet[i'][j'].reference
      :: i == i' && j == j'
  }

  /** The cells `_sheet_xml` writes, row by row; no two share a reference. */
  method Sheet(columns: seq<string>, rows: seq<Row>) returns (sheet: seq<seq<Cell>>)
    ensures IsSheet(sheet, columns, rows)
    ensures NoReferenceTwice(sheet)
  {
    assert Decimal(1) == "1";
    hide Column, Decimal, NoReferenceTwice;
    var header := HeaderCells(columns);
    sheet := [header];
    for n := 0 to |rows|
      invariant IsSheet(sheet, columns, rows[..n])
    {
      var cells := RowCells(columns, rows[n], n + 2);
      ghost var before := sheet;
      sheet := sheet + [cells];
      assert forall k :: 0 <= k < n ==> rows[..n + 1][k] == rows[..n][k];
    }
    assert rows[..|rows|] == rows;
    CellsAreDistinct(sheet, columns, rows);
  }

  lemma CellAt(sheet: seq<seq<Cell>>, columns: seq<string>, rows: seq<Row>, i: nat, j: nat)
    requires IsSheet(sheet, columns, rows) && i < |sheet| && j < |sheet[i]|
    ensures sheet[i][j].reference == Reference(j + 1, i + 1)
  {
    if i > 0 {
      var row := rows[i - 1];
      assert sheet[i][j] == Cell(Reference(j + 1, i + 1), ValueAt(row, columns[j]));
    }
  }

  lemma CellsAreDistinct(sheet: seq<seq<Cell>>, columns: seq<string>, rows: seq<Row>)
    requires IsSheet(sheet, columns, rows)
    ensures NoReferenceTwice(sheet)
  {
    hide IsSheet, Reference;
    forall i, j, i', j' |
      && 0 <= i < |sheet| && 0 <= j < |sheet[i]| && 0 <= i' < |sheet| && 0 <= j' < |sheet[i']|
      && sheet[i][j].reference == sheet[i'][j'].reference
      ensures i == i' && j == j'
    {
      CellAt(sheet, columns, rows, i, j);
      CellAt(sheet, columns, rows, i', j');
      ReferencesAreDistinct(j + 1, i + 1, j' + 1, i' + 1);
    }
  }
}
