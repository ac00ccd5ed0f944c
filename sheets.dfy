/** The three sample tables of the order form — the library Sample Sheet,
    the Library Sample Sheet (index details) and the sample-information
    Sample Sheet — and the operations on them: the Sample_Name filter,
    pasting tab-separated text, importing already-parsed spreadsheet rows,
    adding and removing rows, counting named rows, finding duplicate names
    and summing expected yields. */
module Sheets {
  import opened Seqs
  import opened Text

  // ---------------------------------------------------------------- rows

  /** Which table a row belongs to; each has its own data columns after
      `no` and `sampleName`. */
  datatype SheetKind =
    | LibrarySamples   // tubeLabel, conc, vol, ngsConc, expectedSeq, note
    | LibraryDetails   // libraryPrepKit, indexAdapterKit, setWellPosition, index1Seq, index2Seq, note, library
    | SampleInfo       // tubeLabel, expectedSeq, conc, vol, ratio260280, ratio260230, dqnRqn, note

  /** The number of data columns after `sampleName`. */
  function FieldCount(kind: SheetKind): nat {
    match kind
    case LibrarySamples => 6
    case LibraryDetails => 7
    case SampleInfo => 8
  }

  /** One table row: its sequence number, its Sample_Name, and the other
      columns in the order listed for its kind. */
  datatype Row = Row(no: int, sampleName: string, fields: seq<string>)

  /** Every row has exactly the columns of its kind. */
  predicate WellFormed(sheet: seq<Row>, kind: SheetKind) {
    forall i :: 0 <= i < |sheet| ==> |sheet[i].fields| == FieldCount(kind)
  }

  /** The all-empty row numbered `no`. */
  function BlankRow(kind: SheetKind, no: int): (r: Row)
    ensures r.no == no && r.sampleName == "" && |r.fields| == FieldCount(kind)
    ensures forall k :: 0 <= k < |r.fields| ==> r.fields[k] == ""
  {
    Row(no, "", seq(FieldCount(kind), _ => ""))
  }

  // ---------------------------------------------------------------- Sample_Name filter

  /** The characters a Sample_Name may keep: `[A-Za-z0-9_,-]`. */
  predicate IsNameChar(c: char) {
    ('a' <= c <= 'z') || ('A' <= c <= 'Z') || ('0' <= c <= '9') || c == '_' || c == ',' || c == '-'
  }

  predicate AllNameChars(s: string) {
    forall k :: 0 <= k < |s| ==> IsNameChar(s[k])
  }

  /** `sanitizeSampleName` on a string: every other character removed. */
  function Sanitize(s: string): (r: string)
    ensures AllNameChars(r)
    ensures |r| <= |s|
  {
    if s == [] then []
    else (if IsNameChar(s[0]) then [s[0]] else []) + Sanitize(s[1..])
  }

  /** `a` is `b` with some characters deleted. */
  predicate IsSubsequence(a: string, b: string)
    decreases |b|
  {
    if a == [] then true
    else if b == [] then false
    else (a[0] == b[0] && IsSubsequence(a[1..], b[1..])) || IsSubsequence(a, b[1..])
  }

  /** The result only deletes characters: it is a subsequence of the input. */
  lemma {:induction false} SanitizeIsSubsequence(s: string)
    ensures IsSubsequence(Sanitize(s), s)
  {
    if s != [] {
      SanitizeIsSubsequence(s[1..]);
      if IsNameChar(s[0]) {
        assert Sanitize(s) == [s[0]] + Sanitize(s[1..]);
        assert Sanitize(s)[1..] == Sanitize(s[1..]);
      } else {
        assert Sanitize(s) == Sanitize(s[1..]);
        SubsequenceOfTail(Sanitize(s[1..]), s);
      }
    }
  }

  lemma SubsequenceOfTail(a: string, b: string)
    requires b != [] && IsSubsequence(a, b[1..])
    ensures IsSubsequence(a, b)
  {
  }

  /** A name is left as it is exactly when it already uses only the allowed
      characters. */
  lemma {:induction false} SanitizeFixedPoints(s: string)
    ensures Sanitize(s) == s <==> AllNameChars(s)
  {
    if s != [] {
      SanitizeFixedPoints(s[1..]);
      if !IsNameChar(s[0]) {
        assert |Sanitize(s)| <= |s[1..]| < |s|;
      } else {
        assert Sanitize(s) == [s[0]] + Sanitize(s[1..]);
        assert s == [s[0]] + s[1..];
        assert AllNameChars(s) <==> AllNameChars(s[1..]);
        if Sanitize(s) == s {
          assert Sanitize(s[1..]) == Sanitize(s)[1..];
        }
      }
    }
  }

  /** Sanitizing twice changes nothing more. */
  lemma SanitizeIdempotent(s: string)
    ensures Sanitize(Sanitize(s)) == Sanitize(s)
  {
    SanitizeFixedPoints(Sanitize(s));
  }

  /** Sanitizing works character by character, so it commutes with concatenation. */
  lemma {:induction false} SanitizeAppend(a: string, b: string)
    ensures Sanitize(a + b) == Sanitize(a) + Sanitize(b)
  {
    if a != [] {
      SanitizeAppend(a[1..], b);
      assert (a + b)[0] == a[0];
      assert (a + b)[1..] == a[1..] + b;
    } else {
      assert a + b == b;
    }
  }

  /** A non-empty sanitized name is never blank: it holds no whitespace. */
  lemma SanitizedNotBlank(s: string)
    requires AllNameChars(s) && s != ""
    ensures !IsBlank(s)
  {
    assert !IsSpace(s[0]);
  }

  // ---------------------------------------------------------------- paste

  /** The pasted text's non-blank lines, `split('\n').filter(row => row.trim())`. */
  function PastedLines(text: string): seq<string> {
    NonBlank(Split(text, {'\n'}))
  }

  /** Two of the three paste handlers drop a leading all-digit column as a
      sequence number; the library Sample Sheet's handler does not. */
  predicate SkipsNumber(kind: SheetKind) {
    kind != LibrarySamples
  }

  /** `columns[k] || ''`. */
  function Column(columns: seq<string>, k: int): string {
    if 0 <= k < |columns| then columns[k] else ""
  }

  /** The columns of one pasted line, `line.split('\t')`. */
  function Columns(line: string): seq<string> {
    Split(line, {'\t'})
  }

  /** The first data column: 1 when a leading all-digit column is skipped. */
  function StartColumn(kind: SheetKind, columns: seq<string>): nat
    requires |columns| >= 1
  {
    if SkipsNumber(kind) && IsDigits(columns[0]) then 1 else 0
  }

  /** The row a pasted line writes at `target`, or `None` when the line has
      no column at or after the first data column (it only pads). */
  function PastedRow(kind: SheetKind, line: string, target: nat): (r: Option<Row>)
    ensures r.Some? ==> r.value.no == target + 1 && AllNameChars(r.value.sampleName) && |r.value.fields| == FieldCount(kind)
  {
    RowFromColumns(kind, Columns(line), target)
  }

  function RowFromColumns(kind: SheetKind, columns: seq<string>, target: nat): (r: Option<Row>)
    requires |columns| >= 1
    ensures r.Some? ==> r.value.no == target + 1 && AllNameChars(r.value.sampleName) && |r.value.fields| == FieldCount(kind)
  {
    var startCol := StartColumn(kind, columns);
    if |columns| > startCol then
      Some(Row(target + 1, Sanitize(Column(columns, startCol)),
               seq(FieldCount(kind), k => Column(columns, startCol + 1 + k))))
    else None
  }

  /** The sheet length after pasting `k` lines at `start`: unchanged when
      nothing was pasted, otherwise long enough to hold the last target. */
  function PastedLength(oldLength: nat, start: nat, k: nat): nat {
    if k == 0 then oldLength
    else if oldLength < start + k then start + k else oldLength
  }

  /** Row `i` of the sheet after pasting `lines` at `start`: the pasted row
      where one was written, the old row where the sheet had one, and a
      blank padding row otherwise. */
  function AfterPaste(sheet: seq<Row>, kind: SheetKind, lines: seq<string>, start: nat, i: nat): Row {
    if start <= i < start + |lines| && PastedRow(kind, lines[i - start], i).Some? then
      PastedRow(kind, lines[i - start], i).value
    else if i < |sheet| then sheet[i]
    else BlankRow(kind, i + 1)
  }

  /** Grows `r` with blank rows numbered from `|r| + 1` until it has a row
      at `target`. */
  method Pad(r0: seq<Row>, kind: SheetKind, target: nat) returns (r: seq<Row>)
    ensures |r| == if target < |r0| then |r0| else target + 1
    ensures forall i :: 0 <= i < |r| ==> r[i] == if i < |r0| then r0[i] else BlankRow(kind, i + 1)
  {
    r := r0;
    while target >= |r|
      invariant |r0| <= |r| <= if target < |r0| then |r0| else target + 1
      invariant forall i :: 0 <= i < |r| ==> r[i] == if i < |r0| then r0[i] else BlankRow(kind, i + 1)
      decreases target + 1 - |r|
    {
      r := r + [BlankRow(kind, |r| + 1)];
    }
  }

  /** One step of the paste: the sheet after line `n` equals the sheet
      described for the first `n + 1` lines. */
  lemma PasteStep(sheet: seq<Row>, kind: SheetKind, lines: seq<string>, start: nat, n: nat, padded: seq<Row>, r: seq<Row>)
    requires n < |lines|
    requires |padded| == if start + n < PastedLength(|sheet|, start, n) then PastedLength(|sheet|, start, n) else start + n + 1
    requires forall i :: 0 <= i < |padded| ==>
               padded[i] == if i < PastedLength(|sheet|, start, n) then AfterPaste(sheet, kind, lines[..n], start, i) else BlankRow(kind, i + 1)
    requires r == if PastedRow(kind, lines[n], start + n).Some? then padded[start + n := PastedRow(kind, lines[n], start + n).value] else padded
    ensures |r| == PastedLength(|sheet|, start, n + 1)
    ensures forall i :: 0 <= i < |r| ==> r[i] == AfterPaste(sheet, kind, lines[..n + 1], start, i)
  {
    var p, q := lines[..n], lines[..n + 1];
    assert forall k :: 0 <= k < n ==> q[k] == p[k];
    forall i | 0 <= i < |r|
      ensures r[i] == AfterPaste(sheet, kind, q, start, i)
    {
      if i == start + n {
        assert q[i - start] == lines[n];
      } else if start <= i < start + n {
        assert q[i - start] == p[i - start];
      }
    }
  }

  /** The paste handlers: the non-blank lines of `text` overwrite the rows
      from `startIndex` on, the sheet first padded with blank rows as far as
      needed; `pasted` is the number of lines reported. */
  method Paste(sheet: seq<Row>, kind: SheetKind, text: string, startIndex: nat) returns (r: seq<Row>, pasted: nat)
    ensures pasted == |PastedLines(text)|
    ensures |r| == PastedLength(|sheet|, startIndex, pasted)
    ensures forall i :: 0 <= i < |r| ==> r[i] == AfterPaste(sheet, kind, PastedLines(text), startIndex, i)
  {
    var lines := PastedLines(text);
    r := sheet;
    var rowIndex := 0;
    assert lines[..0] == [];
    while rowIndex < |lines|
      invariant 0 <= rowIndex <= |lines|
      invariant |r| == PastedLength(|sheet|, startIndex, rowIndex)
      invariant forall i :: 0 <= i < |r| ==> r[i] == AfterPaste(sheet, kind, lines[..rowIndex], startIndex, i)
    {
      var targetIndex := startIndex + rowIndex;
      var row := PastedRow(kind, lines[rowIndex], targetIndex);
      var padded := Pad(r, kind, targetIndex);
      var next := padded;
      if row.Some? {
        next := padded[targetIndex := row.value];
      }
      PasteStep(sheet, kind, lines, startIndex, rowIndex, padded, next);
      r := next;
      rowIndex := rowIndex + 1;
    }
    assert lines[..rowIndex] == lines;
    pasted := |lines|;
  }

  /** Rows before `startIndex` and after the last pasted line keep their
      contents; every target row that was written carries its own number
      and a sanitized name; padding rows are blank. */
  lemma PasteFrame(sheet: seq<Row>, kind: SheetKind, lines: seq<string>, start: nat, i: nat)
    ensures (i < start || i >= start + |lines|) && i < |sheet| ==> AfterPaste(sheet, kind, lines, start, i) == sheet[i]
    ensures (i < start || i >= start + |lines|) && i >= |sheet| ==> AfterPaste(sheet, kind, lines, start, i) == BlankRow(kind, i + 1)
    ensures start <= i < start + |lines| && PastedRow(kind, lines[i - start], i).Some? ==>
              AfterPaste(sheet, kind, lines, start, i).no == i + 1 &&
              AllNameChars(AfterPaste(sheet, kind, lines, start, i).sampleName)
  {
  }

  /** Pasting keeps every row with the columns of its kind. */
  lemma PasteKeepsWellFormed(sheet: seq<Row>, kind: SheetKind, lines: seq<string>, start: nat, r: seq<Row>)
    requires WellFormed(sheet, kind)
    requires forall i :: 0 <= i < |r| ==> r[i] == AfterPaste(sheet, kind, lines, start, i)
    ensures WellFormed(r, kind)
  {
  }

  /** The number cell a copied-out row starts with: present only in the
      tables that skip one when pasting. */
  function NumberCells(kind: SheetKind, row: Row): seq<string>
    requires row.no >= 0
  {
    if SkipsNumber(kind) then [NatToString(row.no)] else []
  }

  /** The tab-separated line a row is copied out as: its number first when
      the table skips one, then the name and the data columns. */
  function RowLine(kind: SheetKind, row: Row): string
    requires row.no >= 0
  {
    Join(NumberCells(kind, row) + [row.sampleName] + row.fields, '\t')
  }

  lemma {:induction false} SplitFreePrefix(a: string, b: string, seps: set<char>)
    requires FreeOf(a, seps)
    ensures Split(a + b, seps) == [a + Split(b, seps)[0]] + Split(b, seps)[1..]
  {
    if a != [] {
      SplitFreePrefix(a[1..], b, seps);
      assert (a + b)[0] == a[0];
      assert (a + b)[1..] == a[1..] + b;
      assert [a[0]] + (a[1..] + Split(b, seps)[0]) == a + Split(b, seps)[0];
    } else {
      assert a + b == b;
      assert a + Split(b, seps)[0] == Split(b, seps)[0];
      assert Split(b, seps) == [Split(b, seps)[0]] + Split(b, seps)[1..];
    }
  }

  /** Joining pieces free of the separator and splitting again gives the
      pieces back. */
  lemma {:induction false} JoinSplit(pieces: seq<string>, sep: char)
    requires |pieces| >= 1
    requires forall k :: 0 <= k < |pieces| ==> FreeOf(pieces[k], {sep})
    ensures Split(Join(pieces, sep), {sep}) == pieces
  {
    if |pieces| == 1 {
      SplitFreePrefix(pieces[0], "", {sep});
      assert pieces[0] + "" == pieces[0];
    } else {
      var rest := Join(pieces[1..], sep);
      JoinSplit(pieces[1..], sep);
      assert Split([sep] + rest, {sep}) == [""] + Split(rest, {sep});
      SplitFreePrefix(pieces[0], [sep] + rest, {sep});
      assert pieces[0] + [sep] + rest == pieces[0] + ([sep] + rest);
      assert pieces[0] + "" == pieces[0];
      assert ([""] + pieces[1..])[1..] == pieces[1..];
    }
  }

  lemma NatToStringTabFree(n: nat)
    ensures FreeOf(NatToString(n), {'\t'}) && IsDigits(NatToString(n))
  {
  }

  /** The columns `number ++ [name] ++ fields` make the row back. */
  lemma RowFromCells(kind: SheetKind, number: seq<string>, row: Row)
    requires row.no >= 1 && |row.fields| == FieldCount(kind)
    requires Sanitize(row.sampleName) == row.sampleName
    requires |number| == (if SkipsNumber(kind) then 1 else 0)
    requires SkipsNumber(kind) ==> IsDigits(number[0])
    ensures RowFromColumns(kind, number + [row.sampleName] + row.fields, row.no - 1) == Some(row)
  {
    var columns := number + [row.sampleName] + row.fields;
    var startCol := |number|;
    assert StartColumn(kind, columns) == startCol;
    assert columns[startCol] == row.sampleName;
    assert forall k :: 0 <= k < |row.fields| ==> columns[startCol + 1 + k] == row.fields[k];
    var r := RowFromColumns(kind, columns, row.no - 1).value;
    assert |r.fields| == |row.fields|;
    forall k | 0 <= k < |row.fields| ensures r.fields[k] == row.fields[k] {
      assert r.fields[k] == Column(columns, startCol + 1 + k);
    }
    assert r.fields == row.fields;
    assert r.sampleName == Sanitize(Column(columns, startCol)) == row.sampleName;
  }

  /** Copying a well-formed row out as a tab-separated line and reading that
      line back at the row's own position gives the row back, provided the
      name is already sanitized and no cell contains a tab. Only the leading
      number column is tested for digits, so an all-digit name comes back
      as it was. */
  lemma PasteRowRoundTrip(kind: SheetKind, row: Row)
    requires row.no >= 1 && |row.fields| == FieldCount(kind)
    requires AllNameChars(row.sampleName)
    requires forall k :: 0 <= k < |row.fields| ==> FreeOf(row.fields[k], {'\t'})
    ensures PastedRow(kind, RowLine(kind, row), row.no - 1) == Some(row)
  {
    var number := NumberCells(kind, row);
    RowLineColumns(kind, row);
    SanitizeFixedPoints(row.sampleName);
    NatToStringTabFree(row.no);
    RowFromCells(kind, number, row);
  }

  /** Pasting a single line that yields a row at `start`: that row is
      written there, every other old row is kept, and blank rows pad the
      table up to it. */
  lemma PasteOneLine(sheet: seq<Row>, kind: SheetKind, line: string, start: nat, row: Row)
    requires PastedRow(kind, line, start) == Some(row)
    ensures PastedLength(|sheet|, start, 1) == if |sheet| <= start then start + 1 else |sheet|
    ensures forall i :: 0 <= i < PastedLength(|sheet|, start, 1) ==>
              AfterPaste(sheet, kind, [line], start, i) ==
                if i == start then row else if i < |sheet| then sheet[i] else BlankRow(kind, i + 1)
  {
  }

  /** A copied-out row is one clipboard line: its text has no newline, and
      it is blank only in the library Sample Sheet, whose lines carry no
      number. A blank line pastes nothing; any other is the one pasted
      line. */
  lemma RowLineIsOneLine(kind: SheetKind, row: Row)
    requires row.no >= 1
    requires AllNameChars(row.sampleName)
    requires forall k :: 0 <= k < |row.fields| ==> FreeOf(row.fields[k], {'\n'})
    ensures SkipsNumber(kind) ==> !IsBlank(RowLine(kind, row))
    ensures IsBlank(RowLine(kind, row)) ==> PastedLines(RowLine(kind, row)) == []
    ensures !IsBlank(RowLine(kind, row)) ==> PastedLines(RowLine(kind, row)) == [RowLine(kind, row)]
  {
    var line := RowLine(kind, row);
    var cells := NumberCells(kind, row) + [row.sampleName] + row.fields;
    NatToStringTabFree(row.no);
    forall k | 0 <= k < |cells| ensures FreeOf(cells[k], {'\n'}) {
      if k > |NumberCells(kind, row)| {
        assert cells[k] == row.fields[k - |NumberCells(kind, row)| - 1];
      }
    }
    JoinFree(cells, '\t', {'\n'});
    SplitFree(line, {'\n'});
    if SkipsNumber(kind) {
      assert cells[0] == NatToString(row.no) && line[0] == cells[0][0];
    }
  }

  /** A copied-out row pasted back as the whole clipboard text at its own
      position: a blank line pastes nothing; any other writes the row back
      at its place, keeps every other row and pads with blank rows up to
      it. */
  lemma PasteLineRoundTrip(sheet: seq<Row>, kind: SheetKind, row: Row)
    requires row.no >= 1 && |row.fields| == FieldCount(kind)
    requires AllNameChars(row.sampleName)
    requires forall k :: 0 <= k < |row.fields| ==> FreeOf(row.fields[k], {'\t', '\n'})
    ensures IsBlank(RowLine(kind, row)) ==> !SkipsNumber(kind) && PastedLines(RowLine(kind, row)) == []
    ensures !IsBlank(RowLine(kind, row)) ==>
              forall i :: 0 <= i < PastedLength(|sheet|, row.no - 1, |PastedLines(RowLine(kind, row))|) ==>
                AfterPaste(sheet, kind, PastedLines(RowLine(kind, row)), row.no - 1, i) ==
                  if i == row.no - 1 then row else if i < |sheet| then sheet[i] else BlankRow(kind, i + 1)
  {
    assert forall k :: 0 <= k < |row.fields| ==> FreeOf(row.fields[k], {'\t'}) && FreeOf(row.fields[k], {'\n'});
    RowLineIsOneLine(kind, row);
    if !IsBlank(RowLine(kind, row)) {
      PasteRowRoundTrip(kind, row);
      PasteOneLine(sheet, kind, RowLine(kind, row), row.no - 1, row);
    }
  }

  /** The copied-out line splits back into its cells. */
  lemma RowLineColumns(kind: SheetKind, row: Row)
    requires row.no >= 0
    requires AllNameChars(row.sampleName)
    requires forall k :: 0 <= k < |row.fields| ==> FreeOf(row.fields[k], {'\t'})
    ensures Columns(RowLine(kind, row)) == NumberCells(kind, row) + [row.sampleName] + row.fields
  {
    CellsTabFree(row, NumberCells(kind, row));
    JoinSplit(NumberCells(kind, row) + [row.sampleName] + row.fields, '\t');
  }

  lemma CellsTabFree(row: Row, number: seq<string>)
    requires row.no >= 0
    requires number == [] || number == [NatToString(row.no)]
    requires AllNameChars(row.sampleName)
    requires forall k :: 0 <= k < |row.fields| ==> FreeOf(row.fields[k], {'\t'})
    ensures var all := number + [row.sampleName] + row.fields;
      forall k :: 0 <= k < |all| ==> FreeOf(all[k], {'\t'})
  {
    var all := number + [row.sampleName] + row.fields;
    NatToStringTabFree(row.no);
    forall k | 0 <= k < |all| ensures FreeOf(all[k], {'\t'}) {
      if k >= |number| + 1 {
        assert all[k] == row.fields[k - |number| - 1];
      } else if k == |number| {
        assert all[k] == row.sampleName;
      }
    }
  }

  // ---------------------------------------------------------------- editing rows

  /** `add…Row`: appends a blank row numbered one past the current length. */
  function AddRow(sheet: seq<Row>, kind: SheetKind): (r: seq<Row>)
    ensures |r| == |sheet| + 1 && r[..|sheet|] == sheet
    ensures r[|sheet|] == BlankRow(kind, |sheet| + 1)
    ensures WellFormed(sheet, kind) ==> WellFormed(r, kind)
  {
    sheet + [BlankRow(kind, |sheet| + 1)]
  }

  /** `remove…Row`: refused (至少需要保留一行) when one row is left;
      otherwise the row at `index` is dropped and the others keep their
      numbers. */
  function RemoveRow(sheet: seq<Row>, index: nat): (r: Option<seq<Row>>)
    ensures r.None? <==> |sheet| == 1
    ensures r.Some? ==> r.value == RemoveAt(sheet, index)
    ensures |sheet| >= 1 && r.Some? ==> |r.value| >= 1
  {
    RemoveKeepingOne(sheet, index)
  }

  /** Which cell of a row an edit writes. */
  datatype RowField = NameField | DataField(column: nat)

  /** The `handle…Change` handlers: write one cell, sanitizing a new
      Sample_Name. */
  function ChangeCell(sheet: seq<Row>, index: nat, field: RowField, value: string): (r: seq<Row>)
    requires index < |sheet|
    requires field.DataField? ==> field.column < |sheet[index].fields|
    ensures |r| == |sheet|
    ensures forall i :: 0 <= i < |r| && i != index ==> r[i] == sheet[i]
    ensures r[index].no == sheet[index].no && |r[index].fields| == |sheet[index].fields|
    ensures field.NameField? ==> r[index] == sheet[index].(sampleName := Sanitize(value))
    ensures field.DataField? ==>
              r[index].sampleName == sheet[index].sampleName &&
              r[index].fields == sheet[index].fields[field.column := value]
  {
    var row := sheet[index];
    var row' := match field
      case NameField => row.(sampleName := Sanitize(value))
      case DataField(k) => row.(fields := row.fields[k := value]);
    sheet[index := row']
  }

  // ---------------------------------------------------------------- counting named rows

  predicate IsNamed(row: Row) {
    !IsBlank(row.sampleName)
  }

  /** `sheet.filter(row => row.sampleName && row.sampleName.trim() !== '').length`. */
  function CountNamed(sheet: seq<Row>): (n: nat)
    ensures n <= |sheet|
  {
    if sheet == [] then 0
    else CountNamed(sheet[..|sheet| - 1]) + (if IsNamed(sheet[|sheet| - 1]) then 1 else 0)
  }

  /** Every row counts exactly when all rows are named, and none counts
      exactly when none is. */
  lemma {:induction false} CountNamedBounds(sheet: seq<Row>)
    ensures CountNamed(sheet) == |sheet| <==> forall i :: 0 <= i < |sheet| ==> IsNamed(sheet[i])
    ensures CountNamed(sheet) == 0 <==> forall i :: 0 <= i < |sheet| ==> !IsNamed(sheet[i])
  {
    if sheet != [] {
      var front := sheet[..|sheet| - 1];
      CountNamedBounds(front);
      assert forall i :: 0 <= i < |front| ==> front[i] == sheet[i];
    }
  }

  lemma {:induction false} CountNamedAppend(a: seq<Row>, b: seq<Row>)
    ensures CountNamed(a + b) == CountNamed(a) + CountNamed(b)
    decreases |b|
  {
    if b == [] {
      assert a + b == a;
    } else {
      CountNamedAppend(a, b[..|b| - 1]);
      assert (a + b)[..|a + b| - 1] == a + b[..|b| - 1];
    }
  }

  /** Adding a blank row leaves the count alone. */
  lemma CountAfterAdd(sheet: seq<Row>, kind: SheetKind)
    ensures CountNamed(AddRow(sheet, kind)) == CountNamed(sheet)
  {
    CountNamedAppend(sheet, [BlankRow(kind, |sheet| + 1)]);
    assert [BlankRow(kind, |sheet| + 1)][..0] == [];
  }

  lemma CountOne(row: Row)
    ensures CountNamed([row]) == if IsNamed(row) then 1 else 0
  {
    assert [row][..0] == [];
  }

  /** Taking one row out of the middle lowers the count by one exactly when
      that row was named. */
  lemma CountAround(a: seq<Row>, x: Row, b: seq<Row>)
    ensures CountNamed(a + [x] + b) == CountNamed(a + b) + (if IsNamed(x) then 1 else 0)
  {
    CountNamedAppend(a, b);
    CountNamedAppend(a + [x], b);
    CountNamedAppend(a, [x]);
    CountOne(x);
  }

  /** Removing a row lowers the count by one exactly when that row was named. */
  lemma CountAfterRemove(sheet: seq<Row>, index: nat)
    requires index < |sheet|
    ensures CountNamed(RemoveAt(sheet, index)) == CountNamed(sheet) - (if IsNamed(sheet[index]) then 1 else 0)
  {
    SplitAround(sheet, index);
    CountAround(sheet[..index], sheet[index], sheet[index + 1..]);
  }

  // ---------------------------------------------------------------- duplicate names

  /** `sheet.map(row => row.sampleName.trim()).filter(name => name)`. */
  function TrimmedNames(sheet: seq<Row>): (names: seq<string>)
    ensures forall k :: 0 <= k < |names| ==> names[k] != ""
    ensures forall x :: x in names <==> x != "" && exists i :: 0 <= i < |sheet| && Trim(sheet[i].sampleName) == x
    ensures |sheet| == 1 ==> names == if Trim(sheet[0].sampleName) == "" then [] else [Trim(sheet[0].sampleName)]
  {
    if sheet == [] then []
    else
      var rest := TrimmedNames(sheet[1..]);
      assert forall i :: 0 < i < |sheet| ==> sheet[i] == sheet[1..][i - 1];
      var t := Trim(sheet[0].sampleName);
      if t == "" then rest else [t] + rest
  }

  /** The trimmed names of two tables put together are those of the first
      followed by those of the second: every row keeps its place and its
      repeats. */
  lemma {:induction false} TrimmedNamesAppend(a: seq<Row>, b: seq<Row>)
    ensures TrimmedNames(a + b) == TrimmedNames(a) + TrimmedNames(b)
  {
    if a == [] {
      EmptyAppend(a, b);
      EmptyAppend(TrimmedNames(a), TrimmedNames(b));
    } else {
      TrimmedNamesAppend(a[1..], b);
      TailOfAppend(a, b);
      var t := Trim(a[0].sampleName);
      AppendAssoc(if t == "" then [] else [t], TrimmedNames(a[1..]), TrimmedNames(b));
    }
  }

  /** No two rows carry the same non-empty trimmed name. */
  predicate NamesDistinct(sheet: seq<Row>) {
    forall i, j :: 0 <= i < j < |sheet| && Trim(sheet[i].sampleName) != "" ==>
      Trim(sheet[i].sampleName) != Trim(sheet[j].sampleName)
  }

  lemma NamesDistinctCons(sheet: seq<Row>)
    requires sheet != []
    ensures var t := Trim(sheet[0].sampleName);
      NamesDistinct(sheet) <==> NamesDistinct(sheet[1..]) && (t != "" ==> t !in TrimmedNames(sheet[1..]))
  {
    var t := Trim(sheet[0].sampleName);
    var tail := sheet[1..];
    assert forall i :: 1 <= i < |sheet| ==> sheet[i] == tail[i - 1];
    if NamesDistinct(sheet) {
      forall i, j | 0 <= i < j < |tail| && Trim(tail[i].sampleName) != ""
        ensures Trim(tail[i].sampleName) != Trim(tail[j].sampleName)
      {
        assert tail[i] == sheet[i + 1] && tail[j] == sheet[j + 1];
      }
      forall i | 0 <= i < |tail| && t != "" ensures Trim(tail[i].sampleName) != t {
        assert tail[i] == sheet[i + 1];
      }
    }
    if NamesDistinct(tail) && (t != "" ==> t !in TrimmedNames(tail)) {
      forall i, j | 0 <= i < j < |sheet| && Trim(sheet[i].sampleName) != ""
        ensures Trim(sheet[i].sampleName) != Trim(sheet[j].sampleName)
      {
        if i > 0 {
          assert sheet[i] == tail[i - 1] && sheet[j] == tail[j - 1];
        } else {
          assert Trim(tail[j - 1].sampleName) in TrimmedNames(tail) || Trim(tail[j - 1].sampleName) == "";
        }
      }
    }
  }

  /** The trimmed-name list is free of repeats exactly when no two rows of
      the table carry the same non-empty trimmed name. */
  lemma {:induction false} TrimmedNamesDistinct(sheet: seq<Row>)
    ensures NoDuplicates(TrimmedNames(sheet)) <==> NamesDistinct(sheet)
  {
    if sheet != [] {
      TrimmedNamesDistinct(sheet[1..]);
      NamesDistinctCons(sheet);
      var t := Trim(sheet[0].sampleName);
      if t != "" {
        NoDuplicatesCons(t, TrimmedNames(sheet[1..]));
      }
    }
  }

  /** `names.filter((name, index) => names.indexOf(name) !== index)` restricted
      to the first `m` positions: every name at a position other than its
      first occurrence. */
  function RepeatsIn(names: seq<string>, m: nat): (r: seq<string>)
    requires m <= |names|
    ensures forall x :: x in r <==> exists j :: 0 <= j < m && names[j] == x && IndexOf(names, x) != j
  {
    if m == 0 then []
    else
      var rest := RepeatsIn(names, m - 1);
      var x := names[m - 1];
      if IndexOf(names, x) != m - 1 then rest + [x] else rest
  }

  /** A name is a repeat exactly when it sits at two different positions. */
  lemma RepeatedAtTwo(names: seq<string>, x: string)
    ensures x in RepeatsIn(names, |names|) <==>
              exists i, j :: 0 <= i < j < |names| && names[i] == x && names[j] == x
  {
    if x in RepeatsIn(names, |names|) {
      var j :| 0 <= j < |names| && names[j] == x && IndexOf(names, x) != j;
      var i := IndexOf(names, x);
      assert i < j && names[i] == x;
    }
    if exists i, j :: 0 <= i < j < |names| && names[i] == x && names[j] == x {
      var i, j :| 0 <= i < j < |names| && names[i] == x && names[j] == x;
      assert IndexOf(names, x) <= i;
    }
  }

  /** The names a step-3 message lists: the repeated ones, each once. */
  function DuplicateNames(sheet: seq<Row>): seq<string> {
    var names := TrimmedNames(sheet);
    Distinct(RepeatsIn(names, |names|))
  }

  /** Over any list of names: the repeats are exactly the names at two
      different positions. */
  lemma RepeatsAtTwo(names: seq<string>)
    ensures forall x :: x in RepeatsIn(names, |names|) <==>
              exists i, j :: 0 <= i < j < |names| && names[i] == x && names[j] == x
  {
    forall x ensures x in RepeatsIn(names, |names|) <==>
                     exists i, j :: 0 <= i < j < |names| && names[i] == x && names[j] == x {
      RepeatedAtTwo(names, x);
    }
  }

  /** There is no repeat exactly when the names are all different. */
  lemma NoRepeats(names: seq<string>)
    ensures RepeatsIn(names, |names|) == [] <==> NoDuplicates(names)
  {
    RepeatsAtTwo(names);
    var reps := RepeatsIn(names, |names|);
    if reps != [] {
      assert reps[0] in reps;
    }
    if !NoDuplicates(names) {
      var i, j :| 0 <= i < j < |names| && names[i] == names[j];
      assert names[i] in reps;
    }
  }

  /** The reported names are exactly the non-empty trimmed names that occur
      at two different rows, each reported once; so the gate passes exactly
      when the trimmed names are all different. */
  lemma DuplicateNamesExact(sheet: seq<Row>)
    ensures var names := TrimmedNames(sheet);
      && (forall x :: x in DuplicateNames(sheet) <==>
            exists i, j :: 0 <= i < j < |names| && names[i] == x && names[j] == x)
      && NoDuplicates(DuplicateNames(sheet))
      && (DuplicateNames(sheet) == [] <==> NoDuplicates(names))
  {
    ReportedRepeats(TrimmedNames(sheet));
  }

  /** Over any list of names: the report lists each repeat once, and is
      empty exactly when the names are all different. */
  lemma ReportedRepeats(names: seq<string>)
    ensures forall x :: x in Distinct(RepeatsIn(names, |names|)) <==>
              exists i, j :: 0 <= i < j < |names| && names[i] == x && names[j] == x
    ensures NoDuplicates(Distinct(RepeatsIn(names, |names|)))
    ensures Distinct(RepeatsIn(names, |names|)) == [] <==> NoDuplicates(names)
  {
    var reps := RepeatsIn(names, |names|);
    RepeatsAtTwo(names);
    NoRepeats(names);
    if Distinct(reps) != [] {
      assert Distinct(reps)[0] in reps;
    }
  }

  // ---------------------------------------------------------------- expected yield

  /** The column holding `expectedSeq` in the two tables that have one. */
  function ExpectedSeqColumn(kind: SheetKind): nat {
    if kind == LibrarySamples then 4 else 1
  }

  /** The yield a row asks for; `yieldOf` stands for `parseFloat(…) || 0`. */
  function RowYield(row: Row, kind: SheetKind, yieldOf: string -> real): real {
    yieldOf(Column(row.fields, ExpectedSeqColumn(kind)))
  }

  function TotalYield(sheet: seq<Row>, kind: SheetKind, yieldOf: string -> real): real {
    if sheet == [] then 0.0
    else TotalYield(sheet[..|sheet| - 1], kind, yieldOf) + RowYield(sheet[|sheet| - 1], kind, yieldOf)
  }

  /** The `forEach` accumulating the expected yield of a table. */
  method SumYields(sheet: seq<Row>, kind: SheetKind, yieldOf: string -> real) returns (total: real)
    ensures total == TotalYield(sheet, kind, yieldOf)
  {
    total := 0.0;
    var i := 0;
    while i < |sheet|
      invariant 0 <= i <= |sheet|
      invariant total == TotalYield(sheet[..i], kind, yieldOf)
    {
      total := total + RowYield(sheet[i], kind, yieldOf);
      assert sheet[..i + 1][..i] == sheet[..i];
      i := i + 1;
    }
    assert sheet[..i] == sheet;
  }

  /** The total is additive over the rows, and rows whose yield reads as 0
      (every padding row, when `yieldOf("")` is 0) add nothing. */
  lemma {:induction false} TotalYieldAppend(a: seq<Row>, b: seq<Row>, kind: SheetKind, yieldOf: string -> real)
    ensures TotalYield(a + b, kind, yieldOf) == TotalYield(a, kind, yieldOf) + TotalYield(b, kind, yieldOf)
    decreases |b|
  {
    if b == [] {
      assert a + b == a;
    } else {
      TotalYieldAppend(a, b[..|b| - 1], kind, yieldOf);
      assert (a + b)[..|a + b| - 1] == a + b[..|b| - 1];
    }
  }

  lemma BlankRowsAddNoYield(sheet: seq<Row>, kind: SheetKind, yieldOf: string -> real)
    requires yieldOf("") == 0.0
    ensures TotalYield(AddRow(sheet, kind), kind, yieldOf) == TotalYield(sheet, kind, yieldOf)
  {
    assert AddRow(sheet, kind)[..|sheet|] == sheet;
  }

  // ---------------------------------------------------------------- spreadsheet import

  /** One cell of an already-parsed worksheet row: absent (a hole or past
      the end), text, a number, or a boolean. */
  datatype Cell = Missing | Text(text: string) | Number(value: int) | Boolean(flag: bool)

  /** `row[k]`, absent past the end. */
  function CellAt(row: seq<Cell>, k: int): Cell {
    if 0 <= k < |row| then row[k] else Missing
  }

  /** `typeof c === 'number' || !isNaN(c)`: numbers and booleans count,
      text counts when it reads as a number (`""` and blanks do), an absent
      cell does not. */
  predicate LooksNumeric(c: Cell) {
    match c
    case Missing => false
    case Text(s) => IsNumericString(s)
    case Number(_) => true
    case Boolean(_) => true
  }

  /** `String(c ?? '')`. */
  function CellText(c: Cell): string {
    match c
    case Missing => ""
    case Text(s) => s
    case Number(n) => IntToString(n)
    case Boolean(b) => if b then "true" else "false"
  }

  /** `sanitizeSampleName(c ?? '')`: falsy values (absent, `""`, `0`,
      `false`) give `''`. */
  function CellName(c: Cell): (r: string)
    ensures AllNameChars(r)
    ensures c.Missing? ==> r == ""
  {
    match c
    case Missing => ""
    case Text(s) => Sanitize(s)
    case Number(n) => if n == 0 then "" else Sanitize(IntToString(n))
    case Boolean(b) => if b then "true" else ""  // already free of other characters
  }

  /** Rejected names: empty, or a `Sample_Nam…` template placeholder. */
  predicate IsPlaceholder(name: string) {
    name == "" || StartsWith(name, "Sample_Nam")
  }

  /** Where the name is read: column 1 when the first cell looks like a
      sequence number, else column 0. */
  function NameColumn(row: seq<Cell>): (k: nat)
    ensures k <= 1
  {
    if LooksNumeric(CellAt(row, 0)) then 1 else 0
  }

  /** The name under which a worksheet line is kept, or `None` when it is
      dropped: lines of one cell or less, and placeholder names. */
  function KeptName(row: seq<Cell>): Option<string> {
    if |row| <= 1 then None
    else
      var name := CellName(CellAt(row, NameColumn(row)));
      if IsPlaceholder(name) then None else Some(name)
  }

  /** A kept line has more than one cell and a sanitized, non-placeholder name. */
  lemma KeptNameValid(row: seq<Cell>)
    ensures KeptName(row).Some? ==> |row| > 1 && !IsPlaceholder(KeptName(row).value) && AllNameChars(KeptName(row).value)
  {
  }

  /** `String(row[start + k] ?? '')` for the `count` columns from `start`. */
  function CellTexts(row: seq<Cell>, start: nat, count: nat): (r: seq<string>)
    ensures |r| == count
    ensures forall k :: 0 <= k < count ==> r[k] == CellText(CellAt(row, start + k))
  {
    seq(count, k => CellText(CellAt(row, start + k)))
  }

  /** Reading past a prefix reads the rest. */
  lemma CellTextsAfter(prefix: seq<Cell>, rest: seq<Cell>, count: nat)
    ensures CellTexts(prefix + rest, |prefix|, count) == CellTexts(rest, 0, count)
  {
    var line := prefix + rest;
    forall k | 0 <= k < count ensures CellAt(line, |prefix| + k) == CellAt(rest, k) {
      if k < |rest| {
        assert line[|prefix| + k] == rest[k];
      }
    }
  }

  /** The row a kept worksheet line becomes, numbered `no`; its data
      columns are the cells after the name. */
  function ImportedRow(row: seq<Cell>, kind: SheetKind, no: int): (r: Row)
    requires KeptName(row).Some?
    ensures r.no == no && r.sampleName == KeptName(row).value && |r.fields| == FieldCount(kind)
  {
    Row(no, KeptName(row).value, CellTexts(row, NameColumn(row) + 1, FieldCount(kind)))
  }

  /** One `forEach` step: a line read past the headers and kept is pushed,
      numbered one past the rows so far. */
  function PushKept(front: seq<Row>, line: seq<Cell>, kind: SheetKind, pastHeaders: bool): (r: seq<Row>)
    ensures |front| <= |r| <= |front| + 1
    ensures r[..|front|] == front
  {
    if pastHeaders && KeptName(line).Some? then front + [ImportedRow(line, kind, |front| + 1)] else front
  }

  /** The kept rows of the first `m` worksheet lines, skipping the first
      `headerRows` lines, numbered from 1 in order. */
  function Imported(rows: seq<seq<Cell>>, kind: SheetKind, headerRows: nat, m: nat): (r: seq<Row>)
    requires m <= |rows|
    ensures |r| <= m
  {
    if m == 0 then []
    else PushKept(Imported(rows, kind, headerRows, m - 1), rows[m - 1], kind, m - 1 >= headerRows)
  }

  /** An imported row in position `no`: numbered `no`, with a sanitized
      name that is not a placeholder and the columns of its table. */
  predicate ShapedRow(row: Row, no: int, kind: SheetKind) {
    row.no == no && !IsPlaceholder(row.sampleName) && AllNameChars(row.sampleName) && |row.fields| == FieldCount(kind)
  }

  /** The imported rows are numbered 1, 2, … in order, carry sanitized names
      that are not placeholders, and have the columns of their table. */
  lemma {:induction false} ImportedShape(rows: seq<seq<Cell>>, kind: SheetKind, headerRows: nat, m: nat)
    requires m <= |rows|
    ensures forall k :: 0 <= k < |Imported(rows, kind, headerRows, m)| ==>
              ShapedRow(Imported(rows, kind, headerRows, m)[k], k + 1, kind)
  {
    if m > 0 {
      var front := Imported(rows, kind, headerRows, m - 1);
      ImportedShape(rows, kind, headerRows, m - 1);
      ImportedStep(rows, kind, headerRows, m);
      if m - 1 >= headerRows && KeptName(rows[m - 1]).Some? {
        var last := ImportedRow(rows[m - 1], kind, |front| + 1);
        KeptNameValid(rows[m - 1]);
        assert ShapedRow(last, |front| + 1, kind);
        var r := front + [last];
        forall k | 0 <= k < |r| ensures ShapedRow(r[k], k + 1, kind) {
          if k < |front| {
            assert r[k] == front[k];
          }
        }
      }
    }
  }

  /** One more worksheet line appends its row when it is kept. */
  lemma ImportedStep(rows: seq<seq<Cell>>, kind: SheetKind, headerRows: nat, m: nat)
    requires 0 < m <= |rows|
    ensures var front := Imported(rows, kind, headerRows, m - 1);
      Imported(rows, kind, headerRows, m) ==
        if m - 1 >= headerRows && KeptName(rows[m - 1]).Some? then front + [ImportedRow(rows[m - 1], kind, |front| + 1)] else front
  {
  }

  /** Each worksheet line adds one row when it is kept and none otherwise. */
  lemma ImportedLength(rows: seq<seq<Cell>>, kind: SheetKind, headerRows: nat, m: nat)
    requires 0 < m <= |rows|
    ensures |Imported(rows, kind, headerRows, m)| ==
              |Imported(rows, kind, headerRows, m - 1)| + if m - 1 >= headerRows && KeptName(rows[m - 1]).Some? then 1 else 0
  {
  }

  /** One more line never removes a row. */
  lemma ImportedStepGrows(rows: seq<seq<Cell>>, kind: SheetKind, headerRows: nat, m: nat)
    requires 0 < m <= |rows|
    ensures |Imported(rows, kind, headerRows, m - 1)| <= |Imported(rows, kind, headerRows, m)|
  {
  }

  /** The import never shrinks as more lines are read. */
  lemma ImportedMonotone(rows: seq<seq<Cell>>, kind: SheetKind, headerRows: nat, i: nat, m: nat)
    requires i <= m <= |rows|
    ensures |Imported(rows, kind, headerRows, i)| <= |Imported(rows, kind, headerRows, m)|
  {
    var sizes := seq(m + 1, k => if 0 <= k <= m then |Imported(rows, kind, headerRows, k)| else 0);
    forall k | 0 < k < |sizes| ensures sizes[k - 1] <= sizes[k] {
      ImportedStepGrows(rows, kind, headerRows, k);
    }
    StepwiseNondecreasing(sizes, i, m);
  }

  /** A kept line after the headers makes the import non-empty, so the sheet
      is replaced. */
  lemma ImportedHasKeptLine(rows: seq<seq<Cell>>, kind: SheetKind, headerRows: nat, m: nat, j: nat)
    requires headerRows <= j < m <= |rows|
    requires KeptName(rows[j]).Some?
    ensures Imported(rows, kind, headerRows, m) != []
  {
    ImportedLength(rows, kind, headerRows, j + 1);
    ImportedMonotone(rows, kind, headerRows, j + 1, m);
  }

  /** When every line after the headers is dropped the import is empty, so
      the sheet is left as it was. */
  lemma {:induction false} ImportedNoKeptLine(rows: seq<seq<Cell>>, kind: SheetKind, headerRows: nat, m: nat)
    requires m <= |rows|
    requires forall j :: headerRows <= j < m ==> KeptName(rows[j]).None?
    ensures Imported(rows, kind, headerRows, m) == []
  {
    if m > 0 {
      ImportedLength(rows, kind, headerRows, m);
      ImportedNoKeptLine(rows, kind, headerRows, m - 1);
    }
  }

  /** The post-parse `forEach` of the upload handler: walks the worksheet
      lines after the headers and pushes each kept row. */
  method ImportSheet(rows: seq<seq<Cell>>, kind: SheetKind, headerRows: nat) returns (sheet: seq<Row>)
    ensures sheet == Imported(rows, kind, headerRows, |rows|)
  {
    sheet := [];
    var index := 0;
    while index < |rows|
      invariant 0 <= index <= |rows|
      invariant sheet == Imported(rows, kind, headerRows, index)
    {
      sheet := PushKept(sheet, rows[index], kind, index >= headerRows);
      index := index + 1;
    }
  }

  /** Every imported row has the columns of its table. */
  lemma ImportedWellFormed(rows: seq<seq<Cell>>, kind: SheetKind, headerRows: nat)
    ensures WellFormed(Imported(rows, kind, headerRows, |rows|), kind)
  {
    ImportedShape(rows, kind, headerRows, |rows|);
    var r := Imported(rows, kind, headerRows, |rows|);
    forall k | 0 <= k < |r| ensures |r[k].fields| == FieldCount(kind) {
      assert ShapedRow(r[k], k + 1, kind);
    }
  }

  /** Every imported row is named, so the stored sample count is the number
      of imported rows. */
  lemma ImportedAllNamed(rows: seq<seq<Cell>>, kind: SheetKind, headerRows: nat)
    ensures CountNamed(Imported(rows, kind, headerRows, |rows|)) == |Imported(rows, kind, headerRows, |rows|)|
  {
    var r := Imported(rows, kind, headerRows, |rows|);
    ImportedShape(rows, kind, headerRows, |rows|);
    forall k | 0 <= k < |r| ensures IsNamed(r[k]) {
      assert ShapedRow(r[k], k + 1, kind);
      SanitizedNotBlank(r[k].sampleName);
    }
    CountNamedBounds(r);
  }

  /** A line that starts with a sequence number is read from its second
      cell: it is kept under that cell's sanitized name unless the name is a
      placeholder. */
  lemma ImportNumberedName(n: int, name: string, rest: seq<Cell>)
    ensures KeptName([Number(n), Text(name)] + rest) == if IsPlaceholder(Sanitize(name)) then None else Some(Sanitize(name))
  {
    var line := [Number(n), Text(name)] + rest;
    assert line[0] == Number(n) && line[1] == Text(name);
  }

  /** The data columns of such a line are the cells after the name. */
  lemma ImportNumberedFields(n: int, name: string, rest: seq<Cell>, kind: SheetKind, no: int)
    requires !IsPlaceholder(Sanitize(name))
    ensures KeptName([Number(n), Text(name)] + rest).Some?
    ensures ImportedRow([Number(n), Text(name)] + rest, kind, no).fields == CellTexts(rest, 0, FieldCount(kind))
  {
    var line := [Number(n), Text(name)] + rest;
    ImportNumberedName(n, name, rest);
    assert NameColumn(line) == 1 by {
      assert line[0] == Number(n);
    }
    CellTextsAfter([Number(n), Text(name)], rest, FieldCount(kind));
  }

  /** A line whose first cell is text that is not a number is read from that
      cell. */
  lemma ImportUnnumberedLine(name: string, rest: seq<Cell>)
    requires !IsNumericString(name) && |rest| >= 1
    ensures KeptName([Text(name)] + rest) == if IsPlaceholder(Sanitize(name)) then None else Some(Sanitize(name))
  {
    var line := [Text(name)] + rest;
    assert NameColumn(line) == 0;
  }

  /** A line with a single cell is dropped whatever it holds. */
  lemma ImportShortLine(c: Cell)
    ensures KeptName([c]).None?
  {
  }

  // ---------------------------------------------------------------- workbook

  /** ASCII `toLowerCase`. */
  function LowerAscii(s: string): (r: string)
    ensures |r| == |s|
  {
    if s == [] then []
    else [if 'A' <= s[0] <= 'Z' then (s[0] as int + 32) as char else s[0]] + LowerAscii(s[1..])
  }

  /** What an upload does with an already-parsed workbook. */
  datatype ImportOutcome =
    | LibraryFile(samples: Option<seq<Row>>, details: Option<seq<Row>>)  // each `None` when that sheet gave no rows
    | SampleFile(rows: seq<Row>)
    | NoValidRows      // 未讀取到有效資料，請確認檔案格式
    | MissingSheet     // reading the absent first sheet fails: 上傳失敗
    | WrongFileName    // 檔案名稱必須包含 "library" 或 "sample"

  function NonEmpty(r: seq<Row>): Option<seq<Row>> {
    if r == [] then None else Some(r)
  }

  /** `handleExcelUpload` after parsing: a `library` file fills the library
      Sample Sheet from its first worksheet and the Library Sample Sheet from
      its second (two header lines each); a `sample` file fills the sample
      information sheet from its first worksheet (three header lines). */
  function ImportWorkbook(fileName: string, worksheets: seq<seq<seq<Cell>>>): (r: ImportOutcome)
    ensures r.LibraryFile? <==> Contains(LowerAscii(fileName), "library")
    ensures r.WrongFileName? <==> !Contains(LowerAscii(fileName), "library") && !Contains(LowerAscii(fileName), "sample")
    ensures r.LibraryFile? && r.samples.Some? ==>
              |worksheets| > 0 && r.samples.value != [] && r.samples.value == Imported(worksheets[0], LibrarySamples, 2, |worksheets[0]|)
    ensures r.LibraryFile? && r.details.Some? ==>
              |worksheets| > 1 && r.details.value != [] && r.details.value == Imported(worksheets[1], LibraryDetails, 2, |worksheets[1]|)
    ensures r.SampleFile? ==> |worksheets| > 0 && r.rows != [] && r.rows == Imported(worksheets[0], SampleInfo, 3, |worksheets[0]|)
    ensures r.MissingSheet? <==> !Contains(LowerAscii(fileName), "library") && Contains(LowerAscii(fileName), "sample") && |worksheets| == 0
    ensures r.LibraryFile? ==>
              (r.samples.Some? <==> |worksheets| > 0 && Imported(worksheets[0], LibrarySamples, 2, |worksheets[0]|) != [])
    ensures r.LibraryFile? ==>
              (r.details.Some? <==> |worksheets| > 1 && Imported(worksheets[1], LibraryDetails, 2, |worksheets[1]|) != [])
    ensures r.NoValidRows? <==>
              && !Contains(LowerAscii(fileName), "library") && Contains(LowerAscii(fileName), "sample")
              && |worksheets| > 0 && Imported(worksheets[0], SampleInfo, 3, |worksheets[0]|) == []
  {
    var name := LowerAscii(fileName);
    if Contains(name, "library") then
      LibraryFile(
        if |worksheets| > 0 then NonEmpty(Imported(worksheets[0], LibrarySamples, 2, |worksheets[0]|)) else None,
        if |worksheets| > 1 then NonEmpty(Imported(worksheets[1], LibraryDetails, 2, |worksheets[1]|)) else None)
    else if Contains(name, "sample") then
      if |worksheets| == 0 then MissingSheet
      else
        var rows := Imported(worksheets[0], SampleInfo, 3, |worksheets[0]|);
        if rows == [] then NoValidRows else SampleFile(rows)
    else WrongFileName
  }
}
