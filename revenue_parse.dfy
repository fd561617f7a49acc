/** The row-to-record mapping of the revenue parser (`parse_kdp`,
    `parse_substack`, `parse_generic`): each CSV row, read as a dictionary
    from header to cell, becomes one revenue record, is skipped, or stops the
    parser with an uncaught error. */
module RevenueParse {
  import opened Wrappers

  /** A cell of a CSV row: its text, or `None` when the row is shorter than
      the header. */
  datatype Cell = Text(s: string) | NoneCell

  type Row = map<string, Cell>

  /** The three parsers. */
  datatype Kind = Kdp | Substack | Generic

  /** A parsed record. `date` and a KDP `detail` are cells stored as read,
      so they can be `None`. */
  datatype Record = Record(date: Cell, source: string, detail: Cell, amount: real)

  /** An error the parsers do not catch: `float(None)` raises `TypeError`,
      `None.lower()` raises `AttributeError`. */
  datatype Fault = TypeError | AttributeError

  /** What one row gives: a value, a skipped row (the caught `ValueError`),
      or an uncaught error. */
  datatype Outcome<T> = Keep(value: T) | Skip | Fail(fault: Fault)

  /** `row.get(cap, row.get(low, default))`: the capitalised column first,
      then the lower-case one, `None` when the row has neither. */
  function Column(row: Row, cap: string, low: string): Option<Cell>
  {
    if cap in row then Some(row[cap]) else if low in row then Some(row[low]) else None
  }

  function CellOr(row: Row, cap: string, low: string, default: Cell): Cell
  {
    match Column(row, cap, low)
    case Some(c) => c
    case None => default
  }

  /** `float(row.get(cap, row.get(low, 0)))`, where `parse` is Python's
      `float` on a string (`None` when it raises `ValueError`). */
  function Amount(row: Row, cap: string, low: string, parse: string -> Option<real>): Outcome<real>
  {
    match Column(row, cap, low)
    case None => Keep(0.0)
    case Some(NoneCell) => Fail(TypeError)
    case Some(Text(s)) =>
      match parse(s)
      case None => Skip
      case Some(v) => Keep(v)
  }

  /** How `f"{x}"` shows a cell. */
  function Show(c: Cell): string
  {
    match c
    case Text(s) => s
    case NoneCell => "None"
  }

  /** `str.lower` on one character, for ASCII letters. */
  function Lower(c: char): char
  {
    if 'A' <= c <= 'Z' then (c as int + 32) as char else c
  }

  /** `s.lower().replace(" ", "_")`. */
  function Normalize(s: string): (r: string)
    ensures |r| == |s|
  {
    seq(|s|, i requires 0 <= i < |s| => if s[i] == ' ' then '_' else Lower(s[i]))
  }

  /** The amount column of each parser: its capitalised and its lower-case
      header. */
  function AmountColumn(kind: Kind): (string, string)
  {
    match kind
    case Kdp => ("Royalty", "royalty")
    case Substack => ("Revenue", "revenue")
    case Generic => ("Amount", "amount")
  }

  /** The record one row gives, in the order the parsers evaluate: the amount
      first, then the other columns. `stem` is the file name without its
      extension. */
  function RowRecord(kind: Kind, row: Row, stem: string, parse: string -> Option<real>): Outcome<Record>
  {
    var date := CellOr(row, "Date", "date", Text(""));
    match Amount(row, AmountColumn(kind).0, AmountColumn(kind).1, parse)
    case Skip => Skip
    case Fail(f) => Fail(f)
    case Keep(v) =>
      match kind
      case Kdp => Keep(Record(date, "kdp_books", CellOr(row, "Title", "title", Text("")), v))
      case Substack =>
        Keep(Record(date, "substack_newsletter",
                    Text("Subscribers: " + Show(CellOr(row, "Subscribers", "subscribers", Text("N/A")))), v))
      case Generic =>
        match CellOr(row, "Source", "source", Text(stem))
        case NoneCell => Fail(AttributeError)
        case Text(source) => Keep(Record(date, Normalize(source), Text(""), v))
  }

  /** A parser over all rows: the records of the kept rows in row order, or
      the first uncaught error. */
  function ParseAll(kind: Kind, rows: seq<Row>, stem: string, parse: string -> Option<real>): Result<seq<Record>, Fault>
  {
    if rows == [] then Success([])
    else
      match ParseAll(kind, rows[..|rows| - 1], stem, parse)
      case Failure(f) => Failure(f)
      case Success(records) =>
        match RowRecord(kind, rows[|rows| - 1], stem, parse)
        case Skip => Success(records)
        case Fail(f) => Failure(f)
        case Keep(r) => Success(records + [r])
  }

  method ParseRows(kind: Kind, rows: seq<Row>, stem: string, parse: string -> Option<real>)
    returns (r: Result<seq<Record>, Fault>)
    ensures r == ParseAll(kind, rows, stem, parse)
  {
    var revenues: seq<Record> := [];
    var i := 0;
    while i < |rows|
      invariant 0 <= i <= |rows|
      invariant ParseAll(kind, rows[..i], stem, parse) == Success(revenues)
    {
      assert rows[..i + 1][..i] == rows[..i];
      var outcome := RowRecord(kind, rows[i], stem, parse);
      match outcome {
        case Skip =>
        case Fail(f) =>
          ParseAllFailurePropagates(kind, rows, stem, parse, i + 1);
          return Failure(f);
        case Keep(record) =>
          revenues := revenues + [record];
      }
      i := i + 1;
    }
    assert rows[..i] == rows;
    return Success(revenues);
  }

  lemma {:induction false} ParseAllFailurePropagates(kind: Kind, rows: seq<Row>, stem: string, parse: string -> Option<real>, n: nat)
    requires n <= |rows| && ParseAll(kind, rows[..n], stem, parse).Failure?
    ensures ParseAll(kind, rows, stem, parse) == ParseAll(kind, rows[..n], stem, parse)
    decreases |rows| - n
  {
    if n < |rows| {
      assert rows[..n + 1][..n] == rows[..n];
      ParseAllFailurePropagates(kind, rows, stem, parse, n + 1);
    } else {
      assert rows[..n] == rows;
    }
  }

  /** Positions of the rows that give a record, in row order. */
  function KeptRows(kind: Kind, rows: seq<Row>, stem: string, parse: string -> Option<real>): (ps: seq<nat>)
    ensures forall k :: 0 <= k < |ps| ==> ps[k] < |rows|
  {
    if rows == [] then []
    else
      var ps := KeptRows(kind, rows[..|rows| - 1], stem, parse);
      if RowRecord(kind, rows[|rows| - 1], stem, parse).Keep? then ps + [|rows| - 1] else ps
  }

  /** A parser fails exactly when some row raises an uncaught error. */
  lemma {:induction false} ParseAllFails(kind: Kind, rows: seq<Row>, stem: string, parse: string -> Option<real>)
    ensures ParseAll(kind, rows, stem, parse).Success? <==>
      forall i :: 0 <= i < |rows| ==> !RowRecord(kind, rows[i], stem, parse).Fail?
  {
    if rows != [] {
      var rows' := rows[..|rows| - 1];
      ParseAllFails(kind, rows', stem, parse);
      assert forall i :: 0 <= i < |rows'| ==> rows'[i] == rows[i];
    }
  }

  /** The kept positions are increasing and are exactly the rows that give
      a record. */
  lemma {:induction false} KeptRowsExactly(kind: Kind, rows: seq<Row>, stem: string, parse: string -> Option<real>)
    ensures var ps := KeptRows(kind, rows, stem, parse);
      && (forall k, l :: 0 <= k < l < |ps| ==> ps[k] < ps[l])
      && (forall i :: 0 <= i < |rows| ==> (i in ps <==> RowRecord(kind, rows[i], stem, parse).Keep?))
  {
    if rows != [] {
      var rows' := rows[..|rows| - 1];
      KeptRowsExactly(kind, rows', stem, parse);
      assert forall i :: 0 <= i < |rows'| ==> rows'[i] == rows[i];
    }
  }

  /** When a parser does not fail, it adds one record for each row that
      gives one, in row order, and nothing else: the `k`th record comes from
      the `k`th such row (see `KeptRowsExactly`). */
  lemma {:induction false} ParseAllInRowOrder(kind: Kind, rows: seq<Row>, stem: string, parse: string -> Option<real>)
    requires ParseAll(kind, rows, stem, parse).Success?
    ensures var records, ps := ParseAll(kind, rows, stem, parse).value, KeptRows(kind, rows, stem, parse);
      && |records| == |ps|
      && (forall k :: 0 <= k < |ps| ==> RowRecord(kind, rows[ps[k]], stem, parse) == Keep(records[k]))
  {
    if rows != [] {
      var rows' := rows[..|rows| - 1];
      var n := |rows| - 1;
      assert ParseAll(kind, rows', stem, parse).Success?;
      ParseAllInRowOrder(kind, rows', stem, parse);
      assert forall i :: 0 <= i < |rows'| ==> rows'[i] == rows[i];
      var records', ps' := ParseAll(kind, rows', stem, parse).value, KeptRows(kind, rows', stem, parse);
      var records, ps := ParseAll(kind, rows, stem, parse).value, KeptRows(kind, rows, stem, parse);
      if RowRecord(kind, rows[n], stem, parse).Keep? {
        assert ps == ps' + [n];
        assert records == records' + [RowRecord(kind, rows[n], stem, parse).value];
      } else {
        assert ps == ps' && records == records';
      }
    }
  }

  /** KDP rows always carry the source `kdp_books`, Substack rows
      `substack_newsletter`, and generic rows a source name in normal form:
      lower case, no spaces. */
  lemma SourceTags(kind: Kind, row: Row, stem: string, parse: string -> Option<real>)
    requires RowRecord(kind, row, stem, parse).Keep?
    ensures kind == Kdp ==> RowRecord(kind, row, stem, parse).value.source == "kdp_books"
    ensures kind == Substack ==> RowRecord(kind, row, stem, parse).value.source == "substack_newsletter"
    ensures kind == Generic ==>
      var source := RowRecord(kind, row, stem, parse).value.source;
      Normalize(source) == source && ' ' !in source
  {
    if kind == Generic {
      var source := RowRecord(kind, row, stem, parse).value.source;
      NormalizeIdempotent(CellOr(row, "Source", "source", Text(stem)).s);
    }
  }

  /** The detail of a kept row: the KDP title cell as read (`None` stays
      `None`, a row with no title column gives the empty text), the
      Substack subscriber count formatted after `Subscribers: ` (`N/A`
      when the row has no such column), and the empty text for a generic
      row. */
  lemma DetailColumn(kind: Kind, row: Row, stem: string, parse: string -> Option<real>)
    requires RowRecord(kind, row, stem, parse).Keep?
    ensures kind == Kdp && "Title" in row ==> RowRecord(kind, row, stem, parse).value.detail == row["Title"]
    ensures kind == Kdp && "Title" !in row && "title" !in row ==> RowRecord(kind, row, stem, parse).value.detail == Text("")
    ensures kind == Substack ==>
      var d := RowRecord(kind, row, stem, parse).value.detail;
      d.Text? && |d.s| >= 13 && d.s[..13] == "Subscribers: "
    ensures kind == Substack && "Subscribers" !in row && "subscribers" !in row ==>
      RowRecord(kind, row, stem, parse).value.detail == Text("Subscribers: N/A")
    ensures kind == Substack && "Subscribers" in row && row["Subscribers"] == NoneCell ==>
      RowRecord(kind, row, stem, parse).value.detail == Text("Subscribers: None")
    ensures kind == Generic ==> RowRecord(kind, row, stem, parse).value.detail == Text("")
  {
  }

  /** Normalising a source name twice changes nothing more, and leaves no
      space and no upper-case ASCII letter. */
  lemma NormalizeIdempotent(s: string)
    ensures Normalize(Normalize(s)) == Normalize(s)
    ensures forall i :: 0 <= i < |s| ==> Normalize(s)[i] != ' ' && !('A' <= Normalize(s)[i] <= 'Z')
  {
  }

  /** The generic parser names a row by its file when it has no source
      column. */
  lemma GenericSourceFromStem(row: Row, stem: string, parse: string -> Option<real>)
    requires "Source" !in row && "source" !in row
    requires RowRecord(Generic, row, stem, parse).Keep?
    ensures RowRecord(Generic, row, stem, parse).value.source == Normalize(stem)
  {
  }

  /** The amount column: a row with neither amount header gives a record
      with amount 0 rather than being dropped; a numeric capitalised column
      wins over the lower-case one; a non-numeric amount skips the row. */
  lemma AmountColumns(row: Row, cap: string, low: string, parse: string -> Option<real>)
    ensures cap !in row && low !in row ==> Amount(row, cap, low, parse) == Keep(0.0)
    ensures cap in row && row[cap].Text? && parse(row[cap].s).Some? ==>
      Amount(row, cap, low, parse) == Keep(parse(row[cap].s).value)
    ensures cap !in row && low in row && row[low].Text? && parse(row[low].s).Some? ==>
      Amount(row, cap, low, parse) == Keep(parse(row[low].s).value)
    ensures (Column(row, cap, low).Some? && Column(row, cap, low).value.Text? &&
             parse(Column(row, cap, low).value.s).None?) ==> Amount(row, cap, low, parse) == Skip
  {
  }

  /** KDP and Substack rows without an amount column are kept with amount 0,
      and a row whose amount is not a number is skipped by every parser. */
  lemma MissingOrBadAmount(kind: Kind, row: Row, stem: string, parse: string -> Option<real>)
    ensures kind != Generic && AmountColumn(kind).0 !in row && AmountColumn(kind).1 !in row ==>
      RowRecord(kind, row, stem, parse).Keep? && RowRecord(kind, row, stem, parse).value.amount == 0.0
    ensures Amount(row, AmountColumn(kind).0, AmountColumn(kind).1, parse) == Skip ==>
      RowRecord(kind, row, stem, parse) == Skip
  {
  }
}
