/**
 * Spreadsheet input as the loaders receive it from `pd.read_excel`, and the ways they
 * read a cell.
 */
module Sheets {
  import opened Wrappers
  import opened Seqs
  import opened Text

  /** A cell: empty (pandas gives NaN) or a value whose `str()` is `text`. */
  datatype Cell = Blank | Filled(text: string)

  /** Column headers and the rows under them. `columns` holds each header's `str()`;
      `headersAreText` is false when some header cell is not a string (a number or a
      date, say). Looking a column up by its name works either way, but calling a
      string method on every header does not. */
  datatype Sheet = Sheet(columns: seq<string>, rows: seq<seq<Cell>>, headersAreText: bool)

  /** The exceptions that abort a loader's batch. */
  datatype Fault =
    | MissingColumn(column: string)  // KeyError from `row[column]`
    | NotANumber(text: string)       // ValueError from `float(...)`
    | NullCoefficient                // NOT NULL violation on `ProductType.coefficient`

  /** `str(cell)`: a blank cell holds NaN, whose `str()` is "nan". */
  function CellText(c: Cell): string {
    match c
    case Blank => "nan"
    case Filled(t) => t
  }

  /** `row[column]`: the cell under the first header equal to `column`, or KeyError. */
  function Get(columns: seq<string>, row: seq<Cell>, column: string): (r: Result<Cell, Fault>)
    ensures r.Err? <==> column !in columns
    ensures r.Err? ==> r.error == MissingColumn(column)
  {
    match First(columns, (c: string) => c == column)
    case None => Err(MissingColumn(column))
    case Some(k) => Ok(if k < |row| then row[k] else Blank)
  }

  /** `str(row[column]).strip()`: a key column, read even when blank. */
  function KeyText(columns: seq<string>, row: seq<Cell>, column: string): Result<string, Fault> {
    var c :- Get(columns, row, column);
    Ok(Strip(CellText(c)))
  }

  /** `str(cell).strip() if not pd.isna(cell) else None`. */
  function OptionalText(columns: seq<string>, row: seq<Cell>, column: string): (r: Result<Option<string>, Fault>)
    ensures r.Ok? && r.value.None? <==> Get(columns, row, column) == Ok(Blank)
  {
    var c :- Get(columns, row, column);
    Ok(if c.Blank? then None else Some(Strip(c.text)))
  }

  /** A numeric cell and the value stored for it: a blank cell is null, never zero; a
      filled cell holds text that parses, with a decimal comma or point, to the value. */
  predicate ReadsAsNumber(c: Cell, v: Option<real>) {
    match c
    case Blank => v == None
    case Filled(t) => v.Some? && ParseCommaFloat(t) == v
  }

  /** `float(str(cell).replace(',', '.')) if not pd.isna(cell) else None`: a blank cell
      is null, never zero, and text that is not a number aborts the batch. */
  function OptionalNumber(columns: seq<string>, row: seq<Cell>, column: string): (r: Result<Option<real>, Fault>)
    ensures r.Ok? <==> (column in columns &&
      (Get(columns, row, column).value.Filled? ==> ParseCommaFloat(Get(columns, row, column).value.text).Some?))
    ensures r.Ok? ==> ReadsAsNumber(Get(columns, row, column).value, r.value)
  {
    var c :- Get(columns, row, column);
    match c
    case Blank => Ok(None)
    case Filled(t) =>
      match ParseCommaFloat(t)
      case None => Err(NotANumber(t))
      case Some(x) => Ok(Some(x))
  }

  /** Every row of a batch was read without an exception. */
  predicate AllRead<X>(parsed: seq<Result<X, Fault>>) {
    forall i :: 0 <= i < |parsed| ==> parsed[i].Ok?
  }

  /** What the rows of a batch read as, once every row has been read. */
  function Values<X>(parsed: seq<Result<X, Fault>>): (r: seq<X>)
    requires AllRead(parsed)
    ensures |r| == |parsed| && forall i :: 0 <= i < |parsed| ==> parsed[i] == Ok(r[i])
  {
    seq(|parsed|, i requires 0 <= i < |parsed| => parsed[i].value)
  }

  /** The exception of the first row that could not be read: the one that stops the loop. */
  function FirstFault<X>(parsed: seq<Result<X, Fault>>): Fault
    requires !AllRead(parsed)
  {
    if parsed[0].Err? then parsed[0].error else FirstFault(parsed[1..])
  }

  /** Reading one more row extends what the rows read as by that row. */
  lemma ValuesPrefix<X>(parsed: seq<Result<X, Fault>>, i: nat)
    requires i < |parsed| && AllRead(parsed[..i]) && parsed[i].Ok?
    ensures AllRead(parsed[..i + 1]) && Values(parsed[..i + 1]) == Values(parsed[..i]) + [parsed[i].value]
  {
    assert parsed[..i + 1][..i] == parsed[..i];
  }

  /** A loop that read rows 0 .. i-1 and then fails on row i stops with the batch's
      first fault. */
  lemma {:induction false} FirstFaultAt<X>(parsed: seq<Result<X, Fault>>, i: nat)
    requires i < |parsed| && AllRead(parsed[..i]) && parsed[i].Err?
    ensures !AllRead(parsed) && FirstFault(parsed) == parsed[i].error
  {
    if i > 0 {
      assert parsed[1..][..i - 1] == parsed[..i][1..];
      FirstFaultAt(parsed[1..], i - 1);
    }
  }

  /** A row that reads without an exception can be taken out of a batch without
      changing whether the batch fails, with which exception, or what the other rows
      read as. */
  lemma DropRead<X>(parsed: seq<Result<X, Fault>>, i: nat)
    requires i < |parsed| && parsed[i].Ok?
    ensures var rest := parsed[..i] + parsed[i + 1..];
      && AllRead(rest) == AllRead(parsed)
      && (AllRead(parsed) ==>
            && Values(parsed) == Values(parsed[..i]) + [parsed[i].value] + Values(parsed[i + 1..])
            && Values(rest) == Values(parsed[..i]) + Values(parsed[i + 1..]))
      && (!AllRead(parsed) ==> FirstFault(rest) == FirstFault(parsed))
  {
    DropReadAll(parsed, i);
    if AllRead(parsed) {
      DropReadValues(parsed, i);
    } else {
      DropReadFault(parsed, i);
    }
  }

  lemma DropReadAll<X>(parsed: seq<Result<X, Fault>>, i: nat)
    requires i < |parsed| && parsed[i].Ok?
    ensures AllRead(parsed[..i] + parsed[i + 1..]) == AllRead(parsed)
  {
    var rest := parsed[..i] + parsed[i + 1..];
    if AllRead(rest) {
      forall j | 0 <= j < |parsed|
        ensures parsed[j].Ok?
      {
        if j < i {
          assert parsed[j] == rest[j];
        } else if j > i {
          assert parsed[j] == rest[j - 1];
        }
      }
    }
  }

  lemma DropReadValues<X>(parsed: seq<Result<X, Fault>>, i: nat)
    requires i < |parsed| && AllRead(parsed)
    ensures AllRead(parsed[..i]) && AllRead(parsed[i + 1..]) && AllRead(parsed[..i] + parsed[i + 1..])
    ensures Values(parsed) == Values(parsed[..i]) + [parsed[i].value] + Values(parsed[i + 1..])
    ensures Values(parsed[..i] + parsed[i + 1..]) == Values(parsed[..i]) + Values(parsed[i + 1..])
  {
    var a, b := parsed[..i], parsed[i + 1..];
    assert AllRead(a) && AllRead(b) by {
      assert forall k :: 0 <= k < |a| ==> a[k] == parsed[k];
      assert forall k :: 0 <= k < |b| ==> b[k] == parsed[k + i + 1];
    }
    DropReadAll(parsed, i);
    var whole := Values(a) + [parsed[i].value] + Values(b);
    forall k | 0 <= k < |parsed|
      ensures Values(parsed)[k] == whole[k]
    {
      if k < i {
        assert a[k] == parsed[k];
      } else if k > i {
        assert b[k - i - 1] == parsed[k];
      }
    }
    var rest := a + b;
    forall k | 0 <= k < |rest|
      ensures Values(rest)[k] == (Values(a) + Values(b))[k]
    {
      if k < i {
        assert rest[k] == a[k];
      } else {
        assert rest[k] == b[k - i];
      }
    }
  }

  lemma {:induction false} DropReadFault<X>(parsed: seq<Result<X, Fault>>, i: nat)
    requires i < |parsed| && parsed[i].Ok? && !AllRead(parsed)
    ensures !AllRead(parsed[..i] + parsed[i + 1..])
    ensures FirstFault(parsed[..i] + parsed[i + 1..]) == FirstFault(parsed)
  {
    var rest := parsed[..i] + parsed[i + 1..];
    DropReadAll(parsed, i);
    if i == 0 {
      assert rest == parsed[1..];
    } else if parsed[0].Ok? {
      assert rest[1..] == parsed[1..][..i - 1] + parsed[1..][i..];
      DropReadFault(parsed[1..], i - 1);
    } else {
      assert rest[0] == parsed[0];
    }
  }
}
