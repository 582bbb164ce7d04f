/** The sales record set and the loader `load_data` of app.py: the CSV is read
    (outside this model), the OrderDate column is parsed tolerantly, and rows
    whose date did not parse are dropped. */
module Sales {
  import opened Wrappers

  /** A point in time as the parsed OrderDate column holds it, in seconds
      since the epoch; a parsed date may carry a time of day. */
  type Timestamp = int

  /** An order number (FSOrderNumber); several line items may share one. */
  type OrderNumber = int

  /** A price (RetailPrice) in cents. */
  type Cents = int

  /** One row of the CSV after the tolerant date parser has run on it: the
      date is `None` where the parser gave up (a missing value). */
  datatype RawRow = RawRow(date: Option<Timestamp>, orderNumber: OrderNumber, price: Cents, cakeName: string)

  /** One row of the loaded frame: its date is always present. */
  datatype Record = Record(date: Timestamp, orderNumber: OrderNumber, price: Cents, cakeName: string)

  /** Why the CSV could not be read (missing file, malformed table, missing
      OrderDate column). */
  datatype LoadError = LoadError(message: string)

  /** The record a raw row turns into, if its date parsed. */
  function Clean(row: RawRow): (r: Option<Record>)
    ensures r.Some? <==> row.date.Some?
  {
    match row.date
    case Some(t) => Some(Record(t, row.orderNumber, row.price, row.cakeName))
    case None => None
  }

  /** Number of rows whose date failed to parse. */
  function Malformed(rows: seq<RawRow>): (n: nat)
    ensures n <= |rows|
    ensures n == 0 <==> forall i :: 0 <= i < |rows| ==> rows[i].date.Some?
  {
    if rows == [] then 0
    else (if rows[0].date.None? then 1 else 0) + Malformed(rows[1..])
  }

  /** `dropna(subset=["OrderDate"])`: the rows whose date parsed, in order. */
  function Load(rows: seq<RawRow>): (r: seq<Record>)
    ensures |r| == |rows| - Malformed(rows)
  {
    if rows == [] then []
    else
      Head(rows[0]) + Load(rows[1..])
  }

  /** What a single row contributes to the loaded frame. */
  function Head(row: RawRow): (r: seq<Record>)
    ensures |r| == if row.date.Some? then 1 else 0
  {
    match Clean(row)
    case Some(x) => [x]
    case None => []
  }

  /** Every loaded record comes from a row whose date parsed, and every such
      row has its record among the loaded ones. */
  lemma {:induction false} LoadOrigin(rows: seq<RawRow>)
    ensures forall x :: x in Load(rows) ==> exists i :: 0 <= i < |rows| && Clean(rows[i]) == Some(x)
    ensures forall i :: 0 <= i < |rows| && rows[i].date.Some? ==> Clean(rows[i]).value in Load(rows)
  {
    if rows != [] {
      var tail := rows[1..];
      LoadOrigin(tail);
      var rest := Load(tail);
      assert forall i :: 1 <= i < |rows| ==> rows[i] == tail[i - 1];
      forall x | x in rest ensures exists i :: 0 <= i < |rows| && Clean(rows[i]) == Some(x) {
        var j :| 0 <= j < |tail| && Clean(tail[j]) == Some(x);
        assert Clean(rows[j + 1]) == Some(x);
      }
    }
  }

  /** Loading keeps the surviving rows in their original order: it
      distributes over concatenation, and a single row yields at most its
      own record. */
  lemma {:induction false} LoadAppend(a: seq<RawRow>, b: seq<RawRow>)
    ensures Load(a + b) == Load(a) + Load(b)
  {
    if a == [] {
      assert a + b == b;
    } else {
      var ab := a + b;
      assert ab[0] == a[0];
      assert ab[1..] == a[1..] + b;
      LoadAppend(a[1..], b);
      calc {
        Load(ab);
        Head(a[0]) + Load(a[1..] + b);
        Head(a[0]) + (Load(a[1..]) + Load(b));
        (Head(a[0]) + Load(a[1..])) + Load(b);
      }
    }
  }

  lemma LoadSingle(row: RawRow)
    ensures Load([row]) == if row.date.Some? then [Clean(row).value] else []
  {
    assert [row][1..] == [];
    assert Load([row]) == Head(row) + [];
  }

  /** `load_data` as a whole: a source that cannot be read yields the empty
      frame (the error banner is presentation). */
  function LoadData(source: Result<seq<RawRow>, LoadError>): (r: seq<Record>)
    ensures source.Failure? ==> r == []
    ensures source.Success? ==> |r| == |source.value| - Malformed(source.value)
  {
    match source
    case Success(rows) => Load(rows)
    case Failure(_) => []
  }
}
