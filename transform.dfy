/**
 * The sales transformation: optionally drop rows with a negative amount, add
 * the `amount_eur` copy of `amount`, and optionally add an `amount_bucket`
 * label.  A table is a column list and a sequence of row records.
 */
module Transform {
  import opened Wrappers

  /** An input row: its `amount` and the other columns, kept opaque. */
  datatype Sale = Sale(amount: int, others: map<string, string>)

  datatype SalesTable = SalesTable(columns: seq<string>, rows: seq<Sale>)

  /** An output row: the input row unchanged, plus the derived columns. */
  datatype OutRow = OutRow(sale: Sale, amount_eur: real, amount_bucket: Option<string>)

  datatype OutFrame = OutFrame(columns: seq<string>, rows: seq<OutRow>)

  /** `filter(amount >= 0)`: keeps the non-negative rows, in order. */
  function DropNegative(rows: seq<Sale>): (kept: seq<Sale>)
    ensures |kept| <= |rows|
    ensures forall r :: r in kept <==> r in rows && r.amount >= 0
  {
    if rows == [] then []
    else (if rows[0].amount >= 0 then [rows[0]] else []) + DropNegative(rows[1..])
  }

  /** The filter works row by row: it distributes over concatenation. */
  lemma {:induction false} DropNegativeAppend(a: seq<Sale>, b: seq<Sale>)
    ensures DropNegative(a + b) == DropNegative(a) + DropNegative(b)
  {
    if a == [] {
      assert a + b == b;
    } else {
      assert (a + b)[1..] == a[1..] + b;
      DropNegativeAppend(a[1..], b);
    }
  }

  /** The filter changes nothing exactly when no amount is negative. */
  lemma {:induction false} DropNegativeIdentity(rows: seq<Sale>)
    ensures DropNegative(rows) == rows <==> forall i :: 0 <= i < |rows| ==> rows[i].amount >= 0
  {
    if rows != [] {
      DropNegativeIdentity(rows[1..]);
      if rows[0].amount < 0 {
        assert |DropNegative(rows)| < |rows|;
      }
    }
  }

  /** `with_columns(... .alias(name))`: an existing column is replaced in place, a new one appended. */
  function WithColumn(columns: seq<string>, name: string): (r: seq<string>)
    ensures name in r
    ensures forall c :: c in columns ==> c in r
    ensures forall c :: c in r ==> c in columns || c == name
  {
    if name in columns then columns else columns + [name]
  }

  /** The bucket label of a euro amount, on half-open intervals. */
  function Bucket(eur: real): (tag: string)
    ensures tag == "low" <==> eur < 20.0
    ensures tag == "mid" <==> 20.0 <= eur < 50.0
    ensures tag == "high" <==> 50.0 <= eur < 100.0
    ensures tag == "vip" <==> 100.0 <= eur
  {
    if eur < 20.0 then "low"
    else if eur < 50.0 then "mid"
    else if eur < 100.0 then "high"
    else "vip"
  }

  function BucketRank(tag: string): nat {
    if tag == "low" then 0 else if tag == "mid" then 1 else if tag == "high" then 2 else 3
  }

  /** A larger amount never falls in a lower bucket. */
  lemma BucketMonotone(x: real, y: real)
    requires x <= y
    ensures BucketRank(Bucket(x)) <= BucketRank(Bucket(y))
  {
  }

  function Derive(s: Sale, enable_new_metric: bool): OutRow {
    var eur := s.amount as real;
    OutRow(s, eur, if enable_new_metric then Some(Bucket(eur)) else None)
  }

  /** The rows that survive the optional filter. */
  function Kept(rows: seq<Sale>, drop_negative_amounts: bool): seq<Sale> {
    if drop_negative_amounts then DropNegative(rows) else rows
  }

  function TransformSales(t: SalesTable, drop_negative_amounts: bool, enable_new_metric: bool): (out: OutFrame)
    ensures var kept := Kept(t.rows, drop_negative_amounts);
      && |out.rows| == |kept|
      && forall i :: 0 <= i < |out.rows| ==> out.rows[i].sale == kept[i]
    ensures !drop_negative_amounts ==> |out.rows| == |t.rows|
    ensures drop_negative_amounts ==> forall i :: 0 <= i < |out.rows| ==> out.rows[i].sale.amount >= 0
    ensures forall i :: 0 <= i < |out.rows| ==> out.rows[i].amount_eur == out.rows[i].sale.amount as real
    ensures forall i :: 0 <= i < |out.rows| ==>
      (out.rows[i].amount_bucket.Some? <==> enable_new_metric)
      && (enable_new_metric ==> out.rows[i].amount_bucket.value == Bucket(out.rows[i].amount_eur))
    ensures "amount_eur" in out.columns
    ensures "amount_bucket" !in t.columns ==> ("amount_bucket" in out.columns <==> enable_new_metric)
    ensures forall c :: c in t.columns ==> c in out.columns
    ensures forall c :: c in out.columns ==> c in t.columns || c == "amount_eur" || (enable_new_metric && c == "amount_bucket")
    ensures "amount_eur" !in t.columns && "amount_bucket" !in t.columns ==>
      out.columns == t.columns + ["amount_eur"] + (if enable_new_metric then ["amount_bucket"] else [])
  {
    var kept := Kept(t.rows, drop_negative_amounts);
    var columns := WithColumn(t.columns, "amount_eur");
    var columns' := if enable_new_metric then WithColumn(columns, "amount_bucket") else columns;
    assert forall i :: 0 <= i < |kept| ==> kept[i] in kept;
    OutFrame(columns', seq(|kept|, i requires 0 <= i < |kept| => Derive(kept[i], enable_new_metric)))
  }

  /** A negative row between two kept rows is the only one removed. */
  lemma DropMiddle(a: Sale, b: Sale, c: Sale)
    requires a.amount >= 0 && b.amount < 0 && c.amount >= 0
    ensures DropNegative([a, b, c]) == [a, c]
  {
    assert [a, b, c][1..] == [b, c];
    assert [b, c][1..] == [c];
    assert [c][1..] == [];
  }

  /** With the filter on, `[10, -5, 0]` keeps two rows (zero is kept) and none is negative. */
  lemma DropNegativeExample(others: map<string, string>)
    ensures var t := SalesTable(["amount"], [Sale(10, others), Sale(-5, others), Sale(0, others)]);
      var out := TransformSales(t, true, false);
      |out.rows| == 2 && out.rows[0].sale.amount == 10 && out.rows[1].sale.amount == 0
  {
    DropMiddle(Sale(10, others), Sale(-5, others), Sale(0, others));
  }
}
