/** The reward table: the selected card's rule applied to every transaction,
    one result row per transaction, and the running total of the points. */
module Totals {
  import opened Rewards
  import opened Parsers

  /** One row of the result table: `摘要`, `金額`, the rate, `預估點數` and `說明`. */
  datatype ResultRow = ResultRow(description: string, amount: nat, rate: nat, points: int, note: string)

  /** The row for one transaction under `card`. */
  function RowOf(card: Card, tx: Transaction): (row: ResultRow)
    ensures row.description == tx.description && row.amount == tx.amount
    ensures row.rate == if IsSpecial(card, tx.description) then card.specialRate else card.baseRate
    ensures row.note == if IsSpecial(card, tx.description) then BonusNote else StandardNote
    ensures IsRoundedHalfEven(tx.amount * row.rate, row.points)
  {
    assert BonusNote != StandardNote;
    var r := Calculate(card, tx.description, tx.amount);
    ResultRow(tx.description, tx.amount, r.rate, r.points, r.note)
  }

  /** The rows for the transactions, in order. */
  function Rows(card: Card, txs: seq<Transaction>): (rows: seq<ResultRow>)
    ensures |rows| == |txs|
    ensures forall k :: 0 <= k < |txs| ==> rows[k] == RowOf(card, txs[k])
  {
    seq(|txs|, k requires 0 <= k < |txs| => RowOf(card, txs[k]))
  }

  /** The sum of the rows' points. */
  function SumPoints(rows: seq<ResultRow>): int
    decreases |rows|
  {
    if rows == [] then 0 else SumPoints(rows[..|rows| - 1]) + rows[|rows| - 1].points
  }

  /** The total of two tables is the sum of their totals. */
  lemma {:induction false} SumPointsAppend(xs: seq<ResultRow>, ys: seq<ResultRow>)
    ensures SumPoints(xs + ys) == SumPoints(xs) + SumPoints(ys)
    decreases |ys|
  {
    if ys == [] {
      assert xs + ys == xs;
    } else {
      var n := |ys| - 1;
      assert (xs + ys)[..|xs + ys| - 1] == xs + ys[..n];
      SumPointsAppend(xs, ys[..n]);
    }
  }

  /** A statement of purchases (non-negative amounts, as every parser yields)
      never totals negative points. */
  lemma {:induction false} TotalNonNegative(card: Card, txs: seq<Transaction>)
    ensures SumPoints(Rows(card, txs)) >= 0
    decreases |txs|
  {
    if txs != [] {
      var n := |txs| - 1;
      var rows := Rows(card, txs);
      assert rows[..n] == Rows(card, txs[..n]);
      TotalNonNegative(card, txs[..n]);
      PointsNonNegative(card, txs[n].description, txs[n].amount);
    }
  }

  /** The total over a concatenation of statements is the sum of their totals. */
  lemma TotalAppend(card: Card, xs: seq<Transaction>, ys: seq<Transaction>)
    ensures SumPoints(Rows(card, xs + ys)) == SumPoints(Rows(card, xs)) + SumPoints(Rows(card, ys))
  {
    assert Rows(card, xs + ys) == Rows(card, xs) + Rows(card, ys);
    SumPointsAppend(Rows(card, xs), Rows(card, ys));
  }

  /** The totalling loop: one row per transaction in order, and `total_points`
      accumulated with `+=` ends as the sum of the rows' points. */
  method TotalRewards(card: Card, txs: seq<Transaction>) returns (results: seq<ResultRow>, totalPoints: int)
    ensures results == Rows(card, txs)
    ensures totalPoints == SumPoints(results)
  {
    results := [];
    totalPoints := 0;
    for k := 0 to |txs|
      invariant results == Rows(card, txs[..k])
      invariant totalPoints == SumPoints(results)
    {
      var tx := txs[k];
      var r := Calculate(card, tx.description, tx.amount);
      totalPoints := totalPoints + r.points;
      results := results + [ResultRow(tx.description, tx.amount, r.rate, r.points, r.note)];
      assert results[..k] == Rows(card, txs[..k]);
    }
    assert txs[..|txs|] == txs;
  }
}
