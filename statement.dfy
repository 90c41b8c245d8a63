/** The whole computation for one uploaded statement: detect the bank, run
    its parser, then either report that no transaction was found or price
    every transaction on the selected card. */
module Statement {
  import opened Rewards
  import opened Parsers
  import opened Classifier
  import opened Totals

  datatype Outcome =
    | NoTransactions(bank: Bank)
    | Report(bank: Bank, rows: seq<ResultRow>, totalPoints: int)

  /** The transactions the statement's own parser finds in it. */
  function StatementTransactions(fullText: string): seq<Transaction> {
    Extract(ParserFor(Detect(fullText)), Lines(fullText))
  }

  /** A report has no more rows than the statement has lines, never totals
      negative points, and each row prices one transaction of the statement. */
  lemma ReportBounds(card: Card, fullText: string)
    ensures var txs := StatementTransactions(fullText);
            |Rows(card, txs)| <= |Lines(fullText)|
            && SumPoints(Rows(card, txs)) >= 0
            && forall k :: 0 <= k < |txs| ==> Rows(card, txs)[k].amount == txs[k].amount
  {
    var txs := StatementTransactions(fullText);
    ExtractInLineOrder(ParserFor(Detect(fullText)), Lines(fullText));
    TotalNonNegative(card, txs);
  }

  /** From the statement text to the table shown, for the selected card. */
  method Analyze(card: Card, fullText: string) returns (outcome: Outcome)
    ensures var txs := StatementTransactions(fullText);
            if txs == [] then outcome == NoTransactions(Detect(fullText))
            else outcome == Report(Detect(fullText), Rows(card, txs), SumPoints(Rows(card, txs)))
  {
    var bank, txList := ParseStatement(fullText);
    if txList == [] {
      outcome := NoTransactions(bank);
    } else {
      var results, total := TotalRewards(card, txList);
      outcome := Report(bank, results, total);
    }
  }
}
