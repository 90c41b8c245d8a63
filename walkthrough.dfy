/** A whole statement taken through the pipeline: two printed purchase lines
    with no bank marker go to the general parser, and the League of Legends
    card, paying 1.2% with a 10% bonus on "Uber", prices them at 35 and 1
    points, 36 in all. */
module Walkthrough {
  import opened Text
  import opened Parsers
  import opened Rewards
  import opened Classifier
  import opened Totals
  import opened Statement
  import opened Formats

  const UberTx: Transaction := Transaction("2024/01/15", "Uber Eats Taiwan", 350)
  const SevenTx: Transaction := Transaction("2024/01/16", "7-ELEVEN", 120)

  /** The League of Legends card: 1.2%, and 10% when the shop name mentions
      Garena, Steam, Netflix, Uber or Foodpanda. */
  const LeagueCard: Card := MyCards[0]

  const UberLine: string := "2024/01/15 Uber Eats Taiwan 350"
  const SevenLine: string := "2024/01/16 7-ELEVEN 120"

  /** The statement text: both purchases, one per line. */
  const SampleText: string := UberLine + "\n" + SevenLine

  lemma UberPrintable()
    ensures Printable(UberTx)
  {
  }

  lemma SevenPrintable()
    ensures Printable(SevenTx)
  {
  }

  lemma UberPrinted()
    ensures Printed(UberTx) == UberLine
  {
    assert DecimalString(350) == "350";
  }

  lemma SevenPrinted()
    ensures Printed(SevenTx) == SevenLine
  {
    assert DecimalString(120) == "120";
  }

  /** The sample text is the statement printed from the two purchases. */
  lemma SamplePrinted()
    ensures StatementText([UberTx, SevenTx]) == SampleText
  {
    UberPrinted();
    SevenPrinted();
    var lines := MapSeq(Printed, [UberTx, SevenTx]);
    assert lines == [Printed(UberTx), Printed(SevenTx)];
    assert lines[1..] == [Printed(SevenTx)];
    assert Join(lines, '\n') == UberLine + ['\n'] + SevenLine;
  }

  /** A piece that lacks one of the characters of `p` does not contain `p`. */
  lemma MissingChar(s: string, p: string, j: nat)
    requires j < |p| && forall k :: 0 <= k < |s| ==> s[k] != p[j]
    ensures !Contains(s, p)
  {
    forall k | 0 <= k <= |s| - |p| ensures !OccursAt(s, p, k) {
      assert s[k..k + |p|][j] == s[k + j];
    }
  }

  /** ASCII text without the letters `D` and `.`, which every bank marker needs. */
  predicate MarkerFree(s: string) {
    forall k :: 0 <= k < |s| ==> s[k] < '\U{80}' && s[k] != 'D' && s[k] != '.'
  }

  lemma MarkerFreeLines(a: string, b: string)
    requires MarkerFree(a) && MarkerFree(b)
    ensures MarkerFree(a + "\n" + b)
  {
    var t := a + "\n" + b;
    assert forall k :: 0 <= k < |a| ==> t[k] == a[k];
    assert forall k :: 0 <= k < |b| ==> t[|a| + 1 + k] == b[k];
  }

  lemma SampleTextChars()
    ensures MarkerFree(SampleText)
  {
    assert MarkerFree(UberLine);
    assert MarkerFree(SevenLine);
    MarkerFreeLines(UberLine, SevenLine);
  }

  /** The sample text carries no bank marker. */
  lemma SampleUnknownBank()
    ensures Detect(SampleText) == UnknownBank
  {
    SampleTextChars();
    MissingChar(SampleText, "星展", 0);
    MissingChar(SampleText, "DBS", 0);
    MissingChar(SampleText, "玉山", 0);
    MissingChar(SampleText, "E.SUN", 1);
    MissingChar(SampleText, "台新", 0);
  }

  /** The statement yields exactly the two purchases, in order. */
  lemma SampleTransactions()
    ensures StatementTransactions(SampleText) == [UberTx, SevenTx]
  {
    UberPrintable();
    SevenPrintable();
    SamplePrinted();
    SampleUnknownBank();
    GeneralStatementRoundTrip([UberTx, SevenTx]);
  }

  lemma UberSpecial()
    ensures IsSpecial(LeagueCard, UberTx.description)
  {
    assert Lower("Uber") == "uber";
    assert Lower("Uber Eats Taiwan")[..4] == "uber";
    assert OccursAt(Lower("Uber Eats Taiwan"), Lower("Uber"), 0);
    assert "Uber" in LeagueCard.keywords;
  }

  lemma SevenStandard()
    ensures !IsSpecial(LeagueCard, SevenTx.description)
  {
    assert Lower("7-ELEVEN") == "7-eleven";
    assert Lower("Garena") == "garena" && Lower("Steam") == "steam" && Lower("Netflix") == "netflix";
    assert Lower("Uber") == "uber" && Lower("Foodpanda") == "foodpanda";
    MissingChar("7-eleven", "garena", 0);
    MissingChar("7-eleven", "steam", 0);
    MissingChar("7-eleven", "netflix", 6);
    MissingChar("7-eleven", "uber", 0);
    MissingChar("7-eleven", "foodpanda", 0);
  }

  /** The Uber ride earns the bonus rate and the convenience store the base rate. */
  lemma SampleRows()
    ensures Rows(LeagueCard, [UberTx, SevenTx]) ==
              [ResultRow("Uber Eats Taiwan", 350, 100, 35, BonusNote), ResultRow("7-ELEVEN", 120, 12, 1, StandardNote)]
  {
    UberSpecial();
    SevenStandard();
    assert RoundHalfEven(35000) == 35 && RoundHalfEven(1440) == 1;
  }

  lemma SumTwo(r1: ResultRow, r2: ResultRow)
    ensures SumPoints([r1, r2]) == r1.points + r2.points
  {
    assert [r1, r2][..1] == [r1];
    assert [r1][..0] == [];
    assert SumPoints([r1]) == r1.points;
  }

  /** The whole pipeline on the sample text: the general parser's two purchases,
      35 and 1 points, 36 in all. */
  lemma SampleStatementTotal()
    ensures var txs := StatementTransactions(SampleText);
            txs == [UberTx, SevenTx] && SumPoints(Rows(LeagueCard, txs)) == 36
  {
    SampleTransactions();
    SampleRows();
    SumTwo(ResultRow("Uber Eats Taiwan", 350, 100, 35, BonusNote), ResultRow("7-ELEVEN", 120, 12, 1, StandardNote));
  }
}
