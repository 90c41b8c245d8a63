/** Statement lines written out from their fields, and the parsers reading
    the fields back: a line `date description amount` with single spaces
    yields exactly the transaction it was written from. */
module Formats {
  import opened Wrappers
  import opened Text
  import opened Patterns
  import opened Parsers

  /** The line a statement prints for one purchase. */
  function PurchaseLine(date: string, desc: string, amount: string): string {
    date + " " + desc + " " + amount
  }

  /** A description the patterns capture whole: no surrounding whitespace, no
      newline, and no word after the first starting with a digit or a comma
      (such a word could be taken for the amount). */
  predicate PlainDescription(d: string) {
    |d| > 0 && !IsSpace(d[0]) && !IsSpace(d[|d| - 1])
    && (forall k :: 0 <= k < |d| ==> d[k] != '\n')
    && (forall k :: 0 < k < |d| && IsSpace(d[k - 1]) ==> !IsAmountChar(d[k]))
  }

  /** Where the three fields sit in the printed line. */
  lemma Layout(date: string, desc: string, amount: string)
    ensures var t := PurchaseLine(date, desc, amount);
            var e := |date| + 1 + |desc|;
            |t| == e + 1 + |amount|
            && t[..|date|] == date && t[|date|] == ' ' && t[e] == ' '
            && t[|date| + 1..e] == desc && t[e + 1..] == amount
            && (forall k :: 0 <= k < |desc| ==> t[|date| + 1 + k] == desc[k])
            && (forall k :: 0 <= k < |amount| ==> t[e + 1 + k] == amount[k])
  {
  }

  /** No description end inside a plain description is followed by an amount. */
  lemma InnerEndsFail(t: string, s: nat, e: nat)
    requires s < e < |t| && !IsSpace(t[e - 1])
    requires forall k :: s < k < e && IsSpace(t[k - 1]) ==> !IsAmountChar(t[k])
    ensures forall k :: s < k < e ==> AmountAfter(t, k).None?
  {
    var last := t[e - 1];
    forall k | s < k < e ensures AmountAfter(t, k).None? {
      if IsSpace(t[k]) {
        var j := SkipSpaces(t, k);
        assert e - 1 >= j || IsSpace(last);
        assert j > k && IsSpace(t[j - 1]);
        assert !IsAmountChar(t[j]);
      }
    }
  }

  /** Inside the description no end is followed by an amount, and no newline occurs. */
  lemma PurchaseGaps(date: string, desc: string, amount: string)
    requires |date| == 10 && PlainDescription(desc)
    ensures var t := PurchaseLine(date, desc, amount);
            (forall k :: 11 <= k < 11 + |desc| ==> t[k] != '\n')
            && forall k :: 12 <= k < 11 + |desc| ==> AmountAfter(t, k).None?
  {
    var t := PurchaseLine(date, desc, amount);
    var e := 11 + |desc|;
    Layout(date, desc, amount);
    assert !IsSpace(t[e - 1]);
    assert forall k :: 11 <= k < e ==> t[k] != '\n' by {
      forall k | 11 <= k < e ensures t[k] != '\n' {
        assert t[k] == desc[k - 11];
      }
    }
    assert forall k :: 11 < k < e && IsSpace(t[k - 1]) ==> !IsAmountChar(t[k]) by {
      forall k | 11 < k < e && IsSpace(t[k - 1]) ensures !IsAmountChar(t[k]) {
        assert t[k - 1] == desc[k - 12] && t[k] == desc[k - 11];
      }
    }
    InnerEndsFail(t, 11, e);
  }

  /** After the description comes one space and then the whole amount. */
  lemma PurchaseAmount(date: string, desc: string, amount: string)
    requires |amount| > 0 && IsDigit(amount[0]) && forall k :: 0 <= k < |amount| ==> IsAmountChar(amount[k])
    ensures var t := PurchaseLine(date, desc, amount);
            var e := |date| + 1 + |desc|;
            AmountAfter(t, e) == Some((e + 1, |t|))
  {
    var t := PurchaseLine(date, desc, amount);
    var e := |date| + 1 + |desc|;
    Layout(date, desc, amount);
    assert !IsSpace(t[e + 1]);
    SpaceRunEnd(t, e, e + 1);
    assert AllAmountChars(t, e + 1, |t|);
    AmountRunEnd(t, e + 1, |t|);
  }

  /** The body of the match after the date: the whole description, then the amount. */
  lemma PurchaseBody(date: string, desc: string, amount: string)
    requires |date| == 10 && PlainDescription(desc)
    requires |amount| > 0 && IsDigit(amount[0]) && forall k :: 0 <= k < |amount| ==> IsAmountChar(amount[k])
    ensures var t := PurchaseLine(date, desc, amount);
            BodyFrom(t, 10) == Some(Body(11, 11 + |desc|, 12 + |desc|, |t|))
  {
    var t := PurchaseLine(date, desc, amount);
    var e := 11 + |desc|;
    Layout(date, desc, amount);
    assert !IsSpace(t[11]);
    SpaceRunEnd(t, 10, 11);
    PurchaseGaps(date, desc, amount);
    LazyDescRun(t, 11, 12, e);
    PurchaseAmount(date, desc, amount);
    assert LazyDesc(t, 11, e) == Some(Body(11, e, e + 1, |t|));
  }

  /** `re.search` reports the match that takes the whole description and the
      whole amount. */
  lemma PurchaseSearch(date: string, desc: string, amount: string)
    requires |date| == 10 && IsDateAt(date, 0) && PlainDescription(desc)
    requires |amount| > 0 && IsDigit(amount[0]) && forall k :: 0 <= k < |amount| ==> IsAmountChar(amount[k])
    ensures var t := PurchaseLine(date, desc, amount);
            Search(Plain, t) == Some(Span(0, 10, 10, Body(11, 11 + |desc|, 12 + |desc|, |t|)))
  {
    var t := PurchaseLine(date, desc, amount);
    Layout(date, desc, amount);
    assert forall k :: 0 <= k < 10 ==> t[k] == date[k];
    assert IsDateAt(t, 0);
    PurchaseBody(date, desc, amount);
    assert SearchAt(Plain, t, 0) == Some(Span(0, 10, 10, Body(11, 11 + |desc|, 12 + |desc|, |t|)));
  }

  /** The groups of that match are the printed fields. */
  lemma PurchaseGroups(date: string, desc: string, amount: string)
    requires |date| == 10 && forall k :: 0 <= k < |amount| ==> IsAmountChar(amount[k])
    ensures var t := PurchaseLine(date, desc, amount);
            var m := Span(0, 10, 10, Body(11, 11 + |desc|, 12 + |desc|, |t|));
            GroupsIn(t, m) && DateGroup(t, m) == date && DescGroup(t, m) == desc && AmountGroup(t, m) == amount
  {
    var t := PurchaseLine(date, desc, amount);
    Layout(date, desc, amount);
    assert AllAmountChars(t, 12 + |desc|, |t|) by {
      forall k | 12 + |desc| <= k < |t| ensures IsAmountChar(t[k]) {
        assert t[k] == amount[k - 12 - |desc|];
      }
    }
  }

  /** The record built from that match holds the printed fields. */
  lemma PurchaseRecord(date: string, desc: string, n: nat)
    requires |date| == 10 && Stripped(desc)
    ensures var t := PurchaseLine(date, desc, DecimalString(n));
            var m := Span(0, 10, 10, Body(11, 11 + |desc|, 12 + |desc|, |t|));
            GroupsIn(t, m) && Record(t, m) == Some(Transaction(date, desc, n))
  {
    PurchaseGroups(date, desc, DecimalString(n));
    ParseDecimal(n);
    StripStripped(desc);
  }

  /** The general parser reads back the date, the description and the amount
      a purchase line was printed from. */
  lemma GeneralRoundTrip(date: string, desc: string, n: nat)
    requires |date| == 10 && IsDateAt(date, 0) && PlainDescription(desc)
    ensures GeneralLine(PurchaseLine(date, desc, DecimalString(n))) == Some(Transaction(date, desc, n))
  {
    PurchaseSearch(date, desc, DecimalString(n));
    PurchaseRecord(date, desc, n);
  }

  /** A description that starts with a date puts a second date on the line. */
  lemma DescriptionDate(date: string, desc: string, amount: string)
    requires |date| == 10 && IsDateAt(date, 0)
    ensures IsDateAt(desc, 0) ==> TwoDates(PurchaseLine(date, desc, amount))
  {
    var t := PurchaseLine(date, desc, amount);
    Layout(date, desc, amount);
    assert forall k :: 0 <= k < 10 ==> t[k] == date[k];
    if IsDateAt(desc, 0) {
      assert forall k :: 0 <= k < 10 ==> t[11 + k] == desc[k];
      assert IsDateAt(t, 0) && IsDateAt(t, 11);
    }
  }

  /** The DBS parser reads a purchase line back unless the line carries a
      noise marker or a second date. */
  lemma DbsRoundTrip(date: string, desc: string, n: nat)
    requires |date| == 10 && IsDateAt(date, 0) && PlainDescription(desc)
    requires var t := PurchaseLine(date, desc, DecimalString(n));
             !ContainsAny(t, DbsNoise) && !TwoDates(t)
    ensures DbsLine(PurchaseLine(date, desc, DecimalString(n))) == Some(Transaction(date, desc, n))
  {
    var a := DecimalString(n);
    var t := PurchaseLine(date, desc, a);
    var m := Span(0, 10, 10, Body(11, 11 + |desc|, 12 + |desc|, |t|));
    PurchaseSearch(date, desc, a);
    PurchaseRecord(date, desc, n);
    PurchaseGroups(date, desc, a);
    StripStripped(desc);
    DescriptionDate(date, desc, a);
    DbsLineComplete(t, m);
  }

  /** With a description that does not start with a digit, neither optional
      group of the E.SUN pattern can be taken. */
  lemma ESunGroupsSkipped(date: string, desc: string, amount: string)
    requires |date| == 10 && |desc| > 0 && !IsSpace(desc[0]) && !IsDigit(desc[0])
    ensures var t := PurchaseLine(date, desc, amount);
            PresentEnd(PostingDate, t, 10) == None && PresentEnd(CardTail, t, 10) == None
  {
    var t := PurchaseLine(date, desc, amount);
    Layout(date, desc, amount);
    assert t[11] == desc[0];
    SpaceRunEnd(t, 10, 11);
  }

  /** `re.search` with the E.SUN pattern reports the same match as with the plain one. */
  lemma ESunSearch(date: string, desc: string, amount: string)
    requires |date| == 10 && IsDateAt(date, 0) && PlainDescription(desc) && !IsDigit(desc[0])
    requires |amount| > 0 && IsDigit(amount[0]) && forall k :: 0 <= k < |amount| ==> IsAmountChar(amount[k])
    ensures var t := PurchaseLine(date, desc, amount);
            Search(ESun, t) == Some(Span(0, 10, 10, Body(11, 11 + |desc|, 12 + |desc|, |t|)))
  {
    var t := PurchaseLine(date, desc, amount);
    var m := Span(0, 10, 10, Body(11, 11 + |desc|, 12 + |desc|, |t|));
    Layout(date, desc, amount);
    assert forall k :: 0 <= k < 10 ==> t[k] == date[k];
    assert IsDateAt(t, 0);
    ESunGroupsSkipped(date, desc, amount);
    PurchaseBody(date, desc, amount);
    assert SearchTail(ESun, t, 0, 10) == Some(m);
    assert SearchAt(ESun, t, 0) == Some(m);
  }

  /** The E.SUN parser reads a purchase line back when the description does
      not start with a digit, and neither the line nor the description
      carries a noise marker. */
  lemma ESunRoundTrip(date: string, desc: string, n: nat)
    requires |date| == 10 && IsDateAt(date, 0) && PlainDescription(desc) && !IsDigit(desc[0])
    requires !ContainsAny(PurchaseLine(date, desc, DecimalString(n)), ESunNoise)
    requires !ContainsAny(desc, ESunDescNoise)
    ensures ESunLine(PurchaseLine(date, desc, DecimalString(n))) == Some(Transaction(date, desc, n))
  {
    var a := DecimalString(n);
    ESunSearch(date, desc, a);
    PurchaseRecord(date, desc, n);
    PurchaseGroups(date, desc, a);
    StripStripped(desc);
  }

  /** A transaction a statement can print so that the patterns read it back. */
  predicate Printable(tx: Transaction) {
    |tx.date| == 10 && IsDateAt(tx.date, 0) && PlainDescription(tx.description)
  }

  /** The printed line of one transaction. */
  function Printed(tx: Transaction): string {
    PurchaseLine(tx.date, tx.description, DecimalString(tx.amount))
  }

  /** A statement's text: one printed line per transaction, separated by newlines. */
  function StatementText(txs: seq<Transaction>): string
    requires |txs| >= 1
  {
    Join(MapSeq(Printed, txs), '\n')
  }

  /** A printed line holds no newline. */
  lemma PrintedOneLine(tx: Transaction)
    requires Printable(tx)
    ensures '\n' !in Printed(tx)
  {
    var a := DecimalString(tx.amount);
    var t := Printed(tx);
    Layout(tx.date, tx.description, a);
    forall k | 0 <= k < |t| ensures t[k] != '\n' {
      if k < 10 {
        assert t[k] == tx.date[k];
      } else if 11 <= k < 11 + |tx.description| {
        assert t[k] == tx.description[k - 11];
      } else if k > 11 + |tx.description| {
        assert t[k] == a[k - 12 - |tx.description|];
      }
    }
  }

  /** Values all present come back in order. */
  lemma {:induction false} PresentAll<T>(rs: seq<Option<T>>, xs: seq<T>)
    requires |rs| == |xs| && forall k :: 0 <= k < |xs| ==> rs[k] == Some(xs[k])
    ensures Present(rs) == xs
    decreases |xs|
  {
    if xs != [] {
      var n := |xs| - 1;
      PresentAll(rs[..n], xs[..n]);
      assert xs == xs[..n] + [xs[n]];
    }
  }

  /** The general parser reads every transaction of a printed statement back, in order. */
  lemma GeneralStatementRoundTrip(txs: seq<Transaction>)
    requires |txs| >= 1 && forall k :: 0 <= k < |txs| ==> Printable(txs[k])
    ensures Extract(GeneralParser, Lines(StatementText(txs))) == txs
  {
    var lines := MapSeq(Printed, txs);
    forall k | 0 <= k < |lines| ensures '\n' !in lines[k] {
      PrintedOneLine(txs[k]);
    }
    SplitJoin(lines, '\n');
    var rs := Records(GeneralParser, lines);
    forall k | 0 <= k < |txs| ensures rs[k] == Some(txs[k]) {
      GeneralRoundTrip(txs[k].date, txs[k].description, txs[k].amount);
    }
    PresentAll(rs, txs);
  }
}
