/** Concrete statement lines and what the parsers and the reward rule make
    of them, worked through the matcher one stage at a time. */
module Scenarios {
  import opened Wrappers
  import opened Text
  import opened Patterns
  import opened Parsers
  import opened Rewards

  /** Three spaces between the date and the amount. */
  const SpacedLine: string := "2024/01/15   350"

  /** A description followed by two numbers. */
  const TwoNumberLine: string := "2024/01/15 A 1 2"

  /** A four-digit description that the card-tail group could also take. */
  const DigitShopLine: string := "2024/01/15 1234 500"

  lemma SpacedDate()
    ensures IsDateAt(SpacedLine, 0)
  {
  }

  lemma SpacedBody()
    ensures BodyFrom(SpacedLine, 10) == Some(Body(11, 12, 13, 16))
  {
    var t := SpacedLine;
    assert SkipSpaces(t, 10) == 13 by {
      assert SkipSpaces(t, 13) == 13;
    }
    assert SkipAmountChars(t, 13) == 16 by {
      assert SkipAmountChars(t, 16) == 16;
    }
    assert AmountAfter(t, 12) == Some((13, 16));
    assert LazyDesc(t, 11, 12) == Some(Body(11, 12, 13, 16));
  }

  lemma SpacedSearch()
    ensures Search(Plain, SpacedLine) == Some(Span(0, 10, 10, Body(11, 12, 13, 16)))
  {
    SpacedDate();
    SpacedBody();
    assert SearchTail(Plain, SpacedLine, 0, 10) == Some(Span(0, 10, 10, Body(11, 12, 13, 16)));
    assert SearchAt(Plain, SpacedLine, 0) == Some(Span(0, 10, 10, Body(11, 12, 13, 16)));
  }

  lemma SpacedRecord()
    ensures Record(SpacedLine, Span(0, 10, 10, Body(11, 12, 13, 16))) == Some(Transaction("2024/01/15", "", 350))
  {
    var t := SpacedLine;
    var m := Span(0, 10, 10, Body(11, 12, 13, 16));
    assert DescGroup(t, m) == " " && AmountGroup(t, m) == "350" && DateGroup(t, m) == "2024/01/15";
    assert Strip(" ") == "" by {
      assert SkipSpaces(" ", 0) == 1;
    }
    assert ParseAmount("350") == Some(350) by {
      assert DecimalString(350) == "350";
      ParseDecimal(350);
    }
  }

  /** With only whitespace between the date and the amount, the description
      group is one space and the recorded description is empty. */
  lemma SpacedLineEmptyDescription()
    ensures GeneralLine(SpacedLine) == Some(Transaction("2024/01/15", "", 350))
  {
    SpacedSearch();
    SpacedRecord();
  }

  lemma TwoNumberBody()
    ensures BodyFrom(TwoNumberLine, 10) == Some(Body(11, 12, 13, 14))
  {
    var t := TwoNumberLine;
    assert SkipSpaces(t, 10) == 11 by {
      assert SkipSpaces(t, 11) == 11;
    }
    assert SkipSpaces(t, 12) == 13 by {
      assert SkipSpaces(t, 13) == 13;
    }
    assert SkipAmountChars(t, 13) == 14 by {
      assert SkipAmountChars(t, 14) == 14;
    }
    assert AmountAfter(t, 12) == Some((13, 14));
    assert LazyDesc(t, 11, 12) == Some(Body(11, 12, 13, 14));
  }

  lemma TwoNumberSearch()
    ensures Search(Plain, TwoNumberLine) == Some(Span(0, 10, 10, Body(11, 12, 13, 14)))
  {
    assert IsDateAt(TwoNumberLine, 0);
    TwoNumberBody();
    assert SearchTail(Plain, TwoNumberLine, 0, 10) == Some(Span(0, 10, 10, Body(11, 12, 13, 14)));
    assert SearchAt(Plain, TwoNumberLine, 0) == Some(Span(0, 10, 10, Body(11, 12, 13, 14)));
  }

  lemma TwoNumberRecord()
    ensures Record(TwoNumberLine, Span(0, 10, 10, Body(11, 12, 13, 14))) == Some(Transaction("2024/01/15", "A", 1))
  {
    var t := TwoNumberLine;
    var m := Span(0, 10, 10, Body(11, 12, 13, 14));
    assert DescGroup(t, m) == "A" && AmountGroup(t, m) == "1" && DateGroup(t, m) == "2024/01/15";
    assert Strip("A") == "A" by {
      assert SkipSpaces("A", 0) == 0;
    }
    assert ParseAmount("1") == Some(1) by {
      ParseDecimal(1);
    }
  }

  /** The lazy description stops at the first amount: the amount is 1, not the
      last number on the line. */
  lemma FirstAmountTaken()
    ensures GeneralLine(TwoNumberLine) == Some(Transaction("2024/01/15", "A", 1))
  {
    TwoNumberSearch();
    TwoNumberRecord();
  }

  lemma DigitShopTailFails()
    ensures PresentEnd(CardTail, DigitShopLine, 10) == Some(15)
    ensures BodyFrom(DigitShopLine, 15) == None
  {
    var t := DigitShopLine;
    assert SkipSpaces(t, 10) == 11 by {
      assert SkipSpaces(t, 11) == 11;
    }
    assert SkipSpaces(t, 15) == 16 by {
      assert SkipSpaces(t, 16) == 16;
    }
    assert AmountAfter(t, 17) == None;
    assert AmountAfter(t, 18) == None;
    assert AmountAfter(t, 19) == None;
    assert LazyDesc(t, 16, 17) == None;
  }

  lemma DigitShopBody()
    ensures BodyFrom(DigitShopLine, 10) == Some(Body(11, 15, 16, 19))
  {
    var t := DigitShopLine;
    assert SkipSpaces(t, 10) == 11 by {
      assert SkipSpaces(t, 11) == 11;
    }
    assert SkipSpaces(t, 15) == 16 by {
      assert SkipSpaces(t, 16) == 16;
    }
    assert SkipAmountChars(t, 16) == 19;
    assert AmountAfter(t, 12) == None;
    assert AmountAfter(t, 13) == None;
    assert AmountAfter(t, 14) == None;
    assert AmountAfter(t, 15) == Some((16, 19));
    assert LazyDesc(t, 11, 12) == Some(Body(11, 15, 16, 19));
  }

  lemma DigitShopSearch()
    ensures Search(ESun, DigitShopLine) == Some(Span(0, 10, 10, Body(11, 15, 16, 19)))
  {
    var t := DigitShopLine;
    assert IsDateAt(t, 0);
    assert PresentEnd(PostingDate, t, 10) == None by {
      assert SkipSpaces(t, 10) == 11 by {
        assert SkipSpaces(t, 11) == 11;
      }
    }
    DigitShopTailFails();
    DigitShopBody();
    assert SearchTail(ESun, t, 0, 10) == Some(Span(0, 10, 10, Body(11, 15, 16, 19)));
    assert SearchAt(ESun, t, 0) == Some(Span(0, 10, 10, Body(11, 15, 16, 19)));
  }

  lemma DigitShopRecord()
    ensures Record(DigitShopLine, Span(0, 10, 10, Body(11, 15, 16, 19))) == Some(Transaction("2024/01/15", "1234", 500))
  {
    var t := DigitShopLine;
    var m := Span(0, 10, 10, Body(11, 15, 16, 19));
    assert DescGroup(t, m) == "1234" && AmountGroup(t, m) == "500" && DateGroup(t, m) == "2024/01/15";
    assert Strip("1234") == "1234" by {
      assert SkipSpaces("1234", 0) == 0;
    }
    assert ParseAmount("500") == Some(500) by {
      assert DecimalString(500) == "500";
      ParseDecimal(500);
    }
  }

  /** The E.SUN pattern first lets the card-tail group take "1234"; nothing
      can follow it, so the engine backtracks, skips the group, and "1234"
      becomes the description. */
  lemma CardTailBacktracks()
    ensures ESunLine(DigitShopLine) == Some(Transaction("2024/01/15", "1234", 500))
  {
    DigitShopSearch();
    DigitShopRecord();
    DigitShopNoMarkers();
  }

  /** The line and its description mention no E.SUN noise marker. */
  lemma DigitShopNoMarkers()
    ensures !ContainsAny(DigitShopLine, ESunNoise)
    ensures !ContainsAny("1234", ESunDescNoise)
  {
    assert !ContainsAny(DigitShopLine, ESunNoise) by {
      forall p | p in ESunNoise ensures !Contains(DigitShopLine, p) {
        NoCjk(DigitShopLine, p);
      }
    }
    assert !ContainsAny("1234", ESunDescNoise) by {
      forall p | p in ESunDescNoise ensures !Contains("1234", p) {
        NoCjk("1234", p);
      }
    }
  }

  /** Text made of ASCII characters holds no piece that starts with a
      character beyond ASCII. */
  lemma NoCjk(s: string, p: string)
    requires forall k :: 0 <= k < |s| ==> s[k] < '\U{80}'
    requires |p| > 0 && p[0] >= '\U{80}'
    ensures !Contains(s, p)
  {
    forall k | 0 <= k <= |s| - |p| ensures !OccursAt(s, p, k) {
      assert s[k..k + |p|][0] == s[k];
    }
  }

  const Posted: string := "2024/01/16"

  /** A transaction date followed by a posting date. */
  const PostedLine: string := "2024/01/15" + " " + Posted + " Steam 300"

  /** A `dddd/dd/dd` piece placed in the middle of a text is a date there. */
  lemma DateInside(a: string, d: string, b: string)
    requires IsDateAt(d, 0)
    ensures IsDateAt(a + d + b, |a|)
  {
    var t := a + d + b;
    assert forall k :: 0 <= k < 10 ==> t[|a| + k] == d[k];
  }

  lemma PostedLineDates()
    ensures TwoDates(PostedLine)
  {
    DateInside([], "2024/01/15", " " + Posted + " Steam 300");
    assert [] + "2024/01/15" + (" " + Posted + " Steam 300") == PostedLine;
    DateInside("2024/01/15 ", Posted, " Steam 300");
    assert "2024/01/15 " + Posted + " Steam 300" == PostedLine;
  }

  /** The DBS parser skips a line holding two dates. */
  lemma DbsSkipsTwoDates()
    ensures DbsLine(PostedLine) == None
  {
    PostedLineDates();
    ManyDatesIff(PostedLine);
  }

  /** A game bought on the League of Legends card earns the bonus rate, the
      keyword matching ignoring case. */
  lemma SteamBonus()
    ensures Calculate(MyCards[0], "STEAM 遊戲", 1000) == Reward(100, 100, BonusNote)
  {
    var shop := "STEAM 遊戲";
    assert Lower("Steam") == "steam";
    assert OccursAt(Lower(shop), Lower("Steam"), 0);
    assert IsSpecial(MyCards[0], shop);
  }

  /** Exact halves round to the even neighbour: 0.5 point becomes 0 and 1.5
      points become 2 at the Unicard's 1%. */
  lemma HalfPointsToEven()
    ensures Calculate(MyCards[5], "超商", 50).points == 0
    ensures Calculate(MyCards[5], "超商", 150).points == 2
  {
    NoKeywordsBaseRate(MyCards[5], "超商", 50);
    NoKeywordsBaseRate(MyCards[5], "超商", 150);
  }
}
