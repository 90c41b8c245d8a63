/** The three statement parsers: `parse_dbs_pdf`, `parse_esun_pdf` and
    `parse_general_pdf`. Each splits the statement text at newlines, drops the
    lines its bank's noise markers flag, searches every other line with one
    pattern, and appends at most one transaction per line, in line order. */
module Parsers {
  import opened Wrappers
  import opened Text
  import opened Patterns

  /** One extracted purchase: the `日期`, `摘要` and `金額` of a row. */
  datatype Transaction = Transaction(date: string, description: string, amount: nat)

  datatype Parser = DbsParser | ESunParser | GeneralParser

  /** Lines holding any of these are skipped by the DBS parser. */
  const DbsNoise: seq<string> := ["本期應繳", "信用額度", "DBS", "繳款截止日", "帳單結帳日"]

  /** Lines holding any of these are skipped by the E.SUN parser. */
  const ESunNoise: seq<string> := ["本期應繳", "玉山銀行", "小計"]

  /** Descriptions holding any of these are dropped by the E.SUN parser. */
  const ESunDescNoise: seq<string> := ["轉帳", "繳款"]

  /** A `dddd/dd/dd` token and nothing else. */
  predicate IsDateToken(s: string) {
    |s| == 10 && IsDateAt(s, 0)
  }

  /** `s.replace(",", "")`. */
  function RemoveCommas(s: string): (r: string)
    ensures |r| <= |s|
    ensures forall k :: 0 <= k < |r| ==> r[k] != ','
    ensures (forall k :: 0 <= k < |s| ==> s[k] != ',') ==> r == s
    decreases |s|
  {
    if s == [] then []
    else if s[|s| - 1] == ',' then RemoveCommas(s[..|s| - 1])
    else RemoveCommas(s[..|s| - 1]) + [s[|s| - 1]]
  }

  /** The value of a string of decimal digits. */
  function DecimalValue(s: string): nat
    requires forall k :: 0 <= k < |s| ==> IsDigit(s[k])
    decreases |s|
  {
    if s == [] then 0
    else
      var c := s[|s| - 1];
      assert IsDigit(c);
      DecimalValue(s[..|s| - 1]) * 10 + (c as int - '0' as int)
  }

  /** The decimal digits of `n`, without leading zeros. */
  function DecimalString(n: nat): (s: string)
    ensures |s| >= 1 && forall k :: 0 <= k < |s| ==> IsDigit(s[k])
  {
    var d := ['0' + (n % 10) as char];
    if n < 10 then d else DecimalString(n / 10) + d
  }

  /** Every non-negative integer is read back from its decimal digits. */
  lemma {:induction false} DecimalRoundTrip(n: nat)
    ensures DecimalValue(DecimalString(n)) == n
  {
    var s := DecimalString(n);
    if n >= 10 {
      DecimalRoundTrip(n / 10);
      assert s[..|s| - 1] == DecimalString(n / 10);
    }
  }

  /** `RemoveCommas` keeps the digits of a `[0-9,]` run, so the value of the result is defined. */
  lemma {:induction false} RemoveCommasDigits(s: string)
    requires forall k :: 0 <= k < |s| ==> IsAmountChar(s[k])
    ensures forall k :: 0 <= k < |RemoveCommas(s)| ==> IsDigit(RemoveCommas(s)[k])
    ensures RemoveCommas(s) == [] <==> forall k :: 0 <= k < |s| ==> s[k] == ','
    decreases |s|
  {
    if s != [] {
      var front := s[..|s| - 1];
      RemoveCommasDigits(front);
    }
  }

  /** `float(tok.replace(",", ""))` for an amount group: the value of its
      digits, or nothing when the group is all commas (`float("")` fails). */
  function ParseAmount(tok: string): (r: Option<nat>)
    requires forall k :: 0 <= k < |tok| ==> IsAmountChar(tok[k])
    ensures r.None? <==> forall k :: 0 <= k < |tok| ==> tok[k] == ','
  {
    RemoveCommasDigits(tok);
    var digits := RemoveCommas(tok);
    if digits == [] then None else Some(DecimalValue(digits))
  }

  /** The digits of a number read back as that number. */
  lemma ParseDecimal(n: nat)
    ensures ParseAmount(DecimalString(n)) == Some(n)
  {
    DecimalRoundTrip(n);
  }

  /** A thousands separator anywhere in an amount group does not change the
      amount read: with `ParseDecimal`, "1,200" reads as 1200. */
  lemma SeparatorIgnored(x: string, y: string)
    requires forall k :: 0 <= k < |x + [','] + y| ==> IsAmountChar((x + [','] + y)[k])
    ensures forall k :: 0 <= k < |x + y| ==> IsAmountChar((x + y)[k])
    ensures ParseAmount(x + [','] + y) == ParseAmount(x + y)
  {
    var t := x + [','] + y;
    assert forall k :: 0 <= k < |x| ==> (x + y)[k] == t[k];
    assert forall k :: |x| <= k < |x + y| ==> (x + y)[k] == t[k + 1];
    CommaIgnored(x, y);
  }

  /** A separator between digits does not change the amount read. */
  lemma {:induction false} CommaIgnored(x: string, y: string)
    ensures RemoveCommas(x + [','] + y) == RemoveCommas(x + y)
    decreases |y|
  {
    if y == [] {
      assert (x + [','])[..|x|] == x;
      assert x + [','] + y == x + [','] && x + y == x;
    } else {
      var y' := y[..|y| - 1];
      assert (x + [','] + y)[..|x + [','] + y| - 1] == x + [','] + y';
      assert (x + y)[..|x + y| - 1] == x + y';
      CommaIgnored(x, y');
    }
  }

  /** The pattern each parser searches a line with. */
  function PatternOf(p: Parser): Pattern {
    match p
    case ESunParser => ESun
    case _ => Plain
  }

  /** The bounds a match gives its groups. */
  predicate GroupsIn(t: string, m: Span) {
    m.start + 10 <= |t|
    && m.body.descStart <= m.body.descEnd <= |t|
    && m.body.amtStart <= m.body.amtEnd <= |t|
    && AllAmountChars(t, m.body.amtStart, m.body.amtEnd)
  }

  lemma MatchGroupsIn(pat: Pattern, t: string, m: Span)
    requires IsMatch(pat, t, m)
    ensures GroupsIn(t, m)
  {
  }

  function DateGroup(t: string, m: Span): string
    requires GroupsIn(t, m)
  {
    t[m.start..m.start + 10]
  }

  function DescGroup(t: string, m: Span): string
    requires GroupsIn(t, m)
  {
    t[m.body.descStart..m.body.descEnd]
  }

  function AmountGroup(t: string, m: Span): (g: string)
    requires GroupsIn(t, m)
    ensures forall k :: 0 <= k < |g| ==> IsAmountChar(g[k])
  {
    t[m.body.amtStart..m.body.amtEnd]
  }

  /** The record a match yields: its date group, its stripped description
      group and its amount, unless the amount cannot be read. */
  function Record(t: string, m: Span): Option<Transaction>
    requires GroupsIn(t, m)
  {
    match ParseAmount(AmountGroup(t, m))
    case None => None
    case Some(amount) => Some(Transaction(DateGroup(t, m), Strip(DescGroup(t, m)), amount))
  }

  /** `tx` is what a line yields from the match `re.search` reports. */
  ghost predicate FromMatch(pat: Pattern, line: string, tx: Transaction) {
    exists m :: Preferred(pat, line, m) && Record(line, m) == Some(tx)
  }

  /** What `parse_dbs_pdf` appends for one line: nothing for a noise line or a
      line with more than one date, nor when the description is itself a date. */
  function DbsLine(line: string): Option<Transaction> {
    if ContainsAny(line, DbsNoise) then None
    else if |DateTokens(line, 0)| > 1 then None
    else
      match Search(Plain, line)
      case None => None
      case Some(m) =>
        MatchGroupsIn(Plain, line, m);
        if IsDateAt(Strip(DescGroup(line, m)), 0) then None else Record(line, m)
  }

  /** A DBS record comes from a line without noise markers and with at most
      one date, from the match `re.search` reports, and its description does
      not start with a date. */
  lemma DbsLineSound(line: string)
    requires DbsLine(line).Some?
    ensures !ContainsAny(line, DbsNoise) && !TwoDates(line)
    ensures !IsDateAt(DbsLine(line).value.description, 0)
    ensures FromMatch(Plain, line, DbsLine(line).value)
  {
    ManyDatesIff(line);
    var m := Search(Plain, line).value;
    MatchGroupsIn(Plain, line, m);
    assert DbsLine(line) == Record(line, m);
  }

  /** Conversely, a line without noise markers and with at most one date
      yields the record of its reported match unless the description starts
      with a date. */
  lemma DbsLineComplete(line: string, m: Span)
    requires !ContainsAny(line, DbsNoise) && !TwoDates(line)
    requires Preferred(Plain, line, m) && GroupsIn(line, m)
    requires !IsDateAt(Strip(DescGroup(line, m)), 0)
    ensures DbsLine(line) == Record(line, m)
  {
    ManyDatesIff(line);
    PreferredUnique(Plain, line, m, Search(Plain, line).value);
  }

  /** A date inside a piece of `t` is a date of `t`. */
  lemma SliceDate(t: string, lo: nat, hi: nat, i: nat, r: string)
    requires lo <= hi <= |t| && i + |r| <= hi - lo && r == t[lo..hi][i..i + |r|] && IsDateAt(r, 0)
    ensures IsDateAt(t, lo + i)
  {
    assert forall k :: 0 <= k < 10 ==> t[lo + i + k] == r[k];
  }

  /** A description that starts with a date, once stripped, puts a second
      date on the line after the first one. */
  lemma DescriptionDateIsSecond(line: string, m: Span)
    requires IsMatch(Plain, line, m) && GroupsIn(line, m)
    ensures IsDateAt(Strip(DescGroup(line, m)), 0) ==> TwoDates(line)
  {
    var d := DescGroup(line, m);
    var r := Strip(d);
    if IsDateAt(r, 0) {
      var i := SkipSpaces(d, 0);
      assert r == d[i..TrimEnd(d, i, |d|)];
      SliceDate(line, m.body.descStart, m.body.descEnd, i, r);
      assert IsDateAt(line, m.start) && m.start + 10 <= m.body.descStart + i;
    }
  }

  /** The check of the description for a leading date never rejects a line:
      such a line holds two dates and was skipped before. So the DBS parser
      is the general one behind the noise and two-date filters. */
  lemma DbsIsFilteredGeneral(line: string)
    ensures DbsLine(line) == if ContainsAny(line, DbsNoise) || TwoDates(line) then None else GeneralLine(line)
  {
    ManyDatesIff(line);
    match Search(Plain, line)
    case None =>
    case Some(m) =>
      MatchGroupsIn(Plain, line, m);
      DescriptionDateIsSecond(line, m);
  }

  /** What `parse_esun_pdf` appends for one line: nothing for a noise line, nor
      when the description mentions a transfer or a payment. */
  function ESunLine(line: string): Option<Transaction> {
    if ContainsAny(line, ESunNoise) then None
    else
      match Search(ESun, line)
      case None => None
      case Some(m) =>
        MatchGroupsIn(ESun, line, m);
        if ContainsAny(Strip(DescGroup(line, m)), ESunDescNoise) then None else Record(line, m)
  }

  /** An E.SUN record comes from a line without noise markers, from the match
      `re.search` reports, and its description names no transfer or payment. */
  lemma ESunLineSound(line: string)
    requires ESunLine(line).Some?
    ensures !ContainsAny(line, ESunNoise)
    ensures !ContainsAny(ESunLine(line).value.description, ESunDescNoise)
    ensures FromMatch(ESun, line, ESunLine(line).value)
  {
    var m := Search(ESun, line).value;
    MatchGroupsIn(ESun, line, m);
    assert ESunLine(line) == Record(line, m);
  }

  /** Conversely, a line without noise markers yields the record of its
      reported match unless the description names a transfer or a payment. */
  lemma ESunLineComplete(line: string, m: Span)
    requires !ContainsAny(line, ESunNoise)
    requires Preferred(ESun, line, m) && GroupsIn(line, m)
    requires !ContainsAny(Strip(DescGroup(line, m)), ESunDescNoise)
    ensures ESunLine(line) == Record(line, m)
  {
    PreferredUnique(ESun, line, m, Search(ESun, line).value);
  }

  /** What `parse_general_pdf` appends for one line. */
  function GeneralLine(line: string): Option<Transaction> {
    match Search(Plain, line)
    case None => None
    case Some(m) =>
      MatchGroupsIn(Plain, line, m);
      Record(line, m)
  }

  function LineRecord(p: Parser, line: string): Option<Transaction> {
    match p
    case DbsParser => DbsLine(line)
    case ESunParser => ESunLine(line)
    case GeneralParser => GeneralLine(line)
  }

  /** A record built from a match has a `dddd/dd/dd` date and a description
      without surrounding whitespace. */
  lemma RecordOfMatch(pat: Pattern, t: string, m: Span)
    requires IsMatch(pat, t, m) && Record(t, m).Some?
    ensures IsDateToken(Record(t, m).value.date)
    ensures Stripped(Record(t, m).value.description)
  {
    var d := DateGroup(t, m);
    assert forall k :: 0 <= k < 10 ==> d[k] == t[m.start + k];
  }

  /** Every emitted record has a `dddd/dd/dd` date and a description without
      surrounding whitespace. */
  lemma RecordShape(p: Parser, line: string)
    requires LineRecord(p, line).Some?
    ensures IsDateToken(LineRecord(p, line).value.date)
    ensures Stripped(LineRecord(p, line).value.description)
  {
    assert Search(PatternOf(p), line).Some?;
    var m := Search(PatternOf(p), line).value;
    MatchGroupsIn(PatternOf(p), line, m);
    assert LineRecord(p, line) == Record(line, m);
    RecordOfMatch(PatternOf(p), line, m);
  }

  /** The general parser emits from a line exactly when the pattern matches it
      and the amount group of the reported match holds a digit. */
  lemma GeneralLineIff(line: string)
    ensures GeneralLine(line).Some? <==>
              exists m :: Preferred(Plain, line, m)
                          && exists k :: m.body.amtStart <= k < m.body.amtEnd && IsDigit(line[k])
  {
    match Search(Plain, line)
    case None =>
    case Some(m) =>
      MatchGroupsIn(Plain, line, m);
      var g := AmountGroup(line, m);
      assert forall k :: 0 <= k < |g| ==> g[k] == line[m.body.amtStart + k];
      forall m' | Preferred(Plain, line, m') ensures m' == m {
        PreferredUnique(Plain, line, m, m');
      }
      if exists k :: m.body.amtStart <= k < m.body.amtEnd && IsDigit(line[k]) {
        var k :| m.body.amtStart <= k < m.body.amtEnd && IsDigit(line[k]);
        assert g[k - m.body.amtStart] != ',';
      }
  }

  /** An amount group made only of commas makes every parser skip the line. */
  lemma CommaOnlySkipped(p: Parser, line: string, m: Span)
    requires Preferred(PatternOf(p), line, m)
    requires forall k :: m.body.amtStart <= k < m.body.amtEnd ==> line[k] == ','
    ensures LineRecord(p, line) == None
  {
    MatchGroupsIn(PatternOf(p), line, m);
    var g := AmountGroup(line, m);
    assert forall k :: 0 <= k < |g| ==> g[k] == ',' by {
      forall k | 0 <= k < |g| ensures g[k] == ',' {
        assert g[k] == line[m.body.amtStart + k];
      }
    }
    assert Record(line, m) == None;
    var r := Search(PatternOf(p), line);
    assert r.Some?;
    PreferredUnique(PatternOf(p), line, m, r.value);
  }

  /** What each line yields, line by line. */
  function Records(p: Parser, lines: seq<string>): seq<Option<Transaction>> {
    MapSeq(line => LineRecord(p, line), lines)
  }

  /** `f` applied to each element of `xs`. */
  function MapSeq<A, B>(f: A -> B, xs: seq<A>): (ys: seq<B>)
    ensures |ys| == |xs| && forall k :: 0 <= k < |xs| ==> ys[k] == f(xs[k])
  {
    seq(|xs|, k requires 0 <= k < |xs| => f(xs[k]))
  }

  lemma MapSeqAppend<A, B>(f: A -> B, xs: seq<A>, ys: seq<A>)
    ensures MapSeq(f, xs + ys) == MapSeq(f, xs) + MapSeq(f, ys)
  {
  }

  lemma MapSeqPrefix<A, B>(f: A -> B, xs: seq<A>, k: nat)
    requires k <= |xs|
    ensures MapSeq(f, xs[..k]) == MapSeq(f, xs)[..k]
  {
  }

  /** The present values of `rs`, in order. */
  function Present<T>(rs: seq<Option<T>>): seq<T>
    decreases |rs|
  {
    if rs == [] then []
    else
      var front := Present(rs[..|rs| - 1]);
      match rs[|rs| - 1]
      case Some(x) => front + [x]
      case None => front
  }

  /** The indices of the present values of `rs`, in order. */
  function Positions<T>(rs: seq<Option<T>>): seq<nat>
    decreases |rs|
  {
    if rs == [] then []
    else
      var n := |rs| - 1;
      Positions(rs[..n]) + if rs[n].Some? then [n] else []
  }

  /** `Present` keeps exactly the present values, in their order. */
  lemma {:induction false} PresentInOrder<T>(rs: seq<Option<T>>)
    ensures |Positions(rs)| == |Present(rs)| <= |rs|
    ensures forall j :: 0 <= j < |Positions(rs)| ==>
              Positions(rs)[j] < |rs| && rs[Positions(rs)[j]] == Some(Present(rs)[j])
    ensures forall i, j :: 0 <= i < j < |Positions(rs)| ==> Positions(rs)[i] < Positions(rs)[j]
    ensures forall k :: 0 <= k < |rs| && rs[k].Some? ==> k in Positions(rs)
    decreases |rs|
  {
    if rs != [] {
      var n := |rs| - 1;
      var front := rs[..n];
      PresentInOrder(front);
      assert forall k :: 0 <= k < n ==> front[k] == rs[k];
    }
  }

  lemma {:induction false} PresentAppend<T>(xs: seq<Option<T>>, ys: seq<Option<T>>)
    ensures Present(xs + ys) == Present(xs) + Present(ys)
    decreases |ys|
  {
    if ys == [] {
      assert xs + ys == xs;
    } else {
      var n := |ys| - 1;
      assert (xs + ys)[..|xs + ys| - 1] == xs + ys[..n];
      PresentAppend(xs, ys[..n]);
    }
  }

  /** The transactions a parser extracts from `lines`. */
  function Extract(p: Parser, lines: seq<string>): seq<Transaction> {
    Present(Records(p, lines))
  }

  lemma ExtractStep(p: Parser, lines: seq<string>, k: nat)
    requires k < |lines|
    ensures Extract(p, lines[..k + 1]) ==
              Extract(p, lines[..k]) + match LineRecord(p, lines[k]) case Some(tx) => [tx] case None => []
  {
    var f := line => LineRecord(p, line);
    var rs := MapSeq(f, lines[..k + 1]);
    MapSeqPrefix(f, lines[..k + 1], k);
    assert lines[..k + 1][..k] == lines[..k];
    assert rs[..k] == Records(p, lines[..k]);
  }

  /** The indices of the lines that yield a record. */
  function Origins(p: Parser, lines: seq<string>): seq<nat> {
    Positions(Records(p, lines))
  }

  /** The records are the lines' records in line order: one per yielding line,
      none from any other line, so there are never more records than lines. */
  lemma ExtractInLineOrder(p: Parser, lines: seq<string>)
    ensures |Origins(p, lines)| == |Extract(p, lines)| <= |lines|
    ensures forall j :: 0 <= j < |Origins(p, lines)| ==>
              Origins(p, lines)[j] < |lines|
              && LineRecord(p, lines[Origins(p, lines)[j]]) == Some(Extract(p, lines)[j])
    ensures forall i, j :: 0 <= i < j < |Origins(p, lines)| ==> Origins(p, lines)[i] < Origins(p, lines)[j]
    ensures forall k :: 0 <= k < |lines| && LineRecord(p, lines[k]).Some? ==> k in Origins(p, lines)
  {
    PresentInOrder(Records(p, lines));
  }

  /** `Extract` of two pieces is the records of the first then of the second. */
  lemma ExtractAppend(p: Parser, xs: seq<string>, ys: seq<string>)
    ensures Extract(p, xs + ys) == Extract(p, xs) + Extract(p, ys)
  {
    MapSeqAppend(line => LineRecord(p, line), xs, ys);
    PresentAppend(Records(p, xs), Records(p, ys));
  }

  lemma PresentSkip<T>(rs: seq<Option<T>>, k: nat)
    requires k < |rs| && rs[k].None?
    ensures Present(rs) == Present(rs[..k] + rs[k + 1..])
  {
    assert rs == rs[..k] + [rs[k]] + rs[k + 1..];
    PresentAppend(rs[..k] + [rs[k]], rs[k + 1..]);
    PresentAppend(rs[..k], [rs[k]]);
    PresentAppend(rs[..k], rs[k + 1..]);
    assert Present([rs[k]]) == [] by {
      assert [rs[k]][..0] == [];
    }
  }

  /** A line that yields nothing is skipped without stopping the parse: the
      records are those of the other lines. */
  lemma SkippedLine(p: Parser, lines: seq<string>, k: nat)
    requires k < |lines| && LineRecord(p, lines[k]).None?
    ensures Extract(p, lines) == Extract(p, lines[..k] + lines[k + 1..])
  {
    var f := line => LineRecord(p, line);
    var rs := Records(p, lines);
    PresentSkip(rs, k);
    MapSeqAppend(f, lines[..k], lines[k + 1..]);
    assert MapSeq(f, lines[..k]) == rs[..k];
    assert MapSeq(f, lines[k + 1..]) == rs[k + 1..];
  }

  /** The statement text split into lines, as every parser does first. */
  function Lines(fullText: string): seq<string> {
    Split(fullText, '\n')
  }

  /** One step of `parse_dbs_pdf` past its two filters: the line yields the
      record of its match unless the description starts with a date. */
  lemma DbsLineOfMatch(line: string, m: Span)
    requires !ContainsAny(line, DbsNoise) && |DateTokens(line, 0)| <= 1 && Search(Plain, line) == Some(m)
    ensures GroupsIn(line, m)
    ensures DbsLine(line) == if IsDateAt(Strip(DescGroup(line, m)), 0) then None else Record(line, m)
  {
    MatchGroupsIn(Plain, line, m);
  }

  /** `parse_dbs_pdf`. */
  method ParseDbs(fullText: string) returns (transactions: seq<Transaction>)
    ensures transactions == Extract(DbsParser, Lines(fullText))
  {
    transactions := [];
    var lines := Split(fullText, '\n');
    for k := 0 to |lines|
      invariant transactions == Extract(DbsParser, lines[..k])
    {
      ExtractStep(DbsParser, lines, k);
      var line := lines[k];
      if ContainsAny(line, DbsNoise) {
        assert DbsLine(line).None?;
        continue;
      }
      if |DateTokens(line, 0)| > 1 {
        assert DbsLine(line).None?;
        continue;
      }
      var found := Search(Plain, line);
      if found.None? {
        assert DbsLine(line).None?;
        continue;
      }
      var m := found.value;
      DbsLineOfMatch(line, m);
      var desc := Strip(DescGroup(line, m));
      if IsDateAt(desc, 0) { continue; }
      var amount := ParseAmount(AmountGroup(line, m));
      if amount.None? { continue; }
      transactions := transactions + [Transaction(DateGroup(line, m), desc, amount.value)];
    }
    assert lines[..|lines|] == lines;
  }

  /** `parse_esun_pdf`. */
  method ParseESun(fullText: string) returns (transactions: seq<Transaction>)
    ensures transactions == Extract(ESunParser, Lines(fullText))
  {
    transactions := [];
    var lines := Split(fullText, '\n');
    for k := 0 to |lines|
      invariant transactions == Extract(ESunParser, lines[..k])
    {
      ExtractStep(ESunParser, lines, k);
      var line := lines[k];
      if ContainsAny(line, ESunNoise) { continue; }
      var found := Search(ESun, line);
      if found.Some? {
        var m := found.value;
        MatchGroupsIn(ESun, line, m);
        var desc := Strip(DescGroup(line, m));
        if ContainsAny(desc, ESunDescNoise) { continue; }
        var amount := ParseAmount(AmountGroup(line, m));
        if amount.None? { continue; }
        transactions := transactions + [Transaction(DateGroup(line, m), desc, amount.value)];
      }
    }
    assert lines[..|lines|] == lines;
  }

  /** `parse_general_pdf`. */
  method ParseGeneral(fullText: string) returns (transactions: seq<Transaction>)
    ensures transactions == Extract(GeneralParser, Lines(fullText))
  {
    transactions := [];
    var lines := Split(fullText, '\n');
    for k := 0 to |lines|
      invariant transactions == Extract(GeneralParser, lines[..k])
    {
      ExtractStep(GeneralParser, lines, k);
      var line := lines[k];
      var found := Search(Plain, line);
      if found.Some? {
        var m := found.value;
        MatchGroupsIn(Plain, line, m);
        var amount := ParseAmount(AmountGroup(line, m));
        if amount.None? { continue; }
        transactions := transactions + [Transaction(DateGroup(line, m), Strip(DescGroup(line, m)), amount.value)];
      }
    }
    assert lines[..|lines|] == lines;
  }
}
