/** The two regular expressions the statement parsers search each line with,
    and `re.findall` of a bare date, modelled on `seq<char>`.

    A match is described by the boundaries of its parts (a `Span`). `IsMatch`
    says which boundaries the pattern admits; `Before` is the order in which a
    backtracking engine such as Python's `re` tries them (earlier start first,
    then, at each quantifier, more repetitions first for a greedy one and fewer
    for the lazy `(.+?)`, and the optional groups taken before skipped); and
    `re.search` reports the admitted span that no other admitted span precedes
    (`Preferred`). `Search` computes it. */
module Patterns {
  import opened Wrappers
  import opened Text

  /** `\d{4}/\d{2}/\d{2}` matches `t` at position `i`. */
  predicate IsDateAt(t: string, i: nat) {
    i + 10 <= |t|
    && IsDigit(t[i]) && IsDigit(t[i + 1]) && IsDigit(t[i + 2]) && IsDigit(t[i + 3])
    && t[i + 4] == '/' && IsDigit(t[i + 5]) && IsDigit(t[i + 6])
    && t[i + 7] == '/' && IsDigit(t[i + 8]) && IsDigit(t[i + 9])
  }

  /** `\d{4}` matches `t` at position `i`. */
  predicate IsCardTailAt(t: string, i: nat) {
    i + 4 <= |t| && IsDigit(t[i]) && IsDigit(t[i + 1]) && IsDigit(t[i + 2]) && IsDigit(t[i + 3])
  }

  /** The class `[0-9,]` of the amount group. */
  predicate IsAmountChar(c: char) {
    IsDigit(c) || c == ','
  }

  predicate AllAmountChars(t: string, lo: nat, hi: nat)
    requires lo <= hi <= |t|
  {
    forall k :: lo <= k < hi ==> IsAmountChar(t[k])
  }

  /** The end of the run of `[0-9,]` in `t` that starts at `k`. */
  function SkipAmountChars(t: string, k: nat): (r: nat)
    requires k <= |t|
    ensures k <= r <= |t| && AllAmountChars(t, k, r)
    ensures r == |t| || !IsAmountChar(t[r])
    decreases |t| - k
  {
    if k < |t| && IsAmountChar(t[k]) then SkipAmountChars(t, k + 1) else k
  }

  lemma {:induction false} AmountRunEnd(t: string, k: nat, q: nat)
    requires k <= q <= |t| && AllAmountChars(t, k, q) && (q == |t| || !IsAmountChar(t[q]))
    ensures SkipAmountChars(t, k) == q
    decreases q - k
  {
    if k < q {
      assert IsAmountChar(t[k]);
      AmountRunEnd(t, k + 1, q);
    }
  }

  /** The two patterns. `Plain` is `(\d{4}/\d{2}/\d{2})\s+(.+?)\s+([0-9,]+)(?:\s|$)`;
      `ESun` has, after the first date, an optional posting date
      `(?:\s+\d{4}/\d{2}/\d{2})?` and an optional card tail `(?:\s+\d{4})?`. */
  datatype Pattern = Plain | ESun

  /** The token an optional group of the `ESun` pattern ends with. */
  datatype Token = PostingDate | CardTail

  function Width(tok: Token): nat {
    match tok
    case PostingDate => 10
    case CardTail => 4
  }

  predicate TokenAt(tok: Token, t: string, i: nat) {
    match tok
    case PostingDate => IsDateAt(t, i)
    case CardTail => IsCardTailAt(t, i)
  }

  /** The description group is `t[descStart..descEnd]` and the amount group
      `t[amtStart..amtEnd]`. */
  datatype Body = Body(descStart: nat, descEnd: nat, amtStart: nat, amtEnd: nat)

  /** One way a pattern can match: the date group is `t[start..start + 10]`;
      the optional posting date ends at `postEnd` and the optional card tail at
      `tailEnd`, each equal to the end before it when the group is skipped. */
  datatype Span = Span(start: nat, postEnd: nat, tailEnd: nat, body: Body)

  /** `(?:\s+X)?` spans `t[from..to]`: it is skipped (`to == from`), or it is a
      whitespace run followed by the token X that ends at `to`. */
  predicate OptionalOk(tok: Token, t: string, from: nat, to: nat) {
    to == from
    || (from + Width(tok) < to <= |t|
        && AllSpace(t, from, to - Width(tok))
        && TokenAt(tok, t, to - Width(tok)))
  }

  /** The date and the optional groups before the description. */
  predicate HeadOk(pat: Pattern, t: string, m: Span) {
    IsDateAt(t, m.start)
    && match pat
       case Plain => m.postEnd == m.start + 10 && m.tailEnd == m.postEnd
       case ESun =>
         OptionalOk(PostingDate, t, m.start + 10, m.postEnd)
         && OptionalOk(CardTail, t, m.postEnd, m.tailEnd)
  }

  /** `(.+?)` spans `t[s..e]`: at least one character, none a newline. */
  predicate DescOk(t: string, s: nat, e: nat) {
    s < e <= |t| && forall k :: s <= k < e ==> t[k] != '\n'
  }

  /** `\s+([0-9,]+)(?:\s|$)` with the whitespace at `t[e..a]` and the amount
      group at `t[a..b]`. */
  predicate AmountOk(t: string, e: nat, a: nat, b: nat) {
    e < a < b <= |t|
    && AllSpace(t, e, a)
    && AllAmountChars(t, a, b)
    && (b == |t| || IsSpace(t[b]))
  }

  /** `\s+(.+?)\s+([0-9,]+)(?:\s|$)` after position `c`. */
  predicate BodyOk(t: string, c: nat, b: Body) {
    c < b.descStart <= |t|
    && AllSpace(t, c, b.descStart)
    && DescOk(t, b.descStart, b.descEnd)
    && AmountOk(t, b.descEnd, b.amtStart, b.amtEnd)
  }

  /** The pattern matches `t` with the boundaries `m`. */
  predicate IsMatch(pat: Pattern, t: string, m: Span) {
    HeadOk(pat, t, m) && BodyOk(t, m.tailEnd, m.body)
  }

  /** The backtracking order on the part after the optional groups: the greedy
      `\s+` tries later description starts first, the lazy `(.+?)` earlier
      ends, the greedy `\s+` and `[0-9,]+` longer runs. */
  predicate BodyBefore(x: Body, y: Body) {
    if x.descStart != y.descStart then x.descStart > y.descStart
    else if x.descEnd != y.descEnd then x.descEnd < y.descEnd
    else if x.amtStart != y.amtStart then x.amtStart > y.amtStart
    else x.amtEnd > y.amtEnd
  }

  /** The order in which `re.search` tries the ways to match: earlier start
      first, then an optional group taken before it is skipped (a later end
      first), then `BodyBefore`. */
  predicate Before(x: Span, y: Span) {
    if x.start != y.start then x.start < y.start
    else if x.postEnd != y.postEnd then x.postEnd > y.postEnd
    else if x.tailEnd != y.tailEnd then x.tailEnd > y.tailEnd
    else BodyBefore(x.body, y.body)
  }

  /** The match `re.search` reports: admitted, and no admitted span is tried before it. */
  ghost predicate Preferred(pat: Pattern, t: string, m: Span) {
    IsMatch(pat, t, m) && forall m' :: IsMatch(pat, t, m') ==> !Before(m', m)
  }

  /** There is at most one preferred match. */
  lemma PreferredUnique(pat: Pattern, t: string, m1: Span, m2: Span)
    requires Preferred(pat, t, m1) && Preferred(pat, t, m2)
    ensures m1 == m2
  {
    assert !Before(m1, m2) && !Before(m2, m1);
  }

  /** Both runs after a description end are maximal, so the rest of the match
      is fixed once the description ends. */
  lemma AmountAtRunEnds(t: string, e: nat)
    ensures forall a: nat, b: nat :: AmountOk(t, e, a, b) ==>
              e < |t| && a == SkipSpaces(t, e) && b == SkipAmountChars(t, a)
  {
    forall a: nat, b: nat | AmountOk(t, e, a, b)
      ensures e < |t| && a == SkipSpaces(t, e) && b == SkipAmountChars(t, a)
    {
      assert IsAmountChar(t[a]);
      SpaceRunEnd(t, e, a);
      AmountRunEnd(t, a, b);
    }
  }

  /** `\s+([0-9,]+)(?:\s|$)` at `e`: the one way it matches there, if any. */
  function AmountAfter(t: string, e: nat): (r: Option<(nat, nat)>)
    requires e <= |t|
    ensures r.Some? ==> AmountOk(t, e, r.value.0, r.value.1)
    ensures forall a: nat, b: nat :: AmountOk(t, e, a, b) ==> r == Some((a, b))
  {
    AmountAtRunEnds(t, e);
    if e < |t| && IsSpace(t[e]) then
      var a := SkipSpaces(t, e);
      var b := SkipAmountChars(t, a);
      if a < b && (b == |t| || IsSpace(t[b])) then Some((a, b)) else None
    else
      None
  }

  /** The lazy `(.+?)` from `s`: the first description end from `e` on after
      which the amount matches. */
  function LazyDesc(t: string, s: nat, e: nat): (r: Option<Body>)
    requires s < e <= |t| + 1
    requires forall k :: s <= k < e - 1 ==> t[k] != '\n'
    ensures r.Some? ==> r.value.descStart == s && e <= r.value.descEnd
                        && DescOk(t, s, r.value.descEnd)
                        && AmountOk(t, r.value.descEnd, r.value.amtStart, r.value.amtEnd)
    ensures forall b: Body ::
              b.descStart == s && e <= b.descEnd && DescOk(t, s, b.descEnd)
              && AmountOk(t, b.descEnd, b.amtStart, b.amtEnd)
              ==> r.Some? && !BodyBefore(b, r.value)
    decreases |t| + 1 - e
  {
    if |t| < e || t[e - 1] == '\n' then None
    else
      match AmountAfter(t, e)
      case Some(ab) => Some(Body(s, e, ab.0, ab.1))
      case None => LazyDesc(t, s, e + 1)
  }

  /** The lazy description moves past every end after which no amount follows. */
  lemma {:induction false} LazyDescRun(t: string, s: nat, e: nat, f: nat)
    requires s < e <= f < |t|
    requires forall k :: s <= k < f ==> t[k] != '\n'
    requires forall k :: e <= k < f ==> AmountAfter(t, k).None?
    ensures LazyDesc(t, s, e) == LazyDesc(t, s, f)
    decreases f - e
  {
    if e < f {
      assert AmountAfter(t, e).None?;
      LazyDescRun(t, s, e + 1, f);
    }
  }

  /** The greedy `\s+` before the description: description starts from `s`
      down to `c + 1`, the latest first. */
  function GreedyGap(t: string, c: nat, s: nat): (r: Option<Body>)
    requires c < s <= |t| && AllSpace(t, c, s)
    ensures r.Some? ==> BodyOk(t, c, r.value) && r.value.descStart <= s
    ensures forall b :: BodyOk(t, c, b) && b.descStart <= s ==> r.Some? && !BodyBefore(b, r.value)
    decreases s
  {
    match LazyDesc(t, s, s + 1)
    case Some(b) => Some(b)
    case None => if c < s - 1 then GreedyGap(t, c, s - 1) else None
  }

  /** The preferred way `\s+(.+?)\s+([0-9,]+)(?:\s|$)` matches after `c`, if any. */
  function BodyFrom(t: string, c: nat): (r: Option<Body>)
    requires c <= |t|
    ensures r.Some? ==> BodyOk(t, c, r.value)
    ensures forall b :: BodyOk(t, c, b) ==> r.Some? && !BodyBefore(b, r.value)
  {
    if c < |t| && IsSpace(t[c]) then
      var s := SkipSpaces(t, c);
      assert forall b :: BodyOk(t, c, b) ==> b.descStart <= s by {
        forall b | BodyOk(t, c, b) ensures b.descStart <= s {
          SpaceRunBound(t, c, b.descStart);
        }
      }
      GreedyGap(t, c, s)
    else
      None
  }

  /** Where `(?:\s+X)?` from `from` ends when it is taken: X begins with a
      digit, so it can only start where the whitespace run ends. */
  function PresentEnd(tok: Token, t: string, from: nat): (r: Option<nat>)
    requires from <= |t|
    ensures r.Some? ==> r.value != from && OptionalOk(tok, t, from, r.value)
    ensures forall to: nat :: OptionalOk(tok, t, from, to) && to != from ==> r == Some(to)
  {
    var q := SkipSpaces(t, from);
    assert forall to: nat :: OptionalOk(tok, t, from, to) && to != from ==> to - Width(tok) == q by {
      forall to: nat | OptionalOk(tok, t, from, to) && to != from
        ensures to - Width(tok) == q
      {
        assert IsDigit(t[to - Width(tok)]);
        SpaceRunEnd(t, from, to - Width(tok));
      }
    }
    if from < q && TokenAt(tok, t, q) then Some(q + Width(tok)) else None
  }

  /** The match whose date is at `i` and whose posting-date group ends at `p`:
      the card tail group is tried before it is skipped. */
  function SearchTail(pat: Pattern, t: string, i: nat, p: nat): (r: Option<Span>)
    requires IsDateAt(t, i)
    requires match pat
             case Plain => p == i + 10
             case ESun => OptionalOk(PostingDate, t, i + 10, p)
    ensures r.Some? ==> IsMatch(pat, t, r.value) && r.value.start == i && r.value.postEnd == p
    ensures forall m :: IsMatch(pat, t, m) && m.start == i && m.postEnd == p ==>
              r.Some? && !Before(m, r.value)
  {
    var skipped := match BodyFrom(t, p)
                   case Some(b) => Some(Span(i, p, p, b))
                   case None => None;
    if pat == ESun then
      match PresentEnd(CardTail, t, p)
      case Some(c) =>
        (match BodyFrom(t, c)
         case Some(b) => Some(Span(i, p, c, b))
         case None => skipped)
      case None => skipped
    else
      skipped
  }

  /** The match whose date is at `i`: the posting-date group is tried before it is skipped. */
  function SearchAt(pat: Pattern, t: string, i: nat): (r: Option<Span>)
    ensures r.Some? ==> IsMatch(pat, t, r.value) && r.value.start == i
    ensures forall m :: IsMatch(pat, t, m) && m.start == i ==> r.Some? && !Before(m, r.value)
  {
    if !IsDateAt(t, i) then None
    else if pat == ESun then
      match PresentEnd(PostingDate, t, i + 10)
      case Some(p) =>
        (match SearchTail(pat, t, i, p)
         case Some(m) => Some(m)
         case None => SearchTail(pat, t, i, i + 10))
      case None => SearchTail(pat, t, i, i + 10)
    else
      SearchTail(pat, t, i, i + 10)
  }

  /** The preferred match among those that start at `i` or later. */
  function SearchFrom(pat: Pattern, t: string, i: nat): (r: Option<Span>)
    ensures r.Some? ==> IsMatch(pat, t, r.value) && i <= r.value.start
    ensures forall m :: IsMatch(pat, t, m) && i <= m.start ==> r.Some? && !Before(m, r.value)
    decreases |t| - i
  {
    if |t| < i + 10 then None
    else
      match SearchAt(pat, t, i)
      case Some(m) => Some(m)
      case None => SearchFrom(pat, t, i + 1)
  }

  /** `re.search(pattern, t)`: the match a backtracking engine reports, or none
      when the pattern matches nowhere. */
  function Search(pat: Pattern, t: string): (r: Option<Span>)
    ensures r.Some? ==> Preferred(pat, t, r.value)
    ensures r.None? <==> forall m :: !IsMatch(pat, t, m)
  {
    SearchFrom(pat, t, 0)
  }

  /** The lazy description is as short as it can be: no earlier description
      end inside it is followed by a whitespace-bounded `[0-9,]+` run, so the
      amount group is the first such run after the description, not the last
      number on the line. */
  lemma {:induction false} AmountIsFirstRun(pat: Pattern, t: string, m: Span, e: nat, a: nat, b: nat)
    requires Preferred(pat, t, m)
    requires m.body.descStart < e < m.body.descEnd
    ensures !AmountOk(t, e, a, b)
  {
    if AmountOk(t, e, a, b) {
      var m' := Span(m.start, m.postEnd, m.tailEnd, Body(m.body.descStart, e, a, b));
      assert IsMatch(pat, t, m');
      assert Before(m', m);
      assert false;
    }
  }

  /** Start positions of the dates `re.findall(r'\d{4}/\d{2}/\d{2}', t)` reports
      when it scans from `k`: left to right, resuming after each date found. */
  function DateTokens(t: string, k: nat): (r: seq<nat>)
    ensures forall j :: 0 <= j < |r| ==> k <= r[j] && IsDateAt(t, r[j])
    ensures forall j :: 0 <= j < |r| - 1 ==> r[j] + 10 <= r[j + 1]
    decreases |t| - k
  {
    if |t| < k + 10 then []
    else if IsDateAt(t, k) then [k] + DateTokens(t, k + 10)
    else DateTokens(t, k + 1)
  }

  /** Some date token at or after `k` gives `findall` at least one match. */
  lemma {:induction false} OneDateFound(t: string, k: nat, i: nat)
    requires k <= i && IsDateAt(t, i)
    ensures |DateTokens(t, k)| >= 1
    decreases i - k
  {
    if !IsDateAt(t, k) {
      OneDateFound(t, k + 1, i);
    }
  }

  /** Two non-overlapping date tokens at or after `k` give `findall` at least two matches. */
  lemma {:induction false} TwoDatesFound(t: string, k: nat, i: nat, j: nat)
    requires k <= i && i + 10 <= j && IsDateAt(t, i) && IsDateAt(t, j)
    ensures |DateTokens(t, k)| >= 2
    decreases i - k
  {
    if IsDateAt(t, k) {
      OneDateFound(t, k + 10, j);
    } else {
      TwoDatesFound(t, k + 1, i, j);
    }
  }

  /** Two non-overlapping date tokens somewhere in `t`. */
  predicate TwoDates(t: string) {
    exists i, j :: 0 <= i && i + 10 <= j && j + 10 <= |t| && IsDateAt(t, i) && IsDateAt(t, j)
  }

  /** `len(re.findall(date, t)) > 1` exactly when `t` holds two non-overlapping date tokens. */
  lemma ManyDatesIff(t: string)
    ensures |DateTokens(t, 0)| > 1 <==> TwoDates(t)
  {
    var r := DateTokens(t, 0);
    if |r| > 1 {
      assert IsDateAt(t, r[0]) && IsDateAt(t, r[1]) && r[0] + 10 <= r[1];
    }
    if TwoDates(t) {
      var i, j :| 0 <= i && i + 10 <= j && j + 10 <= |t| && IsDateAt(t, i) && IsDateAt(t, j);
      TwoDatesFound(t, 0, i, j);
    }
  }
}
