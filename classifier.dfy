/** Which bank issued a statement, told from markers anywhere in its text,
    and the parser each bank's statements go to. */
module Classifier {
  import opened Text
  import opened Parsers

  datatype Bank = DbsBank | ESunBank | TaishinBank | UnknownBank

  predicate HasDbsMarker(text: string) {
    Contains(text, "星展") || Contains(text, "DBS")
  }

  predicate HasESunMarker(text: string) {
    Contains(text, "玉山") || Contains(text, "E.SUN")
  }

  predicate HasTaishinMarker(text: string) {
    Contains(text, "台新")
  }

  /** The if/elif chain: a DBS marker wins over every other, an E.SUN marker
      counts only without a DBS marker, and a Taishin marker only without
      either of those. */
  function Detect(text: string): (b: Bank)
    ensures b == DbsBank <==> HasDbsMarker(text)
    ensures b == ESunBank <==> !HasDbsMarker(text) && HasESunMarker(text)
    ensures b == TaishinBank <==> !HasDbsMarker(text) && !HasESunMarker(text) && HasTaishinMarker(text)
    ensures b == UnknownBank <==> !HasDbsMarker(text) && !HasESunMarker(text) && !HasTaishinMarker(text)
  {
    if HasDbsMarker(text) then DbsBank
    else if HasESunMarker(text) then ESunBank
    else if HasTaishinMarker(text) then TaishinBank
    else UnknownBank
  }

  /** Taishin statements and statements of no known bank share the general parser. */
  function ParserFor(b: Bank): (p: Parser)
    ensures p == DbsParser <==> b == DbsBank
    ensures p == ESunParser <==> b == ESunBank
    ensures p == GeneralParser <==> b == TaishinBank || b == UnknownBank
  {
    match b
    case DbsBank => DbsParser
    case ESunBank => ESunParser
    case _ => GeneralParser
  }

  /** The parser a text goes to: DBS exactly when a DBS marker is present,
      E.SUN exactly when an E.SUN marker is present and no DBS one, the general
      parser otherwise. */
  lemma ParserChoice(text: string)
    ensures ParserFor(Detect(text)) == DbsParser <==> HasDbsMarker(text)
    ensures ParserFor(Detect(text)) == ESunParser <==> !HasDbsMarker(text) && HasESunMarker(text)
    ensures ParserFor(Detect(text)) == GeneralParser <==> !HasDbsMarker(text) && !HasESunMarker(text)
  {
  }

  /** The position of a bank in the chain. */
  function Rank(b: Bank): nat {
    match b
    case DbsBank => 0
    case ESunBank => 1
    case TaishinBank => 2
    case UnknownBank => 3
  }

  /** Adding text around a statement never moves it further down the chain:
      a marker, once present, stays present. */
  lemma DetectExtend(text: string, before: string, after: string)
    ensures Rank(Detect(before + text + after)) <= Rank(Detect(text))
  {
    var t := before + text + after;
    if Contains(text, "星展") { ContainsExtend(text, "星展", before, after); }
    if Contains(text, "DBS") { ContainsExtend(text, "DBS", before, after); }
    if Contains(text, "玉山") { ContainsExtend(text, "玉山", before, after); }
    if Contains(text, "E.SUN") { ContainsExtend(text, "E.SUN", before, after); }
    if Contains(text, "台新") { ContainsExtend(text, "台新", before, after); }
  }

  /** The detection step and the parser call it selects. */
  method ParseStatement(fullText: string) returns (bank: Bank, transactions: seq<Transaction>)
    ensures bank == Detect(fullText)
    ensures transactions == Extract(ParserFor(bank), Lines(fullText))
  {
    if HasDbsMarker(fullText) {
      bank := DbsBank;
      transactions := ParseDbs(fullText);
    } else if HasESunMarker(fullText) {
      bank := ESunBank;
      transactions := ParseESun(fullText);
    } else if HasTaishinMarker(fullText) {
      bank := TaishinBank;
      transactions := ParseGeneral(fullText);
    } else {
      bank := UnknownBank;
      transactions := ParseGeneral(fullText);
    }
  }
}
