/** The card database and the reward rule each card applies to a purchase.

    Rates are kept exactly, in thousandths: every rate in the card list is a
    multiple of 0.001, so 0.012 is 12 and 0.10 is 100. */
module Rewards {
  import opened Wrappers
  import opened Text

  /** One card: its rule pays `specialRate` on purchases whose shop name holds
      one of `keywords` (ignoring case) and `baseRate` on every other purchase. */
  datatype Card = Card(name: string, bank: string, baseRate: nat, specialRate: nat, keywords: seq<string>)

  /** What `calculate` returns: the points, the rate applied and the rate's label. */
  datatype Reward = Reward(points: int, rate: nat, note: string)

  const BonusNote: string := "🔥 指定加碼"
  const StandardNote: string := "一般回饋"

  /** The rate denominator: a rate `r` stands for `r / 1000`. */
  const Scale: nat := 1000

  /** `k` is `n / 1000` rounded to the nearest integer, a tie going to the even
      neighbour (what Python's `round` does to an exact value). */
  predicate IsRoundedHalfEven(n: int, k: int) {
    var err := n - Scale * k;
    -500 <= err <= 500 && ((err == 500 || err == -500) ==> k % 2 == 0)
  }

  /** Python's `round(n / 1000)` on the exact quotient. */
  function RoundHalfEven(n: int): (k: int)
    ensures IsRoundedHalfEven(n, k)
  {
    var q := n / 1000;
    var r := n % 1000;
    if r < 500 then q
    else if r > 500 then q + 1
    else if q % 2 == 0 then q
    else q + 1
  }

  /** The rounding is a function: only one integer is the rounded value. */
  lemma RoundedUnique(n: int, k1: int, k2: int)
    requires IsRoundedHalfEven(n, k1) && IsRoundedHalfEven(n, k2)
    ensures k1 == k2
  {
  }

  /** A larger exact value never rounds to fewer points. */
  lemma RoundMonotone(n1: int, n2: int)
    requires n1 <= n2
    ensures RoundHalfEven(n1) <= RoundHalfEven(n2)
  {
  }

  /** The shop name holds one of the card's keywords, both lower-cased. */
  predicate IsSpecial(card: Card, shop: string) {
    exists k :: k in card.keywords && Contains(Lower(shop), Lower(k))
  }

  /** `CardRule.calculate`: the rate is the special rate exactly when a keyword
      is in the shop name, the label says which rate applied, and the points are
      `amount * rate` rounded half to even. */
  function Calculate(card: Card, shop: string, amount: int): (r: Reward)
    ensures IsSpecial(card, shop) ==> r.rate == card.specialRate && r.note == BonusNote
    ensures !IsSpecial(card, shop) ==> r.rate == card.baseRate && r.note == StandardNote
    ensures IsRoundedHalfEven(amount * r.rate, r.points)
  {
    var special := IsSpecial(card, shop);
    var rate := if special then card.specialRate else card.baseRate;
    Reward(RoundHalfEven(amount * rate), rate, if special then BonusNote else StandardNote)
  }

  /** A card without keywords always pays its base rate. */
  lemma NoKeywordsBaseRate(card: Card, shop: string, amount: int)
    requires card.keywords == []
    ensures Calculate(card, shop, amount).rate == card.baseRate
    ensures Calculate(card, shop, amount).note == StandardNote
  {
  }

  /** A purchase of a non-negative amount never earns negative points. */
  lemma PointsNonNegative(card: Card, shop: string, amount: int)
    requires amount >= 0
    ensures Calculate(card, shop, amount).points >= 0
  {
    var r := Calculate(card, shop, amount);
    assert amount * r.rate >= 0;
  }

  /** At a fixed shop, a larger amount never earns fewer points. */
  lemma PointsMonotone(card: Card, shop: string, a1: int, a2: int)
    requires a1 <= a2
    ensures Calculate(card, shop, a1).points <= Calculate(card, shop, a2).points
  {
    var rate := Calculate(card, shop, a1).rate;
    assert a1 * rate <= a2 * rate by {
      assert (a2 - a1) * rate >= 0;
      assert a2 * rate - a1 * rate == (a2 - a1) * rate;
    }
    RoundMonotone(a1 * rate, a2 * rate);
  }

  /** Keyword matching ignores case: shop names that agree once lower-cased get
      the same reward. */
  lemma CaseInsensitive(card: Card, shop1: string, shop2: string, amount: int)
    requires Lower(shop1) == Lower(shop2)
    ensures Calculate(card, shop1, amount) == Calculate(card, shop2, amount)
  {
  }

  /** `MY_CARDS`, in the order the program lists them. */
  const MyCards: seq<Card> := [
    Card("英雄聯盟卡", "星展銀行", 12, 100, ["Garena", "Steam", "Netflix", "Uber", "Foodpanda"]),
    Card("eco永續卡", "星展銀行", 15, 50, ["Tesla", "Gogoro", "星巴克"]),
    Card("Ubear卡", "玉山銀行", 10, 30, ["Line Pay", "街口", "Netflix", "Spotify", "Disney"]),
    Card("Pi拍錢包卡", "玉山銀行", 10, 40, ["PChome", "加油", "台灣大車隊"]),
    Card("熊本熊雙幣卡", "玉山銀行", 10, 20, ["日本", "Japan", "JPY"]),
    Card("Unicard", "玉山銀行", 10, 30, []),
    Card("GoGo卡", "台新銀行", 5, 38, ["Line Pay", "全支付", "蝦皮"]),
    Card("大戶卡", "永豐銀行", 10, 70, ["飯店", "航空", "電影"]),
    Card("CUBE卡", "國泰世華", 3, 30, [])
  ]

  /** Unicard and the CUBE card list no keywords, so they always pay their base rate. */
  lemma KeywordlessCards(shop: string, amount: int)
    ensures Calculate(MyCards[5], shop, amount).rate == 10
    ensures Calculate(MyCards[8], shop, amount).rate == 3
  {
    NoKeywordsBaseRate(MyCards[5], shop, amount);
    NoKeywordsBaseRate(MyCards[8], shop, amount);
  }

  /** Every listed card pays at least its base rate on a keyword purchase. */
  lemma SpecialAtLeastBase()
    ensures forall k :: 0 <= k < |MyCards| ==> MyCards[k].baseRate <= MyCards[k].specialRate
  {
  }

  /** The key under which a card is offered: `f"{bank} - {name}"`. */
  function OptionKey(card: Card): string {
    card.bank + " - " + card.name
  }

  /** The keys in `cards`, in order: what the card selector lists. A key shared
      by two cards appears twice here but once among a dictionary's keys, so
      the two agree only for distinct keys, as `MyCardsKeysDistinct` shows for
      the listed cards. */
  function OptionKeys(cards: seq<Card>): (keys: seq<string>)
    ensures |keys| == |cards|
    ensures forall k :: 0 <= k < |cards| ==> keys[k] == OptionKey(cards[k])
  {
    if cards == [] then [] else [OptionKey(cards[0])] + OptionKeys(cards[1..])
  }

  /** `CARD_OPTIONS[key]` for the dictionary built from `cards`: when two cards
      share a key the later one wins, and a key no card has finds nothing. */
  function LookupOption(cards: seq<Card>, key: string): (r: Option<Card>)
    ensures r.None? <==> forall k :: 0 <= k < |cards| ==> OptionKey(cards[k]) != key
    ensures r.Some? ==> exists k :: 0 <= k < |cards| && cards[k] == r.value && OptionKey(r.value) == key
                          && forall j :: k < j < |cards| ==> OptionKey(cards[j]) != key
    decreases |cards|
  {
    if cards == [] then None
    else if OptionKey(cards[|cards| - 1]) == key then Some(cards[|cards| - 1])
    else LookupOption(cards[..|cards| - 1], key)
  }

  /** No two listed cards share a key. */
  lemma MyCardsKeysDistinct()
    ensures forall i, j :: 0 <= i < j < |MyCards| ==> OptionKey(MyCards[i]) != OptionKey(MyCards[j])
  {
    forall i, j | 0 <= i < j < |MyCards|
      ensures OptionKey(MyCards[i]) != OptionKey(MyCards[j])
    {
      var ci, cj := MyCards[i], MyCards[j];
      assert |ci.bank| == 4 && |cj.bank| == 4;
      assert OptionKey(ci)[7..] == ci.name && OptionKey(cj)[7..] == cj.name;
      assert ci.name[0] != cj.name[0] || |ci.name| != |cj.name|;
    }
  }

  /** With distinct keys, the key of each card finds that card. */
  lemma {:induction false} LookupFindsCard(cards: seq<Card>, i: nat)
    requires i < |cards|
    requires forall k, j :: 0 <= k < j < |cards| ==> OptionKey(cards[k]) != OptionKey(cards[j])
    ensures LookupOption(cards, OptionKey(cards[i])) == Some(cards[i])
    decreases |cards|
  {
    var n := |cards| - 1;
    if i < n {
      assert OptionKey(cards[i]) != OptionKey(cards[n]);
      var front := cards[..n];
      assert front[i] == cards[i];
      assert forall k, j :: 0 <= k < j < |front| ==> OptionKey(front[k]) != OptionKey(front[j]) by {
        forall k, j | 0 <= k < j < |front| ensures OptionKey(front[k]) != OptionKey(front[j]) {
          assert front[k] == cards[k] && front[j] == cards[j];
        }
      }
      LookupFindsCard(front, i);
    }
  }

  /** Every card of the list can be selected by its key. */
  lemma SelectEveryCard(i: nat)
    requires i < |MyCards|
    ensures LookupOption(MyCards, OptionKeys(MyCards)[i]) == Some(MyCards[i])
  {
    MyCardsKeysDistinct();
    LookupFindsCard(MyCards, i);
  }
}
