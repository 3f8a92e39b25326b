/** The card catalogue of the home page (app/page.tsx): the twelve cards on
    sale, their classification into five categories by key, the order they
    are shown in, and the lookup of the card a visitor selected. */
module Catalogue {
  import opened Results
  import opened Js

  /** A catalogue entry; `badge` is the source's optional `label`, and the
      marketing description is not modelled. */
  datatype CardItem = CardItem(key: string, title: string, src: string, badge: Option<string>)

  const LimitedEdition: Option<string> := Some("Limited Edition")

  /** `CARDS`, in source order. */
  const Cards: seq<CardItem> := [
    CardItem("starlit-christmas-tree", "Starlit Christmas Tree", "/cards/christmas_tree.mp4", LimitedEdition),
    CardItem("christmas-night-moonlight", "Christmas Night Moonlight", "/cards/moonlight.mp4", LimitedEdition),
    CardItem("snowy-cottage-evening", "Snowy Cottage Evening", "/cards/Christmas2.mp4", LimitedEdition),
    CardItem("winter-forest-tree", "Winter Forest Tree", "/cards/XmasTree.mp4", LimitedEdition),
    CardItem("golden-christmas-tree-rise", "Golden Christmas Tree Rise", "/cards/Christmas1.mp4", LimitedEdition),
    CardItem("santas-moonlit-ride", "Santa's Moonlit Ride", "/cards/Santa.mp4", LimitedEdition),
    CardItem("birthday-rose-bloom", "Birthday Rose Bloom", "/cards/rose.mp4", LimitedEdition),
    CardItem("elegant-floral-birthday", "Elegant Floral Birthday", "/cards/Birthday2.mp4", LimitedEdition),
    CardItem("thank-you-florals", "Thank You Florals", "/cards/Thankyou2.mp4", LimitedEdition),
    CardItem("heart-of-light", "Heart of Light", "/cards/heart1.mp4", LimitedEdition),
    CardItem("golden-heart-glow", "Golden Heart Glow", "/cards/heart2.mp4", LimitedEdition),
    CardItem("warm-wishes", "Warm Wishes", "/cards/warm_wishes.mp4", LimitedEdition)
  ]

  /** The keys of `Cards`, in order. */
  function Keys(cards: seq<CardItem>): (keys: seq<string>)
    ensures |keys| == |cards| && forall i :: 0 <= i < |cards| ==> keys[i] == cards[i].key
  {
    seq(|cards|, i requires 0 <= i < |cards| => cards[i].key)
  }

  /** `CATEGORY_ORDER`. */
  const CategoryOrder: map<string, int> :=
    map["Christmas" := 0, "Birthday" := 1, "Thank You" := 2, "Love" := 3, "General" := 4]

  /** The rank of categories missing from `CATEGORY_ORDER`. */
  const UnknownRank: int := 999

  predicate IsChristmas(k: string) {
    Contains(k, "christmas") || Contains(k, "xmas") || Contains(k, "santa")
  }

  predicate IsLove(k: string) {
    Contains(k, "heart") || Contains(k, "love")
  }

  /** `getCategory`: the first matching rule, on the lower-cased key. */
  function GetCategory(cardKey: string): (c: string)
    ensures c in CategoryOrder
  {
    var k := ToLower(cardKey);
    if IsChristmas(k) then "Christmas"
    else if Contains(k, "birthday") then "Birthday"
    else if Contains(k, "thank") then "Thank You"
    else if IsLove(k) then "Love"
    else "General"
  }

  /** The rules in order of precedence: a key is filed under the first rule
      its lower-cased form matches, and under General when none does. */
  lemma GetCategoryPrecedence(cardKey: string)
    ensures var k := ToLower(cardKey);
      && (GetCategory(cardKey) == "Christmas" <==> IsChristmas(k))
      && (GetCategory(cardKey) == "Birthday" <==> !IsChristmas(k) && Contains(k, "birthday"))
      && (GetCategory(cardKey) == "Thank You" <==>
            !IsChristmas(k) && !Contains(k, "birthday") && Contains(k, "thank"))
      && (GetCategory(cardKey) == "Love" <==>
            !IsChristmas(k) && !Contains(k, "birthday") && !Contains(k, "thank") && IsLove(k))
      && (GetCategory(cardKey) == "General" <==>
            !IsChristmas(k) && !Contains(k, "birthday") && !Contains(k, "thank") && !IsLove(k))
  {
  }

  /** Classification ignores ASCII letter case. */
  lemma GetCategoryIgnoresCase(cardKey: string)
    ensures GetCategory(ToUpper(cardKey)) == GetCategory(cardKey)
    ensures GetCategory(ToLower(cardKey)) == GetCategory(cardKey)
  {
    LowerOfCaseVariants(cardKey);
  }

  /** `CATEGORY_ORDER[getCategory(key)] ?? 999`. */
  function Rank(cardKey: string): (r: int)
    ensures 0 <= r < 5 && r != UnknownRank
  {
    var c := GetCategory(cardKey);
    if c in CategoryOrder then CategoryOrder[c] else UnknownRank
  }

  /** The ranks of the five categories are distinct, so the rank determines
      the category. */
  lemma RankDeterminesCategory(a: string, b: string)
    requires Rank(a) == Rank(b)
    ensures GetCategory(a) == GetCategory(b)
  {
  }

  /** No classification rule matches the key. */
  predicate MatchesNoRule(k: string) {
    !IsChristmas(k) && !Contains(k, "birthday") && !Contains(k, "thank") && !IsLove(k)
  }

  /** A lower-case key that matches no rule is filed under General. */
  lemma GeneralWhenNoRuleMatches(k: string)
    requires ToLower(k) == k && MatchesNoRule(k)
    ensures GetCategory(k) == "General"
  {
  }

  lemma UnthemedKeysLowerCase()
    ensures ToLower("winter-forest-tree") == "winter-forest-tree"
    ensures ToLower("snowy-cottage-evening") == "snowy-cottage-evening"
    ensures ToLower("warm-wishes") == "warm-wishes"
  {
  }

  /** The words the rules look for, in rule order. */
  const RuleWords: seq<string> := ["christmas", "xmas", "santa", "birthday", "thank", "heart", "love"]

  /** A key that lacks some letter of every rule word it is not already
      known to miss matches no rule; `missing[i]` is the letter of
      `RuleWords[i]` the key lacks. */
  lemma NoRuleByMissingLetters(k: string, missing: string)
    requires |missing| == |RuleWords|
    requires forall i :: 0 <= i < |RuleWords| ==>
      !Contains(k, RuleWords[i]) || (missing[i] in RuleWords[i] && missing[i] !in k)
    ensures MatchesNoRule(k)
  {
    forall i | 0 <= i < |RuleWords|
      ensures !Contains(k, RuleWords[i])
    {
      if Contains(k, RuleWords[i]) {
        AbsentChar(k, RuleWords[i], missing[i]);
      }
    }
    assert !Contains(k, RuleWords[0]) && !Contains(k, RuleWords[1]) && !Contains(k, RuleWords[2]);
    assert !Contains(k, RuleWords[3]) && !Contains(k, RuleWords[4]);
    assert !Contains(k, RuleWords[5]) && !Contains(k, RuleWords[6]);
  }

  lemma WinterForestTreeMatchesNoRule()
    ensures MatchesNoRule("winter-forest-tree")
  {
    NoRuleByMissingLetters("winter-forest-tree", "cxabhhl");
  }

  /** "santa" is ruled out here not by a missing letter but because the
      key's only `s` is followed by `n`. */
  lemma SnowyCottageEveningLacksSanta()
    ensures !Contains("snowy-cottage-evening", "santa")
  {
    var rest := "nowy-cottage-evening";
    assert "snowy-cottage-evening" == ['s'] + rest;
    AbsentChar(rest, "santa", 's');
    ContainsCons('s', rest, "santa");
    var k := "snowy-cottage-evening";
    assert k[..5][1] == 'n' != "santa"[1];
  }

  lemma SnowyCottageEveningMatchesNoRule()
    ensures MatchesNoRule("snowy-cottage-evening")
  {
    SnowyCottageEveningLacksSanta();
    NoRuleByMissingLetters("snowy-cottage-evening", "hx-bhhl");
  }

  /** Three cards whose titles suggest a season or a theme fall through
      every rule and are shown as General: the winter tree and the snowy
      cottage (no "christmas", "xmas" or "santa" in their keys) and the
      warm wishes card. */
  lemma UnthemedKeysAreGeneral()
    ensures GetCategory("winter-forest-tree") == "General"
    ensures GetCategory("snowy-cottage-evening") == "General"
    ensures GetCategory("warm-wishes") == "General"
  {
    UnthemedKeysLowerCase();
    WinterForestTreeMatchesNoRule();
    SnowyCottageEveningMatchesNoRule();
    NoRuleByMissingLetters("warm-wishes", "cxnbttl");
    GeneralWhenNoRuleMatches("winter-forest-tree");
    GeneralWhenNoRuleMatches("snowy-cottage-evening");
    GeneralWhenNoRuleMatches("warm-wishes");
  }

  /** `a.title.localeCompare(b.title)`, left abstract: negative, zero or
      positive as `a` sorts before, with or after `b`. */
  type Collation = (string, string) -> int

  /** What the sort relies on of `localeCompare`: any two titles are
      ordered one way or the other. */
  ghost predicate Total(cmp: Collation) {
    forall a, b :: cmp(a, b) <= 0 || cmp(b, a) <= 0
  }

  /** The `sortedCards` comparator returns a non-positive value: a lower
      category rank first, then the title order within a category. */
  predicate Precedes(cmp: Collation, a: CardItem, b: CardItem) {
    if Rank(a.key) != Rank(b.key) then Rank(a.key) - Rank(b.key) < 0
    else cmp(a.title, b.title) <= 0
  }

  /** Every card may stand before the card that follows it. */
  predicate Sorted(cmp: Collation, s: seq<CardItem>) {
    forall i :: 0 < i < |s| ==> Precedes(cmp, s[i - 1], s[i])
  }

  /** Places `x` before the first card it may precede, after every card
      it may not. */
  function Insert(cmp: Collation, x: CardItem, s: seq<CardItem>): (r: seq<CardItem>)
    requires Total(cmp)
    requires Sorted(cmp, s)
    ensures multiset(r) == multiset(s) + multiset{x}
    ensures Sorted(cmp, r)
    ensures |r| > 0 && (r[0] == x || (|s| > 0 && r[0] == s[0]))
    decreases |s|
  {
    if |s| == 0 then [x]
    else if Precedes(cmp, x, s[0]) then [x] + s
    else
      assert Sorted(cmp, s[1..]) by {
        forall i | 0 < i < |s| - 1 ensures Precedes(cmp, s[1..][i - 1], s[1..][i]) {
          assert s[1..][i - 1] == s[i] && s[1..][i] == s[i + 1];
        }
      }
      var t := Insert(cmp, x, s[1..]);
      assert s == [s[0]] + s[1..];
      assert Precedes(cmp, s[0], x);
      var r := [s[0]] + t;
      assert Sorted(cmp, r) by {
        forall i | 0 < i < |r| ensures Precedes(cmp, r[i - 1], r[i]) {
          if i > 1 {
            assert r[i - 1] == t[i - 2] && r[i] == t[i - 1];
          }
        }
      }
      r
  }

  /** `[...cards].sort(...)`: a copy of the cards in comparator order. */
  function SortCards(cmp: Collation, cards: seq<CardItem>): (r: seq<CardItem>)
    requires Total(cmp)
    ensures multiset(r) == multiset(cards)
    ensures Sorted(cmp, r)
    decreases |cards|
  {
    if |cards| == 0 then []
    else
      assert cards == [cards[0]] + cards[1..];
      Insert(cmp, cards[0], SortCards(cmp, cards[1..]))
  }

  /** `sortedCards`: the catalogue in display order. */
  function SortedCards(cmp: Collation): seq<CardItem>
    requires Total(cmp)
  {
    SortCards(cmp, Cards)
  }

  /** In a sorted list every card's category rank is at most that of every
      later card, and cards of equal rank that are neighbours are in title
      order. */
  lemma {:induction false} SortedByRank(cmp: Collation, s: seq<CardItem>, i: int, j: int)
    requires Sorted(cmp, s)
    requires 0 <= i <= j < |s|
    ensures Rank(s[i].key) <= Rank(s[j].key)
    decreases j - i
  {
    if i < j {
      SortedByRank(cmp, s, i, j - 1);
      assert Precedes(cmp, s[j - 1], s[j]);
    }
  }

  /** The sorted copy holds the same cards, each as often, and never puts a
      card of a later category before one of an earlier category. */
  lemma SortCardsOrder(cmp: Collation, cards: seq<CardItem>)
    requires Total(cmp)
    ensures multiset(SortCards(cmp, cards)) == multiset(cards)
    ensures |SortCards(cmp, cards)| == |cards|
    ensures forall i, j :: 0 <= i <= j < |SortCards(cmp, cards)| ==>
      Rank(SortCards(cmp, cards)[i].key) <= Rank(SortCards(cmp, cards)[j].key)
  {
    var s := SortCards(cmp, cards);
    assert |s| == |multiset(s)| == |multiset(cards)| == |cards|;
    forall i, j | 0 <= i <= j < |s|
      ensures Rank(s[i].key) <= Rank(s[j].key)
    {
      SortedByRank(cmp, s, i, j);
    }
  }

  /** `CARDS.find((c) => c.key === selectedCard) ?? null`: the first card
      with the selected key; nothing is selected while the selection is
      null. */
  function Find(cards: seq<CardItem>, selected: Option<string>): (r: Option<CardItem>)
    ensures r.Some? <==> selected.Some? && exists i :: 0 <= i < |cards| && cards[i].key == selected.value
    ensures r.Some? ==> r.value in cards && r.value.key == selected.value
    decreases |cards|
  {
    if selected.None? || |cards| == 0 then None
    else if cards[0].key == selected.value then Some(cards[0])
    else
      var r := Find(cards[1..], selected);
      assert r.Some? ==> exists i :: 0 <= i < |cards| && cards[i].key == selected.value by {
        if r.Some? {
          var i :| 0 <= i < |cards[1..]| && cards[1..][i].key == selected.value;
          assert cards[i + 1].key == selected.value;
        }
      }
      r
  }

  predicate DistinctKeys(cards: seq<CardItem>) {
    forall i, j :: 0 <= i < j < |cards| ==> cards[i].key != cards[j].key
  }

  /** The catalogue has no two cards with the same key. */
  lemma CardsHaveDistinctKeys()
    ensures DistinctKeys(Cards)
  {
  }

  /** With distinct keys, the lookup returns the one card with the selected
      key. */
  lemma FindUnique(cards: seq<CardItem>, i: int)
    requires DistinctKeys(cards)
    requires 0 <= i < |cards|
    ensures Find(cards, Some(cards[i].key)) == Some(cards[i])
  {
    var r := Find(cards, Some(cards[i].key));
    var j :| 0 <= j < |cards| && cards[j] == r.value;
  }

  /** The card a visitor selects from the catalogue is the card shown in
      the personalisation form. */
  lemma SelectedCardItem(i: int)
    requires 0 <= i < |Cards|
    ensures Find(Cards, Some(Cards[i].key)) == Some(Cards[i])
  {
    CardsHaveDistinctKeys();
    FindUnique(Cards, i);
  }
}
