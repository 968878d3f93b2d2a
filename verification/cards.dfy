/** Card identity, suit colours and the 52-card universe (src/main.js:7, 94-120, 211-215). */
module Cards {

  /** A card's rank: 1 (ace) .. 13 (king). */
  type Rank = n: int | 1 <= n <= 13 witness 1

  /** A suit index 0..3; SUITS_TO_COLORS maps it to a colour. */
  type Suit = s: int | 0 <= s < 4 witness 0

  /** A card is identified by its (number, suit) pair; every pair exists exactly once in a game. */
  datatype Card = Card(number: Rank, suit: Suit)

  datatype Color = Black | Red

  /** The colour of a suit: suits 0 and 3 are black, suits 1 and 2 red. */
  function SuitColor(s: Suit): Color
  {
    if s == 1 || s == 2 then Red else Black
  }

  /** The colour a card gets from its suit. */
  function ColorOf(c: Card): Color
  {
    SuitColor(c.suit)
  }

  /** The colours split the suits in two pairs, {0, 3} black and {1, 2} red: each suit shares its
      colour with suit 3 - s and has the other colour from suit s + 2 (mod 4). */
  lemma SuitColorPairs(s: Suit)
    ensures SuitColor(s) == SuitColor(3 - s)
    ensures SuitColor(s) != SuitColor((s + 2) % 4)
  {
  }

  /** The cards (1, suit), (2, suit), ..., (k, suit) in ascending order. */
  function SuitRun(suit: Suit, k: nat): (r: seq<Card>)
    requires k <= 13
    ensures |r| == k
    ensures forall j :: 0 <= j < k ==> r[j] == Card(j + 1, suit)
  {
    if k == 0 then [] else SuitRun(suit, k - 1) + [Card(k, suit)]
  }

  /** The 52 cards in the order the setup loop creates them: suit by suit, ranks ascending,
      so the card at index k has rank k % 13 + 1 and suit k / 13. */
  function AllCards(): (r: seq<Card>)
    ensures |r| == 52
    ensures forall k :: 0 <= k < 52 ==> r[k] == Card(k % 13 + 1, k / 13)
  {
    seq(52, k requires 0 <= k < 52 => Card(k % 13 + 1, k / 13))
  }

  /** The thirteen cards of one suit sit together in AllCards, ace first. */
  lemma {:induction false} SuitBlock(suit: Suit)
    ensures AllCards()[13 * suit..13 * suit + 13] == SuitRun(suit, 13)
  {
    var b := AllCards()[13 * suit..13 * suit + 13];
    forall j | 0 <= j < 13 ensures b[j] == Card(j + 1, suit) {
      assert (13 * suit + j) % 13 == j && (13 * suit + j) / 13 == suit;
    }
  }

  /** The 52 cards are the four suits one after the other, each from ace up to king. */
  lemma {:induction false} AllCardsBySuit()
    ensures AllCards() == SuitRun(0, 13) + SuitRun(1, 13) + SuitRun(2, 13) + SuitRun(3, 13)
  {
    var a := AllCards();
    SuitBlock(0);
    SuitBlock(1);
    SuitBlock(2);
    SuitBlock(3);
    assert a == a[..13] + a[13..26] + a[26..39] + a[39..];
  }

  /** No card occurs twice in s. */
  ghost predicate Distinct(s: seq<Card>)
  {
    forall c :: multiset(s)[c] <= 1
  }

  /** A card found at exactly one index occurs once. */
  lemma {:induction false} CountOne(s: seq<Card>, c: Card, k: int)
    requires 0 <= k < |s| && s[k] == c
    requires forall j :: 0 <= j < |s| && j != k ==> s[j] != c
    ensures multiset(s)[c] == 1
  {
    assert s == s[..k] + [s[k]] + s[k + 1..];
    assert c !in s[..k];
    assert c !in s[k + 1..];
    assert multiset(s) == multiset(s[..k]) + multiset([s[k]]) + multiset(s[k + 1..]);
  }

  /** Each card occurs exactly once among the 52, at index 13 * suit + rank - 1. */
  lemma {:induction false} AllCardsCount(c: Card)
    ensures multiset(AllCards())[c] == 1
  {
    var s := AllCards();
    var k := c.suit * 13 + c.number - 1;
    assert s[k] == c;
    forall j | 0 <= j < 52 && j != k ensures s[j] != c {
      assert s[j] == Card(j % 13 + 1, j / 13);
    }
    CountOne(s, c, k);
  }

  /** The setup builds every (number 1..13, suit 0..3) pair exactly once: 52 distinct cards. */
  lemma {:induction false} AllCardsUniverse()
    ensures |AllCards()| == 52
    ensures forall c: Card :: multiset(AllCards())[c] == 1
    ensures Distinct(AllCards())
  {
    forall c: Card ensures multiset(AllCards())[c] == 1 {
      AllCardsCount(c);
    }
  }

  /** Every one of the 52 cards occurs in s exactly once. */
  ghost predicate EachOnce(s: seq<Card>)
  {
    forall c: Card :: multiset(s)[c] == 1
  }

  /** Holding each card exactly once is holding the same cards as the full setup deck. */
  lemma {:induction false} EachOnceIffAllCards(s: seq<Card>)
    ensures EachOnce(s) <==> multiset(s) == multiset(AllCards())
    ensures EachOnce(s) ==> |s| == 52 && Distinct(s)
  {
    AllCardsUniverse();
    if EachOnce(s) {
      assert multiset(s) == multiset(AllCards());
      assert |multiset(s)| == |multiset(AllCards())|;
    }
  }

  /** A sequence with the same cards as a distinct one is distinct. */
  lemma {:induction false} DistinctSameMultiset(s: seq<Card>, t: seq<Card>)
    requires multiset(s) == multiset(t) && Distinct(t)
    ensures Distinct(s)
  {
    forall c ensures multiset(s)[c] <= 1 {
      assert multiset(s)[c] == multiset(t)[c];
    }
  }

  /** The two halves of a distinct sequence are distinct and share no card. */
  lemma {:induction false} DistinctSplit(a: seq<Card>, b: seq<Card>)
    requires Distinct(a + b)
    ensures Distinct(a) && Distinct(b)
    ensures forall c :: c in a ==> c !in b
  {
    assert multiset(a + b) == multiset(a) + multiset(b);
    forall c ensures multiset(a)[c] <= 1 && multiset(b)[c] <= 1 {
      assert multiset(a + b)[c] <= 1;
    }
    forall c | c in a ensures c !in b {
      assert multiset(a + b)[c] <= 1;
    }
  }

  /** The cards of a distinct sequence occur at one index each. */
  lemma {:induction false} DistinctIndices(s: seq<Card>, i: int, j: int)
    requires Distinct(s) && 0 <= i < j < |s|
    ensures s[i] != s[j]
  {
    assert s == s[..j] + s[j..];
    assert multiset(s) == multiset(s[..j]) + multiset(s[j..]);
    assert s[..j][i] == s[i] && s[j..][0] == s[j];
    assert multiset(s[..j])[s[i]] >= 1 && multiset(s[j..])[s[j]] >= 1;
    assert multiset(s)[s[i]] == multiset(s[..j])[s[i]] + multiset(s[j..])[s[i]];
    assert multiset(s)[s[i]] <= 1;
  }
}
