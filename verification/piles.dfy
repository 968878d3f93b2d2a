/**
 * The rules of the three pile kinds, on card sequences (src/main.js:65-92, 122-192):
 * indexOf/splice removal, the Foundation and Tableau acceptance tests, topCard.
 */
module Piles {
  import opened Cards

  datatype Option<T> = None | Some(value: T)

  /** Array.prototype.indexOf: the first index holding c, or -1. */
  function IndexOf(s: seq<Card>, c: Card): (i: int)
    ensures -1 <= i < |s|
    ensures i == -1 <==> c !in s
    ensures 0 <= i ==> s[i] == c && c !in s[..i]
  {
    if s == [] then -1
    else if s[0] == c then 0
    else
      var j := IndexOf(s[1..], c);
      if j == -1 then -1 else j + 1
  }

  /** Array.prototype.splice(start, 1) on a copy: a negative start counts from the end. */
  function Splice1(s: seq<Card>, start: int): seq<Card>
  {
    var k := if start < 0 then (if |s| + start < 0 then 0 else |s| + start) else start;
    if k < |s| then s[..k] + s[k + 1..] else s
  }

  /** splice counts a negative start from the end and clamps it to the front; a start past the end
      deletes nothing; whatever it deletes, it deletes one card of the pile and keeps the rest. */
  lemma {:induction false} Splice1Indices(s: seq<Card>, start: int)
    ensures 0 < -start <= |s| ==> Splice1(s, start) == Splice1(s, |s| + start)
    ensures start < -|s| ==> Splice1(s, start) == Splice1(s, 0)
    ensures |s| <= start ==> Splice1(s, start) == s
    ensures start < |s| && s != [] ==> |Splice1(s, start)| == |s| - 1
    ensures multiset(Splice1(s, start)) <= multiset(s)
  {
    var k := if start < 0 then (if |s| + start < 0 then 0 else |s| + start) else start;
    if k < |s| {
      assert s == s[..k] + [s[k]] + s[k + 1..];
    }
  }

  /** Deck.remove / Tableau.remove: delete one element at the index indexOf gives (-1 meaning the
      last element, as splice counts a negative start from the end). */
  function Remove(s: seq<Card>, c: Card): (r: seq<Card>)
  {
    Splice1(s, IndexOf(s, c))
  }

  /** Removing a card the pile holds takes out exactly its first occurrence, order kept. */
  lemma {:induction false} RemovePresent(s: seq<Card>, c: Card)
    requires c in s
    ensures var i := IndexOf(s, c);
      Remove(s, c) == s[..i] + s[i + 1..] && s[i] == c
    ensures |Remove(s, c)| == |s| - 1
    ensures multiset(Remove(s, c)) == multiset(s) - multiset{c}
  {
    var i := IndexOf(s, c);
    assert s == s[..i] + [c] + s[i + 1..];
  }

  /** The quirk of indexOf returning -1: removing an absent card drops the pile's last card. */
  lemma {:induction false} RemoveAbsent(s: seq<Card>, c: Card)
    requires c !in s
    ensures Remove(s, c) == if s == [] then [] else s[..|s| - 1]
  {
  }

  /** Removing a card that sits above a part p it does not occur in gives p followed by what was above it. */
  lemma {:induction false} RemoveAfter(p: seq<Card>, c: Card, q: seq<Card>)
    requires c !in p
    ensures Remove(p + [c] + q, c) == p + q
  {
    var s := p + [c] + q;
    assert s[|p|] == c;
    assert s[..|p|] == p;
    assert forall k :: |p| < k <= |s| ==> s[..k][|p|] == c;
    var i := IndexOf(s, c);
    assert i == |p|;
    assert s[..i] == p;
    assert s[i + 1..] == q;
  }

  /** topCard: the last card, or nothing for an empty pile. */
  function TopCard(s: seq<Card>): (r: Option<Card>)
    ensures r == None <==> s == []
    ensures r.Some? ==> r.value == s[|s| - 1] && r.value in s
  {
    if s == [] then None else Some(s[|s| - 1])
  }

  /** Tableau.isPushable: an empty tableau takes a king; otherwise the top card must be of the
      other colour and one rank higher. It reads the top card whether or not it is face-up. */
  predicate TableauIsPushable(t: seq<Card>, c: Card)
    ensures TableauIsPushable(t, c) ==> (c.number == 13 <==> t == [])
  {
    if |t| == 0 then c.number == 13
    else ColorOf(t[|t| - 1]) != ColorOf(c) && t[|t| - 1].number == c.number + 1
  }

  /** Foundation.isPushable: same suit and the expected next number. */
  predicate FoundationIsPushable(suit: Suit, nextNumber: int, c: Card)
    ensures FoundationIsPushable(suit, nextNumber, c) ==> 1 <= nextNumber <= 13 && c == Card(nextNumber, suit)
  {
    suit == c.suit && nextNumber == c.number
  }

  /** An empty tableau accepts exactly the kings. */
  lemma {:induction false} EmptyTableauAcceptsKings(c: Card)
    ensures TableauIsPushable([], c) <==> c.number == 13
  {
  }

  /** A tableau never accepts its own top card (same colour, same rank). */
  lemma {:induction false} TableauRejectsOwnTop(t: seq<Card>)
    requires t != []
    ensures !TableauIsPushable(t, t[|t| - 1])
  {
  }

  /** At most one card can ever be accepted by a foundation in a given state: no two distinct
      cards pass the test, so a multi-card unit can never be placed there as a whole. */
  lemma {:induction false} FoundationAcceptsAtMostOne(suit: Suit, nextNumber: int, c: Card, d: Card)
    requires FoundationIsPushable(suit, nextNumber, c) && FoundationIsPushable(suit, nextNumber, d)
    ensures c == d
  {
  }

  /** A guarded push keeps a foundation equal to its suit's ranks 1..k, k one higher. */
  lemma {:induction false} FoundationPushGrows(suit: Suit, k: nat, c: Card)
    requires k < 13
    requires FoundationIsPushable(suit, k + 1, c)
    ensures SuitRun(suit, k) + [c] == SuitRun(suit, k + 1)
  {
  }

  /** The cards of a list of piles, pile after pile. */
  function Flatten(ss: seq<seq<Card>>): (r: seq<Card>)
    ensures |ss| == 0 ==> r == []
  {
    if ss == [] then [] else Flatten(ss[..|ss| - 1]) + ss[|ss| - 1]
  }

  /** Every card of a pile is among the flattened cards. */
  lemma {:induction false} InFlatten(ss: seq<seq<Card>>, i: int, c: Card)
    requires 0 <= i < |ss| && c in ss[i]
    ensures c in Flatten(ss)
  {
    var n := |ss| - 1;
    assert Flatten(ss) == Flatten(ss[..n]) + ss[n];
    if i < n {
      assert ss[..n][i] == ss[i];
      InFlatten(ss[..n], i, c);
    }
  }

  /** Replacing one pile changes the flattened multiset by exactly the difference of that pile. */
  lemma {:induction false} FlattenUpdate(ss: seq<seq<Card>>, i: int, s: seq<Card>)
    requires 0 <= i < |ss|
    ensures multiset(Flatten(ss[i := s])) + multiset(ss[i]) == multiset(Flatten(ss)) + multiset(s)
  {
    var n := |ss| - 1;
    var tt := ss[i := s];
    assert Flatten(ss) == Flatten(ss[..n]) + ss[n];
    assert Flatten(tt) == Flatten(tt[..n]) + tt[n];
    if i < n {
      assert tt[..n] == ss[..n][i := s];
      assert ss[..n][i] == ss[i] && tt[n] == ss[n];
      FlattenUpdate(ss[..n], i, s);
      var a, b, c, d, e := multiset(Flatten(tt[..n])), multiset(ss[i]), multiset(Flatten(ss[..n])), multiset(s), multiset(ss[n]);
      assert a + b == c + d;
      assert multiset(Flatten(tt)) == a + e && multiset(Flatten(ss)) == c + e;
      forall x ensures (a + e + b)[x] == (c + e + d)[x] {
        assert (a + b)[x] == (c + d)[x];
      }
    } else {
      assert tt[..n] == ss[..n];
    }
  }

  /** In a distinct flattened list, two different piles share no card. */
  lemma {:induction false} FlattenDisjoint(ss: seq<seq<Card>>, i: int, j: int, c: Card)
    requires Distinct(Flatten(ss))
    requires 0 <= i < |ss| && 0 <= j < |ss| && i != j
    requires c in ss[i]
    ensures c !in ss[j]
  {
    var n := |ss| - 1;
    assert Flatten(ss) == Flatten(ss[..n]) + ss[n];
    DistinctSplit(Flatten(ss[..n]), ss[n]);
    if i == n {
      if c in ss[j] {
        assert ss[..n][j] == ss[j];
        InFlatten(ss[..n], j, c);
      }
    } else if j == n {
      assert ss[..n][i] == ss[i];
      InFlatten(ss[..n], i, c);
    } else {
      assert ss[..n][i] == ss[i] && ss[..n][j] == ss[j];
      FlattenDisjoint(ss[..n], i, j, c);
    }
  }

  /** In a distinct flattened list, each pile is itself distinct. */
  lemma {:induction false} FlattenDistinctPile(ss: seq<seq<Card>>, i: int)
    requires Distinct(Flatten(ss))
    requires 0 <= i < |ss|
    ensures Distinct(ss[i])
  {
    var n := |ss| - 1;
    assert Flatten(ss) == Flatten(ss[..n]) + ss[n];
    DistinctSplit(Flatten(ss[..n]), ss[n]);
    if i < n {
      assert ss[..n][i] == ss[i];
      FlattenDistinctPile(ss[..n], i);
    }
  }
}
