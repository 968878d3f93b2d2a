/**
 * What a press on a tableau picks up (src/main.js:266-281): the face-up cards
 * in order, reversed, the first of them under the mouse, and
 * the single card or run that the press then drags.
 */
module Selection {
  import opened Cards
  import opened Geometry
  import opened Board

  /** draggedCard: nothing, one card, or an ordered run (bottom to top). A press that misses
      every face-up card of a hit tableau yields the empty run. */
  datatype Dragged = Nothing | Single(card: Card) | Run(cards: seq<Card>)

  /** Whether the mouse is strictly inside the card's current box. */
  predicate Hit(p: Point, point: map<Card, Point>, c: Card)
    requires c in point
  {
    IsClicked(p, CardRect(point[c]))
  }

  /** The face-up cards of t, bottom to top. */
  function Shown(t: seq<Card>, hidden: map<Card, bool>): (r: seq<Card>)
    requires forall c :: c in t ==> c in hidden
    ensures |r| <= |t|
    ensures forall c :: c in r ==> c in t && !hidden[c]
  {
    if t == [] then []
    else (if hidden[t[0]] then [] else [t[0]]) + Shown(t[1..], hidden)
  }

  /** Array.prototype.reverse, on a copy. */
  function Reverse(s: seq<Card>): (r: seq<Card>)
    ensures |r| == |s|
    ensures forall k :: 0 <= k < |s| ==> r[k] == s[|s| - 1 - k]
  {
    seq(|s|, k requires 0 <= k < |s| => s[|s| - 1 - k])
  }

  /** Reversing twice gives the sequence back, and reversing keeps every card: a reversed
      selection holds the same cards as the face-up part it came from. */
  lemma {:induction false} ReverseInvolution(s: seq<Card>)
    ensures Reverse(Reverse(s)) == s
    ensures multiset(Reverse(s)) == multiset(s)
    decreases |s|
  {
    if s != [] {
      var n := |s| - 1;
      ReverseInvolution(s[..n]);
      assert Reverse(s) == [s[n]] + Reverse(s[..n]);
      assert s == s[..n] + [s[n]];
    }
  }

  /** Array findIndex by click: the first index whose card is hit, or -1. */
  function FindClicked(s: seq<Card>, point: map<Card, Point>, p: Point): (i: int)
    requires forall c :: c in s ==> c in point
    ensures -1 <= i < |s|
    ensures i == -1 <==> forall k :: 0 <= k < |s| ==> !Hit(p, point, s[k])
    ensures 0 <= i ==> Hit(p, point, s[i]) && forall k :: 0 <= k < i ==> !Hit(p, point, s[k])
  {
    if s == [] then -1
    else if Hit(p, point, s[0]) then 0
    else
      var j := FindClicked(s[1..], point, p);
      if j == -1 then -1 else j + 1
  }

  /** The unit a press on a tableau with face-up cards picks up. */
  function TableauSelection(t: seq<Card>, hidden: map<Card, bool>, point: map<Card, Point>, p: Point): Dragged
    requires forall c :: c in t ==> c in hidden && c in point
    requires Shown(t, hidden) != []
  {
    var shownCards := Reverse(Shown(t, hidden));
    var clickedCardIndex := FindClicked(shownCards, point, p);
    if clickedCardIndex == 0 then Single(shownCards[0])
    else Run(Reverse(shownCards[..clickedCardIndex + 1]))
  }

  /** Face-down cards of t form a prefix: a face-down card has only face-down cards below it. */
  ghost predicate HiddenPrefix(t: seq<Card>, hidden: map<Card, bool>)
    requires forall c :: c in t ==> c in hidden
  {
    forall j, k :: 0 <= j < k < |t| && hidden[t[k]] ==> hidden[t[j]]
  }

  /** Reversing a prefix of the reversed sequence gives back the matching suffix, in order. */
  lemma {:induction false} ReversePrefixOfReverse(s: seq<Card>, m: int)
    requires 0 <= m <= |s|
    ensures Reverse(Reverse(s)[..m]) == s[|s| - m..]
  {
    var r := Reverse(s)[..m];
    var rr := Reverse(r);
    forall k | 0 <= k < m ensures rr[k] == s[|s| - m + k] {
      assert rr[k] == r[m - 1 - k];
    }
  }

  /** With every card face-up, filter keeps all of them. */
  lemma {:induction false} ShownAll(t: seq<Card>, hidden: map<Card, bool>)
    requires forall c :: c in t ==> c in hidden && !hidden[c]
    ensures Shown(t, hidden) == t
  {
    if t != [] {
      ShownAll(t[1..], hidden);
    }
  }

  /** With face-down cards forming a prefix, the shown cards are exactly a suffix of the tableau. */
  lemma {:induction false} ShownIsSuffix(t: seq<Card>, hidden: map<Card, bool>)
    requires forall c :: c in t ==> c in hidden
    requires HiddenPrefix(t, hidden)
    ensures Shown(t, hidden) == t[|t| - |Shown(t, hidden)|..]
    ensures forall k :: 0 <= k < |t| - |Shown(t, hidden)| ==> hidden[t[k]]
  {
    if t != [] {
      var rest := t[1..];
      assert Shown(t, hidden) == (if hidden[t[0]] then [] else [t[0]]) + Shown(rest, hidden);
      if hidden[t[0]] {
        HiddenPrefixTail(t, hidden);
        ShownIsSuffix(rest, hidden);
        assert Shown(t, hidden) == Shown(rest, hidden);
        assert forall k :: 1 <= k < |t| ==> t[k] == rest[k - 1];
      } else {
        forall c | c in t ensures !hidden[c] {
          var k :| 0 <= k < |t| && t[k] == c;
        }
        ShownAll(t, hidden);
      }
    }
  }

  /** filter keeps nothing exactly when every card is face-down. */
  lemma {:induction false} ShownEmptyIffAllHidden(t: seq<Card>, hidden: map<Card, bool>)
    requires forall c :: c in t ==> c in hidden
    ensures Shown(t, hidden) == [] <==> forall c :: c in t ==> hidden[c]
  {
    if t != [] {
      ShownEmptyIffAllHidden(t[1..], hidden);
      assert forall c :: c in t ==> c == t[0] || c in t[1..];
    }
  }

  /** filter only looks at the face state of the cards it filters. */
  lemma {:induction false} ShownFrame(t: seq<Card>, hidden: map<Card, bool>, hidden': map<Card, bool>)
    requires forall c :: c in t ==> c in hidden && c in hidden' && hidden'[c] == hidden[c]
    ensures Shown(t, hidden') == Shown(t, hidden)
  {
    if t != [] {
      ShownFrame(t[1..], hidden, hidden');
    }
  }

  lemma {:induction false} HiddenPrefixTail(t: seq<Card>, hidden: map<Card, bool>)
    requires forall c :: c in t ==> c in hidden
    requires HiddenPrefix(t, hidden) && t != []
    ensures HiddenPrefix(t[1..], hidden)
  {
    forall j, k | 0 <= j < k < |t| - 1 && hidden[t[1..][k]] ensures hidden[t[1..][j]] {
      assert t[1..][k] == t[k + 1] && t[1..][j] == t[j + 1];
    }
  }

  /** The meaning of a selection d from tableau t whose top n cards are face-up: see SelectionSpec. */
  ghost predicate PicksTopmostHit(t: seq<Card>, n: nat, d: Dragged, point: map<Card, Point>, p: Point)
    requires forall c :: c in t ==> c in point
    requires n <= |t|
  {
    var b := |t| - n;
    && !d.Nothing?
    && (d == Run([]) <==> forall k :: b <= k < |t| ==> !Hit(p, point, t[k]))
    && (d.Single? ==> d.card == t[|t| - 1] && Hit(p, point, t[|t| - 1]))
    && (d.Run? && d.cards != [] ==>
          && 2 <= |d.cards| <= |t| - b
          && d.cards == t[|t| - |d.cards|..]
          && Hit(p, point, d.cards[0])
          && forall k :: |t| - |d.cards| < k < |t| ==> !Hit(p, point, t[k]))
  }

  /**
   * A press on a tableau whose face-down cards form a prefix picks up: the empty run exactly
   * when no face-up card is under the mouse; otherwise the run from the topmost face-up card
   * under the mouse through the tableau's top, bottom-to-top, which is the single top card
   * when that card is the one hit.
   */
  lemma {:induction false} SelectionSpec(t: seq<Card>, hidden: map<Card, bool>, point: map<Card, Point>, p: Point)
    requires forall c :: c in t ==> c in hidden && c in point
    requires HiddenPrefix(t, hidden)
    requires Shown(t, hidden) != []
    ensures PicksTopmostHit(t, |Shown(t, hidden)|, TableauSelection(t, hidden, point, p), point, p)
  {
    var s := Shown(t, hidden);
    assert s == t[|t| - |s|..] by {
      ShownIsSuffix(t, hidden);
    }
    var rev := Reverse(s);
    var idx, d := SelectionUnfold(t, hidden, point, p, s, rev);
    SelectionCases(t, s, rev, idx, d, point, p);
  }

  /** TableauSelection with its intermediate values named: rev is the reversed shown cards, idx
      the first of them hit, d what is picked up. */
  lemma {:induction false} SelectionUnfold(t: seq<Card>, hidden: map<Card, bool>, point: map<Card, Point>, p: Point,
                                           s: seq<Card>, rev: seq<Card>) returns (idx: int, d: Dragged)
    requires forall c :: c in t ==> c in hidden && c in point
    requires s == Shown(t, hidden) && s != [] && rev == Reverse(s)
    ensures forall c :: c in rev ==> c in point
    ensures idx == FindClicked(rev, point, p)
    ensures d == (if idx == 0 then Single(rev[0]) else Run(Reverse(rev[..idx + 1])))
    ensures TableauSelection(t, hidden, point, p) == d
  {
    forall c | c in rev ensures c in point {
      var k :| 0 <= k < |rev| && rev[k] == c;
      assert c == s[|s| - 1 - k];
    }
    idx := FindClicked(rev, point, p);
    d := if idx == 0 then Single(rev[0]) else Run(Reverse(rev[..idx + 1]));
  }

  /** The case analysis of SelectionSpec, once the shown cards are known to be a suffix. */
  lemma {:induction false} SelectionCases(t: seq<Card>, s: seq<Card>, rev: seq<Card>, idx: int, d: Dragged, point: map<Card, Point>, p: Point)
    requires forall c :: c in t ==> c in point
    requires s != [] && |s| <= |t| && s == t[|t| - |s|..]
    requires rev == Reverse(s)
    requires forall c :: c in rev ==> c in point
    requires idx == FindClicked(rev, point, p)
    requires d == (if idx == 0 then Single(rev[0]) else Run(Reverse(rev[..idx + 1])))
    ensures PicksTopmostHit(t, |s|, d, point, p)
  {
    var b := |t| - |s|;
    forall k | 0 <= k < |s| ensures rev[k] == t[|t| - 1 - k] {
      assert rev[k] == s[|s| - 1 - k];
    }
    if idx == -1 {
      assert rev[..0] == [];
      forall k | b <= k < |t| ensures !Hit(p, point, t[k]) {
        assert t[k] == rev[|t| - 1 - k];
      }
    } else if idx == 0 {
      assert rev[0] == t[|t| - 1];
    } else {
      SelectionRunCase(t, s, rev, idx, point, p);
    }
  }

  lemma {:induction false} SelectionRunCase(t: seq<Card>, s: seq<Card>, rev: seq<Card>, idx: int, point: map<Card, Point>, p: Point)
    requires forall c :: c in t ==> c in point
    requires s != [] && |s| <= |t| && s == t[|t| - |s|..]
    requires rev == Reverse(s)
    requires forall c :: c in rev ==> c in point
    requires forall k :: 0 <= k < |s| ==> rev[k] == t[|t| - 1 - k]
    requires 0 < idx < |rev|
    requires Hit(p, point, rev[idx]) && forall k :: 0 <= k < idx ==> !Hit(p, point, rev[k])
    ensures var run := Reverse(rev[..idx + 1]);
      && run == t[|t| - (idx + 1)..]
      && Hit(p, point, run[0])
      && forall k :: |t| - (idx + 1) < k < |t| ==> !Hit(p, point, t[k])
  {
    ReversePrefixOfReverse(s, idx + 1);
    var run := Reverse(rev[..idx + 1]);
    assert run == s[|s| - (idx + 1)..];
    assert run[0] == rev[idx];
    forall k | |t| - (idx + 1) < k < |t| ensures !Hit(p, point, t[k]) {
      assert t[k] == rev[|t| - 1 - k];
    }
  }
}
