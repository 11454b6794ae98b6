/** The deal: a Fisher-Yates shuffle of ten cards, cut into two sorted hands of three. */
module Deal {
  import opened CardGame

  /** The deck in order. */
  function Ordered(n: nat): seq<nat> {
    seq(n, i requires 0 <= i => i + 1)
  }

  function Swapped(s: seq<nat>, i: nat, j: nat): seq<nat>
    requires i < |s| && j < |s|
  {
    s[i := s[j]][j := s[i]]
  }

  /** The shuffle from position `i` down, `draw(i)` being the generator's number for that position. */
  function Shuffled(deck: seq<nat>, i: nat, draw: nat -> nat): (r: seq<nat>)
    requires i < |deck|
    ensures |r| == |deck|
    decreases i
  {
    if i == 0 then deck else Shuffled(Swapped(deck, i, draw(i) % (i + 1)), i - 1, draw)
  }

  lemma SwapPermutes(s: seq<nat>, i: nat, j: nat)
    requires i < |s| && j < |s|
    ensures multiset(Swapped(s, i, j)) == multiset(s)
  {
  }

  lemma {:induction false} ShufflePermutes(deck: seq<nat>, i: nat, draw: nat -> nat)
    requires i < |deck|
    ensures multiset(Shuffled(deck, i, draw)) == multiset(deck)
    decreases i
  {
    if i > 0 {
      var j := draw(i) % (i + 1);
      SwapPermutes(deck, i, j);
      ShufflePermutes(Swapped(deck, i, j), i - 1, draw);
    }
  }

  // ---- the shuffle is fair: one choice at every position for every order of the deck ----

  ghost predicate NoRepeats(s: seq<nat>) {
    forall i, j :: 0 <= i < j < |s| ==> s[i] != s[j]
  }

  /** The choice made at a position: any card from there down. */
  function Choice(draw: nat -> nat, k: nat): nat {
    draw(k) % (k + 1)
  }

  ghost predicate SameChoices(a: nat -> nat, b: nat -> nat, i: nat) {
    forall k :: 1 <= k <= i ==> Choice(a, k) == Choice(b, k)
  }

  lemma {:induction false} AboveIsFixed(deck: seq<nat>, i: nat, draw: nat -> nat)
    requires i < |deck|
    ensures forall k :: i < k < |deck| ==> Shuffled(deck, i, draw)[k] == deck[k]
    decreases i
  {
    if i > 0 {
      AboveIsFixed(Swapped(deck, i, Choice(draw, i)), i - 1, draw);
    }
  }

  lemma SwapKeepsApart(s: seq<nat>, i: nat, j: nat)
    requires i < |s| && j < |s| && NoRepeats(s)
    ensures NoRepeats(Swapped(s, i, j))
  {
  }

  /** Two runs of draws leave the same order exactly when they choose alike at every position. */
  lemma {:induction false} OrderTellsTheChoices(deck: seq<nat>, i: nat, a: nat -> nat, b: nat -> nat)
    requires i < |deck| && NoRepeats(deck)
    ensures Shuffled(deck, i, a) == Shuffled(deck, i, b) <==> SameChoices(a, b, i)
    decreases i
  {
    hide Shuffled, Choice, SameChoices, Swapped;
    if i == 0 {
      NoChoice(deck, a, b);
    } else {
      var x, y := Choice(a, i), Choice(b, i);
      ChoiceShows(deck, i, a);
      ChoiceShows(deck, i, b);
      ChoicesInTurn(a, b, i);
      assert x != y ==> deck[x] != deck[y];
      if x == y {
        SwapKeepsApart(deck, i, x);
        OrderTellsTheChoices(Swapped(deck, i, x), i - 1, a, b);
      }
    }
  }

  lemma NoChoice(deck: seq<nat>, a: nat -> nat, b: nat -> nat)
    requires deck != []
    ensures Shuffled(deck, 0, a) == Shuffled(deck, 0, b) && SameChoices(a, b, 0)
  {
  }

  /** The card chosen for a position stays there. */
  lemma ChoiceShows(deck: seq<nat>, i: nat, draw: nat -> nat)
    requires 0 < i < |deck|
    ensures var x := Choice(draw, i);
      && x <= i && |Swapped(deck, i, x)| == |deck|
      && Shuffled(deck, i, draw) == Shuffled(Swapped(deck, i, x), i - 1, draw) && Shuffled(deck, i, draw)[i] == deck[x]
  {
    AboveIsFixed(Swapped(deck, i, Choice(draw, i)), i - 1, draw);
  }

  lemma ChoicesInTurn(a: nat -> nat, b: nat -> nat, i: nat)
    requires i > 0
    ensures SameChoices(a, b, i) <==> SameChoices(a, b, i - 1) && Choice(a, i) == Choice(b, i)
  {
    hide Choice;
  }

  /** And every order of the deck comes of some. */
  lemma {:induction false} EveryOrderIsDealt(deck: seq<nat>, i: nat, order: seq<nat>) returns (draw: nat -> nat)
    requires i < |deck| && NoRepeats(deck) && multiset(order) == multiset(deck)
    requires |order| == |deck| && forall k :: i < k < |deck| ==> order[k] == deck[k]
    ensures Shuffled(deck, i, draw) == order
    decreases i
  {
    if i == 0 {
      draw := k => 0;
      OnlyOneLeft(deck, order);
    } else {
      var j := Position(deck, order, i);
      SwapPermutes(deck, i, j);
      SwapKeepsApart(deck, i, j);
      hide Shuffled, NoRepeats;
      var lower := EveryOrderIsDealt(Swapped(deck, i, j), i - 1, order);
      draw := Choosing(deck, i, j, lower);
    }
  }

  /** One choice more. */
  lemma Choosing(deck: seq<nat>, i: nat, j: nat, lower: nat -> nat) returns (draw: nat -> nat)
    requires j <= i < |deck| && NoRepeats(deck) && i > 0
    ensures Shuffled(deck, i, draw) == Shuffled(Swapped(deck, i, j), i - 1, lower)
  {
    hide Shuffled, NoRepeats;
    draw := k => if k == i then j else lower(k);
    SwapKeepsApart(deck, i, j);
    AlikeBelow(draw, lower, i);
    OrderTellsTheChoices(Swapped(deck, i, j), i - 1, draw, lower);
    OneChoice(deck, i, draw, j);
  }

  lemma AlikeBelow(a: nat -> nat, b: nat -> nat, i: nat)
    requires i > 0 && forall k: nat :: k < i ==> a(k) == b(k)
    ensures SameChoices(a, b, i - 1)
  {
  }

  lemma OneChoice(deck: seq<nat>, i: nat, draw: nat -> nat, j: nat)
    requires j <= i < |deck| && i > 0 && draw(i) == j
    ensures Shuffled(deck, i, draw) == Shuffled(Swapped(deck, i, j), i - 1, draw)
  {
    assert draw(i) % (i + 1) == j;
  }

  /** Where the card that belongs at `i` is now. */
  lemma Position(deck: seq<nat>, order: seq<nat>, i: nat) returns (j: nat)
    requires i < |deck| && NoRepeats(deck) && multiset(order) == multiset(deck)
    requires |order| == |deck| && forall k :: i < k < |deck| ==> order[k] == deck[k]
    ensures j <= i && deck[j] == order[i]
  {
    assert order[i] in multiset(order);
    assert order[i] in deck;
    j :| 0 <= j < |deck| && deck[j] == order[i];
    if j > i {
      assert order[j] == order[i];
      Repeats(order, i, j);
      OnceEach(deck, order[i]);
      assert false;
    }
  }

  lemma Repeats(s: seq<nat>, i: nat, j: nat)
    requires i < j < |s| && s[i] == s[j]
    ensures multiset(s)[s[i]] >= 2
  {
    assert s == s[..i] + [s[i]] + s[i + 1..j] + [s[j]] + s[j + 1..];
  }

  lemma {:induction false} OnceEach(s: seq<nat>, c: nat)
    requires NoRepeats(s)
    ensures multiset(s)[c] <= 1
    ensures c !in s ==> multiset(s)[c] == 0
  {
    if s != [] {
      var n := |s| - 1;
      assert s == s[..n] + [s[n]];
      OnceEach(s[..n], c);
    }
  }

  lemma OnlyOneLeft(deck: seq<nat>, order: seq<nat>)
    requires 0 < |deck| == |order| && NoRepeats(deck) && multiset(order) == multiset(deck)
    requires forall k :: 0 < k < |deck| ==> order[k] == deck[k]
    ensures order == deck
  {
    var j := Position(deck, order, 0);
  }

  function Insert(x: nat, s: seq<nat>): seq<nat> {
    if s == [] || x <= s[0] then [x] + s else [s[0]] + Insert(x, s[1..])
  }

  function Ranked(s: seq<nat>): seq<nat> {
    if s == [] then [] else Insert(s[0], Ranked(s[1..]))
  }

  ghost predicate InOrder(s: seq<nat>) {
    forall i, j :: 0 <= i < j < |s| ==> s[i] <= s[j]
  }

  lemma {:induction false} InsertAdds(x: nat, s: seq<nat>)
    ensures multiset(Insert(x, s)) == multiset(s) + multiset{x} && |Insert(x, s)| == |s| + 1
  {
    if s != [] && x > s[0] {
      assert s == [s[0]] + s[1..];
      InsertAdds(x, s[1..]);
    }
  }

  lemma {:induction false} InsertKeepsOrder(x: nat, s: seq<nat>)
    requires InOrder(s)
    ensures InOrder(Insert(x, s)) && Insert(x, s) != []
    ensures Insert(x, s)[0] == if s == [] || x <= s[0] then x else s[0]
  {
    if s != [] && x > s[0] {
      InsertKeepsOrder(x, s[1..]);
      var r := Insert(x, s[1..]);
      forall j | 0 <= j < |r|
        ensures s[0] <= r[j]
      {
        assert s[0] <= r[0];
      }
    }
  }

  lemma {:induction false} SortedSorts(s: seq<nat>)
    ensures InOrder(Ranked(s)) && multiset(Ranked(s)) == multiset(s) && |Ranked(s)| == |s|
  {
    if s != [] {
      assert s == [s[0]] + s[1..];
      SortedSorts(s[1..]);
      InsertKeepsOrder(s[0], Ranked(s[1..]));
      InsertAdds(s[0], Ranked(s[1..]));
    }
  }

  method Shuffle(draw: nat -> nat) returns (deck: array<nat>)
    ensures fresh(deck) && deck[..] == Shuffled(Ordered(DECK_HIGH), DECK_HIGH - 1, draw)
  {
    deck := new nat[DECK_HIGH](i requires 0 <= i => i + 1);
    assert deck[..] == Ordered(DECK_HIGH);
    var i := DECK_HIGH - 1;
    while i > 0
      invariant 0 <= i < DECK_HIGH
      invariant Shuffled(deck[..], i, draw) == Shuffled(Ordered(DECK_HIGH), DECK_HIGH - 1, draw)
    {
      var j := draw(i) % (i + 1);
      ghost var before := deck[..];
      deck[i], deck[j] := deck[j], deck[i];
      assert deck[..] == Swapped(before, i, j);
      i := i - 1;
    }
  }

  function DealtHand(draw: nat -> nat, seat: nat): seq<nat>
    requires seat < 2
  {
    Ranked(Shuffled(Ordered(DECK_HIGH), DECK_HIGH - 1, draw)[seat * HAND_SIZE..(seat + 1) * HAND_SIZE])
  }

  /** A fresh match. The same draws always deal the same cards. */
  method NewState(matchId: string, draw: nat -> nat, first: string, second: string) returns (g: Game)
    requires first != second && first != "" && second != ""
    ensures FreshDeal(g) && g.players == [first, second] && g.matchId == matchId
    ensures g.hands == [DealtHand(draw, 0), DealtHand(draw, 1)]
  {
    var deck := Shuffle(draw);
    var hands := [Ranked(deck[0..HAND_SIZE]), Ranked(deck[HAND_SIZE..2 * HAND_SIZE])];
    ghost var d := deck[..];
    assert deck[0..HAND_SIZE] == d[0 * HAND_SIZE..1 * HAND_SIZE];
    assert deck[HAND_SIZE..2 * HAND_SIZE] == d[1 * HAND_SIZE..2 * HAND_SIZE];
    HandsAreDealt(draw);
    g := Game(matchId, 0, [first, second], hands, [0, 0], 0, 1, 0, -1, false, "", 0, map[]);
  }

  ghost function FullDeck(): multiset<nat> {
    multiset(Ordered(DECK_HIGH))
  }

  lemma {:induction false} OrderedHoldsEachOnce(n: nat, c: nat)
    ensures multiset(Ordered(n))[c] == if 1 <= c <= n then 1 else 0
  {
    if n > 0 {
      OrderedHoldsEachOnce(n - 1, c);
      assert Ordered(n) == Ordered(n - 1) + [n];
    }
  }

  lemma FullDeckHoldsEachOnce(c: nat)
    ensures FullDeck()[c] == if 1 <= c <= DECK_HIGH then 1 else 0
  {
    OrderedHoldsEachOnce(DECK_HIGH, c);
  }

  /** For every run of draws: two sorted hands of three, no card in both and none twice, all from 1 to 10. */
  lemma HandsAreDealt(draw: nat -> nat)
    ensures var a, b := DealtHand(draw, 0), DealtHand(draw, 1);
      && |a| == HAND_SIZE && |b| == HAND_SIZE && InOrder(a) && InOrder(b)
      && multiset(a) + multiset(b) <= FullDeck()
      && (forall c :: c in a || c in b ==> 1 <= c <= DECK_HIGH)
      && (forall c :: !(c in a && c in b))
  {
    var d := Shuffled(Ordered(DECK_HIGH), DECK_HIGH - 1, draw);
    ShufflePermutes(Ordered(DECK_HIGH), DECK_HIGH - 1, draw);
    var x, y, z := d[0 * HAND_SIZE..1 * HAND_SIZE], d[1 * HAND_SIZE..2 * HAND_SIZE], d[2 * HAND_SIZE..];
    assert d == x + y + z;
    SortedSorts(x);
    SortedSorts(y);
    var a, b := DealtHand(draw, 0), DealtHand(draw, 1);
    var ma, mb, mz := multiset(a), multiset(b), multiset(z);
    assert ma + mb + mz == FullDeck();
    forall c: nat | c in a || c in b
      ensures 1 <= c <= DECK_HIGH && !(c in a && c in b)
    {
      FullDeckHoldsEachOnce(c);
      assert c in a <==> ma[c] > 0;
      assert c in b <==> mb[c] > 0;
      assert FullDeck()[c] == ma[c] + mb[c] + mz[c];
    }
  }

  /** And every deal comes up: whatever six cards are asked for, in two hands of three, some draws deal exactly those. */
  lemma EveryDealComesUp(order: seq<nat>) returns (draw: nat -> nat)
    requires |order| == DECK_HIGH && multiset(order) == FullDeck()
    ensures multiset(DealtHand(draw, 0)) == multiset(order[..3]) && multiset(DealtHand(draw, 1)) == multiset(order[3..6])
  {
    OrderedIsApart(DECK_HIGH);
    hide Shuffled, Ranked;
    draw := EveryOrderIsDealt(Ordered(DECK_HIGH), DECK_HIGH - 1, order);
    SortedSorts(order[..3]);
    SortedSorts(order[3..6]);
    assert order[0 * HAND_SIZE..1 * HAND_SIZE] == order[..3] && order[1 * HAND_SIZE..2 * HAND_SIZE] == order[3..6];
  }

  lemma OrderedIsApart(n: nat)
    ensures |Ordered(n)| == n && NoRepeats(Ordered(n))
  {
  }
}
