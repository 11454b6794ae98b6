/**
 The three-trick card game. `ApplyMove` is the meaning of a submitted move; `Match.Apply` is the code
 that mutates a match in place, proved to do exactly that; the lemmas say what every legal run keeps.
 */
module CardGame {
  import opened Wrappers

  const HAND_SIZE: nat := 3
  const DECK_HIGH: nat := 10

  datatype Kind = Dealt | Played | Trick | Timeout | Ended

  datatype Event = Event(seqNo: nat, kind: Kind, playerId: string, card: nat, handCount: nat, hand: seq<nat>,
                         winner: string, deadline: int)

  datatype Reject = MatchOver | UnknownSeat | NotYourTurn | StaleTurn | BadCardValue | CardNotHeld

  /** Zero as a turn number means the caller has no opinion; an empty key means no retry protection. */
  datatype Move = Move(playerId: string, card: nat, turnNumber: nat, idemKey: string, auto: bool)

  /** `tableOwner` is the seat that led the open trick, or -1 between tricks. */
  datatype Game = Game(
    matchId: string, seqNo: nat, players: seq<string>, hands: seq<seq<nat>>, scores: seq<nat>,
    turn: nat, turnNumber: nat, tableCard: nat, tableOwner: int,
    ended: bool, winner: string, deadline: int, applied: map<string, nat>)

  /** The shape the types give: two seats, and seat numbers that are seat numbers. */
  predicate WellFormed(g: Game) {
    |g.players| == 2 && |g.hands| == 2 && |g.scores| == 2 && g.turn < 2 && -1 <= g.tableOwner < 2
  }

  function Seat(g: Game, playerId: string): int
    requires WellFormed(g)
  {
    if g.players[0] == playerId then 0 else if g.players[1] == playerId then 1 else -1
  }

  function IdemKey(m: Move): string {
    if m.idemKey == "" then "" else m.playerId + ['\0'] + m.idemKey
  }

  /** A hand without the first copy of a card. */
  function Without(hand: seq<nat>, card: nat): seq<nat> {
    if hand == [] then []
    else if hand[0] == card then hand[1..]
    else [hand[0]] + Without(hand[1..], card)
  }

  function Rejection(g: Game, m: Move): Option<Reject>
    requires WellFormed(g)
  {
    var seat := Seat(g, m.playerId);
    if g.ended then Some(MatchOver)
    else if seat < 0 then Some(UnknownSeat)
    else if Replayed(g, m) then None
    else if seat != g.turn then Some(NotYourTurn)
    else if m.turnNumber != 0 && m.turnNumber != g.turnNumber then Some(StaleTurn)
    else if m.card == 0 || m.card > DECK_HIGH then Some(BadCardValue)
    else if m.card !in g.hands[seat] then Some(CardNotHeld)
    else None
  }

  /** A retry of a submission this match has already handled. */
  predicate Replayed(g: Game, m: Move) {
    IdemKey(m) != "" && IdemKey(m) in g.applied
  }

  predicate Accepted(g: Game, m: Move)
    requires WellFormed(g)
  {
    !g.ended && Rejection(g, m).None? && !Replayed(g, m)
  }

  function Blank(kind: Kind, playerId: string): Event {
    Event(0, kind, playerId, 0, 0, [], "", 0)
  }

  function Leader(g: Game): string
    requires WellFormed(g)
  {
    if g.scores[0] > g.scores[1] then g.players[0] else if g.scores[1] > g.scores[0] then g.players[1] else ""
  }

  /** The card leaves the hand, the turn counter moves and the submission is remembered. */
  function Spent(g: Game, m: Move): Game
    requires WellFormed(g)
  {
    g.(hands := g.hands[g.turn := Without(g.hands[g.turn], m.card)], turnNumber := g.turnNumber + 1,
       applied := if IdemKey(m) == "" then g.applied else g.applied[IdemKey(m) := g.turnNumber + 1])
  }

  function PlayedEvent(g: Game, m: Move): Event
    requires WellFormed(g)
  {
    Blank(if m.auto then Timeout else Played, m.playerId)
    .(card := m.card, handCount := |Without(g.hands[g.turn], m.card)|)
  }

  /** Who takes the trick the move completes, and the table cleared for the winner to lead. */
  function TrickWinner(g: Game, m: Move): int {
    if m.card > g.tableCard then g.turn else g.tableOwner
  }

  function Won(g: Game, m: Move): Game
    requires WellFormed(g) && g.tableOwner >= 0
  {
    var w := TrickWinner(g, m);
    Spent(g, m).(scores := g.scores[w := g.scores[w] + 1], tableCard := 0, tableOwner := -1, turn := w)
  }

  function TrickEvent(g: Game, m: Move): Event
    requires WellFormed(g) && g.tableOwner >= 0
  {
    Blank(Trick, g.players[TrickWinner(g, m)]).(card := if m.card > g.tableCard then m.card else g.tableCard)
  }

  /** The state and events an accepted move produces. */
  function Outcome(g: Game, m: Move): (r: (Game, seq<Event>))
    requires WellFormed(g) && Accepted(g, m)
    ensures WellFormed(r.0)
  {
    if g.tableOwner < 0 then
      (Spent(g, m).(tableCard := m.card, tableOwner := g.turn, turn := 1 - g.turn), [PlayedEvent(g, m)])
    else
      var won := Won(g, m);
      if won.hands[0] == [] && won.hands[1] == [] then
        (won.(ended := true, winner := Leader(won)),
         [PlayedEvent(g, m), TrickEvent(g, m), Blank(Ended, "").(winner := Leader(won))])
      else
        (won, [PlayedEvent(g, m), TrickEvent(g, m)])
  }

  /** No events and no change is how a handled retry answers. */
  function ApplyMove(g: Game, m: Move): Result<(Game, seq<Event>), Reject>
    requires WellFormed(g)
  {
    match Rejection(g, m)
    case Some(e) => Err(e)
    case None => if Replayed(g, m) then Ok((g, [])) else Ok(Outcome(g, m))
  }

  lemma WithoutSteps(hand: seq<nat>, i: nat, card: nat)
    requires i < |hand|
    ensures hand[i..] == [hand[i]] + hand[i + 1..]
    ensures Without(hand[i..], card) == if hand[i] == card then hand[i + 1..] else [hand[i]] + Without(hand[i + 1..], card)
  {
    assert hand[i..][1..] == hand[i + 1..];
  }

  method RemoveCard(hand: seq<nat>, card: nat) returns (out: seq<nat>)
    ensures out == Without(hand, card)
  {
    NothingWithout(hand, card);
    hide Without;
    out := [];
    var dropped := false;
    var i := 0;
    while i < |hand|
      invariant 0 <= i <= |hand|
      invariant dropped ==> Without(hand, card) == out + hand[i..]
      invariant !dropped ==> Without(hand, card) == out + Without(hand[i..], card)
    {
      WithoutSteps(hand, i, card);
      if !dropped && hand[i] == card {
        dropped := true;
      } else {
        Regroup(out, hand[i], hand[i + 1..]);
        Regroup(out, hand[i], Without(hand[i + 1..], card));
        out := out + [hand[i]];
      }
      i := i + 1;
    }
  }

  lemma Regroup(a: seq<nat>, c: nat, b: seq<nat>)
    ensures a + ([c] + b) == a + [c] + b
  {
  }

  lemma NothingWithout(hand: seq<nat>, card: nat)
    ensures hand[0..] == hand && hand[|hand|..] == [] && Without([], card) == []
  {
  }

  method LowestCard(hand: seq<nat>) returns (low: nat)
    ensures low == Lowest(hand)
  {
    if hand == [] {
      return 0;
    }
    low := hand[0];
    var i := 0;
    while i < |hand|
      invariant 0 <= i <= |hand| && low in hand
      invariant forall j :: 0 <= j < i ==> low <= hand[j]
    {
      if hand[i] < low {
        low := hand[i];
      }
      i := i + 1;
    }
    LowestUnique(hand, low);
  }

  function Lowest(hand: seq<nat>): nat {
    if hand == [] then 0
    else if |hand| == 1 || hand[0] <= Lowest(hand[1..]) then hand[0]
    else Lowest(hand[1..])
  }

  lemma {:induction false} LowestIsLeast(hand: seq<nat>)
    requires hand != []
    ensures Lowest(hand) in hand && forall c :: c in hand ==> Lowest(hand) <= c
  {
    assert hand == [hand[0]] + hand[1..];
    if |hand| > 1 {
      LowestIsLeast(hand[1..]);
    }
  }

  lemma LowestUnique(hand: seq<nat>, low: nat)
    requires low in hand && forall j :: 0 <= j < |hand| ==> low <= hand[j]
    ensures low == Lowest(hand)
  {
    LowestIsLeast(hand);
  }

  /** A match as the server mutates it, field by field. */
  class Match {
    var g: Game

    /** A deep copy: trying a move on it leaves the stored match alone. */
    constructor Clone(stored: Game)
      ensures g == stored
    {
      g := stored;
    }

    method Apply(m: Move) returns (r: Result<seq<Event>, Reject>)
      requires WellFormed(g)
      modifies this
      ensures match ApplyMove(old(g), m)
              case Err(e) => r == Err(e) && g == old(g)
              case Ok((after, events)) => r == Ok(events) && g == after
    {
      if g.ended {
        return Err(MatchOver);
      }
      var seat := if g.players[0] == m.playerId then 0 else if g.players[1] == m.playerId then 1 else -1;
      if seat < 0 {
        return Err(UnknownSeat);
      }
      var key := IdemKey(m);
      if key != "" && key in g.applied {
        return Ok([]);
      }
      if seat != g.turn {
        return Err(NotYourTurn);
      }
      if m.turnNumber != 0 && m.turnNumber != g.turnNumber {
        return Err(StaleTurn);
      }
      if m.card == 0 || m.card > DECK_HIGH {
        return Err(BadCardValue);
      }
      if m.card !in g.hands[seat] {
        return Err(CardNotHeld);
      }
      var events := Resolve(m);
      r := Ok(events);
    }

    /** The mutation itself, past every check. */
    method Resolve(m: Move) returns (events: seq<Event>)
      requires WellFormed(g) && Accepted(g, m)
      modifies this
      ensures (g, events) == Outcome(old(g), m)
    {
      hide Without, IdemKey;
      var seat, key := g.turn, IdemKey(m);
      var hand := RemoveCard(g.hands[seat], m.card);
      g := g.(hands := g.hands[seat := hand]);
      g := g.(turnNumber := g.turnNumber + 1);
      if key != "" {
        g := g.(applied := g.applied[key := g.turnNumber]);
      }
      assert g == Spent(old(g), m);
      events := [Blank(if m.auto then Timeout else Played, m.playerId).(card := m.card, handCount := |hand|)];
      if g.tableOwner < 0 {
        g := g.(tableCard := m.card, tableOwner := seat, turn := 1 - seat);
        return;
      }
      var more := TakeTrick(m, seat, old(g));
      events := events + more;
    }

    /** The second card of a trick is down: the better card takes it, and the last trick ends the match. */
    method TakeTrick(m: Move, seat: int, ghost was: Game) returns (events: seq<Event>)
      requires WellFormed(was) && Accepted(was, m) && was.tableOwner >= 0
      requires g == Spent(was, m) && seat == was.turn
      modifies this
      ensures (g, [PlayedEvent(was, m)] + events) == Outcome(was, m)
    {
      hide Without, IdemKey;
      var best := g.tableOwner;
      if m.card > g.tableCard {
        best := seat;
      }
      g := g.(scores := g.scores[best := g.scores[best] + 1]);
      events := [Blank(Trick, g.players[best]).(card := if m.card > g.tableCard then m.card else g.tableCard)];
      g := g.(tableCard := 0, tableOwner := -1, turn := best);
      assert g == Won(was, m) && events == [TrickEvent(was, m)];
      assert |g.hands| == 2 && |g.scores| == 2 && |g.players| == 2;
      hide Spent, Won, PlayedEvent, TrickEvent;
      if g.hands[0] == [] && g.hands[1] == [] {
        g := g.(ended := true);
        g := g.(winner := if g.scores[0] > g.scores[1] then g.players[0] else if g.scores[1] > g.scores[0] then g.players[1] else "");
        events := events + [Blank(Ended, "").(winner := g.winner)];
      }
      assert [PlayedEvent(was, m)] + events == Outcome(was, m).1;
    }
  }

  // ---- what every legal run keeps ----

  /** Sum of the two scores, and cards in the two hands. */
  function Tricks(g: Game): nat
    requires WellFormed(g)
  {
    g.scores[0] + g.scores[1]
  }

  function CardsHeld(g: Game): nat
    requires WellFormed(g)
  {
    |g.hands[0]| + |g.hands[1]|
  }

  /** Everything visible or held: both hands and the table. */
  ghost function CardsInPlay(g: Game): multiset<nat>
    requires WellFormed(g)
  {
    multiset(g.hands[0]) + multiset(g.hands[1]) + if g.tableOwner >= 0 then multiset{g.tableCard} else multiset{}
  }

  ghost predicate FreshDeal(g: Game) {
    && WellFormed(g) && g.players[0] != g.players[1] && g.players[0] != "" && g.players[1] != ""
    && |g.hands[0]| == HAND_SIZE && |g.hands[1]| == HAND_SIZE
    && (forall c :: c in g.hands[0] || c in g.hands[1] ==> 1 <= c <= DECK_HIGH)
    && g.scores == [0, 0] && g.turn == 0 && g.turnNumber == 1 && g.tableOwner == -1 && !g.ended && g.winner == ""
    && g.applied == map[]
  }

  /**
   What a match looks like after `k` accepted moves from a fresh deal. `gone` is the cards of the
   resolved tricks and `events` how many log entries there are, the two opening ones included.
   */
  ghost predicate AfterMoves(g: Game, deal: Game, k: nat, gone: multiset<nat>, events: nat) {
    && WellFormed(g) && WellFormed(deal) && g.players == deal.players && g.players[0] != g.players[1]
    && g.players[0] != "" && g.players[1] != ""
    && Conserved(g, deal, gone)
    && Counted(g, k, gone)
    && (g.ended <==> k == 6)
    && (g.winner != "" <==> g.ended) && (g.ended ==> g.winner == Leader(g) && g.scores[0] != g.scores[1])
    && events == 2 + k + k / 2 + (if g.ended then 1 else 0)
  }

  ghost predicate Conserved(g: Game, deal: Game, gone: multiset<nat>)
    requires WellFormed(g) && WellFormed(deal)
  {
    && CardsInPlay(g) + gone == multiset(deal.hands[0]) + multiset(deal.hands[1])
    && forall c :: c in g.hands[0] || c in g.hands[1] ==> 1 <= c <= DECK_HIGH
  }

  ghost predicate Counted(g: Game, k: nat, gone: multiset<nat>)
    requires WellFormed(g)
  {
    && k <= 6 && g.turnNumber == k + 1
    && CardsHeld(g) == 6 - k && Tricks(g) == k / 2 && |gone| == 2 * Tricks(g)
    && (g.tableOwner >= 0 <==> k % 2 == 1)
    && (if k % 2 == 1 then g.tableOwner == 1 - g.turn && |g.hands[g.turn]| == |g.hands[1 - g.turn]| + 1
        else |g.hands[0]| == |g.hands[1]|)
  }

  lemma {:induction false} WithoutRemovesOne(hand: seq<nat>, card: nat)
    requires card in hand
    ensures multiset(Without(hand, card)) + multiset{card} == multiset(hand)
    ensures |Without(hand, card)| == |hand| - 1
    ensures forall c :: c in Without(hand, card) ==> c in hand
  {
    assert hand == [hand[0]] + hand[1..];
    if hand[0] != card {
      WithoutRemovesOne(hand[1..], card);
    }
  }

  lemma FreshIsStart(deal: Game)
    requires FreshDeal(deal)
    ensures AfterMoves(deal, deal, 0, multiset{}, 2)
  {
  }

  ghost function GoneAfter(g: Game, gone: multiset<nat>, m: Move): multiset<nat> {
    if g.tableOwner >= 0 then gone + multiset{g.tableCard, m.card} else gone
  }

  lemma CardsAfterMove(g: Game, m: Move)
    requires WellFormed(g) && Accepted(g, m)
    ensures CardsInPlay(Outcome(g, m).0) + (if g.tableOwner >= 0 then multiset{g.tableCard, m.card} else multiset{}) == CardsInPlay(g)
  {
    var hand, other := g.hands[g.turn], g.hands[1 - g.turn];
    WithoutRemovesOne(hand, m.card);
    var rest := Without(hand, m.card);
    hide Without;
    var g' := Outcome(g, m).0;
    assert g'.hands == g.hands[g.turn := rest];
    assert multiset(g'.hands[0]) + multiset(g'.hands[1]) == multiset(rest) + multiset(other);
    assert multiset(g.hands[0]) + multiset(g.hands[1]) == multiset(hand) + multiset(other);
    assert CardsInPlay(g') == multiset(rest) + multiset(other) + if g.tableOwner >= 0 then multiset{} else multiset{m.card};
    assert CardsInPlay(g) == multiset(hand) + multiset(other) + if g.tableOwner >= 0 then multiset{g.tableCard} else multiset{};
  }

  lemma MoveConserves(g: Game, deal: Game, gone: multiset<nat>, m: Move)
    requires WellFormed(g) && WellFormed(deal) && Conserved(g, deal, gone) && Accepted(g, m)
    ensures Conserved(Outcome(g, m).0, deal, GoneAfter(g, gone, m))
  {
    hide Without, CardsInPlay, Outcome, Accepted;
    CardsAfterMove(g, m);
    HandsAfterMove(g, m);
    var g' := Outcome(g, m).0;
    var spent := if g.tableOwner >= 0 then multiset{g.tableCard, m.card} else multiset{};
    Shifted(CardsInPlay(g'), spent, gone);
    assert GoneAfter(g, gone, m) == gone + spent;
  }

  lemma Shifted(a: multiset<nat>, x: multiset<nat>, gone: multiset<nat>)
    ensures a + (gone + x) == a + x + gone && gone + multiset{} == gone
  {
  }

  lemma HandsAfterMove(g: Game, m: Move)
    requires WellFormed(g) && Accepted(g, m)
    ensures var h := Outcome(g, m).0.hands; forall c :: c in h[0] || c in h[1] ==> c in g.hands[0] || c in g.hands[1]
  {
    WithoutRemovesOne(g.hands[g.turn], m.card);
    hide Without;
    assert Outcome(g, m).0.hands == g.hands[g.turn := Without(g.hands[g.turn], m.card)];
  }

  lemma MoveCounts(g: Game, k: nat, gone: multiset<nat>, m: Move)
    requires WellFormed(g) && Counted(g, k, gone) && Accepted(g, m) && k < 6
    ensures Counted(Outcome(g, m).0, k + 1, GoneAfter(g, gone, m))
    ensures Outcome(g, m).0.ended <==> k == 5
  {
    WithoutRemovesOne(g.hands[g.turn], m.card);
    var g' := Outcome(g, m).0;
    assert g'.hands[g.turn] == Without(g.hands[g.turn], m.card) && g'.hands[1 - g.turn] == g.hands[1 - g.turn];
  }

  /**
   One accepted move: cards are conserved across hands, table and resolved tricks, the scores count the
   tricks, and the sixth move and no other ends the match with a winner. The draw is unreachable.
   */
  lemma MoveKeeps(g: Game, deal: Game, k: nat, gone: multiset<nat>, events: nat, m: Move)
    requires AfterMoves(g, deal, k, gone, events) && Accepted(g, m)
    ensures AfterMoves(Outcome(g, m).0, deal, k + 1, GoneAfter(g, gone, m), events + |Outcome(g, m).1|)
  {
    MoveConserves(g, deal, gone, m);
    MoveCounts(g, k, gone, m);
    hide Conserved;
    var g' := Outcome(g, m).0;
    if k == 5 {
      assert g'.scores[0] + g'.scores[1] == 3;
    }
  }

  /** The expired turn played out: the lowest card of the seat to move, pinned to its turn. */
  function AutoMove(g: Game): Move
    requires WellFormed(g)
  {
    Move(g.players[g.turn], Lowest(g.hands[g.turn]), g.turnNumber, "", true)
  }

  /** In every reachable unfinished match the timeout's move is legal. */
  lemma AutoMoveIsLegal(g: Game, deal: Game, k: nat, gone: multiset<nat>, events: nat)
    requires AfterMoves(g, deal, k, gone, events) && !g.ended
    ensures Accepted(g, AutoMove(g)) && ApplyMove(g, AutoMove(g)) == Ok(Outcome(g, AutoMove(g)))
  {
    var hand := g.hands[g.turn];
    assert hand != [];
    LowestIsLeast(hand);
  }

  ghost function AutoPlay(g: Game, times: nat): Option<Game>
    requires WellFormed(g)
    decreases times
  {
    if times == 0 then Some(g)
    else if !Accepted(g, AutoMove(g)) then None
    else AutoPlay(Outcome(g, AutoMove(g)).0, times - 1)
  }

  lemma SixMovesEndIt(g: Game, deal: Game, k: nat, gone: multiset<nat>, events: nat)
    requires AfterMoves(g, deal, k, gone, events)
    ensures WellFormed(g) && (g.ended <==> k == 6)
  {
  }

  /** Left to the timeouts alone, a match with `k` moves played ends on the `6 - k`th and not before. */
  lemma {:induction false} TimeoutsEndTheMatch(g: Game, deal: Game, k: nat, gone: multiset<nat>, events: nat, n: nat)
    requires AfterMoves(g, deal, k, gone, events) && n <= 6 - k
    ensures AutoPlay(g, n).Some? && (AutoPlay(g, n).value.ended <==> n == 6 - k)
    decreases n
  {
    SixMovesEndIt(g, deal, k, gone, events);
    if n > 0 {
      hide AfterMoves, Outcome, Accepted, AutoMove, GoneAfter;
      AutoMoveIsLegal(g, deal, k, gone, events);
      MoveKeeps(g, deal, k, gone, events, AutoMove(g));
      var (g', evs) := Outcome(g, AutoMove(g));
      TimeoutsEndTheMatch(g', deal, k + 1, GoneAfter(g, gone, AutoMove(g)), events + |evs|, n - 1);
    }
  }

  /** A match after any submissions, accepted or not. */
  function Submitted(g: Game, moves: seq<Move>): (r: Game)
    requires WellFormed(g)
    ensures WellFormed(r)
  {
    if moves == [] then g
    else
      var before := Submitted(g, moves[..|moves| - 1]);
      match ApplyMove(before, moves[|moves| - 1])
      case Err(_) => before
      case Ok(r) => r.0
  }

  /** No submission changes who plays or forgets a key, and one that is accepted is remembered under its key. */
  lemma SubmissionKeeps(g: Game, m: Move)
    requires WellFormed(g)
    ensures var r := ApplyMove(g, m);
      r.Ok? ==> r.value.0.players == g.players && g.applied.Keys <= r.value.0.applied.Keys
    ensures Accepted(g, m) && m.idemKey != "" ==> IdemKey(m) in ApplyMove(g, m).value.0.applied
  {
    hide Without;
  }

  lemma {:induction false} KeysLast(g: Game, moves: seq<Move>, i: nat)
    requires WellFormed(g) && i < |moves| && Accepted(Submitted(g, moves[..i]), moves[i]) && moves[i].idemKey != ""
    ensures IdemKey(moves[i]) in Submitted(g, moves).applied && Seat(Submitted(g, moves), moves[i].playerId) >= 0
  {
    hide ApplyMove, Accepted;
    var n := |moves| - 1;
    SubmissionKeeps(Submitted(g, moves[..n]), moves[n]);
    if i < n {
      assert moves[..n][..i] == moves[..i];
      KeysLast(g, moves[..n], i);
    } else {
      AcceptedIsSeated(Submitted(g, moves[..n]), moves[n]);
    }
  }

  lemma AcceptedIsSeated(g: Game, m: Move)
    requires WellFormed(g) && Accepted(g, m)
    ensures Seat(g, m.playerId) >= 0 && ApplyMove(g, m).Ok? && ApplyMove(g, m).value.0.players == g.players
  {
    hide Without;
  }

  /**
   Once a move under a key has landed, sending it again changes nothing and logs nothing, after any further
   submissions; only the end of the match is reported before the retry is recognised.
   */
  lemma RetryChangesNothing(g: Game, moves: seq<Move>, i: nat, again: Move)
    requires WellFormed(g) && i < |moves| && Accepted(Submitted(g, moves[..i]), moves[i]) && moves[i].idemKey != ""
    requires again.playerId == moves[i].playerId && again.idemKey == moves[i].idemKey
    ensures var later := Submitted(g, moves);
      ApplyMove(later, again) == if later.ended then Err(MatchOver) else Ok((later, []))
  {
    KeysLast(g, moves, i);
    hide Submitted;
    assert IdemKey(again) == IdemKey(moves[i]);
  }

  // ---- scoping a client's key to its player ----

  /**
   Two players' keys can name the same submission exactly when one player's id continues the other's
   past a NUL. For ids without a NUL the scoping is exact.
   */
  lemma KeysCollideExactly(p: string, q: string)
    requires p != q
    ensures (exists k: string, l: string :: k != "" && l != "" && p + ['\0'] + k == q + ['\0'] + l)
       <==> p + ['\0'] <= q || q + ['\0'] <= p
  {
    if exists k: string, l: string :: k != "" && l != "" && p + ['\0'] + k == q + ['\0'] + l {
      var k: string, l: string :| k != "" && l != "" && p + ['\0'] + k == q + ['\0'] + l;
      CollisionMeansPrefix(p, q, k, l);
    }
    if p + ['\0'] <= q {
      PrefixMeansCollision(p, q);
    }
    if q + ['\0'] <= p {
      PrefixMeansCollision(q, p);
      var k: string, l: string :| k != "" && l != "" && q + ['\0'] + k == p + ['\0'] + l;
      assert p + ['\0'] + l == q + ['\0'] + k;
    }
  }

  /** Two such players, and the submissions that are taken for one. */
  lemma KeysCollide()
    ensures var m, n := Move("a", 1, 0, "b\0c", false), Move("a\0b", 1, 0, "c", false);
      m.playerId != n.playerId && IdemKey(m) == IdemKey(n)
  {
    assert IdemKey(Move("a", 1, 0, "b\0c", false)) == "a\0b\0c" == IdemKey(Move("a\0b", 1, 0, "c", false));
  }

  lemma CollisionMeansPrefix(p: string, q: string, k: string, l: string)
    requires p != q && p + ['\0'] + k == q + ['\0'] + l
    ensures p + ['\0'] <= q || q + ['\0'] <= p
  {
    var whole := p + ['\0'] + k;
    assert whole[..|p|] == p && whole[..|q|] == q && whole[|p|] == '\0' && whole[|q|] == '\0';
    if |p| < |q| {
      assert q[..|p|] == p && q[|p|] == '\0';
      assert q[..|p| + 1] == p + ['\0'];
    } else if |q| < |p| {
      assert p[..|q|] == q && p[|q|] == '\0';
      assert p[..|q| + 1] == q + ['\0'];
    }
  }

  lemma PrefixMeansCollision(p: string, q: string)
    requires p + ['\0'] <= q
    ensures exists k: string, l: string :: k != "" && l != "" && p + ['\0'] + k == q + ['\0'] + l
  {
    var l := "x";
    var k := q[|p| + 1..] + ['\0'] + l;
    assert q == p + ['\0'] + q[|p| + 1..];
    assert p + ['\0'] + k == q + ['\0'] + l;
  }
}
