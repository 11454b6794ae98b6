/**
 What a card game is about, said of a submitted move and of whole matches: who may play what, which card takes a
 trick, and who has won.
 */
module CardPlay {
  import opened Wrappers
  import opened CardGame

  /** The key a submission is remembered under: the player's own, never another's. */
  predicate Handled(g: Game, m: Move) {
    m.idemKey != "" && m.playerId + ['\0'] + m.idemKey in g.applied
  }

  /** A move is played exactly when it is its player's turn, means this turn, and is a card of that hand. */
  predicate Playable(g: Game, m: Move)
    requires WellFormed(g)
  {
    && !g.ended && g.players[g.turn] == m.playerId && (g.players[0] == m.playerId ==> g.turn == 0)
    && (m.turnNumber == 0 || m.turnNumber == g.turnNumber)
    && 1 <= m.card <= 10 && m.card in g.hands[g.turn]
  }

  /** What is accepted, what is a handled retry, and that every refusal tells the truth, the first one that holds. */
  lemma MoveIsTakenExactly(g: Game, m: Move)
    requires WellFormed(g)
    ensures var r := ApplyMove(g, m);
      && (r.Ok? && r.value.1 != [] <==> Playable(g, m) && !Handled(g, m))
      && (r == Ok((g, [])) <==> !g.ended && m.playerId in g.players && Handled(g, m))
      && (r == Err(MatchOver) <==> g.ended)
      && (r == Err(UnknownSeat) <==> !g.ended && m.playerId !in g.players)
      && (r == Err(NotYourTurn) ==> m.playerId in g.players && (m.playerId != g.players[g.turn] || m.playerId == g.players[0]))
      && (r == Err(StaleTurn) ==> m.playerId == g.players[g.turn] && m.turnNumber !in {0, g.turnNumber})
      && (r == Err(BadCardValue) ==> m.playerId == g.players[g.turn] && m.turnNumber in {0, g.turnNumber} && !(1 <= m.card <= 10))
      && (r == Err(CardNotHeld) ==>
           m.playerId == g.players[g.turn] && m.turnNumber in {0, g.turnNumber} && 1 <= m.card <= 10 && m.card !in g.hands[g.turn])
  {
    hide Without;
  }

  /** One copy of the card is gone from the hand and the rest is as it was. */
  ghost predicate TakenFrom(before: seq<nat>, card: nat, after: seq<nat>) {
    exists i :: 0 <= i < |before| && before[i] == card && after == before[..i] + before[i + 1..]
  }

  lemma {:induction false} WithoutTakes(hand: seq<nat>, card: nat)
    requires card in hand
    ensures TakenFrom(hand, card, Without(hand, card))
  {
    if hand[0] == card {
      assert hand[..0] + hand[1..] == Without(hand, card);
    } else {
      var tail := hand[1..];
      assert hand == [hand[0]] + tail;
      WithoutTakes(tail, card);
      var i :| 0 <= i < |tail| && tail[i] == card && Without(tail, card) == tail[..i] + tail[i + 1..];
      assert hand[i + 1] == card;
      assert [hand[0]] + (tail[..i] + tail[i + 1..]) == hand[..i + 1] + hand[i + 2..];
    }
  }

  /** What every played move does, whichever card of the trick it is. */
  ghost predicate HandPlayed(g: Game, m: Move, after: Game)
    requires WellFormed(g) && WellFormed(after)
  {
    && TakenFrom(g.hands[g.turn], m.card, after.hands[g.turn]) && after.hands[1 - g.turn] == g.hands[1 - g.turn]
    && after.turnNumber == g.turnNumber + 1
    && (forall k :: k in after.applied.Keys <==> k in g.applied || (m.idemKey != "" && k == m.playerId + ['\0'] + m.idemKey))
    && (forall k :: k in g.applied && k != m.playerId + ['\0'] + m.idemKey ==> after.applied[k] == g.applied[k])
    && (m.idemKey != "" ==> after.applied[m.playerId + ['\0'] + m.idemKey] == after.turnNumber)
    && after.matchId == g.matchId && after.players == g.players && after.seqNo == g.seqNo && after.deadline == g.deadline
  }

  /** The log entry of the card itself. */
  predicate TellsCard(g: Game, m: Move, after: Game, e: Event)
    requires WellFormed(g) && WellFormed(after)
  {
    e == Event(0, if m.auto then Timeout else Played, m.playerId, m.card, |after.hands[g.turn]|, [], "", 0)
  }

  lemma PlayableIsAccepted(g: Game, m: Move)
    requires WellFormed(g) && Playable(g, m) && !Handled(g, m)
    ensures Accepted(g, m) && ApplyMove(g, m) == Ok(Outcome(g, m))
  {
    hide Without, Outcome;
  }

  lemma SpentIsPlayed(g: Game, m: Move)
    requires WellFormed(g) && m.card in g.hands[g.turn]
    ensures WellFormed(Spent(g, m)) && HandPlayed(g, m, Spent(g, m))
  {
    WithoutTakes(g.hands[g.turn], m.card);
    hide Without, TakenFrom;
  }

  lemma OutcomeIsSpent(g: Game, m: Move)
    requires WellFormed(g) && Accepted(g, m)
    ensures var (after, events), s := Outcome(g, m), Spent(g, m);
      && WellFormed(after) && WellFormed(s) && after.hands == s.hands && after.turnNumber == s.turnNumber && after.applied == s.applied
      && after.matchId == s.matchId && after.players == s.players && after.seqNo == s.seqNo && after.deadline == s.deadline
      && events != [] && TellsCard(g, m, after, events[0])
  {
    hide Without, Rejection;
  }

  lemma HandIsPlayed(g: Game, m: Move)
    requires WellFormed(g) && Playable(g, m) && !Handled(g, m)
    ensures ApplyMove(g, m).Ok?
    ensures var (after, events) := ApplyMove(g, m).value;
      WellFormed(after) && HandPlayed(g, m, after) && events != [] && TellsCard(g, m, after, events[0])
  {
    PlayableIsAccepted(g, m);
    SpentIsPlayed(g, m);
    OutcomeIsSpent(g, m);
    hide Outcome, Spent, ApplyMove, Accepted, TakenFrom, TellsCard;
  }

  /** The first card of a trick lies on the table for the other seat to answer, and nothing else changes. */
  lemma FirstCardIsLaid(g: Game, m: Move)
    requires WellFormed(g) && Playable(g, m) && !Handled(g, m) && g.tableOwner < 0
    ensures ApplyMove(g, m).Ok?
    ensures var (after, events) := ApplyMove(g, m).value;
      && WellFormed(after) && HandPlayed(g, m, after)
      && after.tableCard == m.card && after.tableOwner == g.turn && after.turn == 1 - g.turn
      && after.scores == g.scores && !after.ended && after.winner == g.winner
      && |events| == 1 && TellsCard(g, m, after, events[0])
  {
    HandIsPlayed(g, m);
    hide Without, HandPlayed;
  }

  /**
   The second card of a trick. The trick goes to whoever put down the higher card, or led it if they are equal:
   that seat scores one and leads next, and the log names its player and its card. When the hands are empty the
   match is over and won by whoever took more tricks.
   */
  lemma HigherCardTakesTheTrick(g: Game, m: Move)
    requires WellFormed(g) && Playable(g, m) && !Handled(g, m) && g.tableOwner >= 0
    ensures ApplyMove(g, m).Ok?
    ensures var (after, events) := ApplyMove(g, m).value;
      && WellFormed(after) && HandPlayed(g, m, after)
      && (m.card > g.tableCard ==> after.turn == g.turn) && (m.card <= g.tableCard ==> after.turn == g.tableOwner)
      && after.scores[after.turn] == g.scores[after.turn] + 1 && after.scores[1 - after.turn] == g.scores[1 - after.turn]
      && after.tableOwner == -1 && after.tableCard == 0
      && (after.ended <==> after.hands == [[], []])
      && |events| == (if after.ended then 3 else 2) && TellsCard(g, m, after, events[0])
      && events[1].kind == Trick && events[1].playerId == g.players[after.turn]
      && m.card <= events[1].card && g.tableCard <= events[1].card && events[1].card in {m.card, g.tableCard}
      && (if after.ended then
            && (forall s :: 0 <= s < 2 && after.scores[s] > after.scores[1 - s] ==> after.winner == g.players[s])
            && (after.scores[0] == after.scores[1] ==> after.winner == "")
            && events[2].kind == Ended && events[2].winner == after.winner
          else after.winner == g.winner)
  {
    HandIsPlayed(g, m);
    hide Without, HandPlayed;
  }

  // ---- over a whole match ----

  /** The log of any submissions: what each accepted one tells, in order. */
  function Log(g: Game, moves: seq<Move>): seq<Event>
    requires WellFormed(g)
  {
    if moves == [] then []
    else
      Log(g, moves[..|moves| - 1])
      + match ApplyMove(Submitted(g, moves[..|moves| - 1]), moves[|moves| - 1])
        case Err(_) => []
        case Ok(r) => r.1
  }

  function TricksOf(log: seq<Event>, player: string): nat {
    if log == [] then 0
    else TricksOf(log[..|log| - 1], player) + if log[|log| - 1].kind == Trick && log[|log| - 1].playerId == player then 1 else 0
  }

  lemma {:induction false} TricksAdd(a: seq<Event>, b: seq<Event>, player: string)
    ensures TricksOf(a + b, player) == TricksOf(a, player) + TricksOf(b, player)
  {
    if b == [] {
      assert a + b == a;
    } else {
      TricksAdd(a, b[..|b| - 1], player);
      assert (a + b)[..|a + b| - 1] == a + b[..|b| - 1];
    }
  }

  lemma TricksOfFew(log: seq<Event>, player: string)
    requires |log| <= 3 && forall i :: 0 <= i < |log| && i != 1 ==> log[i].kind != Trick
    ensures TricksOf(log, player) == if |log| >= 2 && log[1].kind == Trick && log[1].playerId == player then 1 else 0
  {
    if |log| >= 1 {
      assert log[..|log| - 1][..0] == [];
      if |log| >= 2 {
        assert log[..2][..1] == log[..1] && log[..1][..0] == [];
        assert TricksOf(log[..1], player) == 0;
        assert log[..|log| - 1] == if |log| == 2 then log[..1] else log[..2];
      }
    }
  }

  /** One submission adds to a seat's score exactly what its log adds to that player's tricks. */
  lemma SubmissionScores(g: Game, m: Move, seat: nat)
    requires WellFormed(g) && g.players[0] != g.players[1] && seat < 2
    ensures var r := ApplyMove(g, m);
      r.Ok? ==> WellFormed(r.value.0) && r.value.0.players == g.players
                && r.value.0.scores[seat] == g.scores[seat] + TricksOf(r.value.1, g.players[seat])
  {
    hide ApplyMove, TricksOf, Without;
    MoveIsTakenExactly(g, m);
    var r := ApplyMove(g, m);
    if Playable(g, m) && !Handled(g, m) {
      var events := r.value.1;
      if g.tableOwner < 0 {
        FirstCardIsLaid(g, m);
      } else {
        HigherCardTakesTheTrick(g, m);
      }
      TricksOfFew(events, g.players[seat]);
    } else if r.Ok? {
      assert r == Ok((g, [])) by {
        AcceptedOrHandled(g, m);
      }
      TricksOfFew([], g.players[seat]);
    }
  }

  lemma AcceptedOrHandled(g: Game, m: Move)
    requires WellFormed(g) && ApplyMove(g, m).Ok?
    ensures ApplyMove(g, m).value.1 != [] || ApplyMove(g, m) == Ok((g, []))
  {
  }

  /** The score is the log's: after any submissions a seat has one point for every trick the log gives its player. */
  lemma {:induction false} ScoresAreTricks(g: Game, moves: seq<Move>, seat: nat)
    requires WellFormed(g) && g.players[0] != g.players[1] && seat < 2
    ensures Submitted(g, moves).players == g.players
    ensures Submitted(g, moves).scores[seat] == g.scores[seat] + TricksOf(Log(g, moves), g.players[seat])
  {
    hide ApplyMove;
    if moves != [] {
      var n := |moves| - 1;
      ScoresAreTricks(g, moves[..n], seat);
      SubmissionScores(Submitted(g, moves[..n]), moves[n], seat);
      var r := ApplyMove(Submitted(g, moves[..n]), moves[n]);
      TricksAdd(Log(g, moves[..n]), if r.Ok? then r.value.1 else [], g.players[seat]);
    }
  }

  ghost predicate Reached(g: Game, deal: Game) {
    exists k: nat, gone: multiset<nat>, events: nat :: AfterMoves(g, deal, k, gone, events)
  }

  lemma SubmissionReaches(g: Game, deal: Game, m: Move)
    requires Reached(g, deal) && WellFormed(g)
    ensures ApplyMove(g, m).Ok? ==> Reached(ApplyMove(g, m).value.0, deal)
  {
    hide AfterMoves, Outcome;
    var k: nat, gone: multiset<nat>, events: nat :| AfterMoves(g, deal, k, gone, events);
    if Accepted(g, m) {
      MoveKeeps(g, deal, k, gone, events, m);
    }
  }

  lemma StartIsReached(deal: Game)
    requires FreshDeal(deal)
    ensures Reached(deal, deal)
  {
    FreshIsStart(deal);
    hide AfterMoves;
  }

  lemma {:induction false} SubmissionsReach(deal: Game, moves: seq<Move>)
    requires FreshDeal(deal)
    ensures Reached(Submitted(deal, moves), deal)
  {
    hide AfterMoves, ApplyMove, Reached;
    if moves == [] {
      StartIsReached(deal);
    } else {
      SubmissionsReach(deal, moves[..|moves| - 1]);
      SubmissionReaches(Submitted(deal, moves[..|moves| - 1]), deal, moves[|moves| - 1]);
    }
  }

  /** A finished match has been won by the one player its log gives at least two of the three tricks. */
  lemma WinnerTookMost(deal: Game, moves: seq<Move>)
    requires FreshDeal(deal)
    ensures var g, log := Submitted(deal, moves), Log(deal, moves);
      && TricksOf(log, deal.players[0]) + TricksOf(log, deal.players[1]) <= 3
      && (g.ended <==> TricksOf(log, deal.players[0]) + TricksOf(log, deal.players[1]) == 3)
      && forall s :: 0 <= s < 2 && g.ended ==> (g.winner == deal.players[s] <==> TricksOf(log, deal.players[s]) >= 2)
  {
    hide Submitted, Log, TricksOf;
    SubmissionsReach(deal, moves);
    ScoresAreTricks(deal, moves, 0);
    ScoresAreTricks(deal, moves, 1);
    var g := Submitted(deal, moves);
    var k: nat, gone: multiset<nat>, events: nat :| AfterMoves(g, deal, k, gone, events);
  }

  /** The card a timeout plays is the lowest of the hand whose turn it is, for that turn and no other. */
  lemma TimeoutPlaysTheLowest(g: Game)
    requires WellFormed(g) && g.hands[g.turn] != []
    ensures var m := AutoMove(g);
      && m.auto && m.playerId == g.players[g.turn] && m.turnNumber == g.turnNumber && m.idemKey == ""
      && m.card in g.hands[g.turn] && forall c :: c in g.hands[g.turn] ==> m.card <= c
  {
    LowestIsLeast(g.hands[g.turn]);
  }
}
