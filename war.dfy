/** The game object: the deck it was built from and the two players'
    queues, index 0 the player's and index 1 the computer's. Each method is
    proved to leave the queues holding what the corresponding function of
    `Rules` computes from the hands it started with. */
module War {
  import opened Cards
  import opened Rules
  import Queue

  class War {
    var deck: seq<Card>
    var queues: seq<Queue.Queue<Card>>

    /** Two distinct queues, owned by the player and by the computer. */
    ghost predicate Valid()
      reads this, queues
    {
      && |queues| == 2
      && queues[PLAYER] != queues[COMPUTER]
      && queues[PLAYER].owner == "player"
      && queues[COMPUTER].owner == "computer"
    }

    /** The two hands as the queues hold them, front first. */
    ghost function Held(): Hands
      reads this, queues
      requires |queues| == 2
    {
      Hands(queues[PLAYER].Contents(), queues[COMPUTER].Contents())
    }

    /** Builds a game from a deck shuffled by the caller and deals it. */
    constructor (shuffled: seq<Card>)
      requires IsShuffledDeck(shuffled)
      ensures Valid() && fresh(queues[PLAYER]) && fresh(queues[COMPUTER])
      ensures deck == [] && Held() == Deal(shuffled)
      ensures |Held().player| == 26 && |Held().computer| == 26
      ensures Held().Cards() == multiset(shuffled)
    {
      deck := shuffled;
      new;
      queues := DealCards();
      DealShuffledDeck(shuffled);
    }

    /** Pops two cards at a time off the end of the deck, the first to the
        player and the second to the computer, for half the deck's length. */
    method DealCards() returns (qs: seq<Queue.Queue<Card>>)
      modifies this`deck
      ensures |qs| == 2 && fresh(qs[PLAYER]) && fresh(qs[COMPUTER]) && qs[PLAYER] != qs[COMPUTER]
      ensures qs[PLAYER].owner == "player" && qs[COMPUTER].owner == "computer"
      ensures Hands(qs[PLAYER].Contents(), qs[COMPUTER].Contents()) == Deal(old(deck))
      ensures deck == KeptBack(old(deck))
    {
      ghost var d0 := deck;
      ghost var dealt := Deal(d0);
      var player := new Queue.Queue<Card>("player");
      var computer := new Queue.Queue<Card>("computer");
      for i := 0 to |deck| / 2
        invariant deck == d0[..|d0| - 2 * i]
        invariant player.Contents() == dealt.player[..i]
        invariant computer.Contents() == dealt.computer[..i]
      {
        DealNext(d0, i);
        var card := PopDeck();
        player.Enqueue(card);
        card := PopDeck();
        computer.Enqueue(card);
      }
      DealAll(d0);
      qs := [player, computer];
    }

    /** Removes and returns the last card of the deck. */
    method PopDeck() returns (card: Card)
      requires deck != []
      modifies this`deck
      ensures card == old(deck)[|old(deck)| - 1] && deck == old(deck)[..|old(deck)| - 1]
    {
      card := deck[|deck| - 1];
      deck := deck[..|deck| - 1];
    }

    /** Dequeues the front card of the player's queue, then of the computer's. */
    method GetTopCards() returns (playerCard: Card, computerCard: Card)
      requires Valid() && Held().player != [] && Held().computer != []
      modifies queues
      ensures Valid()
      ensures playerCard == old(Held()).player[0] && computerCard == old(Held()).computer[0]
      ensures Held() == Drop(old(Held()), 1)
    {
      playerCard := queues[PLAYER].Dequeue();
      computerCard := queues[COMPUTER].Dequeue();
    }

    /** Both players turn up their front card; the pair is the pot and is
        compared. */
    method PlayRound() returns (outcome: Outcome, pot: seq<Card>)
      requires Valid() && Held().player != [] && Held().computer != []
      modifies queues
      ensures Valid()
      ensures Resolution(outcome, Held(), pot) == Rules.PlayRound(old(Held()))
    {
      ghost var h := Held();
      var playerCard, computerCard := GetTopCards();
      var cardPot := [playerCard, computerCard];
      assert cardPot == Pairs(h, 1) by {
        PairsSnoc(h, 0);
      }
      outcome, pot := CompareCards(cardPot, computerCard, playerCard);
    }

    /** A player with fewer than three cards loses the game (the player is
        checked first); otherwise each player adds two face-down cards and a
        third, face-up, card to the pot and the face-up cards are compared. */
    method WarRound(pot: seq<Card>) returns (outcome: Outcome, finalPot: seq<Card>)
      requires Valid()
      modifies queues
      ensures Valid()
      ensures Resolution(outcome, Held(), finalPot) == Rules.WarRound(old(Held()), pot)
      decreases Held().Total(), 0
    {
      ghost var h := Held();
      var cardPot := pot;
      if queues[PLAYER].Size() < 3 {
        return GameOver(PLAYER), cardPot;
      } else if queues[COMPUTER].Size() < 3 {
        return GameOver(COMPUTER), cardPot;
      }
      var c := 0;
      while c < 2
        invariant 0 <= c <= 2
        invariant Valid()
        invariant Held() == Drop(h, c)
        invariant cardPot == pot + Pairs(h, c)
      {
        PairsSnoc(h, c);
        AppendAssoc(pot, Pairs(h, c), [h.player[c], h.computer[c]]);
        c := c + 1;
        var playerCard, computerCard := GetTopCards();
        cardPot := cardPot + [playerCard, computerCard];
      }
      var playerCard, computerCard := GetTopCards();
      PairsSnoc(h, 2);
      AppendAssoc(pot, Pairs(h, 2), [h.player[2], h.computer[2]]);
      cardPot := cardPot + [playerCard, computerCard];
      outcome, finalPot := CompareCards(cardPot, computerCard, playerCard);
    }

    /** Equal ranks start a war; otherwise the higher rank takes the pot. */
    method CompareCards(cardPot: seq<Card>, computerCard: Card, playerCard: Card) returns (outcome: Outcome, finalPot: seq<Card>)
      requires Valid()
      modifies queues
      ensures Valid()
      ensures Resolution(outcome, Held(), finalPot) == Rules.CompareCards(old(Held()), cardPot, computerCard, playerCard)
      decreases Held().Total(), 1
    {
      if playerCard.rank == computerCard.rank {
        outcome, finalPot := WarRound(cardPot);
      } else if playerCard.rank.Greater(computerCard.rank) {
        AddCards(cardPot, PLAYER);
        outcome, finalPot := RoundWon(PLAYER), cardPot;
      } else {
        AddCards(cardPot, COMPUTER);
        outcome, finalPot := RoundWon(COMPUTER), cardPot;
      }
    }

    /** Enqueues the pot, in order, at the back of the winner's queue. */
    method AddCards(pot: seq<Card>, winner: Seat)
      requires Valid()
      modifies queues
      ensures Valid()
      ensures Held() == Rules.AddCards(old(Held()), pot, winner)
    {
      ghost var h := Held();
      var q := queues[winner];
      for i := 0 to |pot|
        invariant Valid()
        invariant q.Contents() == h.Of(winner) + pot[..i]
        invariant Held().Of(1 - winner) == h.Of(1 - winner)
      {
        q.Enqueue(pot[i]);
        assert pot[..i + 1] == pot[..i] + [pot[i]];
        AppendAssoc(h.Of(winner), pot[..i], [pot[i]]);
      }
      assert pot[..|pot|] == pot;
      SameHands(Held(), Rules.AddCards(h, pot, winner));
    }

    /** Whether either queue is empty, the player's being checked first, and
        whose it is. */
    method EmptyQueue() returns (empty: bool, loser: Seat)
      requires Valid()
      ensures empty <==> Held().player == [] || Held().computer == []
      ensures empty ==> (loser == PLAYER <==> Held().player == [])
    {
      if queues[PLAYER].IsEmpty() {
        return true, PLAYER;
      } else if queues[COMPUTER].IsEmpty() {
        return true, COMPUTER;
      }
      return false, PLAYER;
    }

    /** Plays rounds until a queue is empty or a player cannot go to war,
        for at most `fuel` rounds. */
    method SimulateGame(fuel: nat) returns (end: GameEnd)
      requires Valid()
      modifies queues
      ensures Valid()
      ensures Finish(end, Held()) == Simulate(old(Held()), fuel)
    {
      var left := fuel;
      while true
        invariant Valid()
        invariant Simulate(Held(), left) == Simulate(old(Held()), fuel)
        decreases left
      {
        var empty, loser := EmptyQueue();
        if empty {
          return OutOfCards(loser);
        }
        if left == 0 {
          return FuelSpent;
        }
        var outcome, pot := PlayRound();
        if outcome.GameOver? {
          return NoCardsForWar(outcome.loser);
        }
        left := left - 1;
      }
    }
  }
}
