/** The rules of the round engine as functions on the two hands, each read
    front first. The methods of class `War.War` are proved to compute them. */
module Rules {
  import opened Cards

  /** Index of a player's queue: 0 is the player, 1 the computer. */
  type Seat = i: int | 0 <= i < 2

  const PLAYER: Seat := 0
  const COMPUTER: Seat := 1

  /** The two hands, front first. */
  datatype Hands = Hands(player: seq<Card>, computer: seq<Card>)
  {
    function Of(seat: Seat): seq<Card> {
      if seat == PLAYER then player else computer
    }

    function Total(): nat {
      |player| + |computer|
    }

    /** All cards held by either player. */
    function Cards(): multiset<Card> {
      multiset(player) + multiset(computer)
    }
  }

  /** What comparing two face-up cards decides. */
  datatype Verdict = Tie | Takes(winner: Seat)

  /** How a round ends: someone wins the pot, or a player cannot go to war
      and loses the whole game. */
  datatype Outcome = RoundWon(winner: Seat) | GameOver(loser: Seat)

  /** The outcome, the hands afterwards and the pot as it last stood (won by
      the winner, or still on the table when the game is over). */
  datatype Resolution = Resolution(outcome: Outcome, hands: Hands, pot: seq<Card>)

  /** How a game ends. */
  datatype GameEnd = OutOfCards(loser: Seat) | NoCardsForWar(loser: Seat) | FuelSpent

  datatype Finish = Finish(end: GameEnd, hands: Hands)

  /** Hands are equal when both players' hands are. */
  lemma SameHands(a: Hands, b: Hands)
    requires a.Of(PLAYER) == b.Of(PLAYER) && a.Of(COMPUTER) == b.Of(COMPUTER)
    ensures a == b
  {
  }

  /** Both players remove their first n cards. */
  function Drop(h: Hands, n: nat): Hands
    requires n <= |h.player| && n <= |h.computer|
  {
    Hands(h.player[n..], h.computer[n..])
  }

  /** Equal ranks go to war, a higher player rank gives the round to the
      player and anything else to the computer. */
  function Judge(computerCard: Card, playerCard: Card): (v: Verdict)
    ensures v == Tie <==> playerCard.rank == computerCard.rank
    ensures v == Takes(PLAYER) <==> playerCard.rank.Greater(computerCard.rank)
    ensures v == Takes(COMPUTER) <==> playerCard.rank.Less(computerCard.rank)
  {
    RankOrder(playerCard.rank, computerCard.rank, computerCard.rank);
    if playerCard.rank == computerCard.rank then Tie
    else if playerCard.rank.Greater(computerCard.rank) then Takes(PLAYER)
    else Takes(COMPUTER)
  }

  /** The whole pot goes, in order, to the back of the winner's hand. */
  function AddCards(h: Hands, pot: seq<Card>, winner: Seat): (r: Hands)
    ensures r.Of(winner) == h.Of(winner) + pot
    ensures r.Of(1 - winner) == h.Of(1 - winner)
  {
    if winner == PLAYER then Hands(h.player + pot, h.computer) else Hands(h.player, h.computer + pot)
  }

  /** The first n cards of each hand, in the order they are turned up: the
      player's card of each pair before the computer's. */
  function Pairs(h: Hands, n: nat): (s: seq<Card>)
    requires n <= |h.player| && n <= |h.computer|
    ensures |s| == 2 * n
    decreases n
  {
    if n == 0 then [] else [h.player[0], h.computer[0]] + Pairs(Drop(h, 1), n - 1)
  }

  // ---------------------------------------------------------------------------
  // Small facts about multisets and the front of the hands, each kept in a
  // lemma of its own so that the proofs that use them stay cheap.

  lemma Concat3<T>(a: seq<T>, b: seq<T>, c: seq<T>)
    ensures multiset(a + b + c) == multiset(a) + multiset(b) + multiset(c)
  {
  }

  lemma AppendAssoc<T>(a: seq<T>, b: seq<T>, c: seq<T>)
    ensures (a + b) + c == a + (b + c)
  {
  }

  lemma Regroup<T>(a: multiset<T>, b: multiset<T>, m: multiset<T>, d: multiset<T>, r: multiset<T>)
    requires m + d == r
    ensures a + b + m + d == a + b + r
  {
    forall o ensures (a + b + m + d)[o] == (a + b + r)[o] {
      assert (m + d)[o] == r[o];
    }
  }

  lemma DropDrop(h: Hands, a: nat, b: nat)
    requires a + b <= |h.player| && a + b <= |h.computer|
    ensures Drop(Drop(h, a), b) == Drop(h, a + b)
  {
  }

  /** Putting one card in front of each hand adds those two cards. */
  lemma ConsCards(x: Card, y: Card, rest: Hands)
    ensures Hands([x] + rest.player, [y] + rest.computer).Cards()
         == multiset([x]) + multiset([y]) + rest.Cards()
  {
    var a, b, p, c := multiset([x]), multiset([y]), multiset(rest.player), multiset(rest.computer);
    assert multiset([x] + rest.player) == a + p;
    assert multiset([y] + rest.computer) == b + c;
    forall o ensures (a + p + (b + c))[o] == (a + b + (p + c))[o] {
    }
  }

  /** The cards of the hands are their front cards and the rest. */
  lemma SplitFront(h: Hands)
    requires h.player != [] && h.computer != []
    ensures h.Cards() == multiset([h.player[0]]) + multiset([h.computer[0]]) + Drop(h, 1).Cards()
  {
    var rest := Drop(h, 1);
    assert h.player == [h.player[0]] + rest.player;
    assert h.computer == [h.computer[0]] + rest.computer;
    ConsCards(h.player[0], h.computer[0], rest);
  }

  lemma PairsStep(h: Hands, n: nat)
    requires 0 < n <= |h.player| && n <= |h.computer|
    ensures multiset(Pairs(h, n)) == multiset([h.player[0]]) + multiset([h.computer[0]]) + multiset(Pairs(Drop(h, 1), n - 1))
  {
    var p, c := [h.player[0]], [h.computer[0]];
    assert Pairs(h, n) == [h.player[0], h.computer[0]] + Pairs(Drop(h, 1), n - 1);
    assert [h.player[0], h.computer[0]] == p + c;
    Concat3(p, c, Pairs(Drop(h, 1), n - 1));
  }

  /** Taking n pairs moves exactly the first n cards of each hand to the pot. */
  lemma {:induction false} PairsCards(h: Hands, n: nat)
    requires n <= |h.player| && n <= |h.computer|
    ensures multiset(Pairs(h, n)) + Drop(h, n).Cards() == h.Cards()
    decreases n
  {
    if n > 0 {
      var rest := Drop(h, 1);
      var a, b, m, d := multiset([h.player[0]]), multiset([h.computer[0]]), multiset(Pairs(rest, n - 1)), Drop(h, n).Cards();
      assert m + d == rest.Cards() by {
        PairsCards(rest, n - 1);
        DropDrop(h, 1, n - 1);
      }
      assert multiset(Pairs(h, n)) == a + b + m by {
        PairsStep(h, n);
      }
      assert h.Cards() == a + b + rest.Cards() by {
        SplitFront(h);
      }
      Regroup(a, b, m, d, rest.Cards());
    } else {
      assert Drop(h, 0) == h;
    }
  }

  /** Taking a pairs and then b more pairs is taking a + b pairs. */
  lemma {:induction false} PairsAppend(h: Hands, a: nat, b: nat)
    requires a + b <= |h.player| && a + b <= |h.computer|
    ensures Pairs(h, a) + Pairs(Drop(h, a), b) == Pairs(h, a + b)
    decreases a
  {
    if a > 0 {
      var rest := Drop(h, 1);
      PairsAppend(rest, a - 1, b);
      assert Drop(rest, a - 1) == Drop(h, a);
    }
  }

  /** Taking one more pair appends the next card of each hand. */
  lemma PairsSnoc(h: Hands, n: nat)
    requires n < |h.player| && n < |h.computer|
    ensures Pairs(h, n + 1) == Pairs(h, n) + [h.player[n], h.computer[n]]
  {
    var rest := Drop(h, n);
    PairsAppend(h, n, 1);
    assert Pairs(Drop(rest, 1), 0) == [];
    assert Pairs(rest, 1) == [h.player[n], h.computer[n]];
  }

  /** The six cards a war adds to the pot are two face-down cards and one
      face-up card from each player, alternating player and computer. */
  lemma WarPotOrder(h: Hands)
    requires |h.player| >= 3 && |h.computer| >= 3
    ensures Pairs(h, 3) == [h.player[0], h.computer[0], h.player[1], h.computer[1], h.player[2], h.computer[2]]
  {
    var h1 := Drop(h, 1);
    var h2 := Drop(h1, 1);
    assert Pairs(h2, 1) == [h.player[2], h.computer[2]];
    assert Pairs(h1, 2) == [h.player[1], h.computer[1]] + Pairs(h2, 1);
  }

  function CompareCards(h: Hands, pot: seq<Card>, computerCard: Card, playerCard: Card): Resolution
    decreases h.Total(), 1
  {
    match Judge(computerCard, playerCard)
    case Tie => WarRound(h, pot)
    case Takes(w) => Resolution(RoundWon(w), AddCards(h, pot, w), pot)
  }

  /** A player with fewer than three cards loses the game; the player is
      checked first. */
  function WarRound(h: Hands, pot: seq<Card>): Resolution
    decreases h.Total(), 0
  {
    if |h.player| < 3 then Resolution(GameOver(PLAYER), h, pot)
    else if |h.computer| < 3 then Resolution(GameOver(COMPUTER), h, pot)
    else CompareCards(Drop(h, 3), pot + Pairs(h, 3), h.computer[2], h.player[2])
  }

  /** Both players turn up their first card; the two form the pot. */
  function PlayRound(h: Hands): Resolution
    requires h.player != [] && h.computer != []
  {
    CompareCards(Drop(h, 1), Pairs(h, 1), h.computer[0], h.player[0])
  }

  /** The cards that are on the table once the round is over. */
  function InFlight(r: Resolution): seq<Card> {
    if r.outcome.GameOver? then r.pot else []
  }

  /** The pair of face-up cards that was compared last, after k wars. */
  function LastPair(h: Hands, k: nat, computerCard: Card, playerCard: Card): (Card, Card)
    requires 3 * k <= |h.player| && 3 * k <= |h.computer|
  {
    if k == 0 then (computerCard, playerCard) else (h.computer[3 * k - 1], h.player[3 * k - 1])
  }

  // ---------------------------------------------------------------------------
  // Conservation: no card is created or lost while a round resolves.

  /** The hands after resolution, with the pot still on the table, hold
      exactly the cards of the hands before plus the pot. */
  lemma {:induction false} CompareConserves(h: Hands, pot: seq<Card>, computerCard: Card, playerCard: Card)
    ensures var r := CompareCards(h, pot, computerCard, playerCard);
            r.hands.Cards() + multiset(InFlight(r)) == h.Cards() + multiset(pot)
    decreases h.Total(), 1
  {
    if Judge(computerCard, playerCard) == Tie {
      WarConserves(h, pot);
    }
  }

  lemma {:induction false} WarConserves(h: Hands, pot: seq<Card>)
    ensures var r := WarRound(h, pot);
            r.hands.Cards() + multiset(InFlight(r)) == h.Cards() + multiset(pot)
    decreases h.Total(), 0
  {
    if |h.player| >= 3 && |h.computer| >= 3 {
      var rest, drawn := Drop(h, 3), Pairs(h, 3);
      var r := CompareCards(rest, pot + drawn, h.computer[2], h.player[2]);
      assert r.hands.Cards() + multiset(InFlight(r)) == rest.Cards() + multiset(pot + drawn) by {
        CompareConserves(rest, pot + drawn, h.computer[2], h.player[2]);
      }
      assert multiset(drawn) + rest.Cards() == h.Cards() by {
        PairsCards(h, 3);
      }
      MoveToPot(rest.Cards(), pot, drawn, h.Cards());
    }
  }

  lemma MoveToPot<T>(rest: multiset<T>, pot: seq<T>, drawn: seq<T>, whole: multiset<T>)
    requires multiset(drawn) + rest == whole
    ensures rest + multiset(pot + drawn) == whole + multiset(pot)
  {
    assert multiset(pot + drawn) == multiset(pot) + multiset(drawn);
    forall o ensures (rest + multiset(pot + drawn))[o] == (whole + multiset(pot))[o] {
      assert (multiset(drawn) + rest)[o] == whole[o];
    }
  }

  /** After a round the hands and the pot on the table together hold the
      cards the hands held before it; when the round was won, the hands
      alone do. */
  lemma RoundConserves(h: Hands)
    requires h.player != [] && h.computer != []
    ensures var r := PlayRound(h);
            && r.hands.Cards() + multiset(InFlight(r)) == h.Cards()
            && (r.outcome.RoundWon? ==> r.hands.Cards() == h.Cards() && r.hands.Total() == h.Total())
  {
    var rest, drawn := Drop(h, 1), Pairs(h, 1);
    var r := PlayRound(h);
    assert r.hands.Cards() + multiset(InFlight(r)) == rest.Cards() + multiset(drawn) by {
      CompareConserves(rest, drawn, h.computer[0], h.player[0]);
    }
    assert rest.Cards() + multiset(drawn) == h.Cards() by {
      PairsCards(h, 1);
      assert [] + drawn == drawn;
      MoveToPot(rest.Cards(), [], drawn, h.Cards());
      assert h.Cards() + multiset([]) == h.Cards();
    }
    if r.outcome.RoundWon? {
      assert r.hands.Cards() == h.Cards() by {
        assert r.hands.Cards() + multiset([]) == r.hands.Cards();
      }
      assert |r.hands.Cards()| == |multiset(r.hands.player)| + |multiset(r.hands.computer)| == r.hands.Total();
      assert |h.Cards()| == |multiset(h.player)| + |multiset(h.computer)| == h.Total();
    }
  }

  // ---------------------------------------------------------------------------
  // The exact shape of a resolution.

  /** A tie with enough cards on both sides is a war: three cards from
      each hand join the pot and the third pair is compared. */
  lemma WarStep(h: Hands, pot: seq<Card>, computerCard: Card, playerCard: Card)
    requires Judge(computerCard, playerCard) == Tie && |h.player| >= 3 && |h.computer| >= 3
    ensures CompareCards(h, pot, computerCard, playerCard)
         == CompareCards(Drop(h, 3), pot + Pairs(h, 3), h.computer[2], h.player[2])
  {
  }

  /** The number of wars fought before the compared pair decides the round
      or a player cannot go to war; each war uses three cards of each hand. */
  function Wars(h: Hands, computerCard: Card, playerCard: Card): (k: nat)
    ensures 3 * k <= |h.player| && 3 * k <= |h.computer|
    ensures k > 0 <==> Judge(computerCard, playerCard) == Tie && |h.player| >= 3 && |h.computer| >= 3
    decreases h.Total()
  {
    if Judge(computerCard, playerCard) == Tie && |h.player| >= 3 && |h.computer| >= 3
    then 1 + Wars(Drop(h, 3), h.computer[2], h.player[2])
    else 0
  }

  /** A resolution that took the first n cards of each hand: the pot is the
      starting pot followed by those cards in the order they were turned up;
      the winner gets that whole pot at the back of what is left of their
      hand and the loser keeps the rest of theirs; a game that is over leaves
      both hands as they were after the n cards were taken. */
  ghost predicate Shaped(h: Hands, pot: seq<Card>, n: nat, r: Resolution) {
    && n <= |h.player| && n <= |h.computer|
    && r.pot == pot + Pairs(h, n)
    && (r.outcome.RoundWon? ==> r.hands == AddCards(Drop(h, n), r.pot, r.outcome.winner))
    && (r.outcome.GameOver? ==> r.hands == Drop(h, n))
  }

  /** Taking d cards of each hand into the pot and then n more is taking
      d + n cards. */
  lemma ShapeShift(h: Hands, pot: seq<Card>, d: nat, n: nat, r: Resolution)
    requires d <= |h.player| && d <= |h.computer|
    requires Shaped(Drop(h, d), pot + Pairs(h, d), n, r)
    ensures Shaped(h, pot, d + n, r)
  {
    var rest := Drop(h, d);
    assert r.pot == pot + Pairs(h, d + n) by {
      AppendAssoc(pot, Pairs(h, d), Pairs(rest, n));
      PairsAppend(h, d, n);
    }
    DropDrop(h, d, n);
  }

  /** After k wars the resolution has taken the first 3k cards of each hand. */
  lemma {:induction false} ComparePot(h: Hands, pot: seq<Card>, computerCard: Card, playerCard: Card)
    ensures Shaped(h, pot, 3 * Wars(h, computerCard, playerCard), CompareCards(h, pot, computerCard, playerCard))
    decreases h.Total()
  {
    if Judge(computerCard, playerCard) == Tie && |h.player| >= 3 && |h.computer| >= 3 {
      ComparePot(Drop(h, 3), pot + Pairs(h, 3), h.computer[2], h.player[2]);
      WarShaped(h, pot, computerCard, playerCard);
    } else {
      DecidedShaped(h, pot, computerCard, playerCard);
    }
  }

  /** A war takes three cards of each hand on top of what the compared
      third pair's resolution takes. */
  lemma WarShaped(h: Hands, pot: seq<Card>, computerCard: Card, playerCard: Card)
    requires Judge(computerCard, playerCard) == Tie && |h.player| >= 3 && |h.computer| >= 3
    requires var rest := Drop(h, 3);
             Shaped(rest, pot + Pairs(h, 3), 3 * Wars(rest, h.computer[2], h.player[2]),
                    CompareCards(rest, pot + Pairs(h, 3), h.computer[2], h.player[2]))
    ensures Shaped(h, pot, 3 * Wars(h, computerCard, playerCard), CompareCards(h, pot, computerCard, playerCard))
  {
    var rest := Drop(h, 3);
    var k' := Wars(rest, h.computer[2], h.player[2]);
    var r := CompareCards(h, pot, computerCard, playerCard);
    assert r == CompareCards(rest, pot + Pairs(h, 3), h.computer[2], h.player[2]) by {
      WarStep(h, pot, computerCard, playerCard);
    }
    assert 3 * Wars(h, computerCard, playerCard) == 3 + 3 * k';
    ShapeShift(h, pot, 3, 3 * k', r);
  }

  /** Without a war the resolution takes no further card. */
  lemma DecidedShaped(h: Hands, pot: seq<Card>, computerCard: Card, playerCard: Card)
    requires !(Judge(computerCard, playerCard) == Tie && |h.player| >= 3 && |h.computer| >= 3)
    ensures Shaped(h, pot, 3 * Wars(h, computerCard, playerCard), CompareCards(h, pot, computerCard, playerCard))
  {
    assert Pairs(h, 0) == [] && pot + [] == pot;
    assert Drop(h, 0) == h;
  }

  /** The last pair of face-up cards decides the round; a game lost for want
      of cards follows a tie of that pair, and the player loses it exactly
      when the player is the one short of three cards. */
  ghost predicate Decided(h: Hands, pot: seq<Card>, computerCard: Card, playerCard: Card) {
    var r, k := CompareCards(h, pot, computerCard, playerCard), Wars(h, computerCard, playerCard);
    var (cc, pc) := LastPair(h, k, computerCard, playerCard);
    && (r.outcome.RoundWon? ==> Judge(cc, pc) == Takes(r.outcome.winner))
    && (r.outcome.GameOver? ==>
          && Judge(cc, pc) == Tie
          && (r.outcome.loser == PLAYER <==> |r.hands.player| < 3)
          && |r.hands.Of(r.outcome.loser)| < 3)
  }

  lemma DecidedStep(h: Hands, pot: seq<Card>, computerCard: Card, playerCard: Card)
    requires Judge(computerCard, playerCard) == Tie && |h.player| >= 3 && |h.computer| >= 3
    requires Decided(Drop(h, 3), pot + Pairs(h, 3), h.computer[2], h.player[2])
    ensures Decided(h, pot, computerCard, playerCard)
  {
    var rest := Drop(h, 3);
    WarStep(h, pot, computerCard, playerCard);
    var k' := Wars(rest, h.computer[2], h.player[2]);
    var k := Wars(h, computerCard, playerCard);
    assert k == k' + 1;
    if k' == 0 {
      assert LastPair(h, k, computerCard, playerCard) == (h.computer[2], h.player[2]);
    } else {
      assert LastPair(h, k, computerCard, playerCard) == LastPair(rest, k', h.computer[2], h.player[2]);
    }
  }

  lemma {:induction false} CompareDecides(h: Hands, pot: seq<Card>, computerCard: Card, playerCard: Card)
    ensures Decided(h, pot, computerCard, playerCard)
    decreases h.Total()
  {
    if Judge(computerCard, playerCard) == Tie && |h.player| >= 3 && |h.computer| >= 3 {
      CompareDecides(Drop(h, 3), pot + Pairs(h, 3), h.computer[2], h.player[2]);
      DecidedStep(h, pot, computerCard, playerCard);
    }
  }

  /** A full round takes the first 1 + 3k cards of each hand, where k is the
      number of wars, and they form the pot in the order they were turned up. */
  lemma RoundShape(h: Hands)
    requires h.player != [] && h.computer != []
    ensures Shaped(h, [], 1 + 3 * Wars(Drop(h, 1), h.computer[0], h.player[0]), PlayRound(h))
  {
    var k := Wars(Drop(h, 1), h.computer[0], h.player[0]);
    assert [] + Pairs(h, 1) == Pairs(h, 1);
    ComparePot(Drop(h, 1), Pairs(h, 1), h.computer[0], h.player[0]);
    ShapeShift(h, [], 1, 3 * k, PlayRound(h));
  }

  // ---------------------------------------------------------------------------
  // Dealing.

  /** Dealing pops cards from the end of the deck, the player first, so the
      player's hand starts with the last card of the deck. Each player gets
      half the deck, rounded down: a deck of odd size keeps its first card
      back. */
  function Deal(deck: seq<Card>): (h: Hands)
    ensures |h.player| == |h.computer|
    ensures 2 * |h.player| <= |deck| <= 2 * |h.player| + 1
  {
    if |deck| < 2 then Hands([], [])
    else
      var n := |deck|;
      var rest := Deal(deck[..n - 2]);
      Hands([deck[n - 1]] + rest.player, [deck[n - 2]] + rest.computer)
  }

  /** The i-th card of the player's hand is the deck's (2i+1)-th card from
      the end and the i-th card of the computer's its (2i+2)-th. */
  lemma {:induction false} DealAt(deck: seq<Card>, i: nat)
    requires 2 * i + 2 <= |deck|
    ensures i < |Deal(deck).player| && i < |Deal(deck).computer|
    ensures Deal(deck).player[i] == deck[|deck| - 1 - 2 * i]
    ensures Deal(deck).computer[i] == deck[|deck| - 2 - 2 * i]
    decreases i
  {
    if i > 0 {
      var front := deck[..|deck| - 2];
      DealAt(front, i - 1);
      assert Deal(deck).player[i] == Deal(front).player[i - 1];
      assert Deal(deck).computer[i] == Deal(front).computer[i - 1];
    }
  }

  /** The same, for every position of the hands at once. */
  lemma DealOrder(deck: seq<Card>)
    ensures forall i :: 0 <= i < |Deal(deck).player| ==> Deal(deck).player[i] == deck[|deck| - 1 - 2 * i]
    ensures forall i :: 0 <= i < |Deal(deck).computer| ==> Deal(deck).computer[i] == deck[|deck| - 2 - 2 * i]
  {
    forall i | 0 <= i < |Deal(deck).player|
      ensures Deal(deck).player[i] == deck[|deck| - 1 - 2 * i]
      ensures Deal(deck).computer[i] == deck[|deck| - 2 - 2 * i]
    {
      DealAt(deck, i);
    }
  }

  lemma SplitLastTwo(deck: seq<Card>)
    requires |deck| >= 2
    ensures multiset(deck) == multiset(deck[..|deck| - 2]) + multiset([deck[|deck| - 2]]) + multiset([deck[|deck| - 1]])
  {
    var n := |deck|;
    assert deck == deck[..n - 2] + [deck[n - 2]] + [deck[n - 1]];
    Concat3(deck[..n - 2], [deck[n - 2]], [deck[n - 1]]);
  }

  lemma Regroup3<T>(x: multiset<T>, a: multiset<T>, b: multiset<T>, r: multiset<T>, l: multiset<T>, f: multiset<T>, d: multiset<T>)
    requires x == a + b + r && r + l == f && d == f + b + a
    ensures x + l == d
  {
    forall o ensures (x + l)[o] == d[o] {
      assert (r + l)[o] == f[o];
    }
  }

  /** The i-th round of dealing gives the player the deck's (2i+1)-th card
      from the end and the computer the card before it. */
  lemma DealNext(deck: seq<Card>, i: nat)
    requires 2 * i + 2 <= |deck|
    ensures i < |Deal(deck).player|
    ensures Deal(deck).player[..i + 1] == Deal(deck).player[..i] + [deck[|deck| - 1 - 2 * i]]
    ensures Deal(deck).computer[..i + 1] == Deal(deck).computer[..i] + [deck[|deck| - 2 - 2 * i]]
    ensures deck[..|deck| - 2 * i][..|deck| - 2 * i - 1] == deck[..|deck| - 2 * i - 1]
    ensures deck[..|deck| - 2 * i - 1][..|deck| - 2 * i - 2] == deck[..|deck| - 2 * (i + 1)]
  {
    var h := Deal(deck);
    DealAt(deck, i);
    assert h.player[..i + 1] == h.player[..i] + [h.player[i]];
    assert h.computer[..i + 1] == h.computer[..i] + [h.computer[i]];
  }

  /** After half the deck's length rounds of dealing, the hands are dealt and
      the deck holds the card it keeps back. */
  lemma DealAll(deck: seq<Card>)
    ensures |Deal(deck).player| == |deck| / 2
    ensures Deal(deck).player[..|deck| / 2] == Deal(deck).player
    ensures Deal(deck).computer[..|deck| / 2] == Deal(deck).computer
    ensures deck[..|deck| - 2 * (|deck| / 2)] == KeptBack(deck)
  {
  }

  /** The cards a deck of odd size keeps back when it is dealt. */
  function KeptBack(deck: seq<Card>): (kept: seq<Card>)
    ensures |kept| <= 1
  {
    deck[..|deck| - 2 * |Deal(deck).player|]
  }

  lemma KeptBackStep(deck: seq<Card>)
    requires |deck| >= 2
    ensures KeptBack(deck) == KeptBack(deck[..|deck| - 2])
  {
  }

  /** Two more cards, one to each hand, account for the last two cards of
      the deck. */
  lemma ConsTwoCards(deck: seq<Card>, p: seq<Card>, c: seq<Card>, rest: Hands, kept: seq<Card>)
    requires |deck| >= 2
    requires p == [deck[|deck| - 1]] + rest.player && c == [deck[|deck| - 2]] + rest.computer
    requires rest.Cards() + multiset(kept) == multiset(deck[..|deck| - 2])
    ensures Hands(p, c).Cards() + multiset(kept) == multiset(deck)
  {
    var n := |deck|;
    var a, b := multiset([deck[n - 1]]), multiset([deck[n - 2]]);
    assert Hands(p, c).Cards() == a + b + rest.Cards() by {
      ConsCards(deck[n - 1], deck[n - 2], rest);
    }
    assert multiset(deck) == multiset(deck[..n - 2]) + b + a by {
      SplitLastTwo(deck);
    }
    Regroup3(Hands(p, c).Cards(), a, b, rest.Cards(), multiset(kept), multiset(deck[..n - 2]), multiset(deck));
  }

  /** One step of dealing preserves the cards: if dealing the deck without
      its last two cards keeps them all, so does dealing the whole deck. */
  lemma DealCardsStep(deck: seq<Card>)
    requires |deck| >= 2
    requires Deal(deck[..|deck| - 2]).Cards() + multiset(KeptBack(deck[..|deck| - 2])) == multiset(deck[..|deck| - 2])
    ensures Deal(deck).Cards() + multiset(KeptBack(deck)) == multiset(deck)
  {
    var h := Deal(deck);
    KeptBackStep(deck);
    ConsTwoCards(deck, h.player, h.computer, Deal(deck[..|deck| - 2]), KeptBack(deck));
  }

  /** The dealt cards and the card a deck of odd size keeps back are the
      cards of the deck. */
  lemma {:induction false} DealCards(deck: seq<Card>)
    ensures Deal(deck).Cards() + multiset(KeptBack(deck)) == multiset(deck)
  {
    if |deck| >= 2 {
      DealCards(deck[..|deck| - 2]);
      DealCardsStep(deck);
    } else {
      assert KeptBack(deck) == deck;
    }
  }

  /** Dealing a shuffled deck gives each player 26 cards and, between them,
      every card of the deck. */
  lemma DealShuffledDeck(deck: seq<Card>)
    requires IsShuffledDeck(deck)
    ensures |Deal(deck).player| == 26 && |Deal(deck).computer| == 26
    ensures Deal(deck).Cards() == multiset(deck) && KeptBack(deck) == []
  {
    var h := Deal(deck);
    assert |deck| == 52 by {
      ShuffledSize(deck);
    }
    assert h.Cards() + multiset(KeptBack(deck)) == multiset(deck) by {
      DealCards(deck);
    }
    assert KeptBack(deck) == [];
  }

  // ---------------------------------------------------------------------------
  // The game.

  /** The game loop with at most `fuel` rounds: it stops when a hand is
      empty (the player's is checked first), when the fuel is spent, or when
      a round ends the game. */
  function Simulate(h: Hands, fuel: nat): Finish
    decreases fuel
  {
    if h.player == [] then Finish(OutOfCards(PLAYER), h)
    else if h.computer == [] then Finish(OutOfCards(COMPUTER), h)
    else if fuel == 0 then Finish(FuelSpent, h)
    else
      var r := PlayRound(h);
      match r.outcome
      case GameOver(loser) => Finish(NoCardsForWar(loser), r.hands)
      case RoundWon(_) => Simulate(r.hands, fuel - 1)
  }

  /** How the cards stand when a game that started from hands h finishes:
      a game that ends with an empty hand leaves every card with the other
      player, a game cut short leaves every card in the two hands, and a game
      lost for want of cards leaves the loser with fewer than three and some
      cards still on the table, the hands holding only cards they held at
      the start. */
  ghost predicate Settled(h: Hands, f: Finish) {
    && (f.end.OutOfCards? ==>
          f.hands.Of(f.end.loser) == [] && multiset(f.hands.Of(1 - f.end.loser)) == h.Cards())
    && (f.end.FuelSpent? ==> f.hands.Cards() == h.Cards())
    && (f.end.NoCardsForWar? ==>
          |f.hands.Of(f.end.loser)| < 3 && f.hands.Cards() <= h.Cards() && |f.hands.Cards()| < |h.Cards()|)
  }

  /** Between rounds no card is lost. */
  lemma {:induction false} SimulateConserves(h: Hands, fuel: nat)
    ensures Settled(h, Simulate(h, fuel))
    decreases fuel
  {
    if h.player == [] || h.computer == [] || fuel == 0 {
      StopSettles(h, fuel);
    } else if PlayRound(h).outcome.RoundWon? {
      SimulateConserves(PlayRound(h).hands, fuel - 1);
      WonRoundSettles(h, fuel);
    } else {
      GameOverSettles(h, fuel);
    }
  }

  /** A game that stops before playing a round keeps the hands it has. */
  lemma StopSettles(h: Hands, fuel: nat)
    requires h.player == [] || h.computer == [] || fuel == 0
    ensures Settled(h, Simulate(h, fuel))
  {
    if h.player == [] {
      assert h.Cards() == multiset(h.computer) by {
        EmptyHandCards(h.player, h.computer);
      }
    } else if h.computer == [] {
      assert h.Cards() == multiset(h.player) by {
        EmptyHandCards(h.computer, h.player);
        assert multiset(h.computer) + multiset(h.player) == multiset(h.player) + multiset(h.computer);
      }
    }
  }

  /** After a won round the game goes on from hands holding the same cards. */
  lemma WonRoundSettles(h: Hands, fuel: nat)
    requires h.player != [] && h.computer != [] && fuel > 0
    requires PlayRound(h).outcome.RoundWon?
    requires Settled(PlayRound(h).hands, Simulate(PlayRound(h).hands, fuel - 1))
    ensures Settled(h, Simulate(h, fuel))
  {
    var r := PlayRound(h);
    assert Simulate(h, fuel) == Simulate(r.hands, fuel - 1);
    assert r.hands.Cards() == h.Cards() by {
      RoundConserves(h);
    }
  }

  lemma GameOverSettles(h: Hands, fuel: nat)
    requires h.player != [] && h.computer != [] && fuel > 0
    requires PlayRound(h).outcome.GameOver?
    ensures Settled(h, Simulate(h, fuel))
  {
    var r := PlayRound(h);
    assert Simulate(h, fuel) == Finish(NoCardsForWar(r.outcome.loser), r.hands);
    GameOverFacts(h);
  }

  lemma EmptyHandCards(empty: seq<Card>, other: seq<Card>)
    requires empty == []
    ensures multiset(empty) + multiset(other) == multiset(other)
  {
    assert multiset(empty) == multiset{};
  }

  /** A round that ends the game leaves the loser with fewer than three cards
      and the pot, at least two cards, on the table. */
  lemma GameOverFacts(h: Hands)
    requires h.player != [] && h.computer != []
    requires PlayRound(h).outcome.GameOver?
    ensures var r := PlayRound(h);
            && |r.hands.Of(r.outcome.loser)| < 3
            && |r.pot| >= 2 && r.hands.Cards() + multiset(r.pot) == h.Cards()
            && r.hands.Cards() <= h.Cards() && |r.hands.Cards()| < |h.Cards()|
  {
    var r := PlayRound(h);
    assert |r.hands.Of(r.outcome.loser)| < 3 by {
      CompareDecides(Drop(h, 1), Pairs(h, 1), h.computer[0], h.player[0]);
    }
    assert |r.pot| >= 2 by {
      ComparePot(Drop(h, 1), Pairs(h, 1), h.computer[0], h.player[0]);
    }
    assert r.hands.Cards() + multiset(r.pot) == h.Cards() by {
      RoundConserves(h);
    }
  }

  /** A game that started from hands holding a shuffled deck and ended with
      an empty hand ends with that deck, all 52 cards, in the winner's hand. */
  lemma WinnerHoldsAll(h: Hands, f: Finish, deck: seq<Card>)
    requires IsShuffledDeck(deck) && h.Cards() == multiset(deck)
    requires Settled(h, f) && f.end.OutOfCards?
    ensures multiset(f.hands.Of(1 - f.end.loser)) == multiset(deck)
    ensures IsShuffledDeck(f.hands.Of(1 - f.end.loser)) && |f.hands.Of(1 - f.end.loser)| == 52
  {
    var winner := f.hands.Of(1 - f.end.loser);
    ShuffledPermutation(deck, winner);
    ShuffledSize(winner);
  }

  /** A game dealt from a shuffled deck that ends with an empty hand ends
      with all 52 cards in the winner's hand. */
  lemma WinnerHoldsDeck(deck: seq<Card>, fuel: nat)
    requires IsShuffledDeck(deck)
    ensures var f := Simulate(Deal(deck), fuel);
            f.end.OutOfCards? ==>
              multiset(f.hands.Of(1 - f.end.loser)) == multiset(deck)
              && IsShuffledDeck(f.hands.Of(1 - f.end.loser))
              && |f.hands.Of(1 - f.end.loser)| == 52
  {
    var h := Deal(deck);
    var f := Simulate(h, fuel);
    DealShuffledDeck(deck);
    SimulateConserves(h, fuel);
    if f.end.OutOfCards? {
      WinnerHoldsAll(h, f, deck);
    }
  }

  // ---------------------------------------------------------------------------
  // Three rounds worked through.

  /** A ten beats a seven: the player puts both cards at the back of their
      hand, their own card first. */
  lemma RoundExample()
    ensures var h := Hands([Card(Spades, Ten), Card(Clubs, Two)], [Card(Hearts, Seven)]);
            PlayRound(h) == Resolution(RoundWon(PLAYER),
                                       Hands([Card(Clubs, Two), Card(Spades, Ten), Card(Hearts, Seven)], []),
                                       [Card(Spades, Ten), Card(Hearts, Seven)])
  {
    var h := Hands([Card(Spades, Ten), Card(Clubs, Two)], [Card(Hearts, Seven)]);
    assert Pairs(h, 1) == [h.player[0], h.computer[0]];
  }

  /** Both players turn up a king: in the war that follows the player's ace
      beats the computer's two, and the player takes all eight cards, in the
      order they were turned up, leaving the computer none. */
  lemma WarExample()
    ensures var h := Hands([Card(Spades, King), Card(Spades, Two), Card(Spades, Three), Card(Spades, Ace)],
                           [Card(Hearts, King), Card(Hearts, Four), Card(Hearts, Five), Card(Hearts, Two)]);
            var pot := [Card(Spades, King), Card(Hearts, King), Card(Spades, Two), Card(Hearts, Four),
                        Card(Spades, Three), Card(Hearts, Five), Card(Spades, Ace), Card(Hearts, Two)];
            PlayRound(h) == Resolution(RoundWon(PLAYER), Hands(pot, []), pot)
  {
    var h := Hands([Card(Spades, King), Card(Spades, Two), Card(Spades, Three), Card(Spades, Ace)],
                   [Card(Hearts, King), Card(Hearts, Four), Card(Hearts, Five), Card(Hearts, Two)]);
    WarPotOrder(Drop(h, 1));
    assert Pairs(h, 1) == [h.player[0], h.computer[0]];
  }

  /** A tie when the player has a single card left loses the player the
      game: no card is drawn for the war and the two kings stay on the table. */
  lemma ShortWarExample()
    ensures var h := Hands([Card(Spades, King), Card(Spades, Two)],
                           [Card(Hearts, King), Card(Hearts, Three), Card(Hearts, Four), Card(Hearts, Five)]);
            PlayRound(h) == Resolution(GameOver(PLAYER), Drop(h, 1), [Card(Spades, King), Card(Hearts, King)])
  {
    var h := Hands([Card(Spades, King), Card(Spades, Two)],
                   [Card(Hearts, King), Card(Hearts, Three), Card(Hearts, Four), Card(Hearts, Five)]);
    assert Pairs(h, 1) == [h.player[0], h.computer[0]];
  }
}
