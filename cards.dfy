/** Suits, ranks and the 52-card deck. */
module Cards {

  /** The four suits, in the order they are declared (and enumerated). */
  datatype Suit = Spades | Hearts | Diamonds | Clubs

  /** The thirteen ranks; the ordering between them is that of their values. */
  datatype Rank = Two | Three | Four | Five | Six | Seven | Eight | Nine | Ten | Jack | Queen | King | Ace
  {
    function Value(): (v: int)
      ensures 2 <= v <= 14
    {
      match this
      case Two => 2
      case Three => 3
      case Four => 4
      case Five => 5
      case Six => 6
      case Seven => 7
      case Eight => 8
      case Nine => 9
      case Ten => 10
      case Jack => 11
      case Queen => 12
      case King => 13
      case Ace => 14
    }

    predicate Greater(other: Rank) {
      Value() > other.Value()
    }

    predicate Less(other: Rank) {
      Value() < other.Value()
    }
  }

  /** `Greater` and `Less` are converse strict total orders on the ranks. */
  lemma RankOrder(a: Rank, b: Rank, c: Rank)
    ensures a.Value() == b.Value() <==> a == b
    ensures !a.Greater(a) && !a.Less(a)
    ensures a.Less(b) <==> b.Greater(a)
    ensures a.Greater(b) ==> !b.Greater(a)
    ensures a.Greater(b) && b.Greater(c) ==> a.Greater(c)
    ensures a == b || a.Greater(b) || a.Less(b)
  {
  }

  /** A card is a (suit, rank) pair. */
  datatype Card = Card(suit: Suit, rank: Rank)

  const AllSuits: seq<Suit> := [Spades, Hearts, Diamonds, Clubs]
  const AllRanks: seq<Rank> := [Two, Three, Four, Five, Six, Seven, Eight, Nine, Ten, Jack, Queen, King, Ace]

  /** The cards of one suit, one per rank, in rank order. */
  function Row(suit: Suit, ranks: seq<Rank>): (row: seq<Card>)
    ensures |row| == |ranks|
  {
    if ranks == [] then [] else [Card(suit, ranks[0])] + Row(suit, ranks[1..])
  }

  /** The cartesian product: for each suit in turn, every rank in turn. */
  function Product(suits: seq<Suit>, ranks: seq<Rank>): (deck: seq<Card>)
    ensures |deck| == |suits| * |ranks|
  {
    if suits == [] then [] else Row(suits[0], ranks) + Product(suits[1..], ranks)
  }

  /** No element occurs twice. */
  ghost predicate Distinct<T>(s: seq<T>) {
    forall i, j :: 0 <= i < j < |s| ==> s[i] != s[j]
  }

  lemma {:induction false} RowCount(suit: Suit, ranks: seq<Rank>, c: Card)
    requires Distinct(ranks)
    ensures multiset(Row(suit, ranks))[c] == if c.suit == suit && c.rank in ranks then 1 else 0
  {
    if ranks != [] {
      assert ranks == [ranks[0]] + ranks[1..];
      RowCount(suit, ranks[1..], c);
    }
  }

  /** Over distinct suits and distinct ranks, the product holds each pair of
      a listed suit and a listed rank exactly once, and nothing else. */
  lemma {:induction false} ProductCount(suits: seq<Suit>, ranks: seq<Rank>, c: Card)
    requires Distinct(suits) && Distinct(ranks)
    ensures multiset(Product(suits, ranks))[c] == if c.suit in suits && c.rank in ranks then 1 else 0
  {
    if suits != [] {
      assert suits == [suits[0]] + suits[1..];
      RowCount(suits[0], ranks, c);
      ProductCount(suits[1..], ranks, c);
    }
  }

  /** The ordered deck that is shuffled at the start of a game. */
  function FullDeck(): (deck: seq<Card>)
    ensures |deck| == 52
  {
    Product(AllSuits, AllRanks)
  }

  /** The enumeration of the suits lists each suit once. */
  lemma SuitsListedOnce(suit: Suit)
    ensures Distinct(AllSuits) && suit in AllSuits
  {
    match suit
    case Spades => assert AllSuits[0] == suit;
    case Hearts => assert AllSuits[1] == suit;
    case Diamonds => assert AllSuits[2] == suit;
    case Clubs => assert AllSuits[3] == suit;
  }

  /** The enumeration of the ranks lists each rank once, in increasing order. */
  lemma RanksListedOnce(rank: Rank)
    ensures Distinct(AllRanks) && rank in AllRanks
  {
    forall i | 0 <= i < |AllRanks|
      ensures AllRanks[i].Value() == i + 2
    {
    }
    assert AllRanks[rank.Value() - 2] == rank;
  }

  /** A shuffled deck holds every (suit, rank) combination exactly once. */
  ghost predicate IsShuffledDeck(deck: seq<Card>) {
    forall c: Card :: multiset(deck)[c] == 1
  }

  /** The product of suits and ranks that each list every value once holds
      every card exactly once. */
  lemma ProductIsShuffled(suits: seq<Suit>, ranks: seq<Rank>)
    requires Distinct(suits) && Distinct(ranks)
    requires forall s: Suit :: s in suits
    requires forall r: Rank :: r in ranks
    ensures IsShuffledDeck(Product(suits, ranks))
  {
    forall c: Card ensures multiset(Product(suits, ranks))[c] == 1 {
      ProductCount(suits, ranks, c);
    }
  }

  /** The enumerations list every suit and every rank, each once. */
  lemma EnumerationsComplete()
    ensures Distinct(AllSuits) && forall s: Suit :: s in AllSuits
    ensures Distinct(AllRanks) && forall r: Rank :: r in AllRanks
  {
    forall s: Suit ensures Distinct(AllSuits) && s in AllSuits {
      SuitsListedOnce(s);
    }
    forall r: Rank ensures Distinct(AllRanks) && r in AllRanks {
      RanksListedOnce(r);
    }
  }

  /** The ordered deck holds every (suit, rank) combination exactly once. */
  lemma FullDeckIsShuffled()
    ensures IsShuffledDeck(FullDeck())
  {
    EnumerationsComplete();
    ProductIsShuffled(AllSuits, AllRanks);
  }

  /** Two shuffled decks are permutations of each other. */
  lemma {:induction false} ShuffledPermutation(a: seq<Card>, b: seq<Card>)
    requires IsShuffledDeck(a)
    ensures IsShuffledDeck(b) <==> multiset(a) == multiset(b)
  {
    if IsShuffledDeck(b) {
      forall c ensures multiset(a)[c] == multiset(b)[c] {
      }
    }
  }

  /** The shuffled decks are exactly the permutations of the ordered deck. */
  lemma ShuffledIsPermutation(deck: seq<Card>)
    ensures IsShuffledDeck(deck) <==> multiset(deck) == multiset(FullDeck())
  {
    FullDeckIsShuffled();
    ShuffledPermutation(FullDeck(), deck);
  }

  /** A shuffled deck holds 52 cards. */
  lemma ShuffledSize(deck: seq<Card>)
    requires IsShuffledDeck(deck)
    ensures |deck| == 52
  {
    var full := FullDeck();
    assert multiset(deck) == multiset(full) by {
      ShuffledIsPermutation(deck);
    }
    assert |deck| == |multiset(deck)| == |multiset(full)| == |full| == 52;
  }
}
