# War: a verified model of the round engine

This project models the game engine of a two-player "War" card game that
plays itself. There are two players, the player and the computer. Each
holds a hand of cards as a first-in, first-out queue tagged with its
owner's name.

The game runs like this:
- A 52-card deck (4 suits × 13 ranks) is shuffled and dealt alternately into the two hands.
- Each round, both players turn up their front card. The higher rank takes both cards to the back of its hand.
- Equal ranks start a *war*. Each player adds two face-down cards and one face-up card to the pot, and the face-up pair is compared again. The war recurses while the ranks stay equal.
- A player who has fewer than three cards when a war starts loses the whole game. The player is checked before the computer.
- The game stops when a hand is empty.

The model has four modules:

- `Queue` (`queue.dfy`) is the hand. `class Queue<T>` keeps the original list representation: the back of the queue is at index 0 and the front at the end. Its ghost `Contents()` reads that list front first.
- `Cards` (`cards.dfy`) has suits, ranks with their integer values, cards as (suit, rank) pairs, and the ordered deck `FullDeck()`, the product of the suits and the ranks. `IsShuffledDeck` characterises the result of shuffling: every card exactly once.
- `Rules` (`rules.dfy`) is the engine as functions on the two hands, each read front first: `Judge`, `AddCards`, the mutually recursive `CompareCards`/`WarRound`, `PlayRound`, `Deal` and the game loop `Simulate`. The lemmas about them cover:
  - card conservation;
  - the exact order in which cards enter the pot;
  - who wins a round and who loses a game;
  - how dealing distributes the deck.
- `War` (`war.dfy`) is `class War`, which holds the deck and the two queues (index 0 the player's, index 1 the computer's). Its methods update the queues step by step, as the original does. Each is proved to leave the queues holding what the corresponding `Rules` function computes from the hands it started with.

The integer values and every list are unbounded here, as they are in Python.

## Model

| member | source | states |
|---|---|---|
| `Queue.Queue.constructor` | Queue.py:3-5 | a new queue keeps the given owner, is empty and has size 0 |
| `Queue.Queue.IsEmpty` | Queue.py:8-9 | true exactly when the queue holds no item, and exactly when its size is 0 |
| `Queue.Queue.Enqueue` | Queue.py:12-13 | the item goes to the back: the new contents are the old contents followed by the item, and the size grows by one (the owner is a constant field) |
| `Queue.Queue.Dequeue` | Queue.py:16-17 | on a non-empty queue, returns the front item and leaves the rest in order; the size drops by one |
| `Queue.Queue.Size` | Queue.py:20-21 | the number of items in the queue |
| `Queue.FrontFirstInsert` | Queue.py:12-13 | inserting at index 0 of the list appends to the back of the queue |
| `Queue.FrontFirstAt` | Queue.py:12-17 | the i-th item of the queue, front first, is the i-th item from the end of the list |
| `Queue.FifoOrder` | Queue.py:12-17 | enqueueing items into a fresh queue and dequeueing as many gives them back in the order enqueued |
| `Cards.RankOrder` | War.py:65-69 | rank comparison is comparison of values: `>` and `<` are converse strict total orders, and equal values mean equal ranks |
| `Cards.ProductCount` | War.py:84 | the product of distinct suits and distinct ranks holds each listed (suit, rank) pair exactly once and nothing else |
| `Cards.FullDeck` | War.py:84 | the ordered deck has 52 cards |
| `Cards.FullDeckIsShuffled` | War.py:84 | the ordered deck holds each of the 52 (suit, rank) combinations exactly once |
| `Cards.ShuffledPermutation` | War.py:84-85 | any two decks that hold every card once are permutations of each other, and any permutation of such a deck holds every card once |
| `Cards.ShuffledIsPermutation` | War.py:84-86 | the shuffled decks are exactly the permutations of the ordered deck |
| `Cards.ShuffledSize` | War.py:84-86 | a shuffled deck has 52 cards |
| `Rules.Judge` | War.py:175-186 | a tie exactly when the ranks are equal; the player takes the pot exactly when their rank is higher; the computer exactly when it is lower |
| `Rules.AddCards` | War.py:188-195 | the winner's hand becomes that hand followed by the whole pot in order; the other hand is unchanged |
| `Rules.WarPotOrder` | War.py:147-160 | a war adds six cards to the pot in the order player, computer, player, computer, player, computer |
| `Rules.PairsSnoc` | War.py:149-153 | each turn of the war loop appends the next card of the player, then of the computer, to the pot |
| `Rules.PairsCards` | War.py:147-160 | the cards turned up into the pot are exactly the cards taken from the front of the hands |
| `Rules.Wars` | War.py:137-178 | the number of wars fought is positive exactly when the compared pair ties and both hands hold three cards, and the wars never take more cards than a hand holds |
| `Rules.CompareConserves` | War.py:168-186 | resolving a comparison neither creates nor loses a card: the hands afterwards plus any pot left on the table equal the hands before plus the pot |
| `Rules.WarConserves` | War.py:130-166 | the same for a war, including a war lost for want of cards |
| `Rules.RoundConserves` | War.py:122-128 | after a round the hands and the pot on the table hold the cards the hands held before; after a won round the hands alone hold them and their total size is unchanged |
| `Rules.ComparePot` | War.py:168-186 | after k wars the pot is the starting pot followed by the first 3k cards of each hand, in turn-up order; the winner gets that pot at the back of the rest of their hand, and a lost game leaves the rest of both hands |
| `Rules.CompareDecides` | War.py:137-145 | the last face-up pair decides who wins the round; a lost game follows a tie of that pair, the loser holds fewer than three cards, and the player is the loser exactly when the player holds fewer than three |
| `Rules.RoundShape` | War.py:122-128 | a round takes the first 1 + 3k cards of each hand (k the number of wars), and they form the pot in the order they were turned up |
| `Rules.GameOverFacts` | War.py:137-145 | a round that ends the game leaves the loser with fewer than three cards and a pot of at least two cards on the table; the hands hold a part of the cards they held before, and together with that pot exactly those cards |
| `Rules.Deal` | War.py:100-111 | both hands get the same number of cards: half the deck, rounded down |
| `Rules.DealAt` | War.py:105-107 | the i-th card of the player's hand is the deck's (2i+1)-th card from the end and the i-th card of the computer's its (2i+2)-th |
| `Rules.DealOrder` | War.py:105-107 | the same for all positions at once |
| `Rules.KeptBack` | War.py:105 | dealing leaves at most one card in the deck |
| `Rules.DealCards` | War.py:100-111 | the two dealt hands and the card an odd deck keeps back are the cards of the deck |
| `Rules.DealShuffledDeck` | War.py:91-111 | dealing a shuffled deck gives each player 26 cards, between them every card of the deck, and leaves the deck empty |
| `Rules.SimulateConserves` | War.py:252-256 | a game that ends with an empty hand leaves every card with the other player; a game cut short keeps every card in the hands; a game lost for want of cards leaves the loser with fewer than three cards and the hands holding only cards they started with, but fewer of them, the rest being on the table |
| `Rules.WinnerHoldsDeck` | War.py:91-256 | a game dealt from a shuffled deck that ends with an empty hand ends with all 52 cards of the deck in the winner's hand |
| `Rules.RoundExample` | War.py:122-128 | a ten against a seven: the player puts both cards, their own first, at the back of their hand |
| `Rules.WarExample` | War.py:147-186 | a war won by the player's ace gives the player all eight cards in turn-up order |
| `Rules.ShortWarExample` | War.py:137-141 | a tie when the player has one card left loses the player the game, and the two tied cards stay on the table |
| `War.War.constructor` | War.py:91-93 | the game is built from a shuffled deck: two distinct fresh queues owned by the player and the computer, 26 cards each, every card of the deck between them, and the deck empty |
| `War.War.DealCards` | War.py:95-111 | the queues hold what `Deal` gives for the deck, with the right owners; the deck is left with the card an odd deck keeps back |
| `War.War.PopDeck` | War.py:106-107 | removes and returns the last card of the deck |
| `War.War.GetTopCards` | War.py:113-120 | returns the front card of each queue, the player's first, and removes exactly those two cards |
| `War.War.PlayRound` | War.py:122-128 | the outcome, the new queues and the pot are those `Rules.PlayRound` gives for the old queues |
| `War.War.WarRound` | War.py:130-166 | the outcome, the new queues and the final pot are those `Rules.WarRound` gives for the old queues and the pot |
| `War.War.CompareCards` | War.py:168-186 | the outcome, the new queues and the final pot are those `Rules.CompareCards` gives |
| `War.War.AddCards` | War.py:188-195 | the queues become `Rules.AddCards` of the old ones: the pot in order at the back of the winner's queue, the other queue untouched |
| `War.War.EmptyQueue` | War.py:236-250 | reports an empty hand exactly when either queue is empty; the player's is checked first, so the player is named whenever the player's queue is empty |
| `War.War.SimulateGame` | War.py:252-259 | the game ends where `Rules.Simulate` says it does for the starting queues and the fuel bound, with the queues it gives |

## Left out

- The console output is left out because it is presentation only: the printing and ANSI colouring, `Card.show`, `print_cards`, `print_war_cards`, `Suit.__str__`, `Rank.__str__` and the per-round card counts.
- `random.shuffle` is a call with randomness. The shuffled deck is a parameter of the `War.War` constructor, required to hold each of the 52 cards once, which is the same as being a permutation of `Cards.FullDeck` (`Cards.ShuffledIsPermutation`).
- `sys.exit()` ends the process when a player cannot go to war. It is modelled as a returned outcome instead: `GameOver(loser)` from a round, and `NoCardsForWar(loser)` from the game loop.
- `empty_queue` returns only a boolean. Its message names the owner of the empty queue, and the model returns that seat as a second result.
- `War.War.SimulateGame` has a fuel bound and stops with `FuelSpent` after that many rounds. The original loop has no bound, and a game of War can cycle, so termination of a whole game is not claimed.
- The pot list is shared between `compare_cards` and `war_round` and appended to in place. In the model it is a sequence value passed along and returned. Nothing outside a round reads the pot, so this is not observable.
- `Queue.Queue.Dequeue` requires a non-empty queue. In the original, `pop` on an empty list raises an error; every call site in the game first checks the size, or that the queue is non-empty.
- The unused `Card` class (War.py:72-76) is left out; cards are (suit, rank) pairs.
- The module-level `game = War(); game.simulate_game()` is left out because it is program start-up.
