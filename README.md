# Coup backend engine, modelled in Dafny

This project models the game engine of a multiplayer Coup server: the cards, the
players' hands and coins, the deck, the game state that moves cards between deck,
hands and the public discard log, the action handlers ("cases") that settle each
action through a tree of prompts, the prompt primitives those handlers wait on,
the once-only timeout latch, the turn driver that offers and dispatches actions,
and the match lifecycle around one game.

The model follows the server code, not the printed rules of Coup. Every prompt a
handler would send to a socket becomes an input of the Dafny method: `Reply<T>` is
either `Answered(value)` or `TimedOut`, and the handler applies the code's own
default when the answer is missing. An exception thrown by the code is an
`Outcome` of `Fail(error)`. State already changed before the throw stays changed,
as it does in JavaScript.

Layout, one module per source file:

| file | module | source |
|---|---|---|
| errors.dfy | `Errors` | Option, Result, Outcome and the error cases |
| cards.dfy | `Cards` | `core/entities/Card.ts` |
| player.dfy | `Players` | `core/entities/Player.ts` |
| deck.dfy | `Decks` | `core/entities/Deck.ts` |
| gamestate.dfy | `Game` | `core/GameState.ts` |
| prompts.dfy | `Prompts` | `cases/PromptService.ts` |
| latch.dfy | `Latches` | `socket/utils/emitUtil.ts` |
| basecase.dfy | `BaseCases` | `cases/BaseCase.ts` |
| income.dfy, foreignaid.dfy, duke.dfy, captain.dfy, ambassador.dfy, assassin.dfy, coup.dfy | `IncomeCases` … `CoupCases` | `cases/*Case.ts` |
| match.dfy | `Matches` | `core/Match.ts` |
| driver.dfy | `Driver` | `namespaceEvents.ts` |

Player, Deck, GameState, Match, every case and the latch are classes whose methods
update their fields in place. Cards, profiles, prompt replies and the verdicts of
the handlers are datatypes.

The central invariant is card custody. `GameState.AllCards()` is the multiset made
of the deck, the hands of active and eliminated players, and the discard log
(`knownCards`). Every GameState operation keeps it unchanged. Each handler is
specified in two layers:
- a pure verdict function (for example `CaptainCases.StealVerdictOf`) states which
  branch of the decision tree the given answers lead to;
- a predicate on a `View` (acting player, one other player, deck and discard log)
  states what that branch does to hands and coins.

Lemmas then prove what each branch keeps, conserves or moves.

## Model

| member | source | states |
|---|---|---|
| Cards.Equals | coup-backend/src/core/entities/Card.ts:29-31 | equals compares uuids only, and a card is always equal to itself |
| Cards.EqualsIffSameUuid | coup-backend/src/core/entities/Card.ts:29-31 | equals holds exactly when the uuids agree, whatever the variants; it is reflexive and symmetric |
| Cards.EqualsIgnoresVariant | coup-backend/src/core/entities/Card.ts:29-31 | any two cards that share a uuid but not a variant are equal under equals and yet different cards |
| Cards.ToJSON | coup-backend/src/core/entities/Card.ts:38-43 | the JSON form holds exactly the uuid and the variant: reading it back gives the same card |
| Cards.ToJSONInjective | coup-backend/src/core/entities/Card.ts:38-43 | two cards have the same JSON form if and only if they are the same card |
| Cards.IdSupply.Fresh | coup-backend/src/core/entities/Card.ts:19 | every id handed out was never handed out before; the issued set grows by exactly that id |
| Cards.NewCard | coup-backend/src/core/entities/Card.ts:18-21 | a new card has the requested variant and a uuid no earlier card had |
| Players.IndexOfCard | coup-backend/src/core/entities/Player.ts:50 | findIndex: the first position holding the id, or -1 exactly when no card has it |
| Players.FindCard | coup-backend/src/core/entities/Player.ts:86-88 | find: some card of the hand with that id, or none exactly when the hand lacks the id |
| Players.FindAgreesWithIndex | coup-backend/src/core/entities/Player.ts:49-88 | find and findIndex agree on whether a hand holds an id |
| Players.IndexOfAppend | coup-backend/src/core/entities/Player.ts:66-68 | appending a card does not move the first position of an id already held |
| Players.RemoveAt | coup-backend/src/core/entities/Player.ts:56 | splice(i, 1): one element fewer, the others in order, and the removed element is the only one missing from the multiset |
| Players.Player.constructor | coup-backend/src/core/entities/Player.ts:32-40 | a new player holds exactly one card, a freshly issued Duke, and has 4 coins |
| Players.Player.RemoveCardByUUID | coup-backend/src/core/entities/Player.ts:49-58 | an absent id fails and leaves the hand alone; a held id returns the first card with it and removes only that card, the rest keeping their order |
| Players.Player.AddCard | coup-backend/src/core/entities/Player.ts:66-68 | the card is appended at the end of the hand |
| Players.Player.GetCardByUUID | coup-backend/src/core/entities/Player.ts:86-88 | the first held card with that id, or none exactly when no card has it |
| Players.Player.AddCoins | coup-backend/src/core/entities/Player.ts:95-97 | the balance rises by exactly the amount |
| Players.Player.RemoveCoins | coup-backend/src/core/entities/Player.ts:105-111 | more than the balance fails and changes nothing; otherwise the amount is subtracted; a non-negative balance stays non-negative |
| Players.Player.GetCoinsAmount | coup-backend/src/core/entities/Player.ts:118-120 | the current balance |
| Players.Player.GetPublicProfile | coup-backend/src/core/entities/Player.ts:127-139 | uuid, name, coins and the number of cards held |
| Players.ProfileHidesVariants | coup-backend/src/core/entities/Player.ts:127-139 | two players alike in uuid, name, coins and hand size have the same profile, whatever their cards |
| Decks.CopiesPerVariant | coup-backend/src/core/entities/Deck.ts:33 | three copies of each variant up to five players, four beyond; enough cards to deal two to each of up to ten players |
| Decks.Repeat | coup-backend/src/core/entities/Deck.ts:38-40 | the inner loop: exactly `count` copies of one variant |
| Decks.InitialCards | coup-backend/src/core/entities/Deck.ts:37-41 | the cards built in order: variant by variant in CARD_VARIANTS order, with consecutive fresh ids |
| Decks.InitialCardsDistinct | coup-backend/src/core/entities/Deck.ts:37-41 | no two built cards share a uuid |
| Decks.LayoutLength | coup-backend/src/core/entities/Deck.ts:37-41 | the build loop produces variants × copies cards |
| Decks.LayoutCount | coup-backend/src/core/entities/Deck.ts:37-41 | each listed variant appears exactly `copies` times, any other not at all |
| Decks.RepeatCount | coup-backend/src/core/entities/Deck.ts:38-40 | the inner loop adds `count` copies of its variant and none of another |
| Decks.InitialDeckSize | coup-backend/src/core/entities/Deck.ts:32-44 | 15 cards for at most five players, 20 otherwise; 15 for four players |
| Decks.InitialVariantCount | coup-backend/src/core/entities/Deck.ts:11-17 | each of the five variants appears exactly copiesPerVariant times |
| Decks.CardVariantsDistinct | coup-backend/src/core/entities/Deck.ts:11-17 | CARD_VARIANTS lists no variant twice |
| Decks.CardVariantsComplete | coup-backend/src/core/entities/Deck.ts:11-17 | CARD_VARIANTS lists every variant |
| Decks.VariantsOfPermutation | coup-backend/src/core/entities/Deck.ts:43 | reordering cards keeps how many of each variant there are |
| Decks.Swap | coup-backend/src/core/entities/Deck.ts:54-57 | the destructuring swap: positions i and j exchanged, every other position kept, the same multiset |
| Decks.BuildInitialCards | coup-backend/src/core/entities/Deck.ts:35-41 | the build loop yields exactly InitialCards, every card with a newly issued id |
| Decks.PushCopies | coup-backend/src/core/entities/Deck.ts:38-40 | the inner loop appends `copies` new cards of one variant, with consecutive fresh ids, and keeps what was there |
| Decks.Deck.constructor | coup-backend/src/core/entities/Deck.ts:32-44 | 5 × copies cards (copies 3 up to five players, 4 beyond), a permutation of the built cards, each variant copies times, all ids fresh |
| Decks.Deck.Shuffle | coup-backend/src/core/entities/Deck.ts:49-59 | the deck is a permutation of itself: same length, same multiset |
| Decks.Deck.Draw | coup-backend/src/core/entities/Deck.ts:66-70 | an empty deck fails and stays empty; otherwise the first card is returned and the deck becomes the rest |
| Decks.Deck.PushAndShuffle | coup-backend/src/core/entities/Deck.ts:77-80 | one card longer, a permutation of the old cards plus the new one |
| Decks.Deck.Push | coup-backend/src/core/entities/Deck.ts:87-89 | the card is appended at the bottom and the old order is kept |
| Decks.Deck.PlaceCardIntoDeckAndShuffle | coup-backend/src/core/entities/Deck.ts:96-99 | longer by the number of new cards, a permutation of the old cards followed by the new ones |
| Decks.Deck.Size | coup-backend/src/core/entities/Deck.ts:104-106 | the number of cards in the deck |
| Game.IndexOfPlayer | coup-backend/src/core/GameState.ts:138 | findIndex on uuids: the first seat with that uuid, or -1 exactly when no seat has it |
| Game.IndexOfMember | coup-backend/src/core/GameState.ts:138 | with unique uuids, looking up a seated player's uuid finds that player's seat |
| Game.JsRem | coup-backend/src/core/GameState.ts:77 | JavaScript `%`: the remainder has the sign of the dividend and is smaller than the divisor in size |
| Game.JsDivision | coup-backend/src/core/GameState.ts:77 | the truncated quotient and JsRem rebuild the dividend |
| Game.NextTurnIndex | coup-backend/src/core/GameState.ts:62-77 | with two or more players the index moves one seat on, wrapping to 0 after the last seat; with fewer it is kept |
| Game.TurnEvents | coup-backend/src/core/GameState.ts:62-85 | no event with no players, game end with one, a turn start with two or more |
| Game.AdvanceIsRotation | coup-backend/src/core/GameState.ts:77 | k turn changes from a seat move it k seats on, wrapping around the table |
| Game.TurnsCycle | coup-backend/src/core/GameState.ts:77 | N turn changes with N players and nobody leaving return the turn to where it started |
| Game.DrawKeepsCards | coup-backend/src/core/GameState.ts:88-92 | moving the deck's first card into a hand keeps the game's cards |
| Game.DiscardKeepsCards | coup-backend/src/core/GameState.ts:40-43 | moving a hand card to the end of the discard log keeps the game's cards |
| Game.ReturnKeepsCards | coup-backend/src/core/GameState.ts:112 | moving a hand card into the deck, in any order, keeps the game's cards |
| Game.ExchangeShape | coup-backend/src/core/GameState.ts:109-117 | a returned card and a redraw keep hand and deck sizes; the new card is a deck card or the returned one; hand and deck together hold the same cards |
| Game.Dealt | coup-backend/src/core/GameState.ts:184-187 | after the deal, player k's hand is the old hand followed by deck cards 2k and 2k + 1 |
| Game.DealKeepsCards | coup-backend/src/core/GameState.ts:175-190 | the deal moves cards from the front of the deck into the hands and loses none |
| Game.GameState.constructor | coup-backend/src/core/GameState.ts:32-38 | the given players, nobody eliminated, an empty log, turn index 0, and a deck sized for that many players with each variant equally often |
| Game.GameState.GetCurrentTurnPlayer | coup-backend/src/core/GameState.ts:192-194 | the player at the turn index, or none when the index is out of range |
| Game.GameState.GetPlayerByUUID | coup-backend/src/core/GameState.ts:215-217 | the first active player with that uuid, or none exactly when no active player has it |
| Game.GameState.GetPlayersCount | coup-backend/src/namespaceEvents.ts:46 | the number of active players |
| Game.GameState.EliminatePlayer | coup-backend/src/core/GameState.ts:129-153 | an unknown uuid changes nothing; otherwise the player moves from the active list to the end of the eliminated list and the turn index drops by one, unconditionally; no card is lost |
| Game.GameState.EliminationKeeps | coup-backend/src/core/GameState.ts:142 | moving a player between the lists keeps who is listed and every hand |
| Game.GameState.EliminationValid | coup-backend/src/core/GameState.ts:129-142 | after an elimination the player lists stay duplicate-free and the game's cards are the same |
| Game.GameState.DiscardPlayerCard | coup-backend/src/core/GameState.ts:40-52 | an id the hand lacks fails and nothing changes; otherwise that card moves to the end of the discard log, and a player left with no card is eliminated; no card is lost |
| Game.GameState.LogDiscard | coup-backend/src/core/GameState.ts:40-43 | the card leaves the hand, the others keeping their order, and is appended to the log |
| Game.GameState.DiscardPlayerCardAndAddToDeck | coup-backend/src/cases/DukeCase.ts:49 | taken to remove the card from the hand and push-and-shuffle it into the deck; an absent id fails and changes nothing |
| Game.GameState.DrawCardForPlayer | coup-backend/src/core/GameState.ts:88-107 | an empty deck fails and nothing moves; otherwise the deck's first card goes to the end of the hand |
| Game.GameState.PlaceCardIntoDeck | coup-backend/src/core/GameState.ts:119-127 | the deck becomes a permutation of the old deck plus the card |
| Game.GameState.PlaceCardIntoDeckAndReceiveAnother | coup-backend/src/core/GameState.ts:109-117 | an absent id fails and nothing changes; otherwise the card goes into the deck before the draw and the hand draws one back: hand and deck sizes are kept and no card is lost |
| Game.GameState.ReturnCard | coup-backend/src/core/GameState.ts:112 | the card leaves the hand and the deck becomes a permutation of the old deck plus it |
| Game.GameState.GoToNextTurn | coup-backend/src/core/GameState.ts:62-86 | the turn index becomes NextTurnIndex and the events of TurnEvents are logged |
| Game.GameState.RemovePlayer | coup-backend/src/core/GameState.ts:156-173 | an empty table fails; otherwise the seat with that uuid (the last seat for an unknown uuid) leaves; removing the turn player steps the index back and advances the turn, other removals keep the index |
| Game.GameState.TurnAfterLeaving | coup-backend/src/core/GameState.ts:164-169 | the index steps back one seat and goToNextTurn runs from there |
| Game.GameState.Splice | coup-backend/src/core/GameState.ts:159 | the seat is removed and only its cards leave the game |
| Game.GameState.StartGame | coup-backend/src/core/GameState.ts:54-60 | the initial hands are dealt as DealtInitialHands says; no card is lost and no balance changes |
| Game.GameState.DealInitialHands | coup-backend/src/core/GameState.ts:175-190 | fewer than two cards per player fails and deals nothing; otherwise every hand gains deck cards 2k, 2k + 1 and the deck loses its first 2 × players cards; no card is lost and no balance changes |
| Game.GameState.DealRounds | coup-backend/src/core/GameState.ts:184-187 | the forEach loop: seat k draws the deck's cards 2k and 2k + 1; eliminated players are untouched and no balance changes |
| Game.GameState.DealSeat | coup-backend/src/core/GameState.ts:184-187 | one iteration of the loop: seat i has drawn its two cards, later seats nothing yet; only seat i's hand and the deck may change |
| Game.GameState.DealTwo | coup-backend/src/core/GameState.ts:185-186 | one seat draws the deck's first two cards and nobody else changes |
| Game.GameState.DealtKeepsCards | coup-backend/src/core/GameState.ts:175-190 | after the deal the game holds the same cards as before it |
| Prompts.Settle | coup-backend/src/cases/PromptService.ts:92-98 | the first of the reply and the timer settles the promise: a reply gives its value, the timer gives a timeout, nothing settles without a signal |
| Prompts.SettleIgnoresLater | coup-backend/src/cases/PromptService.ts:92-98 | signals after the first do not change what the promise settled on |
| Prompts.WaitForResponse | coup-backend/src/cases/PromptService.ts:87-99 | the reply when there is one, the default value on a timeout |
| Prompts.WaitSettlesOnce | coup-backend/src/cases/PromptService.ts:87-99 | whatever follows, the wait settles on the first signal: the default after a timer, the value after a reply |
| Prompts.AskSingleCard | coup-backend/src/cases/PromptService.ts:108-123 | an empty hand throws (no first option); a timeout picks the first card's uuid; an answer is taken as given |
| Prompts.SingleCardDefaultHeld | coup-backend/src/cases/PromptService.ts:118 | on a timeout the picked id is the first card of the hand |
| Prompts.AskTwoCards | coup-backend/src/cases/PromptService.ts:131-160 | an answer of two or more ids gives its first two; otherwise the hand's first two uuids, and a hand of fewer than two throws |
| Prompts.ChallengePlayer | coup-backend/src/cases/PromptService.ts:169-182 | the answer, or pass on a timeout |
| Prompts.SilenceIsPass | coup-backend/src/cases/PromptService.ts:178 | a challenge nobody answers is never an accepted challenge |
| Prompts.PromptFallback | coup-backend/src/cases/PromptService.ts:251 | the given default, else the first option's value, else the empty string |
| Prompts.Prompt | coup-backend/src/cases/PromptService.ts:242-253 | the answer, or PromptFallback on a timeout |
| Prompts.PromptTimeoutIsAnOption | coup-backend/src/cases/PromptService.ts:251 | with no default and some option, a timeout yields one of the options |
| Prompts.ResolutionAt | coup-backend/src/cases/PromptService.ts:205-227 | the timer and a counted pass resolve to pass with an empty id; any other answer resolves to that answer with its responder's id |
| Prompts.ChallengeOthers | coup-backend/src/cases/PromptService.ts:192-230 | the tally loop resolves at the first decisive event (a non-pass from someone other than the sender, the pass that makes playersCount − 1, or the timer), and stays pending exactly when no event is decisive; a challenger is never the sender |
| Prompts.SettlesOnce | coup-backend/src/cases/PromptService.ts:205-227 | at most one event settles the window |
| Prompts.LaterEventsIgnored | coup-backend/src/cases/PromptService.ts:214-227 | events after the settling one change neither which event settled nor the resolution |
| Prompts.SettledBy | coup-backend/src/cases/PromptService.ts:217-225 | a pass resolution comes from the timer or the counted passes; a challenge comes from a non-pass answer of another player |
| Prompts.LonePlayerWaitsForTimer | coup-backend/src/cases/PromptService.ts:219 | with one player, no pass can reach the count: only the timer or a challenge settles |
| Latches.TimeoutLatch.constructor | coup-backend/src/socket/utils/emitUtil.ts:28-34 | not called, timer running, nothing run yet |
| Latches.TimeoutLatch.Invoke | coup-backend/src/socket/utils/emitUtil.ts:40-45 | the first trigger runs onSuccess with its arguments and clears the timer; a later call does nothing |
| Latches.TimeoutLatch.TimerFires | coup-backend/src/socket/utils/emitUtil.ts:34-38 | the timer runs onTimeout only when nothing ran before; otherwise it does nothing |
| Latches.Effects | coup-backend/src/socket/utils/emitUtil.ts:28-46 | at most one callback runs, and one runs exactly when some trigger happened |
| Latches.RunLatch | coup-backend/src/socket/utils/emitUtil.ts:28-46 | driving the latch object with a trigger sequence runs exactly the callbacks Effects names |
| Latches.ExactlyOneAfterTimer | coup-backend/src/socket/utils/emitUtil.ts:34-38 | once the timer has fired, exactly one callback has run |
| Latches.LaterTriggersIgnored | coup-backend/src/socket/utils/emitUtil.ts:35-41 | triggers after the first change nothing |
| Latches.SuccessGetsArguments | coup-backend/src/socket/utils/emitUtil.ts:44 | when onSuccess ran, it ran with the first call's arguments |
| BaseCases.DefaultRule | coup-backend/src/cases/BaseCase.ts:26-28 | no turn player throws; otherwise an action is offered exactly when the turn player has fewer than 10 coins |
| BaseCases.BaseCase.constructor | coup-backend/src/cases/BaseCase.ts:15-20 | keeps the name and the game, and fixes the current player as the turn player at construction |
| BaseCases.BaseCase.GetCaseName | coup-backend/src/cases/BaseCase.ts:22-24 | the name given at construction |
| BaseCases.BaseCase.CanExecute | coup-backend/src/cases/BaseCase.ts:26-28 | throws with no turn player, else true exactly when the turn player has fewer than 10 coins |
| BaseCases.BaseCase.RunCase | coup-backend/src/cases/BaseCase.ts:30-32 | always fails as not implemented, naming the case |
| BaseCases.BaseCase.FinishTurn | coup-backend/src/cases/BaseCase.ts:37-43 | the turn advances exactly once: goToNextTurn's index and events, then one next-turn signal |
| BaseCases.FinishedCount | coup-backend/src/cases/BaseCase.ts:37-43 | finishTurn adds exactly one finished turn to the log |
| BaseCases.ChosenCard | coup-backend/src/cases/utils.ts:10-37 | askPlayerToChooseCard then getCardByUUID: an empty hand throws; an id the hand lacks throws; otherwise the position of the picked card, the first card on a timeout |
| BaseCases.Discard | coup-backend/src/core/GameState.ts:40-52 | discardPlayerCard as the handlers call it, with its failure and its elimination |
| BaseCases.Redraw | coup-backend/src/core/GameState.ts:109-117 | placeCardIntoDeckAndReceiveAnother as the handlers call it |
| BaseCases.Recycle | coup-backend/src/cases/DukeCase.ts:49 | discardPlayerCardAndAddToDeck as the handlers call it |
| BaseCases.LoseCard | coup-backend/src/cases/AssassinCase.ts:117-123 | the player picks a card and discards it; a failed pick changes nothing |
| BaseCases.TurnsFinished | coup-backend/src/cases/BaseCase.ts:37-43 | a handler that ran to its end finishes one turn, one that threw finishes none |
| BaseCases.Opponents | coup-backend/src/cases/CoupCase.ts:36-39 | the uuids of the active players other than the current one, and no more |
| BaseCases.OwnRedrawKeepsCards | coup-backend/src/core/GameState.ts:109-117 | the acting player's redraw keeps the view's cards |
| BaseCases.OwnDiscardKeepsCards | coup-backend/src/core/GameState.ts:40-43 | the acting player's discard keeps the view's cards |
| BaseCases.RedrawKeepsCards | coup-backend/src/core/GameState.ts:109-117 | the other player's redraw keeps the view's cards |
| BaseCases.OtherDiscardKeepsCards | coup-backend/src/core/GameState.ts:40-43 | the other player's discard keeps the view's cards |
| BaseCases.OtherDiscardsAllKeepsCards | coup-backend/src/cases/AssassinCase.ts:182-188 | discarding the other player's whole hand keeps the view's cards |
| BaseCases.TargetDiscardKeepsCards | coup-backend/src/core/GameState.ts:40-43 | the target's discard, from the claimant's own hand when the claimant is the target, keeps the view's cards and takes exactly one card from that hand |
| BaseCases.TargetDiscardsAllKeepsCards | coup-backend/src/cases/AssassinCase.ts:182-188 | discarding the target's whole hand, the claimant's own when the claimant is the target, keeps the view's cards |
| BaseCases.LoseThenRedrawKeepsCards | coup-backend/src/cases/AssassinCase.ts:165-173 | a claimant who is their own target and loses a card, then returns a shown card, keeps the view's cards and ends one card short, whether or not the return throws |
| BaseCases.LoseThenTargetRedraw | coup-backend/src/cases/AssassinCase.ts:165-173 | an upheld block is the claimant's loss followed by the target's redraw; it throws exactly when a claimant who is their own target gave up the very card they showed |
| IncomeCases.IncomeCase.constructor | coup-backend/src/cases/BaseCase.ts:15-20 | IncomeCase takes BaseCase's constructor: name, game and current player |
| IncomeCases.IncomeCase.GetIncome | coup-backend/src/cases/IncomeCase.ts:5-9 | the current player gains exactly one coin, nobody else's coins change, no card moves, and the turn is finished once |
| IncomeCases.IncomeCase.GiveIncome | coup-backend/src/cases/IncomeCase.ts:11-17 | exactly one coin for the player |
| ForeignAidCases.AidVerdictOf | coup-backend/src/cases/ForeignAidCase.ts:15-81 | no block pays; an unknown blocker throws; otherwise the counter-challenge decides: passing lets the block stand, a shown non-Duke is a caught bluff, a shown Duke costs the current player a card |
| ForeignAidCases.CounterVerdict | coup-backend/src/cases/ForeignAidCase.ts:40-53 | the block stands exactly when the current player does not challenge it |
| ForeignAidCases.DukeChallengeVerdict | coup-backend/src/cases/ForeignAidCase.ts:55-81 | the revealed card decides: not a Duke, the bluff is caught; a Duke, the current player's loss follows |
| ForeignAidCases.DukeShownVerdict | coup-backend/src/cases/ForeignAidCase.ts:70-79 | after a real Duke the current player's chosen card is lost, or the pick throws |
| ForeignAidCases.AidOutcome | coup-backend/src/cases/ForeignAidCase.ts:15-38 | the handler fails exactly on the throwing verdicts |
| ForeignAidCases.AidPaidUnlessBlockHolds | coup-backend/src/cases/ForeignAidCase.ts:27-35 | the current player gains exactly two coins when nobody blocked or the block was a bluff, nothing otherwise |
| ForeignAidCases.AidKeepsCards | coup-backend/src/cases/ForeignAidCase.ts:62-79 | no branch adds or loses a card |
| ForeignAidCases.ForeignAidCase.constructor | coup-backend/src/cases/ForeignAidCase.ts:11-13 | the case named "Foreign Aid" on the given game |
| ForeignAidCases.ForeignAidCase.RunCase | coup-backend/src/cases/ForeignAidCase.ts:15-38 | looks the turn player up afresh, then does what AidVerdictOf's branch says to the current player and the blocker, and finishes the turn unless it threw |
| ForeignAidCases.ForeignAidCase.ContestAid | coup-backend/src/cases/ForeignAidCase.ts:40-43 | the blocker is looked up; a missing one throws before any change |
| ForeignAidCases.ForeignAidCase.SettleBlock | coup-backend/src/cases/ForeignAidCase.ts:29-37 | the block is settled and the turn finished unless it threw |
| ForeignAidCases.ForeignAidCase.TakeAid | coup-backend/src/cases/ForeignAidCase.ts:32-37 | two coins for the current player and one finished turn |
| ForeignAidCases.ForeignAidCase.ResolveDukeBlock | coup-backend/src/cases/ForeignAidCase.ts:40-53 | passing changes nothing; a challenge is settled as DukeChallengeVerdict says |
| ForeignAidCases.ForeignAidCase.ResolveChallengeToDuke | coup-backend/src/cases/ForeignAidCase.ts:55-81 | not a Duke: the blocker discards it and the current player gains two coins; a Duke: the current player discards a card, the blocker redraws, no coin moves |
| ForeignAidCases.ForeignAidCase.PayAfterBluff | coup-backend/src/cases/ForeignAidCase.ts:62-69 | the blocker discards the revealed card and the current player gains two coins |
| ForeignAidCases.ForeignAidCase.SwapRealDuke | coup-backend/src/cases/ForeignAidCase.ts:70-79 | the current player discards the chosen card, the blocker returns the Duke and draws a replacement |
| DukeCases.TaxVerdictOf | coup-backend/src/cases/DukeCase.ts:12-80 | no challenge pays; an unknown challenger throws; a shown non-Duke is a bluff; a shown Duke makes the challenger lose the card they pick |
| DukeCases.TaxOutcome | coup-backend/src/cases/DukeCase.ts:12-80 | the handler fails exactly on the throwing verdicts |
| DukeCases.TaxPaidUnlessBluff | coup-backend/src/cases/DukeCase.ts:18-26 | the claimant gains exactly three coins when unchallenged or proven, nothing otherwise; the challenger's coins never change |
| DukeCases.ProvenKeepsHandSize | coup-backend/src/cases/DukeCase.ts:69-73 | a proven claimant keeps their hand size: the shown Duke leaves, the built card arrives last |
| DukeCases.TaxStock | coup-backend/src/cases/DukeCase.ts:58-79 | the tax keeps the cards in play, except that a proven Duke adds exactly the newly built Assassin |
| DukeCases.DukeCase.constructor | coup-backend/src/cases/BaseCase.ts:15-20 | DukeCase takes BaseCase's constructor: name, game and current player, no challenger yet |
| DukeCases.DukeCase.Tax | coup-backend/src/cases/DukeCase.ts:12-27 | does what TaxVerdictOf's branch says to the claimant, the challenger and the deck, built Assassin included; the turn is not finished |
| DukeCases.DukeCase.HandleChallenge | coup-backend/src/cases/DukeCase.ts:29-80 | an unknown challenger throws before any change; a non-Duke goes back into the deck; a Duke costs the challenger a card, brings a new Assassin and pays three coins |
| DukeCases.DukeCase.ProveDuke | coup-backend/src/cases/DukeCase.ts:58-79 | the challenger's chosen card goes back into the deck, the claimant gets a new Assassin, returns the Duke and gains three coins |
| CaptainCases.CanSteal | coup-backend/src/cases/CaptainCase.ts:21-25 | offered exactly when some active player (the claimant included) has at least two coins and the turn player has fewer than 10 |
| CaptainCases.StealOptions | coup-backend/src/cases/CaptainCase.ts:113-116 | the uuids of the other active players with at least two coins, and no more |
| CaptainCases.StealTarget | coup-backend/src/cases/CaptainCase.ts:112-136 | no eligible target throws; an answer that names nobody active throws; otherwise the chosen player, the first eligible one on a timeout |
| CaptainCases.Claimed | coup-backend/src/cases/CaptainCase.ts:37-40 | the role a block claims: Captain for the Captain block, Ambassador for the other |
| CaptainCases.StealVerdictOf | coup-backend/src/cases/CaptainCase.ts:28-44 | which branch the target's answer and the reveals lead to: robbery, claim upheld or refuted, block conceded, upheld or refuted, or a throw |
| CaptainCases.ClaimVerdict | coup-backend/src/cases/CaptainCase.ts:83-99 | the revealed card decides: a Captain upholds the claim, anything else refutes it |
| CaptainCases.BlockVerdict | coup-backend/src/cases/CaptainCase.ts:52-81 | passing concedes the block; otherwise the revealed card matching the claimed role upholds it, a mismatch refutes it |
| CaptainCases.StealOutcome | coup-backend/src/cases/CaptainCase.ts:28-50 | the handler fails on the throwing verdicts and when an upheld claim meets a target short of two coins; a claimant who is their own target also fails when the card they showed went with the card they lost |
| CaptainCases.StealMovesCoins | coup-backend/src/cases/CaptainCase.ts:46-50 | coins only move from target to claimant, two at a time, and only on an accepted robbery or an upheld claim; their sum is kept; a claimant who robs themself ends with the purse they had |
| CaptainCases.StealKeepsCards | coup-backend/src/cases/CaptainCase.ts:52-107 | no branch adds or loses a card, whether or not the claimant is their own target |
| CaptainCases.SelfStealCostsClaimant | coup-backend/src/cases/CaptainCase.ts:28-107 | a claimant who names themself gains no coin, and loses exactly one card on any challenge, whoever wins it, and none otherwise |
| CaptainCases.UpheldClaimSteps | coup-backend/src/cases/CaptainCase.ts:90-95 | the target's loss followed by the swap and the robbery is the upheld-claim branch, with its outcome |
| CaptainCases.UpheldBlockSteps | coup-backend/src/cases/CaptainCase.ts:72-77 | the claimant's loss followed by the target's redraw is the upheld-block branch, with its outcome |
| CaptainCases.CaptainCase.constructor | coup-backend/src/cases/BaseCase.ts:15-20 | CaptainCase takes BaseCase's constructor: name, game and current player |
| CaptainCases.CaptainCase.CanExecute | coup-backend/src/cases/CaptainCase.ts:21-25 | CanSteal on this handler's game |
| CaptainCases.CaptainCase.PromptChooseTarget | coup-backend/src/cases/CaptainCase.ts:112-136 | records the player StealTarget names; a throw leaves the target as it was |
| CaptainCases.CaptainCase.StealTwoCoins | coup-backend/src/cases/CaptainCase.ts:28-44 | a missing target throws; otherwise the hands and coins change as the verdict's branch says and the turn is finished unless something threw; a failure leaves the claimant as they were, and only the claimant and the target can change |
| CaptainCases.CaptainCase.Settle | coup-backend/src/cases/CaptainCase.ts:31-43 | the defense is settled and the turn finished unless it threw |
| CaptainCases.CaptainCase.Respond | coup-backend/src/cases/CaptainCase.ts:33-41 | the dispatch on the target's answer, as StealVerdictOf says |
| CaptainCases.CaptainCase.DoRobbery | coup-backend/src/cases/CaptainCase.ts:46-50 | the target loses two coins and the claimant gains them; a short balance throws and moves nothing; a claimant robbing themself ends with the purse they had |
| CaptainCases.CaptainCase.HandleTargetDefense | coup-backend/src/cases/CaptainCase.ts:52-81 | a pass changes nothing; a real block costs the claimant a card and the target redraws; a fake block costs the target the shown card; no robbery either way |
| CaptainCases.CaptainCase.RefuteBlock | coup-backend/src/cases/CaptainCase.ts:78-80 | the target discards the card shown |
| CaptainCases.CaptainCase.UpholdBlock | coup-backend/src/cases/CaptainCase.ts:72-77 | the claimant discards the card they pick, and the target returns the shown card and draws another |
| CaptainCases.CaptainCase.RedrawTarget | coup-backend/src/cases/CaptainCase.ts:77 | the target returns the shown card and draws another; a card it no longer holds throws and moves nothing |
| CaptainCases.CaptainCase.HandleClaimChallenge | coup-backend/src/cases/CaptainCase.ts:83-99 | a shown Captain costs the target a card, the claimant redraws, and the robbery happens; anything else costs the claimant the shown card |
| CaptainCases.CaptainCase.RefuteClaim | coup-backend/src/cases/CaptainCase.ts:96-98 | the claimant discards the card shown |
| CaptainCases.CaptainCase.UpholdClaim | coup-backend/src/cases/CaptainCase.ts:90-95 | the target discards a card, then the claimant redraws and robs |
| CaptainCases.CaptainCase.SwapAndRob | coup-backend/src/cases/CaptainCase.ts:93-95 | the Captain goes back into the deck, a replacement is drawn, then the robbery; a claimant who lost that Captain as their own target throws before any coin moves |
| AmbassadorCases.Keep | coup-backend/src/cases/AmbassadorCase.ts:75-81 | the cards whose ids were kept, in hand order |
| AmbassadorCases.Returned | coup-backend/src/cases/AmbassadorCase.ts:75-81 | the cards whose ids were not kept, in hand order |
| AmbassadorCases.KeepMembers | coup-backend/src/cases/AmbassadorCase.ts:75-81 | a card stays exactly when it was in hand and its id was kept; it goes back exactly when it was in hand and not kept |
| AmbassadorCases.KeepAndReturnedSplit | coup-backend/src/cases/AmbassadorCase.ts:75-81 | the kept and the returned cards together are the whole hand |
| AmbassadorCases.SwapKeepsCount | coup-backend/src/cases/AmbassadorCase.ts:59-82 | the exchange keeps hand plus deck, as a multiset and in size |
| AmbassadorCases.ExchangeVerdictOf | coup-backend/src/cases/AmbassadorCase.ts:11-57 | no challenge exchanges; an unknown challenger throws; a shown non-Ambassador refutes the claim; a shown Ambassador costs the challenger a card and the exchange follows |
| AmbassadorCases.ExchangeOutcome | coup-backend/src/cases/AmbassadorCase.ts:59-66 | throwing verdicts fail; an exchange fails on a deck of fewer than two cards; a refuted claim passes |
| AmbassadorCases.ExchangeKeepsCards | coup-backend/src/cases/AmbassadorCase.ts:11-82 | no coin moves; no card is gained or lost, except that an exchange from a one-card deck loses exactly one |
| AmbassadorCases.SwapKeepsStock | coup-backend/src/cases/AmbassadorCase.ts:59-82 | the exchange keeps the view's cards unless the deck held exactly one card, which is then lost |
| AmbassadorCases.AmbassadorCase.constructor | coup-backend/src/cases/AmbassadorCase.ts:7-9 | the case named "Embassador" on the given game |
| AmbassadorCases.AmbassadorCase.RunCase | coup-backend/src/cases/AmbassadorCase.ts:11-30 | looks the turn player up afresh, then does what ExchangeVerdictOf's branch says and finishes the turn unless it threw |
| AmbassadorCases.AmbassadorCase.ExchangeAndFinish | coup-backend/src/cases/AmbassadorCase.ts:26-29 | the exchange, then one finished turn unless it threw |
| AmbassadorCases.AmbassadorCase.ContestExchange | coup-backend/src/cases/AmbassadorCase.ts:23-33 | the challenge branch, with the challenger as getPlayerByUUID finds them |
| AmbassadorCases.AmbassadorCase.SettleChallenge | coup-backend/src/cases/AmbassadorCase.ts:24-29 | the challenge, then one finished turn unless it threw |
| AmbassadorCases.AmbassadorCase.HandleChallenge | coup-backend/src/cases/AmbassadorCase.ts:32-57 | a shown non-Ambassador is discarded; a shown Ambassador costs the challenger a card, is swapped for a redraw, and the exchange runs |
| AmbassadorCases.AmbassadorCase.RefuteClaim | coup-backend/src/cases/AmbassadorCase.ts:42-46 | the claimant discards the card shown |
| AmbassadorCases.AmbassadorCase.UpholdClaim | coup-backend/src/cases/AmbassadorCase.ts:48-56 | the challenger discards a card, then the claimant redraws and exchanges |
| AmbassadorCases.AmbassadorCase.RedrawAndExchange | coup-backend/src/cases/AmbassadorCase.ts:54-56 | the Ambassador goes back for a replacement, then the exchange |
| AmbassadorCases.AmbassadorCase.PerformExchange | coup-backend/src/cases/AmbassadorCase.ts:59-82 | two cards from the front of the deck join the hand (a short deck throws after what was drawn); the hand keeps exactly the cards whose ids were chosen and the others are shuffled back |
| AmbassadorCases.AmbassadorCase.ReturnUnkept | coup-backend/src/cases/AmbassadorCase.ts:75-81 | the forEach loop: the hand becomes Keep and the deck gains exactly Returned |
| AmbassadorCases.AmbassadorCase.ReturnOne | coup-backend/src/cases/AmbassadorCase.ts:76-80 | one step of the loop: a kept card stays, another leaves the hand for the deck |
| AssassinCases.CanAssassinate | coup-backend/src/cases/AssassinCase.ts:20-22 | throws with no turn player; offered exactly when the turn player has at least 3 and fewer than 10 coins |
| AssassinCases.KillTarget | coup-backend/src/cases/AssassinCase.ts:75-93 | nobody else active throws (no first option); an answer naming nobody active throws; otherwise the chosen player, the first other player on a timeout |
| AssassinCases.KillVerdictOf | coup-backend/src/cases/AssassinCase.ts:36-50 | the target's answer, with ACCEPT as its default, leads to the kill, the claim challenge or the Condessa block, settled by the reveals |
| AssassinCases.BlockVerdict | coup-backend/src/cases/AssassinCase.ts:128-180 | an answer other than a challenge concedes the block; otherwise a shown Condessa upholds it and anything else refutes it |
| AssassinCases.ClaimVerdict | coup-backend/src/cases/AssassinCase.ts:194-208 | the claimant's shown card decides: an Assassin upholds the claim, anything else refutes it |
| AssassinCases.KillOutcome | coup-backend/src/cases/AssassinCase.ts:27-53 | the handler fails exactly on the throwing verdicts; a claimant who is their own target also fails after an upheld claim, and after an upheld block whose shown card went with the lost one |
| AssassinCases.KillKeepsCards | coup-backend/src/cases/AssassinCase.ts:117-208 | after the fee no coin moves and no branch adds or loses a card, whether or not the claimant is their own target |
| AssassinCases.KillCostsOneSide | coup-backend/src/cases/AssassinCase.ts:117-208 | with a target other than the claimant, only one side loses cards; the target loses on a kill or refuted block, everything on an upheld claim or refuted block; the claimant loses exactly on an upheld block or refuted claim |
| AssassinCases.SelfKillCostsClaimant | coup-backend/src/cases/AssassinCase.ts:117-208 | a claimant who targets themself loses cards exactly when the verdict is neither a throw nor a conceded block, and everything on a refuted block or an upheld claim |
| AssassinCases.UpheldBlockSteps | coup-backend/src/cases/AssassinCase.ts:165-173 | the claimant's loss followed by the target's redraw is the upheld-block branch, with its outcome |
| AssassinCases.AssassinCase.constructor | coup-backend/src/cases/AssassinCase.ts:16-18 | the case named "Kill" on the given game |
| AssassinCases.AssassinCase.CanExecute | coup-backend/src/cases/AssassinCase.ts:20-22 | CanAssassinate on this handler's game |
| AssassinCases.AssassinCase.RunCase | coup-backend/src/cases/AssassinCase.ts:27-53 | fewer than 3 coins throws; otherwise the 3 coins are paid before anything else and never refunded, then the verdict's branch and one finished turn unless something threw; only the claimant's balance and hand and the target's hand can change |
| AssassinCases.AssassinCase.PayAndAttempt | coup-backend/src/cases/AssassinCase.ts:30-52 | the fee is paid, then the attempt, even when the attempt throws; only the claimant and the target can change |
| AssassinCases.AssassinCase.Attempt | coup-backend/src/cases/AssassinCase.ts:33-52 | the target choice, the branch KillVerdictOf names and the end of the turn; coins unchanged; only the claimant's and the target's hands can change |
| AssassinCases.AssassinCase.PromptChooseTarget | coup-backend/src/cases/AssassinCase.ts:75-93 | records the player KillTarget names; a throw leaves the target as it was |
| AssassinCases.AssassinCase.Settle | coup-backend/src/cases/AssassinCase.ts:36-52 | the defense is settled and the turn finished unless it threw |
| AssassinCases.AssassinCase.Respond | coup-backend/src/cases/AssassinCase.ts:41-50 | the dispatch on the target's answer |
| AssassinCases.AssassinCase.ApplyAssassination | coup-backend/src/cases/AssassinCase.ts:117-123 | the target discards exactly the card they pick |
| AssassinCases.AssassinCase.HandleCondessaBlock | coup-backend/src/cases/AssassinCase.ts:128-154 | anything but a challenge leaves every card where it was; a challenge goes to the reveal |
| AssassinCases.AssassinCase.HandleBlockChallenge | coup-backend/src/cases/AssassinCase.ts:159-180 | a shown Condessa costs the claimant a card and the target redraws; anything else costs the target every card |
| AssassinCases.AssassinCase.UpholdBlock | coup-backend/src/cases/AssassinCase.ts:165-173 | the claimant discards the card they pick and the target returns the Condessa for a redraw |
| AssassinCases.AssassinCase.RedrawTarget | coup-backend/src/cases/AssassinCase.ts:173 | the target returns the shown card and draws another; a card it no longer holds throws and moves nothing |
| AssassinCases.AssassinCase.DiscardAllTargetPlayerCards | coup-backend/src/cases/AssassinCase.ts:182-188 | every card of the target, in hand order, goes to the end of the discard log and the target is left with none |
| AssassinCases.AssassinCase.DiscardFirst | coup-backend/src/cases/AssassinCase.ts:185-187 | one step of the loop: the next card goes from hand to log |
| AssassinCases.AssassinCase.HandleClaimChallenge | coup-backend/src/cases/AssassinCase.ts:194-208 | a shown Assassin costs the target every card and the claimant redraws; anything else costs the claimant the shown card |
| AssassinCases.AssassinCase.RefuteClaim | coup-backend/src/cases/AssassinCase.ts:206 | the claimant discards the card shown |
| AssassinCases.AssassinCase.UpholdClaim | coup-backend/src/cases/AssassinCase.ts:202-204 | the target discards every card and the claimant returns the Assassin for a redraw |
| AssassinCases.AssassinCase.SwapShown | coup-backend/src/cases/AssassinCase.ts:204 | the claimant returns the shown Assassin and draws another; when it is gone with their own hand, the call throws and moves nothing |
| CoupCases.CoupTarget | coup-backend/src/cases/CoupCase.ts:35-55 | on a timeout the first other active player, and a throw when there is none; an answer naming nobody active throws; otherwise the named player |
| CoupCases.CoupKeepsCards | coup-backend/src/cases/CoupCase.ts:22-28 | a Coup moves at most one card, from the target to the log, and seven coins leave the table; a claimant who coups themself loses that card from their own hand |
| CoupCases.CoupCase.constructor | coup-backend/src/cases/BaseCase.ts:15-20 | CoupCase takes BaseCase's constructor: name, game and current player, no target yet |
| CoupCases.CoupCase.Execute | coup-backend/src/cases/CoupCase.ts:8-33 | fewer than 7 coins throws; an unknown target throws before payment; otherwise exactly 7 coins are paid, the target discards the card they pick, the deck is untouched, and one turn is finished unless the pick failed; a failure leaves the claimant's balance and hand as they were, and only the claimant's balance and the target's hand can change |
| CoupCases.CoupCase.PromptChooseTarget | coup-backend/src/cases/CoupCase.ts:35-55 | records the player CoupTarget names; a throw leaves the target as it was |
| CoupCases.CoupCase.Strike | coup-backend/src/cases/CoupCase.ts:22-32 | seven coins paid, then the target's loss and the end of the turn |
| CoupCases.CoupCase.TakeCard | coup-backend/src/cases/CoupCase.ts:25-32 | the target discards the card they pick, and the turn is finished unless that failed |
| Matches.HostOf | coup-backend/src/core/Match.ts:35 | the first seat's uuid, or the empty string with no seat |
| Matches.Match.constructor | coup-backend/src/core/Match.ts:31-38 | not in progress, the first seat hosts, and the game is over the same players with a deck sized for them |
| Matches.Match.IsInProgress | coup-backend/src/core/Match.ts:117-119 | whether the match is in progress |
| Matches.Match.StartMatch | coup-backend/src/core/Match.ts:40-64 | in progress or fewer than four seats: nothing happens; otherwise the initial hands are dealt and the match is in progress exactly when the deal did not throw; no card is lost and no balance changes |
| Matches.Match.Deal | coup-backend/src/core/Match.ts:55-57 | the deal, and the in-progress flag set exactly when it succeeded; no balance changes |
| Matches.Match.MarkInProgress | coup-backend/src/core/Match.ts:57 | the flag is set exactly when the deal returned without throwing, and is otherwise left as it was |
| Matches.Match.AddPlayer | coup-backend/src/core/Match.ts:66-83 | the player takes the last seat whatever the match's state, the first seat hosts, and the newcomer's cards join the game's |
| Matches.Match.RemovePlayer | coup-backend/src/core/Match.ts:85-90 | the game drops the seat and the host becomes the first remaining seat, or the empty string; an empty table throws and keeps the host |
| Matches.Match.JoinValid | coup-backend/src/core/Match.ts:76 | a newcomer who is nobody already known keeps the seat lists duplicate-free |
| Matches.Match.JoinCards | coup-backend/src/core/Match.ts:76 | a new seat adds exactly its own cards to the game's |
| Driver.ActionRule | coup-backend/src/namespaceEvents.ts:67-68 | each action's canExecute: Kill needs 3 to 9 coins, Steal needs someone with two coins, the others fewer than 10 coins; an offered action always has a turn player under 10 coins |
| Driver.IndexOfName | coup-backend/src/namespaceEvents.ts:88 | the first registry entry with that name, or -1 exactly when there is none |
| Driver.Lookup | coup-backend/src/namespaceEvents.ts:88 | `cases[response]`: none exactly when no entry has the name, otherwise an entry's action |
| Driver.IndexOfNameIs | coup-backend/src/namespaceEvents.ts:88 | the first entry with a name is the one found for it |
| Driver.Put | coup-backend/src/namespaceEvents.ts:32-40 | one computed key: the new entry is present, at most one entry is added, no other entry appears, and the entries under other keys keep their places |
| Driver.Register | coup-backend/src/namespaceEvents.ts:32-40 | the object literal holds no more entries than were written, and only written ones |
| Driver.LookupPut | coup-backend/src/namespaceEvents.ts:32-40 | after a computed-key assignment, that key maps to the new action and every other key is unchanged |
| Driver.PutKeepsDistinct | coup-backend/src/namespaceEvents.ts:32-40 | the object literal never lists a key twice |
| Driver.RegisterIsObject | coup-backend/src/namespaceEvents.ts:32-40 | the registry has distinct names and maps each name to the last entry that gave it |
| Driver.Offered | coup-backend/src/namespaceEvents.ts:66-69 | the filtered option list is never longer than the registry |
| Driver.OfferedExactly | coup-backend/src/namespaceEvents.ts:66-69 | the option list throws exactly when some canExecute throws; otherwise it holds a name exactly when an entry of that name can execute |
| Driver.OfferedInOrder | coup-backend/src/namespaceEvents.ts:66-69 | filtering a registry in two parts gives the two filtered parts in order |
| Driver.OpenTurn | coup-backend/src/namespaceEvents.ts:66-70 | the turn opens exactly when every canExecute answers and there is a turn player, and then offers the filtered options |
| Driver.HandleTurn | coup-backend/src/namespaceEvents.ts:66-95 | with the opening kept from the turn's start and the game as it is when the answer arrives: a case is dispatched only when the answer names it and its canExecute holds at that moment; the driver waits exactly when the turn opened and no answer came; it crashes exactly when the opening threw or the second canExecute throws |
| Driver.RefusedExactly | coup-backend/src/namespaceEvents.ts:88-92 | an answer is refused exactly when the turn opened and the answer names no case or a case that cannot execute when the answer arrives |
| Driver.CrashesOnlyAtOpening | coup-backend/src/namespaceEvents.ts:66-90 | when no seat changed during the wait, the driver crashes exactly when a first canExecute or the turn player lookup throws |
| Driver.DispatchedWasOffered | coup-backend/src/namespaceEvents.ts:66-94 | when no seat changed during the wait, whatever is dispatched was among the offered options |
| Driver.OfferedIsDispatched | coup-backend/src/namespaceEvents.ts:66-94 | with distinct names and no seat changed during the wait, answering any offered option dispatches that option's action |
| Driver.RegistryDispatchesOffers | coup-backend/src/namespaceEvents.ts:32-94 | for the registry as built and no seat changed during the wait, answering any offered option dispatches it |

## Behaviour kept from the code

The code differs from the printed rules of Coup in several places. The model keeps
what the code does:
- A new player starts with one Duke and 4 coins (`core/entities/Player.ts:37-39`).
- `eliminatePlayer` lowers the turn index even when the eliminated seat comes after
  the turn player (`core/GameState.ts:140`).
- A `removePlayer` with an unknown uuid removes the last seat, since `splice(-1, 1)`
  takes the last element.
- A failed challenge to the Assassin claim discards every card of the target
  (`cases/AssassinCase.ts:202`).
- A disproven Captain or Ambassador block costs the target the shown card, and no
  robbery follows (`cases/CaptainCase.ts:78-80`).
- A proven Duke gives the claimant a newly built Assassin instead of a deck card
  (`cases/DukeCase.ts:69`). This is the one place where cards enter the game, and
  `DukeCases.TaxStock` states exactly that one card is added. The Duke handler also
  puts discarded cards back into the deck instead of the log, and it does not
  finish the turn.
- The Assassin's fee is paid before the target is chosen. It is lost even when no
  target can be chosen.
- `performExchange` draws twice before asking for the kept cards. With one card in
  the deck, the first draw succeeds and the second throws, so that card leaves the
  deck and is never returned to it. `AmbassadorCases.SwapKeepsStock` states this
  loss.
- The deck is sized when the match is built. Seats added later can make the deal
  fail with too few cards.
- The host is not updated when an elimination removes the first seat. Only
  addPlayer and removePlayer recompute it.
- Nothing checks a target answer against the options offered, so an Assassin,
  Captain or Coup claimant who answers with their own uuid is their own target
  (`BaseCases.SidesOf`). The Coup then costs them a card, the Captain's robbery
  moves their two coins out and back, and the Assassin's consequences fall on their
  own hand. When a claimant who is their own target has lost the card they showed,
  the later placeCardIntoDeckAndReceiveAnother throws (`AssassinCases.KillOutcome`,
  `CaptainCases.StealOutcome`).
- CoupCase does not override canExecute. At 10 coins or more no action is offered
  at all, so no Coup either.
- Only Assassin, Ambassador and Foreign Aid override runCase. Dispatching Duke,
  Income, Coup or Captain runs BaseCase's runCase, which throws "not implemented".
  The driver model records which action a name dispatches to; the case's own run
  method is modelled separately.

## Left out

- Socket.IO emission, broadcasts, logging, the internal event bus and the timers
  themselves. Prompt answers and timeouts are inputs; the `events` log records only
  turn start, game end, next turn and elimination.
- Randomness: `crypto.randomUUID` is a fresh-id supply (`Cards.IdSupply`). The
  random index of `shuffle` is any index in range, so the deck's order after a
  shuffle is specified only as a permutation.
- Concurrency between handlers, and handlers that keep running after the turn has
  moved on.
- `getCardsClone`: the JSON round trip is the identity on cards (`Cards.ToJSON`), so
  the clone is modelled as a copy of the hand.
- `cases/utils.ts` `askPlayerToChooseCard` is modelled with askSingleCard's
  semantics: a timeout picks the first card and an answer is taken as given.
- `constants/promptOptions.ts` is not part of this model. The challenge and pass
  option values are named constants whose exact strings are placeholders.
- `cases/Case.ts`, which ForeignAidCase extends, is not part of this model.
  ForeignAidCase is modelled on BaseCase.
- Helpers called but not defined in the modelled files carry stated assumptions.
  `getCards`, `getDeck` and `emitChallengeToPlayer` are defined neither in
  Player.ts and GameState.ts nor in BaseCase.ts and PromptService.ts, so as written
  those calls would throw a TypeError (in discardPlayerCard, after the card has
  reached the discard log). The model gives them their evident meaning instead:
  - `discardPlayerCardAndAddToDeck`: remove the card from the hand, then pushAndShuffle it;
  - `getCards` (GameState.ts:47, PromptService.ts:113,135): returns the player's hand;
  - `getDeck` (AmbassadorCase.ts:61,62,79): returns the game's deck;
  - `emitChallengeToPlayer` (CaptainCase.ts:57): resolves like challengePlayer, with PASS on a timeout;
  - `emitChallengeToOtherPlayers`: resolves like challengeOthers, and its result is the `window` input;
  - `emitPromptToPlayer`: answers, or falls back to the default option on a timeout;
  - `getPlayersCount`: the number of active players;
  - `getPublicProfile`: taken to be `publicProfile`;
  - `onceEverySocketExceptOne`: delivers each other player's answer once.
- Duke, Income, Coup and Captain declare no constructor, and the registry builds
  them with one argument. BaseCase's constructor then receives the game state as
  the name and crashes on `undefined`. The model gives these cases BaseCase's
  two-argument constructor, and the registry is modelled by name and action entries.
- Registry keys inherited from the object prototype (`cases["toString"]`) are not
  modelled. A lookup finds only the registered names.
- Prompt timeouts for the Assassin's and Coup's target choice use the first option.
  A table with nobody else to choose becomes a `NoTarget` or `PlayerNotFound` failure.
- Handler methods require that a challenger is not the acting player, since
  challengeOthers excludes the sender. A target is not restricted: see "Behaviour
  kept from the code".
- Matches.Match.AddPlayer: requires that the newcomer is not already known to the
  game and shares no uuid with a known player, because socket ids are unique.
- The handler contracts describe the acting player, one other player, the deck and
  the discard log (`BaseCases.View`). Every other player lies outside each handler's
  modifies clause, so their hand and balance do not change. Which list a player is
  in after a discard (active or eliminated) is stated only by `BaseCases.Discard`
  and `BaseCases.LoseCard`, which keep every player listed; the handler contracts
  do not restate it.
- AssassinCases.KillCostsOneSide: the target's loss is stated as implications
  (the kill and a refuted block take a card; only the kill, a refuted block or an
  upheld claim can), not as one if-and-only-if.
- Driver.HandleTurn: a function of the registry, the opening, the game and the
  answer, so it changes no state. The repeated prompt interval and the `MESSAGE`
  emitted on refusal are not modelled.
- Driver.DispatchedWasOffered, Driver.OfferedIsDispatched,
  Driver.RegistryDispatchesOffers and Driver.CrashesOnlyAtOpening hold only when
  the game the answer is checked against is the one the options were built from.
  The code does not guarantee this: a seat that disconnects during the wait is
  removed (namespaceEvents.ts:60-63) and keeps the turn index when it sat before
  the turn seat, so the second canExecute reads the next seat's balance. It can
  then refuse an offered case or dispatch one never offered. Such a change is
  allowed in `HandleTurn`, whose contract ties the dispatch to the game at answer
  time only.
- MAXIMUM_NUMBER_OF_PLAYERS is declared in Match.ts but never used, and the model
  does not use it either.
