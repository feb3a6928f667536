# Memory-matching card game engine, in Dafny

The app is a memory game. Cards are dealt in pairs showing the same picture.
The player turns up two cards at a time: a pair that matches stays matched, and
two cards that do not match are turned face-down again a second later. Clearing
every pair deals the next stage, with more pairs and less time. A countdown ends
the game when it reaches zero.

The engine exists in two drafts, and both are modelled here.

- `ViewModel.dfy` (module `ViewModel`) models the current engine,
  `CardMainScreenViewModel`.
  - The game state is a value that the class replaces on every transition.
  - Flipping and matching are pure functions over the card list (`Toggled`,
    `Matched`, `FlippedAll`).
  - The deal is `DealtCards`, and a click's effect is the function `Click`.
  - The methods of the class `CardMainScreenViewModel` mirror the program step
    by step. Their contracts tie the new state to those functions.
  - Lemmas give the functions their meaning. A deal has distinct ids, and
    every picked item appears on exactly two cards. A click on a card that
    cannot be played changes nothing. A second pick matches exactly the two
    cards or none. A mismatched turn is undone by its flip-back.
- `MainActivity.dfy` (module `MainActivity`) models the earlier draft.
  - Cards are heap objects with mutable flags, and the click handler writes
    card references into a copy of the list by index.
  - `MatchingGame` holds the composable's state: stage, clock, cards, selection
    and game-over flag.
- `KotlinStd.dfy` (module `KotlinStd`) holds the pieces of the Kotlin standard
  library that both drafts use: `minOf`, `maxOf`, `take`, `shuffled` and nullable
  values.

Work that the program defers with `delay` becomes a method that the caller
invokes later. Because that caller can pick any order, every interleaving of
clicks, ticks and deferred work is some sequence of calls:

| deferred work | method |
|---|---|
| end of the three-second preview | `FlipAllCards` |
| flip-back one second after a mismatch (current engine) | `RunFlipBack` |
| flip-back one second after a mismatch (draft) | `MatchingGame.OnFlipBack` |
| one-second tick | `DecreaseTime`, `MatchingGame.Tick` |

Coroutines on `viewModelScope` start on the immediate main dispatcher. So the
part of `startNewStage` before its delay runs inside the call that started it,
and `StartNewStage` models exactly that part.

A shuffle is random in the program. In the model it is a permutation that the
caller passes in: `order[i]` is the input position that lands at position `i`.
Every property is proved for every permutation.

What the model makes visible:

- **Stale flip-back in the current engine.** The deferred flip-back *toggles*
  both cards instead of turning them face-down. A flip-back that runs after one
  of its cards has already been turned down therefore turns it face-up again
  (`StaleFlipBackReveals`). The click guards keep a turn's two cards face-up
  until its flip-back runs, so only an extra end-of-preview flip can turn one
  down first: the one `onImageLoaded` schedules three seconds after the last
  image loads (CardMainScreenViewModel.kt:201-207). In the model that is a
  call of `FlipAllCards` between a mismatch and its `RunFlipBack`.
- **Colliding ids in the draft.** The draft's image list names the same drawable
  twelve times. The ids `resId * 2` and `resId * 2 + 1` are unique exactly when
  the resources are distinct (`LayoutIdsUniqueIff`), so in this deck they
  collide (`DraftIdsCollide`). Every card also shows the same image, so any two
  picks match.
- **What a collision does to the list.** With colliding ids, `indexOfFirst` can
  land on an earlier card. The click handler then writes the clicked card
  there: the clicked card sits at two positions, and the card it overwrote can
  drop out of the list (`CollidingIdDuplicatesCard`). With unique ids the write
  changes nothing (`UniqueIdsKeepList`).
- **Stale list in the draft.** A mismatch's continuation calls `onUpdate` with
  the list of its own turn and no selection (`MatchingGame.OnFlipBack`). The
  case a player can reach with distinct images is a first pick made during
  that second: the continuation clears the selection, but that card stays
  face-up and nothing turns it down again, so it can never be picked, never
  be matched, and the stage can no longer be cleared. The continuation also
  puts the old deck back if the stage changed in that second, but with
  unique ids that cannot happen: the turn's two cards are face-up and
  unmatched and stay so until the continuation runs.

## Model

| member | source | states |
|---|---|---|
| KotlinStd.MinOf | app/src/main/java/com/example/cardgame/presentation/component/CardMainScreenViewModel.kt:107 | `minOf`: the result is at most both arguments and is one of them |
| KotlinStd.MaxOf | app/src/main/java/com/example/cardgame/presentation/component/CardMainScreenViewModel.kt:133 | `maxOf`: the result is at least both arguments and is one of them |
| KotlinStd.Take | app/src/main/java/com/example/cardgame/presentation/component/CardMainScreenViewModel.kt:108 | `take(n)` gives a prefix of the list of length min(n, size) |
| KotlinStd.Shuffled | app/src/main/java/com/example/cardgame/presentation/component/CardMainScreenViewModel.kt:123 | `shuffled()` keeps the length; position i holds input element order[i] of a permutation |
| KotlinStd.ShuffledKeepsAll | app/src/main/java/com/example/cardgame/presentation/component/CardMainScreenViewModel.kt:123 | nothing is lost by a shuffle: every input element lands at some position |
| KotlinStd.PermutationCovers | app/src/main/java/com/example/cardgame/presentation/component/CardMainScreenViewModel.kt:123 | a permutation of 0..n-1 hits every position below n |
| KotlinStd.InjectiveBound | app/src/main/java/com/example/cardgame/presentation/component/CardMainScreenViewModel.kt:123 | pigeonhole: distinct values below m number at most m |
| ViewModel.PairsCount | app/src/main/java/com/example/cardgame/presentation/component/CardMainScreenViewModel.kt:107 | pairs per stage are at most 12, at least 5 from stage 1, and equal 12 exactly from stage 8 |
| ViewModel.PairsCountMonotone | app/src/main/java/com/example/cardgame/presentation/component/CardMainScreenViewModel.kt:107 | a later stage never deals fewer pairs |
| ViewModel.StageTime | app/src/main/java/com/example/cardgame/presentation/component/CardMainScreenViewModel.kt:133 | the stage's time is at least 30, at most 60 from stage 1, 60 at stage 1, and 30 exactly from stage 7 |
| ViewModel.StageTimeNonIncreasing | app/src/main/java/com/example/cardgame/presentation/component/CardMainScreenViewModel.kt:133 | a later stage never gets more time |
| ViewModel.Pairs | app/src/main/java/com/example/cardgame/presentation/component/CardMainScreenViewModel.kt:110-122 | k items become 2k cards |
| ViewModel.Picked | app/src/main/java/com/example/cardgame/presentation/component/CardMainScreenViewModel.kt:108 | min(pairsCount, list size) items are picked; item q is the list entry the shuffle moved to position q |
| ViewModel.DealtCards | app/src/main/java/com/example/cardgame/presentation/component/CardMainScreenViewModel.kt:107-123 | the deal has 2·min(pairsCount, list size) cards, all face-up and unmatched (DealtDeck gives the rest) |
| ViewModel.NewStage | app/src/main/java/com/example/cardgame/presentation/component/CardMainScreenViewModel.kt:126-132 | the state after a deal holds 2·min(pairsCount, list size) cards |
| ViewModel.NewStageOpensPlay | app/src/main/java/com/example/cardgame/presentation/component/CardMainScreenViewModel.kt:126-132 | a new stage's ids are unique, and it counts as all matched only when nothing was dealt |
| ViewModel.CardOf | app/src/main/java/com/example/cardgame/presentation/component/CardMainScreenViewModel.kt:112-121 | a dealt card carries its item's name and image, face-up and unmatched by the defaults at :29-30 (PairsAt states it per position) |
| ViewModel.AllMatched | app/src/main/java/com/example/cardgame/presentation/component/CardMainScreenViewModel.kt:192 | `cards.all { it.isMatched }` (used by CheckStageCompletion and ClearsStage) |
| ViewModel.Click | app/src/main/java/com/example/cardgame/presentation/component/CardMainScreenViewModel.kt:164-189 | ignored clicks leave the state as it was; a first pick happens iff nothing was pending and selects the clicked id; every second pick clears the selection; a mismatch names the pending id; stage, flags and deck size are kept |
| ViewModel.PairsAt | app/src/main/java/com/example/cardgame/presentation/component/CardMainScreenViewModel.kt:110-122 | before the shuffle, position m holds item m/2 with id m/2 (even m) or m/2 + pairsCount (odd m), face-up and unmatched |
| ViewModel.PairsUnique | app/src/main/java/com/example/cardgame/presentation/component/CardMainScreenViewModel.kt:110-122 | the ranges [0, k) and [pairsCount, pairsCount + k) give distinct ids when k ≤ pairsCount |
| ViewModel.ShuffledUnique | app/src/main/java/com/example/cardgame/presentation/component/CardMainScreenViewModel.kt:123 | shuffling keeps ids distinct |
| ViewModel.DealtDeck | app/src/main/java/com/example/cardgame/presentation/component/CardMainScreenViewModel.kt:107-123 | a deal has 2·min(pairsCount, list size) cards, all face-up and unmatched, with distinct ids; the ids are exactly q and q + pairsCount for the k picked items, and both show item q |
| ViewModel.DealtIdsPresent | app/src/main/java/com/example/cardgame/presentation/component/CardMainScreenViewModel.kt:110-123 | both ids q and q + pairsCount of every picked item are on the dealt deck |
| ViewModel.SameItemIffPartners | app/src/main/java/com/example/cardgame/presentation/component/CardMainScreenViewModel.kt:110-123 | for a list of distinct items, two dealt cards show the same name and image iff their ids pair up: each item is on exactly two cards |
| ViewModel.FlippedAll | app/src/main/java/com/example/cardgame/presentation/component/CardMainScreenViewModel.kt:142 | every card face-down; count, ids, items and matched flags unchanged |
| ViewModel.FlippedAllIdempotent | app/src/main/java/com/example/cardgame/presentation/component/CardMainScreenViewModel.kt:142 | turning all cards down twice is the same as once |
| ViewModel.Toggled | app/src/main/java/com/example/cardgame/presentation/component/CardMainScreenViewModel.kt:148-150 | a card's face changes iff it has the given id; identities and matched flags are unchanged |
| ViewModel.ToggledTwice | app/src/main/java/com/example/cardgame/presentation/component/CardMainScreenViewModel.kt:149 | toggling an id twice restores the list |
| ViewModel.ToggledCommute | app/src/main/java/com/example/cardgame/presentation/component/CardMainScreenViewModel.kt:182-183 | toggles of two ids commute |
| ViewModel.Matched | app/src/main/java/com/example/cardgame/presentation/component/CardMainScreenViewModel.kt:155-160 | a card is matched afterwards iff it was matched before or has id a or b; faces and identities unchanged |
| ViewModel.FindCard | app/src/main/java/com/example/cardgame/presentation/component/CardMainScreenViewModel.kt:165 | `find`: nothing iff no card has the id; otherwise the card at the first position holding the id |
| ViewModel.FindUnique | app/src/main/java/com/example/cardgame/presentation/component/CardMainScreenViewModel.kt:174 | with unique ids, `find` returns the card holding the id |
| ViewModel.ClickChangesIffPlayable | app/src/main/java/com/example/cardgame/presentation/component/CardMainScreenViewModel.kt:165-166 | with unique ids, a click leaves the state unchanged and is ignored iff no face-down, unmatched card has the id (unknown, matched or face-up) |
| ViewModel.ClickKeepsDeck | app/src/main/java/com/example/cardgame/presentation/component/CardMainScreenViewModel.kt:164-189 | a click keeps the stage, the game-over and preview flags, the card count and identities, and never unmatches a card |
| ViewModel.FirstPickLaw | app/src/main/java/com/example/cardgame/presentation/component/CardMainScreenViewModel.kt:168-172 | first pick: the card turns face-up, its id becomes the selection, no other card changes |
| ViewModel.SecondPickLaw | app/src/main/java/com/example/cardgame/presentation/component/CardMainScreenViewModel.kt:173-188 | second pick: the selection is cleared and the card is face-up; same image: exactly the two cards become matched, all others unchanged; different image: no matched flag changes and a flip-back of the pair is scheduled |
| ViewModel.MatchingTurn | app/src/main/java/com/example/cardgame/presentation/component/CardMainScreenViewModel.kt:176-177 | two clicks on different cards with the same image leave both matched and no selection |
| ViewModel.MismatchedTurnRestores | app/src/main/java/com/example/cardgame/presentation/component/CardMainScreenViewModel.kt:179-185 | two clicks on cards with different images match nothing, and the scheduled flip-back restores the deck exactly |
| ViewModel.FlipBackCards | app/src/main/java/com/example/cardgame/presentation/component/CardMainScreenViewModel.kt:182-183 | the flip-back keeps the count, identities and matched flags |
| ViewModel.StaleFlipBackReveals | app/src/main/java/com/example/cardgame/presentation/component/CardMainScreenViewModel.kt:180-184 | a flip-back that finds its first card already face-down turns it face-up |
| ViewModel.StageClearDealsNext | app/src/main/java/com/example/cardgame/presentation/component/CardMainScreenViewModel.kt:191-195 | only a second pick can clear a stage; the next deal has stage + 1, no selection, game not over, the preview on, and every card face-up and unmatched |
| ViewModel.CardMainScreenViewModel.constructor | app/src/main/java/com/example/cardgame/presentation/component/CardMainScreenViewModel.kt:45-60 | initial state: default `GameState`, 60 seconds, the delivered list |
| ViewModel.CardMainScreenViewModel.DecreaseTime | app/src/main/java/com/example/cardgame/presentation/component/CardMainScreenViewModel.kt:67-72 | the clock drops by exactly one; game over is set iff it is now exactly zero (or already set); nothing else changes |
| ViewModel.CardMainScreenViewModel.SetGameOver | app/src/main/java/com/example/cardgame/presentation/component/CardMainScreenViewModel.kt:74-78 | only the game-over flag changes, to true |
| ViewModel.CardMainScreenViewModel.StartNewStage | app/src/main/java/com/example/cardgame/presentation/component/CardMainScreenViewModel.kt:105-133 | the state becomes the deal for the stage with no selection, game not over and the preview on; the clock is the stage's time; ids stay unique |
| ViewModel.CardMainScreenViewModel.FlipAllCards | app/src/main/java/com/example/cardgame/presentation/component/CardMainScreenViewModel.kt:139-145 | the preview ends and every card is face-down; nothing else changes |
| ViewModel.CardMainScreenViewModel.FlipCard | app/src/main/java/com/example/cardgame/presentation/component/CardMainScreenViewModel.kt:147-152 | only the cards with the id toggle; nothing else changes |
| ViewModel.CardMainScreenViewModel.MatchCards | app/src/main/java/com/example/cardgame/presentation/component/CardMainScreenViewModel.kt:154-162 | only the cards with the two ids become matched; nothing else changes |
| ViewModel.CardMainScreenViewModel.CheckStageCompletion | app/src/main/java/com/example/cardgame/presentation/component/CardMainScreenViewModel.kt:191-195 | all matched: the next stage is dealt with its time; otherwise nothing changes |
| ViewModel.CardMainScreenViewModel.HandleCardClick | app/src/main/java/com/example/cardgame/presentation/component/CardMainScreenViewModel.kt:164-189 | the new state is the click's result, or the next stage's deal when the click cleared the stage; a flip-back is returned exactly for a mismatch |
| ViewModel.CardMainScreenViewModel.RunFlipBack | app/src/main/java/com/example/cardgame/presentation/component/CardMainScreenViewModel.kt:180-184 | the deferred flip-back toggles the two cards of its turn in the current deck; nothing else changes |
| ViewModel.CardMainScreenViewModel.OnCardClick | app/src/main/java/com/example/cardgame/presentation/component/CardItem.kt:61 | clicks are ignored while the preview shows every card, and (CardMainScreen.kt:159) once the game is over: nothing changes; otherwise the state, clock, image count and returned flip-back are those `HandleCardClick` gives: the click's result, or the next stage's deal with its time when the click cleared the stage |
| MainActivity.Card.constructor | app/src/main/java/com/example/cardgame/presentation/mainActivity/MainActivity.kt:41 | a new card is face-down and unmatched |
| MainActivity.DraftPairsCount | app/src/main/java/com/example/cardgame/presentation/mainActivity/MainActivity.kt:65 | twelve pairs at every stage from 1; never more than twelve |
| MainActivity.DraftStageTime | app/src/main/java/com/example/cardgame/presentation/mainActivity/MainActivity.kt:111 | time after a cleared stage is at least 10, at most 60, and 10 exactly from stage 11 |
| MainActivity.DraftResources | app/src/main/java/com/example/cardgame/presentation/mainActivity/MainActivity.kt:56-62 | twelve resources, all the launcher background |
| MainActivity.Layout | app/src/main/java/com/example/cardgame/presentation/mainActivity/MainActivity.kt:68-72 | k resources become 2k cards |
| MainActivity.LayoutPair | app/src/main/java/com/example/cardgame/presentation/mainActivity/MainActivity.kt:68-72 | resource r gives the cards with ids 2r and 2r + 1, both showing r |
| MainActivity.LayoutIdsUniqueIff | app/src/main/java/com/example/cardgame/presentation/mainActivity/MainActivity.kt:68-72 | card ids are unique iff the resources are distinct |
| MainActivity.DraftDeck | app/src/main/java/com/example/cardgame/presentation/mainActivity/MainActivity.kt:55-74 | the deck has 2·min(pairsCount, 12) cards, all showing the launcher background |
| MainActivity.AllMatched | app/src/main/java/com/example/cardgame/presentation/mainActivity/MainActivity.kt:109 | `cards.all { it.isMatched }`, read from the card objects (used by OnUpdate) |
| MainActivity.DraftIdsCollide | app/src/main/java/com/example/cardgame/presentation/mainActivity/MainActivity.kt:55-74 | from stage 1 the deck has 24 cards, all showing the same image, and two of them share an id |
| MainActivity.CreateCards | app/src/main/java/com/example/cardgame/presentation/mainActivity/MainActivity.kt:55-74 | new, distinct card objects laid out as the shuffled deck, all face-down and unmatched |
| MainActivity.IndexOfFirst | app/src/main/java/com/example/cardgame/presentation/mainActivity/MainActivity.kt:178 | `indexOfFirst`: -1 iff no card has the id; otherwise the first position holding it |
| MainActivity.IndexOfOwnId | app/src/main/java/com/example/cardgame/presentation/mainActivity/MainActivity.kt:178 | with unique ids, a card's id is first found at its own position |
| MainActivity.Written | app/src/main/java/com/example/cardgame/presentation/mainActivity/MainActivity.kt:177-183 | writing the clicked card back keeps the list's length and the id at every position |
| MainActivity.UniqueIdsKeepList | app/src/main/java/com/example/cardgame/presentation/mainActivity/MainActivity.kt:177-183 | with unique ids, the list after the write is the list before |
| MainActivity.CollidingIdDuplicatesCard | app/src/main/java/com/example/cardgame/presentation/mainActivity/MainActivity.kt:177-183 | when the id is first found elsewhere, the clicked card sits at two positions and a card held only at the overwritten position leaves the list |
| MainActivity.HandleCardClick | app/src/main/java/com/example/cardgame/presentation/mainActivity/MainActivity.kt:169-209 | a matched or face-up card: no update and no flag changes; otherwise the card turns face-up and the written list is reported; first pick: it becomes the selection and nothing else changes; same image: it and the card at the first pick's id become matched, nothing else changes, no selection; different image: no selection, no matched flag changes, and the flip-back is returned |
| MainActivity.FlipBackCards | app/src/main/java/com/example/cardgame/presentation/mainActivity/MainActivity.kt:200-204 | the card at the clicked position and the card at the first pick's id end face-down; matched flags and all other cards unchanged |
| MainActivity.MatchingGame.constructor | app/src/main/java/com/example/cardgame/presentation/mainActivity/MainActivity.kt:78-82 | stage 1, 60 seconds, a fresh face-down deck, no selection, game not over |
| MainActivity.MatchingGame.OnUpdate | app/src/main/java/com/example/cardgame/presentation/mainActivity/MainActivity.kt:106-115 | all cards of the given list matched: stage + 1, the new stage's time, a fresh face-down deck and no selection; otherwise the given list and selection are adopted |
| MainActivity.MatchingGame.OnCardClick | app/src/main/java/com/example/cardgame/presentation/mainActivity/MainActivity.kt:104-116 | once the game is over, or for a matched or face-up card, a click changes nothing; otherwise the card is face-up and either the written list is adopted with the card as the new selection (first pick) or none (second pick), or, exactly when every card of the written list is matched afterwards, the stage clears to stage + 1 with its time and a new deck of fresh, face-down, unmatched cards; first pick: no other flag changes; same image: the card and the card at the first pick's id in the written list become matched and no other flag changes; different image: no matched flag changes, no other card changes, and the flip-back of the written list, the card's position and the first pick's id is returned |
| MainActivity.MatchingGame.OnFlipBack | app/src/main/java/com/example/cardgame/presentation/mainActivity/MainActivity.kt:200-206 | both cards end face-down with their matched flags kept and no other card changed; if the turn's list is all matched, stage + 1 is dealt with its time and no selection; otherwise the game adopts the turn's list with no selection, whatever happened since |
| MainActivity.MatchingGame.Tick | app/src/main/java/com/example/cardgame/presentation/mainActivity/MainActivity.kt:85-91 | the clock drops by one only while above zero and the game runs; game over exactly when it reaches zero |
| MainActivity.MatchingGame.RunTimer | app/src/main/java/com/example/cardgame/presentation/mainActivity/MainActivity.kt:84-92 | with no click in between, a running clock ends at zero with the game over |

## Left out

- Loading: the repository, the web API, the data transfer objects, their mappers and dependency injection. The view model's constructor takes the delivered list instead, and `isLoading` and `loadError` are not modelled.
- Rendering and animation (the card composables, the screens, the previews), apart from the two click guards that `OnCardClick` folds in.
- Real time. Coroutine delays and cancellation become explicit later calls. When a stage changes, `LaunchedEffect(stage)` restarts the draft's timer loop; here the caller simply goes on calling `Tick`.
- The countdown loop in CardMainScreen.kt:55-63 reads a `timeLeft` field that `GameState` does not have. Only `decreaseTime`, which that loop would call, is modelled.
- Randomness. `shuffled()` takes a permutation argument; no random generator is modelled.
- `calcDominantColor` (bitmap and palette library calls), plus `onImageLoaded`, `loadedImagesCount` and the logging around it.
- ViewModel.CardMainScreenViewModel.StartNewStage: requires `PairsCount(stage) >= 0`, that is, a stage above -5. Below that, `take` would throw. The program only deals stages from 1 up.
- MainActivity.CreateCards: requires `DraftPairsCount(stage) >= 0`, for the same reason.
- MainActivity.Layout: ids are unbounded integers. In the program `resId * 2` wraps at 32 bits for real resource ids. The wrap changes id values but not which ids are equal: for values below 2^31, 2a and 2b agree modulo 2^32 only when a = b.
