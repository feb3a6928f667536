/** The current game engine, `CardMainScreenViewModel`.

    The view model owns one `GameState` value, which it replaces wholesale on
    every transition, and a separate countdown `timeLeft`. The card list is a
    value: flipping and matching compute a new list with `map`/`copy`.

    Delayed work is a later, explicit method call: the end of the three-second
    preview is `FlipAllCards`, the flip-back one second after a mismatch is
    `RunFlipBack`, and each one-second tick is `DecreaseTime`. Coroutines
    launched on `viewModelScope` run on the immediate main dispatcher, so the
    part of `startNewStage` before its `delay` runs at once, inside the call
    that launched it. */
module ViewModel {
  import opened KotlinStd

  /** An item delivered by the content source. */
  datatype Pokemon = Pokemon(name: string, imageUrl: string)

  datatype PokemonCard = PokemonCard(id: int, imageResId: string, name: string, isFlipped: bool, isMatched: bool)

  datatype GameState = GameState(
    cards: seq<PokemonCard>,
    firstSelectedCardId: Option<int>,
    stage: int,
    isGameOver: bool,
    allCardsRevealed: bool)

  /** The later work that a mismatched second pick schedules. */
  datatype PendingFlipBack = PendingFlipBack(firstId: int, secondId: int)

  const BasePairs := 4
  const MaxPairs := 12
  const BaseTime := 60
  const TimeStep := 5
  const MinTime := 30

  /** The state the view model starts with: stage 1, no cards. */
  const InitialState := GameState([], None, 1, false, true)

  // ---------------------------------------------------------------- dealing

  /** Pairs dealt at a stage: one more than the last stage, at most twelve. */
  function PairsCount(stage: int): (r: int)
    ensures r <= MaxPairs
    ensures stage >= 1 ==> r >= BasePairs + 1
    ensures r == MaxPairs <==> stage >= MaxPairs - BasePairs
  {
    MinOf(BasePairs + stage, MaxPairs)
  }

  lemma PairsCountMonotone(a: int, b: int)
    requires a <= b
    ensures PairsCount(a) <= PairsCount(b)
  {
  }

  /** Seconds on the clock at the start of a stage: five fewer per stage,
      never fewer than thirty. */
  function StageTime(stage: int): (r: int)
    ensures r >= MinTime
    ensures stage >= 1 ==> r <= BaseTime
    ensures r == MinTime <==> stage >= 7
    ensures stage == 1 ==> r == BaseTime
  {
    MaxOf(BaseTime - (stage - 1) * TimeStep, MinTime)
  }

  lemma StageTimeNonIncreasing(a: int, b: int)
    requires a <= b
    ensures StageTime(b) <= StageTime(a)
  {
  }

  /** A fresh card for an item; cards are dealt face-up and unmatched. */
  function CardOf(p: Pokemon, id: int): PokemonCard
  {
    PokemonCard(id, p.imageUrl, p.name, true, false)
  }

  /** Whether a card shows the given item. */
  predicate Shows(c: PokemonCard, p: Pokemon)
  {
    c.name == p.name && c.imageResId == p.imageUrl
  }

  /** The `flatMapIndexed` of the deal: the item at index q yields the card
      with id q followed by the card with id q + pairsCount. */
  function Pairs(picked: seq<Pokemon>, pairsCount: int): (r: seq<PokemonCard>)
    ensures |r| == 2 * |picked|
  {
    seq(2 * |picked|, i requires 0 <= i < 2 * |picked| =>
      CardOf(picked[i / 2], if i % 2 == 0 then i / 2 else i / 2 + pairsCount))
  }

  /** `pokemonList.shuffled().take(pairsCount)`. */
  function Picked(pokemonList: seq<Pokemon>, stage: int, listOrder: seq<nat>): (r: seq<Pokemon>)
    requires PairsCount(stage) >= 0
    requires IsPermutation(listOrder, |pokemonList|)
    ensures |r| == MinOf(PairsCount(stage), |pokemonList|)
    ensures forall q :: 0 <= q < |r| ==> r[q] == pokemonList[listOrder[q]]
  {
    Take(Shuffled(pokemonList, listOrder), PairsCount(stage))
  }

  /** The deck dealt for a stage: the picked items in pairs, shuffled. */
  function DealtCards(pokemonList: seq<Pokemon>, stage: int, listOrder: seq<nat>, deckOrder: seq<nat>): (r: seq<PokemonCard>)
    requires PairsCount(stage) >= 0
    requires IsPermutation(listOrder, |pokemonList|)
    requires IsPermutation(deckOrder, 2 * MinOf(PairsCount(stage), |pokemonList|))
    ensures |r| == 2 * MinOf(PairsCount(stage), |pokemonList|)
    ensures forall i :: 0 <= i < |r| ==> r[i].isFlipped && !r[i].isMatched
  {
    Shuffled(Pairs(Picked(pokemonList, stage, listOrder), PairsCount(stage)), deckOrder)
  }

  /** The whole state right after `startNewStage(stage)`. */
  function NewStage(pokemonList: seq<Pokemon>, stage: int, listOrder: seq<nat>, deckOrder: seq<nat>): (r: GameState)
    requires PairsCount(stage) >= 0
    requires IsPermutation(listOrder, |pokemonList|)
    requires IsPermutation(deckOrder, 2 * MinOf(PairsCount(stage), |pokemonList|))
    ensures |r.cards| == 2 * MinOf(PairsCount(stage), |pokemonList|)
  {
    GameState(DealtCards(pokemonList, stage, listOrder, deckOrder), None, stage, false, true)
  }

  /** No two cards share an id. */
  predicate UniqueIds(cards: seq<PokemonCard>)
  {
    forall i, j :: 0 <= i < |cards| && 0 <= j < |cards| && i != j ==> cards[i].id != cards[j].id
  }

  /** The item index a card id belongs to: ids q and q + pairsCount pair up. */
  function PairIndex(id: int, pairsCount: int): int
  {
    if id < pairsCount then id else id - pairsCount
  }

  /** Some card of the list has the id. */
  predicate HasId(cards: seq<PokemonCard>, id: int)
  {
    exists i :: 0 <= i < |cards| && cards[i].id == id
  }

  /** Before the shuffle, position m holds item m / 2, with id m / 2 when m
      is even and m / 2 + pairsCount when m is odd. */
  lemma PairsAt(picked: seq<Pokemon>, pairsCount: int, m: int)
    requires 0 <= m < 2 * |picked|
    ensures var c := Pairs(picked, pairsCount)[m];
      && c.id == (if m % 2 == 0 then m / 2 else m / 2 + pairsCount)
      && c.isFlipped && !c.isMatched
      && Shows(c, picked[m / 2])
  {
  }

  /** Before the shuffle, ids are distinct, because the two id ranges
      [0, k) and [pairsCount, pairsCount + k) do not overlap for k <= pairsCount. */
  lemma PairsUnique(picked: seq<Pokemon>, pairsCount: int)
    requires |picked| <= pairsCount
    ensures UniqueIds(Pairs(picked, pairsCount))
  {
    var built := Pairs(picked, pairsCount);
    forall m, n | 0 <= m < |built| && 0 <= n < |built| && m != n
      ensures built[m].id != built[n].id
    {
      PairsAt(picked, pairsCount, m);
      PairsAt(picked, pairsCount, n);
    }
  }

  /** A shuffle keeps ids distinct. */
  lemma ShuffledUnique(cards: seq<PokemonCard>, order: seq<nat>)
    requires IsPermutation(order, |cards|)
    requires UniqueIds(cards)
    ensures UniqueIds(Shuffled(cards, order))
  {
    var r := Shuffled(cards, order);
    forall i, j | 0 <= i < |r| && 0 <= j < |r| && i != j
      ensures r[i].id != r[j].id
    {
      assert r[i] == cards[order[i]] && r[j] == cards[order[j]];
      assert order[i] != order[j] by {
        if i < j {} else {}
      }
    }
  }

  /** What the deal promises: 2k cards for k = min(pairsCount, |pokemonList|)
      picked items, all face-up and unmatched, with distinct ids; the ids are
      exactly q and q + pairsCount for q < k, and both of them show item q. */
  lemma {:induction false} DealtDeck(pokemonList: seq<Pokemon>, stage: int, listOrder: seq<nat>, deckOrder: seq<nat>)
    requires PairsCount(stage) >= 0
    requires IsPermutation(listOrder, |pokemonList|)
    requires IsPermutation(deckOrder, 2 * MinOf(PairsCount(stage), |pokemonList|))
    ensures var deck, picked, p := DealtCards(pokemonList, stage, listOrder, deckOrder), Picked(pokemonList, stage, listOrder), PairsCount(stage);
      && |deck| == 2 * MinOf(p, |pokemonList|)
      && (forall i :: 0 <= i < |deck| ==> deck[i].isFlipped && !deck[i].isMatched)
      && UniqueIds(deck)
      && (forall i :: 0 <= i < |deck| ==>
            && (0 <= deck[i].id < |picked| || p <= deck[i].id < p + |picked|)
            && Shows(deck[i], picked[PairIndex(deck[i].id, p)]))
      && (forall id :: 0 <= id < |picked| ==> HasId(deck, id))
      && (forall id :: p <= id < p + |picked| ==> HasId(deck, id))
  {
    var picked, p := Picked(pokemonList, stage, listOrder), PairsCount(stage);
    var built := Pairs(picked, p);
    var deck := DealtCards(pokemonList, stage, listOrder, deckOrder);
    assert deck == Shuffled(built, deckOrder);
    PairsUnique(picked, p);
    ShuffledUnique(built, deckOrder);
    forall i | 0 <= i < |deck|
      ensures deck[i].isFlipped && !deck[i].isMatched
      ensures 0 <= deck[i].id < |picked| || p <= deck[i].id < p + |picked|
      ensures Shows(deck[i], picked[PairIndex(deck[i].id, p)])
    {
      assert deck[i] == built[deckOrder[i]];
      PairsAt(picked, p, deckOrder[i]);
    }
    DealtIdsPresent(pokemonList, stage, listOrder, deckOrder);
  }

  /** Both ids of every picked item are on the dealt deck. */
  lemma DealtIdsPresent(pokemonList: seq<Pokemon>, stage: int, listOrder: seq<nat>, deckOrder: seq<nat>)
    requires PairsCount(stage) >= 0
    requires IsPermutation(listOrder, |pokemonList|)
    requires IsPermutation(deckOrder, 2 * MinOf(PairsCount(stage), |pokemonList|))
    ensures var deck, picked, p := DealtCards(pokemonList, stage, listOrder, deckOrder), Picked(pokemonList, stage, listOrder), PairsCount(stage);
      && (forall id :: 0 <= id < |picked| ==> HasId(deck, id))
      && (forall id :: p <= id < p + |picked| ==> HasId(deck, id))
  {
    var picked, p := Picked(pokemonList, stage, listOrder), PairsCount(stage);
    var built := Pairs(picked, p);
    var deck := DealtCards(pokemonList, stage, listOrder, deckOrder);
    assert deck == Shuffled(built, deckOrder);
    forall id | 0 <= id < |picked|
      ensures HasId(deck, id)
    {
      ShuffledKeepsAll(built, deckOrder, 2 * id);
      PairsAt(picked, p, 2 * id);
    }
    forall id | p <= id < p + |picked|
      ensures HasId(deck, id)
    {
      ShuffledKeepsAll(built, deckOrder, 2 * (id - p) + 1);
      PairsAt(picked, p, 2 * (id - p) + 1);
    }
  }

  /** A new stage opens play: its ids are unique, and it counts as cleared
      only when nothing was dealt. */
  lemma NewStageOpensPlay(pokemonList: seq<Pokemon>, stage: int, listOrder: seq<nat>, deckOrder: seq<nat>)
    requires PairsCount(stage) >= 0
    requires IsPermutation(listOrder, |pokemonList|)
    requires IsPermutation(deckOrder, 2 * MinOf(PairsCount(stage), |pokemonList|))
    ensures var n := NewStage(pokemonList, stage, listOrder, deckOrder);
      && UniqueIds(n.cards)
      && (AllMatched(n.cards) <==> |n.cards| == 0)
  {
    DealtDeck(pokemonList, stage, listOrder, deckOrder);
    var cards := NewStage(pokemonList, stage, listOrder, deckOrder).cards;
    assert |cards| > 0 ==> !cards[0].isMatched;
  }

  /** When the content source lists distinct items, two different cards of a
      deal show the same item exactly when their ids pair up: every picked
      item appears on exactly two cards. */
  lemma SameItemIffPartners(pokemonList: seq<Pokemon>, stage: int, listOrder: seq<nat>, deckOrder: seq<nat>, i: int, j: int)
    requires PairsCount(stage) >= 0
    requires IsPermutation(listOrder, |pokemonList|)
    requires IsPermutation(deckOrder, 2 * MinOf(PairsCount(stage), |pokemonList|))
    requires forall a, b :: 0 <= a < b < |pokemonList| ==> pokemonList[a] != pokemonList[b]
    requires var deck := DealtCards(pokemonList, stage, listOrder, deckOrder); 0 <= i < |deck| && 0 <= j < |deck|
    ensures var deck, p := DealtCards(pokemonList, stage, listOrder, deckOrder), PairsCount(stage);
      deck[i].name == deck[j].name && deck[i].imageResId == deck[j].imageResId
      <==> PairIndex(deck[i].id, p) == PairIndex(deck[j].id, p)
  {
    DealtDeck(pokemonList, stage, listOrder, deckOrder);
    var deck, p := DealtCards(pokemonList, stage, listOrder, deckOrder), PairsCount(stage);
    var picked := Picked(pokemonList, stage, listOrder);
    var qi, qj := PairIndex(deck[i].id, p), PairIndex(deck[j].id, p);
    if qi != qj {
      assert listOrder[qi] != listOrder[qj];
      if listOrder[qi] < listOrder[qj] {
        assert pokemonList[listOrder[qi]] != pokemonList[listOrder[qj]];
      } else {
        assert pokemonList[listOrder[qj]] != pokemonList[listOrder[qi]];
      }
      assert picked[qi] != picked[qj];
    }
  }

  // ------------------------------------------------------------ card updates

  /** A card's identity: its id and the item it shows. */
  predicate SameIdentity(a: PokemonCard, b: PokemonCard)
  {
    a.id == b.id && a.imageResId == b.imageResId && a.name == b.name
  }

  /** The preview ends: every card face-down, nothing else touched. */
  function FlippedAll(cards: seq<PokemonCard>): (r: seq<PokemonCard>)
    ensures |r| == |cards|
    ensures forall i :: 0 <= i < |r| ==>
      !r[i].isFlipped && SameIdentity(r[i], cards[i]) && r[i].isMatched == cards[i].isMatched
  {
    seq(|cards|, i requires 0 <= i < |cards| => cards[i].(isFlipped := false))
  }

  lemma FlippedAllIdempotent(cards: seq<PokemonCard>)
    ensures FlippedAll(FlippedAll(cards)) == FlippedAll(cards)
  {
  }

  /** `flipCard(id)`: toggles the face of exactly the cards with that id. */
  function Toggled(cards: seq<PokemonCard>, id: int): (r: seq<PokemonCard>)
    ensures |r| == |cards|
    ensures forall i :: 0 <= i < |r| ==> SameIdentity(r[i], cards[i]) && r[i].isMatched == cards[i].isMatched
    ensures forall i :: 0 <= i < |r| ==> (r[i].isFlipped != cards[i].isFlipped <==> cards[i].id == id)
  {
    seq(|cards|, i requires 0 <= i < |cards| =>
      if cards[i].id == id then cards[i].(isFlipped := !cards[i].isFlipped) else cards[i])
  }

  /** A second toggle of the same id undoes the first. */
  lemma {:induction false} ToggledTwice(cards: seq<PokemonCard>, id: int)
    ensures Toggled(Toggled(cards, id), id) == cards
  {
    var twice := Toggled(Toggled(cards, id), id);
    forall i | 0 <= i < |cards|
      ensures twice[i] == cards[i]
    {
    }
  }

  /** Toggles of different ids commute. */
  lemma {:induction false} ToggledCommute(cards: seq<PokemonCard>, a: int, b: int)
    ensures Toggled(Toggled(cards, a), b) == Toggled(Toggled(cards, b), a)
  {
    var ab, ba := Toggled(Toggled(cards, a), b), Toggled(Toggled(cards, b), a);
    forall i | 0 <= i < |cards|
      ensures ab[i] == ba[i]
    {
    }
  }

  /** `matchCards(a, b)`: marks exactly the cards with id a or b as matched. */
  function Matched(cards: seq<PokemonCard>, a: int, b: int): (r: seq<PokemonCard>)
    ensures |r| == |cards|
    ensures forall i :: 0 <= i < |r| ==> SameIdentity(r[i], cards[i]) && r[i].isFlipped == cards[i].isFlipped
    ensures forall i :: 0 <= i < |r| ==> (r[i].isMatched <==> cards[i].isMatched || cards[i].id == a || cards[i].id == b)
  {
    seq(|cards|, i requires 0 <= i < |cards| =>
      if cards[i].id == a || cards[i].id == b then cards[i].(isMatched := true) else cards[i])
  }

  /** `cards.find { it.id == id }`: the first card with that id, if any. */
  function FindCard(cards: seq<PokemonCard>, id: int): (r: Option<PokemonCard>)
    ensures r.None? <==> forall i :: 0 <= i < |cards| ==> cards[i].id != id
    ensures r.Some? ==> exists i :: 0 <= i < |cards| && cards[i] == r.value && r.value.id == id
                                   && forall j :: 0 <= j < i ==> cards[j].id != id
  {
    if cards == [] then None
    else if cards[0].id == id then Some(cards[0])
    else
      var r := FindCard(cards[1..], id);
      assert forall i :: 0 <= i < |cards[1..]| ==> cards[1..][i] == cards[i + 1];
      assert r.Some? ==> exists i :: 0 <= i < |cards| && cards[i] == r.value && r.value.id == id
                                   && forall j :: 0 <= j < i ==> cards[j].id != id by {
        if r.Some? {
          var k :| 0 <= k < |cards[1..]| && cards[1..][k] == r.value && r.value.id == id
                   && forall j :: 0 <= j < k ==> cards[1..][j].id != id;
          assert cards[k + 1] == r.value;
          assert forall j :: 0 <= j < k + 1 ==> cards[j].id != id by {
            forall j | 0 <= j < k + 1
              ensures cards[j].id != id
            {
              if j > 0 {
                assert cards[j] == cards[1..][j - 1];
              }
            }
          }
        }
      }
      r
  }

  /** Among cards with unique ids, the card found is the one with that id. */
  lemma FindUnique(cards: seq<PokemonCard>, i: int)
    requires UniqueIds(cards)
    requires 0 <= i < |cards|
    ensures FindCard(cards, cards[i].id) == Some(cards[i])
  {
  }

  predicate AllMatched(cards: seq<PokemonCard>)
  {
    forall i :: 0 <= i < |cards| ==> cards[i].isMatched
  }

  // -------------------------------------------------------------- one click

  /** How a click was resolved. */
  datatype Outcome =
    | Ignored                  // unknown id, matched or face-up card
    | FirstPick                // the click opened a turn
    | Pair                     // second pick, same image: both matched
    | Mismatch(firstId: int)   // second pick, different image: flip-back scheduled
    | FirstMissing             // second pick, but no card has the pending id

  datatype ClickResult = ClickResult(state: GameState, outcome: Outcome)

  /** `handleCardClick(id)` before any stage completion: the state it leaves
      and how the click was resolved. */
  function Click(s: GameState, id: int): (r: ClickResult)
    ensures r.outcome.Ignored? ==> r.state == s
    ensures r.outcome.FirstPick? <==> !r.outcome.Ignored? && s.firstSelectedCardId.None?
    ensures r.outcome.FirstPick? ==> r.state.firstSelectedCardId == Some(id)
    ensures !r.outcome.Ignored? && !r.outcome.FirstPick? ==> r.state.firstSelectedCardId.None?
    ensures r.outcome.Mismatch? ==> s.firstSelectedCardId == Some(r.outcome.firstId)
    ensures r.state.stage == s.stage && r.state.isGameOver == s.isGameOver
    ensures r.state.allCardsRevealed == s.allCardsRevealed && |r.state.cards| == |s.cards|
  {
    match FindCard(s.cards, id)
    case None => ClickResult(s, Ignored)
    case Some(clicked) =>
      if clicked.isMatched || clicked.isFlipped then ClickResult(s, Ignored)
      else
        var flipped := Toggled(s.cards, id);
        match s.firstSelectedCardId
        case None => ClickResult(s.(cards := flipped, firstSelectedCardId := Some(id)), FirstPick)
        case Some(f) =>
          match FindCard(flipped, f)
          case None => ClickResult(s.(cards := flipped, firstSelectedCardId := None), FirstMissing)
          case Some(first) =>
            if first.imageResId == clicked.imageResId
            then ClickResult(s.(cards := Matched(flipped, f, id), firstSelectedCardId := None), Pair)
            else ClickResult(s.(cards := flipped, firstSelectedCardId := None), Mismatch(f))
  }

  /** A card a click can act on: present, face-down and unmatched. */
  predicate Playable(cards: seq<PokemonCard>, id: int)
  {
    exists i :: 0 <= i < |cards| && cards[i].id == id && !cards[i].isMatched && !cards[i].isFlipped
  }

  /** A click changes the state exactly when its card is playable; otherwise
      it is ignored. */
  lemma ClickChangesIffPlayable(s: GameState, id: int)
    requires UniqueIds(s.cards)
    ensures Click(s, id).state == s <==> !Playable(s.cards, id)
    ensures Click(s, id).outcome.Ignored? <==> !Playable(s.cards, id)
  {
    var r := Click(s, id);
    if Playable(s.cards, id) {
      var i :| 0 <= i < |s.cards| && s.cards[i].id == id && !s.cards[i].isMatched && !s.cards[i].isFlipped;
      FindUnique(s.cards, i);
      var flipped := Toggled(s.cards, id);
      assert flipped[i].isFlipped;
      match s.firstSelectedCardId {
        case None =>
          assert r.state.cards == flipped;
        case Some(f) =>
          match FindCard(flipped, f) {
            case None =>
              assert r.state.cards == flipped;
            case Some(first) =>
              if first.imageResId == s.cards[i].imageResId {
                assert r.state.cards == Matched(flipped, f, id);
              } else {
                assert r.state.cards == flipped;
              }
          }
      }
      assert r.state.cards[i].isFlipped;
    } else {
      match FindCard(s.cards, id)
      case None =>
      case Some(c) =>
        var i :| 0 <= i < |s.cards| && s.cards[i] == c && c.id == id;
    }
  }

  /** A click never changes the stage, the game-over flag, the preview flag,
      the deck's size or any card's identity, and never unmatches a card. */
  lemma ClickKeepsDeck(s: GameState, id: int)
    ensures var t := Click(s, id).state;
      && t.stage == s.stage && t.isGameOver == s.isGameOver && t.allCardsRevealed == s.allCardsRevealed
      && |t.cards| == |s.cards|
      && (forall i :: 0 <= i < |s.cards| ==> SameIdentity(t.cards[i], s.cards[i]))
      && (forall i :: 0 <= i < |s.cards| && s.cards[i].isMatched ==> t.cards[i].isMatched)
  {
  }

  /** First pick: the clicked card turns face-up and becomes the pending
      selection; no other card changes. */
  lemma FirstPickLaw(s: GameState, i: int)
    requires UniqueIds(s.cards)
    requires s.firstSelectedCardId.None?
    requires 0 <= i < |s.cards| && !s.cards[i].isMatched && !s.cards[i].isFlipped
    ensures var r := Click(s, s.cards[i].id);
      && r.outcome == FirstPick
      && r.state.firstSelectedCardId == Some(s.cards[i].id)
      && r.state.cards[i] == s.cards[i].(isFlipped := true)
      && (forall j :: 0 <= j < |s.cards| && j != i ==> r.state.cards[j] == s.cards[j])
  {
    FindUnique(s.cards, i);
  }

  /** Second pick: the selection is always cleared and the clicked card is
      face-up. With the pending card at j showing the same image, exactly the
      cards at i and j become matched and nothing else changes; otherwise no
      card becomes matched and a flip-back of the pair is scheduled. */
  lemma SecondPickLaw(s: GameState, i: int, j: int)
    requires UniqueIds(s.cards)
    requires 0 <= i < |s.cards| && !s.cards[i].isMatched && !s.cards[i].isFlipped
    requires 0 <= j < |s.cards| && s.firstSelectedCardId == Some(s.cards[j].id)
    ensures var r := Click(s, s.cards[i].id);
      && r.state.firstSelectedCardId.None?
      && r.state.cards[i].isFlipped
      && (s.cards[j].imageResId == s.cards[i].imageResId ==>
            && r.outcome == Pair
            && r.state.cards[i].isMatched && r.state.cards[j].isMatched
            && (forall k :: 0 <= k < |s.cards| && k != i && k != j ==> r.state.cards[k] == s.cards[k]))
      && (s.cards[j].imageResId != s.cards[i].imageResId ==>
            && r.outcome == Mismatch(s.cards[j].id)
            && (forall k :: 0 <= k < |s.cards| ==> r.state.cards[k].isMatched == s.cards[k].isMatched))
  {
    FindUnique(s.cards, i);
    var flipped := Toggled(s.cards, s.cards[i].id);
    assert UniqueIds(flipped);
    FindUnique(flipped, j);
  }

  /** A turn on two cards showing the same image, from no pending selection:
      both end matched and the selection is clear. */
  lemma MatchingTurn(s: GameState, a: int, b: int)
    requires UniqueIds(s.cards) && s.firstSelectedCardId.None?
    requires 0 <= a < |s.cards| && !s.cards[a].isMatched && !s.cards[a].isFlipped
    requires 0 <= b < |s.cards| && !s.cards[b].isMatched && !s.cards[b].isFlipped
    requires a != b && s.cards[a].imageResId == s.cards[b].imageResId
    ensures var r := Click(Click(s, s.cards[a].id).state, s.cards[b].id);
      && r.outcome == Pair
      && r.state.cards[a].isMatched && r.state.cards[b].isMatched
      && r.state.firstSelectedCardId.None?
  {
    FirstPickLaw(s, a);
    var s1 := Click(s, s.cards[a].id).state;
    ClickKeepsDeck(s, s.cards[a].id);
    assert UniqueIds(s1.cards);
    SecondPickLaw(s1, b, a);
  }

  /** A turn on two cards showing different images, from no pending
      selection, matches nothing, and its flip-back restores every card. */
  lemma MismatchedTurnRestores(s: GameState, a: int, b: int)
    requires UniqueIds(s.cards) && s.firstSelectedCardId.None?
    requires 0 <= a < |s.cards| && !s.cards[a].isMatched && !s.cards[a].isFlipped
    requires 0 <= b < |s.cards| && !s.cards[b].isMatched && !s.cards[b].isFlipped
    requires s.cards[a].imageResId != s.cards[b].imageResId
    ensures var r := Click(Click(s, s.cards[a].id).state, s.cards[b].id);
      && r.outcome == Mismatch(s.cards[a].id)
      && r.state.firstSelectedCardId.None?
      && FlipBackCards(r.state.cards, PendingFlipBack(s.cards[a].id, s.cards[b].id)) == s.cards
  {
    var ida, idb := s.cards[a].id, s.cards[b].id;
    FindUnique(s.cards, a);
    var s1 := Click(s, ida).state;
    assert s1.cards == Toggled(s.cards, ida);
    assert UniqueIds(s1.cards);
    FindUnique(s1.cards, b);
    var flipped := Toggled(s1.cards, idb);
    assert UniqueIds(flipped);
    FindUnique(flipped, a);
    var r := Click(s1, idb);
    assert r.state.cards == flipped;
    calc {
      FlipBackCards(r.state.cards, PendingFlipBack(ida, idb));
      Toggled(Toggled(Toggled(Toggled(s.cards, ida), idb), ida), idb);
      { ToggledCommute(Toggled(s.cards, ida), idb, ida); }
      Toggled(Toggled(Toggled(Toggled(s.cards, ida), ida), idb), idb);
      { ToggledTwice(s.cards, ida); ToggledTwice(s.cards, idb); }
      s.cards;
    }
  }

  /** The deferred flip-back: it toggles both cards again. */
  function FlipBackCards(cards: seq<PokemonCard>, p: PendingFlipBack): (r: seq<PokemonCard>)
    ensures |r| == |cards|
    ensures forall i :: 0 <= i < |r| ==> SameIdentity(r[i], cards[i]) && r[i].isMatched == cards[i].isMatched
  {
    Toggled(Toggled(cards, p.firstId), p.secondId)
  }

  /** The hazard of toggling instead of setting face-down: a flip-back that
      runs when one of its cards is already face-down turns it face-up. */
  lemma StaleFlipBackReveals(cards: seq<PokemonCard>, p: PendingFlipBack, i: int)
    requires 0 <= i < |cards| && cards[i].id == p.firstId && p.firstId != p.secondId
    requires !cards[i].isFlipped
    ensures FlipBackCards(cards, p)[i].isFlipped
  {
  }

  /** Whether a click completed the stage: a pair was matched and now every
      card is matched. */
  predicate ClearsStage(r: ClickResult)
  {
    r.outcome.Pair? && AllMatched(r.state.cards)
  }

  /** A stage is cleared only by a matching second pick; afterwards the next
      stage's deck is fully unmatched and face-up, and its stage number is one
      higher. */
  lemma StageClearDealsNext(s: GameState, id: int, pokemonList: seq<Pokemon>, listOrder: seq<nat>, deckOrder: seq<nat>)
    requires ClearsStage(Click(s, id))
    requires PairsCount(s.stage + 1) >= 0
    requires IsPermutation(listOrder, |pokemonList|)
    requires IsPermutation(deckOrder, 2 * MinOf(PairsCount(s.stage + 1), |pokemonList|))
    ensures s.firstSelectedCardId.Some?
    ensures var n := NewStage(pokemonList, s.stage + 1, listOrder, deckOrder);
      && n.stage == s.stage + 1 && n.firstSelectedCardId.None? && !n.isGameOver && n.allCardsRevealed
      && |n.cards| == 2 * MinOf(PairsCount(s.stage + 1), |pokemonList|)
      && (forall i :: 0 <= i < |n.cards| ==> n.cards[i].isFlipped && !n.cards[i].isMatched)
  {
    DealtDeck(pokemonList, s.stage + 1, listOrder, deckOrder);
  }

  // ------------------------------------------------------------ view model

  class CardMainScreenViewModel {
    var pokemonList: seq<Pokemon>
    var gameState: GameState
    var timeLeft: int
    var totalImagesCount: int

    /** Card ids are unique in the current deck. */
    ghost predicate Valid()
      reads this
    {
      UniqueIds(gameState.cards)
    }

    /** The list the content source delivered is an argument; loading is not
        modelled. */
    constructor (loaded: seq<Pokemon>)
      ensures Valid()
      ensures pokemonList == loaded && gameState == InitialState
      ensures timeLeft == BaseTime && totalImagesCount == 0
    {
      pokemonList := loaded;
      gameState := InitialState;
      timeLeft := BaseTime;
      totalImagesCount := 0;
    }

    /** One tick of the countdown. The game ends when the clock reaches
        exactly zero. */
    method DecreaseTime()
      requires Valid()
      modifies this
      ensures Valid()
      ensures timeLeft == old(timeLeft) - 1
      ensures gameState == old(gameState).(isGameOver := old(gameState).isGameOver || timeLeft == 0)
      ensures pokemonList == old(pokemonList) && totalImagesCount == old(totalImagesCount)
    {
      timeLeft := timeLeft - 1;
      if timeLeft == 0 {
        SetGameOver();
      }
    }

    method SetGameOver()
      requires Valid()
      modifies this
      ensures Valid()
      ensures gameState == old(gameState).(isGameOver := true)
      ensures timeLeft == old(timeLeft) && pokemonList == old(pokemonList) && totalImagesCount == old(totalImagesCount)
    {
      gameState := gameState.(isGameOver := true);
    }

    /** Deals a stage: the part of `startNewStage` before its preview delay. */
    method StartNewStage(stage: int, listOrder: seq<nat>, deckOrder: seq<nat>)
      requires PairsCount(stage) >= 0
      requires IsPermutation(listOrder, |pokemonList|)
      requires IsPermutation(deckOrder, 2 * MinOf(PairsCount(stage), |pokemonList|))
      modifies this
      ensures Valid() && pokemonList == old(pokemonList)
      ensures gameState == NewStage(pokemonList, stage, listOrder, deckOrder)
      ensures timeLeft == StageTime(stage)
      ensures totalImagesCount == |gameState.cards|
    {
      var pairsCount := PairsCount(stage);
      var shuffledPokemon := Take(Shuffled(pokemonList, listOrder), pairsCount);
      var cards := Shuffled(Pairs(shuffledPokemon, pairsCount), deckOrder);
      totalImagesCount := |cards|;
      gameState := gameState.(cards := cards, stage := stage, isGameOver := false,
                              firstSelectedCardId := None, allCardsRevealed := true);
      timeLeft := StageTime(stage);
      DealtDeck(pokemonList, stage, listOrder, deckOrder);
    }

    /** The end of the preview, three seconds after a deal. */
    method FlipAllCards()
      requires Valid()
      modifies this
      ensures Valid()
      ensures gameState == old(gameState).(allCardsRevealed := false, cards := FlippedAll(old(gameState).cards))
      ensures timeLeft == old(timeLeft) && pokemonList == old(pokemonList) && totalImagesCount == old(totalImagesCount)
    {
      gameState := gameState.(allCardsRevealed := false, cards := FlippedAll(gameState.cards));
    }

    method FlipCard(cardId: int)
      requires Valid()
      modifies this
      ensures Valid()
      ensures gameState == old(gameState).(cards := Toggled(old(gameState).cards, cardId))
      ensures timeLeft == old(timeLeft) && pokemonList == old(pokemonList) && totalImagesCount == old(totalImagesCount)
    {
      gameState := gameState.(cards := Toggled(gameState.cards, cardId));
    }

    method MatchCards(card1Id: int, card2Id: int)
      requires Valid()
      modifies this
      ensures Valid()
      ensures gameState == old(gameState).(cards := Matched(old(gameState).cards, card1Id, card2Id))
      ensures timeLeft == old(timeLeft) && pokemonList == old(pokemonList) && totalImagesCount == old(totalImagesCount)
    {
      gameState := gameState.(cards := Matched(gameState.cards, card1Id, card2Id));
    }

    /** Deals the next stage when every card is matched. */
    method CheckStageCompletion(listOrder: seq<nat>, deckOrder: seq<nat>)
      requires Valid()
      requires PairsCount(gameState.stage + 1) >= 0
      requires IsPermutation(listOrder, |pokemonList|)
      requires IsPermutation(deckOrder, 2 * MinOf(PairsCount(gameState.stage + 1), |pokemonList|))
      modifies this
      ensures Valid() && pokemonList == old(pokemonList)
      ensures AllMatched(old(gameState).cards) ==>
        gameState == NewStage(pokemonList, old(gameState).stage + 1, listOrder, deckOrder)
        && timeLeft == StageTime(old(gameState).stage + 1)
        && totalImagesCount == |gameState.cards|
      ensures !AllMatched(old(gameState).cards) ==>
        gameState == old(gameState) && timeLeft == old(timeLeft) && totalImagesCount == old(totalImagesCount)
    {
      if forall i :: 0 <= i < |gameState.cards| ==> gameState.cards[i].isMatched {
        StartNewStage(gameState.stage + 1, listOrder, deckOrder);
      }
    }

    /** A click on a card. The shuffles are those of the next deal, used only
        when the click clears the stage. A mismatch returns the flip-back it
        schedules. */
    method HandleCardClick(clickedCardId: int, listOrder: seq<nat>, deckOrder: seq<nat>) returns (flipBack: Option<PendingFlipBack>)
      requires Valid()
      requires PairsCount(gameState.stage + 1) >= 0
      requires IsPermutation(listOrder, |pokemonList|)
      requires IsPermutation(deckOrder, 2 * MinOf(PairsCount(gameState.stage + 1), |pokemonList|))
      modifies this
      ensures Valid() && pokemonList == old(pokemonList)
      ensures var r := Click(old(gameState), clickedCardId);
        flipBack == if r.outcome.Mismatch? then Some(PendingFlipBack(r.outcome.firstId, clickedCardId)) else None
      ensures var r := Click(old(gameState), clickedCardId);
        ClearsStage(r) ==>
          gameState == NewStage(pokemonList, old(gameState).stage + 1, listOrder, deckOrder)
          && timeLeft == StageTime(old(gameState).stage + 1)
          && totalImagesCount == |gameState.cards|
      ensures var r := Click(old(gameState), clickedCardId);
        !ClearsStage(r) ==>
          gameState == r.state && timeLeft == old(timeLeft) && totalImagesCount == old(totalImagesCount)
    {
      flipBack := None;
      ghost var s0 := gameState;
      var clickedCard := FindCard(gameState.cards, clickedCardId);
      if clickedCard.None? {
        assert Click(s0, clickedCardId) == ClickResult(s0, Ignored);
        return;
      }
      if clickedCard.value.isMatched || clickedCard.value.isFlipped {
        assert Click(s0, clickedCardId) == ClickResult(s0, Ignored);
        return;
      }

      FlipCard(clickedCardId);
      ghost var flipped := Toggled(s0.cards, clickedCardId);

      var firstSelectedCardId := gameState.firstSelectedCardId;
      if firstSelectedCardId.None? {
        gameState := gameState.(firstSelectedCardId := Some(clickedCardId));
        assert Click(s0, clickedCardId) == ClickResult(gameState, FirstPick);
      } else {
        var firstSelectedCard := FindCard(gameState.cards, firstSelectedCardId.value);
        if firstSelectedCard.Some? {
          if firstSelectedCard.value.imageResId == clickedCard.value.imageResId {
            MatchCards(firstSelectedCardId.value, clickedCardId);
            assert Click(s0, clickedCardId) == ClickResult(gameState.(firstSelectedCardId := None), Pair);
            CheckStageCompletion(listOrder, deckOrder);
          } else {
            flipBack := Some(PendingFlipBack(firstSelectedCardId.value, clickedCardId));
            assert Click(s0, clickedCardId) == ClickResult(gameState.(firstSelectedCardId := None), Mismatch(firstSelectedCardId.value));
          }
        } else {
          assert Click(s0, clickedCardId) == ClickResult(gameState.(firstSelectedCardId := None), FirstMissing);
        }
        gameState := gameState.(firstSelectedCardId := None);
      }
    }

    /** The flip-back a mismatch scheduled, one second later. It toggles the
        two cards, whatever their face is by then. */
    method RunFlipBack(p: PendingFlipBack)
      requires Valid()
      modifies this
      ensures Valid()
      ensures gameState == old(gameState).(cards := FlipBackCards(old(gameState).cards, p))
      ensures timeLeft == old(timeLeft) && pokemonList == old(pokemonList) && totalImagesCount == old(totalImagesCount)
    {
      FlipCard(p.firstId);
      FlipCard(p.secondId);
    }

    /** A click as the screen delivers it: ignored while the preview shows
        every card, and once the game is over. */
    method OnCardClick(id: int, listOrder: seq<nat>, deckOrder: seq<nat>) returns (flipBack: Option<PendingFlipBack>)
      requires Valid()
      requires PairsCount(gameState.stage + 1) >= 0
      requires IsPermutation(listOrder, |pokemonList|)
      requires IsPermutation(deckOrder, 2 * MinOf(PairsCount(gameState.stage + 1), |pokemonList|))
      modifies this
      ensures Valid() && pokemonList == old(pokemonList)
      ensures old(gameState).isGameOver || old(gameState).allCardsRevealed ==>
        flipBack.None? && gameState == old(gameState) && timeLeft == old(timeLeft)
        && totalImagesCount == old(totalImagesCount)
      ensures !old(gameState).isGameOver && !old(gameState).allCardsRevealed ==>
        var r := Click(old(gameState), id);
        && flipBack == (if r.outcome.Mismatch? then Some(PendingFlipBack(r.outcome.firstId, id)) else None)
        && (ClearsStage(r) ==>
              && gameState == NewStage(pokemonList, old(gameState).stage + 1, listOrder, deckOrder)
              && timeLeft == StageTime(old(gameState).stage + 1)
              && totalImagesCount == |gameState.cards|)
        && (!ClearsStage(r) ==>
              gameState == r.state && timeLeft == old(timeLeft) && totalImagesCount == old(totalImagesCount))
    {
      flipBack := None;
      if !gameState.isGameOver && !gameState.allCardsRevealed {
        flipBack := HandleCardClick(id, listOrder, deckOrder);
      }
    }
  }
}
