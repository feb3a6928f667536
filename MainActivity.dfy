/** The earlier draft of the game engine, in MainActivity.kt.

    Here a card is an object whose face and match flags are `var`s. The click
    handler writes them in place, so every list that holds the object sees the
    change, and it writes card references into a copy of the list by index.
    The draft's image list names one drawable twelve times, so card ids
    collide: `LayoutIdsUniqueIff` and `DraftIdsCollide` show this, and
    `CollidingIdDuplicatesCard` shows what the handler then does to the list.

    Delayed work is a later, explicit method call: each one-second tick of the
    countdown is `MatchingGame.Tick`, and the flip-back one second after a
    mismatch is `MatchingGame.OnFlipBack`. */
module MainActivity {
  import opened KotlinStd

  /** `data class Card` with its two mutable flags. */
  class Card {
    const id: int
    const imageResId: int
    var isFlipped: bool
    var isMatched: bool

    constructor (id: int, imageResId: int)
      ensures this.id == id && this.imageResId == imageResId
      ensures !isFlipped && !isMatched
    {
      this.id := id;
      this.imageResId := imageResId;
      isFlipped := false;
      isMatched := false;
    }
  }

  /** A card's identity before the object exists: its id and image. */
  datatype CardSpec = CardSpec(id: int, imageResId: int)

  const DraftMaxPairs := 12
  const DraftBaseTime := 60
  const DraftTimeStep := 5
  const DraftMinTime := 10

  /** Pairs dealt at a stage: `min(12 + stage - 1, 12)`, so twelve from the
      first stage on. */
  function DraftPairsCount(stage: int): (r: int)
    ensures r <= DraftMaxPairs
    ensures stage >= 1 ==> r == DraftMaxPairs
    ensures stage < 1 ==> r == 11 + stage
  {
    MinOf(12 + stage - 1, DraftMaxPairs)
  }

  /** Seconds on the clock after a stage is cleared: five fewer per stage,
      never fewer than ten. */
  function DraftStageTime(stage: int): (r: int)
    ensures r >= DraftMinTime
    ensures stage >= 1 ==> r <= DraftBaseTime
    ensures r == DraftMinTime <==> stage >= 11
  {
    MaxOf(DraftBaseTime - (stage - 1) * DraftTimeStep, DraftMinTime)
  }

  /** The draft's image list: the launcher background, twelve times. Its
      resource id is generated by the build, so it is a parameter. */
  function DraftResources(launcherBackground: int): (r: seq<int>)
    ensures |r| == DraftMaxPairs
    ensures forall i :: 0 <= i < |r| ==> r[i] == launcherBackground
  {
    seq(DraftMaxPairs, _ => launcherBackground)
  }

  /** The `flatMap` of createCards: resource r becomes the card with id 2r
      followed by the card with id 2r + 1, both showing r. */
  function Layout(resources: seq<int>): (r: seq<CardSpec>)
    ensures |r| == 2 * |resources|
  {
    seq(2 * |resources|, i requires 0 <= i < 2 * |resources| =>
      CardSpec(resources[i / 2] * 2 + i % 2, resources[i / 2]))
  }

  predicate Distinct(xs: seq<int>)
  {
    forall i, j :: 0 <= i < |xs| && 0 <= j < |xs| && i != j ==> xs[i] != xs[j]
  }

  predicate UniqueSpecIds(specs: seq<CardSpec>)
  {
    forall i, j :: 0 <= i < |specs| && 0 <= j < |specs| && i != j ==> specs[i].id != specs[j].id
  }

  /** Each resource's two cards: ids 2r and 2r + 1, both showing r. */
  lemma LayoutPair(resources: seq<int>, q: int)
    requires 0 <= q < |resources|
    ensures Layout(resources)[2 * q] == CardSpec(2 * resources[q], resources[q])
    ensures Layout(resources)[2 * q + 1] == CardSpec(2 * resources[q] + 1, resources[q])
  {
  }

  /** The ids `resId * 2` and `resId * 2 + 1` are unique exactly when the
      resources are distinct. */
  lemma LayoutIdsUniqueIff(resources: seq<int>)
    ensures UniqueSpecIds(Layout(resources)) <==> Distinct(resources)
  {
    var specs := Layout(resources);
    if Distinct(resources) {
      forall i, j | 0 <= i < |specs| && 0 <= j < |specs| && i != j
        ensures specs[i].id != specs[j].id
      {
        var a, b := i / 2, j / 2;
        if a == b {
          assert i % 2 != j % 2;
        } else {
          assert resources[a] != resources[b];
        }
      }
    } else {
      var a, b :| 0 <= a < |resources| && 0 <= b < |resources| && a != b && resources[a] == resources[b];
      LayoutPair(resources, a);
      LayoutPair(resources, b);
      assert specs[2 * a].id == specs[2 * b].id;
    }
  }

  /** The deck createCards(stage) lays out, for the permutation the shuffle
      picked. */
  function DraftDeck(stage: int, launcherBackground: int, order: seq<nat>): (r: seq<CardSpec>)
    requires DraftPairsCount(stage) >= 0
    requires IsPermutation(order, 2 * MinOf(DraftPairsCount(stage), DraftMaxPairs))
    ensures |r| == 2 * MinOf(DraftPairsCount(stage), DraftMaxPairs)
    ensures forall i :: 0 <= i < |r| ==> r[i].imageResId == launcherBackground
  {
    Shuffled(Layout(Take(DraftResources(launcherBackground), DraftPairsCount(stage))), order)
  }

  /** From the first stage on, the draft deals 24 cards that all show the
      same image, so any two picks match, and two of them always share an id. */
  lemma DraftIdsCollide(stage: int, launcherBackground: int, order: seq<nat>)
    requires stage >= 1
    requires IsPermutation(order, 2 * MinOf(DraftPairsCount(stage), DraftMaxPairs))
    ensures var deck := DraftDeck(stage, launcherBackground, order);
      && |deck| == 24
      && (forall i :: 0 <= i < |deck| ==> deck[i].imageResId == launcherBackground)
      && !UniqueSpecIds(deck)
  {
    var resources := Take(DraftResources(launcherBackground), DraftPairsCount(stage));
    var layout := Layout(resources);
    var deck := DraftDeck(stage, launcherBackground, order);
    assert resources == DraftResources(launcherBackground);
    forall i | 0 <= i < |deck|
      ensures deck[i].imageResId == launcherBackground
    {
      assert deck[i] == layout[order[i]];
    }
    LayoutPair(resources, 0);
    LayoutPair(resources, 1);
    ShuffledKeepsAll(layout, order, 0);
    ShuffledKeepsAll(layout, order, 2);
    var i :| 0 <= i < |deck| && order[i] == 0 && deck[i] == layout[0];
    var j :| 0 <= j < |deck| && order[j] == 2 && deck[j] == layout[2];
    assert i != j && deck[i].id == deck[j].id;
  }

  /** The identities of a list of card objects. */
  function Specs(cards: seq<Card>): seq<CardSpec>
  {
    seq(|cards|, i requires 0 <= i < |cards| => CardSpec(cards[i].id, cards[i].imageResId))
  }

  predicate DistinctObjects(cards: seq<Card>)
  {
    forall i, j :: 0 <= i < |cards| && 0 <= j < |cards| && i != j ==> cards[i] != cards[j]
  }

  /** `createCards(stage)`: new, face-down, unmatched card objects laid out
      as `DraftDeck`. */
  method CreateCards(stage: int, launcherBackground: int, order: seq<nat>) returns (cards: seq<Card>)
    requires DraftPairsCount(stage) >= 0
    requires IsPermutation(order, 2 * MinOf(DraftPairsCount(stage), DraftMaxPairs))
    ensures Specs(cards) == DraftDeck(stage, launcherBackground, order)
    ensures forall i :: 0 <= i < |cards| ==> fresh(cards[i]) && !cards[i].isFlipped && !cards[i].isMatched
    ensures DistinctObjects(cards)
  {
    var layout := DraftDeck(stage, launcherBackground, order);
    cards := [];
    while |cards| < |layout|
      invariant |cards| <= |layout|
      invariant Specs(cards) == layout[..|cards|]
      invariant forall i :: 0 <= i < |cards| ==> fresh(cards[i]) && !cards[i].isFlipped && !cards[i].isMatched
      invariant DistinctObjects(cards)
    {
      var spec := layout[|cards|];
      var card := new Card(spec.id, spec.imageResId);
      cards := cards + [card];
    }
  }

  // ---------------------------------------------------------- card lists

  predicate HasCardId(cards: seq<Card>, id: int)
  {
    exists i :: 0 <= i < |cards| && cards[i].id == id
  }

  predicate UniqueCardIds(cards: seq<Card>)
  {
    forall i, j :: 0 <= i < |cards| && 0 <= j < |cards| && i != j ==> cards[i].id != cards[j].id
  }

  /** `indexOfFirst { it.id == id }`: the first position holding that id, or
      -1 when there is none. */
  function IndexOfFirst(cards: seq<Card>, id: int): (r: int)
    ensures -1 <= r < |cards|
    ensures r == -1 <==> !HasCardId(cards, id)
    ensures r >= 0 ==> cards[r].id == id && forall j :: 0 <= j < r ==> cards[j].id != id
  {
    if cards == [] then -1
    else if cards[0].id == id then 0
    else
      var k := IndexOfFirst(cards[1..], id);
      assert forall j :: 0 <= j < |cards| - 1 ==> cards[1..][j] == cards[j + 1];
      if k == -1 then -1 else k + 1
  }

  /** With unique ids, the first position holding a card's id is its own. */
  lemma IndexOfOwnId(cards: seq<Card>, p: int)
    requires UniqueCardIds(cards)
    requires 0 <= p < |cards|
    ensures IndexOfFirst(cards, cards[p].id) == p
  {
  }

  /** The list `handleCardClick` builds: the clicked card written at the first
      position holding its id. */
  function Written(allCards: seq<Card>, clickedCard: Card): (r: seq<Card>)
    requires HasCardId(allCards, clickedCard.id)
    ensures |r| == |allCards|
    ensures forall i :: 0 <= i < |r| ==> r[i].id == allCards[i].id
  {
    allCards[IndexOfFirst(allCards, clickedCard.id) := clickedCard]
  }

  /** With unique ids the write puts the clicked card back in its own place:
      the list is unchanged. */
  lemma UniqueIdsKeepList(allCards: seq<Card>, p: int)
    requires UniqueCardIds(allCards)
    requires 0 <= p < |allCards|
    ensures Written(allCards, allCards[p]) == allCards
  {
    IndexOfOwnId(allCards, p);
  }

  /** With a colliding id the write lands on an earlier card: the clicked
      card then sits at two positions, and the card it overwrote, if the list
      held it only there, is no longer in the list. */
  lemma CollidingIdDuplicatesCard(allCards: seq<Card>, p: int)
    requires 0 <= p < |allCards|
    requires IndexOfFirst(allCards, allCards[p].id) != p
    ensures var q, r := IndexOfFirst(allCards, allCards[p].id), Written(allCards, allCards[p]);
      && 0 <= q < p
      && r[q] == allCards[p] && r[p] == allCards[p]
      && ((forall k :: 0 <= k < |allCards| && k != q ==> allCards[k] != allCards[q]) ==> allCards[q] !in r)
  {
    var q, r := IndexOfFirst(allCards, allCards[p].id), Written(allCards, allCards[p]);
    if forall k :: 0 <= k < |allCards| && k != q ==> allCards[k] != allCards[q] {
      forall k | 0 <= k < |r|
        ensures r[k] != allCards[q]
      {
        if k != q {
          assert r[k] == allCards[k];
        }
      }
    }
  }

  predicate AllMatched(cards: seq<Card>)
    reads set c | c in cards
  {
    forall i :: 0 <= i < |cards| ==> cards[i].isMatched
  }

  // ------------------------------------------------------------ one click

  /** The arguments of one `onUpdate` call. */
  datatype Update = Update(cards: seq<Card>, firstSelected: Option<Card>)

  /** The continuation a mismatch leaves behind: the list it wrote, the
      clicked card's position in it, and the first pick's id. */
  datatype PendingFlipBack = PendingFlipBack(updatedCards: seq<Card>, clickedCardIndex: int, firstId: int)

  predicate ValidPending(p: PendingFlipBack)
  {
    0 <= p.clickedCardIndex < |p.updatedCards| && HasCardId(p.updatedCards, p.firstId)
  }

  /** `handleCardClick`: a matched or face-up card is ignored. Otherwise the
      clicked card object is turned face-up and written into a copy of the
      list. A first pick is reported as the new selection; a second pick with
      the same image marks the clicked card and the card at the first
      position of the first pick's id as matched; a second pick with another
      image leaves a flip-back behind. Either second pick reports no
      selection. The result is the `onUpdate` call made at once. */
  method HandleCardClick(clickedCard: Card, allCards: seq<Card>, firstSelectedCard: Option<Card>)
      returns (update: Option<Update>, pending: Option<PendingFlipBack>)
    requires clickedCard in allCards
    requires firstSelectedCard.Some? ==> HasCardId(allCards, firstSelectedCard.value.id)
    modifies set c | c in allCards
    ensures old(clickedCard.isMatched || clickedCard.isFlipped) ==>
      update.None? && pending.None? &&
      forall c :: c in allCards ==> c.isFlipped == old(c.isFlipped) && c.isMatched == old(c.isMatched)
    ensures !old(clickedCard.isMatched || clickedCard.isFlipped) ==>
      && HasCardId(allCards, clickedCard.id)
      && update.Some? && update.value.cards == Written(allCards, clickedCard)
      && clickedCard.isFlipped
    ensures !old(clickedCard.isMatched || clickedCard.isFlipped) && firstSelectedCard.None? ==>
      && update.Some? && update.value.firstSelected == Some(clickedCard) && pending.None?
      && clickedCard.isMatched == old(clickedCard.isMatched)
      && forall c :: c in allCards && c != clickedCard ==> c.isFlipped == old(c.isFlipped) && c.isMatched == old(c.isMatched)
    ensures !old(clickedCard.isMatched || clickedCard.isFlipped) && firstSelectedCard.Some?
            && firstSelectedCard.value.imageResId == clickedCard.imageResId ==>
      var updated := Written(allCards, clickedCard);
      var target := updated[IndexOfFirst(updated, firstSelectedCard.value.id)];
      && update.Some? && update.value.firstSelected.None? && pending.None?
      && clickedCard.isMatched && target.isMatched
      && (target != clickedCard ==> target.isFlipped == old(target.isFlipped))
      && forall c :: c in allCards && c != clickedCard && c != target ==> c.isFlipped == old(c.isFlipped) && c.isMatched == old(c.isMatched)
    ensures !old(clickedCard.isMatched || clickedCard.isFlipped) && firstSelectedCard.Some?
            && firstSelectedCard.value.imageResId != clickedCard.imageResId ==>
      && update.Some? && update.value.firstSelected.None?
      && pending == Some(PendingFlipBack(Written(allCards, clickedCard), IndexOfFirst(allCards, clickedCard.id), firstSelectedCard.value.id))
      && ValidPending(pending.value)
      && clickedCard.isMatched == old(clickedCard.isMatched)
      && forall c :: c in allCards && c != clickedCard ==> c.isFlipped == old(c.isFlipped) && c.isMatched == old(c.isMatched)
  {
    update, pending := None, None;
    if clickedCard.isMatched || clickedCard.isFlipped {
      return;
    }

    var updatedCards := allCards;
    assert HasCardId(allCards, clickedCard.id);
    var clickedCardIndex := IndexOfFirst(updatedCards, clickedCard.id);

    if firstSelectedCard.None? {
      clickedCard.isFlipped := true;
      updatedCards := updatedCards[clickedCardIndex := clickedCard];
      update := Some(Update(updatedCards, Some(clickedCard)));
    } else {
      var first := firstSelectedCard.value;
      clickedCard.isFlipped := true;
      updatedCards := updatedCards[clickedCardIndex := clickedCard];
      assert updatedCards == Written(allCards, clickedCard);
      assert HasCardId(updatedCards, first.id) by {
        var k :| 0 <= k < |allCards| && allCards[k].id == first.id;
        assert updatedCards[k].id == first.id;
      }

      if first.imageResId == clickedCard.imageResId {
        var firstCardIndex := IndexOfFirst(updatedCards, first.id);
        updatedCards[firstCardIndex].isMatched := true;
        updatedCards[clickedCardIndex].isMatched := true;
        update := Some(Update(updatedCards, None));
      } else {
        update := Some(Update(updatedCards, None));
        pending := Some(PendingFlipBack(updatedCards, clickedCardIndex, first.id));
      }
    }
  }

  /** The continuation one second after a mismatch: the card at the clicked
      position and the card at the first position of the first pick's id
      are set face-down. */
  method FlipBackCards(p: PendingFlipBack)
    requires ValidPending(p)
    modifies set c | c in p.updatedCards
    ensures var a, b := p.updatedCards[p.clickedCardIndex], p.updatedCards[IndexOfFirst(p.updatedCards, p.firstId)];
      && !a.isFlipped && !b.isFlipped
      && a.isMatched == old(a.isMatched) && b.isMatched == old(b.isMatched)
      && forall c :: c in p.updatedCards && c != a && c != b ==> c.isFlipped == old(c.isFlipped) && c.isMatched == old(c.isMatched)
  {
    p.updatedCards[p.clickedCardIndex].isFlipped := false;
    var firstCardIndex := IndexOfFirst(p.updatedCards, p.firstId);
    p.updatedCards[firstCardIndex].isFlipped := false;
  }

  // ---------------------------------------------------------- the game

  /** The state and timer logic of the `MatchingGame` composable. */
  class MatchingGame {
    const launcherBackground: int
    var stage: int
    var timeLeft: int
    var cards: seq<Card>
    var isGameOver: bool
    var firstSelectedCard: Option<Card>

    /** Stages count from one, and a pending first pick's id is in the list. */
    ghost predicate Valid()
      reads this
    {
      stage >= 1 && (firstSelectedCard.Some? ==> HasCardId(cards, firstSelectedCard.value.id))
    }

    constructor (launcherBackground: int, order: seq<nat>)
      requires IsPermutation(order, 2 * DraftMaxPairs)
      ensures Valid() && this.launcherBackground == launcherBackground
      ensures stage == 1 && timeLeft == DraftBaseTime && !isGameOver && firstSelectedCard.None?
      ensures Specs(cards) == DraftDeck(1, launcherBackground, order)
      ensures forall i :: 0 <= i < |cards| ==> fresh(cards[i]) && !cards[i].isFlipped && !cards[i].isMatched
    {
      this.launcherBackground := launcherBackground;
      stage := 1;
      timeLeft := DraftBaseTime;
      var dealt := CreateCards(1, launcherBackground, order);
      cards := dealt;
      isGameOver := false;
      firstSelectedCard := None;
    }

    /** The `onUpdate` callback: adopts the list and selection it is given,
        and when every card of that list is matched, moves to the next
        stage with a new deck, a new clock and no selection. */
    method OnUpdate(updatedCards: seq<Card>, updatedFirstCard: Option<Card>, order: seq<nat>)
      requires Valid()
      requires updatedFirstCard.Some? ==> HasCardId(updatedCards, updatedFirstCard.value.id)
      requires IsPermutation(order, 2 * DraftMaxPairs)
      modifies this
      ensures Valid() && isGameOver == old(isGameOver)
      ensures AllMatched(updatedCards) ==>
        && stage == old(stage) + 1 && timeLeft == DraftStageTime(stage)
        && Specs(cards) == DraftDeck(stage, launcherBackground, order)
        && (forall i :: 0 <= i < |cards| ==> fresh(cards[i]) && !cards[i].isFlipped && !cards[i].isMatched)
        && firstSelectedCard.None?
      ensures !AllMatched(updatedCards) ==>
        && cards == updatedCards && firstSelectedCard == updatedFirstCard
        && stage == old(stage) && timeLeft == old(timeLeft)
    {
      cards := updatedCards;
      firstSelectedCard := updatedFirstCard;
      if forall i :: 0 <= i < |cards| ==> cards[i].isMatched {
        stage := stage + 1;
        timeLeft := DraftStageTime(stage);
        var dealt := CreateCards(stage, launcherBackground, order);
        cards := dealt;
        firstSelectedCard := None;
      }
    }

    /** A click on a card of the grid, ignored once the game is over. The
        shuffle is that of the next deck, used only when the click clears the
        stage. A mismatch returns the continuation it leaves behind. */
    method OnCardClick(card: Card, order: seq<nat>) returns (pending: Option<PendingFlipBack>)
      requires Valid()
      requires card in cards
      requires IsPermutation(order, 2 * DraftMaxPairs)
      modifies this, set c | c in cards
      ensures Valid() && isGameOver == old(isGameOver)
      ensures old(isGameOver) ==>
        && pending.None? && cards == old(cards) && stage == old(stage) && timeLeft == old(timeLeft)
        && firstSelectedCard == old(firstSelectedCard)
        && forall c :: c in old(cards) ==> c.isFlipped == old(c.isFlipped) && c.isMatched == old(c.isMatched)
      ensures pending.Some? ==> ValidPending(pending.value)
      ensures !old(isGameOver) && old(card.isMatched || card.isFlipped) ==>
        && pending.None? && cards == old(cards) && stage == old(stage) && timeLeft == old(timeLeft)
        && firstSelectedCard == old(firstSelectedCard)
        && forall c :: c in old(cards) ==> c.isFlipped == old(c.isFlipped) && c.isMatched == old(c.isMatched)
      ensures !old(isGameOver) && !old(card.isMatched || card.isFlipped) ==>
        && card.isFlipped
        && HasCardId(old(cards), card.id)
        && (stage == old(stage) ==>
              && cards == Written(old(cards), card) && timeLeft == old(timeLeft)
              && firstSelectedCard == (if old(firstSelectedCard).None? then Some(card) else None))
        && (stage != old(stage) ==>
              && stage == old(stage) + 1 && timeLeft == DraftStageTime(stage)
              && Specs(cards) == DraftDeck(stage, launcherBackground, order)
              && firstSelectedCard.None?)
      ensures !old(isGameOver) && !old(card.isMatched || card.isFlipped) ==>
        (stage != old(stage) <==> AllMatched(Written(old(cards), card)))
      ensures stage != old(stage) ==>
        forall i :: 0 <= i < |cards| ==> fresh(cards[i]) && !cards[i].isFlipped && !cards[i].isMatched
      ensures !old(isGameOver) && !old(card.isMatched || card.isFlipped) && old(firstSelectedCard).None? ==>
        && pending.None? && card.isMatched == old(card.isMatched)
        && forall c :: c in old(cards) && c != card ==> c.isFlipped == old(c.isFlipped) && c.isMatched == old(c.isMatched)
      ensures !old(isGameOver) && !old(card.isMatched || card.isFlipped) && old(firstSelectedCard).Some?
              && old(firstSelectedCard).value.imageResId == card.imageResId ==>
        var updated := Written(old(cards), card);
        var target := updated[IndexOfFirst(updated, old(firstSelectedCard).value.id)];
        && pending.None? && card.isMatched && target.isMatched
        && (target != card ==> target.isFlipped == old(target.isFlipped))
        && forall c :: c in old(cards) && c != card && c != target ==> c.isFlipped == old(c.isFlipped) && c.isMatched == old(c.isMatched)
      ensures !old(isGameOver) && !old(card.isMatched || card.isFlipped) && old(firstSelectedCard).Some?
              && old(firstSelectedCard).value.imageResId != card.imageResId ==>
        && pending == Some(PendingFlipBack(Written(old(cards), card), IndexOfFirst(old(cards), card.id), old(firstSelectedCard).value.id))
        && card.isMatched == old(card.isMatched)
        && forall c :: c in old(cards) && c != card ==> c.isFlipped == old(c.isFlipped) && c.isMatched == old(c.isMatched)
    {
      pending := None;
      if !isGameOver {
        var update;
        update, pending := HandleCardClick(card, cards, firstSelectedCard);
        if update.Some? {
          if update.value.firstSelected.Some? {
            assert update.value.cards[IndexOfFirst(cards, card.id)] == card;
          }
          OnUpdate(update.value.cards, update.value.firstSelected, order);
        }
      }
    }

    /** The continuation of a mismatch, one second later: both cards are set
        face-down and `onUpdate` runs again with the list of that turn and no
        selection, whatever the game has done since. */
    method OnFlipBack(p: PendingFlipBack, order: seq<nat>)
      requires Valid() && ValidPending(p)
      requires IsPermutation(order, 2 * DraftMaxPairs)
      modifies this, set c | c in p.updatedCards
      ensures Valid() && isGameOver == old(isGameOver)
      ensures var a, b := p.updatedCards[p.clickedCardIndex], p.updatedCards[IndexOfFirst(p.updatedCards, p.firstId)];
        && !a.isFlipped && !b.isFlipped
        && a.isMatched == old(a.isMatched) && b.isMatched == old(b.isMatched)
        && forall c :: c in p.updatedCards && c != a && c != b ==> c.isFlipped == old(c.isFlipped) && c.isMatched == old(c.isMatched)
      ensures AllMatched(p.updatedCards) ==>
        && stage == old(stage) + 1 && timeLeft == DraftStageTime(stage)
        && Specs(cards) == DraftDeck(stage, launcherBackground, order)
        && (forall i :: 0 <= i < |cards| ==> fresh(cards[i]) && !cards[i].isFlipped && !cards[i].isMatched)
        && firstSelectedCard.None?
      ensures !AllMatched(p.updatedCards) ==>
        cards == p.updatedCards && firstSelectedCard.None? && stage == old(stage) && timeLeft == old(timeLeft)
    {
      FlipBackCards(p);
      OnUpdate(p.updatedCards, None, order);
    }

    /** One pass of the countdown loop, one second after the last: while the
        clock is above zero and the game is not over, it drops by one, and
        the game is over once it reaches zero. */
    method Tick()
      requires Valid()
      modifies this
      ensures Valid()
      ensures old(timeLeft > 0 && !isGameOver) ==> timeLeft == old(timeLeft) - 1 && isGameOver == (timeLeft == 0)
      ensures !old(timeLeft > 0 && !isGameOver) ==> timeLeft == old(timeLeft) && isGameOver == old(isGameOver)
      ensures stage == old(stage) && cards == old(cards) && firstSelectedCard == old(firstSelectedCard)
    {
      if timeLeft > 0 && !isGameOver {
        timeLeft := timeLeft - 1;
        if timeLeft == 0 {
          isGameOver := true;
        }
      }
    }

    /** The countdown loop run to its end with no click in between: from a
        running game the clock reaches zero and the game is over. */
    method RunTimer()
      requires Valid()
      modifies this
      ensures Valid()
      ensures timeLeft == if old(isGameOver) || old(timeLeft) <= 0 then old(timeLeft) else 0
      ensures isGameOver == (old(isGameOver) || old(timeLeft) >= 0)
      ensures stage == old(stage) && cards == old(cards) && firstSelectedCard == old(firstSelectedCard)
    {
      while timeLeft > 0 && !isGameOver
        invariant Valid()
        invariant stage == old(stage) && cards == old(cards) && firstSelectedCard == old(firstSelectedCard)
        invariant isGameOver == old(isGameOver)
        invariant old(isGameOver) || old(timeLeft) <= 0 ==> timeLeft == old(timeLeft)
        invariant !old(isGameOver) && old(timeLeft) > 0 ==> 0 <= timeLeft
        decreases timeLeft
      {
        timeLeft := timeLeft - 1;
      }
      if timeLeft == 0 {
        isGameOver := true;
      }
    }
  }
}
