/**
 * The study page of one set (`/flashcard?id=<set name>`): it loads the set
 * document once the user is known and steps through its cards with Next,
 * Previous and a flip between front and back.
 */
module StudyPage {
  import opened Wrappers
  import opened JsString
  import opened DocumentStore

  const NotFoundMessage: string := "Flashcard set not found."
  const EmptyMessage: string := "Flashcard set is empty."
  const FetchFailedMessage: string := "Failed to fetch flashcards."

  /** The index after Next on a deck of `n` cards: one further, wrapping from the last to the first.
      Both operands of the remainder are non-negative, so JavaScript's truncating `%`
      and Dafny's Euclidean `%` agree here. From an index past the deck it is one place
      after that index's position modulo `n`. */
  function NextIndex(i: nat, n: nat): (r: nat)
    requires n > 0
    ensures r < n
    ensures i < n ==> r == (if i == n - 1 then 0 else i + 1)
    ensures r == (if i % n == n - 1 then 0 else i % n + 1)
  {
    var q := i / n;
    if i % n == n - 1 then
      RemainderUnique(i + 1, q + 1, 0, n);
      (i + 1) % n
    else
      RemainderUnique(i + 1, q, i % n + 1, n);
      (i + 1) % n
  }

  /** The index after Previous: one back, wrapping from the first to the last; from an
      index past the deck, one place before that index's position modulo `n`. */
  function PrevIndex(i: nat, n: nat): (r: nat)
    requires n > 0
    ensures r < n
    ensures i < n ==> r == (if i == 0 then n - 1 else i - 1)
    ensures r == (if i % n == 0 then n - 1 else i % n - 1)
  {
    var q := i / n;
    if i % n == 0 then
      RemainderUnique(i - 1 + n, q, n - 1, n);
      (i - 1 + n) % n
    else
      RemainderUnique(i - 1 + n, q + 1, i % n - 1, n);
      (i - 1 + n) % n
  }

  /** More multiples of `n` are at least one `n` more. */
  lemma {:induction false} MultipleGap(a: nat, b: nat, n: nat)
    requires a < b
    ensures a * n + n <= b * n
    decreases b - a
  {
    if a + 1 < b {
      MultipleGap(a + 1, b, n);
      assert (a + 1) * n == a * n + n;
    } else {
      assert b * n == a * n + n;
    }
  }

  /** A remainder is the only `r` in `[0, n)` with `x == q * n + r`. */
  lemma RemainderUnique(x: nat, q: nat, r: nat, n: nat)
    requires n > 0 && r < n && x == q * n + r
    ensures x % n == r
  {
    var q', r' := x / n, x % n;
    assert x == q' * n + r';
    if q' < q {
      MultipleGap(q', q, n);
    }
    if q' > q {
      MultipleGap(q, q', n);
    }
  }

  /** The page's React state. */
  datatype StudyState = StudyState(
    flashcards: Option<seq<Card>>,
    currentCardIndex: nat,
    showAnswer: bool,
    loading: bool,
    error: Option<string>)

  /** The state right after mounting. */
  const Initial := StudyState(None, 0, false, true, None)

  /** `flashcards && flashcards.length > 0`: the guard of both navigation handlers. */
  predicate HasDeck(s: StudyState) {
    s.flashcards.Some? && |s.flashcards.value| > 0
  }

  /** The index points at a card whenever there is a deck. */
  predicate InRange(s: StudyState) {
    HasDeck(s) ==> s.currentCardIndex < |s.flashcards.value|
  }

  /** `handleNextCard`. */
  function Next(s: StudyState): (r: StudyState)
    ensures HasDeck(s) ==> InRange(r) && !r.showAnswer
    ensures HasDeck(s) ==> r.currentCardIndex == NextIndex(s.currentCardIndex, |s.flashcards.value|)
    ensures HasDeck(s) ==> r.(currentCardIndex := s.currentCardIndex, showAnswer := s.showAnswer) == s
    ensures !HasDeck(s) ==> r == s
  {
    if HasDeck(s) then
      s.(currentCardIndex := NextIndex(s.currentCardIndex, |s.flashcards.value|), showAnswer := false)
    else s
  }

  /** `handlePrevCard`. */
  function Prev(s: StudyState): (r: StudyState)
    ensures HasDeck(s) ==> InRange(r) && !r.showAnswer
    ensures HasDeck(s) ==> r.currentCardIndex == PrevIndex(s.currentCardIndex, |s.flashcards.value|)
    ensures HasDeck(s) ==> r.(currentCardIndex := s.currentCardIndex, showAnswer := s.showAnswer) == s
    ensures !HasDeck(s) ==> r == s
  {
    if HasDeck(s) then
      s.(currentCardIndex := PrevIndex(s.currentCardIndex, |s.flashcards.value|), showAnswer := false)
    else s
  }

  /** `toggleAnswer`. */
  function Toggle(s: StudyState): (r: StudyState)
    ensures r.showAnswer != s.showAnswer
    ensures r.(showAnswer := s.showAnswer) == s
  {
    s.(showAnswer := !s.showAnswer)
  }

  /** Previous undoes Next, apart from hiding the answer. */
  lemma NextThenPrev(s: StudyState)
    requires InRange(s)
    ensures Prev(Next(s)) == if HasDeck(s) then s.(showAnswer := false) else s
  {
  }

  /** Next undoes Previous, apart from hiding the answer. */
  lemma PrevThenNext(s: StudyState)
    requires InRange(s)
    ensures Next(Prev(s)) == if HasDeck(s) then s.(showAnswer := false) else s
  {
  }

  /** Flipping twice shows the same side again. */
  lemma ToggleTwice(s: StudyState)
    ensures Toggle(Toggle(s)) == s
  {
  }

  /** `k` presses of Next. */
  function NextTimes(s: StudyState, k: nat): StudyState {
    if k == 0 then s else Next(NextTimes(s, k - 1))
  }

  /** Within one round of the deck, `k` presses of Next move the index `k` places on,
      wrapping past the last card once. */
  lemma {:induction false} NextTimesIndex(s: StudyState, k: nat)
    requires HasDeck(s) && InRange(s)
    requires k <= |s.flashcards.value|
    ensures NextTimes(s, k).flashcards == s.flashcards
    ensures var n, i := |s.flashcards.value|, s.currentCardIndex;
            NextTimes(s, k).currentCardIndex == if i + k < n then i + k else i + k - n
  {
    if k > 0 {
      NextTimesIndex(s, k - 1);
    }
  }

  /** Pressing Next once per card comes back to the card one started from. */
  lemma FullCycle(s: StudyState)
    requires HasDeck(s) && InRange(s)
    ensures NextTimes(s, |s.flashcards.value|).currentCardIndex == s.currentCardIndex
  {
    NextTimesIndex(s, |s.flashcards.value|);
  }

  /** How the fetched set document is classified. */
  datatype LoadOutcome = Found(cards: seq<Card>) | Empty | NotFound

  /** A missing document is not found; an absent or empty `flashcards` field is empty;
      anything else is the deck. */
  function Classify(doc: Option<SetDoc>): (r: LoadOutcome)
    ensures r == NotFound <==> doc.None?
    ensures r == Empty <==> doc.Some? && doc.value.flashcards.GetOr([]) == []
    ensures r.Found? <==> doc.Some? && doc.value.flashcards.Some? && doc.value.flashcards.value != []
    ensures r.Found? ==> r.cards == doc.value.flashcards.value
  {
    match doc
    case None => NotFound
    case Some(d) =>
      var cards := d.flashcards.GetOr([]);
      if |cards| > 0 then Found(cards) else Empty
  }

  /** The state after `getFlashcards` completes with `read`: loading is over, the index and
      flip flag are untouched, and exactly one of the deck and the error is set. */
  function AfterLoad(s: StudyState, read: Read<SetDoc>): (r: StudyState)
    ensures !r.loading
    ensures r.currentCardIndex == s.currentCardIndex && r.showAnswer == s.showAnswer
    ensures read.Failed? ==> r == s.(loading := false, error := Some(FetchFailedMessage))
    ensures read.Snapshot? && read.doc.None? ==> r == s.(loading := false, error := Some(NotFoundMessage))
    ensures read.Snapshot? && Classify(read.doc) == Empty ==> r == s.(loading := false, error := Some(EmptyMessage))
    ensures read.Snapshot? && Classify(read.doc).Found? ==>
              r == s.(loading := false, flashcards := Some(Classify(read.doc).cards))
  {
    match read
    case Failed => s.(error := Some(FetchFailedMessage), loading := false)
    case Snapshot(doc) =>
      match Classify(doc)
      case Found(cards) => s.(flashcards := Some(cards), loading := false)
      case Empty => s.(error := Some(EmptyMessage), loading := false)
      case NotFound => s.(error := Some(NotFoundMessage), loading := false)
  }

  /** A first load that finds a deck leaves the page on its first card, front up. */
  lemma FirstLoadShowsFirstFront(read: Read<SetDoc>)
    requires read.Snapshot? && Classify(read.doc).Found?
    ensures HasDeck(AfterLoad(Initial, read)) && InRange(AfterLoad(Initial, read))
    ensures Render(AfterLoad(Initial, read))
              == CardScreen(Classify(read.doc).cards[0].front, "Show Back", 1, |Classify(read.doc).cards|)
  {
  }

  /** What the page renders. */
  datatype Screen =
    | LoadingScreen
    | ErrorScreen(message: string)
    | NoCardsScreen
    | CardScreen(text: string, flipLabel: string, position: nat, total: nat)
    | RenderFailure  // `flashcards[currentCardIndex]` is undefined and `.front` throws

  /** The rendered screen: "Loading...", then the error, then "No flashcards available",
      otherwise the current card's back when the answer is shown and its front when not,
      with the counter "Card index+1 of n". */
  function Render(s: StudyState): (r: Screen)
    ensures r == LoadingScreen <==> s.loading
    ensures r.ErrorScreen? <==> !s.loading && Truthy(s.error)
    ensures r.ErrorScreen? ==> r.message == s.error.value
    ensures r == NoCardsScreen <==> !s.loading && !Truthy(s.error) && !HasDeck(s)
    ensures r == RenderFailure <==> !s.loading && !Truthy(s.error) && HasDeck(s) && !InRange(s)
    ensures r.CardScreen? ==>
              && 1 <= r.position <= r.total == |s.flashcards.value|
              && r.position == s.currentCardIndex + 1
              && (var card := s.flashcards.value[s.currentCardIndex];
                  r.text == (if s.showAnswer then card.back else card.front))
              && r.flipLabel == (if s.showAnswer then "Show Front" else "Show Back")
  {
    if s.loading then LoadingScreen
    else if Truthy(s.error) then ErrorScreen(s.error.value)
    else if !HasDeck(s) then NoCardsScreen
    else if s.currentCardIndex >= |s.flashcards.value| then RenderFailure
    else
      var card := s.flashcards.value[s.currentCardIndex];
      CardScreen(if s.showAnswer then card.back else card.front,
                 if s.showAnswer then "Show Front" else "Show Back",
                 s.currentCardIndex + 1, |s.flashcards.value|)
  }

  /** On a card screen, Next shows the front of the following card (the first after the last). */
  lemma NextShowsFollowingFront(s: StudyState)
    requires Render(s).CardScreen?
    ensures var n := |s.flashcards.value|;
            var i := if s.currentCardIndex == n - 1 then 0 else s.currentCardIndex + 1;
            Render(Next(s)) == CardScreen(s.flashcards.value[i].front, "Show Back", i + 1, n)
  {
  }

  /** On a card screen, Previous shows the front of the preceding card (the last before the first). */
  lemma PrevShowsPrecedingFront(s: StudyState)
    requires Render(s).CardScreen?
    ensures var n := |s.flashcards.value|;
            var i := if s.currentCardIndex == 0 then n - 1 else s.currentCardIndex - 1;
            Render(Prev(s)) == CardScreen(s.flashcards.value[i].front, "Show Back", i + 1, n)
  {
  }

  /** On a card screen, the flip shows the other side of the same card. */
  lemma ToggleShowsOtherSide(s: StudyState)
    requires Render(s).CardScreen?
    ensures var card := s.flashcards.value[s.currentCardIndex];
            && Render(Toggle(s)).CardScreen?
            && Render(Toggle(s)).position == Render(s).position
            && Render(Toggle(s)).text == (if s.showAnswer then card.front else card.back)
  {
  }

  /** The component: its fields are the React state variables. */
  class FlashcardSetPage {
    var flashcards: Option<seq<Card>>
    var currentCardIndex: nat
    var showAnswer: bool
    var loading: bool
    var error: Option<string>

    function State(): StudyState
      reads this
    {
      StudyState(flashcards, currentCardIndex, showAnswer, loading, error)
    }

    constructor ()
      ensures State() == Initial
    {
      flashcards := None;
      currentCardIndex := 0;
      showAnswer := false;
      loading := true;
      error := None;
    }

    method HandleNextCard()
      modifies this
      ensures State() == Next(old(State()))
    {
      if flashcards.Some? && |flashcards.value| > 0 {
        currentCardIndex := NextIndex(currentCardIndex, |flashcards.value|);
        showAnswer := false;
      }
    }

    method HandlePrevCard()
      modifies this
      ensures State() == Prev(old(State()))
    {
      if flashcards.Some? && |flashcards.value| > 0 {
        currentCardIndex := PrevIndex(currentCardIndex, |flashcards.value|);
        showAnswer := false;
      }
    }

    method ToggleAnswer()
      modifies this
      ensures State() == Toggle(old(State()))
    {
      showAnswer := !showAnswer;
    }

    /** The load effect: nothing happens until auth has loaded, a user is signed in and the
        `id` parameter is non-empty; then it reads `users/{uid}/flashcardSets/{id}`
        (`readFails` stands for `getDoc` throwing). */
    method GetFlashcards(db: Database, isLoaded: bool, user: Option<Uid>, setId: Option<string>, readFails: bool)
      modifies this
      ensures !isLoaded || user.None? || !Truthy(setId) ==> State() == old(State())
      ensures isLoaded && user.Some? && Truthy(setId) ==>
                State() == AfterLoad(old(State()),
                                     if readFails then Failed else Snapshot(Get(db.sets, SetKey(user.value, setId.value))))
    {
      if !isLoaded || user.None? || !Truthy(setId) {
        return;
      }
      if readFails {
        error := Some(FetchFailedMessage);
      } else {
        var key := SetKey(user.value, setId.value);
        if key in db.sets {
          var data := db.sets[key].flashcards.GetOr([]);
          if |data| > 0 {
            flashcards := Some(data);
          } else {
            error := Some(EmptyMessage);
          }
        } else {
          error := Some(NotFoundMessage);
        }
      }
      loading := false;
    }
  }
}
