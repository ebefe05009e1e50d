# FlashMinds page logic, modelled in Dafny

FlashMinds is a flashcard web application. Users generate cards from pasted text, save them as
named sets in a per-user document store, list and delete their sets, and study one set card
by card. All persistence, authentication and generation are hosted services. What the
repository itself decides lives in three page handlers, and that is what this project models:

- **Study page** (`app/flashcard/page.js`): the state `(flashcards, currentCardIndex,
  showAnswer, loading, error)`. Next and Previous wrap round the deck and hide the answer;
  the flip toggles it; the load classifies the set document as found, empty or missing; the
  render picks the card side and the counter.
- **Generate page** (`app/generate/page.js`): the blank-text guard of generation. Saving
  runs three gates in order, then appends the name to the user's index (or creates the
  index) and writes the set document, as one batch.
- **Set list page** (`app/flashcards/page.js`): loading the index, with a missing field read
  as `[]` and a missing root document created. Delete removes the set document and filters
  the in-memory list, leaving the stored index as it was. The thumbnail comes from the first
  set whose image lookup succeeds.

The store is a value `Store(users, sets)`: `users` maps a user id to the root document
`{flashcardSets: [{name}]}`, and `sets` maps `(uid, name)` to `{flashcards: [{front, back}]}`.
A field a document lacks is `None`. The mutable `DocumentStore.Database` class holds the two
maps. Each page is a class whose fields are its React state variables. Every handler is a
method whose `ensures` gives the new state as a pure function of the old one. The properties
are stated about those functions.

External calls become inputs:
- a `...Fails: bool` parameter says whether a store read, write, commit or delete throws;
- `response: Option<seq<Card>>` is what `/api/generate` returns (`None` when it fails);
- `lookup: SetListPage.ImageLookup`, a function of the request number and the set name, is the image search. Each request can get its own answer, as separate HTTP calls can;
- the sign-in effect is only its outcome, given to `SetAuthReady`.

JavaScript semantics kept explicit:
- `String.prototype.trim` strips the ECMAScript WhiteSpace and LineTerminator code points
  (`JsString.Trim`).
- A guard such as `!setId`, `!userId` or `if (image)` also rejects the empty string
  (`JsString.Truthy`).
- The JavaScript `%` in the index arithmetic only ever sees non-negative operands, so it
  agrees with Dafny's `%`.

The stored index and the set documents can drift apart. `handleDelete`
(app/flashcards/page.js:93-99) deletes `users/{uid}/flashcardSets/{name}` and filters the
in-memory list, but it never writes `users/{uid}`. `Workflows.DeleteLeavesStaleIndexEntry`
proves the consequence: the deleted name comes back on the next list load, and opening it
reports "Flashcard set not found.".

The study page's load does not reset `currentCardIndex`. If the load ran again after
navigation and found a shorter deck, the index would point past the end, and
`flashcards[currentCardIndex].front` would throw. `StudyPage.Render` has a `RenderFailure`
screen for exactly that state. On the first load from the initial state it cannot happen
(`StudyPage.FirstLoadShowsFirstFront`), and Next and Previous always restore the bound.

## Model

| member | source | states |
|---|---|---|
| `JsString.LeadingBlanks` | app/generate/page.js:40 | the leading part of `trim`: the count of leading characters that are all whitespace, followed by a non-whitespace character or the end of the string |
| `JsString.TrailingBlanks` | app/generate/page.js:70 | the trailing part of `trim`: the count of trailing characters that are all whitespace, preceded by a non-whitespace character or the start of the string |
| `JsString.Trim` | app/generate/page.js:40 | the trimmed string is the slice of the input between a whitespace-only prefix (the leading blanks) and a whitespace-only suffix; if non-empty, it starts and ends with non-whitespace |
| `JsString.TrimEmptyIffBlank` | app/generate/page.js:40 | `!s.trim()` holds exactly when every character of `s` is whitespace, both directions |
| `DocumentStore.OccurrencesAppend` | app/generate/page.js:87 | appending an entry adds one occurrence of its own name and none of any other |
| `StudyPage.NextIndex` | app/flashcard/page.js:47 | the index after Next is in `[0, n)`; from `i < n-1` it is `i+1`, and from the last card `n-1` it is 0; from any index it is one place after `i`'s position modulo `n` |
| `StudyPage.PrevIndex` | app/flashcard/page.js:54 | the index after Previous is in `[0, n)`; from `0 < i < n` it is `i-1`, and from 0 it is `n-1`; from any index it is one place before `i`'s position modulo `n` |
| `StudyPage.Next` | app/flashcard/page.js:45-50 | on a non-empty deck, only the index and the flag change: the index becomes `NextIndex` of the old one and the answer is hidden; with a null or empty deck nothing changes |
| `StudyPage.Prev` | app/flashcard/page.js:52-57 | on a non-empty deck, only the index and the flag change: the index becomes `PrevIndex` of the old one and the answer is hidden; with a null or empty deck nothing changes |
| `StudyPage.Toggle` | app/flashcard/page.js:59-61 | negates `showAnswer` and changes nothing else |
| `StudyPage.NextThenPrev` | app/flashcard/page.js:45-57 | from an index in range, Previous after Next restores the state, except that the answer is hidden; with no deck both are no-ops |
| `StudyPage.PrevThenNext` | app/flashcard/page.js:45-57 | from an index in range, Next after Previous restores the state, except that the answer is hidden; with no deck both are no-ops |
| `StudyPage.ToggleTwice` | app/flashcard/page.js:59-61 | two flips are the identity |
| `StudyPage.NextTimesIndex` | app/flashcard/page.js:47 | from an index in range, `k <= n` presses of Next move the index `k` places round the deck, wrapping once; the deck is unchanged |
| `StudyPage.FullCycle` | app/flashcard/page.js:47 | from an index in range, `n` presses of Next on a deck of `n` cards return to the starting index (from an index past the end they stop at that index modulo `n`, so the lemma needs the bound) |
| `StudyPage.Classify` | app/flashcard/page.js:25-34 | a missing document gives not found; an absent or empty `flashcards` gives empty; otherwise the deck, exactly the stored cards, each direction an if-and-only-if |
| `StudyPage.AfterLoad` | app/flashcard/page.js:21-41 | loading ends in every case; a throwing read sets "Failed to fetch flashcards."; a missing document sets "Flashcard set not found."; an empty one sets "Flashcard set is empty."; otherwise the deck is set; index and flag are untouched |
| `StudyPage.FirstLoadShowsFirstFront` | app/flashcard/page.js:11-34 | a first load that finds cards leaves the index in range and shows card 1 of n, front up, with the "Show Back" label |
| `StudyPage.Render` | app/flashcard/page.js:63-103 | loading, then a truthy error, then no deck take precedence, in that order; otherwise the back is shown if `showAnswer` is set and the front if not, with the counter `index+1` of `n` in `[1, n]` and the matching flip label; an index past the deck is a render failure |
| `StudyPage.NextShowsFollowingFront` | app/flashcard/page.js:45-50 | on a card screen, Next shows the front of the following card (the first after the last) and its counter |
| `StudyPage.PrevShowsPrecedingFront` | app/flashcard/page.js:52-57 | on a card screen, Previous shows the front of the preceding card (the last before the first) and its counter |
| `StudyPage.ToggleShowsOtherSide` | app/flashcard/page.js:59-61 | on a card screen, the flip shows the other side of the same card at the same position |
| `StudyPage.FlashcardSetPage.constructor` | app/flashcard/page.js:11-15 | no deck, index 0, answer hidden, loading, no error |
| `StudyPage.FlashcardSetPage.HandleNextCard` | app/flashcard/page.js:45-50 | the new state is `Next` of the old state |
| `StudyPage.FlashcardSetPage.HandlePrevCard` | app/flashcard/page.js:52-57 | the new state is `Prev` of the old state |
| `StudyPage.FlashcardSetPage.ToggleAnswer` | app/flashcard/page.js:59-61 | the new state is `Toggle` of the old state |
| `StudyPage.FlashcardSetPage.GetFlashcards` | app/flashcard/page.js:19-43 | without loaded auth, a user and a non-empty `id`, nothing changes (loading stays set); otherwise the new state is `AfterLoad` of the read of `users/{uid}/flashcardSets/{id}` |
| `GeneratePage.SaveGate` | app/generate/page.js:66-77 | the gates apply in order: not ready, then a name that is blank after trimming, then no user id; all pass exactly when ready, the name is not blank and the user id is truthy |
| `GeneratePage.AlertForDistinct` | app/generate/page.js:67-101 | each save outcome raises its own alert of lines 67, 71, 75, 97 and 101: the five texts are pairwise distinct, so the alert identifies the outcome |
| `GeneratePage.SavedIndex` | app/generate/page.js:85-91 | with a root document, the new index is the old index (absent read as `[]`) with every entry kept in order and `{name}` appended last; without one, the index is exactly `[{name}]` |
| `GeneratePage.SaveBatch` | app/generate/page.js:81-96 | the committed batch replaces the user's index with `SavedIndex` and writes the set document at the untrimmed name with the cards, overwriting; every other user and set document is unchanged |
| `GeneratePage.SaveAppendsOneEntry` | app/generate/page.js:85-91 | after a save, the stored index is the old one plus `{name}`, and the name occurs once more, with no deduplication |
| `GeneratePage.SaveTwiceOverwrites` | app/generate/page.js:87-96 | saving twice under one name leaves the second cards in the set document and two more index entries for the name |
| `GeneratePage.GeneratePage.constructor` | app/generate/page.js:12-18 | empty text, cards and name; auth not ready; no request in flight |
| `GeneratePage.GeneratePage.SetText` | app/generate/page.js:140 | the text field's change handler sets `text` only |
| `GeneratePage.GeneratePage.SetSetName` | app/generate/page.js:196 | the name field's change handler sets `setName` only |
| `GeneratePage.GeneratePage.SetAuthReady` | app/generate/page.js:27-30 | the sign-in outcome sets `authReady` only |
| `GeneratePage.GeneratePage.HandleSubmit` | app/generate/page.js:39-63 | blank text raises the empty-text alert and changes nothing; otherwise `isGenerating` ends false, and a response replaces `flashcards` while a failure keeps them and raises the error alert; no request is left in flight |
| `GeneratePage.GeneratePage.SaveFlashcards` | app/generate/page.js:65-105 | the outcome is the first failing gate, else a failure if the read or commit throws, else saved; on success the store becomes `SaveBatch` of the old store with the untrimmed name, and `setName` becomes `''`; otherwise the store and the name are unchanged; `isSaving` ends false, so no request is left in flight |
| `DocumentStore.StoredIndex` | app/flashcards/page.js:30-32 | the listed sets are the root document's index, or `[]` when the field is absent |
| `SetListPage.InitUserDoc` | app/flashcards/page.js:33-36 | a missing root document is created as `{flashcardSets: []}`; nothing else changes |
| `SetListPage.RemoveByName` | app/flashcards/page.js:99 | an entry is kept exactly when it was there and its name differs from the target |
| `SetListPage.RemoveByNameAppend` | app/flashcards/page.js:99 | the filter distributes over concatenation, so the kept entries stay in their original order |
| `SetListPage.RemoveByNameAbsent` | app/flashcards/page.js:99 | a list without the name is returned unchanged |
| `SetListPage.RemoveByNameIdempotent` | app/flashcards/page.js:99 | deleting the same name twice leaves the list as after once |
| `SetListPage.RemoveByNameCounts` | app/flashcards/page.js:99 | every entry with the name is removed, and every other entry keeps its multiplicity |
| `SetListPage.DeleteSetDoc` | app/flashcards/page.js:93-96 | only the set document `users/uid/flashcardSets/name` is removed; every root document, and so every stored index, is unchanged |
| `SetListPage.FirstHit` | app/flashcards/page.js:71-77 | the position, from `from` on, of the first set whose own request gives a truthy url: every earlier request failed, and the one there succeeded, or the list length when none does |
| `SetListPage.RepeatedNameCanHitLater` | app/flashcards/page.js:71-77 | with one name listed twice, a failed first request and a successful second one take the thumbnail from the second entry |
| `SetListPage.FlashcardsPage.constructor` | app/flashcards/page.js:16-19 | empty list, loading, no error, empty image url |
| `SetListPage.FlashcardsPage.GetFlashcards` | app/flashcards/page.js:23-46 | nothing runs without loaded auth and a user; otherwise loading ends; a found root document gives `StoredIndex` of it; a missing one is created and the list is `[]`; a read or write that throws sets "Failed to fetch flashcards." and leaves the list and store unchanged |
| `SetListPage.FlashcardsPage.HandleDelete` | app/flashcards/page.js:89-104 | with no user nothing happens; a failed delete sets "Failed to delete flashcard set."; otherwise the store becomes `DeleteSetDoc` of the old store and the list becomes `RemoveByName` of the old list |
| `SetListPage.FlashcardsPage.GetImage` | app/flashcards/page.js:70-82 | requests run in list order, the `j`-th for entry `j`, and stop at the first success, whose url becomes `imageUrl`; if none succeeds, or the list is empty, `imageUrl` is unchanged; the number of lookups is the first hit's position plus one, or the list length |
| `Workflows.SavedSetIsListedAndStudied` | app/generate/page.js:85-96 | after a save, the list page lists the name last; if the study page is opened with `id` equal to the name, it finds the saved cards, or reports the set empty when no cards were saved |
| `Workflows.DeleteLeavesStaleIndexEntry` | app/flashcards/page.js:93-99 | after a save and a delete of the same name, the stored index still lists the name, while the study page classifies the set as not found |
| `Workflows.DeleteKeepsOtherSets` | app/flashcards/page.js:93-96 | deleting one set leaves every other set of every user reading as before |

## Left out

- app/page.js, app/result/page.js, app/api/checkout_sessions/route.js and app/layout.js are not part of this model. They hold marketing UI, a payment checkout redirect, a single paid/unpaid branch and provider wiring, all over a foreign SDK.
- The sign-in effect (`getToken`, `signInWithCustomToken`, app/generate/page.js:21-37) is an external token exchange. The model only takes its outcome, through `SetAuthReady`.
- The image-search HTTP call (`fetchImages`, app/flashcards/page.js:49-68) is external. It is the `lookup` parameter, answering per request, so a failed or empty search and a caught error are both just `None`.
- The `/api/generate` endpoint is not in the repository. Its parsed JSON is assumed to be a card array, and its shape is not validated.
- `handleCardClick` (app/flashcards/page.js:85-87) is not modelled. It puts the set name into `/flashcard?id=${id}` without URL-encoding it, and the study page reads it back with `searchParams.get('id')` (app/flashcard/page.js:17). A name containing `&`, `+`, `#` or a `%` escape therefore arrives altered, and the study page reads a different key. The model's study page takes `setId` as it arrives, and `Workflows.SavedSetIsListedAndStudied` assumes it equals the saved name.
- Rendering of the list and generate pages is not modelled; on the study page, `Render` gives the screen chosen, not the layout.
- Store semantics: a batch commit is all-or-nothing, as one map update of each map. Document-id restrictions on set names, such as `/`, are not modelled.
- React scheduling is not modelled: asynchronous interleaving of handlers, effect re-runs triggered by dependency changes, and buttons disabled while a request is in flight. `isGenerating` and `isSaving` are true only inside a handler, so the model shows only their final values.
- `alert` and console output: both handlers return what they would alert. `HandleSubmit` returns the alert text, and `SaveFlashcards` returns a `SaveOutcome`, whose text is `GeneratePage.AlertFor` of it. Console logging is dropped.
