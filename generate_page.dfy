/**
 * The generate page: it sends pasted text to the generation endpoint, shows the
 * returned cards, and saves them under a name as a new set of the signed-in user.
 */
module GeneratePage {
  import opened Wrappers
  import opened JsString
  import opened DocumentStore

  const EmptyTextAlert: string := "Please enter some text to generate flashcards."
  const GenerateFailedAlert: string := "An error occurred while generating flashcards. Please try again."
  const AuthNotReadyAlert: string := "Authentication is not yet ready. Please wait a moment and try again."
  const BlankNameAlert: string := "Please enter a name for your flashcard set."
  const SignedOutAlert: string := "You need to be signed in to save flashcards."
  const SavedAlert: string := "Flashcards saved successfully!"
  const SaveFailedAlert: string := "An error occurred while saving flashcards. Please try again."

  /** How a press of Save ends. */
  datatype SaveOutcome = AuthNotReady | BlankName | SignedOut | Saved | SaveFailed

  /** The alert each outcome raises. */
  function AlertFor(o: SaveOutcome): string {
    match o
    case AuthNotReady => AuthNotReadyAlert
    case BlankName => BlankNameAlert
    case SignedOut => SignedOutAlert
    case Saved => SavedAlert
    case SaveFailed => SaveFailedAlert
  }

  /** Different outcomes raise different alerts, so the alert tells which outcome it was. */
  lemma AlertForDistinct(a: SaveOutcome, b: SaveOutcome)
    ensures AlertFor(a) == AlertFor(b) <==> a == b
  {
  }

  /** The three gates of `saveFlashcards`, in order: sign-in readiness, a name that is
      not blank after trimming, a user id. None when all pass. */
  function SaveGate(authReady: bool, setName: string, userId: Option<Uid>): (r: Option<SaveOutcome>)
    ensures r == Some(AuthNotReady) <==> !authReady
    ensures r == Some(BlankName) <==> authReady && IsBlank(setName)
    ensures r == Some(SignedOut) <==> authReady && !IsBlank(setName) && !Truthy(userId)
    ensures r == None <==> authReady && !IsBlank(setName) && Truthy(userId)
  {
    TrimEmptyIffBlank(setName);
    if !authReady then Some(AuthNotReady)
    else if Trim(setName) == "" then Some(BlankName)
    else if !Truthy(userId) then Some(SignedOut)
    else None
  }

  /** The index a save writes: the existing root document's index (absent read as `[]`)
      with the new name appended, or just the new name when there is no root document. */
  function SavedIndex(existing: Option<UserDoc>, name: string): (r: seq<SetEntry>)
    ensures existing.Some? ==> |r| == |StoredIndex(existing.value)| + 1 && r[..|r| - 1] == StoredIndex(existing.value)
    ensures existing.None? ==> |r| == 1
    ensures r[|r| - 1] == SetEntry(name)
  {
    match existing
    case Some(doc) => StoredIndex(doc) + [SetEntry(name)]
    case None => [SetEntry(name)]
  }

  /** The committed batch: the user's root document gets the new index, and the set
      document at `name` is written with `cards`, replacing whatever was there. */
  function SaveBatch(st: Store, uid: Uid, name: string, cards: seq<Card>): (r: Store)
    ensures r.users.Keys == st.users.Keys + {uid}
    ensures r.users[uid] == UserDoc(Some(SavedIndex(Get(st.users, uid), name)))
    ensures forall u | u in st.users && u != uid :: r.users[u] == st.users[u]
    ensures r.sets.Keys == st.sets.Keys + {SetKey(uid, name)}
    ensures r.sets[SetKey(uid, name)] == SetDoc(Some(cards))
    ensures forall k | k in st.sets && k != SetKey(uid, name) :: r.sets[k] == st.sets[k]
  {
    Store(st.users[uid := UserDoc(Some(SavedIndex(Get(st.users, uid), name)))],
          st.sets[SetKey(uid, name) := SetDoc(Some(cards))])
  }

  /** Saving under a name keeps every earlier index entry in order and adds one more
      entry with that name, even when the name is already there (no deduplication). */
  lemma SaveAppendsOneEntry(st: Store, uid: Uid, name: string, cards: seq<Card>)
    ensures var before := if uid in st.users then StoredIndex(st.users[uid]) else [];
            var after := StoredIndex(SaveBatch(st, uid, name, cards).users[uid]);
            && after == before + [SetEntry(name)]
            && Occurrences(after, name) == Occurrences(before, name) + 1
  {
    var before := if uid in st.users then StoredIndex(st.users[uid]) else [];
    var after := StoredIndex(SaveBatch(st, uid, name, cards).users[uid]);
    assert after == before + [SetEntry(name)];
    OccurrencesAppend(before, SetEntry(name), name);
  }

  /** Saving twice under one name leaves the second cards in the set document and
      two more entries of the name in the index. */
  lemma SaveTwiceOverwrites(st: Store, uid: Uid, name: string, first: seq<Card>, second: seq<Card>)
    ensures var st1 := SaveBatch(st, uid, name, first);
            var st2 := SaveBatch(st1, uid, name, second);
            var before := if uid in st.users then StoredIndex(st.users[uid]) else [];
            && st2.sets[SetKey(uid, name)] == SetDoc(Some(second))
            && Occurrences(StoredIndex(st2.users[uid]), name) == Occurrences(before, name) + 2
  {
    var st1 := SaveBatch(st, uid, name, first);
    SaveAppendsOneEntry(st, uid, name, first);
    SaveAppendsOneEntry(st1, uid, name, second);
  }

  /** The component: its fields are the page's React state variables. */
  class GeneratePage {
    var text: string
    var flashcards: seq<Card>
    var setName: string
    var authReady: bool
    var isGenerating: bool
    var isSaving: bool

    /** Between handlers neither request is in flight: the constructor establishes this
        and both request handlers keep it (the setters do not touch the flags). */
    predicate Idle()
      reads this
    {
      !isGenerating && !isSaving
    }

    constructor ()
      ensures text == "" && flashcards == [] && setName == "" && !authReady && Idle()
    {
      text := "";
      flashcards := [];
      setName := "";
      authReady := false;
      isGenerating := false;
      isSaving := false;
    }

    /** The text field's change handler. */
    method SetText(value: string)
      modifies this`text
      ensures text == value
    {
      text := value;
    }

    /** The set-name field's change handler. */
    method SetSetName(value: string)
      modifies this`setName
      ensures setName == value
    {
      setName := value;
    }

    /** The sign-in effect settling: `ok` is whether the token exchange succeeded. */
    method SetAuthReady(ok: bool)
      modifies this`authReady
      ensures authReady == ok
    {
      authReady := ok;
    }

    /** `handleSubmit`: `response` is the parsed card array of `/api/generate`, or None
        when the request throws or answers with a non-OK status. */
    method HandleSubmit(response: Option<seq<Card>>) returns (alert: Option<string>)
      requires Idle()
      modifies this`flashcards, this`isGenerating
      ensures Idle()
      ensures IsBlank(old(text)) ==>
                alert == Some(EmptyTextAlert) && flashcards == old(flashcards) && isGenerating == old(isGenerating)
      ensures !IsBlank(old(text)) ==> !isGenerating
      ensures !IsBlank(old(text)) && response.Some? ==> flashcards == response.value && alert == None
      ensures !IsBlank(old(text)) && response.None? ==> flashcards == old(flashcards) && alert == Some(GenerateFailedAlert)
    {
      TrimEmptyIffBlank(text);
      if Trim(text) == "" {
        alert := Some(EmptyTextAlert);
        return;
      }
      isGenerating := true;
      if response.Some? {
        flashcards := response.value;
        alert := None;
      } else {
        alert := Some(GenerateFailedAlert);
      }
      isGenerating := false;
    }

    /** `saveFlashcards`: `readFails` and `commitFails` stand for `getDoc` and
        `batch.commit` throwing. The name is stored as typed, untrimmed. */
    method SaveFlashcards(db: Database, userId: Option<Uid>, readFails: bool, commitFails: bool)
      returns (outcome: SaveOutcome)
      requires Idle()
      modifies this`setName, this`isSaving, db
      ensures Idle()
      ensures var gate := SaveGate(old(authReady), old(setName), userId);
              outcome == if gate.Some? then gate.value else if readFails || commitFails then SaveFailed else Saved
      ensures outcome == Saved ==>
                && db.Snapshot() == SaveBatch(old(db.Snapshot()), userId.value, old(setName), flashcards)
                && setName == ""
      ensures outcome != Saved ==> db.Snapshot() == old(db.Snapshot()) && setName == old(setName)
      ensures !isSaving
    {
      var gate := SaveGate(authReady, setName, userId);
      if !authReady {
        outcome := AuthNotReady;
        return;
      }
      if Trim(setName) == "" {
        outcome := BlankName;
        return;
      }
      if !Truthy(userId) {
        outcome := SignedOut;
        return;
      }
      assert gate == None;
      isSaving := true;
      if readFails {
        outcome := SaveFailed;
      } else {
        var uid := userId.value;
        var existing := Get(db.users, uid);
        var updatedSets := SavedIndex(existing, setName);
        if commitFails {
          outcome := SaveFailed;
        } else {
          db.users := db.users[uid := UserDoc(Some(updatedSets))];
          db.sets := db.sets[SetKey(uid, setName) := SetDoc(Some(flashcards))];
          outcome := Saved;
          setName := "";
        }
      }
      isSaving := false;
    }
  }
}
