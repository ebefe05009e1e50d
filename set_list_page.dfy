/**
 * The page listing a user's sets: it loads the index from the root document
 * (creating that document when it is missing), picks one thumbnail image, and
 * deletes sets.
 */
module SetListPage {
  import opened Wrappers
  import opened JsString
  import opened DocumentStore

  const LoadFailedMessage: string := "Failed to fetch flashcards."
  const DeleteFailedMessage: string := "Failed to delete flashcard set."

  /** The store after a load that found no root document: it now holds `{flashcardSets: []}`. */
  function InitUserDoc(st: Store, uid: Uid): (r: Store)
    requires uid !in st.users
    ensures r.users.Keys == st.users.Keys + {uid}
    ensures r.users[uid] == UserDoc(Some([]))
    ensures forall u | u in st.users :: r.users[u] == st.users[u]
    ensures r.sets == st.sets
  {
    st.(users := st.users[uid := UserDoc(Some([]))])
  }

  /** `sets.filter(set => set.name !== name)`. */
  function RemoveByName(sets: seq<SetEntry>, name: string): (r: seq<SetEntry>)
    ensures |r| <= |sets|
    ensures forall e :: e in r <==> e in sets && e.name != name
  {
    if sets == [] then []
    else if sets[0].name == name then RemoveByName(sets[1..], name)
    else [sets[0]] + RemoveByName(sets[1..], name)
  }

  /** Filtering distributes over concatenation: the kept entries stay in their order. */
  lemma {:induction false} RemoveByNameAppend(a: seq<SetEntry>, b: seq<SetEntry>, name: string)
    ensures RemoveByName(a + b, name) == RemoveByName(a, name) + RemoveByName(b, name)
  {
    if a == [] {
      assert a + b == b;
    } else {
      assert (a + b)[0] == a[0] && (a + b)[1..] == a[1..] + b;
      RemoveByNameAppend(a[1..], b, name);
    }
  }

  /** An index without the name is left exactly as it was. */
  lemma {:induction false} RemoveByNameAbsent(sets: seq<SetEntry>, name: string)
    requires forall i | 0 <= i < |sets| :: sets[i].name != name
    ensures RemoveByName(sets, name) == sets
  {
    if sets != [] {
      RemoveByNameAbsent(sets[1..], name);
    }
  }

  /** Deleting a name a second time changes nothing more. */
  lemma RemoveByNameIdempotent(sets: seq<SetEntry>, name: string)
    ensures RemoveByName(RemoveByName(sets, name), name) == RemoveByName(sets, name)
  {
    var r := RemoveByName(sets, name);
    forall i | 0 <= i < |r| ensures r[i].name != name {
      assert r[i] in r;
    }
    RemoveByNameAbsent(r, name);
  }

  /** Every occurrence of the name goes and every other entry keeps its multiplicity. */
  lemma {:induction false} RemoveByNameCounts(sets: seq<SetEntry>, name: string, e: SetEntry)
    ensures multiset(RemoveByName(sets, name))[e] == if e.name == name then 0 else multiset(sets)[e]
  {
    if sets != [] {
      RemoveByNameCounts(sets[1..], name, e);
      assert sets == [sets[0]] + sets[1..];
    }
  }

  /** The store after `deleteDoc(users/uid/flashcardSets/name)`: that one set document is gone;
      the root documents, and so every stored index, are untouched. */
  function DeleteSetDoc(st: Store, uid: Uid, name: string): (r: Store)
    ensures r.users == st.users
    ensures r.sets.Keys == st.sets.Keys - {SetKey(uid, name)}
    ensures forall k | k in r.sets :: r.sets[k] == st.sets[k]
  {
    st.(sets := st.sets - {SetKey(uid, name)})
  }

  /** The image search's answer to one request: `lookup(j, name)` is what `fetchImages(name)`
      resolves to when it is the `j`-th request of the scan. Requests are separate HTTP calls,
      so two entries with the same name may get different answers. */
  type ImageLookup = (nat, string) -> Option<string>

  /** The position, at `from` or later, of the first set whose image request gives a usable
      (truthy) url, or the length of the list when none does. */
  function FirstHit(sets: seq<SetEntry>, lookup: ImageLookup, from: nat): (r: nat)
    requires from <= |sets|
    ensures from <= r <= |sets|
    ensures forall j | from <= j < r :: !Truthy(lookup(j, sets[j].name))
    ensures r < |sets| ==> Truthy(lookup(r, sets[r].name))
    decreases |sets| - from
  {
    if from == |sets| then from
    else if Truthy(lookup(from, sets[from].name)) then from
    else FirstHit(sets, lookup, from + 1)
  }

  /** A list may hold one name twice (saves do not deduplicate); the first request for it can
      fail and the second succeed, and the thumbnail then comes from the second entry. */
  lemma RepeatedNameCanHitLater(name: string, url: string)
    requires url != ""
    ensures var lookup: ImageLookup := (j: nat, n: string) => if j == 0 then None else Some(url);
            FirstHit([SetEntry(name), SetEntry(name)], lookup, 0) == 1
  {
    var lookup: ImageLookup := (j: nat, n: string) => if j == 0 then None else Some(url);
    assert !Truthy(lookup(0, name));
    assert Truthy(lookup(1, name));
  }

  /** The component: its fields are the page's React state variables. */
  class FlashcardsPage {
    var flashcardSets: seq<SetEntry>
    var loading: bool
    var error: Option<string>
    var imageUrl: string

    constructor ()
      ensures flashcardSets == [] && loading && error == None && imageUrl == ""
    {
      flashcardSets := [];
      loading := true;
      error := None;
      imageUrl := "";
    }

    /** The load effect: nothing runs until auth has loaded and a user is signed in; then the
        root document is read (`readFails`: `getDoc` throws) and, when missing, created
        (`writeFails`: `setDoc` throws). */
    method GetFlashcards(db: Database, isLoaded: bool, user: Option<Uid>, readFails: bool, writeFails: bool)
      modifies this`flashcardSets, this`loading, this`error, db
      ensures !isLoaded || user.None? ==>
                flashcardSets == old(flashcardSets) && loading == old(loading) && error == old(error)
                && db.Snapshot() == old(db.Snapshot())
      ensures isLoaded && user.Some? ==> !loading
      ensures isLoaded && user.Some? && readFails ==>
                error == Some(LoadFailedMessage) && flashcardSets == old(flashcardSets)
                && db.Snapshot() == old(db.Snapshot())
      ensures isLoaded && user.Some? && !readFails && user.value in old(db.users) ==>
                flashcardSets == StoredIndex(old(db.users)[user.value]) && error == old(error)
                && db.Snapshot() == old(db.Snapshot())
      ensures isLoaded && user.Some? && !readFails && user.value !in old(db.users) && writeFails ==>
                error == Some(LoadFailedMessage) && flashcardSets == old(flashcardSets)
                && db.Snapshot() == old(db.Snapshot())
      ensures isLoaded && user.Some? && !readFails && user.value !in old(db.users) && !writeFails ==>
                flashcardSets == [] && error == old(error)
                && db.Snapshot() == InitUserDoc(old(db.Snapshot()), user.value)
    {
      if !isLoaded || user.None? {
        return;
      }
      var uid := user.value;
      if readFails {
        error := Some(LoadFailedMessage);
      } else if uid in db.users {
        flashcardSets := StoredIndex(db.users[uid]);
      } else if writeFails {
        error := Some(LoadFailedMessage);
      } else {
        db.users := db.users[uid := UserDoc(Some([]))];
        flashcardSets := [];
      }
      loading := false;
    }

    /** `handleDelete`: with a signed-in user, deletes the set document (`deleteFails`:
        `deleteDoc` throws) and then drops every list entry with that name. */
    method HandleDelete(db: Database, user: Option<Uid>, name: string, deleteFails: bool)
      modifies this`flashcardSets, this`error, db
      ensures user.None? ==>
                flashcardSets == old(flashcardSets) && error == old(error) && db.Snapshot() == old(db.Snapshot())
      ensures user.Some? && deleteFails ==>
                flashcardSets == old(flashcardSets) && error == Some(DeleteFailedMessage)
                && db.Snapshot() == old(db.Snapshot())
      ensures user.Some? && !deleteFails ==>
                flashcardSets == RemoveByName(old(flashcardSets), name) && error == old(error)
                && db.Snapshot() == DeleteSetDoc(old(db.Snapshot()), user.value, name)
    {
      if user.None? {
        return;
      }
      if deleteFails {
        error := Some(DeleteFailedMessage);
        return;
      }
      db.sets := db.sets - {SetKey(user.value, name)};
      flashcardSets := RemoveByName(flashcardSets, name);
    }

    /** The thumbnail effect: when the list is non-empty, looks the sets up in order and
        takes the url of the first lookup that gives one, then stops. `lookups` is how many
        lookups were made. */
    method GetImage(lookup: ImageLookup) returns (lookups: nat)
      modifies this`imageUrl
      ensures var k := FirstHit(flashcardSets, lookup, 0);
              && lookups == (if k < |flashcardSets| then k + 1 else k)
              && imageUrl == (if k < |flashcardSets| then lookup(k, flashcardSets[k].name).value else old(imageUrl))
    {
      lookups := 0;
      if |flashcardSets| > 0 {
        var i: nat := 0;
        while i < |flashcardSets|
          invariant 0 <= i <= |flashcardSets|
          invariant lookups == i
          invariant forall j | 0 <= j < i :: !Truthy(lookup(j, flashcardSets[j].name))
          invariant imageUrl == old(imageUrl)
        {
          var image := lookup(i, flashcardSets[i].name);
          lookups := lookups + 1;
          if Truthy(image) {
            imageUrl := image.value;
            break;
          }
          i := i + 1;
        }
      }
    }
  }
}
