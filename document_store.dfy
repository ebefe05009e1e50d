/**
 * The per-user document store the pages share.
 *
 * Root document `users/{uid}` holds the set index `{flashcardSets: [{name}]}`;
 * `users/{uid}/flashcardSets/{name}` holds `{flashcards: [{front, back}]}`.
 * A field that a document lacks is None.
 */
module DocumentStore {
  import opened Wrappers

  type Uid = string

  /** One flashcard: no identity beyond its position in the set. */
  datatype Card = Card(front: string, back: string)

  /** One element of the root document's `flashcardSets` array. */
  datatype SetEntry = SetEntry(name: string)

  /** The root document of a user. */
  datatype UserDoc = UserDoc(flashcardSets: Option<seq<SetEntry>>)

  /** The document of one named set. */
  datatype SetDoc = SetDoc(flashcards: Option<seq<Card>>)

  /** The path `users/{uid}/flashcardSets/{name}`. */
  datatype SetKey = SetKey(uid: Uid, name: string)

  /** The whole store as a value: root documents by user, set documents by path. */
  datatype Store = Store(users: map<Uid, UserDoc>, sets: map<SetKey, SetDoc>)

  /** What `getDoc` yields: it throws, or it returns a snapshot that may not exist. */
  datatype Read<T> = Failed | Snapshot(doc: Option<T>)

  /** The root document's index, an absent field read as `[]` (`flashcardSets || []`). */
  function StoredIndex(doc: UserDoc): (r: seq<SetEntry>)
    ensures doc.flashcardSets.None? ==> r == []
    ensures doc.flashcardSets.Some? ==> r == doc.flashcardSets.value
  {
    doc.flashcardSets.GetOr([])
  }

  /** How many entries of an index carry `name`. */
  function Occurrences(index: seq<SetEntry>, name: string): nat {
    if index == [] then 0
    else (if index[0].name == name then 1 else 0) + Occurrences(index[1..], name)
  }

  /** Appending one entry adds one occurrence of its own name and none of any other. */
  lemma {:induction false} OccurrencesAppend(index: seq<SetEntry>, e: SetEntry, name: string)
    ensures Occurrences(index + [e], name) == Occurrences(index, name) + (if e.name == name then 1 else 0)
  {
    if index != [] {
      assert (index + [e])[1..] == index[1..] + [e];
      OccurrencesAppend(index[1..], e, name);
    }
  }

  /** The database the pages talk to; its two maps are what writes change. */
  class Database {
    var users: map<Uid, UserDoc>
    var sets: map<SetKey, SetDoc>

    constructor (users: map<Uid, UserDoc>, sets: map<SetKey, SetDoc>)
      ensures Snapshot() == Store(users, sets)
    {
      this.users := users;
      this.sets := sets;
    }

    /** The current contents as a value. */
    function Snapshot(): Store
      reads this
    {
      Store(users, sets)
    }
  }
}
