/**
 * What the three pages see of one another's writes to the shared store.
 */
module Workflows {
  import opened Wrappers
  import opened DocumentStore
  import StudyPage
  import GeneratePage
  import SetListPage

  /** A saved set is listed last on the list page, and the study page finds its cards
      (or reports it empty when the cards were empty). */
  lemma SavedSetIsListedAndStudied(st: Store, uid: Uid, name: string, cards: seq<Card>)
    ensures var after := GeneratePage.SaveBatch(st, uid, name, cards);
            var listed := StoredIndex(after.users[uid]);
            && listed != [] && listed[|listed| - 1] == SetEntry(name)
            && StudyPage.Classify(Get(after.sets, SetKey(uid, name)))
                 == (if cards == [] then StudyPage.Empty else StudyPage.Found(cards))
  {
  }

  /** The index/document drift: after saving and then deleting a set, the stored index
      still names it, so the list shows it again on the next load, while the study page
      reports it as not found. */
  lemma DeleteLeavesStaleIndexEntry(st: Store, uid: Uid, name: string, cards: seq<Card>)
    ensures var after := SetListPage.DeleteSetDoc(GeneratePage.SaveBatch(st, uid, name, cards), uid, name);
            && SetEntry(name) in StoredIndex(after.users[uid])
            && StudyPage.Classify(Get(after.sets, SetKey(uid, name))) == StudyPage.NotFound
  {
  }

  /** Deleting one set leaves every other set of every user readable as before. */
  lemma DeleteKeepsOtherSets(st: Store, uid: Uid, name: string, key: SetKey)
    requires key != SetKey(uid, name)
    ensures StudyPage.Classify(Get(SetListPage.DeleteSetDoc(st, uid, name).sets, key))
              == StudyPage.Classify(Get(st.sets, key))
  {
  }
}
