/** The application shell's state and handlers (App.tsx): the library of
    sets, the tab, the running session, the set being edited, the delete
    prompt and the import dialog. */
module App {

  import opened Wrappers
  import opened Types
  import opened JsText
  import opened Library

  class Store {
    var sets: seq<ProblemSet>
    var activeTab: TabType
    var activeSet: Option<ProblemSet>
    var editingSet: Option<ProblemSet>
    var showImportModal: bool
    var setToDelete: Option<ProblemSet>
    var importCode: string

    /** The first render plus the load effect: the stored text, when there is
        a non-empty one and `parse` accepts it, becomes the library; anything
        else leaves it empty. */
    constructor Load(stored: Option<string>, parse: string -> Option<seq<ProblemSet>>)
      ensures stored.Some? && stored.value != "" && parse(stored.value).Some? ==> sets == parse(stored.value).value
      ensures stored.None? || stored.value == "" || parse(stored.value).None? ==> sets == []
      ensures activeTab == Library && activeSet == None && editingSet == None
      ensures !showImportModal && setToDelete == None && importCode == ""
    {
      activeTab := Library;
      activeSet := None;
      editingSet := None;
      showImportModal := false;
      setToDelete := None;
      importCode := "";
      sets := [];
      if stored.Some? && stored.value != "" {
        var parsed := parse(stored.value);
        if parsed.Some? {
          sets := parsed.value;
        }
      }
    }

    /** `handleSaveSet`: while editing, every set with the saved id is
        replaced; otherwise the saved set goes in front. Either way the
        library tab is shown and nothing is being edited. */
    method HandleSaveSet(saved: ProblemSet)
      modifies this`sets, this`activeTab, this`editingSet
      ensures old(editingSet).Some? ==> sets == ReplaceById(old(sets), saved)
      ensures old(editingSet).None? ==> sets == [saved] + old(sets)
      ensures activeTab == Library && editingSet == None
      ensures UniqueIds(old(sets)) && (old(editingSet).Some? || saved.id !in Ids(old(sets))) ==> UniqueIds(sets)
    {
      if editingSet.Some? {
        ReplaceKeepsUnique(sets, saved);
        sets := ReplaceById(sets, saved);
      } else {
        PrependUnique(saved, sets);
        sets := [saved] + sets;
      }
      activeTab := Library;
      editingSet := None;
    }

    /** `handleImport` with the decoding chain `decode` (base64, UTF-8 and
        JSON): a blank code does nothing; a code that does not decode leaves
        everything as it is; a decoded set goes in front with a fresh id, a
        fresh creation time and the import suffix, and the dialog closes. */
    method HandleImport(decode: string -> Option<ProblemSet>, freshId: string, now: int)
      returns (imported: bool)
      modifies this`sets, this`importCode, this`showImportModal
      ensures imported <==> !IsBlank(old(importCode)) && decode(Trim(old(importCode))).Some?
      ensures !imported ==> sets == old(sets) && importCode == old(importCode)
                            && showImportModal == old(showImportModal)
      ensures imported ==> && sets == [ImportedSet(decode(Trim(old(importCode))).value, freshId, now)] + old(sets)
                           && importCode == "" && !showImportModal
      ensures UniqueIds(old(sets)) && freshId !in Ids(old(sets)) ==> UniqueIds(sets)
    {
      TrimEmptyIffBlank(importCode);
      if Trim(importCode) == "" {
        return false;
      }
      var decoded := decode(Trim(importCode));
      if decoded.None? {
        return false;
      }
      var s := ImportedSet(decoded.value, freshId, now);
      PrependUnique(s, sets);
      sets := [s] + sets;
      importCode := "";
      showImportModal := false;
      imported := true;
    }

    /** `onRemoveSet(id)`: the prompt is armed with the first set that has
        the id, and only when there is one. */
    method RequestDelete(id: string)
      modifies this`setToDelete
      ensures id in Ids(sets) ==> setToDelete == FindById(sets, id) && setToDelete.value.id == id
      ensures id !in Ids(sets) ==> setToDelete == old(setToDelete)
    {
      var target := FindById(sets, id);
      if target.Some? {
        setToDelete := target;
      }
    }

    /** `confirmDelete`: every set with the prompted id goes, the others keep
        their order, and the prompt closes. */
    method ConfirmDelete()
      modifies this`sets, this`setToDelete
      ensures old(setToDelete).Some? ==> sets == RemoveById(old(sets), old(setToDelete).value.id)
      ensures old(setToDelete).None? ==> sets == old(sets)
      ensures setToDelete == None
      ensures UniqueIds(old(sets)) ==> UniqueIds(sets)
    {
      if setToDelete.Some? {
        RemoveKeepsUnique(sets, setToDelete.value.id);
        sets := RemoveById(sets, setToDelete.value.id);
        setToDelete := None;
      }
    }

    /** The cancel button of the delete prompt. */
    method CancelDelete()
      modifies this`setToDelete
      ensures setToDelete == None
    {
      setToDelete := None;
    }

    /** `handleFinishQuiz`: a non-empty kept list becomes one review set in
        front of the library; the session closes either way. */
    method HandleFinishQuiz(kept: seq<Problem>, title: string, freshId: string, now: int, date: string)
      modifies this`sets, this`activeSet
      ensures kept != [] ==> sets == [ReviewSet(kept, title, freshId, now, date)] + old(sets)
      ensures kept == [] ==> sets == old(sets)
      ensures activeSet == None
      ensures UniqueIds(old(sets)) && freshId !in Ids(old(sets)) ==> UniqueIds(sets)
    {
      if |kept| > 0 {
        var review := ReviewSet(kept, title, freshId, now, date);
        PrependUnique(review, sets);
        sets := [review] + sets;
      }
      activeSet := None;
    }

    /** `handleStartSet`: the set's session is shown. */
    method HandleStartSet(s: ProblemSet)
      modifies this`activeSet
      ensures activeSet == Some(s)
    {
      activeSet := Some(s);
    }

    /** `onClose` of the session: back to the library, which is untouched. */
    method CloseSession()
      modifies this`activeSet
      ensures activeSet == None
    {
      activeSet := None;
    }

    /** `handleEditSet`: the form opens on the set. */
    method HandleEditSet(s: ProblemSet)
      modifies this`editingSet, this`activeTab
      ensures editingSet == Some(s) && activeTab == Create
    {
      editingSet := Some(s);
      activeTab := Create;
    }

    /** `handleCancelEdit`. */
    method HandleCancelEdit()
      modifies this`editingSet, this`activeTab
      ensures editingSet == None && activeTab == Library
    {
      editingSet := None;
      activeTab := Library;
    }

    /** The header's tab switch: going to the library drops the set being
        edited; going to the form keeps it. */
    method SwitchTab(tab: TabType)
      modifies this`editingSet, this`activeTab
      ensures activeTab == tab
      ensures tab == Library ==> editingSet == None
      ensures tab == Create ==> editingSet == old(editingSet)
    {
      activeTab := tab;
      if tab == Library {
        editingSet := None;
      }
    }

    /** The import button and the dialog's close and cancel buttons. */
    method SetImportModal(open: bool)
      modifies this`showImportModal
      ensures showImportModal == open
    {
      showImportModal := open;
    }

    /** Typing in the dialog's text area. */
    method EditImportCode(code: string)
      modifies this`importCode
      ensures importCode == code
    {
      importCode := code;
    }
  }
}
