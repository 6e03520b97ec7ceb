/**
 The annotation page's session: the fixed problem list, the store, the
 position of the problem on screen and the selected annotation (`-1` for
 a new one). Each method is one button or list handler, with the page
 rendering cut away.
 */
module AnnotationPage {
  import opened Text
  import opened Keywords
  import opened Annotations
  import opened Store

  class Session {
    const problems: seq<Problem>
    var annotations: AnnotationMap
    var currentIndex: int
    var selection: int

    /**
     The session's invariant: the shown problem exists, the store is well
     formed, and the selection is "new" or an entry of the shown list.
     */
    ghost predicate Valid()
      reads this
    {
      && 0 <= currentIndex < |problems|
      && WellFormed(annotations)
      && -1 <= selection < |List(annotations, problems[currentIndex].questionId)|
    }

    /** The id of the problem on screen. */
    function CurrentId(): string
      reads this
      requires 0 <= currentIndex < |problems|
    {
      problems[currentIndex].questionId
    }

    /** The annotations listed for the problem on screen. */
    function Current(): seq<Record>
      reads this
      requires 0 <= currentIndex < |problems|
    {
      List(annotations, CurrentId())
    }

    /**
     Page load: the first problem is shown with nothing selected, over the
     store persisted by earlier sessions.
     */
    constructor (problems: seq<Problem>, stored: AnnotationMap)
      requires |problems| > 0 && WellFormed(stored)
      ensures Valid()
      ensures this.problems == problems && annotations == stored
      ensures currentIndex == 0 && selection == -1
    {
      this.problems := problems;
      annotations := stored;
      currentIndex := 0;
      selection := -1;
    }

    /**
     The save button. The form becomes a record of the shown problem; with
     nothing selected it is appended and becomes the selection, otherwise
     it replaces the selected entry.
     */
    method Save(timestamp: string, checked: seq<bool>, modifiedContent: string, slots: seq<QaPair>)
      requires Valid() && |checked| == |Categories| && |slots| == SlotCount
      modifies this
      ensures Valid()
      ensures currentIndex == old(currentIndex)
      ensures var record := FormRecord(timestamp, CurrentId(), checked, modifiedContent, slots);
              && (old(selection) == -1 ==>
                    annotations == Appended(old(annotations), CurrentId(), record)
                    && selection == |old(Current())|)
              && (old(selection) != -1 ==>
                    annotations == Replaced(old(annotations), CurrentId(), old(selection), record)
                    && selection == old(selection))
              && 0 <= selection < |Current()| && Current()[selection] == record
    {
      ghost var before := annotations;
      var id := problems[currentIndex].questionId;
      if id !in annotations {
        annotations := annotations[id := []];
      }
      assert annotations == before[id := List(before, id)];
      var pairs := BuildQaPairs(slots);
      var record := Record(timestamp, id, SelectedKeywords(checked), Trim(modifiedContent), pairs);
      assert record == FormRecord(timestamp, id, checked, modifiedContent, slots);
      if selection == -1 {
        annotations := annotations[id := annotations[id] + [record]];
        assert annotations == Appended(before, id, record);
        selection := |annotations[id]| - 1;
      } else {
        annotations := annotations[id := annotations[id][selection := record]];
        assert annotations == Replaced(before, id, selection, record);
      }
    }

    /**
     A confirmed click on the delete button of entry `i` of the shown
     list: the entry is removed and the selection follows its record.
     */
    method Delete(i: nat)
      requires Valid() && i < |Current()|
      modifies this
      ensures Valid()
      ensures currentIndex == old(currentIndex)
      ensures annotations == Removed(old(annotations), CurrentId(), i)
      ensures selection == ShiftSelection(old(selection), i)
    {
      ghost var before := annotations;
      var id := problems[currentIndex].questionId;
      var l := annotations[id];
      annotations := annotations[id := l[..i] + l[i + 1..]];
      if |annotations[id]| == 0 {
        annotations := annotations - {id};
        assert annotations == before - {id};
      }
      assert annotations == Removed(before, id, i);
      if selection == i {
        selection := -1;
      } else if selection > i {
        selection := selection - 1;
      }
      SelectionFollowsRecord(old(annotations), id, i, old(selection));
    }

    /** A click on entry `i` of the shown list selects it. */
    method Select(i: nat)
      requires Valid() && i < |Current()|
      modifies this
      ensures Valid()
      ensures selection == i
      ensures annotations == old(annotations) && currentIndex == old(currentIndex)
    {
      selection := i;
    }

    /** The "new annotation" button clears the selection. */
    method NewAnnotation()
      requires Valid()
      modifies this
      ensures Valid()
      ensures selection == -1
      ensures annotations == old(annotations) && currentIndex == old(currentIndex)
    {
      selection := -1;
    }

    /**
     The previous button: moves back one problem unless the first is shown,
     and a move clears the selection.
     */
    method Prev()
      requires Valid()
      modifies this
      ensures Valid()
      ensures annotations == old(annotations)
      ensures old(currentIndex) > 0 ==> currentIndex == old(currentIndex) - 1 && selection == -1
      ensures old(currentIndex) == 0 ==> currentIndex == 0 && selection == old(selection)
    {
      if currentIndex > 0 {
        currentIndex := currentIndex - 1;
        selection := -1;
      }
    }

    /**
     The next button: moves on one problem unless the last is shown, and a
     move clears the selection.
     */
    method Next()
      requires Valid()
      modifies this
      ensures Valid()
      ensures annotations == old(annotations)
      ensures old(currentIndex) < |problems| - 1 ==> currentIndex == old(currentIndex) + 1 && selection == -1
      ensures old(currentIndex) == |problems| - 1 ==> currentIndex == old(currentIndex) && selection == old(selection)
    {
      if currentIndex < |problems| - 1 {
        currentIndex := currentIndex + 1;
        selection := -1;
      }
    }
  }
}
