/**
 The annotation store: a table from problem id to that problem's list of
 records, in creation order. The functions here are the transitions the
 session applies to it; the session's methods are specified by them.
 */
module Store {
  import opened Annotations

  type AnnotationMap = map<string, seq<Record>>

  /**
   The store's invariant: no key maps to an empty list, and every record
   is well formed and carries the id of the key it is stored under.
   */
  ghost predicate WellFormed(m: AnnotationMap)
  {
    forall key :: key in m ==> m[key] != [] && forall j :: 0 <= j < |m[key]| ==> RecordOk(m[key][j], key)
  }

  /** The list shown for problem `id`; an absent key reads as no annotations. */
  function List(m: AnnotationMap, id: string): (l: seq<Record>)
    ensures WellFormed(m) ==> (l == [] <==> id !in m)
    ensures WellFormed(m) ==> forall j :: 0 <= j < |l| ==> RecordOk(l[j], id)
  {
    if id in m then m[id] else []
  }

  /**
   Saving with nothing selected: `r` becomes the last entry of `id`'s list,
   which is created when absent; everything else is kept.
   */
  function Appended(m: AnnotationMap, id: string, r: Record): (m': AnnotationMap)
    ensures m'.Keys == m.Keys + {id}
    ensures |m'[id]| == |List(m, id)| + 1 && m'[id][|List(m, id)|] == r
    ensures forall j :: 0 <= j < |List(m, id)| ==> m'[id][j] == List(m, id)[j]
    ensures forall key :: key in m && key != id ==> m'[key] == m[key]
    ensures WellFormed(m) && RecordOk(r, id) ==> WellFormed(m')
  {
    m[id := List(m, id) + [r]]
  }

  /**
   Saving with entry `i` selected: entry `i` of `id`'s list becomes `r`;
   the list keeps its length, and every other entry and list is kept.
   */
  function Replaced(m: AnnotationMap, id: string, i: nat, r: Record): (m': AnnotationMap)
    requires id in m && i < |m[id]|
    ensures m'.Keys == m.Keys
    ensures |m'[id]| == |m[id]| && m'[id][i] == r
    ensures forall j :: 0 <= j < |m[id]| && j != i ==> m'[id][j] == m[id][j]
    ensures forall key :: key in m && key != id ==> m'[key] == m[key]
    ensures WellFormed(m) && RecordOk(r, id) ==> WellFormed(m')
  {
    m[id := m[id][i := r]]
  }

  /**
   Deleting entry `i` of `id`'s list: later entries move down by one, and
   the key disappears with its last entry. Other lists are kept.
   */
  function Removed(m: AnnotationMap, id: string, i: nat): (m': AnnotationMap)
    requires id in m && i < |m[id]|
    ensures |List(m', id)| == |m[id]| - 1
    ensures forall j :: 0 <= j < i ==> List(m', id)[j] == m[id][j]
    ensures forall j :: i <= j < |m[id]| - 1 ==> List(m', id)[j] == m[id][j + 1]
    ensures multiset(List(m', id)) + multiset{m[id][i]} == multiset(m[id])
    ensures id in m' <==> |m[id]| > 1
    ensures m'.Keys - {id} == m.Keys - {id}
    ensures forall key :: key in m && key != id ==> key in m' && m'[key] == m[key]
    ensures WellFormed(m) ==> WellFormed(m')
  {
    var l := m[id];
    var rest := l[..i] + l[i + 1..];
    assert l == l[..i] + [l[i]] + l[i + 1..];
    if rest == [] then m - {id} else m[id := rest]
  }

  /**
   The selection after deleting entry `i`: cleared if it was `i`, moved
   down by one if it was after `i`, kept otherwise.
   */
  function ShiftSelection(selection: int, i: nat): (s: int)
    ensures -1 <= selection ==> (s == -1 <==> selection == -1 || selection == i)
    ensures selection != i ==> (i <= s <==> i < selection)
  {
    if selection == i then -1
    else if selection > i then selection - 1
    else selection
  }

  /**
   After a delete the selection is still "new" or a valid index, and
   unless the selected entry itself was deleted it still points at the
   same record.
   */
  lemma SelectionFollowsRecord(m: AnnotationMap, id: string, i: nat, selection: int)
    requires id in m && i < |m[id]|
    requires -1 <= selection < |m[id]|
    ensures var s := ShiftSelection(selection, i);
            -1 <= s < |List(Removed(m, id, i), id)|
    ensures var s := ShiftSelection(selection, i);
            0 <= selection && selection != i ==> List(Removed(m, id, i), id)[s] == m[id][selection]
  {
  }

  /**
   Deleting the entry a save with nothing selected has just appended
   gives back the store as it was.
   */
  lemma RemoveUndoesAppend(m: AnnotationMap, id: string, r: Record)
    requires WellFormed(m)
    ensures Removed(Appended(m, id, r), id, |List(m, id)|) == m
  {
    var m' := Appended(m, id, r);
    var l := List(m, id);
    var n := |l|;
    assert m'[id] == l + [r];
    var rest := m'[id][..n] + m'[id][n + 1..];
    assert rest == l;
    if id !in m {
      assert (m' - {id}).Keys == m.Keys;
    } else {
      assert m[id] != [];
      assert m'[id := rest].Keys == m.Keys;
    }
  }
}
