# Annotation session model

A Dafny model of the browser side of the problem-annotation tool. The page shows a
fixed list of programming problems one at a time. The annotator ticks ambiguity
categories, rewrites the statement and fills up to three question/answer slots, then
saves. Each problem has an ordered list of annotations that can be created, selected,
overwritten and deleted, and all of them can be downloaded as a JSON-lines file.

The model has these parts:

- `Keywords` (keywords.dfy): the fifteen ambiguity categories, in the order the form lists
  their checkboxes. Also the ticked-checkbox filter that becomes a record's `keywords`.
- `Text` (text.dfy): JavaScript's `String.prototype.trim`, with its exact set of
  whitespace and line-terminator code points.
- `Annotations` (annotations.dfy): problems, question/answer pairs and records. Also the
  loop that turns the three form slots into `qa_pairs`, and the record a save builds.
- `Store` (store.dfy): the table from problem id to its list of records. The pure
  transitions append, replace, remove and shift-selection specify the session's methods.
- `Export` (export.dfy): the download handler. It flattens the lists, refuses an empty
  store and writes one serialised record per line.
- `AnnotationPage` (session.dfy): class `Session`, holding the problem list, the store,
  the index of the problem on screen and the selected annotation (`-1` means "new").
  Its methods are the page's handlers: save, delete, select, new, previous, next.

Invariants kept by every handler (`Session.Valid`):

- the problem index stays in `0 .. N-1`;
- no key maps to an empty list;
- every stored record carries the id of its key, at most three trimmed non-empty pairs,
  a trimmed statement and keywords in form order;
- the selection is `-1` or an index of the shown list.

## Model

| member | source | states |
|---|---|---|
| `Keywords.Rank` | generate.py:12-29 | every category has a checkbox position, and that position holds that category |
| `Keywords.TickedFrom` | generate.py:43 | the ticked categories from a position on: a category is listed iff its box is ticked, in form order, none twice |
| `Keywords.SelectedKeywords` | script.js:139 | a record's keywords are exactly the ticked categories, in the form's order, without repetition |
| `Text.TrimStartSpec` | script.js:131 | removing leading whitespace drops an all-blank prefix and keeps a suffix that starts with a non-blank |
| `Text.TrimEndSpec` | script.js:132 | removing trailing whitespace drops an all-blank suffix and keeps a prefix that ends with a non-blank |
| `Text.Trim` | script.js:131-133 | trimmed text is empty iff the input is all whitespace; otherwise it starts and ends with a non-blank |
| `Text.TrimDecomposes` | script.js:140 | the input is the trimmed text with an all-blank prefix and suffix around it |
| `Text.TrimmedUnchanged` | script.js:140 | text with no whitespace at either end is left unchanged by trimming |
| `Text.TrimIdempotent` | script.js:140 | trimming an already trimmed value changes nothing |
| `Annotations.Kept` | script.js:133 | `if (q && a)`: a slot is kept iff both its question and its answer contain a non-whitespace character |
| `Annotations.Trimmed` | script.js:131-133 | a slot whose trimmed fields are both non-empty yields a pair with non-empty, trimmed fields |
| `Annotations.KeptPairs` | script.js:129-134 | the retained pairs never outnumber the slots, and each has a non-empty trimmed question and answer |
| `Annotations.KeptSlots` | script.js:130-133 | the slots that contribute a pair: in increasing slot order, each with both fields non-blank, and every such slot included |
| `Annotations.KeptPairsFollowSlots` | script.js:129-134 | retained pair k is exactly the k-th contributing slot, trimmed, so pairs keep slot order 1..3 |
| `Annotations.BuildQaPairs` | script.js:129-134 | the loop over the three slots returns the retained pairs: at most 3, each with non-empty trimmed question and answer |
| `Annotations.FormRecord` | script.js:136-142 | the record a save builds carries the problem's id, exactly the ticked keywords in form order, the statement trimmed (`Text.Trim`), the pairs the slots yield (`Annotations.KeptPairs`) and the given timestamp |
| `Store.Appended` | script.js:144-146 | appending adds exactly one entry at the end of the key's list, creating the list if absent; other lists are kept; the store invariant is preserved |
| `Store.Replaced` | script.js:147-148 | replacing entry i keeps the list length, changes only entry i and keeps every other list; the store invariant is preserved |
| `Store.Removed` | script.js:108-112 | deleting entry i removes exactly that entry, shifts later entries down by one and shortens the list by one; the key goes when its list empties; the store invariant is preserved |
| `Store.List` | script.js:89 | the stored list, or an empty one when the key is absent: under the store invariant the list is empty iff the key is absent, and every record in it belongs to that problem |
| `Store.ShiftSelection` | script.js:114-119 | the selection becomes -1 iff it was -1 or the deleted entry, and stays after the deleted position iff it was after it; `Store.SelectionFollowsRecord` gives its full contract |
| `Store.SelectionFollowsRecord` | script.js:114-119 | after a delete the selection is `-1` or a valid index of the shortened list, and unless it was `-1` or the deleted entry it still points at the same record |
| `Store.RemoveUndoesAppend` | script.js:107-112 | deleting the entry a save with nothing selected just appended restores the store, including dropping a key that was created for it |
| `Export.Flatten` | script.js:174 | every visited key's list is contained in the concatenation |
| `Export.ContentsWithout` | script.js:174 | the stored records counted by taking any one key first are the same, so the count does not depend on key order |
| `Export.FlattenHoldsContents` | script.js:174 | whatever order the keys are visited in, the concatenation holds every stored record exactly as often as it is stored |
| `Export.FlattenSameLists` | script.js:174 | the concatenation depends only on the lists of the keys visited |
| `Export.ContentsEmpty` | script.js:175-178 | under the store invariant there is no record to export iff the store has no key |
| `Export.Join` | script.js:179 | `join('\n')`: the text starts with the first line and, when no line holds a line feed, contains exactly one line feed fewer than there are lines |
| `Export.Split` | script.js:179 | the reader of the downloaded file, the inverse of the join on this line (the page itself never splits): cutting text at line feeds yields at least one line |
| `Export.SplitSingle` | script.js:179 | for the reader of the downloaded file: text without a line feed is read as a single line |
| `Export.SplitAtFirst` | script.js:179 | for the reader of the downloaded file: a line feed after a line with no line feed ends that line, undoing one step of the join |
| `Export.SplitJoin` | script.js:179 | splitting lines joined by line feeds gives the same lines back when no line holds a line feed |
| `Export.Serialize` | script.js:179 | one output line per record, line j being the serialisation of record j |
| `Export.Download` | script.js:173-179 | no file iff there is no record to flatten; otherwise the serialised records joined by line feeds |
| `Export.ReadBack` | script.js:179 | a non-empty download read back line by line with a parser that inverts the serialiser gives the flattened records in order |
| `Export.DownloadRoundTrip` | script.js:173-179 | the download is refused iff the store is empty; otherwise, re-split and parsed, its lines give exactly the stored records with their multiplicities, in any key order |
| `AnnotationPage.Session.constructor` | script.js:3-6 | page load shows problem 0 with nothing selected over the persisted store; the invariant holds |
| `AnnotationPage.Session.Save` | script.js:123-154 | with nothing selected the form's record is appended and selected; with entry i selected it replaces entry i; the problem stays; the invariant holds |
| `AnnotationPage.Session.Delete` | script.js:107-121 | the store becomes `Removed` of entry i and the selection is shifted as `SelectionFollowsRecord` describes; the invariant holds |
| `AnnotationPage.Session.Select` | script.js:66-70 | selecting entry i of the shown list makes it the selection and changes nothing else |
| `AnnotationPage.Session.NewAnnotation` | script.js:156-161 | the "new" button resets the selection to `-1` and changes nothing else |
| `AnnotationPage.Session.Prev` | script.js:165-167 | moves back one problem only when not at the first, and a move resets the selection; the index stays in range |
| `AnnotationPage.Session.Next` | script.js:169-171 | moves on one problem only when not at the last, and a move resets the selection; the index stays in range |

## Left out

- Page rendering and form reads: `renderProblem`, `renderAnnotationList`, `clearAndLoadForm` and the checkbox state (script.js:26-105). The form's values are method parameters: the timestamp, one flag per checkbox, the statement text and the three question/answer slots. The selection reset in `renderProblem` (script.js:33) is part of `Prev` and `Next`.
- Persistence: `localStorage` reads and writes and their JSON encoding (script.js:4, 113, 151). The constructor takes the persisted store as a parameter. It requires that store to satisfy the store invariant, since only `Save` and `Delete` write it. A blob edited by hand outside the page is not modelled.
- Record serialisation: `JSON.stringify` (script.js:179) is the `serialize` parameter of `Export.Download`. `Export.DownloadRoundTrip` assumes it writes no raw line feed, which JSON's escaping guarantees.
- Dialogs: the save notice and the empty-download notice (script.js:152, 176) are not modelled; an empty download is `None`. The delete confirmation (script.js:74) is modelled as already accepted.
- File download plumbing: Blob, object URL, anchor click (script.js:180-185).
- Clock: `new Date().toISOString()` (script.js:137) is the `timestamp` parameter. The time formatting in the list (script.js:54) is display only.
- Key order of `Object.values` (script.js:174): JavaScript enumerates integer-like keys first, then the others in insertion order. The model takes the key order as a parameter `order` that lists every key once. Its export properties hold for every such order, so they are stated as counts and multisets.
- `AnnotationPage.Session.Delete` and `AnnotationPage.Session.Select` require an index of the shown list. `deleteAnnotation` and the select handler have no guard against a stale index; their only callers are the click handlers of the rendered entries (script.js:50-77).
- `AnnotationPage.Session.Delete` assumes the storage write succeeds. In `deleteAnnotation` the `localStorage.setItem` call (script.js:113) runs after the entry is spliced out and before the selection shift (script.js:114-119). If it throws, for example with a `QuotaExceededError`, the page keeps the shortened list with the old, unshifted selection and does not re-render. The model always shifts. `Save`'s write (script.js:151) comes after the store and selection are updated, so the model matches that path.
- `AnnotationPage.Session.Save` returns nothing and sets the selection instead, as `saveCurrentAnnotation` does (script.js:144-149).
- `AnnotationPage.Session.constructor` requires a non-empty problem list. With no problems the page's first `renderProblem` (script.js:27-28, called at script.js:188) throws a TypeError. The handlers registered before that call, the download handler among them, would still respond; that broken page is not modelled.
- `Store.AnnotationMap` treats every problem id as an ordinary key. The page keeps the store in a plain JavaScript object (script.js:4). An id naming an inherited property such as `constructor`, `toString` or `__proto__` makes `!annotations[problemId]` false (script.js:125), so the `push` at script.js:145 throws. Those ids are not modelled.
- `Store.AnnotationMap` keys and `Annotations.Record.questionId` are both strings. The page stores `question_id` exactly as the input JSON gives it, possibly as a number (script.js:124, 138), while the object key is its string form. So "every record's `questionId` equals its key" holds in the page only up to string conversion.
- Checkbox values are the categories' Chinese labels. The model uses the enumeration `Keywords.Keyword`, one constructor per label, in the same order.
- Strings are sequences of Unicode code points, while JavaScript strings are UTF-16 code units. Every character that `trim` removes is in the Basic Multilingual Plane, so trimming agrees.
- The newline replacement in the displayed problem text (script.js:31) is display only.
- generate.py: the HTML and CSS templates, the file writes, the missing-input-file path (generate.py:32-39, 367-371) and its embedded copy of the same page script. Only its keyword list (generate.py:12-29, 43) is used.
