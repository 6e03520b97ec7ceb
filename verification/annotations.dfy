/**
 The records the tool stores: problems, question/answer pairs and
 annotation records, and the loop that turns the three question/answer
 slots of the form into a record's `qa_pairs`.
 */
module Annotations {
  import opened Text
  import opened Keywords

  /** One input problem; only `questionId` matters to the session. */
  datatype Problem = Problem(questionId: string, title: string, content: string, platform: string)

  /** A question and its answer, either as typed in a form slot or as stored. */
  datatype QaPair = QaPair(question: string, answer: string)

  /** One annotation of one problem, as saved by the form. */
  datatype Record = Record(
    timestamp: string,        // opaque: produced by the clock when the form is saved
    questionId: string,       // the problem the annotation belongs to
    keywords: seq<Keyword>,   // the ticked ambiguity categories
    modifiedContent: string,  // the rewritten statement, trimmed
    qaPairs: seq<QaPair>      // at most three retained pairs
  )

  /** The form has three question/answer slots. */
  const SlotCount: nat := 3

  /** A slot is retained when neither field is blank once trimmed. */
  predicate Kept(slot: QaPair)
    ensures Kept(slot) <==> !AllWhitespace(slot.question) && !AllWhitespace(slot.answer)
  {
    Trim(slot.question) != [] && Trim(slot.answer) != []
  }

  /** A stored pair: both fields non-empty and free of surrounding whitespace. */
  ghost predicate Retained(p: QaPair)
  {
    p.question != [] && p.answer != [] && IsTrimmed(p.question) && IsTrimmed(p.answer)
  }

  /** The slot with both fields trimmed. */
  function Trimmed(slot: QaPair): (p: QaPair)
    ensures Kept(slot) ==> Retained(p)
  {
    QaPair(Trim(slot.question), Trim(slot.answer))
  }

  /**
   The pairs a form with `slots` yields: each retained slot, trimmed, in
   slot order.
   */
  function KeptPairs(slots: seq<QaPair>): (pairs: seq<QaPair>)
    ensures |pairs| <= |slots|
    ensures forall p :: p in pairs ==> Retained(p)
  {
    if slots == [] then []
    else
      var last := slots[|slots| - 1];
      var init := KeptPairs(slots[..|slots| - 1]);
      if Kept(last) then init + [Trimmed(last)] else init
  }

  /**
   The positions of the slots that are retained: increasing, each retained,
   and every retained slot listed.
   */
  ghost function KeptSlots(slots: seq<QaPair>): (from: seq<nat>)
    ensures forall k :: 0 <= k < |from| ==> from[k] < |slots| && Kept(slots[from[k]])
    ensures forall k, l :: 0 <= k < l < |from| ==> from[k] < from[l]
    ensures forall j :: 0 <= j < |slots| && Kept(slots[j]) ==> j in from
  {
    if slots == [] then []
    else
      var n := |slots| - 1;
      var prev := KeptSlots(slots[..n]);
      assert forall j :: 0 <= j < n ==> slots[..n][j] == slots[j];
      if Kept(slots[n]) then prev + [n] else prev
  }

  /** Retained pair `k` is slot `KeptSlots(slots)[k]`, trimmed. */
  lemma {:induction false} KeptPairsFollowSlots(slots: seq<QaPair>)
    ensures |KeptSlots(slots)| == |KeptPairs(slots)|
    ensures forall k :: 0 <= k < |KeptPairs(slots)| ==>
              KeptPairs(slots)[k] == Trimmed(slots[KeptSlots(slots)[k]])
  {
    if slots != [] {
      var n := |slots| - 1;
      var init := slots[..n];
      KeptPairsFollowSlots(init);
      var pairs, from := KeptPairs(init), KeptSlots(init);
      assert KeptSlots(slots) == if Kept(slots[n]) then from + [n] else from;
      KeptPairsStep(slots, n);
      assert slots[..n + 1] == slots;
      forall k | 0 <= k < |KeptPairs(slots)|
        ensures KeptPairs(slots)[k] == Trimmed(slots[KeptSlots(slots)[k]])
      {
        if k < |pairs| {
          assert init[from[k]] == slots[from[k]];
        }
      }
    }
  }

  /** The pairs of the first `i + 1` slots extend those of the first `i`. */
  lemma KeptPairsStep(slots: seq<QaPair>, i: nat)
    requires i < |slots|
    ensures KeptPairs(slots[..i + 1]) ==
            if Kept(slots[i]) then KeptPairs(slots[..i]) + [Trimmed(slots[i])] else KeptPairs(slots[..i])
  {
    assert slots[..i + 1][..i] == slots[..i];
  }

  /**
   The `qa_pairs` of a saved record: the loop over slots 1 to 3 that keeps a
   slot's trimmed question and answer when both are non-empty.
   */
  method BuildQaPairs(slots: seq<QaPair>) returns (pairs: seq<QaPair>)
    requires |slots| == SlotCount
    ensures pairs == KeptPairs(slots)
    ensures |pairs| <= SlotCount
    ensures forall p :: p in pairs ==> Retained(p)
  {
    pairs := [];
    var i := 0;
    while i < SlotCount
      invariant 0 <= i <= SlotCount
      invariant pairs == KeptPairs(slots[..i])
    {
      var q := Trim(slots[i].question);
      var a := Trim(slots[i].answer);
      KeptPairsStep(slots, i);
      if q != [] && a != [] {
        pairs := pairs + [QaPair(q, a)];
      }
      i := i + 1;
    }
    assert slots[..i] == slots;
  }

  /** What every stored record satisfies, given the key it is stored under. */
  ghost predicate RecordOk(r: Record, key: string)
  {
    && r.questionId == key
    && InFormOrder(r.keywords)
    && IsTrimmed(r.modifiedContent)
    && |r.qaPairs| <= SlotCount
    && forall p :: p in r.qaPairs ==> Retained(p)
  }

  /**
   The record the save handler builds from the form for problem `key`:
   ticked keywords, trimmed statement and the retained pairs.
   */
  function FormRecord(timestamp: string, key: string, checked: seq<bool>,
                      modifiedContent: string, slots: seq<QaPair>): (r: Record)
    requires |checked| == |Categories| && |slots| == SlotCount
    ensures RecordOk(r, key)
    ensures forall k :: k in r.keywords <==> checked[Rank(k)]
    ensures r.timestamp == timestamp
    ensures r.modifiedContent == Trim(modifiedContent) && r.qaPairs == KeptPairs(slots)
  {
    Record(timestamp, key, SelectedKeywords(checked), Trim(modifiedContent), KeptPairs(slots))
  }
}
