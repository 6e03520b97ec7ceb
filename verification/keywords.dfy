/**
 The fixed set of ambiguity categories that an annotation may carry as
 keywords, and how the checked boxes of the keyword form become the
 `keywords` field of a record.
 */
module Keywords {

  /** The fifteen ambiguity categories, in the order the form lists them. */
  datatype Keyword =
    | Terminology      // terms and key concepts
    | SideEffects      // goal, function and side effects
    | InputDomain      // input domain and invalid input
    | OutputFormat     // output judgement and format
    | BoundaryCases    // boundary and extreme cases
    | Indexing         // index and interval semantics
    | Ordering         // sorting, comparison, ties, stability
    | TextLocale       // strings and localisation
    | DateTime         // time, date, time zone, DST
    | Units            // units, dimensions, prefixes
    | Precision        // numeric precision, error, rounding
    | Randomness       // randomness and reproducibility
    | DataStructures   // data structure semantics
    | Concurrency      // concurrency, timing, atomicity
    | Scale            // scale, performance, resources

  /** The checkboxes of the keyword form, in document order. */
  const Categories: seq<Keyword> :=
    [Terminology, SideEffects, InputDomain, OutputFormat, BoundaryCases,
     Indexing, Ordering, TextLocale, DateTime, Units, Precision, Randomness,
     DataStructures, Concurrency, Scale]

  /** Position of a category's checkbox in the form. */
  function Rank(k: Keyword): (n: nat)
    ensures n < |Categories| && Categories[n] == k
  {
    match k
    case Terminology => 0
    case SideEffects => 1
    case InputDomain => 2
    case OutputFormat => 3
    case BoundaryCases => 4
    case Indexing => 5
    case Ordering => 6
    case TextLocale => 7
    case DateTime => 8
    case Units => 9
    case Precision => 10
    case Randomness => 11
    case DataStructures => 12
    case Concurrency => 13
    case Scale => 14
  }

  /** Each checkbox position holds the category of that rank, so no category is listed twice. */
  lemma RankOfCategory(i: nat)
    requires i < |Categories|
    ensures Rank(Categories[i]) == i
  {
  }

  /** Keywords listed in form order without repetition. */
  ghost predicate InFormOrder(kws: seq<Keyword>)
  {
    forall i, j :: 0 <= i < j < |kws| ==> Rank(kws[i]) < Rank(kws[j])
  }

  /**
   The categories from position `from` onwards whose box in `checked` is
   ticked, in form order.
   */
  function TickedFrom(checked: seq<bool>, from: nat): (r: seq<Keyword>)
    requires |checked| == |Categories| && from <= |Categories|
    ensures forall k :: k in r <==> from <= Rank(k) && checked[Rank(k)]
    ensures InFormOrder(r)
    decreases |Categories| - from
  {
    if from == |Categories| then []
    else
      var rest := TickedFrom(checked, from + 1);
      RankOfCategory(from);
      if checked[from] then [Categories[from]] + rest else rest
  }

  /**
   The `keywords` of a saved record: the values of the checked boxes of the
   keyword form, in document order, each category at most once.
   */
  function SelectedKeywords(checked: seq<bool>): (kws: seq<Keyword>)
    requires |checked| == |Categories|
    ensures forall k :: k in kws <==> checked[Rank(k)]
    ensures InFormOrder(kws)
  {
    TickedFrom(checked, 0)
  }
}
