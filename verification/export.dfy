/**
 The download handler: every stored list concatenated, refused when there
 is nothing to export, otherwise one serialised record per line.
 */
module Export {
  import opened Annotations
  import opened Store

  datatype Option<T> = None | Some(value: T)

  /** `order` lists every key of `m` exactly once. */
  ghost predicate Enumerates(order: seq<string>, m: AnnotationMap)
  {
    && (forall key :: key in order <==> key in m)
    && (forall i, j :: 0 <= i < j < |order| ==> order[i] != order[j])
  }

  /** The lists of the keys in `order`, concatenated (`Object.values(...).flat()`). */
  function Flatten(m: AnnotationMap, order: seq<string>): (all: seq<Record>)
    requires forall key :: key in order ==> key in m
    ensures forall j :: 0 <= j < |order| ==> multiset(m[order[j]]) <= multiset(all)
  {
    if order == [] then []
    else
      var rest := Flatten(m, order[1..]);
      assert forall j :: 1 <= j < |order| ==> order[1..][j - 1] == order[j];
      m[order[0]] + rest
  }

  /** All stored records, counted with multiplicity, whatever the key order. */
  ghost function Contents(m: AnnotationMap): multiset<Record>
    decreases |m.Keys|
  {
    if m == map[] then multiset{}
    else
      var key :| key in m;
      assert |(m - {key}).Keys| < |m.Keys| by {
        assert (m - {key}).Keys == m.Keys - {key};
      }
      multiset(m[key]) + Contents(m - {key})
  }

  /** Taking any key first gives the same contents. */
  lemma {:induction false} ContentsWithout(m: AnnotationMap, key: string)
    requires key in m
    ensures Contents(m) == multiset(m[key]) + Contents(m - {key})
    decreases |m.Keys|
  {
    var k :| k in m && Contents(m) == multiset(m[k]) + Contents(m - {k});
    if k != key {
      assert (m - {k}).Keys == m.Keys - {k};
      ContentsWithout(m - {k}, key);
      assert (m - {key}).Keys == m.Keys - {key};
      ContentsWithout(m - {key}, k);
      assert m - {k} - {key} == m - {key} - {k};
    }
  }

  /**
   Whatever order the keys are visited in, the concatenation holds exactly
   the stored records, each as often as it is stored.
   */
  lemma {:induction false} FlattenHoldsContents(m: AnnotationMap, order: seq<string>)
    requires Enumerates(order, m)
    ensures multiset(Flatten(m, order)) == Contents(m)
    ensures |Flatten(m, order)| == |Contents(m)|
    decreases |order|
  {
    if order == [] {
      assert m.Keys == {};
      assert m == map[];
    } else {
      var key := order[0];
      var m' := m - {key};
      assert Enumerates(order[1..], m') by {
        forall k ensures k in order[1..] <==> k in m' {
          if k in order[1..] {
            var j :| 0 <= j < |order[1..]| && order[1..][j] == k;
            assert order[j + 1] == k;
          }
          if k in m' {
            var j :| 0 <= j < |order| && order[j] == k;
            assert j != 0;
            assert order[1..][j - 1] == k;
          }
        }
      }
      FlattenHoldsContents(m', order[1..]);
      assert Flatten(m', order[1..]) == Flatten(m, order[1..]) by {
        FlattenSameLists(m', m, order[1..]);
      }
      ContentsWithout(m, key);
    }
  }

  /** Flattening reads only the lists of the keys it visits. */
  lemma {:induction false} FlattenSameLists(m1: AnnotationMap, m2: AnnotationMap, order: seq<string>)
    requires forall key :: key in order ==> key in m1 && key in m2 && m1[key] == m2[key]
    ensures Flatten(m1, order) == Flatten(m2, order)
    decreases |order|
  {
    if order != [] {
      FlattenSameLists(m1, m2, order[1..]);
    }
  }

  /** Under the store invariant the store holds no record exactly when it has no key. */
  lemma ContentsEmpty(m: AnnotationMap)
    requires WellFormed(m)
    ensures Contents(m) == multiset{} <==> m == map[]
  {
  }

  /** The lines of the download joined with line feeds. */
  function Join(lines: seq<string>): (text: string)
    requires lines != []
    ensures lines[0] <= text
    ensures (forall j :: 0 <= j < |lines| ==> '\n' !in lines[j]) ==> multiset(text)['\n'] == |lines| - 1
  {
    if |lines| == 1 then lines[0]
    else
      var rest := Join(lines[1..]);
      assert forall j :: 1 <= j < |lines| ==> lines[1..][j - 1] == lines[j];
      assert multiset(lines[0] + "\n" + rest) == multiset(lines[0]) + multiset("\n") + multiset(rest);
      lines[0] + "\n" + rest
  }

  /** Cutting text at every line feed. */
  function Split(text: string): (lines: seq<string>)
    ensures lines != []
  {
    if text == [] then [[]]
    else
      var rest := Split(text[1..]);
      if text[0] == '\n' then [[]] + rest else [[text[0]] + rest[0]] + rest[1..]
  }

  lemma {:induction false} SplitSingle(line: string)
    requires '\n' !in line
    ensures Split(line) == [line]
  {
    if line != [] {
      SplitSingle(line[1..]);
      assert [line[0]] + line[1..] == line;
    }
  }

  lemma {:induction false} SplitAtFirst(line: string, text: string)
    requires '\n' !in line
    ensures Split(line + "\n" + text) == [line] + Split(text)
  {
    if line == [] {
      assert line + "\n" + text == "\n" + text;
      assert ("\n" + text)[1..] == text;
    } else {
      SplitAtFirst(line[1..], text);
      assert (line + "\n" + text)[1..] == line[1..] + "\n" + text;
      assert [line[0]] + line[1..] == line;
    }
  }

  /** Splitting the joined lines gives the lines back when none holds a line feed. */
  lemma {:induction false} SplitJoin(lines: seq<string>)
    requires lines != []
    requires forall j :: 0 <= j < |lines| ==> '\n' !in lines[j]
    ensures Split(Join(lines)) == lines
  {
    if |lines| == 1 {
      SplitSingle(lines[0]);
    } else {
      SplitJoin(lines[1..]);
      SplitAtFirst(lines[0], Join(lines[1..]));
    }
  }

  /** One serialised record per line. */
  function Serialize(records: seq<Record>, serialize: Record -> string): (lines: seq<string>)
    ensures |lines| == |records|
    ensures forall j :: 0 <= j < |records| ==> lines[j] == serialize(records[j])
  {
    if records == [] then [] else [serialize(records[0])] + Serialize(records[1..], serialize)
  }

  /**
   The file the download handler produces: `None` (a notice, no file) when
   there is no record, otherwise the records of the lists in `order`, one
   serialised record per line.
   */
  function Download(m: AnnotationMap, order: seq<string>, serialize: Record -> string): (file: Option<string>)
    requires forall key :: key in order ==> key in m
    ensures file == None <==> Flatten(m, order) == []
  {
    var all := Flatten(m, order);
    if all == [] then None else Some(Join(Serialize(all, serialize)))
  }

  /**
   The download is refused exactly when the store is empty, and otherwise,
   read back line by line with a parser that inverts the serialiser, it
   gives every stored record as often as it is stored, whatever the key
   order.
   */
  lemma DownloadRoundTrip(m: AnnotationMap, order: seq<string>,
                          serialize: Record -> string, parse: string -> Record)
    requires WellFormed(m) && Enumerates(order, m)
    requires forall r :: '\n' !in serialize(r)
    requires forall r :: parse(serialize(r)) == r
    ensures Download(m, order, serialize) == None <==> m == map[]
    ensures Download(m, order, serialize) != None ==>
              var lines := Split(Download(m, order, serialize).value);
              && |lines| == |Contents(m)|
              && multiset(seq(|lines|, j requires 0 <= j < |lines| => parse(lines[j]))) == Contents(m)
  {
    FlattenHoldsContents(m, order);
    ContentsEmpty(m);
    var all := Flatten(m, order);
    if all != [] {
      ReadBack(all, serialize, parse);
    }
  }

  /** The lines of a non-empty download, parsed, are the flattened records again. */
  lemma ReadBack(all: seq<Record>, serialize: Record -> string, parse: string -> Record)
    requires all != []
    requires forall r :: '\n' !in serialize(r)
    requires forall r :: parse(serialize(r)) == r
    ensures var lines := Split(Join(Serialize(all, serialize)));
            seq(|lines|, j requires 0 <= j < |lines| => parse(lines[j])) == all
  {
    var lines := Serialize(all, serialize);
    SplitJoin(lines);
  }
}
