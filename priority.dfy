/**
 * Source-priority reordering of retrieved documents, as both
 * packages/messages/lambdas/resource_streaming/main.py (`reorder_and_filter_documents`)
 * and packages/messages/lambdas/streaming/main.py (`mix_and_filter_documents`) write it:
 * documents whose source id is listed move to the front, ordered by the id's position
 * in the list, and the rest follow in input order.
 *
 * Python's `list.sort` is stable; it is modelled by the stable insertion sort `SortByKey`,
 * characterised by sortedness, permutation and per-key order preservation.
 */
module SourcePriority {
  import opened Wrappers
  import opened Text

  /** A retrieved document; `source` and `source_id` are optional. */
  datatype RagDocument = RagDocument(documentId: string, title: string, content: string,
                                     source: Option<string>, sourceId: Option<string>)

  // ---------------------------------------------------------------- the priority map

  /** `{source_id: idx for idx, source_id in enumerate(priority)}`: later entries
      overwrite earlier ones. */
  function PriorityMap(priority: seq<string>): map<string, nat>
  {
    if priority == [] then map[]
    else
      var n := |priority| - 1;
      PriorityMap(priority[..n])[priority[n] := n]
  }

  /** The map holds exactly the listed ids, each with the index of its last occurrence. */
  lemma {:induction false} PriorityMapLast(priority: seq<string>, s: string)
    ensures s in PriorityMap(priority) <==> s in priority
    ensures s in PriorityMap(priority) ==>
      var k := PriorityMap(priority)[s];
      k < |priority| && priority[k] == s && forall j :: k < j < |priority| ==> priority[j] != s
  {
    if priority != [] {
      var n := |priority| - 1;
      PriorityMapLast(priority[..n], s);
      assert priority == priority[..n] + [priority[n]];
      if s != priority[n] && s in PriorityMap(priority[..n]) {
        var k := PriorityMap(priority[..n])[s];
        assert priority[k] == priority[..n][k];
        forall j | k < j < |priority|
          ensures priority[j] != s
        {
          if j < n {
            assert priority[j] == priority[..n][j];
          }
        }
      }
    }
  }

  /** `doc.source_id and doc.source_id in priority_map`. */
  predicate Prioritized(pm: map<string, nat>, d: RagDocument) {
    d.sourceId.Some? && d.sourceId.value != "" && d.sourceId.value in pm
  }

  /** The sort key `priority_map.get(doc.source_id, inf)`; only prioritized documents are
      sorted, so the default is never used and any value larger than every index will do. */
  function KeyOf(pm: map<string, nat>, bound: nat): RagDocument -> nat {
    d => if Prioritized(pm, d) then pm[d.sourceId.value] else bound
  }

  function IsPrioritized(pm: map<string, nat>): RagDocument -> bool {
    d => Prioritized(pm, d)
  }

  function IsOther(pm: map<string, nat>): RagDocument -> bool {
    d => !Prioritized(pm, d)
  }

  // ---------------------------------------------------------------- a stable sort

  predicate SortedBy<T>(s: seq<T>, key: T -> nat) {
    forall i, j :: 0 <= i < j < |s| ==> key(s[i]) <= key(s[j])
  }

  /** `x` inserted after every element whose key does not exceed its own. */
  function Insert<T>(x: T, s: seq<T>, key: T -> nat): (r: seq<T>)
    ensures multiset(r) == multiset(s) + multiset{x}
  {
    if s == [] then [x]
    else
      var n := |s| - 1;
      if key(s[n]) <= key(x) then s + [x]
      else
        assert s == s[..n] + [s[n]];
        Insert(x, s[..n], key) + [s[n]]
  }

  /** Insertion sort: each element in turn inserted into the sorted prefix. */
  function SortByKey<T>(xs: seq<T>, key: T -> nat): (r: seq<T>)
    ensures multiset(r) == multiset(xs)
  {
    if xs == [] then []
    else
      var n := |xs| - 1;
      assert xs == xs[..n] + [xs[n]];
      Insert(xs[n], SortByKey(xs[..n], key), key)
  }

  lemma {:induction false} InsertSorted<T>(x: T, s: seq<T>, key: T -> nat)
    requires SortedBy(s, key)
    ensures SortedBy(Insert(x, s, key), key)
  {
    if s != [] {
      var n := |s| - 1;
      if key(s[n]) > key(x) {
        var pre := Insert(x, s[..n], key);
        InsertSorted(x, s[..n], key);
        forall y | y in pre
          ensures key(y) <= key(s[n])
        {
          assert y in multiset(pre);
          if y != x {
            assert y in multiset(s[..n]);
            var i :| 0 <= i < n && s[..n][i] == y;
            assert s[i] == y;
          }
        }
        var r := pre + [s[n]];
        forall i, j | 0 <= i < j < |r|
          ensures key(r[i]) <= key(r[j])
        {
          if j == |r| - 1 {
            assert r[i] in pre;
          }
        }
      }
    }
  }

  /** The sort orders by key. */
  lemma {:induction false} SortedByKey<T>(xs: seq<T>, key: T -> nat)
    ensures SortedBy(SortByKey(xs, key), key)
  {
    if xs != [] {
      var n := |xs| - 1;
      SortedByKey(xs[..n], key);
      InsertSorted(xs[n], SortByKey(xs[..n], key), key);
    }
  }

  function HasKey<T>(key: T -> nat, k: nat): T -> bool {
    x => key(x) == k
  }

  /** Inserting into a sorted sequence puts the element after all others of its key. */
  lemma {:induction false} InsertFilter<T>(x: T, s: seq<T>, key: T -> nat, k: nat)
    requires SortedBy(s, key)
    ensures Filter(Insert(x, s, key), HasKey(key, k)) == Filter(s, HasKey(key, k)) + (if key(x) == k then [x] else [])
  {
    var p := HasKey(key, k);
    if s == [] {
      assert Filter([x], p) == Filter([], p) + (if p(x) then [x] else []);
    } else {
      var n := |s| - 1;
      var last := s[n];
      assert s == s[..n] + [last];
      if key(last) <= key(x) {
        assert Insert(x, s, key) == s + [x];
        FilterSnoc(s, x, p);
      } else {
        assert Insert(x, s, key) == Insert(x, s[..n], key) + [last];
        InsertFilter(x, s[..n], key, k);
        FilterSnoc(Insert(x, s[..n], key), last, p);
        FilterSnoc(s[..n], last, p);
      }
    }
  }

  /** The sort is stable: the elements of each key keep their input order. */
  lemma {:induction false} SortStable<T>(xs: seq<T>, key: T -> nat, k: nat)
    ensures Filter(SortByKey(xs, key), HasKey(key, k)) == Filter(xs, HasKey(key, k))
  {
    if xs != [] {
      var n := |xs| - 1;
      var sorted := SortByKey(xs[..n], key);
      SortByKeyLast(xs, key);
      SortStable(xs[..n], key, k);
      SortedByKey(xs[..n], key);
      InsertFilter(xs[n], sorted, key, k);
      FilterLast(xs, HasKey(key, k));
    }
  }

  lemma SortByKeyLast<T>(xs: seq<T>, key: T -> nat)
    requires xs != []
    ensures SortByKey(xs, key) == Insert(xs[|xs| - 1], SortByKey(xs[..|xs| - 1], key), key)
  {
  }

  lemma FilterLast<T>(xs: seq<T>, p: T -> bool)
    requires xs != []
    ensures var n := |xs| - 1;
      Filter(xs, p) == Filter(xs[..n], p) + (if p(xs[n]) then [xs[n]] else [])
  {
  }

  // ---------------------------------------------------------------- reordering

  /** The reordered list: prioritized documents by priority index, then the others. */
  function Reordered(docs: seq<RagDocument>, priority: seq<string>): seq<RagDocument> {
    if priority == [] then docs
    else
      var pm := PriorityMap(priority);
      SortByKey(Filter(docs, IsPrioritized(pm)), KeyOf(pm, |priority|)) + Filter(docs, IsOther(pm))
  }

  /** The partition loop and the sort. */
  method ReorderDocuments(documents: seq<RagDocument>, sourceIdPriority: seq<string>)
    returns (reordered: seq<RagDocument>)
    ensures reordered == Reordered(documents, sourceIdPriority)
  {
    if sourceIdPriority == [] {
      return documents;
    }
    var priorityMap := PriorityMap(sourceIdPriority);
    var prioritizedDocs, otherDocs := [], [];
    var i := 0;
    while i < |documents|
      invariant i <= |documents|
      invariant prioritizedDocs == Filter(documents[..i], IsPrioritized(priorityMap))
      invariant otherDocs == Filter(documents[..i], IsOther(priorityMap))
    {
      var doc := documents[i];
      assert documents[..i + 1] == documents[..i] + [doc];
      FilterSnoc(documents[..i], doc, IsPrioritized(priorityMap));
      FilterSnoc(documents[..i], doc, IsOther(priorityMap));
      if doc.sourceId.Some? && doc.sourceId.value != "" && doc.sourceId.value in priorityMap {
        prioritizedDocs := prioritizedDocs + [doc];
      } else {
        otherDocs := otherDocs + [doc];
      }
      i := i + 1;
    }
    assert documents[..i] == documents;
    reordered := SortByKey(prioritizedDocs, KeyOf(priorityMap, |sourceIdPriority|)) + otherDocs;
  }

  // ---------------------------------------------------------------- properties

  lemma {:induction false} FilterSplit<T>(xs: seq<T>, p: T -> bool, q: T -> bool)
    requires forall x :: q(x) == !p(x)
    ensures multiset(Filter(xs, p)) + multiset(Filter(xs, q)) == multiset(xs)
  {
    if xs != [] {
      var n := |xs| - 1;
      FilterSplit(xs[..n], p, q);
      assert xs == xs[..n] + [xs[n]];
    }
  }

  /** Reordering drops and adds nothing; an empty priority list keeps the input order. */
  lemma ReorderedPermutes(docs: seq<RagDocument>, priority: seq<string>)
    ensures multiset(Reordered(docs, priority)) == multiset(docs)
    ensures priority == [] ==> Reordered(docs, priority) == docs
  {
    if priority != [] {
      var pm := PriorityMap(priority);
      FilterSplit(docs, IsPrioritized(pm), IsOther(pm));
    }
  }

  /** With a priority list, the prioritized documents come first and the others follow,
      in input order. */
  lemma ReorderedFront(docs: seq<RagDocument>, priority: seq<string>)
    requires priority != []
    ensures var pm := PriorityMap(priority);
      var r := Reordered(docs, priority);
      var front := SortByKey(Filter(docs, IsPrioritized(pm)), KeyOf(pm, |priority|));
      r == front + Filter(docs, IsOther(pm)) &&
      (forall i :: 0 <= i < |front| ==> Prioritized(pm, r[i])) &&
      (forall i :: |front| <= i < |r| ==> !Prioritized(pm, r[i]))
  {
    var pm := PriorityMap(priority);
    var ps := Filter(docs, IsPrioritized(pm));
    var front := SortByKey(ps, KeyOf(pm, |priority|));
    var others := Filter(docs, IsOther(pm));
    forall i | 0 <= i < |front|
      ensures Prioritized(pm, front[i])
    {
      assert front[i] in multiset(ps);
      FilterMember(docs, IsPrioritized(pm), front[i]);
    }
    forall i | 0 <= i < |others|
      ensures !Prioritized(pm, others[i])
    {
      assert IsOther(pm)(others[i]);
    }
  }

  /** The prioritized documents are ordered by the index of their source id, and those of
      one index keep their input order. */
  lemma ReorderedFrontSorted(docs: seq<RagDocument>, priority: seq<string>, k: nat)
    requires priority != []
    ensures var pm := PriorityMap(priority);
      var key := KeyOf(pm, |priority|);
      var front := SortByKey(Filter(docs, IsPrioritized(pm)), key);
      SortedBy(front, key) &&
      Filter(front, HasKey(key, k)) == Filter(Filter(docs, IsPrioritized(pm)), HasKey(key, k))
  {
    var pm := PriorityMap(priority);
    var ps := Filter(docs, IsPrioritized(pm));
    SortedByKey(ps, KeyOf(pm, |priority|));
    SortStable(ps, KeyOf(pm, |priority|), k);
  }

  /** The sort key of a prioritized document is the last index of its source id. */
  lemma KeyIsLastIndex(priority: seq<string>, d: RagDocument)
    requires Prioritized(PriorityMap(priority), d)
    ensures var k := KeyOf(PriorityMap(priority), |priority|)(d);
      k < |priority| && priority[k] == d.sourceId.value &&
      forall j :: k < j < |priority| ==> priority[j] != d.sourceId.value
  {
    PriorityMapLast(priority, d.sourceId.value);
  }
}
