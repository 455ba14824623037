/** Search hits grouped by folder, folders in the order of their first hit. */
module HitGroups {

  datatype Hit<T> = Hit(folder: string, item: T)

  /** Index of the first hit in folder `f`, or `|hits|`. */
  function First<T>(hits: seq<Hit<T>>, f: string): (k: nat)
    ensures k <= |hits|
    ensures k < |hits| ==> hits[k].folder == f
    ensures forall i :: 0 <= i < k ==> hits[i].folder != f
  {
    if hits == [] || hits[0].folder == f then 0 else 1 + First(hits[1..], f)
  }

  function Position(order: seq<string>, f: string): (k: nat)
    ensures k <= |order|
    ensures k < |order| ==> order[k] == f
    ensures forall i :: 0 <= i < k ==> order[i] != f
  {
    if order == [] || order[0] == f then 0 else 1 + Position(order[1..], f)
  }

  /** The folders of `hits`, each once, as the first loop collects them. */
  function Order<T>(hits: seq<Hit<T>>): seq<string> {
    if hits == [] then []
    else
      var order := Order(hits[..|hits| - 1]);
      var f := hits[|hits| - 1].folder;
      if f in order then order else order + [f]
  }

  /** A folder's own hits, in their order. */
  function Of<T>(hits: seq<Hit<T>>, f: string): seq<Hit<T>> {
    if hits == [] then [] else (if hits[0].folder == f then [hits[0]] else []) + Of(hits[1..], f)
  }

  ghost predicate SortedBy<T>(hits: seq<Hit<T>>, key: string -> nat) {
    forall i, j :: 0 <= i < j < |hits| ==> key(hits[i].folder) <= key(hits[j].folder)
  }

  /** A hit goes before every later hit of the same or a greater key. */
  function Insert<T>(h: Hit<T>, sorted: seq<Hit<T>>, key: string -> nat): seq<Hit<T>> {
    if sorted == [] || key(h.folder) <= key(sorted[0].folder) then [h] + sorted
    else [sorted[0]] + Insert(h, sorted[1..], key)
  }

  /** `sort_by_key`: a stable sort. */
  function StableSort<T>(hits: seq<Hit<T>>, key: string -> nat): seq<Hit<T>> {
    if hits == [] then [] else Insert(hits[0], StableSort(hits[1..], key), key)
  }

  function Grouped<T>(hits: seq<Hit<T>>): seq<Hit<T>> {
    var order := Order(hits);
    StableSort(hits, f => Position(order, f))
  }

  /** `hits_json` up to printing. */
  method GroupHits<T>(hits: seq<Hit<T>>) returns (r: seq<Hit<T>>)
    ensures r == Grouped(hits)
  {
    var order: seq<string> := [];
    for i := 0 to |hits|
      invariant order == Order(hits[..i])
    {
      var f := hits[i].folder;
      assert hits[..i + 1][..i] == hits[..i];
      if !(exists k :: 0 <= k < |order| && order[k] == f) {
        order := order + [f];
      }
    }
    assert hits[..|hits|] == hits;
    r := StableSort(hits, f => Position(order, f));
  }

  // ---- The sort ------------------------------------------------------------------------------------

  lemma {:induction false} InsertMembers<T>(h: Hit<T>, sorted: seq<Hit<T>>, key: string -> nat)
    ensures multiset(Insert(h, sorted, key)) == multiset{h} + multiset(sorted)
  {
    if sorted != [] && key(h.folder) > key(sorted[0].folder) {
      InsertMembers(h, sorted[1..], key);
      assert sorted == [sorted[0]] + sorted[1..];
    }
  }

  lemma {:induction false} InsertSorted<T>(h: Hit<T>, sorted: seq<Hit<T>>, key: string -> nat)
    requires SortedBy(sorted, key)
    ensures SortedBy(Insert(h, sorted, key), key)
  {
    if sorted != [] && key(h.folder) > key(sorted[0].folder) {
      var x, rest := sorted[0], Insert(h, sorted[1..], key);
      InsertSorted(h, sorted[1..], key);
      InsertMembers(h, sorted[1..], key);
      hide Insert;
      forall j | 0 <= j < |rest| ensures key(x.folder) <= key(rest[j].folder) {
        assert rest[j] in multiset(rest);
      }
      SortedCons(x, rest, key);
    }
  }

  lemma SortedCons<T>(x: Hit<T>, rest: seq<Hit<T>>, key: string -> nat)
    requires SortedBy(rest, key) && forall j :: 0 <= j < |rest| ==> key(x.folder) <= key(rest[j].folder)
    ensures SortedBy([x] + rest, key)
  {
  }

  lemma {:induction false} InsertStable<T>(h: Hit<T>, sorted: seq<Hit<T>>, key: string -> nat, f: string)
    ensures Of(Insert(h, sorted, key), f) == (if h.folder == f then [h] else []) + Of(sorted, f)
  {
    if sorted == [] || key(h.folder) <= key(sorted[0].folder) {
      assert ([h] + sorted)[1..] == sorted;
    } else {
      var x, rest := sorted[0], Insert(h, sorted[1..], key);
      InsertStable(h, sorted[1..], key, f);
      assert ([x] + rest)[1..] == rest;
    }
  }

  lemma {:induction false} SortShape<T>(hits: seq<Hit<T>>, key: string -> nat, f: string)
    ensures SortedBy(StableSort(hits, key), key)
    ensures Of(StableSort(hits, key), f) == Of(hits, f)
    ensures multiset(StableSort(hits, key)) == multiset(hits)
  {
    if hits != [] {
      SortShape(hits[1..], key, f);
      InsertMembers(hits[0], StableSort(hits[1..], key), key);
      InsertSorted(hits[0], StableSort(hits[1..], key), key);
      InsertStable(hits[0], StableSort(hits[1..], key), key, f);
      assert hits == [hits[0]] + hits[1..];
    }
  }

  // ---- The order -----------------------------------------------------------------------------------

  lemma {:induction false} FirstKept<T>(hits: seq<Hit<T>>, h: Hit<T>, f: string)
    ensures First(hits + [h], f) == if First(hits, f) < |hits| then First(hits, f)
                                    else if h.folder == f then |hits| else |hits| + 1
  {
    if hits == [] {
      assert hits + [h] == [h];
      assert [h][1..] == [];
    } else if hits[0].folder != f {
      assert (hits + [h])[1..] == hits[1..] + [h];
      FirstKept(hits[1..], h, f);
    }
  }

  /** Each folder once, in the order of first hits. */
  lemma {:induction false} OrderShape<T>(hits: seq<Hit<T>>)
    ensures forall i, j :: 0 <= i < j < |Order(hits)| ==> First(hits, Order(hits)[i]) < First(hits, Order(hits)[j])
    ensures forall f :: f in Order(hits) <==> First(hits, f) < |hits|
  {
    if hits != [] {
      var n := |hits| - 1;
      var front := hits[..n];
      assert hits == front + [hits[n]];
      OrderShape(front);
      forall f
        ensures First(hits, f)
                == if First(front, f) < n then First(front, f) else if hits[n].folder == f then n else n + 1
      {
        FirstKept(front, hits[n], f);
      }
      var order := Order(front);
      assert forall i :: 0 <= i < |order| ==> order[i] in order;
    } else {
      assert forall f :: First(hits, f) == 0;
    }
  }

  /** Sorting by position in the order is sorting by first hit. */
  lemma PositionIsFirst<T>(hits: seq<Hit<T>>, f: string, g: string)
    requires First(hits, f) < |hits| && First(hits, g) < |hits|
    ensures Position(Order(hits), f) < Position(Order(hits), g) <==> First(hits, f) < First(hits, g)
    ensures Position(Order(hits), f) == Position(Order(hits), g) <==> f == g
  {
    OrderShape(hits);
    var order := Order(hits);
    hide Order;
  }

  // ---- What grouping promises ------------------------------------------------------------------------

  /** Each folder is one run. */
  ghost predicate Contiguous<T>(hits: seq<Hit<T>>) {
    forall i, j, k :: 0 <= i < j < k < |hits| && hits[i].folder == hits[k].folder ==> hits[j].folder == hits[i].folder
  }

  /** Runs come in the order of the folders' first hits in `source`. */
  ghost predicate RunsInOrder<T>(hits: seq<Hit<T>>, source: seq<Hit<T>>) {
    forall i, j :: 0 <= i < j < |hits| ==> First(source, hits[i].folder) <= First(source, hits[j].folder)
  }

  ghost predicate SameSubsequences<T(!new)>(hits: seq<Hit<T>>, source: seq<Hit<T>>) {
    forall f :: Of(hits, f) == Of(source, f)
  }

  lemma {:induction false} InSource<T>(hits: seq<Hit<T>>, i: nat)
    requires i < |hits|
    ensures First(hits, hits[i].folder) <= i
  {
  }

  /** A stable regrouping: a permutation, one run a folder, runs by first hit, each folder's own hits as they were. */
  lemma GroupedShape<T(!new)>(hits: seq<Hit<T>>)
    ensures multiset(Grouped(hits)) == multiset(hits)
    ensures SameSubsequences(Grouped(hits), hits)
    ensures RunsInOrder(Grouped(hits), hits)
    ensures Contiguous(Grouped(hits))
  {
    var order := Order(hits);
    var key: string -> nat := f => Position(order, f);
    var r := Grouped(hits);
    assert r == StableSort(hits, key);
    forall f ensures Of(r, f) == Of(hits, f) { SortShape(hits, key, f); }
    SortShape(hits, key, "");
    hide Order, StableSort, Grouped, Of;
    forall i | 0 <= i < |r| ensures First(hits, r[i].folder) < |hits| {
      assert r[i] in multiset(r) && r[i] in hits;
      var k :| 0 <= k < |hits| && hits[k] == r[i];
      InSource(hits, k);
    }
    forall i, j | 0 <= i < j < |r| ensures First(hits, r[i].folder) <= First(hits, r[j].folder) {
      assert key(r[i].folder) <= key(r[j].folder);
      PositionIsFirst(hits, r[i].folder, r[j].folder);
      PositionIsFirst(hits, r[j].folder, r[i].folder);
    }
    RunsAreContiguous(r, hits);
  }

  lemma RunsAreContiguous<T>(r: seq<Hit<T>>, source: seq<Hit<T>>)
    requires RunsInOrder(r, source)
    requires forall i :: 0 <= i < |r| ==> First(source, r[i].folder) < |source|
    ensures Contiguous(r)
  {
    hide First;
    forall i, j, k | 0 <= i < j < k < |r| && r[i].folder == r[k].folder ensures r[j].folder == r[i].folder {
      assert First(source, r[i].folder) <= First(source, r[j].folder) <= First(source, r[k].folder);
    }
  }

  /** Nothing else keeps those promises: they determine the result. */
  lemma {:induction false} GroupingUnique<T(!new)>(a: seq<Hit<T>>, b: seq<Hit<T>>, source: seq<Hit<T>>)
    requires SameSubsequences(a, b)
    requires forall i :: 0 <= i < |a| ==> First(source, a[i].folder) < |source|
    requires RunsInOrder(a, source) && RunsInOrder(b, source)
    ensures a == b
    decreases |a|
  {
    if a == [] {
      if b != [] {
        OfHead(b);
      }
    } else {
      var f := a[0].folder;
      assert Of(a, f) == Of(b, f);
      var j := OfNonempty(b, f);
      var g := b[0].folder;
      assert Of(a, g) == Of(b, g);
      var i := OfNonempty(a, g);
      assert First(source, g) <= First(source, f) <= First(source, g);
      assert f == g;
      forall x ensures Of(a[1..], x) == Of(b[1..], x) {
        assert Of(a, x) == Of(b, x);
        if x == f {
          assert Of(a, x)[1..] == Of(a[1..], x) && Of(b, x)[1..] == Of(b[1..], x);
        } else {
          assert [] + Of(a[1..], x) == Of(a[1..], x) && [] + Of(b[1..], x) == Of(b[1..], x);
        }
      }
      assert a[0] == Of(a, f)[0] == Of(b, f)[0] == b[0];
      GroupingUnique(a[1..], b[1..], source);
      assert a == [a[0]] + a[1..] && b == [b[0]] + b[1..];
    }
  }

  lemma OfHead<T>(hits: seq<Hit<T>>)
    requires hits != []
    ensures Of(hits, hits[0].folder) != []
  {
  }

  lemma {:induction false} OfNonempty<T>(hits: seq<Hit<T>>, f: string) returns (i: nat)
    requires Of(hits, f) != []
    ensures i < |hits| && hits[i].folder == f
  {
    if hits[0].folder == f {
      i := 0;
    } else {
      assert [] + Of(hits[1..], f) == Of(hits[1..], f);
      i := OfNonempty(hits[1..], f);
      i := i + 1;
    }
  }

  /** Grouping twice is grouping once. */
  lemma GroupedIdempotent<T(!new)>(hits: seq<Hit<T>>)
    ensures Grouped(Grouped(hits)) == Grouped(hits)
  {
    var r := Grouped(hits);
    GroupedShape(hits);
    GroupedShape(r);
    forall i | 0 <= i < |r| ensures First(r, r[i].folder) < |r| { InSource(r, i); }
    forall i, j | 0 <= i < j < |r| ensures First(r, r[i].folder) <= First(r, r[j].folder) {
      InSource(r, i);
      InSource(r, j);
      var k := First(r, r[j].folder);
      assert k < i ==> r[i].folder == r[k].folder;
    }
    GroupingUnique(r, Grouped(r), r);
  }
}
