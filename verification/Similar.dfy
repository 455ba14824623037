/** The three tiers of the similar-message search and the collector they feed. */
module Similar {
  import opened Text
  import opened Subjects
  import opened LikePattern

  datatype Row<Hit> = Row(id: int, hit: Hit)
  datatype SubjectRow = SubjectRow(id: int, subject: Option<string>)

  ghost predicate DistinctIds<Hit>(rows: seq<Row<Hit>>) {
    forall i, j :: 0 <= i < j < |rows| ==> rows[i].id != rows[j].id
  }

  function Ids<Hit>(rows: seq<Row<Hit>>): (r: set<int>) {
    set i | 0 <= i < |rows| :: rows[i].id
  }

  /** `rows` without repeats and without the ids in `seen`, first occurrence kept. */
  function Fresh<Hit>(rows: seq<Row<Hit>>, seen: set<int>): seq<Row<Hit>> {
    if rows == [] then []
    else if rows[0].id in seen then Fresh(rows[1..], seen)
    else [rows[0]] + Fresh(rows[1..], seen + {rows[0].id})
  }

  function Take<T>(s: seq<T>, n: nat): seq<T> {
    if n < |s| then s[..n] else s
  }

  /** What a collector with `rows` holds after a whole tier. */
  ghost function Kept<Hit>(rows: seq<Row<Hit>>, tier: seq<Row<Hit>>, seen: set<int>, limit: nat): (r: seq<Row<Hit>>)
    requires |rows| <= limit
    ensures |r| <= limit
  {
    rows + Take(Fresh(tier, seen), limit - |rows|)
  }

  /** `Collector`: what was seen, what was kept, and the limit. */
  class Collector<Hit> {
    var seen: set<int>
    var rows: seq<Row<Hit>>
    const limit: nat

    constructor (target: int, limit: nat)
      ensures seen == {target} && rows == [] && this.limit == limit
    {
      seen := {target};
      rows := [];
      this.limit := limit;
    }

    predicate Full()
      reads this
    {
      |rows| >= limit
    }

    function Remaining(): nat
      reads this
    {
      if |rows| >= limit then 0 else limit - |rows|
    }

    method Push(row: Row<Hit>)
      modifies this
      ensures old(Full()) || row.id in old(seen) ==> rows == old(rows) && seen == old(seen)
      ensures !old(Full()) && row.id !in old(seen) ==> rows == old(rows) + [row] && seen == old(seen) + {row.id}
    {
      if !Full() && row.id !in seen {
        seen := seen + {row.id};
        rows := rows + [row];
      }
    }

    /** Pushing a tier keeps what is new in it, up to the limit. */
    method PushAll(tier: seq<Row<Hit>>)
      requires |rows| <= limit
      modifies this
      ensures |rows| <= limit
      ensures rows == Kept(old(rows), tier, old(seen), limit)
      ensures !Full() ==> seen == old(seen) + Ids(tier)
    {
      hide Fresh, Ids, Kept;
      NoRows<Hit>();
      assert tier[0..] == tier;
      for i := 0 to |tier|
        invariant |rows| <= limit
        invariant Kept(rows, tier[i..], seen, limit) == Kept(old(rows), tier, old(seen), limit)
        invariant !Full() ==> seen == old(seen) + Ids(tier[..i])
      {
        assert tier[..i + 1] == tier[..i] + [tier[i]];
        IdsAppend(tier[..i], tier[i]);
        assert tier[i..] == [tier[i]] + tier[i + 1..];
        KeptCons(rows, tier[i], tier[i + 1..], seen, limit);
        Push(tier[i]);
      }
      assert tier[..|tier|] == tier;
      KeptNothing(rows, [], seen, limit);
    }
  }

  lemma KeptCons<Hit>(rows: seq<Row<Hit>>, row: Row<Hit>, tier: seq<Row<Hit>>, seen: set<int>, limit: nat)
    requires |rows| <= limit
    ensures Kept(rows, [row] + tier, seen, limit)
            == if |rows| < limit && row.id !in seen then Kept(rows + [row], tier, seen + {row.id}, limit)
               else Kept(rows, tier, seen, limit)
  {
    assert ([row] + tier)[1..] == tier;
    if |rows| < limit && row.id !in seen {
      assert rows + ([row] + Take(Fresh(tier, seen + {row.id}), limit - |rows| - 1))
          == rows + [row] + Take(Fresh(tier, seen + {row.id}), limit - |rows| - 1);
    }
  }

  lemma IdsAppend<Hit>(rows: seq<Row<Hit>>, row: Row<Hit>)
    ensures Ids(rows + [row]) == Ids(rows) + {row.id}
  {
    var more := rows + [row];
    forall x | x in Ids(rows) ensures x in Ids(more) {
      var i :| 0 <= i < |rows| && rows[i].id == x;
      assert more[i].id == x;
    }
    assert more[|rows|].id == row.id;
  }

  lemma NoRows<Hit>()
    ensures Ids<Hit>([]) == {}
  {
  }

  lemma IdsCons<Hit>(rows: seq<Row<Hit>>)
    requires rows != []
    ensures Ids(rows) == {rows[0].id} + Ids(rows[1..])
  {
    forall x | x in Ids(rows) ensures x in {rows[0].id} + Ids(rows[1..]) {
      var i :| 0 <= i < |rows| && rows[i].id == x;
      if i > 0 { assert rows[1..][i - 1].id == x; }
    }
    forall x | x in Ids(rows[1..]) ensures x in Ids(rows) {
      var i :| 0 <= i < |rows[1..]| && rows[1..][i].id == x;
      assert rows[i + 1].id == x;
    }
  }

  lemma {:induction false} FreshAppend<Hit>(a: seq<Row<Hit>>, b: seq<Row<Hit>>, seen: set<int>)
    ensures Fresh(a + b, seen) == Fresh(a, seen) + Fresh(b, seen + Ids(a))
  {
    hide Ids;
    NoRows<Hit>();
    if a == [] {
      assert a + b == b;
      assert seen + Ids(a) == seen;
    } else {
      assert (a + b)[1..] == a[1..] + b;
      var next := seen + {a[0].id};
      IdsCons(a);
      assert next + Ids(a[1..]) == seen + Ids(a);
      if a[0].id in seen {
        assert next == seen;
      }
      FreshAppend(a[1..], b, next);
    }
  }

  /** The pigeonhole behind the tiers' `limit`s: among `k` distinct ids at most `|seen|` are stale. */
  lemma {:induction false} FreshCount<Hit>(tier: seq<Row<Hit>>, seen: set<int>)
    requires DistinctIds(tier)
    ensures |Fresh(tier, seen)| + |seen| >= |tier|
  {
    if tier != [] {
      var rest := tier[1..];
      if tier[0].id in seen {
        var fewer := seen - {tier[0].id};
        FreshCount(rest, fewer);
        SeenElsewhere(rest, fewer, tier[0].id);
        assert fewer + {tier[0].id} == seen;
      } else {
        FreshCount(rest, seen);
        SeenElsewhere(rest, seen, tier[0].id);
      }
    }
  }

  /** So reading `want + |seen|` rows of a tier yields what reading all of it would. */
  lemma LimitLosesNothing<Hit>(tier: seq<Row<Hit>>, seen: set<int>, want: nat, k: nat)
    requires DistinctIds(tier)
    requires k >= want + |seen|
    ensures Take(Fresh(Take(tier, k), seen), want) == Take(Fresh(tier, seen), want)
    ensures |Fresh(Take(tier, k), seen)| < want ==> Take(tier, k) == tier
  {
    hide Fresh, Ids;
    if k < |tier| {
      var read, left := tier[..k], tier[k..];
      assert tier == read + left;
      FreshAppend(read, left, seen);
      FreshCount(read, seen);
    }
  }

  /** Having seen an id that a tier does not hold makes no difference to it. */
  lemma {:induction false} SeenElsewhere<Hit>(tier: seq<Row<Hit>>, seen: set<int>, id: int)
    requires forall i :: 0 <= i < |tier| ==> tier[i].id != id
    ensures Fresh(tier, seen + {id}) == Fresh(tier, seen)
  {
    if tier != [] {
      if tier[0].id in seen {
        SeenElsewhere(tier[1..], seen, id);
      } else {
        SeenElsewhere(tier[1..], seen + {tier[0].id}, id);
        assert seen + {tier[0].id} + {id} == seen + {id} + {tier[0].id};
      }
    }
  }

  /** Without the slack the target itself can push a match out. */
  lemma SlackIsNeeded<Hit>(tier: seq<Row<Hit>>, target: int)
    requires DistinctIds(tier) && |tier| > 1 && tier[0].id == target
    ensures Take(Fresh(Take(tier, |tier| - 1), {target}), |tier| - 1) != Take(Fresh(tier, {target}), |tier| - 1)
  {
    FreshOfDistinct(tier[1..], {target});
    FreshOfDistinct(Take(tier, |tier| - 1)[1..], {target});
  }

  lemma {:induction false} FreshOfDistinct<Hit>(tier: seq<Row<Hit>>, seen: set<int>)
    requires DistinctIds(tier)
    requires forall i :: 0 <= i < |tier| ==> tier[i].id !in seen
    ensures Fresh(tier, seen) == tier
  {
    if tier != [] {
      FreshOfDistinct(tier[1..], seen + {tier[0].id});
    }
  }

  // ---- Tier 2 ------------------------------------------------------------------------------------

  function SubjectOf(row: SubjectRow): string {
    if row.subject.Some? then row.subject.value else ""
  }

  /** Ids of the sender's rows whose subject normalises to the target: the full scan. */
  function Matching(rows: seq<SubjectRow>, target: string, toLower: string -> string): seq<int> {
    if rows == [] then []
    else (if toLower(Stripped(SubjectOf(rows[0]))) == target then [rows[0].id] else [])
         + Matching(rows[1..], target, toLower)
  }

  /** The rows the statement returns: those the `where` clause lets through, in order. */
  function Selected(rows: seq<SubjectRow>, pattern: string): seq<SubjectRow> {
    if rows == [] then []
    else (if Prefiltered(pattern, rows[0].subject) then [rows[0]] else []) + Selected(rows[1..], pattern)
  }

  /** Scanning only the prefiltered rows finds exactly the ids of a full scan. */
  lemma {:induction false} PrefilterIsExact(rows: seq<SubjectRow>, target: string, toLower: string -> string)
    requires LowersAscii(toLower) && target != []
    ensures Matching(Selected(rows, "%" + EscapedAll(target) + "%"), target, toLower) == Matching(rows, target, toLower)
  {
    hide Stripped, Prefiltered;
    if rows != [] {
      var pattern := "%" + EscapedAll(target) + "%";
      PrefilterIsExact(rows[1..], target, toLower);
      var rest := Selected(rows[1..], pattern);
      if Prefiltered(pattern, rows[0].subject) {
        assert ([rows[0]] + rest)[1..] == rest;
      } else if toLower(Stripped(SubjectOf(rows[0]))) == target {
        PrefilterKeepsMatches(rows[0].subject, target, toLower);
      } else {
        assert [] + rest == rest;
      }
    }
  }

  function Unseen(ids: seq<int>, seen: set<int>): seq<int> {
    if ids == [] then []
    else (if ids[0] in seen then [] else [ids[0]]) + Unseen(ids[1..], seen)
  }

  function Fetched<Hit>(ids: seq<int>, fetch: int -> Row<Hit>): (r: seq<Row<Hit>>)
    ensures |r| == |ids|
    ensures forall i :: 0 <= i < |ids| ==> r[i] == fetch(ids[i])
  {
    seq(|ids|, i requires 0 <= i < |ids| => fetch(ids[i]))
  }

  /** The scan of tier 2: stops as soon as enough unseen matches are found. */
  method ScanSubjects(rows: seq<SubjectRow>, target: string, seen: set<int>, want: nat, toLower: string -> string)
    returns (ids: seq<int>)
    requires want > 0
    ensures ids == Take(Unseen(Matching(rows, target, toLower), seen), want)
  {
    hide Stripped, Matching, Unseen;
    ids := [];
    var i := 0;
    assert rows[0..] == rows;
    while i < |rows|
      invariant i <= |rows| && |ids| < want
      invariant ids + Unseen(Matching(rows[i..], target, toLower), seen)
              == Unseen(Matching(rows, target, toLower), seen)
    {
      var row := rows[i];
      MatchStep(rows, i, target, seen, toLower);
      var norm := NormalizeSubject(SubjectOf(row), toLower);
      if row.id !in seen && norm == target {
        ids := ids + [row.id];
        if |ids| >= want {
          return;
        }
      }
      i := i + 1;
    }
    NoMatches(target, toLower, seen);
    assert rows[i..] == [];
  }

  lemma MatchStep(rows: seq<SubjectRow>, i: nat, target: string, seen: set<int>, toLower: string -> string)
    requires i < |rows|
    ensures Unseen(Matching(rows[i..], target, toLower), seen)
            == (if rows[i].id !in seen && toLower(Stripped(SubjectOf(rows[i]))) == target then [rows[i].id] else [])
               + Unseen(Matching(rows[i + 1..], target, toLower), seen)
  {
    hide Stripped;
    assert rows[i..][0] == rows[i] && rows[i..][1..] == rows[i + 1..];
    var rest := Matching(rows[i + 1..], target, toLower);
    assert ([rows[i].id] + rest)[1..] == rest && [] + rest == rest;
  }

  ghost predicate Distinct(ids: seq<int>) {
    forall i, j :: 0 <= i < j < |ids| ==> ids[i] != ids[j]
  }

  /** A row is fetched by its own id. */
  ghost predicate FetchesById<Hit>(ids: seq<int>, fetch: int -> Row<Hit>) {
    forall i :: 0 <= i < |ids| ==> fetch(ids[i]).id == ids[i]
  }

  lemma {:induction false} UnseenShape(ids: seq<int>, seen: set<int>)
    requires Distinct(ids)
    ensures Distinct(Unseen(ids, seen))
    ensures forall i :: 0 <= i < |Unseen(ids, seen)| ==> Unseen(ids, seen)[i] in ids && Unseen(ids, seen)[i] !in seen
  {
    if ids != [] {
      UnseenShape(ids[1..], seen);
      var rest := Unseen(ids[1..], seen);
      hide Unseen;
      forall i | 0 <= i < |rest| ensures rest[i] in ids && rest[i] != ids[0] {
        var j :| 0 <= j < |ids[1..]| && ids[1..][j] == rest[i];
        assert ids[j + 1] == rest[i];
      }
      UnseenUnfold(ids, seen);
    }
  }

  lemma UnseenUnfold(ids: seq<int>, seen: set<int>)
    requires ids != []
    ensures Unseen(ids, seen) == (if ids[0] in seen then [] else [ids[0]]) + Unseen(ids[1..], seen)
  {
  }

  /** Dropping seen ids before fetching or seen rows after fetching is the same. */
  lemma {:induction false} UnseenFetched<Hit>(ids: seq<int>, fetch: int -> Row<Hit>, seen: set<int>)
    requires Distinct(ids) && FetchesById(ids, fetch)
    ensures Fresh(Fetched(ids, fetch), seen) == Fetched(Unseen(ids, seen), fetch)
  {
    if ids != [] {
      var x, tail := ids[0], ids[1..];
      assert ids == [x] + tail;
      FetchedCons(x, tail, fetch);
      UnseenFetched(tail, fetch, seen);
      assert fetch(ids[0]).id == x;
      if x !in seen {
        forall i | 0 <= i < |tail| ensures Fetched(tail, fetch)[i].id != x {
          assert fetch(ids[i + 1]).id == tail[i];
        }
        SeenElsewhere(Fetched(tail, fetch), seen, x);
        FetchedCons(x, Unseen(tail, seen), fetch);
      }
    }
  }

  lemma FetchedCons<Hit>(x: int, ids: seq<int>, fetch: int -> Row<Hit>)
    ensures Fetched([x] + ids, fetch) == [fetch(x)] + Fetched(ids, fetch)
    ensures Fetched([x] + ids, fetch)[1..] == Fetched(ids, fetch)
  {
    hide Fetched;
    var all, rest := Fetched([x] + ids, fetch), Fetched(ids, fetch);
    forall i | 0 <= i < |all| ensures all[i] == ([fetch(x)] + rest)[i] {
      assert ([x] + ids)[i] == if i == 0 then x else ids[i - 1];
    }
    assert all == [fetch(x)] + rest;
  }

  lemma {:induction false} MatchingIds(rows: seq<SubjectRow>, target: string, toLower: string -> string)
    requires forall i, j :: 0 <= i < j < |rows| ==> rows[i].id != rows[j].id
    ensures Distinct(Matching(rows, target, toLower))
    ensures forall x :: x in Matching(rows, target, toLower) ==> exists i :: 0 <= i < |rows| && rows[i].id == x
  {
    hide Stripped;
    if rows != [] {
      MatchingIds(rows[1..], target, toLower);
      var rest := Matching(rows[1..], target, toLower);
      forall x | x in rest ensures exists i :: 1 <= i < |rows| && rows[i].id == x {
        var i :| 0 <= i < |rows[1..]| && rows[1..][i].id == x;
        assert rows[i + 1].id == x;
      }
      assert rows[0].id !in rest;
    }
  }

  // ---- The whole search --------------------------------------------------------------------------

  /** What the three statements would return without their `limit`s, and whether each tier runs at all. */
  datatype Tiers<!Hit> = Tiers(
    thread: Option<seq<Row<Hit>>>,
    sender: Option<seq<SubjectRow>>,
    fetch: int -> Row<Hit>,
    keywords: Option<seq<Row<Hit>>>)

  function OrEmpty<T>(o: Option<seq<T>>): seq<T> {
    if o.Some? then o.value else []
  }

  /** Ids are primary keys: no statement returns one twice, and a row is fetched by its own id. */
  ghost predicate KeyedById<Hit>(t: Tiers<Hit>) {
    && DistinctIds(OrEmpty(t.thread))
    && DistinctIds(OrEmpty(t.keywords))
    && (forall i, j :: 0 <= i < j < |OrEmpty(t.sender)| ==> OrEmpty(t.sender)[i].id != OrEmpty(t.sender)[j].id)
    && (forall i :: 0 <= i < |OrEmpty(t.sender)| ==> t.fetch(OrEmpty(t.sender)[i].id).id == OrEmpty(t.sender)[i].id)
  }

  /** All three tiers in full, one after the other. */
  function Unlimited<Hit>(t: Tiers<Hit>, norm: string, toLower: string -> string): seq<Row<Hit>> {
    OrEmpty(t.thread)
    + (if norm == [] then [] else Fetched(Matching(OrEmpty(t.sender), norm, toLower), t.fetch))
    + OrEmpty(t.keywords)
  }

  /** Tier 1 and 3: a statement with a `limit` that leaves room for rows already seen. */
  method PushLimited<Hit>(c: Collector<Hit>, tier: seq<Row<Hit>>, limit: nat)
    requires DistinctIds(tier) && |c.rows| <= c.limit && limit >= c.Remaining() + |c.seen|
    modifies c
    ensures |c.rows| <= c.limit
    ensures c.rows == Kept(old(c.rows), tier, old(c.seen), c.limit)
    ensures !c.Full() ==> c.seen == old(c.seen) + Ids(tier)
  {
    LimitLosesNothing(tier, c.seen, c.Remaining(), limit);
    c.PushAll(Take(tier, limit));
  }

  /** Tier 2: scan the prefiltered subjects, then fetch the rows found. */
  method PushSender<Hit>(c: Collector<Hit>, sender: seq<SubjectRow>, fetch: int -> Row<Hit>, norm: string,
                         toLower: string -> string)
    requires LowersAscii(toLower) && norm != []
    requires |c.rows| < c.limit
    requires forall i, j :: 0 <= i < j < |sender| ==> sender[i].id != sender[j].id
    requires forall i :: 0 <= i < |sender| ==> fetch(sender[i].id).id == sender[i].id
    modifies c
    ensures |c.rows| <= c.limit
    ensures var tier := Fetched(Matching(sender, norm, toLower), fetch);
            && c.rows == Kept(old(c.rows), tier, old(c.seen), c.limit)
            && (!c.Full() ==> c.seen == old(c.seen) + Ids(tier))
  {
    hide Stripped, Like, EscapedAll, Matching, Fresh, Ids;
    var pattern := ContainsPattern(norm);
    PrefilterIsExact(sender, norm, toLower);
    MatchingIds(sender, norm, toLower);
    ghost var all := Matching(sender, norm, toLower);
    var ids := ScanSubjects(Selected(sender, pattern), norm, c.seen, c.Remaining(), toLower);
    forall i | 0 <= i < |all| ensures fetch(all[i]).id == all[i] {
      assert all[i] in all;
    }
    FetchedPrefix(all, fetch, c.seen, c.Remaining());
    c.PushAll(Fetched(ids, fetch));
  }

  /** The first `limit` distinct rows other than the target, whatever the tiers' own limits and the prefilter skip. */
  method SimilarRows<Hit>(t: Tiers<Hit>, target: int, targetSubject: string, limit: nat, toLower: string -> string)
    returns (found: seq<Row<Hit>>)
    requires KeyedById(t) && LowersAscii(toLower)
    ensures found == Take(Fresh(Unlimited(t, toLower(Stripped(targetSubject)), toLower), {target}),
                          if limit == 0 then 1 else limit)
  {
    hide Stripped, Matching, Fresh, Ids, Kept, Take;
    var norm := NormalizeSubject(targetSubject, toLower);
    var c := new Collector<Hit>(target, if limit == 0 then 1 else limit);
    ghost var t1 := OrEmpty(t.thread);
    ghost var t2 := if norm == [] then [] else Fetched(Matching(OrEmpty(t.sender), norm, toLower), t.fetch);
    ghost var t3 := OrEmpty(t.keywords);
    ThreeTiers(t1, t2, t3, {target}, c.limit);

    KeptNothing(c.rows, t1, {target}, c.limit);
    if t.thread.Some? {
      PushLimited(c, t.thread.value, c.Remaining() + 1);
    }
    ghost var rows1, seen1 := c.rows, {target} + Ids(t1);
    assert rows1 == Kept([], t1, {target}, c.limit);
    assert !c.Full() ==> c.seen == seen1;

    KeptNothing(rows1, t2, seen1, c.limit);
    if !c.Full() && t.sender.Some? && norm != [] {
      PushSender(c, t.sender.value, t.fetch, norm, toLower);
    } else {
      NoMatches(norm, toLower, {});
      assert c.Full() || t2 == [];
    }
    ghost var rows2, seen2 := c.rows, seen1 + Ids(t2);
    assert rows2 == Kept(rows1, t2, seen1, c.limit);
    assert !c.Full() ==> c.seen == seen2;

    KeptNothing(rows2, t3, seen2, c.limit);
    if !c.Full() && t.keywords.Some? {
      PushLimited(c, t.keywords.value, c.Remaining() + |c.seen|);
    }
    found := c.rows;
    assert found == Kept(rows2, t3, seen2, c.limit);
    assert Unlimited(t, norm, toLower) == t1 + t2 + t3;
  }

  lemma KeptNothing<Hit>(rows: seq<Row<Hit>>, tier: seq<Row<Hit>>, seen: set<int>, limit: nat)
    requires |rows| <= limit
    ensures |rows| == limit || tier == [] ==> Kept(rows, tier, seen, limit) == rows
    ensures tier == [] ==> Ids(tier) == {}
  {
  }

  lemma NoMatches(norm: string, toLower: string -> string, seen: set<int>)
    ensures Matching([], norm, toLower) == [] && Unseen([], seen) == []
  {
  }

  lemma ThreeTiers<Hit>(t1: seq<Row<Hit>>, t2: seq<Row<Hit>>, t3: seq<Row<Hit>>, seen: set<int>, n: nat)
    ensures Kept(Kept(Kept([], t1, seen, n), t2, seen + Ids(t1), n), t3, seen + Ids(t1) + Ids(t2), n)
            == Take(Fresh(t1 + t2 + t3, seen), n)
  {
    hide Kept, Fresh, Ids, Take;
    KeptTwice([], t1, t2, seen, n);
    KeptTwice([], t1 + t2, t3, seen, n);
    IdsConcat(t1, t2);
    assert seen + Ids(t1 + t2) == seen + Ids(t1) + Ids(t2);
    KeptFromStart(t1 + t2 + t3, seen, n);
  }

  lemma KeptFromStart<Hit>(tier: seq<Row<Hit>>, seen: set<int>, n: nat)
    ensures Kept([], tier, seen, n) == Take(Fresh(tier, seen), n)
  {
    assert [] + Take(Fresh(tier, seen), n) == Take(Fresh(tier, seen), n);
  }

  lemma KeptTwice<Hit>(rows: seq<Row<Hit>>, a: seq<Row<Hit>>, b: seq<Row<Hit>>, seen: set<int>, n: nat)
    requires |rows| <= n
    ensures Kept(Kept(rows, a, seen, n), b, seen + Ids(a), n) == Kept(rows, a + b, seen, n)
  {
    hide Fresh, Ids;
    FreshAppend(a, b, seen);
  }

  lemma IdsConcat<Hit>(a: seq<Row<Hit>>, b: seq<Row<Hit>>)
    ensures Ids(a + b) == Ids(a) + Ids(b)
  {
    forall x | x in Ids(a) ensures x in Ids(a + b) {
      var i :| 0 <= i < |a| && a[i].id == x;
      assert (a + b)[i].id == x;
    }
    forall x | x in Ids(b) ensures x in Ids(a + b) {
      var i :| 0 <= i < |b| && b[i].id == x;
      assert (a + b)[|a| + i].id == x;
    }
  }

  /** Pushing the first `want` unseen matches is pushing all matches. */
  lemma FetchedPrefix<Hit>(ids: seq<int>, fetch: int -> Row<Hit>, seen: set<int>, want: nat)
    requires Distinct(ids) && FetchesById(ids, fetch)
    ensures var some := Fetched(Take(Unseen(ids, seen), want), fetch);
            var all := Fetched(ids, fetch);
            && Take(Fresh(some, seen), want) == Take(Fresh(all, seen), want)
            && (|Fresh(some, seen)| < want ==> seen + Ids(some) == seen + Ids(all))
  {
    hide Ids, Fresh, Unseen;
    UnseenFetched(ids, fetch, seen);
    UnseenShape(ids, seen);
    var u := Unseen(ids, seen);
    var f := Fetched(u, fetch);
    var some := Fetched(Take(u, want), fetch);
    assert some == Take(f, want);
    forall i | 0 <= i < |some| ensures some[i].id == u[i] && u[i] !in seen {
      var j :| 0 <= j < |ids| && ids[j] == u[i];
      assert fetch(ids[j]).id == ids[j];
    }
    FreshOfDistinct(some, seen);
    if |some| < want {
      assert some == f;
      UnseenIds(ids, fetch, seen);
    }
  }

  lemma UnseenIds<Hit>(ids: seq<int>, fetch: int -> Row<Hit>, seen: set<int>)
    requires FetchesById(ids, fetch)
    requires forall i :: 0 <= i < |Unseen(ids, seen)| ==> Unseen(ids, seen)[i] in ids && Unseen(ids, seen)[i] !in seen
    ensures seen + Ids(Fetched(Unseen(ids, seen), fetch)) == seen + Ids(Fetched(ids, fetch))
  {
    hide Unseen;
    var u := Unseen(ids, seen);
    var all, some := Fetched(ids, fetch), Fetched(u, fetch);
    forall x | x in Ids(some) ensures x in Ids(all) {
      var i :| 0 <= i < |some| && some[i].id == x;
      var j :| 0 <= j < |ids| && ids[j] == u[i];
      assert all[j].id == x;
    }
    forall x | x in Ids(all) && x !in seen ensures x in Ids(some) {
      var j :| 0 <= j < |all| && all[j].id == x;
      assert fetch(ids[j]).id == ids[j];
      UnseenHas(ids, seen, j);
      var i :| 0 <= i < |u| && u[i] == ids[j];
      assert some[i].id == x;
    }
  }

  lemma {:induction false} UnseenHas(ids: seq<int>, seen: set<int>, j: nat)
    requires j < |ids| && ids[j] !in seen
    ensures ids[j] in Unseen(ids, seen)
  {
    if j > 0 {
      UnseenHas(ids[1..], seen, j - 1);
    }
  }

  // ---- What is found, tier by tier ---------------------------------------------------------------

  lemma {:induction false} FreshFrom<Hit>(c: seq<Row<Hit>>, seen: set<int>, b: nat) returns (i: nat)
    requires b < |Fresh(c, seen)|
    ensures i < |c| && c[i] == Fresh(c, seen)[b] && c[i].id !in seen
    ensures forall j :: 0 <= j < i ==> c[j].id != c[i].id
    ensures forall k :: 0 <= k < |Fresh(c, seen)| && k != b ==> Fresh(c, seen)[k].id != c[i].id
    decreases |c|, b
  {
    if c[0].id in seen {
      i := FreshFrom(c[1..], seen, b);
      i := i + 1;
    } else {
      var rest := Fresh(c[1..], seen + {c[0].id});
      if b == 0 {
        i := 0;
        forall k | 1 <= k < |Fresh(c, seen)| ensures Fresh(c, seen)[k].id != c[0].id {
          var _ := FreshFrom(c[1..], seen + {c[0].id}, k - 1);
          assert Fresh(c, seen)[k] == rest[k - 1];
        }
      } else {
        i := FreshFrom(c[1..], seen + {c[0].id}, b - 1);
        i := i + 1;
        forall k | 0 <= k < |Fresh(c, seen)| && k != b ensures Fresh(c, seen)[k].id != c[i].id {
          if k > 0 { assert Fresh(c, seen)[k] == rest[k - 1]; }
        }
      }
    }
  }

  lemma {:induction false} FreshHas<Hit>(c: seq<Row<Hit>>, seen: set<int>, i: nat) returns (a: nat)
    requires i < |c| && c[i].id !in seen
    ensures a < |Fresh(c, seen)| && Fresh(c, seen)[a].id == c[i].id
    ensures forall b :: 0 <= b < |Fresh(c, seen)| && (forall j :: 0 <= j < i ==> c[j].id != Fresh(c, seen)[b].id) ==>
              a <= b
    decreases |c|
  {
    if c[0].id in seen {
      a := FreshHas(c[1..], seen, i - 1);
      forall b | 0 <= b < |Fresh(c, seen)| && (forall j :: 0 <= j < i ==> c[j].id != Fresh(c, seen)[b].id)
        ensures a <= b
      {
        assert forall j :: 0 <= j < i - 1 ==> c[1..][j] == c[j + 1];
      }
    } else if c[i].id == c[0].id {
      a := 0;
    } else {
      var rest := Fresh(c[1..], seen + {c[0].id});
      a := FreshHas(c[1..], seen + {c[0].id}, i - 1);
      a := a + 1;
      forall b | 0 <= b < |Fresh(c, seen)| && (forall j :: 0 <= j < i ==> c[j].id != Fresh(c, seen)[b].id)
        ensures a <= b
      {
        if b > 0 {
          assert Fresh(c, seen)[b] == rest[b - 1];
          assert forall j :: 0 <= j < i - 1 ==> c[1..][j] == c[j + 1];
        }
      }
    }
  }

  lemma FoundBefore<Hit>(c: seq<Row<Hit>>, target: int, n: nat, i: nat, b: nat) returns (a: nat)
    requires i < |c| && c[i].id != target && b < |Take(Fresh(c, {target}), n)|
    requires forall j :: 0 <= j < i ==> c[j].id != Take(Fresh(c, {target}), n)[b].id
    ensures a <= b && Take(Fresh(c, {target}), n)[a].id == c[i].id
  {
    hide Fresh;
    var f := Fresh(c, {target});
    assert Take(f, n)[b] == f[b];
    a := FreshHas(c, {target}, i);
  }

  /** The row's subject has this normal form; no subject counts as an empty one. */
  predicate SameDiscussion(row: SubjectRow, norm: string, toLower: string -> string) {
    toLower(Stripped(if row.subject.Some? then row.subject.value else "")) == norm
  }

  /** No matching row before the `i`-th has this id. */
  predicate NotBefore(rows: seq<SubjectRow>, target: string, toLower: string -> string, i: nat, other: int)
    requires i <= |rows|
  {
    forall j :: 0 <= j < i && SameDiscussion(rows[j], target, toLower) ==> rows[j].id != other
  }

  lemma NotBeforeTail(rows: seq<SubjectRow>, target: string, toLower: string -> string, i: nat, other: int)
    requires 1 <= i <= |rows| && NotBefore(rows, target, toLower, i, other)
    ensures NotBefore(rows[1..], target, toLower, i - 1, other)
    ensures SameDiscussion(rows[0], target, toLower) ==> rows[0].id != other
  {
    hide SameDiscussion;
  }

  lemma BehindHead(id: int, rest: seq<int>, k: nat, other: int)
    requires k < |rest| && id != other && forall j :: 0 <= j < k ==> rest[j] != other
    ensures ([id] + rest)[k + 1] == rest[k] && forall j :: 0 <= j < k + 1 ==> ([id] + rest)[j] != other
  {
  }

  /** A matching row is collected, behind no id that an earlier matching row does not have. */
  lemma {:induction false} MatchingAt(rows: seq<SubjectRow>, target: string, toLower: string -> string, i: nat,
                                         other: int)
    returns (k: nat)
    requires i < |rows| && SameDiscussion(rows[i], target, toLower) && NotBefore(rows, target, toLower, i, other)
    ensures k < |Matching(rows, target, toLower)| && Matching(rows, target, toLower)[k] == rows[i].id
    ensures forall j :: 0 <= j < k ==> Matching(rows, target, toLower)[j] != other
    decreases i
  {
    hide Matching, SameDiscussion, NotBefore;
    MatchingUnfold(rows, target, toLower);
    if i == 0 {
      k := 0;
    } else {
      NotBeforeTail(rows, target, toLower, i, other);
      k := MatchingAt(rows[1..], target, toLower, i - 1, other);
      if SameDiscussion(rows[0], target, toLower) {
        BehindHead(rows[0].id, Matching(rows[1..], target, toLower), k, other);
        k := k + 1;
      }
    }
  }

  lemma MatchingUnfold(rows: seq<SubjectRow>, target: string, toLower: string -> string)
    requires rows != []
    ensures var rest := Matching(rows[1..], target, toLower);
            Matching(rows, target, toLower)
            == if SameDiscussion(rows[0], target, toLower) then [rows[0].id] + rest else rest
  {
    hide Stripped;
    assert [] + Matching(rows[1..], target, toLower) == Matching(rows[1..], target, toLower);
  }

  lemma {:induction false} MatchingFrom(rows: seq<SubjectRow>, target: string, toLower: string -> string, k: nat)
    returns (i: nat)
    requires k < |Matching(rows, target, toLower)|
    ensures i < |rows| && rows[i].id == Matching(rows, target, toLower)[k]
    ensures SameDiscussion(rows[i], target, toLower)
    decreases |rows|
  {
    hide Stripped;
    if toLower(Stripped(SubjectOf(rows[0]))) == target && k == 0 {
      i := 0;
    } else {
      var n := if toLower(Stripped(SubjectOf(rows[0]))) == target then 1 else 0;
      i := MatchingFrom(rows[1..], target, toLower, k - n);
      i := i + 1;
    }
  }

  /** A thread row stands before every row found that is not an earlier row of the thread. */
  lemma ThreadFirst<Hit>(t: Tiers<Hit>, target: int, norm: string, n: nat, toLower: string -> string,
                         found: seq<Row<Hit>>, i: nat, b: nat) returns (a: nat)
    requires KeyedById(t) && found == Take(Fresh(Unlimited(t, norm, toLower), {target}), n)
    requires t.thread.Some? && i < |t.thread.value| && t.thread.value[i].id != target && b < |found|
    requires forall j :: 0 <= j < i ==> t.thread.value[j].id != found[b].id
    ensures a <= b && found[a] == t.thread.value[i]
  {
    hide Fresh, Matching, Fetched;
    var c := Unlimited(t, norm, toLower);
    assert forall j :: 0 <= j <= i ==> c[j] == t.thread.value[j];
    a := FoundBefore(c, target, n, i, b);
    var h := FreshFrom(c, {target}, a);
  }

  /** A sender row with the target's normal form stands before every row found that is neither of the thread nor such a
      row before it. */
  lemma SenderNext<Hit>(t: Tiers<Hit>, target: int, norm: string, n: nat, toLower: string -> string,
                        found: seq<Row<Hit>>, i: nat, b: nat) returns (a: nat)
    requires KeyedById(t) && found == Take(Fresh(Unlimited(t, norm, toLower), {target}), n)
    requires t.sender.Some? && i < |t.sender.value| && t.sender.value[i].id != target && b < |found| && norm != []
    requires SameDiscussion(t.sender.value[i], norm, toLower)
    requires t.thread.Some? ==> forall j :: 0 <= j < |t.thread.value| ==> t.thread.value[j].id != found[b].id
    requires forall j :: 0 <= j < i && SameDiscussion(t.sender.value[j], norm, toLower) ==>
               t.sender.value[j].id != found[b].id
    ensures a <= b && found[a].id == t.sender.value[i].id
    ensures (t.thread.Some? ==>
               forall j :: 0 <= j < |t.thread.value| ==> t.thread.value[j].id != t.sender.value[i].id) ==>
              found[a] == t.fetch(t.sender.value[i].id)
  {
    hide Fresh, Stripped, Matching, SameDiscussion, Unlimited, Take;
    assert NotBefore(t.sender.value, norm, toLower, i, found[b].id);
    var k := MatchingAt(t.sender.value, norm, toLower, i, found[b].id);
    var c := Unlimited(t, norm, toLower);
    var ids := Matching(t.sender.value, norm, toLower);
    var m := |OrEmpty(t.thread)|;
    forall j | 0 <= j < m + k ensures j < |c| && c[j].id != found[b].id {
      if j < m {
        TierOne(t, norm, toLower, j);
      } else {
        TierTwo(t, norm, toLower, j - m);
      }
    }
    TierTwo(t, norm, toLower, k);
    a := FoundBefore(c, target, n, m + k, b);
    if t.thread.Some? ==> forall j :: 0 <= j < |t.thread.value| ==> t.thread.value[j].id != t.sender.value[i].id {
      FoundIsFetched(t, target, norm, n, toLower, a, k);
    }
  }

  lemma FoundIsFetched<Hit>(t: Tiers<Hit>, target: int, norm: string, n: nat, toLower: string -> string, a: nat, k: nat)
    requires KeyedById(t) && norm != [] && k < |Matching(OrEmpty(t.sender), norm, toLower)|
    requires a < |Take(Fresh(Unlimited(t, norm, toLower), {target}), n)|
    requires var id := Matching(OrEmpty(t.sender), norm, toLower)[k];
             && Take(Fresh(Unlimited(t, norm, toLower), {target}), n)[a].id == id
             && forall j :: 0 <= j < |OrEmpty(t.thread)| ==> OrEmpty(t.thread)[j].id != id
    ensures var id := Matching(OrEmpty(t.sender), norm, toLower)[k];
            Take(Fresh(Unlimited(t, norm, toLower), {target}), n)[a] == t.fetch(id)
  {
    hide Fresh, Matching, Unlimited, SameDiscussion, Stripped;
    var c, m := Unlimited(t, norm, toLower), |OrEmpty(t.thread)|;
    var h := FreshFrom(c, {target}, a);
    TierTwo(t, norm, toLower, k);
    MatchingIds(OrEmpty(t.sender), norm, toLower);
    if h < m {
      TierOne(t, norm, toLower, h);
      assert false;
    } else if h < m + k {
      TierTwo(t, norm, toLower, h - m);
      assert false;
    }
  }

  lemma TierOne<Hit>(t: Tiers<Hit>, norm: string, toLower: string -> string, j: nat)
    requires j < |OrEmpty(t.thread)|
    ensures j < |Unlimited(t, norm, toLower)| && Unlimited(t, norm, toLower)[j] == OrEmpty(t.thread)[j]
  {
    hide Matching;
  }

  lemma TierTwo<Hit>(t: Tiers<Hit>, norm: string, toLower: string -> string, j: nat)
    requires KeyedById(t) && norm != [] && j < |Matching(OrEmpty(t.sender), norm, toLower)|
    ensures var c, k := Unlimited(t, norm, toLower), |OrEmpty(t.thread)| + j;
            && k < |c| && c[k].id == Matching(OrEmpty(t.sender), norm, toLower)[j]
            && c[k] == t.fetch(c[k].id)
  {
    hide Matching, SameDiscussion;
    var h := MatchingFrom(OrEmpty(t.sender), norm, toLower, j);
    var ids := Matching(OrEmpty(t.sender), norm, toLower);
    assert Fetched(ids, t.fetch)[j] == t.fetch(ids[j]);
  }

  /** A keyword row stands before every row found that is of neither other tier and no keyword row before it. */
  lemma KeywordsLast<Hit>(t: Tiers<Hit>, target: int, norm: string, n: nat, toLower: string -> string,
                          found: seq<Row<Hit>>, i: nat, b: nat) returns (a: nat)
    requires KeyedById(t) && found == Take(Fresh(Unlimited(t, norm, toLower), {target}), n)
    requires t.keywords.Some? && i < |t.keywords.value| && t.keywords.value[i].id != target && b < |found|
    requires t.thread.Some? ==> forall j :: 0 <= j < |t.thread.value| ==> t.thread.value[j].id != found[b].id
    requires t.sender.Some? ==> forall j :: 0 <= j < |t.sender.value| ==> t.sender.value[j].id != found[b].id
    requires forall j :: 0 <= j < i ==> t.keywords.value[j].id != found[b].id
    ensures a <= b && found[a].id == t.keywords.value[i].id
  {
    hide Fresh, Stripped;
    var c := Unlimited(t, norm, toLower);
    var t2 := if norm == [] then [] else Fetched(Matching(OrEmpty(t.sender), norm, toLower), t.fetch);
    var m := |OrEmpty(t.thread)|;
    hide Matching;
    assert c[m + |t2| + i] == t.keywords.value[i];
    forall j | 0 <= j < m + |t2| + i ensures c[j].id != found[b].id {
      if j < m {
        assert c[j] == OrEmpty(t.thread)[j];
      } else if j < m + |t2| {
        assert c[j] == t2[j - m];
        var h := MatchingFrom(OrEmpty(t.sender), norm, toLower, j - m);
      } else {
        assert c[j] == t.keywords.value[j - m - |t2|];
      }
    }
    a := FoundBefore(c, target, n, m + |t2| + i, b);
  }

  /** Nothing else is found: each row is a thread row, or fetched for a sender row with the target's normal form, or a
      keyword row; never the target, never twice, never more than the limit. */
  lemma FoundComesFrom<Hit>(t: Tiers<Hit>, target: int, norm: string, n: nat, toLower: string -> string,
                            found: seq<Row<Hit>>, b: nat)
    requires KeyedById(t) && found == Take(Fresh(Unlimited(t, norm, toLower), {target}), n) && b < |found|
    ensures |found| <= n && found[b].id != target
    ensures forall k :: 0 <= k < |found| && k != b ==> found[k].id != found[b].id
    ensures || (t.thread.Some? && found[b] in t.thread.value)
            || (t.sender.Some? && norm != [] && exists r ::
                  r in t.sender.value && SameDiscussion(r, norm, toLower) && found[b] == t.fetch(r.id))
            || (t.keywords.Some? && found[b] in t.keywords.value)
  {
    hide Fresh, Stripped, Matching;
    var c := Unlimited(t, norm, toLower);
    var i := FreshFrom(c, {target}, b);
    var t2 := if norm == [] then [] else Fetched(Matching(OrEmpty(t.sender), norm, toLower), t.fetch);
    var m := |OrEmpty(t.thread)|;
    if i < m {
      assert c[i] == OrEmpty(t.thread)[i];
    } else if i < m + |t2| {
      assert c[i] == t2[i - m];
      var h := MatchingFrom(OrEmpty(t.sender), norm, toLower, i - m);
      assert t.sender.value[h] in t.sender.value && found[b] == t.fetch(t.sender.value[h].id);
    } else {
      assert c[i] == OrEmpty(t.keywords)[i - m - |t2|];
    }
  }

  /** With room left nothing is missing: every other row of the thread and the keywords, and every sender row with the
      target's nonempty normal form. */
  lemma NothingMissing<Hit>(t: Tiers<Hit>, target: int, norm: string, n: nat, toLower: string -> string,
                            found: seq<Row<Hit>>, i: nat)
    requires KeyedById(t) && found == Take(Fresh(Unlimited(t, norm, toLower), {target}), n) && |found| < n
    ensures t.thread.Some? && i < |t.thread.value| && t.thread.value[i].id != target ==>
              exists a :: 0 <= a < |found| && found[a].id == t.thread.value[i].id
    ensures t.keywords.Some? && i < |t.keywords.value| && t.keywords.value[i].id != target ==>
              exists a :: 0 <= a < |found| && found[a].id == t.keywords.value[i].id
    ensures t.sender.Some? && i < |t.sender.value| && t.sender.value[i].id != target && norm != []
            && SameDiscussion(t.sender.value[i], norm, toLower) ==>
              exists a :: 0 <= a < |found| && found[a].id == t.sender.value[i].id
  {
    hide Fresh, Stripped;
    var c := Unlimited(t, norm, toLower);
    var t2 := if norm == [] then [] else Fetched(Matching(OrEmpty(t.sender), norm, toLower), t.fetch);
    var m := |OrEmpty(t.thread)|;
    if t.thread.Some? && i < |t.thread.value| && t.thread.value[i].id != target {
      assert c[i] == t.thread.value[i];
      var a := FreshHas(c, {target}, i);
    }
    if t.keywords.Some? && i < |t.keywords.value| && t.keywords.value[i].id != target {
      assert c[m + |t2| + i] == t.keywords.value[i];
      var a := FreshHas(c, {target}, m + |t2| + i);
    }
    if t.sender.Some? && i < |t.sender.value| && t.sender.value[i].id != target && norm != []
       && SameDiscussion(t.sender.value[i], norm, toLower)
    {
      var k := MatchingAt(t.sender.value, norm, toLower, i, t.sender.value[i].id);
      TierTwo(t, norm, toLower, k);
      var a := FreshHas(c, {target}, m + k);
    }
  }
}
