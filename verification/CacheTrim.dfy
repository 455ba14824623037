/** Trimming the message cache to the newest messages of each folder. */
module CacheTrim {
  import opened Text

  datatype Row = Row(id: int, uid: int, folder: int, isDraft: bool, flagsDirty: bool)

  datatype Status = Queued | Sending | Failed | Other(name: string)

  datatype Send = Send(message: Option<int>, status: Status)

  predicate Newer(a: Row, b: Row) {
    a.uid > b.uid || (a.uid == b.uid && a.id > b.id)
  }

  predicate UniqueIds(rows: set<Row>) {
    forall a, b :: a in rows && b in rows && a.id == b.id ==> a == b
  }

  function InFolder(rows: set<Row>, folder: int): set<Row> {
    set r | r in rows && r.folder == folder
  }

  // ---- `order by uid desc, id desc limit n` ----------------------------------------------------------------

  predicate IsNewest(m: Row, rows: set<Row>) {
    m in rows && forall r :: r in rows && r != m ==> Newer(m, r)
  }

  lemma NewestOfOneMore(rows: set<Row>, x: Row, m: Row)
    requires UniqueIds(rows) && x in rows && IsNewest(m, rows - {x})
    ensures IsNewest(if Newer(m, x) then m else x, rows)
  {
    assert m.id != x.id;
    forall r | r in rows && r != x && r != m ensures Newer(m, r) {
      assert r in rows - {x};
    }
  }

  lemma {:induction false} NewestExists(rows: set<Row>)
    requires rows != {} && UniqueIds(rows)
    ensures exists m :: IsNewest(m, rows)
  {
    hide IsNewest;
    var x :| x in rows;
    if rows == {x} {
      NewestOfOne(x);
    } else {
      NewestExists(rows - {x});
      var m :| IsNewest(m, rows - {x});
      NewestOfOneMore(rows, x, m);
    }
  }

  lemma NewestOfOne(x: Row)
    ensures IsNewest(x, {x})
  {
  }

  ghost function Newest(rows: set<Row>): (m: Row)
    requires rows != {} && UniqueIds(rows)
    ensures IsNewest(m, rows)
  {
    NewestExists(rows);
    var m :| IsNewest(m, rows);
    m
  }

  /** The rows from the newest to the oldest. */
  ghost function Ordered(rows: set<Row>): (s: seq<Row>)
    requires UniqueIds(rows)
    ensures forall r :: r in s <==> r in rows
    ensures forall i, j :: 0 <= i < j < |s| ==> Newer(s[i], s[j])
    decreases |rows|
  {
    if rows == {} then [] else [Newest(rows)] + Ordered(rows - {Newest(rows)})
  }

  ghost function Limited(rows: set<Row>, keep: nat): seq<Row>
    requires UniqueIds(rows)
  {
    var s := Ordered(rows);
    if |s| <= keep then s else s[..keep]
  }

  /** How many rows of its folder are newer. */
  function Rank(rows: set<Row>, r: Row): nat {
    |set x | x in rows && x.folder == r.folder && Newer(x, r)|
  }

  lemma {:induction false} DistinctCount(s: seq<Row>)
    requires forall i, j :: 0 <= i < j < |s| ==> s[i] != s[j]
    ensures |set x | x in s| == |s|
  {
    if s != [] {
      var t := s[..|s| - 1];
      DistinctCount(t);
      assert (set x | x in s) == (set x | x in t) + {s[|s| - 1]};
    }
  }

  lemma RankIsPlace(rows: set<Row>, folder: int, p: nat)
    requires UniqueIds(rows) && p < |Ordered(InFolder(rows, folder))|
    ensures Rank(rows, Ordered(InFolder(rows, folder))[p]) == p
  {
    hide Ordered;
    var s := Ordered(InFolder(rows, folder));
    var r := s[p];
    assert r in s && r in InFolder(rows, folder);
    DistinctCount(s[..p]);
    forall x ensures x in s[..p] <==> x in rows && x.folder == folder && Newer(x, r) {
      if x in s[..p] {
        var q :| 0 <= q < p && s[..p][q] == x;
        assert s[q] in s && x in InFolder(rows, folder);
      }
      if x in rows && x.folder == folder && Newer(x, r) {
        assert x in InFolder(rows, folder) && x in s;
        var q :| 0 <= q < |s| && s[q] == x;
        assert q < p;
      }
    }
    assert (set x | x in s[..p]) == (set x | x in rows && x.folder == folder && Newer(x, r));
  }

  /** A row is among the first `keep` of its folder exactly when fewer than `keep` are newer. */
  lemma LimitIsRank(rows: set<Row>, r: Row, keep: nat)
    requires UniqueIds(rows) && r in rows
    ensures r in Limited(InFolder(rows, r.folder), keep) <==> Rank(rows, r) < keep
  {
    hide Ordered, Rank;
    var s := Ordered(InFolder(rows, r.folder));
    assert r in InFolder(rows, r.folder) && r in s;
    var p :| 0 <= p < |s| && s[p] == r;
    RankIsPlace(rows, r.folder, p);
  }

  // ---- The tables --------------------------------------------------------------------------------------------

  predicate Guarded(r: Row, guards: set<int>) {
    r.isDraft || r.flagsDirty || r.id in guards
  }

  function GuardIds(pending: set<int>, queue: set<Send>): set<int> {
    pending + set s | s in queue && (s.status.Queued? || s.status.Sending? || s.status.Failed?)
        && s.message.Some? :: s.message.value
  }

  /** What the delete of one folder takes away. */
  function Old(rows: set<Row>, guards: set<int>, folder: int, keep: nat): set<Row> {
    set r | r in rows && r.folder == folder && !Guarded(r, guards) && !(Rank(rows, r) < keep)
  }

  /** The whole trim at once. */
  function AfterTrim(rows: set<Row>, guards: set<int>, keep: nat): set<Row> {
    set r | r in rows && (Guarded(r, guards) || Rank(rows, r) < keep)
  }

  /** A send whose message is gone refers to none. */
  function Detached(s: Send, gone: set<int>): Send {
    if s.message.Some? && s.message.value in gone then s.(message := None) else s
  }

  function DetachAll(queue: set<Send>, gone: set<int>): set<Send> {
    set s | s in queue :: Detached(s, gone)
  }

  function Ids(rows: set<Row>): set<int> {
    set r | r in rows :: r.id
  }

  predicate Refers(s: Send, id: int) {
    s.message == Some(id) && (s.status.Queued? || s.status.Sending? || s.status.Failed?)
  }

  /** What keeps a row: being a draft, unpushed flags, a pending move, a send still to do, or fewer than `keep` rows of
      its folder with a greater uid, or the same uid and a greater id. */
  ghost predicate Stays(rows: set<Row>, pending: set<int>, queue: set<Send>, keep: nat, r: Row) {
    || r.isDraft || r.flagsDirty || r.id in pending || (exists s :: s in queue && Refers(s, r.id))
    || |set x | x in rows && x.folder == r.folder && (x.uid > r.uid || (x.uid == r.uid && x.id > r.id))| < keep
  }

  class Cache {
    var folders: seq<int>
    var messages: set<Row>
    var pendingMoves: set<int>
    var sendQueue: set<Send>

    ghost predicate Valid()
      reads this
    {
      && UniqueIds(messages)
      && (forall r :: r in messages ==> r.folder in folders)
      && (forall i, j :: 0 <= i < j < |folders| ==> folders[i] != folders[j])
    }

    function Guards(): set<int>
      reads this
    {
      GuardIds(pendingMoves, sendQueue)
    }

    /** The delete statement for one folder, with the rows that hang on it; returns how many messages went. */
    method DeleteOld(folder: int, keep: nat) returns (count: nat)
      requires Valid()
      modifies this`messages, this`sendQueue
      ensures Valid() && Guards() == old(Guards())
      ensures messages == old(messages) - Old(old(messages), old(Guards()), folder, keep)
      ensures forall r :: r in old(messages) ==>
                (r in messages
                 <==> r.folder != folder || Guarded(r, old(Guards()))
                      || r in Limited(InFolder(old(messages), folder), keep))
      ensures sendQueue == DetachAll(old(sendQueue), Ids(old(messages) - messages))
      ensures count == |old(messages)| - |messages|
    {
      var guards := Guards();
      var old_ := Old(messages, guards, folder, keep);
      forall r | r in messages && r.folder == folder
        ensures r in Limited(InFolder(messages, folder), keep) <==> Rank(messages, r) < keep
      {
        LimitIsRank(messages, r, keep);
      }
      var gone := Ids(old_);
      assert messages - (messages - old_) == old_;
      DetachKeepsGuards(pendingMoves, sendQueue, gone);
      messages := messages - old_;
      sendQueue := DetachAll(sendQueue, gone);
      count := |old_|;
    }

    /** `trim_local_cache`: one delete per folder, adding up what went. What stays is a draft, a row with unpushed flags
        or a pending move, one that a queued, sending or failed send refers to, and the newest `keep` of each folder. */
    method TrimLocalCache(keep: nat) returns (removed: nat)
      requires Valid()
      modifies this`messages, this`sendQueue
      ensures Valid() && Guards() == old(Guards())
      ensures messages == AfterTrim(old(messages), old(Guards()), keep)
      ensures forall r :: r in old(messages) ==>
                (r in messages <==> Stays(old(messages), old(pendingMoves), old(sendQueue), keep, r))
      ensures sendQueue == DetachAll(old(sendQueue), Ids(old(messages) - messages))
      ensures removed == |old(messages)| - |messages| == |old(messages) - messages|
    {
      hide Stays, DetachAll, Ids, AfterTrimOf, AfterTrim, Guarded, GuardIds, Old, Rank, Limited, UniqueIds;
      ghost var before, guards := messages, Guards();
      ghost var queue, pending := sendQueue, pendingMoves;
      NoFolder(before, guards, keep);
      NothingGone(before, queue);
      removed := 0;
      var i := 0;
      while i < |folders|
        invariant i <= |folders|
        invariant Valid() && Guards() == guards && folders == old(folders)
        invariant messages == AfterTrimOf(before, guards, keep, folders[..i])
        invariant removed == |before| - |messages| && messages <= before
        invariant sendQueue == DetachAll(queue, Ids(before - messages))
      {
        ghost var now := messages;
        var count := DeleteOld(folders[i], keep);
        MoreGone(before, now, messages, queue);
        removed := removed + count;
        OneFolderMore(before, guards, keep, folders[..i], folders[i]);
        assert folders[..i + 1] == folders[..i] + [folders[i]];
        i := i + 1;
      }
      assert folders[..i] == folders;
      AllFolders(before, guards, keep, folders);
      RemovedCount(before, messages);
      forall r | r in before ensures r in messages <==> Stays(before, pending, queue, keep, r) {
        Survives(before, pending, queue, keep, r);
      }
    }
  }

  lemma Survives(rows: set<Row>, pending: set<int>, queue: set<Send>, keep: nat, r: Row)
    requires r in rows
    ensures r in AfterTrim(rows, GuardIds(pending, queue), keep) <==> Stays(rows, pending, queue, keep, r)
  {
    assert (set x | x in rows && x.folder == r.folder && (x.uid > r.uid || (x.uid == r.uid && x.id > r.id)))
        == (set x | x in rows && x.folder == r.folder && Newer(x, r));
    if s :| s in queue && Refers(s, r.id) {
      assert s.message.value in GuardIds(pending, queue);
    }
  }

  lemma NothingGone(rows: set<Row>, queue: set<Send>)
    ensures DetachAll(queue, Ids(rows - rows)) == queue
  {
    assert forall s :: Detached(s, Ids(rows - rows)) == s;
  }

  lemma MoreGone(before: set<Row>, now: set<Row>, after: set<Row>, queue: set<Send>)
    requires after <= now <= before
    ensures DetachAll(DetachAll(queue, Ids(before - now)), Ids(now - after)) == DetachAll(queue, Ids(before - after))
  {
    var a, b, c := Ids(before - now), Ids(now - after), Ids(before - after);
    assert before - after == (before - now) + (now - after);
    assert c == a + b;
    hide Ids;
    var once := DetachAll(queue, a);
    forall s | s in queue ensures Detached(Detached(s, a), b) == Detached(s, c) && Detached(s, a) in once {
    }
    assert DetachAll(once, b) <= DetachAll(queue, c);
    assert DetachAll(queue, c) <= DetachAll(once, b);
  }

  /** The trim of some folders only. */
  ghost function AfterTrimOf(rows: set<Row>, guards: set<int>, keep: nat, folders: seq<int>): set<Row> {
    set r | r in rows && (r.folder !in folders || Guarded(r, guards) || Rank(rows, r) < keep)
  }

  lemma NoFolder(rows: set<Row>, guards: set<int>, keep: nat)
    ensures AfterTrimOf(rows, guards, keep, []) == rows
  {
  }

  lemma AllFolders(rows: set<Row>, guards: set<int>, keep: nat, folders: seq<int>)
    requires forall r :: r in rows ==> r.folder in folders
    ensures AfterTrimOf(rows, guards, keep, folders) == AfterTrim(rows, guards, keep)
    ensures AfterTrim(rows, guards, keep) <= rows
  {
  }

  lemma RemovedCount(before: set<Row>, after: set<Row>)
    requires after <= before
    ensures |before| - |after| == |before - after|
  {
  }

  lemma OneFolderMore(rows: set<Row>, guards: set<int>, keep: nat, folders: seq<int>, folder: int)
    requires folder !in folders
    ensures var t := AfterTrimOf(rows, guards, keep, folders);
            t - Old(t, guards, folder, keep) == AfterTrimOf(rows, guards, keep, folders + [folder])
  {
    var t := AfterTrimOf(rows, guards, keep, folders);
    forall r | r in rows && r.folder == folder ensures Rank(t, r) == Rank(rows, r) {
      assert (set x | x in rows && x.folder == r.folder && Newer(x, r))
          == (set x | x in t && x.folder == r.folder && Newer(x, r));
    }
  }

  /** The sends that lose their message are none that guard one. */
  lemma DetachKeepsGuards(pending: set<int>, queue: set<Send>, gone: set<int>)
    requires gone !! GuardIds(pending, queue)
    ensures GuardIds(pending, DetachAll(queue, gone)) == GuardIds(pending, queue)
  {
    var after := DetachAll(queue, gone);
    forall id ensures id in GuardIds(pending, after) <==> id in GuardIds(pending, queue) {
      if id in GuardIds(pending, queue) && id !in pending {
        var s :| s in queue && (s.status.Queued? || s.status.Sending? || s.status.Failed?) && s.message == Some(id);
        assert Detached(s, gone) == s && s in after;
      }
    }
  }

  // ---- The algebra of trimming -------------------------------------------------------------------------------

  lemma RankBelow(rows: set<Row>, x: Row, r: Row)
    requires x in rows && x.folder == r.folder && Newer(x, r)
    ensures Rank(rows, x) < Rank(rows, r)
  {
    var a := set y | y in rows && y.folder == x.folder && Newer(y, x);
    var b := set y | y in rows && y.folder == r.folder && Newer(y, r);
    assert a <= b && x in b && x !in a;
    SubsetCount(a, b, x);
  }

  lemma SubsetCount(a: set<Row>, b: set<Row>, x: Row)
    requires a <= b && x in b && x !in a
    ensures |a| < |b|
  {
    var rest := b - {x} - a;
    assert b == a + {x} + rest;
  }

  lemma {:induction false} SubsetSize(a: set<Row>, b: set<Row>)
    requires a <= b
    ensures |a| <= |b|
  {
    assert b == a + (b - a);
  }

  /** A row inside the limit has the same rank afterwards. */
  lemma RankKept(rows: set<Row>, guards: set<int>, keep: nat, r: Row)
    requires r in rows && Rank(rows, r) < keep
    ensures Rank(AfterTrim(rows, guards, keep), r) == Rank(rows, r)
  {
    var t := AfterTrim(rows, guards, keep);
    forall x | x in rows && x.folder == r.folder && Newer(x, r) ensures x in t {
      RankBelow(rows, x, r);
    }
    assert (set x | x in rows && x.folder == r.folder && Newer(x, r))
        == (set x | x in t && x.folder == r.folder && Newer(x, r));
  }

  function Min(a: nat, b: nat): nat {
    if a < b then a else b
  }

  /** Trimming to `j` after trimming to `k` is trimming to the smaller of both. */
  lemma TrimsCompose(rows: set<Row>, guards: set<int>, k: nat, j: nat)
    ensures AfterTrim(AfterTrim(rows, guards, k), guards, j) == AfterTrim(rows, guards, Min(j, k))
  {
    hide Rank, Newer;
    var t := AfterTrim(rows, guards, k);
    forall r | r in t ensures r in AfterTrim(t, guards, j) <==> r in AfterTrim(rows, guards, Min(j, k)) {
      if !Guarded(r, guards) { RankKept(rows, guards, k, r); }
    }
    assert AfterTrim(t, guards, j) <= t && AfterTrim(rows, guards, Min(j, k)) <= t;
  }

  /** A trim repeated changes nothing. */
  lemma TrimIdempotent(rows: set<Row>, guards: set<int>, keep: nat)
    ensures AfterTrim(AfterTrim(rows, guards, keep), guards, keep) == AfterTrim(rows, guards, keep)
  {
    TrimsCompose(rows, guards, keep, keep);
  }

  /** A folder keeps no more than `keep` rows besides the guarded ones, and exactly its newest. */
  lemma TrimmedFolder(rows: set<Row>, guards: set<int>, keep: nat, folder: int)
    requires UniqueIds(rows)
    ensures var free := set r | r in AfterTrim(rows, guards, keep) && r.folder == folder && !Guarded(r, guards);
            |free| <= keep
    ensures forall r :: r in rows && r.folder == folder ==>
              (r in AfterTrim(rows, guards, keep) <==> Guarded(r, guards) || r in Limited(InFolder(rows, folder), keep))
  {
    hide Rank, Ordered;
    forall r | r in rows && r.folder == folder
      ensures r in Limited(InFolder(rows, folder), keep) <==> Rank(rows, r) < keep
    {
      LimitIsRank(rows, r, keep);
    }
    var newest := Limited(InFolder(rows, folder), keep);
    DistinctCount(newest);
    SubsetSize((set r | r in AfterTrim(rows, guards, keep) && r.folder == folder && !Guarded(r, guards)),
        (set r | r in newest));
  }
}
