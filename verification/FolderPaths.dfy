/** IMAP folder paths: segments under a delimiter, depth and parent. */
module FolderPaths {
  import opened Text

  predicate OccursAt(s: string, d: string, i: int) {
    0 <= i <= |s| - |d| && s[i..i + |d|] == d
  }

  /** Index of the first occurrence of `d` in `s`. */
  function FindSub(s: string, d: string): (r: Option<nat>)
    requires d != []
    ensures r.Some? ==> OccursAt(s, d, r.value) && forall i :: 0 <= i < r.value ==> !OccursAt(s, d, i)
    ensures r.None? ==> forall i :: !OccursAt(s, d, i)
  {
    if |s| < |d| then None
    else if s[..|d|] == d then assert OccursAt(s, d, 0); Some(0)
    else
      assert forall i :: i > 0 && OccursAt(s, d, i) ==> s[1..][i - 1..i - 1 + |d|] == d && OccursAt(s[1..], d, i - 1);
      match FindSub(s[1..], d)
      case None => None
      case Some(k) => assert s[k + 1..k + 1 + |d|] == s[1..][k..k + |d|]; Some(k + 1)
  }

  /** `str::split`: leftmost, non-overlapping. */
  function Split(s: string, d: string): (r: seq<string>)
    requires d != []
    ensures r != []
    decreases |s|
  {
    match FindSub(s, d)
    case None => [s]
    case Some(k) => [s[..k]] + Split(s[k + |d|..], d)
  }

  function Join(parts: seq<string>, d: string): string
    requires parts != []
  {
    if |parts| == 1 then parts[0] else parts[0] + d + Join(parts[1..], d)
  }

  /** `folder_depth` */
  function FolderDepth(path: string, delimiter: string): nat {
    if delimiter == [] then 0 else |Split(path, delimiter)| - 1
  }

  /** `parent_path` */
  function ParentPath(path: string, delimiter: string): Option<string> {
    if delimiter == [] then None
    else
      var segments := Split(path, delimiter);
      if |segments| < 2 then None
      else Some(Join(segments[..|segments| - 1], delimiter))
  }

  lemma {:induction false} JoinSplit(s: string, d: string)
    requires d != []
    ensures Join(Split(s, d), d) == s
  {
    match FindSub(s, d)
    case None =>
    case Some(k) =>
      var rest := s[k + |d|..];
      JoinSplit(rest, d);
      assert Split(s, d)[1..] == Split(rest, d);
      assert s == s[..k] + s[k..k + |d|] + rest;
  }

  lemma OccursInPrefix(s: string, n: nat, d: string, i: int)
    requires n <= |s|
    ensures OccursAt(s[..n], d, i) <==> OccursAt(s, d, i) && i + |d| <= n
  {
    if 0 <= i && i + |d| <= n {
      assert s[..n][i..i + |d|] == s[i..i + |d|];
    }
  }

  lemma SplitUnfold(path: string, d: string, k: nat)
    requires d != [] && FindSub(path, d) == Some(k)
    ensures Split(path, d) == [path[..k]] + Split(path[k + |d|..], d)
  {
  }

  lemma SplitWhole(s: string, d: string)
    requires d != [] && forall i :: !OccursAt(s, d, i)
    ensures Split(s, d) == [s]
  {
    hide OccursAt;
  }

  /** The first segment of a prefix that reaches past the first delimiter is the path's own. */
  lemma SplitOfPrefix(path: string, n: nat, d: string, k: nat)
    requires d != [] && FindSub(path, d) == Some(k) && k + |d| <= n <= |path|
    ensures Split(path[..n], d) == [path[..k]] + Split(path[k + |d|..][..n - k - |d|], d)
  {
    hide FindSub, Split;
    var parent := path[..n];
    forall i ensures OccursAt(parent, d, i) <==> OccursAt(path, d, i) && i + |d| <= n { OccursInPrefix(path, n, d, i); }
    SplitUnfold(parent, d, k);
    assert parent[..k] == path[..k];
    assert parent[k + |d|..] == path[k + |d|..][..n - k - |d|];
  }

  /** Cutting a path before its last delimiter leaves the same other segments. */
  lemma {:induction false} LastCut(path: string, d: string) returns (n: nat)
    requires d != [] && |Split(path, d)| >= 2
    ensures n + |d| <= |path| && path[n..n + |d|] == d
    ensures Split(path[..n], d) == Split(path, d)[..|Split(path, d)| - 1]
    decreases |path|
  {
    hide FindSub, Split;
    if FindSub(path, d).None? {
      SplitWhole(path, d);
      assert false;
    }
    var k := FindSub(path, d).value;
    assert OccursAt(path, d, k);
    SplitUnfold(path, d, k);
    var rest := path[k + |d|..];
    if |Split(rest, d)| == 1 {
      OnlyCut(path, d, k);
      n := k;
    } else {
      var m := LastCut(rest, d);
      LaterCut(path, d, k, m);
      n := k + |d| + m;
    }
  }

  lemma OnlyCut(path: string, d: string, k: nat)
    requires d != [] && FindSub(path, d) == Some(k) && |Split(path[k + |d|..], d)| == 1
    ensures k + |d| <= |path| && path[k..k + |d|] == d
    ensures Split(path[..k], d) == Split(path, d)[..|Split(path, d)| - 1]
  {
    hide Split, FindSub;
    assert OccursAt(path, d, k);
    SplitUnfold(path, d, k);
    forall i ensures !OccursAt(path[..k], d, i) { OccursInPrefix(path, k, d, i); }
    SplitWhole(path[..k], d);
  }

  lemma LaterCut(path: string, d: string, k: nat, m: nat)
    requires d != [] && FindSub(path, d) == Some(k)
    requires var rest := path[k + |d|..];
             && |Split(rest, d)| >= 2
             && m + |d| <= |rest| && rest[m..m + |d|] == d
             && Split(rest[..m], d) == Split(rest, d)[..|Split(rest, d)| - 1]
    ensures var n := k + |d| + m;
            && n + |d| <= |path| && path[n..n + |d|] == d
            && Split(path[..n], d) == Split(path, d)[..|Split(path, d)| - 1]
  {
    hide Split, FindSub;
    assert OccursAt(path, d, k);
    var rest := path[k + |d|..];
    var n := k + |d| + m;
    assert n + |d| <= |path|;
    assert rest[m..m + |d|] == path[n..n + |d|];
    SplitOfPrefix(path, n, d, k);
    assert rest[..n - k - |d|] == rest[..m];
    SplitUnfold(path, d, k);
  }

  /** A parent is one level up, is a strictly shorter prefix, and exists exactly below the top level. */
  lemma ParentShape(path: string, delimiter: string)
    ensures ParentPath(path, delimiter).Some? <==> FolderDepth(path, delimiter) > 0
    ensures var p := ParentPath(path, delimiter);
            p.Some? ==> && |p.value| < |path|
                        && p.value == path[..|p.value|]
                        && path[|p.value|..] != [] && delimiter <= path[|p.value|..]
                        && FolderDepth(p.value, delimiter) == FolderDepth(path, delimiter) - 1
  {
    if delimiter != [] && |Split(path, delimiter)| >= 2 {
      var n := LastCut(path, delimiter);
      JoinSplit(path[..n], delimiter);
      assert ParentPath(path, delimiter) == Some(path[..n]);
      assert path[n..][..|delimiter|] == path[n..n + |delimiter|];
    }
  }

  /** Under a one-character delimiter, appending a segment and taking the parent gives the path back. */
  lemma SegmentAppended(path: string, d: string, leaf: string)
    requires |d| == 1 && d[0] !in leaf
    ensures ParentPath(path + d + leaf, d) == Some(path)
    ensures FolderDepth(path + d + leaf, d) == FolderDepth(path, d) + 1
  {
    SplitAppended(path, d, leaf);
    JoinSplit(path, d);
  }

  lemma {:induction false} SplitAppended(path: string, d: string, leaf: string)
    requires |d| == 1 && d[0] !in leaf
    ensures Split(path + d + leaf, d) == Split(path, d) + [leaf]
    decreases |path|
  {
    hide Split, FindSub;
    var k := FindSub(path, d);
    if k.None? {
      hide OccursAt;
      LastAppended(path, d, leaf);
      SplitWhole(path, d);
    } else {
      assert OccursAt(path, d, k.value);
      SplitUnfold(path, d, k.value);
      var rest := path[k.value + 1..];
      FirstKept(path, d, leaf, k.value);
      SplitAppended(rest, d, leaf);
      assert [path[..k.value]] + (Split(rest, d) + [leaf]) == [path[..k.value]] + Split(rest, d) + [leaf];
    }
  }

  lemma LastAppended(path: string, d: string, leaf: string)
    requires |d| == 1 && d[0] !in leaf && forall i :: !OccursAt(path, d, i)
    ensures Split(path + d + leaf, d) == [path, leaf]
  {
    hide Split, FindSub, OccursAt;
    var whole := path + d + leaf;
    var n := |path|;
    assert whole[n] == d[0];
    OccursChar(whole, d, n);
    forall i | 0 <= i < n ensures !OccursAt(whole, d, i) {
      OccursChar(whole, d, i);
      OccursChar(path, d, i);
      assert whole[i] == path[i];
    }
    SplitUnfold(whole, d, n);
    forall i ensures !OccursAt(leaf, d, i) { OccursChar(leaf, d, i); }
    SplitWhole(leaf, d);
    assert whole[..n] == path && whole[n + 1..] == leaf;
  }

  lemma FirstKept(path: string, d: string, leaf: string, n: nat)
    requires |d| == 1 && FindSub(path, d) == Some(n) && n < |path|
    ensures Split(path + d + leaf, d) == [path[..n]] + Split(path[n + 1..] + d + leaf, d)
  {
    hide Split, FindSub, OccursAt;
    var whole := path + d + leaf;
    OccursChar(path, d, n);
    OccursChar(whole, d, n);
    assert whole[n] == path[n];
    forall i | 0 <= i < n ensures !OccursAt(whole, d, i) {
      OccursChar(whole, d, i);
      OccursChar(path, d, i);
      assert whole[i] == path[i];
    }
    SplitUnfold(whole, d, n);
    assert whole[..n] == path[..n] && whole[n + 1..] == path[n + 1..] + d + leaf;
  }

  lemma OccursChar(s: string, d: string, i: int)
    requires |d| == 1
    ensures OccursAt(s, d, i) <==> 0 <= i < |s| && s[i] == d[0]
  {
    if 0 <= i < |s| {
      assert s[i..i + 1] == [s[i]];
    }
  }
}
