/** Subject normalisation: what makes two subjects the same discussion. */
module Subjects {
  import opened Text

  /** Reply and forward prefixes, in the order they are tried. */
  const PREFIXES: seq<string> := ["re:", "fwd:", "fw:", "aw:", "wg:", "sv:", "vs:", "antw:", "tr:"]

  predicate StartsWithCi(s: string, prefix: string) {
    |prefix| <= |s| && EqIgnoreCase(s[..|prefix|], prefix)
  }

  /** The rest of `s` after the first prefix, from the `k`-th on, that it starts with. */
  function StripReply(s: string, k: nat := 0): (r: Option<string>)
    requires k <= |PREFIXES|
    ensures r.Some? ==> |r.value| < |s| && r.value == s[|s| - |r.value|..]
    decreases |PREFIXES| - k
  {
    if k == |PREFIXES| then None
    else if StartsWithCi(s, PREFIXES[k]) then Some(s[|PREFIXES[k]|..])
    else StripReply(s, k + 1)
  }

  /** `StripReply` finds a prefix whenever there is one. */
  lemma {:induction false} StripReplyFinds(s: string, k: nat) returns (j: nat)
    requires k <= |PREFIXES|
    ensures var r := StripReply(s, k);
            if r.Some? then k <= j < |PREFIXES| && StartsWithCi(s, PREFIXES[j]) && r.value == s[|PREFIXES[j]|..]
            else forall i :: k <= i < |PREFIXES| ==> !StartsWithCi(s, PREFIXES[i])
    decreases |PREFIXES| - k
  {
    hide StartsWithCi;
    j := k;
    if k < |PREFIXES| && !StartsWithCi(s, PREFIXES[k]) {
      j := StripReplyFinds(s, k + 1);
    }
  }

  /** `inside` is a prefix without its colon. */
  predicate IsBareTag(inside: string) {
    exists k :: 0 <= k < |PREFIXES| && EqIgnoreCase(inside, PREFIXES[k][..|PREFIXES[k]| - 1])
  }

  /** What one round of the stripping loop leaves of `s`; `s` itself when nothing applies. */
  function Round(s: string): string {
    var afterTag := AfterTag(s);
    if afterTag.Some? then afterTag.value
    else match StripReply(s)
         case Some(rest) => TrimStart(rest)
         case None => s
  }

  /** The bracket branches of a round: `[Re] x` and `[Fwd: x]`. */
  function AfterTag(s: string): Option<string> {
    if s == [] || s[0] != '[' then None
    else
      var rest := s[1..];
      var end := Find(rest, ']');
      if end == |rest| then None
      else if IsBareTag(Trim(rest[..end])) then Some(TrimStart(rest[end + 1..]))
      else match StripReply(TrimStart(rest))
           case None => None
           case Some(r) =>
             var remainder := TrimStart(r);
             if remainder != [] && remainder[|remainder| - 1] == ']'
             then Some(Trim(remainder[..|remainder| - 1]))
             else Some(remainder)
  }

  predicate PieceAt(r: string, s: string, i: int) {
    0 <= i <= |s| - |r| && s[i..i + |r|] == r
  }

  /** `r` is a contiguous piece of `s`. */
  ghost predicate PieceOf(r: string, s: string) {
    exists i :: PieceAt(r, s, i)
  }

  lemma PieceTrans(a: string, b: string, c: string)
    requires PieceOf(a, b) && PieceOf(b, c)
    ensures PieceOf(a, c)
  {
    var i :| PieceAt(a, b, i);
    var j :| PieceAt(b, c, j);
    forall t | 0 <= t < |a| ensures c[i + j + t] == a[t] {
      assert c[j..j + |b|][i + t] == b[i + t] == b[i..i + |a|][t];
    }
    assert PieceAt(a, c, i + j);
  }

  lemma TrimPiece(s: string)
    ensures PieceOf(TrimStart(s), s) && PieceOf(Trim(s), s)
    ensures |Trim(s)| <= |s|
    ensures Trimmed(Trim(s))
  {
    TrimStartShape(s);
    var n := |s| - |TrimStart(s)|;
    assert PieceAt(TrimStart(s), s, n);
    TrimEndShape(TrimStart(s));
    assert PieceAt(Trim(s), TrimStart(s), 0);
    PieceTrans(Trim(s), TrimStart(s), s);
    var a, b := TrimShape(s);
  }

  lemma SuffixPiece(s: string, k: nat)
    requires k <= |s|
    ensures PieceOf(s[k..], s)
  {
    assert PieceAt(s[k..], s, k);
  }

  lemma PrefixPiece(s: string, k: nat)
    requires k <= |s|
    ensures PieceOf(s[..k], s)
  {
    assert PieceAt(s[..k], s, 0);
  }

  lemma TrimStartOfSuffix(s: string, k: nat)
    requires k <= |s| && Trimmed(s)
    ensures Trimmed(TrimStart(s[k..]))
    ensures PieceOf(TrimStart(s[k..]), s)
    ensures |TrimStart(s[k..])| <= |s| - k
  {
    TrimStartShape(s[k..]);
    SuffixPiece(s, k);
    TrimPiece(s[k..]);
    PieceTrans(TrimStart(s[k..]), s[k..], s);
  }

  /** What is left behind a prefix, without the bracket that closed it. */
  lemma RemainderShape(s: string, r: string)
    requires Trimmed(s) && |r| < |s| && r == s[|s| - |r|..]
    ensures var remainder := TrimStart(r);
            && |remainder| < |s| && Trimmed(remainder) && PieceOf(remainder, s)
            && (remainder != [] ==>
                  var inner := Trim(remainder[..|remainder| - 1]);
                  |inner| < |s| && Trimmed(inner) && PieceOf(inner, s))
  {
    hide Trim, TrimStart, Trimmed, PieceOf;
    TrimStartOfSuffix(s, |s| - |r|);
    var remainder := TrimStart(r);
    if remainder != [] {
      var body := remainder[..|remainder| - 1];
      TrimPiece(body);
      PrefixPiece(remainder, |remainder| - 1);
      PieceTrans(Trim(body), body, remainder);
      PieceTrans(Trim(body), remainder, s);
    }
  }

  lemma TagShape(s: string, end: nat)
    requires Trimmed(s) && end + 1 < |s|
    ensures var r := TrimStart(s[1..][end + 1..]); |r| < |s| && Trimmed(r) && PieceOf(r, s)
  {
    hide TrimStart, Trimmed, PieceOf;
    assert s[1..][end + 1..] == s[end + 2..];
    TrimStartOfSuffix(s, end + 2);
  }

  /** A bracket branch that applies strips at least the bracket, and keeps the piece trimmed. */
  lemma AfterTagShape(s: string)
    requires Trimmed(s)
    ensures AfterTag(s).Some? ==> var r := AfterTag(s).value; |r| < |s| && Trimmed(r) && PieceOf(r, s)
  {
    hide IsBareTag, StripReply, Trim, TrimStart, Trimmed, PieceOf, Find;
    if AfterTag(s).Some? {
      var rest := s[1..];
      var end := Find(rest, ']');
      if IsBareTag(Trim(rest[..end])) {
        TagShape(s, end);
      } else {
        TrimStartShape(rest);
        var t := TrimStart(rest);
        var r := StripReply(t).value;
        RemainderShape(s, r);
      }
    }
  }

  /** Every branch that strips shortens `s`: the loop ends on every input. */
  lemma RoundShape(s: string)
    requires Trimmed(s)
    ensures Round(s) == s || |Round(s)| < |s|
    ensures Trimmed(Round(s)) && PieceOf(Round(s), s)
    ensures Round(s) == s <==> AfterTag(s).None? && StripReply(s).None?
  {
    if AfterTag(s).Some? {
      AfterTagShape(s);
    } else if StripReply(s).Some? {
      var r := StripReply(s).value;
      TrimStartOfSuffix(s, |s| - |r|);
    } else {
      assert PieceAt(s, s, 0);
    }
  }

  /** The stripping loop run to its end. */
  function Fixpoint(s: string): string
    requires Trimmed(s)
    decreases |s|
  {
    RoundShape(s);
    if Round(s) == s then s else Fixpoint(Round(s))
  }

  function Stripped(subject: string): string {
    TrimPiece(subject);
    Fixpoint(Trim(subject))
  }

  /** A `to_lowercase` that agrees with ASCII lower-casing on ASCII text. */
  ghost predicate LowersAscii(toLower: string -> string) {
    forall s :: IsAscii(s) ==> toLower(s) == LowerAll(s)
  }

  /** `normalize_subject`: the loop with its in-place `s` and early `continue`s. */
  method NormalizeSubject(subject: string, toLower: string -> string) returns (r: string)
    ensures r == toLower(Stripped(subject))
  {
    hide IsBareTag, StripReply, Trim, TrimStart, Trimmed, PieceOf;
    var s := Trim(subject);
    TrimPiece(subject);
    var done := false;
    while !done
      invariant Trimmed(s)
      invariant Fixpoint(s) == Stripped(subject)
      invariant done ==> Round(s) == s
      decreases |s|, !done
    {
      var prev := s;
      RoundShape(s);
      if s != [] && s[0] == '[' {
        var rest := s[1..];
        var end := Find(rest, ']');
        if end < |rest| {
          var inside := Trim(rest[..end]);
          if IsBareTag(inside) {
            s := TrimStart(rest[end + 1..]);
            continue;
          }
          var stripped := StripReply(TrimStart(rest));
          if stripped.Some? {
            var remainder := TrimStart(stripped.value);
            if remainder != [] && remainder[|remainder| - 1] == ']' {
              s := Trim(remainder[..|remainder| - 1]);
            } else {
              s := remainder;
            }
            continue;
          }
        }
      }
      var reply := StripReply(s);
      if reply.Some? {
        s := TrimStart(reply.value);
      }
      if s == prev {
        done := true;
      }
    }
    r := toLower(s);
  }

  /** The loop stops at a trimmed piece of its start that no branch can strip further. */
  lemma {:induction false} FixpointShape(s: string)
    requires Trimmed(s)
    ensures Trimmed(Fixpoint(s)) && PieceOf(Fixpoint(s), s)
    ensures AfterTag(Fixpoint(s)).None? && StripReply(Fixpoint(s)).None?
    decreases |s|
  {
    RoundShape(s);
    if Round(s) != s {
      FixpointShape(Round(s));
      PieceTrans(Fixpoint(s), Round(s), s);
    }
  }

  /** What is left is a contiguous piece of the subject, trimmed, starting with no prefix and no reply tag. */
  lemma StrippedShape(subject: string)
    ensures PieceOf(Stripped(subject), subject)
    ensures Trimmed(Stripped(subject))
    ensures forall k :: 0 <= k < |PREFIXES| ==> !StartsWithCi(Stripped(subject), PREFIXES[k])
    ensures AfterTag(Stripped(subject)).None?
  {
    TrimPiece(subject);
    FixpointShape(Trim(subject));
    var _ := StripReplyFinds(Stripped(subject), 0);
    PieceTrans(Stripped(subject), Trim(subject), subject);
  }

  /** The other direction: a trimmed subject without prefix or reply tag is left alone. */
  lemma NothingToStrip(subject: string)
    requires Trimmed(subject)
    requires forall k :: 0 <= k < |PREFIXES| ==> !StartsWithCi(subject, PREFIXES[k])
    requires AfterTag(subject).None?
    ensures Stripped(subject) == subject
  {
    var _ := StripReplyFinds(subject, 0);
    TrimTrimmed(subject);
    RoundShape(subject);
  }

  // ---- Case does not matter, so lower-casing a result changes nothing --------------------------

  lemma LowerTrims(s: string)
    ensures TrimStart(LowerAll(s)) == LowerAll(TrimStart(s))
    ensures TrimEnd(LowerAll(s)) == LowerAll(TrimEnd(s))
  {
    LowerTrimStart(s);
    LowerTrimEnd(s);
  }

  lemma {:induction false} LowerTrimStart(s: string)
    ensures TrimStart(LowerAll(s)) == LowerAll(TrimStart(s))
  {
    if s != [] && IsSpace(s[0]) {
      assert LowerAll(s)[1..] == LowerAll(s[1..]);
      LowerTrimStart(s[1..]);
    }
  }

  lemma {:induction false} LowerTrimEnd(s: string)
    ensures TrimEnd(LowerAll(s)) == LowerAll(TrimEnd(s))
  {
    if s != [] && IsSpace(s[|s| - 1]) {
      assert LowerAll(s)[..|s| - 1] == LowerAll(s[..|s| - 1]);
      LowerTrimEnd(s[..|s| - 1]);
    }
  }

  lemma LowerStripReply(s: string, k: nat)
    requires k <= |PREFIXES|
    ensures StripReply(s, k).None? <==> StripReply(LowerAll(s), k).None?
  {
    forall j | k <= j < |PREFIXES|
      ensures StartsWithCi(s, PREFIXES[j]) <==> StartsWithCi(LowerAll(s), PREFIXES[j])
    {
      LowerStartsWith(s, PREFIXES[j]);
    }
    var _ := StripReplyFinds(s, k);
    var _ := StripReplyFinds(LowerAll(s), k);
  }

  lemma LowerStartsWith(s: string, p: string)
    ensures StartsWithCi(s, p) <==> StartsWithCi(LowerAll(s), p)
  {
    if |p| <= |s| {
      assert forall i :: 0 <= i < |p| ==> Lower(LowerAll(s)[..|p|][i]) == Lower(s[..|p|][i]);
    }
  }

  lemma LowerAfterTag(s: string)
    ensures AfterTag(s).None? ==> AfterTag(LowerAll(s)).None?
  {
    if s != [] && s[0] == '[' {
      var rest := s[1..];
      var low := LowerAll(s)[1..];
      assert low == LowerAll(rest);
      var end := Find(rest, ']');
      FindIs(low, ']', end);
      if end < |rest| {
        assert low[..end] == LowerAll(rest[..end]);
        LowerTrims(rest[..end]);
        LowerTrims(TrimStart(rest[..end]));
        var inside := Trim(rest[..end]);
        assert Trim(low[..end]) == LowerAll(inside);
        LowerBareTag(inside);
        LowerTrims(rest);
        LowerStripReply(TrimStart(rest), 0);
      }
    }
  }

  lemma LowerBareTag(s: string)
    ensures IsBareTag(s) <==> IsBareTag(LowerAll(s))
  {
    forall k | 0 <= k < |PREFIXES|
      ensures EqIgnoreCase(s, PREFIXES[k][..|PREFIXES[k]| - 1])
              <==> EqIgnoreCase(LowerAll(s), PREFIXES[k][..|PREFIXES[k]| - 1])
    {
      var p := PREFIXES[k][..|PREFIXES[k]| - 1];
      assert |s| == |p| ==> forall i :: 0 <= i < |p| ==> Lower(LowerAll(s)[i]) == Lower(s[i]);
    }
  }

  /** Normalising an ASCII subject twice is normalising it once. */
  lemma AsciiIdempotent(subject: string, toLower: string -> string)
    requires IsAscii(subject) && LowersAscii(toLower)
    ensures var norm := toLower(Stripped(subject));
            && norm == LowerAll(Stripped(subject))
            && toLower(Stripped(norm)) == norm
  {
    hide IsBareTag, StripReply, AfterTag, Stripped, PieceOf, StartsWithCi;
    StrippedShape(subject);
    var piece := Stripped(subject);
    AsciiPiece(piece, subject);
    var norm := LowerAll(piece);
    LowerAfterTag(piece);
    forall k | 0 <= k < |PREFIXES| ensures !StartsWithCi(norm, PREFIXES[k]) {
      LowerStartsWith(piece, PREFIXES[k]);
    }
    NothingToStrip(norm);
    assert LowerAll(norm) == norm;
  }

  lemma AsciiPiece(piece: string, s: string)
    requires PieceOf(piece, s) && IsAscii(s)
    ensures IsAscii(piece) && IsAscii(LowerAll(piece))
  {
    var i :| PieceAt(piece, s, i);
    forall j | 0 <= j < |piece| ensures IsAsciiChar(piece[j]) {
      assert piece[j] == s[i..i + |piece|][j] == s[i + j];
    }
  }

  // ---- The same beyond ASCII -----------------------------------------------------------------------

  /** An ASCII character that no other character lower-cases to: the Kelvin sign gives k, the dotted capital I an i. */
  predicate IsOwn(c: char) {
    IsAsciiChar(c) && Lower(c) != 'k' && Lower(c) != 'i'
  }

  /** What one character may lower-case to, whatever stands around it. */
  predicate Image(c: char, low: string) {
    if IsAsciiChar(c) || IsSpace(c) then low == [Lower(c)]
    else low != [] && forall i :: 0 <= i < |low| ==> !IsSpace(low[i]) && !IsOwn(low[i])
  }

  predicate LowersTo(s: string, low: string) {
    if s == [] then low == []
    else exists n :: 1 <= n <= |low| && Image(s[0], low[..n]) && LowersTo(s[1..], low[n..])
  }

  /** What holds of Unicode lower-casing, final sigma included. */
  ghost predicate LowersUnicode(toLower: string -> string) {
    forall s: string :: LowersTo(s, toLower(s)) && toLower(toLower(s)) == toLower(s)
  }

  lemma OwnStep(s: string, low: string)
    requires LowersTo(s, low) && low != [] && (IsSpace(low[0]) || IsOwn(low[0]))
    ensures s != [] && low[0] == Lower(s[0]) && LowersTo(s[1..], low[1..])
  {
    hide IsSpace;
    var n :| 1 <= n <= |low| && Image(s[0], low[..n]) && LowersTo(s[1..], low[n..]);
    assert low[..n][0] == low[0];
  }

  /** Where only blanks and own characters come out, they came from single characters. */
  lemma {:induction false} OwnFront(s: string, low: string, m: nat)
    requires LowersTo(s, low) && m <= |low| && forall i :: 0 <= i < m ==> IsSpace(low[i]) || IsOwn(low[i])
    ensures m <= |s| && low[..m] == LowerAll(s[..m]) && LowersTo(s[m..], low[m..])
    decreases m
  {
    hide LowersTo, IsSpace, IsOwn, Lower;
    if m == 0 {
      assert s[0..] == s && low[0..] == low;
    } else {
      OwnStep(s, low);
      var s', low' := s[1..], low[1..];
      OwnFront(s', low', m - 1);
      assert s'[m - 1..] == s[m..] && low'[m - 1..] == low[m..];
      LowerAllCons(s, low, m);
    }
  }

  lemma LowerAllCons(s: string, low: string, m: nat)
    requires 1 <= m <= |s| && m <= |low| && low[0] == Lower(s[0]) && low[1..][..m - 1] == LowerAll(s[1..][..m - 1])
    ensures low[..m] == LowerAll(s[..m])
  {
    hide Lower;
    forall i | 0 <= i < m ensures low[..m][i] == LowerAll(s[..m])[i] {
      if i > 0 { assert low[i] == low[1..][..m - 1][i - 1] && s[i] == s[1..][..m - 1][i - 1]; }
    }
  }

  lemma {:induction false} LowersTrimStart(s: string, low: string)
    requires LowersTo(s, low)
    ensures LowersTo(TrimStart(s), TrimStart(low))
  {
    if s != [] {
      var n :| 1 <= n <= |low| && Image(s[0], low[..n]) && LowersTo(s[1..], low[n..]);
      assert low[..n][0] == low[0];
      if IsSpace(s[0]) { LowersTrimStart(s[1..], low[1..]); }
    }
  }

  lemma {:induction false} LowersTrimmed(s: string, low: string)
    requires LowersTo(s, low) && s != []
    ensures low != [] && (!IsSpace(s[0]) ==> !IsSpace(low[0])) && (!IsSpace(s[|s| - 1]) ==> !IsSpace(low[|low| - 1]))
  {
    var n :| 1 <= n <= |low| && Image(s[0], low[..n]) && LowersTo(s[1..], low[n..]);
    assert low[..n][0] == low[0] && low[..n][n - 1] == low[n - 1];
    if |s| > 1 { LowersTrimmed(s[1..], low[n..]); } else { assert low[n..] == []; }
  }

  /** A bracket that comes out went in. */
  lemma {:induction false} LowersFind(s: string, low: string)
    requires LowersTo(s, low)
    ensures Find(low, ']') < |low| ==> Find(s, ']') < |s|
  {
    if s != [] {
      var n :| 1 <= n <= |low| && Image(s[0], low[..n]) && LowersTo(s[1..], low[n..]);
      LowersFind(s[1..], low[n..]);
      var k := Find(low, ']');
      if k < n && k < |low| { assert low[..n][k] == ']'; } else if k < |low| { assert low[n..][k - n] == ']'; }
    }
  }

  lemma PrefixOwn(k: nat)
    requires k < |PREFIXES|
    ensures forall i :: 0 <= i < |PREFIXES[k]| ==> IsOwn(PREFIXES[k][i])
    ensures |PREFIXES[k]| > 0
  {
  }

  lemma OwnByCase(c: char, d: char)
    requires Lower(c) == Lower(d) && IsOwn(d)
    ensures IsOwn(c)
  {
  }

  lemma LowersStartsWith(s: string, low: string, k: nat)
    requires LowersTo(s, low) && k < |PREFIXES|
    ensures StartsWithCi(low, PREFIXES[k]) ==> StartsWithCi(s, PREFIXES[k])
  {
    var p := PREFIXES[k];
    if StartsWithCi(low, p) {
      PrefixOwn(k);
      forall i | 0 <= i < |p| ensures IsOwn(low[i]) {
        assert low[i] == low[..|p|][i];
        OwnByCase(low[i], p[i]);
      }
      OwnFront(s, low, |p|);
      forall i | 0 <= i < |p| ensures Lower(s[..|p|][i]) == Lower(p[i]) {
        assert low[..|p|][i] == Lower(s[..|p|][i]);
      }
    }
  }

  lemma LowersStripReply(s: string, low: string)
    requires LowersTo(s, low)
    ensures StripReply(low).Some? ==> StripReply(s).Some?
  {
    hide StartsWithCi, LowersTo;
    if StripReply(low).Some? {
      var j := StripReplyFinds(low, 0);
      LowersStartsWith(s, low, j);
      var _ := StripReplyFinds(s, 0);
    }
  }

  lemma TagOwn(tag: string)
    requires IsBareTag(tag)
    ensures forall i :: 0 <= i < |tag| ==> IsOwn(tag[i])
  {
    var k :| 0 <= k < |PREFIXES| && EqIgnoreCase(tag, PREFIXES[k][..|PREFIXES[k]| - 1]);
    PrefixOwn(k);
    forall i | 0 <= i < |tag| ensures IsOwn(tag[i]) {
      assert Lower(tag[i]) == Lower(PREFIXES[k][i]);
      OwnByCase(tag[i], PREFIXES[k][i]);
    }
  }

  lemma TagInsideOwn(inside: string)
    requires IsBareTag(Trim(inside))
    ensures forall i :: 0 <= i < |inside| ==> IsSpace(inside[i]) || IsOwn(inside[i])
  {
    TagOwn(Trim(inside));
    var a, b := TrimShape(inside);
    hide IsBareTag, Trim, IsSpace, IsOwn;
    var tag := Trim(inside);
    forall i | 0 <= i < |inside| ensures IsSpace(inside[i]) || IsOwn(inside[i]) {
      assert inside[i] == if i < |a| then a[i] else if i < |a| + |tag| then tag[i - |a|] else b[i - |a| - |tag|];
    }
  }

  lemma BracketKept(s: string, low: string, end: nat)
    requires end == Find(low, ']') < |low| && end < |s| && low[..end + 1] == LowerAll(s[..end + 1])
    ensures Find(s, ']') == end && low[..end] == LowerAll(s[..end])
  {
    hide Find;
    forall i | 0 <= i <= end ensures low[i] == Lower(s[i]) {
      assert low[..end + 1][i] == LowerAll(s[..end + 1])[i];
    }
    FindIs(s, ']', end);
  }

  /** A bare tag in brackets that comes out went in. */
  lemma LowersBareTag(s: string, low: string, end: nat)
    requires LowersTo(s, low) && end == Find(low, ']') < |low| && IsBareTag(Trim(low[..end]))
    ensures Find(s, ']') == end < |s| && IsBareTag(Trim(s[..end]))
  {
    TagInsideOwn(low[..end]);
    hide IsBareTag, LowersTo, Trim, Find, IsSpace;
    forall i | 0 <= i < end + 1 ensures IsSpace(low[i]) || IsOwn(low[i]) {
      if i < end { assert low[i] == low[..end][i]; }
    }
    OwnFront(s, low, end + 1);
    BracketKept(s, low, end);
    LowerTrimsBoth(s[..end]);
    LowerBareTag(Trim(s[..end]));
  }

  lemma LowerTrimsBoth(s: string)
    ensures Trim(LowerAll(s)) == LowerAll(Trim(s))
  {
    LowerTrims(s);
    LowerTrims(TrimStart(s));
  }

  lemma LowersAfterTag(s: string, low: string)
    requires LowersTo(s, low)
    ensures AfterTag(low).Some? ==> AfterTag(s).Some?
  {
    hide IsBareTag, LowersTo, Find, StripReply;
    if AfterTag(low).Some? {
      OwnFront(s, low, 1);
      assert low[..1][0] == Lower(s[..1][0]);
      var rest, lowRest := s[1..], low[1..];
      LowersFind(rest, lowRest);
      var end := Find(lowRest, ']');
      if IsBareTag(Trim(lowRest[..end])) {
        LowersBareTag(rest, lowRest, end);
      } else {
        LowersTrimStart(rest, lowRest);
        LowersStripReply(TrimStart(rest), TrimStart(lowRest));
      }
    }
  }

  /** Normalising any subject twice is normalising it once: lower-casing makes no prefix and no tag. */
  lemma NormalizeIdempotent(subject: string, toLower: string -> string)
    requires LowersUnicode(toLower)
    ensures var norm := toLower(Stripped(subject)); toLower(Stripped(norm)) == norm
  {
    StrippedShape(subject);
    hide IsBareTag, StripReply, AfterTag, Stripped, PieceOf, StartsWithCi, LowersTo, Trimmed;
    var piece := Stripped(subject);
    var norm := toLower(piece);
    assert LowersTo(piece, norm);
    LowersAfterTag(piece, norm);
    forall k | 0 <= k < |PREFIXES| ensures !StartsWithCi(norm, PREFIXES[k]) {
      LowersStartsWith(piece, norm, k);
    }
    TrimmedLow(piece, norm);
    NothingToStrip(norm);
  }

  lemma TrimmedLow(s: string, low: string)
    requires LowersTo(s, low) && Trimmed(s)
    ensures Trimmed(low)
  {
    if s != [] { LowersTrimmed(s, low); }
  }

  // ---- Replying does not change the discussion -------------------------------------------------

  /** Two prefixes cannot start the same text: the colon ends each of them. */
  lemma StripReplyIs(head: string, s: string, k: nat)
    requires k < |PREFIXES| && EqIgnoreCase(head, PREFIXES[k])
    ensures StripReply(head + s) == Some(s)
  {
    hide StripReply;
    var t := head + s;
    assert t[..|head|] == head;
    assert StartsWithCi(t, PREFIXES[k]);
    var j := StripReplyFinds(t, 0);
    OnePrefix(t, j, k);
    assert t[|head|..] == s;
  }

  lemma OnePrefix(t: string, j: nat, k: nat)
    requires j < |PREFIXES| && k < |PREFIXES|
    requires StartsWithCi(t, PREFIXES[j]) && StartsWithCi(t, PREFIXES[k])
    ensures |PREFIXES[j]| == |PREFIXES[k]|
  {
    var p, q := PREFIXES[j], PREFIXES[k];
    assert Lower(t[..|p|][|p| - 1]) == ':' && Lower(t[..|q|][|q| - 1]) == ':';
  }

  lemma HeadShape(head: string, k: nat)
    requires k < |PREFIXES| && EqIgnoreCase(head, PREFIXES[k])
    ensures 3 <= |head| && head[|head| - 1] == ':'
    ensures forall i :: 0 <= i < |head| ==> !IsSpace(head[i]) && head[i] != '[' && head[i] != ']'
  {
    forall i | 0 <= i < |head| ensures !IsSpace(head[i]) && head[i] != '[' && head[i] != ']' {
      assert Lower(head[i]) == Lower(PREFIXES[k][i]);
    }
    assert Lower(head[|head| - 1]) == Lower(':');
  }

  lemma TrimKeeps(u: string, v: string)
    requires u != [] && !IsSpace(u[0]) && !IsSpace(u[|u| - 1])
    ensures Trim(u + v) == u + TrimEnd(v)
  {
    assert TrimStart(u + v) == u + v;
    TrimEndKeeps(u, v);
  }

  /** `Re: x`, in any case and with any prefix, is the discussion `x`. */
  lemma PrefixVanishes(head: string, subject: string, k: nat)
    requires k < |PREFIXES| && EqIgnoreCase(head, PREFIXES[k])
    ensures Stripped(head + subject) == Stripped(subject)
  {
    HeadShape(head, k);
    TrimKeeps(head, subject);
    var t := head + TrimEnd(subject);
    StripReplyIs(head, TrimEnd(subject), k);
    TrimCommutes(subject);
    assert Round(t) == Trim(subject);
    TrimEndShape(subject);
    TrimPiece(head + subject);
    RoundShape(t);
    TrimPiece(subject);
  }

  lemma {:induction false} TrimStartBefore(s: string, c: char)
    requires !IsSpace(c)
    ensures TrimStart(s + [c]) == TrimStart(s) + [c]
  {
    if s == [] {
      assert s + [c] == [c];
    } else if IsSpace(s[0]) {
      assert (s + [c])[1..] == s[1..] + [c];
      TrimStartBefore(s[1..], c);
    }
  }

  lemma TagInside(tag: string)
    requires IsBareTag(tag)
    ensures forall i :: 0 <= i < |tag| ==> !IsSpace(tag[i]) && tag[i] != ']'
  {
    var k :| 0 <= k < |PREFIXES| && EqIgnoreCase(tag, PREFIXES[k][..|PREFIXES[k]| - 1]);
    forall i | 0 <= i < |tag| ensures !IsSpace(tag[i]) && tag[i] != ']' {
      assert Lower(tag[i]) == Lower(PREFIXES[k][i]);
    }
  }

  /** `[Re] x`, with any prefix name and blanks inside the brackets, is the discussion `x`. */
  lemma TagVanishes(before: string, tag: string, after: string, subject: string)
    requires Blank(before) && Blank(after) && IsBareTag(tag)
    ensures Stripped("[" + before + tag + after + "]" + subject) == Stripped(subject)
  {
    hide IsBareTag, StripReply, AfterTag;
    var inner := before + tag + after;
    var u := "[" + inner + "]";
    assert "[" + before + tag + after + "]" + subject == u + subject;
    TrimKeeps(u, subject);
    var t := u + TrimEnd(subject);
    TagRound(before, tag, after, TrimEnd(subject));
    TrimCommutes(subject);
    TrimEndShape(subject);
    TrimPiece(u + subject);
    RoundShape(t);
    TrimPiece(subject);
  }

  lemma TagRound(before: string, tag: string, after: string, tail: string)
    requires Blank(before) && Blank(after) && IsBareTag(tag)
    ensures AfterTag("[" + (before + tag + after) + "]" + tail) == Some(TrimStart(tail))
  {
    TagInside(tag);
    hide IsBareTag, StripReply;
    var inner := before + tag + after;
    var rest := ("[" + inner + "]" + tail)[1..];
    assert rest == inner + ("]" + tail);
    CloseOfTag(inner, tail);
    TrimIs(before, tag, after);
  }

  lemma CloseOfTag(inner: string, tail: string)
    requires forall i :: 0 <= i < |inner| ==> inner[i] != ']'
    ensures var rest := inner + ("]" + tail);
            Find(rest, ']') == |inner| && rest[..|inner|] == inner && rest[|inner| + 1..] == tail
  {
    hide *;
    var rest := inner + ("]" + tail);
    assert forall i :: 0 <= i < |inner| ==> rest[i] == inner[i];
    FindIs(rest, ']', |inner|);
  }

  /** `[Fwd: x]` is the discussion `x`, even when `x` holds brackets of its own. */
  lemma BracketVanishes(before: string, head: string, subject: string, k: nat)
    requires Blank(before) && k < |PREFIXES| && EqIgnoreCase(head, PREFIXES[k])
    ensures Stripped("[" + before + head + subject + "]") == Stripped(subject)
  {
    var t := "[" + before + head + subject + "]";
    assert Trimmed(t);
    TrimTrimmed(t);
    BracketRound(before, head, subject, k);
    hide AfterTag, StripReply;
    RoundShape(t);
    TrimPiece(t);
    TrimPiece(subject);
  }

  lemma BracketRound(before: string, head: string, subject: string, k: nat)
    requires Blank(before) && k < |PREFIXES| && EqIgnoreCase(head, PREFIXES[k])
    ensures AfterTag("[" + before + head + subject + "]") == Some(Trim(subject))
  {
    hide *;
    HeadShape(head, k);
    var body := subject + "]";
    var rest := before + (head + body);
    Regroup(before, head, subject);
    InsideNotBare(before, head, body, k, |subject|);
    HeadFirst(before, head, body);
    StripReplyIs(head, body, k);
    CloseKept(subject);
    AfterTagBracket(rest, body, TrimStart(subject));
    TrimTwice(subject);
  }

  lemma Regroup(before: string, head: string, subject: string)
    ensures "[" + before + head + subject + "]" == "[" + (before + (head + (subject + "]")))
  {
  }

  /** A bracket closed at the very end of what a prefix leaves. */
  lemma AfterTagBracket(rest: string, body: string, inner: string)
    ensures Find(rest, ']') < |rest| && !IsBareTag(Trim(rest[..Find(rest, ']')]))
            && StripReply(TrimStart(rest)) == Some(body) && TrimStart(body) == inner + "]"
            ==> AfterTag("[" + rest) == Some(Trim(inner))
  {
    hide IsBareTag, StripReply, Find, TrimStart, Trim;
    assert ("[" + rest)[1..] == rest;
    assert (inner + "]")[..|inner|] == inner;
  }

  lemma HeadFirst(before: string, head: string, body: string)
    requires Blank(before) && head != [] && !IsSpace(head[0])
    ensures TrimStart(before + (head + body)) == head + body
  {
    TrimStartBlank(before, head + body);
  }

  lemma CloseKept(subject: string)
    ensures TrimStart(subject + "]") == TrimStart(subject) + "]"
  {
    TrimStartBefore(subject, ']');
  }

  lemma InsideNotBare(before: string, head: string, body: string, k: nat, m: nat)
    requires Blank(before) && k < |PREFIXES| && EqIgnoreCase(head, PREFIXES[k])
    requires m < |body| && body[m] == ']'
    ensures var rest := before + (head + body);
            Find(rest, ']') < |rest| && !IsBareTag(Trim(rest[..Find(rest, ']')]))
  {
    HeadShape(head, k);
    hide *;
    var rest := before + (head + body);
    CloseBehind(before, head, body, m);
    var inside := rest[..Find(rest, ']')];
    assert inside[..|before| + |head|] == before + head;
    NotBare(before, head, inside, k);
  }

  lemma CloseBehind(before: string, head: string, body: string, m: nat)
    requires Blank(before) && (forall i :: 0 <= i < |head| ==> head[i] != ']') && m < |body| && body[m] == ']'
    ensures |before| + |head| <= Find(before + (head + body), ']') < |before + (head + body)|
  {
    hide Find;
    var rest := before + (head + body);
    assert rest[|before| + |head| + m] == ']';
    forall i | 0 <= i < |before| + |head| ensures rest[i] != ']' {
      if i < |before| {
        assert rest[i] == before[i] && IsSpace(before[i]);
      } else {
        assert rest[i] == head[i - |before|];
      }
    }
  }

  lemma TrimTwice(s: string)
    ensures Trim(TrimStart(s)) == Trim(s)
  {
    TrimStartShape(s);
    assert TrimStart(TrimStart(s)) == TrimStart(s);
  }

  /** Text that goes on past a prefix's colon is not a bare tag. */
  lemma NotBare(before: string, head: string, inside: string, k: nat)
    requires Blank(before) && k < |PREFIXES| && EqIgnoreCase(head, PREFIXES[k])
    requires |before| + |head| <= |inside| && inside[..|before| + |head|] == before + head
    ensures !IsBareTag(Trim(inside))
  {
    HeadShape(head, k);
    var tail := inside[|before| + |head|..];
    assert inside == before + (head + tail);
    TrimStartBlank(before, head + tail);
    assert TrimStart(head + tail) == head + tail;
    TrimEndKeeps(head, tail);
    var t := Trim(inside);
    assert t == head + TrimEnd(tail);
    assert t[|head| - 1] == ':';
    forall j | 0 <= j < |PREFIXES|
      ensures !EqIgnoreCase(t, PREFIXES[j][..|PREFIXES[j]| - 1])
    {
      var p := PREFIXES[j][..|PREFIXES[j]| - 1];
      if |t| == |p| {
        assert 'a' <= p[|head| - 1] <= 'z';
        assert Lower(t[|head| - 1]) != Lower(p[|head| - 1]);
      }
    }
  }

  // ---- By the nine prefixes themselves ---------------------------------------------------------

  /** A reply or forward prefix in any case. */
  ghost predicate KnownReply(head: string) {
    || EqIgnoreCase(head, "re:") || EqIgnoreCase(head, "fwd:") || EqIgnoreCase(head, "fw:")
    || EqIgnoreCase(head, "aw:") || EqIgnoreCase(head, "wg:") || EqIgnoreCase(head, "sv:")
    || EqIgnoreCase(head, "vs:") || EqIgnoreCase(head, "antw:") || EqIgnoreCase(head, "tr:")
  }

  lemma ReplyIndex(head: string) returns (k: nat)
    requires KnownReply(head)
    ensures k < |PREFIXES| && EqIgnoreCase(head, PREFIXES[k])
  {
    hide EqIgnoreCase;
    k := if EqIgnoreCase(head, "re:") then 0 else if EqIgnoreCase(head, "fwd:") then 1
         else if EqIgnoreCase(head, "fw:") then 2 else if EqIgnoreCase(head, "aw:") then 3
         else if EqIgnoreCase(head, "wg:") then 4 else if EqIgnoreCase(head, "sv:") then 5
         else if EqIgnoreCase(head, "vs:") then 6 else if EqIgnoreCase(head, "antw:") then 7 else 8;
  }

  lemma ReplyKnown(head: string, k: nat)
    requires k < |PREFIXES| && EqIgnoreCase(head, PREFIXES[k])
    ensures KnownReply(head)
  {
    hide EqIgnoreCase;
  }

  lemma TagIndex(tag: string)
    ensures KnownReply(tag + ":") == IsBareTag(tag)
  {
    if KnownReply(tag + ":") {
      var k := ReplyIndex(tag + ":");
      var p := PREFIXES[k];
      forall i | 0 <= i < |tag| ensures Lower(tag[i]) == Lower(p[i]) {
        assert (tag + ":")[i] == tag[i];
      }
      assert EqIgnoreCase(tag, p[..|p| - 1]);
    }
    if IsBareTag(tag) {
      var k :| 0 <= k < |PREFIXES| && EqIgnoreCase(tag, PREFIXES[k][..|PREFIXES[k]| - 1]);
      var p := PREFIXES[k];
      assert p[|p| - 1] == ':';
      forall i | 0 <= i < |tag| ensures Lower(tag[i]) == Lower(p[i]) {
        assert p[..|p| - 1][i] == p[i];
      }
      assert EqIgnoreCase(tag + ":", p);
      ReplyKnown(tag + ":", k);
    }
  }

  lemma OpenRound(before: string, head: string, body: string, k: nat, m: nat)
    requires Blank(before) && k < |PREFIXES| && EqIgnoreCase(head, PREFIXES[k])
    requires m < |body| && body[m] == ']'
    requires TrimStart(body) != [] ==> TrimStart(body)[|TrimStart(body)| - 1] != ']'
    ensures AfterTag("[" + (before + (head + body))) == Some(TrimStart(body))
  {
    HeadShape(head, k);
    var rest := before + (head + body);
    InsideNotBare(before, head, body, k, m);
    HeadFirst(before, head, body);
    StripReplyIs(head, body, k);
    hide IsBareTag, StripReply, Find, TrimStart, Trim, EqIgnoreCase;
    assert ("[" + rest)[1..] == rest;
  }

  predicate EndsClosed(s: string) {
    s != [] && s[|s| - 1] == ']'
  }

  lemma TrimEndHolds(s: string, m: nat)
    requires m < |s| && !IsSpace(s[m])
    ensures m < |TrimEnd(s)| && TrimEnd(s)[m] == s[m]
  {
    TrimEndShape(s);
    var n := |TrimEnd(s)|;
    assert forall i {:trigger s[i]} :: n <= i < |s| ==> s[i] == s[n..][i - n];
  }

  lemma OpenVanishes(before: string, head: string, subject: string, k: nat, m: nat)
    requires Blank(before) && k < |PREFIXES| && EqIgnoreCase(head, PREFIXES[k])
    requires m < |subject| && subject[m] == ']' && !EndsClosed(Trim(subject))
    ensures Stripped("[" + before + head + subject) == Stripped(subject)
  {
    hide AfterTag, StripReply, EqIgnoreCase;
    HeadShape(head, k);
    var u, body := "[" + before + head, TrimEnd(subject);
    TrimKeeps(u, subject);
    TrimCommutes(subject);
    TrimEndHolds(subject, m);
    var t := u + body;
    assert t == "[" + (before + (head + body));
    OpenRound(before, head, body, k, m);
    TrimPiece(u + subject);
    RoundShape(t);
    TrimPiece(subject);
  }

  /** What a reply or forward mark hides, whichever of the nine it is and in any case: `Re: x`, `[Re] x`, `[Fwd: x]`,
      and `[Fwd: x` where `x` holds a closing bracket but does not end with one, are all the discussion `x`. */
  lemma MarksVanish(name: string, before: string, after: string, subject: string)
    requires KnownReply(name + ":") && Blank(before) && Blank(after)
    ensures Stripped(name + ":" + subject) == Stripped(subject)
    ensures Stripped("[" + before + name + after + "]" + subject) == Stripped(subject)
    ensures Stripped("[" + before + (name + ":") + subject + "]") == Stripped(subject)
    ensures ']' in subject && !EndsClosed(Trim(subject)) ==>
              Stripped("[" + before + (name + ":") + subject) == Stripped(subject)
  {
    hide Stripped, EqIgnoreCase;
    TagIndex(name);
    var k := ReplyIndex(name + ":");
    hide *;
    PrefixVanishes(name + ":", subject, k);
    TagVanishes(before, name, after, subject);
    BracketVanishes(before, name + ":", subject, k);
    if ']' in subject && !EndsClosed(Trim(subject)) {
      var m :| 0 <= m < |subject| && subject[m] == ']';
      OpenVanishes(before, name + ":", subject, k, m);
    }
  }

  /** Nothing else vanishes: no other word before a colon, no other tag, and no bracket that is never closed. */
  lemma NothingElseVanishes(subject: string)
    requires Trimmed(subject)
    requires forall n :: 0 <= n <= |subject| ==> !KnownReply(subject[..n])
    requires subject != [] && subject[0] == '[' ==>
               var rest := subject[1..];
               var end := Find(rest, ']');
               end < |rest| ==>
                 && !KnownReply(Trim(rest[..end]) + ":")
                 && forall n :: 0 <= n <= |TrimStart(rest)| ==> !KnownReply(TrimStart(rest)[..n])
    ensures Stripped(subject) == subject
  {
    NoReply(subject);
    if subject != [] && subject[0] == '[' {
      var rest := subject[1..];
      TagIndex(Trim(rest[..Find(rest, ']')]));
      if Find(rest, ']') < |rest| { NoReply(TrimStart(rest)); }
    }
    hide EqIgnoreCase, KnownReply, StartsWithCi, Find, StripReply, IsBareTag, Stripped;
    assert AfterTag(subject).None?;
    NothingToStrip(subject);
  }

  lemma NoReply(s: string)
    requires forall n :: 0 <= n <= |s| ==> !KnownReply(s[..n])
    ensures StripReply(s).None? && forall k :: 0 <= k < |PREFIXES| ==> !StartsWithCi(s, PREFIXES[k])
  {
    forall k | 0 <= k < |PREFIXES| ensures !StartsWithCi(s, PREFIXES[k]) {
      if StartsWithCi(s, PREFIXES[k]) {
        ReplyKnown(s[..|PREFIXES[k]|], k);
        assert false;
      }
    }
    var _ := StripReplyFinds(s, 0);
  }
}
