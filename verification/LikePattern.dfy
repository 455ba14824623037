/** The `like ... escape '\'` prefilter that spares the sender scan most of a mailbox. */
module LikePattern {
  import opened Text
  import opened Subjects

  /** SQLite `like` with escape character `\`: `%` any run, `_` any one character, ASCII case folded. */
  predicate Like(p: string, s: string)
    decreases |p|, |s|
  {
    if p == [] then s == []
    else if p[0] == '%' then Like(p[1..], s) || (s != [] && Like(p, s[1..]))
    else if p[0] == '_' then s != [] && Like(p[1..], s[1..])
    else if p[0] == '\\' then |p| > 1 && s != [] && Lower(p[1]) == Lower(s[0]) && Like(p[2..], s[1..])
    else s != [] && Lower(p[0]) == Lower(s[0]) && Like(p[1..], s[1..])
  }

  /** One character of the searched text as the pattern spells it. */
  function Escaped(c: char): string {
    if c == '%' || c == '_' || c == '\\' then ['\\', c]
    else if IsAsciiChar(c) then [c]
    else "_"
  }

  function EscapedAll(text: string): string {
    if text == [] then [] else Escaped(text[0]) + EscapedAll(text[1..])
  }

  lemma {:induction false} EscapedAllAppend(a: string, c: char)
    ensures EscapedAll(a + [c]) == EscapedAll(a) + Escaped(c)
  {
    if a == [] {
      assert a + [c] == [c];
    } else {
      assert (a + [c])[1..] == a[1..] + [c];
      EscapedAllAppend(a[1..], c);
    }
  }

  /** `contains_pattern`, pushing into one buffer. */
  method ContainsPattern(text: string) returns (p: string)
    ensures p == "%" + EscapedAll(text) + "%"
  {
    p := "%";
    for i := 0 to |text|
      invariant p == "%" + EscapedAll(text[..i])
    {
      var c := text[i];
      if c == '%' || c == '_' || c == '\\' {
        p := p + ['\\'];
        p := p + [c];
      } else if IsAsciiChar(c) {
        p := p + [c];
      } else {
        p := p + ['_'];
      }
      assert text[..i + 1] == text[..i] + [c];
      EscapedAllAppend(text[..i], c);
    }
    assert text[..|text|] == text;
    p := p + ['%'];
  }

  /** `text` stands at the front of `s`, ASCII case folded; a non-ASCII character of `text` accepts any. */
  ghost predicate FitsAtFront(text: string, s: string) {
    |text| <= |s| && forall i :: 0 <= i < |text| ==> IsAsciiChar(text[i]) ==> Lower(text[i]) == Lower(s[i])
  }

  lemma {:induction false} PercentTakesAll(s: string)
    ensures Like("%", s)
  {
    if s != [] {
      PercentTakesAll(s[1..]);
    }
  }

  lemma {:induction false} LikeAtFront(text: string, s: string)
    ensures Like(EscapedAll(text) + "%", s) <==> FitsAtFront(text, s)
  {
    var p := EscapedAll(text) + "%";
    if text == [] {
      assert p == "%";
      PercentTakesAll(s);
    } else {
      var e := Escaped(text[0]);
      var q := EscapedAll(text[1..]) + "%";
      assert p == e + q;
      assert p[|e|..] == q;
      if s != [] {
        LikeAtFront(text[1..], s[1..]);
        assert FitsAtFront(text, s) <==>
               (IsAsciiChar(text[0]) ==> Lower(text[0]) == Lower(s[0])) && FitsAtFront(text[1..], s[1..]) by {
          if FitsAtFront(text[1..], s[1..]) && (IsAsciiChar(text[0]) ==> Lower(text[0]) == Lower(s[0])) {
            forall i | 0 <= i < |text| && IsAsciiChar(text[i]) ensures Lower(text[i]) == Lower(s[i]) {
              if i > 0 { assert text[i] == text[1..][i - 1] && s[i] == s[1..][i - 1]; }
            }
          }
        }
      }
    }
  }

  lemma {:induction false} LikeAnywhere(q: string, s: string)
    ensures Like("%" + q, s) <==> exists k :: 0 <= k <= |s| && Like(q, s[k..])
  {
    var p := "%" + q;
    assert p[1..] == q;
    assert s[0..] == s;
    if s != [] {
      var t := s[1..];
      LikeAnywhere(q, t);
      if exists k :: 0 <= k <= |s| && Like(q, s[k..]) {
        var k :| 0 <= k <= |s| && Like(q, s[k..]);
        if k > 0 { assert t[k - 1..] == s[k..]; }
      }
      if exists k :: 0 <= k <= |t| && Like(q, t[k..]) {
        var k :| 0 <= k <= |t| && Like(q, t[k..]);
        assert s[k + 1..] == t[k..];
      }
    } else {
      assert forall k :: 0 <= k <= |s| ==> s[k..] == s;
    }
  }

  /** The pattern matches exactly the subjects in which `text` fits somewhere. */
  lemma PatternMeaning(text: string, s: string)
    ensures Like("%" + EscapedAll(text) + "%", s) <==> exists k :: 0 <= k <= |s| && FitsAtFront(text, s[k..])
  {
    var q := EscapedAll(text) + "%";
    assert "%" + EscapedAll(text) + "%" == "%" + q;
    LikeAnywhere(q, s);
    forall k | 0 <= k <= |s| ensures Like(q, s[k..]) <==> FitsAtFront(text, s[k..]) {
      LikeAtFront(text, s[k..]);
    }
  }

  ghost predicate ContainsCi(s: string, text: string) {
    exists k :: 0 <= k <= |s| - |text| && EqIgnoreCase(s[k..][..|text|], text)
  }

  /** For an ASCII `text` that is: the subjects that contain it in any case. */
  lemma AsciiPatternMeaning(text: string, s: string)
    requires IsAscii(text)
    ensures Like("%" + EscapedAll(text) + "%", s) <==> ContainsCi(s, text)
  {
    PatternMeaning(text, s);
    if exists k :: 0 <= k <= |s| && FitsAtFront(text, s[k..]) {
      var k :| 0 <= k <= |s| && FitsAtFront(text, s[k..]);
      assert EqIgnoreCase(s[k..][..|text|], text);
    }
    if ContainsCi(s, text) {
      var k :| 0 <= k <= |s| - |text| && EqIgnoreCase(s[k..][..|text|], text);
      forall i | 0 <= i < |text| ensures Lower(text[i]) == Lower(s[k..][i]) {
        assert s[k..][i] == s[k..][..|text|][i];
      }
      assert FitsAtFront(text, s[k..]);
    }
  }

  /** `glob '*[^ -~]*'`: some character is outside printable ASCII. */
  predicate HasOther(s: string) {
    exists i :: 0 <= i < |s| && !(' ' <= s[i] <= '~')
  }

  /** The `where` clause of the sender scan; a row without a subject never passes. */
  predicate Prefiltered(pattern: string, subject: Option<string>) {
    subject.Some? && (Like(pattern, subject.value) || HasOther(subject.value))
  }

  lemma EmptyStays(toLower: string -> string)
    requires LowersAscii(toLower)
    ensures toLower(Stripped("")) == ""
  {
    NothingToStrip("");
    assert IsAscii("");
  }

  /** The prefilter loses no subject that normalises to the target, whatever its characters. */
  lemma PrefilterKeepsMatches(subject: Option<string>, target: string, toLower: string -> string)
    requires LowersAscii(toLower) && target != []
    ensures toLower(Stripped(if subject.Some? then subject.value else "")) == target
            ==> Prefiltered("%" + EscapedAll(target) + "%", subject)
  {
    hide Stripped, Like, EscapedAll;
    EmptyStays(toLower);
    if subject.Some? && !HasOther(subject.value) && toLower(Stripped(subject.value)) == target {
      var s := subject.value;
      var piece := Stripped(s);
      StrippedShape(s);
      var k :| PieceAt(piece, s, k);
      forall j | 0 <= j < |piece| ensures piece[j] == s[k + j] && IsAsciiChar(piece[j]) {
        assert piece[j] == s[k..k + |piece|][j];
      }
      assert target == LowerAll(piece);
      assert FitsAtFront(target, s[k..]);
      PatternMeaning(target, s);
    }
  }

  /** For an ASCII target the scan reads a subject exactly if it contains the target in any case, or a character outside
      printable ASCII. */
  lemma PrefilterMeans(subject: string, target: string)
    requires IsAscii(target)
    ensures Prefiltered("%" + EscapedAll(target) + "%", Some(subject))
            <==> ContainsCi(subject, target) || exists i :: 0 <= i < |subject| && (subject[i] < ' ' || subject[i] > '~')
    ensures !Prefiltered("%" + EscapedAll(target) + "%", None)
  {
    hide Like, EscapedAll, ContainsCi;
    AsciiPatternMeaning(target, subject);
    if HasOther(subject) {
      var i :| 0 <= i < |subject| && !(' ' <= subject[i] <= '~');
      assert subject[i] < ' ' || subject[i] > '~';
    }
  }
}
