/** Queries written out from tokens, and read back by the parser unchanged. */
module QueryText {
  import opened Text
  import opened Query

  /** One thing a user can type: `spelled` is a field prefix in any case, `gap` the blanks after a colon. */
  datatype Token =
    | Word(negated: bool, field: Field, spelled: string, gap: string, text: string)
    | Phrase(negated: bool, field: Field, spelled: string, gap: string, words: seq<string>)
    | Filter(negated: bool, key: string, gap: string, val: string)

  function Minus(negated: bool): string {
    if negated then "-" else ""
  }

  function Body(t: Token): string {
    match t
    case Word(_, _, spelled, gap, text) => spelled + (gap + text)
    case Phrase(_, _, spelled, gap, words) => spelled + (gap + ("\"" + JoinSpaced(words) + "\""))
    case Filter(_, key, gap, val) => key + (":" + (gap + val))
  }

  function Print(t: Token): string {
    Minus(t.negated) + Body(t)
  }

  predicate NoSpace(s: string) {
    forall i :: 0 <= i < |s| ==> !IsSpace(s[i])
  }

  /** A word as typed: no blanks, and nothing `clean` would drop. */
  predicate Plain(w: string) {
    w != [] && NoSpace(w) && NoQuoteOrStar(w)
  }

  /** A bare word that no filter token and no date key is spelled like. */
  ghost predicate NotFilter(env: Env, w: string) {
    var colon := Find(w, ':');
    colon < |w| ==>
      && !(w[colon + 1..] == [] && IsDateKey(w[..colon]))
      && FilterPair(env, w[..colon], w[colon + 1..], false, NO_FILTERS).None?
  }

  ghost predicate FieldSpelled(field: Field, spelled: string, gap: string) {
    EqIgnoreCase(spelled, FieldPrefix(field)) && Blank(gap) && (field == AnyField ==> gap == [])
  }

  ghost predicate Valid(env: Env, t: Token) {
    match t
    case Word(negated, field, spelled, gap, text) =>
      && FieldSpelled(field, spelled, gap) && Plain(text) && HasAlnum(env, text)
      && (field == AnyField ==>
            NotFilter(env, text) && StripField(text).0 == AnyField && (text[0] == '-' ==> negated))
    case Phrase(_, field, spelled, gap, words) =>
      && FieldSpelled(field, spelled, gap) && words != [] && (forall i :: 0 <= i < |words| ==> Plain(words[i]))
      && HasAlnum(env, JoinSpaced(words))
    case Filter(negated, key, gap, val) =>
      && Blank(gap) && (gap != [] ==> IsDateKey(key)) && val != [] && NoSpace(val)
      && FilterPair(env, key, val, negated, NO_FILTERS).Some?
  }

  function Apply(env: Env, t: Token, acc: Parsed): Parsed {
    match t
    case Word(negated, field, _, _, text) => acc.(terms := acc.terms + [Term(field, text, false, negated)])
    case Phrase(negated, field, _, _, words) =>
      acc.(terms := acc.terms + [Term(field, JoinSpaced(words), true, negated)])
    case Filter(negated, key, _, val) =>
      match FilterPair(env, key, val, negated, acc.filters)
      case Some(f) => acc.(filters := f)
      case None => acc
  }

  /** Tokens with the blanks behind them. */
  datatype Spaced = Spaced(token: Token, blanks: string)

  function PrintAll(ts: seq<Spaced>): string {
    if ts == [] then "" else Print(ts[0].token) + (ts[0].blanks + PrintAll(ts[1..]))
  }

  function ApplyAll(env: Env, ts: seq<Spaced>, acc: Parsed): Parsed {
    if ts == [] then acc else ApplyAll(env, ts[1..], Apply(env, ts[0].token, acc))
  }

  /** Valid tokens, with at least one blank between any two. */
  ghost predicate AllValid(env: Env, ts: seq<Spaced>) {
    forall i :: 0 <= i < |ts| ==>
      && Valid(env, ts[i].token) && Blank(ts[i].blanks) && (i + 1 < |ts| ==> ts[i].blanks != [])
  }

  // ---- Small steps -----------------------------------------------------------------------------------

  predicate Ends(tail: string) {
    tail != [] ==> IsSpace(tail[0])
  }

  lemma WordEnd(w: string, tail: string)
    requires NoSpace(w) && Ends(tail)
    ensures FindSpace(w + tail) == |w| && (w + tail)[..|w|] == w && (w + tail)[|w|..] == tail
  {
    FindSpaceIs(w + tail, |w|);
  }

  /** Whether a pair is a filter depends on neither the sign nor the filters so far. */
  lemma PairEitherWay(env: Env, k: string, v: string, n: bool, f: Filters, n': bool, f': Filters)
    ensures FilterPair(env, k, v, n, f).Some? == FilterPair(env, k, v, n', f').Some?
  {
  }

  lemma KnownKey(env: Env, k: string, v: string, n: bool, f: Filters)
    requires FilterPair(env, k, v, n, f).Some?
    ensures k != [] && NoSpace(k) && k[0] != '"' && k[0] != '-' && forall i :: 0 <= i < |k| ==> k[i] != ':'
  {
    var known := if EqIgnoreCase(k, "is") then "is" else if EqIgnoreCase(k, "has") then "has"
                 else if EqIgnoreCase(k, "after") then "after"
                 else if EqIgnoreCase(k, "since") then "since" else "before";
    assert EqIgnoreCase(k, known);
  }

  lemma FieldLetters(field: Field, spelled: string)
    requires EqIgnoreCase(spelled, FieldPrefix(field)) && field != AnyField
    ensures var n := |spelled| - 1;
            && n > 0 && NoSpace(spelled) && spelled[0] != '"' && spelled[0] != '-' && spelled[n] == ':'
            && forall i :: 0 <= i < n ==> spelled[i] != ':'
  {
  }

  lemma FieldIsNoKey(env: Env, field: Field, k: string, v: string, n: bool, f: Filters)
    requires field != AnyField && EqIgnoreCase(k, FieldPrefix(field)[..|FieldPrefix(field)| - 1])
    ensures FilterPair(env, k, v, n, f).None? && !IsDateKey(k)
  {
    var p := FieldPrefix(field);
    assert Lower(k[0]) == Lower(p[0]);
    if field == SubjectField {
      assert |k| == 7;
    } else {
      assert "is"[0] == 'i' && "has"[0] == 'h' && "after"[0] == 'a' && "since"[0] == 's' && "before"[0] == 'b';
      assert p[0] == 'f' || p[0] == 't';
    }
  }

  lemma {:induction false} WordsOfJoined(words: seq<string>)
    requires forall i :: 0 <= i < |words| ==> words[i] != [] && NoSpace(words[i])
    ensures Words(JoinSpaced(words)) == words
  {
    if words != [] {
      var w, rest := words[0], words[1..];
      if rest == [] {
        WordEnd(w, "");
        assert w + "" == w;
      } else {
        var s := w + " " + JoinSpaced(rest);
        var tail := " " + JoinSpaced(rest);
        assert s == w + tail;
        WordEnd(w, tail);
        WordsOfJoined(rest);
        WordsTrim(" ", JoinSpaced(rest));
        assert words == [w] + rest;
      }
    }
  }

  lemma WordsTrim(blanks: string, s: string)
    requires Blank(blanks)
    ensures Words(blanks + s) == Words(s)
  {
    TrimStartBlank(blanks, s);
  }

  lemma {:induction false} CleanPlain(words: seq<string>)
    requires forall i :: 0 <= i < |words| ==> NoQuoteOrStar(words[i])
    ensures CleanAll(words) == words
    ensures NoQuoteOrStar(JoinSpaced(words))
  {
    if words != [] {
      CleanShape(words[0]);
      CleanPlain(words[1..]);
    }
  }

  /** The start of a printed token: what TakeFilter and StripField look at. */
  lemma PhraseText(words: seq<string>, tail: string)
    requires words != [] && forall i :: 0 <= i < |words| ==> Plain(words[i])
    ensures TakeText("\"" + JoinSpaced(words) + "\"" + tail) == (JoinSpaced(words), true, tail)
  {
    hide JoinSpaced, Words, CleanAll;
    CleanPlain(words);
    WordsOfJoined(words);
    hide Plain;
    var joined := JoinSpaced(words);
    var s := "\"" + joined + "\"" + tail;
    QuotedSpan(joined, tail);
    assert s[0] == '"';
  }

  lemma QuotedSpan(joined: string, tail: string)
    requires NoQuoteOrStar(joined)
    ensures var r := ("\"" + joined + "\"" + tail)[1..];
            Find(r, '"') == |joined| && r[..|joined|] == joined && r[|joined| + 1..] == tail
  {
    var r := ("\"" + joined + "\"" + tail)[1..];
    assert r == joined + ("\"" + tail);
    FindIs(r, '"', |joined|);
  }

  lemma PlainText(text: string, tail: string)
    requires Plain(text) && Ends(tail)
    ensures TakeText(text + tail) == (text, false, tail)
  {
    WordEnd(text, tail);
    CleanShape(text);
  }

  /** What is read as text: a word up to the next blank, or all between quotes, the closing one being optional; quotes
      and stars are dropped, and the words of a quoted part joined by single blanks. */
  lemma TextMeans(word: string, tail: string, inner: string, after: string)
    requires NoSpace(word) && (word + tail != [] ==> (word + tail)[0] != '"') && Ends(tail)
    requires forall i :: 0 <= i < |inner| ==> inner[i] != '"'
    ensures TakeText(word + tail) == (Clean(word), false, tail)
    ensures TakeText("\"" + (inner + ("\"" + after))) == (JoinSpaced(CleanAll(Words(inner))), true, after)
    ensures TakeText("\"" + inner) == (JoinSpaced(CleanAll(Words(inner))), true, "")
  {
    hide JoinSpaced, CleanAll, Words, Clean, Find, FindSpace, NoSpace;
    WordEnd(word, tail);
    QuoteEnd(inner, after);
  }

  /** Cleaning drops the quotes and stars of a word and nothing else. */
  lemma {:induction false} CleanMeans(a: string, c: char, b: string)
    ensures Clean(a + ([c] + b)) == Clean(a) + (if c == '"' || c == '*' then Clean(b) else [c] + Clean(b))
  {
    var x := [c] + b;
    CleanFirst(c, b);
    if a == [] {
      assert a + x == x;
    } else {
      CleanFirst(a[0], a[1..]);
      CleanFirst(a[0], a[1..] + x);
      hide Clean;
      assert a == [a[0]] + a[1..] && a + x == [a[0]] + (a[1..] + x);
      CleanMeans(a[1..], c, b);
    }
  }

  lemma CleanFirst(c: char, b: string)
    ensures Clean([c] + b) == if c == '"' || c == '*' then Clean(b) else [c] + Clean(b)
  {
    assert ([c] + b)[1..] == b && [] + Clean(b) == Clean(b);
  }

  /** A text splits at its blanks, however many stand together. */
  lemma WordsMean(blanks: string, word: string, tail: string)
    requires Blank(blanks) && word != [] && NoSpace(word) && Ends(tail)
    ensures Words(blanks + (word + tail)) == [word] + Words(tail)
    ensures Words(blanks) == []
  {
    WordsTrim(blanks, word + tail);
    WordsTrim(blanks, "");
    assert blanks + "" == blanks;
    WordEnd(word, tail);
    Unspaced(word + tail, word);
    hide TrimStart, FindSpace;
  }

  lemma QuoteEnd(inner: string, after: string)
    requires forall i :: 0 <= i < |inner| ==> inner[i] != '"'
    ensures var closed := ("\"" + (inner + ("\"" + after)))[1..];
            Find(closed, '"') == |inner| < |closed| && closed[..|inner|] == inner && closed[|inner| + 1..] == after
    ensures var open := ("\"" + inner)[1..];
            Find(open, '"') == |inner| == |open| && open[..|inner|] == inner
  {
    hide *;
    var closed := inner + ("\"" + after);
    assert ("\"" + closed)[1..] == closed && ("\"" + inner)[1..] == inner;
    assert closed[|inner|] == '"' && forall i :: 0 <= i < |inner| ==> closed[i] == inner[i];
    FindIs(closed, '"', |inner|);
    FindIs(inner, '"', |inner|);
  }

  /** No filter is taken from a token that starts with a field prefix. */
  lemma FieldNoFilter(env: Env, field: Field, spelled: string, tail: string, n: bool, f: Filters)
    requires field != AnyField && EqIgnoreCase(spelled, FieldPrefix(field))
    ensures TakeFilter(env, spelled + tail, n, f).None?
  {
    FieldLetters(field, spelled);
    var candidate := spelled + tail;
    var end := FindSpace(candidate);
    assert forall i :: 0 <= i < |spelled| ==> candidate[i] == spelled[i];
    assert end >= |spelled|;
    var word := candidate[..end];
    var colon := |spelled| - 1;
    FindIs(word, ':', colon);
    var k, v := word[..colon], word[colon + 1..];
    assert EqIgnoreCase(k, FieldPrefix(field)[..|FieldPrefix(field)| - 1]);
    FieldIsNoKey(env, field, k, v, n, f);
  }

  lemma FieldStripped(field: Field, spelled: string, tail: string)
    requires field != AnyField && EqIgnoreCase(spelled, FieldPrefix(field))
    ensures StripField(spelled + tail) == (field, tail)
  {
    var s := spelled + tail;
    var p := FieldPrefix(field);
    assert s[..|p|] == spelled && s[|p|..] == tail;
    assert StartsCi(s, p);
    StartsFirst(s, p);
    var found := FieldPrefix(StripField(s).0);
    if StripField(s).0 != AnyField {
      StartsFirst(s, found);
    }
  }

  /** A word that is no valid pair is not taken. */
  lemma WordNoFilter(env: Env, text: string, tail: string, n: bool, f: Filters)
    requires Plain(text) && NotFilter(env, text) && Ends(tail)
    ensures TakeFilter(env, text + tail, n, f).None?
  {
    hide FilterPair, IsDateKey;
    WordEnd(text, tail);
    var colon := Find(text, ':');
    if colon < |text| {
      PairEitherWay(env, text[..colon], text[colon + 1..], false, NO_FILTERS, n, f);
    }
  }

  lemma StartsFirst(s: string, p: string)
    requires StartsCi(s, p) && p != []
    ensures s != [] && Lower(s[0]) == Lower(p[0])
  {
    assert s[..|p|][0] == s[0];
  }

  lemma WordNoPrefix(text: string, tail: string, p: string)
    requires Ends(tail) && StartsCi(text + tail, p)
    requires forall i :: 0 <= i < |p| ==> 'a' <= p[i] <= 'z' || p[i] == ':'
    ensures StartsCi(text, p)
  {
    var s := text + tail;
    assert forall i :: 0 <= i < |p| ==> s[..|p|][i] == s[i];
    assert tail != [] ==> s[|text|] == tail[0];
    assert s[..|p|] == text[..|p|];
  }

  lemma WordNoField(text: string, tail: string)
    requires StripField(text).0 == AnyField && Ends(tail)
    ensures StripField(text + tail) == (AnyField, text + tail)
  {
    if StripField(text + tail).0 != AnyField {
      WordNoPrefix(text, tail, FieldPrefix(StripField(text + tail).0));
    }
  }

  /** A valid pair at the front is taken whole, with the blanks behind it; only a date key may have blanks before its
      value. */
  lemma FilterTaken(env: Env, key: string, gap: string, val: string, tail: string, n: bool, f: Filters)
    requires Blank(gap) && (gap != [] ==> IsDateKey(key)) && val != [] && NoSpace(val) && Ends(tail)
    requires FilterPair(env, key, val, n, f).Some?
    ensures TakeFilter(env, key + (":" + (gap + val)) + tail, n, f)
            == Some((FilterPair(env, key, val, n, f).value, TrimStart(tail)))
  {
    KnownKey(env, key, val, n, f);
    hide FilterPair, IsDateKey, TrimStart;
    if gap == [] {
      assert key + (":" + (gap + val)) == key + ":" + val;
      PairTaken(env, key, val, tail, n, f);
    } else {
      DateTaken(env, key, gap, val, tail, n, f);
    }
  }

  lemma PairTaken(env: Env, key: string, val: string, tail: string, n: bool, f: Filters)
    requires val != [] && NoSpace(val) && Ends(tail) && FilterPair(env, key, val, n, f).Some?
    requires key != [] && NoSpace(key) && key[0] != '"' && forall i :: 0 <= i < |key| ==> key[i] != ':'
    ensures TakeFilter(env, key + ":" + val + tail, n, f)
            == Some((FilterPair(env, key, val, n, f).value, TrimStart(tail)))
  {
    hide FilterPair, IsDateKey, TrimStart;
    var word := key + ":" + val;
    assert NoSpace(word) && word[0] == key[0];
    WordEnd(word, tail);
    FindIs(word, ':', |key|);
    assert word[..|key|] == key && word[|key| + 1..] == val;
  }

  lemma DateTaken(env: Env, key: string, gap: string, val: string, tail: string, n: bool, f: Filters)
    requires Blank(gap) && gap != [] && IsDateKey(key) && val != [] && NoSpace(val) && Ends(tail)
    requires FilterPair(env, key, val, n, f).Some?
    requires key != [] && NoSpace(key) && key[0] != '"' && forall i :: 0 <= i < |key| ==> key[i] != ':'
    ensures TakeFilter(env, key + (":" + (gap + val)) + tail, n, f)
            == Some((FilterPair(env, key, val, n, f).value, TrimStart(tail)))
  {
    DateWords(key, gap, val, tail);
    hide FilterPair, IsDateKey, TrimStart;
  }

  /** How a date key with a spaced value splits into words. */
  lemma DateWords(key: string, gap: string, val: string, tail: string)
    requires Blank(gap) && gap != [] && val != [] && NoSpace(val) && Ends(tail)
    requires key != [] && NoSpace(key) && key[0] != '"' && forall i :: 0 <= i < |key| ==> key[i] != ':'
    ensures var candidate := key + (":" + (gap + val)) + tail;
            var end := FindSpace(candidate);
            var word := candidate[..end];
            var rest := TrimStart(candidate[end..]);
            && candidate != [] && candidate[0] != '"'
            && word == key + ":" && Find(word, ':') == |key| && word[..|key|] == key && word[|key| + 1..] == []
            && rest == val + tail && FindSpace(rest) == |val| && rest[..|val|] == val && rest[|val|..] == tail
  {
    hide TrimStart;
    var head, more := key + ":", gap + (val + tail);
    assert key + (":" + (gap + val)) + tail == head + more;
    assert more[0] == gap[0] && head[0] == key[0];
    WordEnd(head, more);
    FindIs(head, ':', |key|);
    assert head[..|key|] == key && head[|key| + 1..] == [];
    TrimStartBlank(gap, val + tail);
    Unspaced(val + tail, val);
    WordEnd(val, tail);
  }

  // ---- One token, one round ----------------------------------------------------------------------------

  /** A printed token starts with no blank and is marked negative by exactly its own sign. */
  lemma SignRead(env: Env, t: Token, tail: string)
    requires Valid(env, t)
    ensures var rest := Print(t) + tail;
            && rest != [] && !IsSpace(rest[0]) && (rest[0] == '-' <==> t.negated)
            && (if t.negated then rest[1..] else rest) == Body(t) + tail
  {
    BodyStart(env, t);
    hide Valid, Body;
    SignSplit(t.negated, Body(t), tail);
  }

  lemma SignSplit(negated: bool, body: string, tail: string)
    requires body != [] && !IsSpace(body[0]) && (!negated ==> body[0] != '-')
    ensures var rest := Minus(negated) + body + tail;
            && rest != [] && !IsSpace(rest[0]) && (rest[0] == '-' <==> negated)
            && (if negated then rest[1..] else rest) == body + tail
  {
    if negated {
      assert ("-" + body + tail)[1..] == body + tail;
    } else {
      assert "" + body + tail == body + tail;
    }
  }

  lemma Regroup(a: string, b: string, c: string, d: string)
    ensures a + (b + c) + d == a + (b + (c + d))
  {
  }

  lemma BodyStart(env: Env, t: Token)
    requires Valid(env, t)
    ensures Body(t) != [] && !IsSpace(Body(t)[0]) && (!t.negated ==> Body(t)[0] != '-')
  {
    match t
    case Word(_, field, spelled, gap, text) =>
      if field != AnyField { FieldLetters(field, spelled); } else { assert Body(t) == text; }
    case Phrase(_, field, spelled, gap, words) =>
      if field != AnyField { FieldLetters(field, spelled); } else { assert Body(t)[0] == '"'; }
    case Filter(negated, key, gap, val) =>
      KnownKey(env, key, val, negated, NO_FILTERS);
  }

  lemma TermRound(env: Env, rest: string, acc: Parsed, negated: bool, candidate: string, field: Field, r: string,
                  text: string, phrase: bool, after: string)
    requires rest != [] && (rest[0] == '-' <==> negated) && (if negated then rest[1..] else rest) == candidate
    requires TakeFilter(env, candidate, negated, acc.filters).None?
    requires StripField(candidate) == (field, r)
    requires TakeText(if field == AnyField then candidate else TrimStart(r)) == (text, phrase, after)
    requires HasAlnum(env, text)
    ensures Round(env, rest, acc) == (acc.(terms := acc.terms + [Term(field, text, phrase, negated)]), TrimStart(after))
  {
    hide TakeFilter, StripField, TakeText, TrimStart, HasAlnum;
  }

  lemma FieldRound(env: Env, rest: string, acc: Parsed, negated: bool, field: Field, spelled: string, gap: string,
                   body: string, text: string, phrase: bool, after: string)
    requires rest != [] && (rest[0] == '-' <==> negated)
            && (if negated then rest[1..] else rest) == spelled + (gap + body)
    requires field != AnyField && FieldSpelled(field, spelled, gap)
    requires TrimStart(body) == body && TakeText(body) == (text, phrase, after)
    requires HasAlnum(env, text)
    ensures Round(env, rest, acc) == (acc.(terms := acc.terms + [Term(field, text, phrase, negated)]), TrimStart(after))
  {
    hide TakeFilter, StripField, TakeText, TrimStart, HasAlnum, Round, EqIgnoreCase;
    FieldNoFilter(env, field, spelled, gap + body, negated, acc.filters);
    FieldStripped(field, spelled, gap + body);
    TrimStartBlank(gap, body);
    TermRound(env, rest, acc, negated, spelled + (gap + body), field, gap + body, text, phrase, after);
  }

  lemma AnyWordRound(env: Env, rest: string, acc: Parsed, negated: bool, text: string, tail: string)
    requires rest != [] && (rest[0] == '-' <==> negated) && (if negated then rest[1..] else rest) == text + tail
    requires Plain(text) && HasAlnum(env, text) && NotFilter(env, text) && StripField(text).0 == AnyField && Ends(tail)
    ensures Round(env, rest, acc)
            == (acc.(terms := acc.terms + [Term(AnyField, text, false, negated)]), TrimStart(tail))
  {
    hide TakeFilter, StripField, TakeText, TrimStart, HasAlnum, Round, NotFilter, Plain;
    PlainText(text, tail);
    WordNoFilter(env, text, tail, negated, acc.filters);
    WordNoField(text, tail);
    TermRound(env, rest, acc, negated, text + tail, AnyField, text + tail, text, false, tail);
  }

  lemma AnyPhraseRound(env: Env, rest: string, acc: Parsed, negated: bool, text: string, quoted: string, tail: string)
    requires rest != [] && (rest[0] == '-' <==> negated) && (if negated then rest[1..] else rest) == quoted
    requires quoted != [] && quoted[0] == '"' && TakeText(quoted) == (text, true, tail) && HasAlnum(env, text)
    ensures Round(env, rest, acc) == (acc.(terms := acc.terms + [Term(AnyField, text, true, negated)]), TrimStart(tail))
  {
    hide StripField, TakeText, TrimStart, HasAlnum, Round;
    assert TakeFilter(env, quoted, negated, acc.filters).None?;
    TermRound(env, rest, acc, negated, quoted, AnyField, quoted, text, true, tail);
  }

  lemma WordRound(env: Env, t: Token, tail: string, acc: Parsed)
    requires Valid(env, t) && t.Word? && Ends(tail)
    ensures Round(env, Print(t) + tail, acc) == (Apply(env, t, acc), TrimStart(tail))
  {
    SignRead(env, t, tail);
    Regroup(t.spelled, t.gap, t.text, tail);
    hide HasAlnum, NotFilter, Print, Round, StripField, TakeText, TrimStart, FieldSpelled, Ends, Plain, Blank;
    var body := t.text + tail;
    var rest := Print(t) + tail;
    if t.field == AnyField {
      assert "" + ("" + body) == body;
      AnyWordRound(env, rest, acc, t.negated, t.text, tail);
    } else {
      PlainText(t.text, tail);
      FieldRound(env, rest, acc, t.negated, t.field, t.spelled, t.gap, body, t.text, false, tail);
    }
  }

  lemma Unspaced(s: string, text: string)
    requires text != [] && NoSpace(text) && |text| <= |s| && s[..|text|] == text
    ensures TrimStart(s) == s
  {
    assert s[0] == text[0];
  }

  lemma PhraseRound(env: Env, t: Token, tail: string, acc: Parsed)
    requires Valid(env, t) && t.Phrase?
    ensures Round(env, Print(t) + tail, acc) == (Apply(env, t, acc), TrimStart(tail))
  {
    SignRead(env, t, tail);
    Regroup(t.spelled, t.gap, "\"" + JoinSpaced(t.words) + "\"", tail);
    PhraseText(t.words, tail);
    hide HasAlnum, JoinSpaced, Plain, Print, Round, TakeText, TrimStart, FieldSpelled;
    var rest, joined := Print(t) + tail, JoinSpaced(t.words);
    PhraseRead(env, rest, acc, t.negated, t.field, t.spelled, t.gap, joined, tail);
  }

  lemma PhraseRead(env: Env, rest: string, acc: Parsed, negated: bool, field: Field, spelled: string, gap: string,
                   joined: string, tail: string)
    requires rest != [] && (rest[0] == '-' <==> negated) && FieldSpelled(field, spelled, gap)
    requires (if negated then rest[1..] else rest) == spelled + (gap + ("\"" + joined + "\"" + tail))
    requires TakeText("\"" + joined + "\"" + tail) == (joined, true, tail) && HasAlnum(env, joined)
    ensures Round(env, rest, acc) == (acc.(terms := acc.terms + [Term(field, joined, true, negated)]), TrimStart(tail))
  {
    var quoted := "\"" + joined + "\"" + tail;
    assert TrimStart(quoted) == quoted;
    assert field == AnyField ==> spelled == "" && gap == "";
    hide HasAlnum, Round, TakeText, TrimStart, FieldSpelled;
    if field == AnyField {
      assert "" + ("" + quoted) == quoted;
      AnyPhraseRound(env, rest, acc, negated, joined, quoted, tail);
    } else {
      FieldRound(env, rest, acc, negated, field, spelled, gap, quoted, joined, true, tail);
    }
  }

  lemma FilterRound(env: Env, t: Token, tail: string, acc: Parsed)
    requires Valid(env, t) && t.Filter? && Ends(tail)
    ensures Round(env, Print(t) + tail, acc) == (Apply(env, t, acc), TrimStart(tail))
  {
    SignRead(env, t, tail);
    PairEitherWay(env, t.key, t.val, t.negated, NO_FILTERS, t.negated, acc.filters);
    hide FilterPair, IsDateKey;
    FilterTaken(env, t.key, t.gap, t.val, tail, t.negated, acc.filters);
    hide TakeFilter;
  }

  lemma TokenRound(env: Env, t: Token, tail: string, acc: Parsed)
    requires Valid(env, t) && Ends(tail)
    ensures Round(env, Print(t) + tail, acc) == (Apply(env, t, acc), TrimStart(tail))
  {
    hide Round, Print, Apply, Valid;
    match t
    case Word(_, _, _, _, _) => WordRound(env, t, tail, acc);
    case Phrase(_, _, _, _, _) => PhraseRound(env, t, tail, acc);
    case Filter(_, _, _, _) => FilterRound(env, t, tail, acc);
  }

  // ---- Whole queries -----------------------------------------------------------------------------------

  lemma PrintAllStart(env: Env, ts: seq<Spaced>)
    requires AllValid(env, ts)
    ensures PrintAll(ts) != [] ==> !IsSpace(PrintAll(ts)[0])
  {
    if ts != [] {
      SignRead(env, ts[0].token, ts[0].blanks + PrintAll(ts[1..]));
    }
  }

  lemma {:induction false} ParsePrinted(env: Env, ts: seq<Spaced>, acc: Parsed)
    requires AllValid(env, ts)
    ensures PrintAll(ts) != [] ==> !IsSpace(PrintAll(ts)[0])
    ensures ParseFrom(env, PrintAll(ts), acc) == ApplyAll(env, ts, acc)
  {
    PrintAllStart(env, ts);
    hide Round, Valid, Print, Apply, ParseFrom;
    if ts == [] {
      ParseDone(env, acc);
    } else {
      var t, more := ts[0].token, PrintAll(ts[1..]);
      var tail := ts[0].blanks + more;
      assert AllValid(env, ts[1..]);
      PrintAllStart(env, ts[1..]);
      SignRead(env, t, tail);
      assert |ts| == 1 ==> more == [];
      assert Ends(tail);
      TokenRound(env, t, tail, acc);
      TrimStartBlank(ts[0].blanks, more);
      assert TrimStart(more) == more;
      ParseStep(env, Print(t) + tail, acc);
      ParsePrinted(env, ts[1..], Apply(env, t, acc));
    }
  }

  /** Any list of tokens, written out with any blanks around them, is read back as exactly those tokens. */
  lemma QueryRoundTrip(env: Env, lead: string, ts: seq<Spaced>)
    requires Blank(lead) && AllValid(env, ts)
    ensures ParseQuery(env, lead + PrintAll(ts)) == ApplyAll(env, ts, Parsed([], NO_FILTERS))
  {
    hide ParseFrom, PrintAll, AllValid;
    ParsePrinted(env, ts, Parsed([], NO_FILTERS));
    TrimStartBlank(lead, PrintAll(ts));
  }

  /** A date key with blanks behind its colon takes the next word, whatever it is, only if that is a valid date;
      otherwise the key is text and the word is left. A sign makes no difference but to the term. */
  lemma DateKeyTakesOnlyDates(env: Env, negated: bool, key: string, gap: string, next: string, tail: string,
      acc: Parsed)
    requires EqIgnoreCase(key, "after") || EqIgnoreCase(key, "since") || EqIgnoreCase(key, "before")
    requires Blank(gap) && gap != [] && next != [] && NoSpace(next) && Ends(tail)
    requires HasAlnum(env, key + ":")
    ensures Round(env, Minus(negated) + (key + (":" + (gap + next))) + tail, acc)
            == if env.day(next).Some?
               then (acc.(filters := if EqIgnoreCase(key, "before") then acc.filters.(before := env.day(next))
                                     else acc.filters.(after := env.day(next))), TrimStart(tail))
               else (acc.(terms := acc.terms + [Term(AnyField, key + ":", false, negated)]), next + tail)
  {
    var body := key + (":" + (gap + next));
    var known := if EqIgnoreCase(key, "after") then "after"
                 else if EqIgnoreCase(key, "since") then "since" else "before";
    assert Lower(key[0]) == Lower(known[0]) && |key| == |known|;
    assert EqIgnoreCase(key, "before") ==> known == "before" by {
      if EqIgnoreCase(key, "before") { assert Lower(key[0]) == 'b'; }
    }
    assert body[0] == key[0];
    SignSplit(negated, body, tail);
    if env.day(next).Some? {
      FilterTaken(env, key, gap, next, tail, negated, acc.filters);
      hide TakeFilter;
    } else {
      DateKeyStaysText(env, negated, key, known, gap, next, tail, acc);
    }
  }

  lemma DateKeyStaysText(env: Env, negated: bool, key: string, known: string, gap: string, next: string, tail: string,
                         acc: Parsed)
    requires known in ["after", "since", "before"] && EqIgnoreCase(key, known)
    requires Blank(gap) && gap != [] && next != [] && NoSpace(next) && Ends(tail) && env.day(next).None?
    requires HasAlnum(env, key + ":")
    ensures Round(env, Minus(negated) + (key + (":" + (gap + next))) + tail, acc)
            == (acc.(terms := acc.terms + [Term(AnyField, key + ":", false, negated)]), next + tail)
  {
    var head, more := key + ":", gap + (next + tail);
    var body := key + (":" + (gap + next));
    assert body + tail == head + more;
    assert body[0] == key[0] && Lower(key[0]) == Lower(known[0]);
    SignSplit(negated, body, tail);
    NoDateNoFilter(env, negated, key, known, gap, next, tail, acc.filters);
    KeyText(key, known, more);
    TrimStartBlank(gap, next + tail);
    Unspaced(next + tail, next);
    hide *;
    TermRound(env, Minus(negated) + body + tail, acc, negated, head + more, AnyField, head + more, head, false, more);
  }

  lemma NoDateNoFilter(env: Env, negated: bool, key: string, known: string, gap: string, next: string, tail: string,
                       f: Filters)
    requires known in ["after", "since", "before"] && EqIgnoreCase(key, known)
    requires Blank(gap) && gap != [] && next != [] && NoSpace(next) && Ends(tail) && env.day(next).None?
    ensures TakeFilter(env, key + (":" + (gap + next)) + tail, negated, f).None?
  {
    DateWords(key, gap, next, tail);
    hide FilterPair, TrimStart, IsDateKey, EqIgnoreCase;
  }

  lemma KeyText(key: string, known: string, more: string)
    requires known in ["after", "since", "before"] && EqIgnoreCase(key, known) && Ends(more)
    ensures StripField(key + ":" + more) == (AnyField, key + ":" + more)
    ensures TakeText(key + ":" + more) == (key + ":", false, more)
  {
    var head := key + ":";
    assert Plain(head);
    assert head[..|known|] == key;
    KeyIsNoField(head, known);
    WordNoField(head, more);
    PlainText(head, more);
  }

  lemma KeyIsNoField(head: string, known: string)
    requires known in ["after", "since", "before"] && |head| == |known| + 1 && StartsCi(head, known)
    ensures StripField(head).0 == AnyField
  {
    StartsFirst(head, known);
    var found := StripField(head).0;
    if found != AnyField {
      StartsFirst(head, FieldPrefix(found));
    }
  }

  // ---- What each filter token does, by its spelling ----------------------------------------------------

  lemma PairRound(env: Env, negated: bool, key: string, gap: string, val: string, tail: string, acc: Parsed)
    requires Blank(gap) && (gap != [] ==> IsDateKey(key)) && val != [] && NoSpace(val) && Ends(tail)
    requires FilterPair(env, key, val, negated, acc.filters).Some?
    ensures Round(env, Minus(negated) + (key + (":" + (gap + val))) + tail, acc)
            == (acc.(filters := FilterPair(env, key, val, negated, acc.filters).value), TrimStart(tail))
  {
    PairEitherWay(env, key, val, negated, acc.filters, negated, NO_FILTERS);
    hide FilterPair, Round, TrimStart, IsDateKey;
    var t := Filter(negated, key, gap, val);
    FilterRound(env, t, tail, acc);
  }

  /** A pair of two lower-case words, in any spelling. */
  lemma SpelledRound(env: Env, negated: bool, key: string, val: string, k: string, v: string, f: Filters, tail: string,
                     acc: Parsed)
    requires EqIgnoreCase(key, k) && EqIgnoreCase(val, v) && Ends(tail)
    requires v != [] && forall i :: 0 <= i < |v| ==> 'a' <= v[i] <= 'z'
    requires FilterPair(env, key, val, negated, acc.filters) == Some(f)
    ensures Round(env, Minus(negated) + (key + (":" + val)) + tail, acc) == (acc.(filters := f), TrimStart(tail))
  {
    assert NoSpace(val);
    hide Round, TrimStart, FilterPair, EqIgnoreCase;
    assert "" + val == val;
    PairRound(env, negated, key, "", val, tail, acc);
  }

  /** `is:unread` asks for unread mail and `is:read` for read mail, the other way round behind a minus. */
  lemma ReadStateRound(env: Env, negated: bool, key: string, val: string, unread: bool, tail: string, acc: Parsed)
    requires EqIgnoreCase(key, "is") && EqIgnoreCase(val, if unread then "unread" else "read") && Ends(tail)
    ensures Round(env, Minus(negated) + (key + (":" + val)) + tail, acc)
            == (acc.(filters := acc.filters.(unread := Some(unread != negated))), TrimStart(tail))
  {
    hide Round, TrimStart, Minus;
    var f := acc.filters.(unread := Some(unread != negated));
    assert FilterPair(env, key, val, negated, acc.filters) == Some(f);
    hide EqIgnoreCase, FilterPair;
    SpelledRound(env, negated, key, val, "is", if unread then "unread" else "read", f, tail, acc);
  }

  lemma StarRound(env: Env, negated: bool, key: string, val: string, starred: bool, tail: string, acc: Parsed)
    requires EqIgnoreCase(key, "is") && Ends(tail)
    requires if starred then EqIgnoreCase(val, "starred") || EqIgnoreCase(val, "flagged")
             else EqIgnoreCase(val, "unstarred") || EqIgnoreCase(val, "unflagged")
    ensures Round(env, Minus(negated) + (key + (":" + val)) + tail, acc)
            == (acc.(filters := acc.filters.(starred := Some(starred != negated))), TrimStart(tail))
  {
    hide Round, TrimStart, Minus;
    var f := acc.filters.(starred := Some(starred != negated));
    assert FilterPair(env, key, val, negated, acc.filters) == Some(f);
    hide EqIgnoreCase, FilterPair;
    if starred {
      SpelledRound(env, negated, key, val, "is", if EqIgnoreCase(val, "starred") then "starred" else "flagged", f, tail,
                   acc);
    } else {
      SpelledRound(env, negated, key, val, "is", if EqIgnoreCase(val, "unstarred") then "unstarred" else "unflagged", f,
                   tail, acc);
    }
  }

  lemma AttachmentRound(env: Env, negated: bool, key: string, val: string, tail: string, acc: Parsed)
    requires EqIgnoreCase(key, "has") && (EqIgnoreCase(val, "attachment") || EqIgnoreCase(val, "attachments"))
    requires Ends(tail)
    ensures Round(env, Minus(negated) + (key + (":" + val)) + tail, acc)
            == (acc.(filters := acc.filters.(hasAttachments := Some(!negated))), TrimStart(tail))
  {
    hide Round, TrimStart, Minus;
    var f := acc.filters.(hasAttachments := Some(!negated));
    assert FilterPair(env, key, val, negated, acc.filters) == Some(f);
    hide EqIgnoreCase, FilterPair;
    SpelledRound(env, negated, key, val, "has", if EqIgnoreCase(val, "attachment") then "attachment" else "attachments",
                 f, tail, acc);
  }

  /** A day behind its key sets one bound; a sign makes no difference. */
  lemma DateRound(env: Env, negated: bool, key: string, gap: string, val: string, before: bool, tail: string,
                  acc: Parsed)
    requires if before then EqIgnoreCase(key, "before") else EqIgnoreCase(key, "after") || EqIgnoreCase(key, "since")
    requires Blank(gap) && val != [] && NoSpace(val) && env.day(val).Some? && Ends(tail)
    ensures Round(env, Minus(negated) + (key + (":" + (gap + val))) + tail, acc)
            == (acc.(filters := if before then acc.filters.(before := env.day(val))
                                else acc.filters.(after := env.day(val))), TrimStart(tail))
  {
    hide Round, TrimStart;
    PairRound(env, negated, key, gap, val, tail, acc);
  }

  /** `from:`, `to:` and `subject:`, in any case and with blanks behind, send the word or phrase to their field. */
  lemma FieldTermRound(env: Env, negated: bool, field: Field, spelled: string, gap: string, text: string,
                       words: seq<string>, tail: string, acc: Parsed)
    requires || (field == FromField && EqIgnoreCase(spelled, "from:"))
             || (field == ToField && EqIgnoreCase(spelled, "to:"))
             || (field == SubjectField && EqIgnoreCase(spelled, "subject:"))
    requires Blank(gap) && Plain(text) && HasAlnum(env, text) && Ends(tail)
    requires words != [] && (forall i :: 0 <= i < |words| ==> Plain(words[i])) && HasAlnum(env, JoinSpaced(words))
    ensures Round(env, Minus(negated) + (spelled + (gap + text)) + tail, acc)
            == (acc.(terms := acc.terms + [Term(field, text, false, negated)]), TrimStart(tail))
    ensures Round(env, Minus(negated) + (spelled + (gap + ("\"" + JoinSpaced(words) + "\""))) + tail, acc)
            == (acc.(terms := acc.terms + [Term(field, JoinSpaced(words), true, negated)]), TrimStart(tail))
  {
    hide EqIgnoreCase, Round, TrimStart, HasAlnum, Plain, JoinSpaced;
    WordRound(env, Word(negated, field, spelled, gap, text), tail, acc);
    PhraseRound(env, Phrase(negated, field, spelled, gap, words), tail, acc);
  }

  /** The pairs that are filters. */
  ghost predicate Spelled(env: Env, key: string, val: string) {
    || (EqIgnoreCase(key, "is")
        && (EqIgnoreCase(val, "unread") || EqIgnoreCase(val, "read") || EqIgnoreCase(val, "starred")
            || EqIgnoreCase(val, "flagged") || EqIgnoreCase(val, "unstarred") || EqIgnoreCase(val, "unflagged")))
    || (EqIgnoreCase(key, "has") && (EqIgnoreCase(val, "attachment") || EqIgnoreCase(val, "attachments")))
    || (DateSpelled(key) && env.day(val).Some?)
  }

  ghost predicate DateSpelled(key: string) {
    EqIgnoreCase(key, "after") || EqIgnoreCase(key, "since") || EqIgnoreCase(key, "before")
  }

  ghost predicate NoPair(env: Env, word: string, tail: string) {
    var colon := Find(word, ':');
    colon < |word| && word[0] != '"' ==>
      && !Spelled(env, word[..colon], word[colon + 1..])
      && (DateSpelled(word[..colon]) && word[colon + 1..] == [] ==> Blank(tail))
  }

  /** Nothing else is a filter: any other word, and a date key with nothing behind it, leaves the filters alone. */
  lemma NothingElseFilters(env: Env, negated: bool, word: string, tail: string, acc: Parsed)
    requires NoSpace(word) && Ends(tail) && (negated || (word != [] && word[0] != '-'))
    requires NoPair(env, word, tail)
    ensures Round(env, Minus(negated) + word + tail, acc).0.filters == acc.filters
  {
    NotTaken(env, word, tail, negated, acc.filters);
    hide *;
    var rest := Minus(negated) + word + tail;
    SignOff(negated, word, tail);
    UntakenRound(env, rest, acc);
  }

  lemma SignOff(negated: bool, word: string, tail: string)
    requires negated || (word != [] && word[0] != '-')
    ensures var rest := Minus(negated) + word + tail;
            rest != [] && (rest[0] == '-' <==> negated) && (if negated then rest[1..] else rest) == word + tail
  {
    var rest := Minus(negated) + word + tail;
    if negated { assert rest[1..] == word + tail; } else { assert rest == word + tail; }
  }

  lemma UntakenRound(env: Env, rest: string, acc: Parsed)
    requires rest != []
    requires TakeFilter(env, if rest[0] == '-' then rest[1..] else rest, rest[0] == '-', acc.filters).None?
    ensures Round(env, rest, acc).0.filters == acc.filters
  {
    hide TakeFilter, TrimStart, StripField, TakeText, HasAlnum;
  }

  lemma NotTaken(env: Env, word: string, tail: string, n: bool, f: Filters)
    requires NoSpace(word) && Ends(tail)
    requires NoPair(env, word, tail)
    ensures TakeFilter(env, word + tail, n, f).None?
  {
    WordEnd(word, tail);
    var colon := Find(word, ':');
    if colon < |word| {
      assert (word + tail)[0] == word[0];
      NotSpelled(env, word[..colon], word[colon + 1..], n, f);
      if Blank(tail) {
        TrimStartBlank(tail, "");
        assert tail + "" == tail;
      }
    }
    hide FilterPair, TrimStart, EqIgnoreCase, IsDateKey, Spelled, DateSpelled, NoSpace, Blank;
  }

  lemma NotSpelled(env: Env, k: string, v: string, n: bool, f: Filters)
    ensures FilterPair(env, k, v, n, f).Some? == Spelled(env, k, v)
    ensures IsDateKey(k) == DateSpelled(k)
  {
    KeysDiffer(k);
    hide EqIgnoreCase;
  }

  lemma KeysDiffer(k: string)
    ensures EqIgnoreCase(k, "is") ==> !EqIgnoreCase(k, "has") && !DateSpelled(k)
    ensures EqIgnoreCase(k, "has") ==> !DateSpelled(k)
    ensures EqIgnoreCase(k, "before") ==> !EqIgnoreCase(k, "after") && !EqIgnoreCase(k, "since")
  {
  }

  lemma ValuesDiffer(v: string)
    ensures EqIgnoreCase(v, "unread") || EqIgnoreCase(v, "read") ==>
              && !EqIgnoreCase(v, "starred") && !EqIgnoreCase(v, "flagged")
              && !EqIgnoreCase(v, "unstarred") && !EqIgnoreCase(v, "unflagged")
    ensures EqIgnoreCase(v, "unread") ==> !EqIgnoreCase(v, "read")
    ensures EqIgnoreCase(v, "starred") || EqIgnoreCase(v, "flagged") ==>
              !EqIgnoreCase(v, "unstarred") && !EqIgnoreCase(v, "unflagged")
  {
  }

  // ---- The last token of a kind decides ----------------------------------------------------------------

  lemma {:induction false} Untouched<X>(env: Env, ts: seq<Spaced>, acc: Parsed, col: Filters -> X,
                                        touches: Token -> bool)
    requires forall t, a :: !touches(t) ==> col(Apply(env, t, a).filters) == col(a.filters)
    requires forall j :: 0 <= j < |ts| ==> !touches(ts[j].token)
    ensures col(ApplyAll(env, ts, acc).filters) == col(acc.filters)
  {
    hide Apply;
    if ts != [] { Untouched(env, ts[1..], Apply(env, ts[0].token, acc), col, touches); }
  }

  lemma {:induction false} LastDecides<X>(env: Env, ts: seq<Spaced>, acc: Parsed, k: nat, col: Filters -> X,
                                          touches: Token -> bool, want: X)
    requires forall t, a :: !touches(t) ==> col(Apply(env, t, a).filters) == col(a.filters)
    requires k < |ts| && forall j :: k < j < |ts| ==> !touches(ts[j].token)
    requires forall a :: col(Apply(env, ts[k].token, a).filters) == want
    ensures col(ApplyAll(env, ts, acc).filters) == want
    decreases k
  {
    hide Apply;
    var next := Apply(env, ts[0].token, acc);
    if k == 0 {
      Untouched(env, ts[1..], next, col, touches);
    } else {
      LastDecides(env, ts[1..], next, k - 1, col, touches, want);
    }
  }

  predicate SaysRead(t: Token, unread: bool) {
    t.Filter? && EqIgnoreCase(t.key, "is") && EqIgnoreCase(t.val, if unread then "unread" else "read")
  }

  predicate SaysStar(t: Token, starred: bool) {
    && t.Filter? && EqIgnoreCase(t.key, "is")
    && if starred then EqIgnoreCase(t.val, "starred") || EqIgnoreCase(t.val, "flagged")
       else EqIgnoreCase(t.val, "unstarred") || EqIgnoreCase(t.val, "unflagged")
  }

  predicate SaysAttachment(t: Token) {
    && t.Filter? && EqIgnoreCase(t.key, "has")
    && (EqIgnoreCase(t.val, "attachment") || EqIgnoreCase(t.val, "attachments"))
  }

  predicate SaysDay(t: Token, before: bool) {
    && t.Filter?
    && if before then EqIgnoreCase(t.key, "before") else EqIgnoreCase(t.key, "after") || EqIgnoreCase(t.key, "since")
  }

  /** What one token does to each filter. */
  lemma TokenSets(env: Env, t: Token, a: Parsed)
    ensures var f := Apply(env, t, a).filters;
            && (SaysRead(t, true) ==> f.unread == Some(!t.negated))
            && (SaysRead(t, false) ==> f.unread == Some(t.negated))
            && (!SaysRead(t, true) && !SaysRead(t, false) ==> f.unread == a.filters.unread)
            && (SaysStar(t, true) ==> f.starred == Some(!t.negated))
            && (SaysStar(t, false) ==> f.starred == Some(t.negated))
            && (!SaysStar(t, true) && !SaysStar(t, false) ==> f.starred == a.filters.starred)
            && f.hasAttachments == (if SaysAttachment(t) then Some(!t.negated) else a.filters.hasAttachments)
  {
    if t.Filter? {
      KeysDiffer(t.key);
      ValuesDiffer(t.val);
    }
    hide EqIgnoreCase;
  }

  lemma TokenSetsDay(env: Env, t: Token, a: Parsed)
    ensures var f := Apply(env, t, a).filters;
            && f.before == (if SaysDay(t, true) && env.day(t.val).Some? then env.day(t.val) else a.filters.before)
            && f.after == (if SaysDay(t, false) && env.day(t.val).Some? then env.day(t.val) else a.filters.after)
  {
    if t.Filter? { KeysDiffer(t.key); }
    hide EqIgnoreCase;
  }

  lemma LastReadState(env: Env, lead: string, ts: seq<Spaced>, k: nat, unread: bool)
    requires Blank(lead) && AllValid(env, ts) && k < |ts| && SaysRead(ts[k].token, unread)
    requires forall j :: k < j < |ts| ==> !SaysRead(ts[j].token, true) && !SaysRead(ts[j].token, false)
    ensures ParseQuery(env, lead + PrintAll(ts)).filters.unread == Some(unread != ts[k].token.negated)
  {
    QueryRoundTrip(env, lead, ts);
    forall t, a { TokenSets(env, t, a); }
    hide *;
    LastDecides(env, ts, Parsed([], NO_FILTERS), k, (f: Filters) => f.unread,
                (t: Token) => SaysRead(t, true) || SaysRead(t, false), Some(unread != ts[k].token.negated));
  }

  lemma LastStar(env: Env, lead: string, ts: seq<Spaced>, k: nat, starred: bool)
    requires Blank(lead) && AllValid(env, ts) && k < |ts| && SaysStar(ts[k].token, starred)
    requires forall j :: k < j < |ts| ==> !SaysStar(ts[j].token, true) && !SaysStar(ts[j].token, false)
    ensures ParseQuery(env, lead + PrintAll(ts)).filters.starred == Some(starred != ts[k].token.negated)
  {
    QueryRoundTrip(env, lead, ts);
    forall t, a { TokenSets(env, t, a); }
    hide *;
    LastDecides(env, ts, Parsed([], NO_FILTERS), k, (f: Filters) => f.starred,
                (t: Token) => SaysStar(t, true) || SaysStar(t, false), Some(starred != ts[k].token.negated));
  }

  lemma LastAttachment(env: Env, lead: string, ts: seq<Spaced>, k: nat)
    requires Blank(lead) && AllValid(env, ts) && k < |ts| && SaysAttachment(ts[k].token)
    requires forall j :: k < j < |ts| ==> !SaysAttachment(ts[j].token)
    ensures ParseQuery(env, lead + PrintAll(ts)).filters.hasAttachments == Some(!ts[k].token.negated)
  {
    QueryRoundTrip(env, lead, ts);
    forall t, a { TokenSets(env, t, a); }
    hide *;
    LastDecides(env, ts, Parsed([], NO_FILTERS), k, (f: Filters) => f.hasAttachments, (t: Token) => SaysAttachment(t),
                Some(!ts[k].token.negated));
  }

  lemma LastDay(env: Env, lead: string, ts: seq<Spaced>, k: nat, before: bool)
    requires Blank(lead) && AllValid(env, ts) && k < |ts| && SaysDay(ts[k].token, before)
    requires forall j :: k < j < |ts| ==> !SaysDay(ts[j].token, before)
    ensures env.day(ts[k].token.val).Some?
    ensures var f := ParseQuery(env, lead + PrintAll(ts)).filters;
            (if before then f.before else f.after) == env.day(ts[k].token.val)
  {
    QueryRoundTrip(env, lead, ts);
    assert Valid(env, ts[k].token);
    KeysDiffer(ts[k].token.key);
    forall t, a { TokenSetsDay(env, t, a); }
    hide EqIgnoreCase;
    assert env.day(ts[k].token.val).Some?;
    hide *;
    LastDecides(env, ts, Parsed([], NO_FILTERS), k, (f: Filters) => if before then f.before else f.after,
                (t: Token) => SaysDay(t, before), env.day(ts[k].token.val));
  }

  /** Without a filter token there are no filters. */
  lemma NothingAsked(env: Env, lead: string, ts: seq<Spaced>)
    requires Blank(lead) && AllValid(env, ts) && forall j :: 0 <= j < |ts| ==> !ts[j].token.Filter?
    ensures var f := ParseQuery(env, lead + PrintAll(ts)).filters;
            f.unread.None? && f.starred.None? && f.hasAttachments.None? && f.after.None? && f.before.None?
  {
    QueryRoundTrip(env, lead, ts);
    Untouched(env, ts, Parsed([], NO_FILTERS), (f: Filters) => f, (t: Token) => t.Filter?);
    hide ParseQuery, PrintAll, AllValid;
  }
}
