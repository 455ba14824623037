/** The search query language: a total parser for free text, terms and filter tokens. */
module Query {
  import opened Text

  datatype Field = AnyField | FromField | ToField | SubjectField

  datatype Term = Term(field: Field, text: string, phrase: bool, negated: bool)

  datatype Filters = Filters(
    unread: Option<bool>, starred: Option<bool>, hasAttachments: Option<bool>,
    after: Option<string>, before: Option<string>)

  datatype Parsed = Parsed(terms: seq<Term>, filters: Filters)

  const NO_FILTERS := Filters(None, None, None, None, None)

  /** What the parser takes from outside: the date reader and the Unicode class of letters and digits. */
  datatype Env = Env(day: string -> Option<string>, alnum: char -> bool)

  function FieldPrefix(f: Field): string {
    match f
    case AnyField => ""
    case FromField => "from:"
    case ToField => "to:"
    case SubjectField => "subject:"
  }

  predicate StartsCi(s: string, prefix: string) {
    |prefix| <= |s| && EqIgnoreCase(s[..|prefix|], prefix)
  }

  /** `strip_field` */
  function StripField(s: string): (r: (Field, string))
    ensures r.0 == AnyField ==> r.1 == s
    ensures r.0 != AnyField ==> |r.1| < |s| && StartsCi(s, FieldPrefix(r.0)) && r.1 == s[|FieldPrefix(r.0)|..]
  {
    if StartsCi(s, "from:") then (FromField, s[5..])
    else if StartsCi(s, "to:") then (ToField, s[3..])
    else if StartsCi(s, "subject:") then (SubjectField, s[8..])
    else (AnyField, s)
  }

  /** `clean`: quotes and stars are never searched for. */
  function Clean(word: string): string {
    if word == [] then []
    else (if word[0] == '"' || word[0] == '*' then [] else [word[0]]) + Clean(word[1..])
  }

  /** `split_whitespace` */
  function Words(s: string): seq<string>
    decreases |s|
  {
    TrimStartShape(s);
    var t := TrimStart(s);
    if t == [] then []
    else
      var end := FindSpace(t);
      [t[..end]] + Words(t[end..])
  }

  function CleanAll(words: seq<string>): seq<string> {
    if words == [] then [] else [Clean(words[0])] + CleanAll(words[1..])
  }

  function JoinSpaced(words: seq<string>): string {
    if words == [] then []
    else if |words| == 1 then words[0]
    else words[0] + " " + JoinSpaced(words[1..])
  }

  predicate IsDateKey(key: string) {
    EqIgnoreCase(key, "after") || EqIgnoreCase(key, "since") || EqIgnoreCase(key, "before")
  }

  /** `try_parse_filter_pair`: the filters after the pair, or None when it is not one. */
  function FilterPair(env: Env, key: string, val: string, negated: bool, filters: Filters): Option<Filters> {
    if EqIgnoreCase(key, "is") then
      if EqIgnoreCase(val, "unread") then Some(filters.(unread := Some(!negated)))
      else if EqIgnoreCase(val, "read") then Some(filters.(unread := Some(negated)))
      else if EqIgnoreCase(val, "starred") || EqIgnoreCase(val, "flagged")
      then Some(filters.(starred := Some(!negated)))
      else if EqIgnoreCase(val, "unstarred") || EqIgnoreCase(val, "unflagged")
      then Some(filters.(starred := Some(negated)))
      else None
    else if EqIgnoreCase(key, "has") then
      if EqIgnoreCase(val, "attachment") || EqIgnoreCase(val, "attachments")
      then Some(filters.(hasAttachments := Some(!negated)))
      else None
    else if EqIgnoreCase(key, "after") || EqIgnoreCase(key, "since") then
      var d := env.day(val);
      if d.Some? then Some(filters.(after := d)) else None
    else if EqIgnoreCase(key, "before") then
      var d := env.day(val);
      if d.Some? then Some(filters.(before := d)) else None
    else None
  }

  /** A filter at the front of `candidate`: the filters after it and the text behind it. */
  function TakeFilter(env: Env, candidate: string, negated: bool, filters: Filters): Option<(Filters, string)> {
    if candidate != [] && candidate[0] == '"' then None
    else
      var end := FindSpace(candidate);
      var word := candidate[..end];
      var colon := Find(word, ':');
      if colon == |word| then None
      else
        var k, v := word[..colon], word[colon + 1..];
        if v == [] && IsDateKey(k) then
          var afterColon := TrimStart(candidate[end..]);
          var valEnd := FindSpace(afterColon);
          var next := afterColon[..valEnd];
          if next == [] then None
          else match FilterPair(env, k, next, negated, filters)
               case None => None
               case Some(f) => Some((f, TrimStart(afterColon[valEnd..])))
        else match FilterPair(env, k, v, negated, filters)
             case None => None
             case Some(f) => Some((f, TrimStart(candidate[end..])))
  }

  /** A term at the front of `rest`: its text, whether it is a phrase, and what follows. */
  function TakeText(rest: string): (string, bool, string) {
    if rest != [] && rest[0] == '"' then
      var r := rest[1..];
      var end := Find(r, '"');
      (JoinSpaced(CleanAll(Words(r[..end]))), true, if end + 1 <= |r| then r[end + 1..] else "")
    else
      var end := FindSpace(rest);
      (Clean(rest[..end]), false, rest[end..])
  }

  predicate HasAlnum(env: Env, text: string) {
    exists i :: 0 <= i < |text| && env.alnum(text[i])
  }

  /** One round of the parser's loop on a nonempty `rest`. */
  function Round(env: Env, rest: string, acc: Parsed): (Parsed, string)
    requires rest != []
  {
    var negated := rest[0] == '-';
    var candidate := if negated then rest[1..] else rest;
    match TakeFilter(env, candidate, negated, acc.filters)
    case Some((f, after)) => (acc.(filters := f), after)
    case None =>
      var (field, r) := StripField(candidate);
      var body := if field == AnyField then candidate else TrimStart(r);
      var (text, phrase, after) := TakeText(body);
      (if HasAlnum(env, text) then acc.(terms := acc.terms + [Term(field, text, phrase, negated)]) else acc,
       TrimStart(after))
  }

  /** Each round consumes input, even after a lone `-` or an empty field prefix. */
  lemma RoundConsumes(env: Env, rest: string, acc: Parsed)
    requires rest != [] && !IsSpace(rest[0])
    ensures var (_, after) := Round(env, rest, acc);
            |after| < |rest| && (after != [] ==> !IsSpace(after[0]))
  {
    hide FilterPair, Words, IsDateKey, HasAlnum;
    var negated := rest[0] == '-';
    var candidate := if negated then rest[1..] else rest;
    var t := TakeFilter(env, candidate, negated, acc.filters);
    if t.Some? {
      FilterConsumes(env, candidate, negated, acc.filters);
    } else {
      var (field, r) := StripField(candidate);
      hide TakeFilter, StripField;
      TrimStartShape(r);
      var body := if field == AnyField then candidate else TrimStart(r);
      var (_, _, after) := TakeText(body);
      TrimStartShape(after);
      assert field == AnyField && !negated ==> body == rest;
    }
  }

  lemma FilterConsumes(env: Env, candidate: string, negated: bool, filters: Filters)
    requires TakeFilter(env, candidate, negated, filters).Some?
    ensures var after := TakeFilter(env, candidate, negated, filters).value.1;
            |after| < |candidate| && (after != [] ==> !IsSpace(after[0]))
  {
    hide FilterPair, IsDateKey;
    var end := FindSpace(candidate);
    TrimStartShape(candidate[end..]);
    var afterColon := TrimStart(candidate[end..]);
    TrimStartShape(afterColon[FindSpace(afterColon)..]);
  }

  /** The loop from `rest` on, with what was gathered before. */
  function ParseFrom(env: Env, rest: string, acc: Parsed): Parsed
    requires rest != [] ==> !IsSpace(rest[0])
    decreases |rest|
  {
    if rest == [] then acc
    else
      RoundConsumes(env, rest, acc);
      var (next, after) := Round(env, rest, acc);
      ParseFrom(env, after, next)
  }

  function ParseQuery(env: Env, raw: string): Parsed {
    TrimStartShape(raw);
    ParseFrom(env, TrimStart(raw), Parsed([], NO_FILTERS))
  }

  /** `parse_query_full`: the loop that advances `rest` and fills `terms` and `filters`. */
  method ParseQueryFull(env: Env, raw: string) returns (r: Parsed)
    ensures r == ParseQuery(env, raw)
  {
    hide FilterPair, Words, IsDateKey, HasAlnum, StripField, TrimStart, Clean, CleanAll, JoinSpaced;
    hide ParseFrom, TakeFilter, TakeText;
    var terms: seq<Term> := [];
    var filters := NO_FILTERS;
    TrimStartShape(raw);
    var rest := TrimStart(raw);
    while rest != []
      invariant rest != [] ==> !IsSpace(rest[0])
      invariant ParseFrom(env, rest, Parsed(terms, filters)) == ParseQuery(env, raw)
      decreases |rest|
    {
      ParseStep(env, rest, Parsed(terms, filters));
      RoundConsumes(env, rest, Parsed(terms, filters));
      ghost var (next, left) := Round(env, rest, Parsed(terms, filters));
      var negated := rest[0] == '-';
      var candidate := if negated then rest[1..] else rest;

      var taken := ReadFilter(env, candidate, negated, filters);
      if taken.Some? {
        filters, rest := taken.value.0, taken.value.1;
        continue;
      }
      rest := candidate;
      var (field, r) := StripField(rest);
      if field != AnyField {
        rest := TrimStart(r);
      }
      var text, phrase, after := ReadText(rest);
      rest := TrimStart(after);
      if HasAlnum(env, text) {
        terms := terms + [Term(field, text, phrase, negated)];
      }
    }
    ParseDone(env, Parsed(terms, filters));
    r := Parsed(terms, filters);
  }

  /** The filter half of a round: only a whole valid pair is taken, so no other word is swallowed. */
  method ReadFilter(env: Env, candidate: string, negated: bool, filters: Filters) returns (r: Option<(Filters, string)>)
    ensures r == TakeFilter(env, candidate, negated, filters)
  {
    hide FilterPair, IsDateKey, TrimStart;
    if candidate != [] && candidate[0] == '"' {
      return None;
    }
    var end := FindSpace(candidate);
    var word := candidate[..end];
    var colon := Find(word, ':');
    if colon < |word| {
      var k, v := word[..colon], word[colon + 1..];
      if v == [] && IsDateKey(k) {
        var afterColon := TrimStart(candidate[end..]);
        var valEnd := FindSpace(afterColon);
        var nextWord := afterColon[..valEnd];
        if nextWord != [] {
          var f := FilterPair(env, k, nextWord, negated, filters);
          if f.Some? {
            return Some((f.value, TrimStart(afterColon[valEnd..])));
          }
        }
      } else {
        var f := FilterPair(env, k, v, negated, filters);
        if f.Some? {
          return Some((f.value, TrimStart(candidate[end..])));
        }
      }
    }
    r := None;
  }

  /** The text half: an unclosed quote runs to the end of the input. */
  method ReadText(rest: string) returns (text: string, phrase: bool, after: string)
    ensures (text, phrase, after) == TakeText(rest)
  {
    if rest != [] && rest[0] == '"' {
      var r := rest[1..];
      var end := Find(r, '"');
      text := JoinSpaced(CleanAll(Words(r[..end])));
      phrase := true;
      after := if end + 1 <= |r| then r[end + 1..] else "";
    } else {
      var end := FindSpace(rest);
      text, phrase, after := Clean(rest[..end]), false, rest[end..];
    }
  }

  lemma ParseStep(env: Env, rest: string, acc: Parsed)
    requires rest != [] && !IsSpace(rest[0])
    ensures var (next, after) := Round(env, rest, acc);
            (after != [] ==> !IsSpace(after[0])) && ParseFrom(env, rest, acc) == ParseFrom(env, after, next)
  {
    hide Round;
    RoundConsumes(env, rest, acc);
  }

  lemma ParseDone(env: Env, acc: Parsed)
    ensures ParseFrom(env, "", acc) == acc
  {
  }

  // ---- What every term looks like ------------------------------------------------------------------

  predicate NoQuoteOrStar(s: string) {
    forall i :: 0 <= i < |s| ==> s[i] != '"' && s[i] != '*'
  }

  predicate WellFormed(env: Env, t: Term) {
    NoQuoteOrStar(t.text) && HasAlnum(env, t.text)
  }

  predicate AllWellFormed(env: Env, terms: seq<Term>) {
    forall i :: 0 <= i < |terms| ==> WellFormed(env, terms[i])
  }

  lemma {:induction false} CleanShape(word: string)
    ensures NoQuoteOrStar(Clean(word))
    ensures NoQuoteOrStar(word) ==> Clean(word) == word
  {
    if word != [] {
      CleanShape(word[1..]);
      assert NoQuoteOrStar(word) ==> NoQuoteOrStar(word[1..]);
    }
  }

  lemma {:induction false} JoinedClean(words: seq<string>)
    ensures NoQuoteOrStar(JoinSpaced(CleanAll(words)))
  {
    if words != [] {
      CleanShape(words[0]);
      JoinedClean(words[1..]);
    }
  }

  lemma RoundKeepsWellFormed(env: Env, rest: string, acc: Parsed)
    requires rest != [] && AllWellFormed(env, acc.terms)
    ensures AllWellFormed(env, Round(env, rest, acc).0.terms)
  {
    hide TakeFilter, StripField, HasAlnum, TakeText, NoQuoteOrStar, TrimStart;
    var candidate := if rest[0] == '-' then rest[1..] else rest;
    var (field, r) := StripField(candidate);
    var body := if field == AnyField then candidate else TrimStart(r);
    TextClean(body);
  }

  lemma TextClean(body: string)
    ensures NoQuoteOrStar(TakeText(body).0)
  {
    hide NoQuoteOrStar, Words;
    if body != [] && body[0] == '"' {
      var q := body[1..];
      JoinedClean(Words(q[..Find(q, '"')]));
    } else {
      CleanShape(body[..FindSpace(body)]);
    }
  }

  lemma {:induction false} ParseFromWellFormed(env: Env, rest: string, acc: Parsed)
    requires rest != [] ==> !IsSpace(rest[0])
    requires AllWellFormed(env, acc.terms)
    ensures AllWellFormed(env, ParseFrom(env, rest, acc).terms)
    decreases |rest|
  {
    hide Round, AllWellFormed;
    if rest != [] {
      RoundConsumes(env, rest, acc);
      RoundKeepsWellFormed(env, rest, acc);
      var (next, after) := Round(env, rest, acc);
      ParseFromWellFormed(env, after, next);
    }
  }

  /** Whatever is typed: no term holds a quote or a star, and every term holds a letter or digit. */
  lemma TermsWellFormed(env: Env, raw: string)
    ensures AllWellFormed(env, ParseQuery(env, raw).terms)
  {
    hide ParseFrom;
    TrimStartShape(raw);
    ParseFromWellFormed(env, TrimStart(raw), Parsed([], NO_FILTERS));
  }
}
