/** Full-text expressions: what the query compiler prints, and how FTS5 reads it back. */
module Fts {
  import opened Text
  import opened Query

  /** A column filter, a phrase and whether its last word is a prefix; no columns means all of them. */
  datatype Atom = Atom(columns: seq<string>, text: string, prefix: bool)

  datatype Expr = Leaf(atom: Atom) | And(l: Expr, r: Expr) | Or(l: Expr, r: Expr) | Not(l: Expr, r: Expr)

  datatype Tok = LP | RP | LCB | RCB | Colon | Star | KwAnd | KwOr | KwNot | Str(text: string) | Other

  // ---- The compiler ----------------------------------------------------------------------------------

  function Columns(f: Field): seq<string> {
    match f
    case AnyField => []
    case FromField => ["from_addr", "from_name"]
    case ToField => ["to_addrs", "cc_addrs", "bcc_addrs"]
    case SubjectField => ["subject"]
  }

  function AtomOf(t: Term): Atom {
    Atom(Columns(t.field), t.text, !t.phrase)
  }

  function NamesText(names: seq<string>): string
    requires names != []
  {
    if |names| == 1 then names[0] else names[0] + (" " + NamesText(names[1..]))
  }

  /** `{from_addr from_name} : ` and the like. */
  function ColumnFilter(f: Field): string {
    if f == AnyField then "" else "{" + (NamesText(Columns(f)) + "} : ")
  }

  /** `text.replace('"', "\"\"")` */
  function Doubled(text: string): string {
    if text == [] then [] else (if text[0] == '"' then "\"\"" else [text[0]]) + Doubled(text[1..])
  }

  /** `fts_term` */
  function FtsTerm(t: Term): string {
    ColumnFilter(t.field) + ("\"" + (Doubled(t.text) + ("\"" + (if t.phrase then "" else "*"))))
  }

  function JoinTerms(terms: seq<Term>, sep: string): string {
    if terms == [] then ""
    else if |terms| == 1 then FtsTerm(terms[0])
    else FtsTerm(terms[0]) + (sep + JoinTerms(terms[1..], sep))
  }

  function Signed(terms: seq<Term>, negated: bool): (r: seq<Term>)
    ensures forall t :: t in r <==> t in terms && t.negated == negated
  {
    if terms == [] then []
    else (if terms[0].negated == negated then [terms[0]] else []) + Signed(terms[1..], negated)
  }

  /** `query` after wrapping it once for each of the last `|nots|` exclusions. */
  function WithNots(query: string, nots: seq<Term>): string {
    if nots == [] then query
    else "(" + (WithNots(query, nots[..|nots| - 1]) + (") NOT " + FtsTerm(nots[|nots| - 1])))
  }

  function FtsQuery(terms: seq<Term>): Option<string> {
    var query := JoinTerms(Signed(terms, false), " ");
    if query == "" then None else Some(WithNots(query, Signed(terms, true)))
  }

  /** `fts_exclusions` */
  function FtsExclusions(terms: seq<Term>): Option<string> {
    var query := JoinTerms(Signed(terms, true), " OR ");
    if query == "" then None else Some(query)
  }

  /** `fts_query`: the loop that rewrites `query`. */
  method CompileQuery(terms: seq<Term>) returns (r: Option<string>)
    ensures r == FtsQuery(terms)
  {
    var query := JoinTerms(Signed(terms, false), " ");
    if query == "" {
      return None;
    }
    ghost var start := query;
    var nots := Signed(terms, true);
    assert WithNots(start, nots[..0]) == start && nots[..|nots|] == nots;
    assert FtsQuery(terms) == Some(WithNots(start, nots));
    hide *;
    for i := 0 to |nots|
      invariant query == WithNots(start, nots[..i])
    {
      NotsMore(start, nots, i);
      query := "(" + (query + (") NOT " + FtsTerm(nots[i])));
    }
    r := Some(query);
  }

  lemma NotsMore(query: string, nots: seq<Term>, i: nat)
    requires i < |nots|
    ensures WithNots(query, nots[..i + 1]) == "(" + (WithNots(query, nots[..i]) + (") NOT " + FtsTerm(nots[i])))
  {
    hide FtsTerm;
    assert nots[..i + 1][..i] == nots[..i];
  }

  // ---- FTS5's scanner ----------------------------------------------------------------------------------

  predicate FtsSpace(c: char) {
    c == ' ' || c == '\t' || c == '\n' || c == '\r'
  }

  predicate BareChar(c: char) {
    'a' <= c <= 'z' || 'A' <= c <= 'Z' || '0' <= c <= '9' || c == '_' || c == '\U{1A}' || c >= '\U{80}'
  }

  function BareRun(s: string): (n: nat)
    ensures n <= |s|
    ensures forall i :: 0 <= i < n ==> BareChar(s[i])
    ensures n < |s| ==> !BareChar(s[n])
  {
    if s == [] || !BareChar(s[0]) then 0 else 1 + BareRun(s[1..])
  }

  /** A quoted string up to its closing quote, doubled quotes read as one. */
  function ReadString(s: string): (r: Option<(string, string)>)
    ensures r.Some? ==> |r.value.1| < |s|
    decreases |s|
  {
    if s == [] then None
    else if s[0] != '"' then
      match ReadString(s[1..]) case None => None case Some((text, rest)) => Some(([s[0]] + text, rest))
    else if |s| > 1 && s[1] == '"' then
      match ReadString(s[2..]) case None => None case Some((text, rest)) => Some(("\"" + text, rest))
    else Some(("", s[1..]))
  }

  function BareTok(word: string): Tok {
    if word == "AND" then KwAnd else if word == "OR" then KwOr else if word == "NOT" then KwNot else Str(word)
  }

  function MarkTok(c: char): Option<Tok> {
    if c == '(' then Some(LP) else if c == ')' then Some(RP)
    else if c == '{' then Some(LCB) else if c == '}' then Some(RCB)
    else if c == ':' then Some(Colon) else if c == '*' then Some(Star)
    else if c == ',' || c == '+' || c == '-' || c == '^' then Some(Other) else None
  }

  function Prepend(toks: seq<Tok>, rest: Option<seq<Tok>>): Option<seq<Tok>> {
    match rest case None => None case Some(r) => Some(toks + r)
  }

  function Lex(s: string): Option<seq<Tok>>
    decreases |s|
  {
    if s == [] then Some([])
    else if FtsSpace(s[0]) then Lex(s[1..])
    else if MarkTok(s[0]).Some? then Prepend([MarkTok(s[0]).value], Lex(s[1..]))
    else if s[0] == '"' then
      match ReadString(s[1..]) case None => None case Some((text, rest)) => Prepend([Str(text)], Lex(rest))
    else
      var n := BareRun(s);
      if n == 0 then None else Prepend([BareTok(s[..n])], Lex(s[n..]))
  }

  // ---- FTS5's grammar: NOT binds tighter than AND, AND tighter than OR; adjacent phrases are ANDed ------

  function Names(toks: seq<Tok>): (r: (seq<string>, seq<Tok>))
    ensures |r.1| <= |toks|
  {
    if toks != [] && toks[0].Str? then
      var (names, rest) := Names(toks[1..]);
      ([toks[0].text] + names, rest)
    else ([], toks)
  }

  predicate StartsAtom(toks: seq<Tok>) {
    toks != [] && (toks[0].Str? || toks[0] == LCB)
  }

  /** A phrase, with `*` or without. */
  function ParsePhrase(columns: seq<string>, toks: seq<Tok>): (r: Option<(Expr, seq<Tok>)>)
    ensures r.Some? ==> |r.value.1| < |toks|
  {
    if toks == [] || !toks[0].Str? then None
    else if |toks| > 1 && toks[1] == Star then Some((Leaf(Atom(columns, toks[0].text, true)), toks[2..]))
    else Some((Leaf(Atom(columns, toks[0].text, false)), toks[1..]))
  }

  function ParseAtom(toks: seq<Tok>): (r: Option<(Expr, seq<Tok>)>)
    ensures r.Some? ==> |r.value.1| < |toks|
  {
    if toks != [] && toks[0] == LCB then
      var (names, rest) := Names(toks[1..]);
      if names != [] && |rest| > 1 && rest[0] == RCB && rest[1] == Colon then ParsePhrase(names, rest[2..]) else None
    else if |toks| > 1 && toks[0].Str? && toks[1] == Colon then ParsePhrase([toks[0].text], toks[2..])
    else ParsePhrase([], toks)
  }

  /** Further phrases right behind `e`: an implicit AND. */
  function ParseMore(e: Expr, toks: seq<Tok>): (r: Option<(Expr, seq<Tok>)>)
    ensures r.Some? ==> |r.value.1| <= |toks|
    decreases |toks|
  {
    if !StartsAtom(toks) then Some((e, toks))
    else match ParseAtom(toks) case None => None case Some((a, rest)) => ParseMore(And(e, a), rest)
  }

  function ParsePrimary(toks: seq<Tok>): (r: Option<(Expr, seq<Tok>)>)
    ensures r.Some? ==> |r.value.1| < |toks|
    decreases |toks|, 0
  {
    if toks != [] && toks[0] == LP then
      match ParseOr(toks[1..])
      case None => None
      case Some((e, rest)) => if rest != [] && rest[0] == RP then Some((e, rest[1..])) else None
    else
      match ParseAtom(toks) case None => None case Some((a, rest)) => ParseMore(a, rest)
  }

  function NotTail(e: Expr, toks: seq<Tok>): (r: Option<(Expr, seq<Tok>)>)
    ensures r.Some? ==> |r.value.1| <= |toks|
    decreases |toks|, 0
  {
    if toks == [] || toks[0] != KwNot then Some((e, toks))
    else match ParsePrimary(toks[1..]) case None => None case Some((p, rest)) => NotTail(Not(e, p), rest)
  }

  function ParseNot(toks: seq<Tok>): (r: Option<(Expr, seq<Tok>)>)
    ensures r.Some? ==> |r.value.1| < |toks|
    decreases |toks|, 1
  {
    match ParsePrimary(toks) case None => None case Some((p, rest)) => NotTail(p, rest)
  }

  function AndTail(e: Expr, toks: seq<Tok>): (r: Option<(Expr, seq<Tok>)>)
    ensures r.Some? ==> |r.value.1| <= |toks|
    decreases |toks|, 2
  {
    if toks == [] || toks[0] != KwAnd then Some((e, toks))
    else match ParseNot(toks[1..]) case None => None case Some((p, rest)) => AndTail(And(e, p), rest)
  }

  function ParseAnd(toks: seq<Tok>): (r: Option<(Expr, seq<Tok>)>)
    ensures r.Some? ==> |r.value.1| < |toks|
    decreases |toks|, 3
  {
    match ParseNot(toks) case None => None case Some((p, rest)) => AndTail(p, rest)
  }

  function OrTail(e: Expr, toks: seq<Tok>): (r: Option<(Expr, seq<Tok>)>)
    ensures r.Some? ==> |r.value.1| <= |toks|
    decreases |toks|, 4
  {
    if toks == [] || toks[0] != KwOr then Some((e, toks))
    else match ParseAnd(toks[1..]) case None => None case Some((p, rest)) => OrTail(Or(e, p), rest)
  }

  function ParseOr(toks: seq<Tok>): (r: Option<(Expr, seq<Tok>)>)
    ensures r.Some? ==> |r.value.1| < |toks|
    decreases |toks|, 5
  {
    match ParseAnd(toks) case None => None case Some((p, rest)) => OrTail(p, rest)
  }

  /** The expression a MATCH argument denotes; None is a syntax error. */
  function ParseExpr(s: string): Option<Expr> {
    match Lex(s)
    case None => None
    case Some(toks) =>
      match ParseOr(toks) case None => None case Some((e, rest)) => if rest == [] then Some(e) else None
  }

  /** Whether a message matches, given which phrases it holds. */
  predicate Eval(e: Expr, holds: Atom -> bool) {
    match e
    case Leaf(a) => holds(a)
    case And(l, r) => Eval(l, holds) && Eval(r, holds)
    case Or(l, r) => Eval(l, holds) || Eval(r, holds)
    case Not(l, r) => Eval(l, holds) && !Eval(r, holds)
  }

  // ---- Scanning what the compiler printed ----------------------------------------------------------------

  function AtomToks(t: Term): seq<Tok> {
    ColumnToks(t.field) + [Str(t.text)] + (if t.phrase then [] else [Star])
  }

  function Strs(names: seq<string>): seq<Tok> {
    if names == [] then [] else [Str(names[0])] + Strs(names[1..])
  }

  function ColumnToks(f: Field): seq<Tok> {
    if f == AnyField then [] else [LCB] + Strs(Columns(f)) + [RCB, Colon]
  }

  predicate NoQuoteAhead(s: string) {
    s != [] ==> s[0] != '"'
  }

  lemma PrependTwice(a: seq<Tok>, b: seq<Tok>, r: Option<seq<Tok>>)
    ensures Prepend(a, Prepend(b, r)) == Prepend(a + b, r)
  {
    if r.Some? {
      assert a + (b + r.value) == a + b + r.value;
    }
  }

  lemma LexMark(c: char, s: string)
    requires MarkTok(c).Some?
    ensures Lex([c] + s) == Prepend([MarkTok(c).value], Lex(s))
  {
    assert ([c] + s)[1..] == s;
  }

  lemma LexSpace(s: string)
    ensures Lex(" " + s) == Lex(s)
  {
    assert (" " + s)[1..] == s;
  }

  lemma {:induction false} BareRunIs(word: string, s: string)
    requires forall i :: 0 <= i < |word| ==> BareChar(word[i])
    requires s != [] ==> !BareChar(s[0])
    ensures BareRun(word + s) == |word|
  {
    if word == [] {
      assert word + s == s;
    } else {
      assert (word + s)[1..] == word[1..] + s;
      BareRunIs(word[1..], s);
    }
  }

  lemma LexName(name: string, s: string)
    requires name != [] && forall i :: 0 <= i < |name| ==> BareChar(name[i])
    requires s != [] ==> !BareChar(s[0])
    ensures Lex(name + s) == Prepend([BareTok(name)], Lex(s))
  {
    hide BareRun, ReadString, BareTok;
    BareRunIs(name, s);
    var t := name + s;
    assert t[0] == name[0] && BareChar(t[0]);
    assert t[..|name|] == name && t[|name|..] == s;
  }

  lemma ReadOne(c: char, rest: string)
    ensures var piece := if c == '"' then "\"\"" else [c];
            ReadString(piece + rest)
            == match ReadString(rest) case None => None case Some((text, after)) => Some(([c] + text, after))
  {
    if c == '"' {
      assert ("\"\"" + rest)[2..] == rest;
    } else {
      assert ([c] + rest)[1..] == rest;
    }
  }

  lemma ReadEnd(s: string)
    requires NoQuoteAhead(s)
    ensures ReadString("\"" + s) == Some(("", s))
  {
    assert ("\"" + s)[1..] == s;
  }

  lemma {:induction false} ReadDoubled(text: string, s: string)
    requires NoQuoteAhead(s)
    ensures ReadString(Doubled(text) + ("\"" + s)) == Some((text, s))
  {
    hide ReadString;
    if text == [] {
      ReadEnd(s);
      assert Doubled(text) + ("\"" + s) == "\"" + s;
    } else {
      ReadDoubled(text[1..], s);
      var piece := if text[0] == '"' then "\"\"" else [text[0]];
      var rest := Doubled(text[1..]) + ("\"" + s);
      assert Doubled(text) + ("\"" + s) == piece + rest;
      ReadOne(text[0], rest);
      assert text == [text[0]] + text[1..];
    }
  }

  /** Any text at all, quoted, is scanned as one string: nothing in it is syntax. */
  lemma LexQuoted(text: string, s: string)
    requires NoQuoteAhead(s)
    ensures Lex("\"" + (Doubled(text) + ("\"" + s))) == Prepend([Str(text)], Lex(s))
  {
    ReadDoubled(text, s);
    var t := "\"" + (Doubled(text) + ("\"" + s));
    assert t[1..] == Doubled(text) + ("\"" + s);
    hide ReadString;
  }

  lemma LexClose(s: string)
    ensures Lex("} : " + s) == Prepend([RCB, Colon], Lex(s))
  {
    hide Lex;
    var b := [':'] + (" " + s);
    assert "} : " + s == ['}'] + (" " + b);
    LexMark('}', " " + b);
    LexSpace(b);
    LexMark(':', " " + s);
    LexSpace(s);
    PrependTwice([RCB], [Colon], Lex(s));
    assert [RCB] + [Colon] == [RCB, Colon];
  }

  predicate ColumnName(name: string) {
    name != [] && (forall i :: 0 <= i < |name| ==> BareChar(name[i])) && BareTok(name) == Str(name)
  }

  lemma {:induction false} LexNames(names: seq<string>, s: string)
    requires names != [] && forall i :: 0 <= i < |names| ==> ColumnName(names[i])
    requires s != [] && !BareChar(s[0])
    ensures Lex(NamesText(names) + s) == Prepend(Strs(names), Lex(s))
  {
    hide Lex, BareTok;
    if |names| == 1 {
      LexName(names[0], s);
      assert Strs(names) == [Str(names[0])];
    } else {
      var rest := NamesText(names[1..]) + s;
      assert NamesText(names) + s == names[0] + (" " + rest);
      LexName(names[0], " " + rest);
      LexSpace(rest);
      LexNames(names[1..], s);
      PrependTwice([Str(names[0])], Strs(names[1..]), Lex(s));
    }
  }

  lemma LongNameIsColumn(name: string)
    requires |name| > 3 && forall i :: 0 <= i < |name| ==> BareChar(name[i])
    ensures ColumnName(name)
  {
  }

  lemma ColumnNames(f: Field)
    ensures forall i :: 0 <= i < |Columns(f)| ==> ColumnName(Columns(f)[i])
  {
    hide ColumnName;
    match f
    case AnyField =>
    case FromField => LongNameIsColumn("from_addr"); LongNameIsColumn("from_name");
    case ToField => LongNameIsColumn("to_addrs"); LongNameIsColumn("cc_addrs"); LongNameIsColumn("bcc_addrs");
    case SubjectField => LongNameIsColumn("subject");
  }

  lemma LexColumns(f: Field, s: string)
    ensures Lex(ColumnFilter(f) + s) == Prepend(ColumnToks(f), Lex(s))
  {
    hide Lex;
    if f == AnyField {
      assert "" + s == s;
      if Lex(s).Some? { assert [] + Lex(s).value == Lex(s).value; }
    } else {
      ColumnNames(f);
      var names := Columns(f);
      assert names != [];
      hide Columns, ColumnName, NamesText;
      var rest := "} : " + s;
      assert ColumnFilter(f) + s == ['{'] + (NamesText(names) + rest);
      LexMark('{', NamesText(names) + rest);
      LexNames(names, rest);
      LexClose(s);
      PrependTwice(Strs(names), [RCB, Colon], Lex(s));
      PrependTwice([LCB], Strs(names) + [RCB, Colon], Lex(s));
      assert [LCB] + (Strs(names) + [RCB, Colon]) == ColumnToks(f);
    }
  }

  lemma LexTerm(t: Term, s: string)
    requires NoQuoteAhead(s)
    ensures Lex(FtsTerm(t) + s) == Prepend(AtomToks(t), Lex(s))
  {
    hide Lex;
    var star := if t.phrase then "" else "*";
    var starToks := if t.phrase then [] else [Star];
    var tail := star + s;
    var quoted := "\"" + (Doubled(t.text) + ("\"" + tail));
    assert FtsTerm(t) + s == ColumnFilter(t.field) + quoted;
    if t.phrase {
      assert tail == s;
      if Lex(s).Some? { assert [] + Lex(s).value == Lex(s).value; }
    } else {
      assert tail == ['*'] + s;
      LexMark('*', s);
    }
    assert Lex(tail) == Prepend(starToks, Lex(s));
    LexQuoted(t.text, tail);
    LexColumns(t.field, quoted);
    PrependTwice([Str(t.text)], starToks, Lex(s));
    PrependTwice(ColumnToks(t.field), [Str(t.text)] + starToks, Lex(s));
    assert ColumnToks(t.field) + ([Str(t.text)] + starToks) == AtomToks(t);
  }

  // ---- Parsing what was scanned ----------------------------------------------------------------------

  function Toks(terms: seq<Term>): seq<Tok> {
    if terms == [] then [] else AtomToks(terms[0]) + Toks(terms[1..])
  }

  lemma {:induction false} LexList(terms: seq<Term>, s: string)
    requires terms != [] && NoQuoteAhead(s)
    ensures Lex(JoinTerms(terms, " ") + s) == Prepend(Toks(terms), Lex(s))
  {
    hide Lex, FtsTerm, AtomToks;
    if |terms| == 1 {
      LexTerm(terms[0], s);
      assert Toks(terms[1..]) == [];
      assert Toks(terms) == AtomToks(terms[0]) + [] == AtomToks(terms[0]);
    } else {
      var rest := JoinTerms(terms[1..], " ") + s;
      assert JoinTerms(terms, " ") + s == FtsTerm(terms[0]) + (" " + rest);
      LexTerm(terms[0], " " + rest);
      LexSpace(rest);
      LexList(terms[1..], s);
      PrependTwice(AtomToks(terms[0]), Toks(terms[1..]), Lex(s));
    }
  }

  function NotToks(positive: seq<Tok>, nots: seq<Term>): seq<Tok> {
    if nots == [] then positive
    else [LP] + (NotToks(positive, nots[..|nots| - 1]) + ([RP, KwNot] + AtomToks(nots[|nots| - 1])))
  }

  lemma LexNot(s: string)
    ensures Lex(") NOT " + s) == Prepend([RP, KwNot], Lex(s))
  {
    assert ") NOT " + s == [')'] + (" " + ("NOT" + (" " + s)));
    hide Lex;
    var t := "NOT" + (" " + s);
    LexName("NOT", " " + s);
    LexMark(')', " " + t);
    LexSpace(t);
    LexSpace(s);
    PrependTwice([RP], [KwNot], Lex(s));
    assert [RP] + [KwNot] == [RP, KwNot];
  }

  lemma {:induction false} LexNots(query: string, positive: seq<Tok>, nots: seq<Term>, s: string)
    requires NoQuoteAhead(s)
    requires forall r :: NoQuoteAhead(r) ==> Lex(query + r) == Prepend(positive, Lex(r))
    ensures Lex(WithNots(query, nots) + s) == Prepend(NotToks(positive, nots), Lex(s))
    decreases |nots|
  {
    hide Lex, FtsTerm, AtomToks;
    if nots != [] {
      var front, last := nots[..|nots| - 1], nots[|nots| - 1];
      var tail := FtsTerm(last) + s;
      var more := ") NOT " + tail;
      var inner := WithNots(query, front) + more;
      assert WithNots(query, nots) + s == ['('] + inner;
      LexMark('(', inner);
      LexNots(query, positive, front, more);
      LexNot(tail);
      LexTerm(last, s);
      var atom := AtomToks(last);
      PrependTwice([RP, KwNot], atom, Lex(s));
      PrependTwice(NotToks(positive, front), [RP, KwNot] + atom, Lex(s));
      PrependTwice([LP], NotToks(positive, front) + ([RP, KwNot] + atom), Lex(s));
    }
  }

  /** What ends an operand of the compiler's: the end, a closing parenthesis or OR. */
  predicate OperandEnds(toks: seq<Tok>) {
    toks == [] || toks[0] == RP || toks[0] == KwNot || toks[0] == KwOr
  }

  predicate NoMark(toks: seq<Tok>) {
    toks != [] ==> toks[0] != Star && toks[0] != Colon
  }

  lemma {:induction false} NamesRead(names: seq<string>, rest: seq<Tok>)
    requires rest != [] ==> !rest[0].Str?
    ensures Names(Strs(names) + rest) == (names, rest)
  {
    if names == [] {
      assert Strs(names) + rest == rest;
    } else {
      assert (Strs(names) + rest)[1..] == Strs(names[1..]) + rest;
      NamesRead(names[1..], rest);
      assert [names[0]] + names[1..] == names;
    }
  }

  /** A braced column list and its colon in front of a phrase. */
  lemma ColumnsRead(names: seq<string>, phrase: seq<Tok>)
    requires names != []
    ensures var all := [LCB] + (Strs(names) + ([RCB, Colon] + phrase));
            ParseAtom(all) == ParsePhrase(names, phrase) && StartsAtom(all)
  {
    hide ParsePhrase, Strs, Names;
    var close := [RCB, Colon] + phrase;
    var all := [LCB] + (Strs(names) + close);
    assert all[1..] == Strs(names) + close && all[0] == LCB;
    NamesRead(names, close);
    assert close[2..] == phrase && close[0] == RCB && close[1] == Colon;
  }

  lemma AtomRead(t: Term, rest: seq<Tok>)
    requires NoMark(rest)
    ensures ParseAtom(AtomToks(t) + rest) == Some((Leaf(AtomOf(t)), rest))
    ensures StartsAtom(AtomToks(t) + rest) && (AtomToks(t) + rest)[0] != LP
  {
    hide ParsePhrase, Strs, Names, NoMark;
    var star := if t.phrase then [] else [Star];
    var phrase := [Str(t.text)] + (star + rest);
    PhraseRead(Columns(t.field), t, rest);
    if t.field == AnyField {
      assert AtomToks(t) + rest == phrase;
    } else {
      var names := Columns(t.field);
      assert names != [];
      ColumnsRead(names, phrase);
      hide ParseAtom;
      var close := [RCB, Colon] + phrase;
      assert AtomToks(t) + rest == [LCB] + (Strs(names) + close);
    }
  }

  lemma PhraseRead(columns: seq<string>, t: Term, rest: seq<Tok>)
    requires NoMark(rest)
    ensures var star := if t.phrase then [] else [Star];
            var phrase := [Str(t.text)] + (star + rest);
            && ParsePhrase(columns, phrase) == Some((Leaf(Atom(columns, t.text, !t.phrase)), rest))
            && !(|phrase| > 1 && phrase[1] == Colon)
  {
    var star := if t.phrase then [] else [Star];
    var phrase := [Str(t.text)] + (star + rest);
    if t.phrase {
      assert phrase[1..] == rest;
    } else {
      assert phrase[2..] == rest;
    }
  }

  /** The AND of `first` and the atoms of `terms`, grouped to the left. */
  function Conj(first: Expr, terms: seq<Term>): Expr
    decreases |terms|
  {
    if terms == [] then first else Conj(And(first, Leaf(AtomOf(terms[0]))), terms[1..])
  }

  lemma {:induction false} MoreRead(first: Expr, terms: seq<Term>, rest: seq<Tok>)
    requires OperandEnds(rest)
    ensures ParseMore(first, Toks(terms) + rest) == Some((Conj(first, terms), rest))
    ensures NoMark(Toks(terms) + rest)
    decreases |terms|
  {
    hide ParseAtom, AtomToks;
    if terms == [] {
      assert Toks(terms) + rest == rest;
    } else {
      var tail := Toks(terms[1..]) + rest;
      assert Toks(terms) + rest == AtomToks(terms[0]) + tail;
      MoreRead(And(first, Leaf(AtomOf(terms[0]))), terms[1..], rest);
      AtomRead(terms[0], tail);
    }
  }

  function ListExpr(terms: seq<Term>): Expr
    requires terms != []
  {
    Conj(Leaf(AtomOf(terms[0])), terms[1..])
  }

  lemma ListRead(terms: seq<Term>, rest: seq<Tok>)
    requires terms != [] && OperandEnds(rest)
    ensures ParsePrimary(Toks(terms) + rest) == Some((ListExpr(terms), rest))
  {
    hide ParseAtom, AtomToks, ParseMore, ParseOr;
    var tail := Toks(terms[1..]) + rest;
    assert Toks(terms) + rest == AtomToks(terms[0]) + tail;
    MoreRead(Leaf(AtomOf(terms[0])), terms[1..], rest);
    AtomRead(terms[0], tail);
  }

  function NotExpr(positive: Expr, nots: seq<Term>): Expr {
    if nots == [] then positive else Not(NotExpr(positive, nots[..|nots| - 1]), Leaf(AtomOf(nots[|nots| - 1])))
  }

  /** A primary followed by the end of its operand is all there is to an OR expression. */
  lemma OnlyPrimary(toks: seq<Tok>, e: Expr, rest: seq<Tok>)
    requires ParsePrimary(toks) == Some((e, rest)) && (rest == [] || rest[0] == RP)
    ensures ParseOr(toks) == Some((e, rest))
  {
    hide ParsePrimary;
    assert ParseNot(toks) == Some((e, rest));
    assert ParseAnd(toks) == Some((e, rest));
  }

  lemma OneNot(toks: seq<Tok>, e: Expr, middle: seq<Tok>, p: Expr, rest: seq<Tok>)
    requires ParsePrimary(toks) == Some((e, [KwNot] + middle)) && ParsePrimary(middle) == Some((p, rest))
    requires rest == [] || rest[0] == RP
    ensures ParseOr(toks) == Some((Not(e, p), rest))
  {
    hide ParsePrimary;
    var e' := Not(e, p);
    assert ([KwNot] + middle)[1..] == middle;
    assert NotTail(e', rest) == Some((e', rest));
    assert NotTail(e, [KwNot] + middle) == Some((e', rest));
    assert ParseNot(toks) == Some((e', rest));
    assert ParseAnd(toks) == Some((e', rest));
  }

  lemma Parenthesised(inner: seq<Tok>, e: Expr, rest: seq<Tok>)
    requires ParseOr(inner) == Some((e, [RP] + rest))
    ensures ParsePrimary([LP] + inner) == Some((e, rest))
  {
    hide ParseOr, ParseAtom;
    assert ([LP] + inner)[1..] == inner;
    assert ([RP] + rest)[1..] == rest;
  }

  lemma SingleAtom(t: Term, rest: seq<Tok>)
    requires OperandEnds(rest)
    ensures ParsePrimary(AtomToks(t) + rest) == Some((Leaf(AtomOf(t)), rest))
  {
    hide ParsePrimary, AtomToks;
    assert [t][1..] == [] && Toks([t][1..]) == [];
    assert Toks([t]) == AtomToks(t) + [] == AtomToks(t);
    ListRead([t], rest);
  }

  /** Each pair of parentheses keeps its NOT outside everything before it. */
  lemma {:induction false} NotsRead(terms: seq<Term>, nots: seq<Term>, rest: seq<Tok>)
    requires terms != [] && (rest == [] || rest[0] == RP)
    ensures ParseOr(NotToks(Toks(terms), nots) + rest) == Some((NotExpr(ListExpr(terms), nots), rest))
    decreases |nots|
  {
    hide ParseOr, ParsePrimary, AtomToks, Toks, ListExpr;
    if nots == [] {
      ListRead(terms, rest);
      OnlyPrimary(Toks(terms) + rest, ListExpr(terms), rest);
    } else {
      var front, last := nots[..|nots| - 1], nots[|nots| - 1];
      var atom := AtomToks(last) + rest;
      var inner := NotToks(Toks(terms), front) + ([RP] + ([KwNot] + atom));
      assert NotToks(Toks(terms), nots) + rest == [LP] + inner;
      NotsRead(terms, front, [RP] + ([KwNot] + atom));
      Parenthesised(inner, NotExpr(ListExpr(terms), front), [KwNot] + atom);
      SingleAtom(last, rest);
      OneNot([LP] + inner, NotExpr(ListExpr(terms), front), atom, Leaf(AtomOf(last)), rest);
    }
  }

  // ---- What it means -------------------------------------------------------------------------------------

  predicate Holds(t: Term, holds: Atom -> bool) {
    holds(AtomOf(t))
  }

  lemma {:induction false} ConjMeaning(first: Expr, terms: seq<Term>, holds: Atom -> bool)
    ensures Eval(Conj(first, terms), holds)
            <==> Eval(first, holds) && forall i :: 0 <= i < |terms| ==> Holds(terms[i], holds)
    decreases |terms|
  {
    if terms != [] {
      ConjMeaning(And(first, Leaf(AtomOf(terms[0]))), terms[1..], holds);
      assert forall i :: 1 <= i < |terms| ==> terms[i] == terms[1..][i - 1];
    }
  }

  lemma ListMeaning(terms: seq<Term>, holds: Atom -> bool)
    requires terms != []
    ensures Eval(ListExpr(terms), holds) <==> forall i :: 0 <= i < |terms| ==> Holds(terms[i], holds)
  {
    ConjMeaning(Leaf(AtomOf(terms[0])), terms[1..], holds);
    assert forall i :: 1 <= i < |terms| ==> terms[i] == terms[1..][i - 1];
  }

  lemma {:induction false} NotMeaning(positive: Expr, nots: seq<Term>, holds: Atom -> bool)
    ensures Eval(NotExpr(positive, nots), holds)
            <==> Eval(positive, holds) && forall i :: 0 <= i < |nots| ==> !Holds(nots[i], holds)
    decreases |nots|
  {
    if nots != [] {
      NotMeaning(positive, nots[..|nots| - 1], holds);
    }
  }

  /** The MATCH expression always parses, and matches exactly where every plain term holds and no excluded one does. */
  lemma QueryMeaning(terms: seq<Term>, holds: Atom -> bool)
    ensures FtsQuery(terms).None? <==> forall t :: t in terms ==> t.negated
    ensures FtsQuery(terms).Some? ==>
              && ParseExpr(FtsQuery(terms).value).Some?
              && (Eval(ParseExpr(FtsQuery(terms).value).value, holds)
                  <==> forall t :: t in terms ==> (Holds(t, holds) <==> !t.negated))
  {
    var plain, nots := Signed(terms, false), Signed(terms, true);
    assert plain == [] <==> forall t :: t in terms ==> t.negated by {
      if plain != [] { assert plain[0] in plain; }
    }
    hide Lex, ParseOr, JoinTerms, WithNots, Toks, Signed, NotExpr, ListExpr, NotToks;
    if plain != [] {
      var query := JoinTerms(plain, " ");
      forall r | NoQuoteAhead(r) ensures Lex(query + r) == Prepend(Toks(plain), Lex(r)) { LexList(plain, r); }
      LexNots(query, Toks(plain), nots, "");
      LexDone(WithNots(query, nots), NotToks(Toks(plain), nots));
      NotsRead(plain, nots, []);
      assert NotToks(Toks(plain), nots) + [] == NotToks(Toks(plain), nots);
      ListMeaning(plain, holds);
      NotMeaning(ListExpr(plain), nots, holds);
      SplitBySign(terms, plain, nots, holds);
    }
  }

  /** Where each field is searched: a query of one term is read as its text in these columns, a word by its start. */
  lemma OneTermRead(t: Term)
    requires !t.negated
    ensures FtsQuery([t]).Some? && ParseExpr(FtsQuery([t]).value).Some?
    ensures var e := ParseExpr(FtsQuery([t]).value).value;
            match t.field
            case AnyField => e == Leaf(Atom([], t.text, !t.phrase))
            case FromField => e == Leaf(Atom(["from_addr", "from_name"], t.text, !t.phrase))
            case ToField => e == Leaf(Atom(["to_addrs", "cc_addrs", "bcc_addrs"], t.text, !t.phrase))
            case SubjectField => e == Leaf(Atom(["subject"], t.text, !t.phrase))
  {
    QueryIsTerm(t);
    TermRead(t);
    hide ParseExpr, FtsTerm, FtsQuery;
  }

  lemma TermRead(t: Term)
    ensures ParseExpr(FtsTerm(t)) == Some(Leaf(AtomOf(t)))
  {
    LexTerm(t, "");
    SingleAtom(t, []);
    hide Lex, FtsTerm, ParseOr, ParsePrimary, AtomToks, AtomOf;
    LexDone(FtsTerm(t), AtomToks(t));
    assert AtomToks(t) + [] == AtomToks(t);
    OnlyPrimary(AtomToks(t), Leaf(AtomOf(t)), []);
  }

  lemma QueryIsTerm(t: Term)
    requires !t.negated
    ensures FtsQuery([t]) == Some(FtsTerm(t))
  {
    assert FtsTerm(t) != "";
    hide FtsTerm;
    assert [t][1..] == [] && Signed([t], false) == [t] && Signed([t], true) == [];
  }

  lemma LexDone(s: string, toks: seq<Tok>)
    requires Lex(s + "") == Prepend(toks, Lex(""))
    ensures Lex(s) == Some(toks)
  {
    assert s + "" == s;
    assert toks + [] == toks;
  }

  lemma SplitBySign(terms: seq<Term>, plain: seq<Term>, nots: seq<Term>, holds: Atom -> bool)
    requires forall t :: t in plain <==> t in terms && !t.negated
    requires forall t :: t in nots <==> t in terms && t.negated
    ensures (forall i :: 0 <= i < |plain| ==> Holds(plain[i], holds))
            && (forall i :: 0 <= i < |nots| ==> !Holds(nots[i], holds))
            <==> forall t :: t in terms ==> (Holds(t, holds) <==> !t.negated)
  {
    hide Holds;
    if (forall i :: 0 <= i < |plain| ==> Holds(plain[i], holds))
        && (forall i :: 0 <= i < |nots| ==> !Holds(nots[i], holds)) {
      forall t | t in terms ensures Holds(t, holds) <==> !t.negated {
        assert t in plain || t in nots;
      }
    }
    if forall t :: t in terms ==> (Holds(t, holds) <==> !t.negated) {
      forall i | 0 <= i < |plain| ensures Holds(plain[i], holds) { assert plain[i] in plain; }
      forall i | 0 <= i < |nots| ensures !Holds(nots[i], holds) { assert nots[i] in nots; }
    }
  }

  // ---- The exclusions on their own -------------------------------------------------------------------------

  function OrToks(terms: seq<Term>): seq<Tok>
    requires terms != []
  {
    if |terms| == 1 then AtomToks(terms[0]) else AtomToks(terms[0]) + ([KwOr] + OrToks(terms[1..]))
  }

  function Disj(first: Expr, terms: seq<Term>): Expr
    decreases |terms|
  {
    if terms == [] then first else Disj(Or(first, Leaf(AtomOf(terms[0]))), terms[1..])
  }

  lemma LexOr(s: string)
    ensures Lex(" OR " + s) == Prepend([KwOr], Lex(s))
  {
    hide Lex;
    var t := "OR" + (" " + s);
    assert " OR " + s == " " + t;
    LexName("OR", " " + s);
    LexSpace(t);
    LexSpace(s);
  }

  lemma {:induction false} LexOrs(terms: seq<Term>)
    requires terms != []
    ensures Lex(JoinTerms(terms, " OR ")) == Some(OrToks(terms))
  {
    hide Lex, FtsTerm, AtomToks;
    if |terms| == 1 {
      LexTerm(terms[0], "");
      LexDone(FtsTerm(terms[0]), AtomToks(terms[0]));
    } else {
      var rest := JoinTerms(terms[1..], " OR ");
      LexOrs(terms[1..]);
      LexOr(rest);
      LexTerm(terms[0], " OR " + rest);
    }
  }

  lemma {:induction false} OrsRead(first: Expr, terms: seq<Term>)
    requires terms != []
    ensures OrTail(first, [KwOr] + OrToks(terms)) == Some((Disj(first, terms), []))
    decreases |terms|
  {
    hide ParsePrimary, AtomToks;
    var t := terms[0];
    var next := Or(first, Leaf(AtomOf(t)));
    assert ([KwOr] + OrToks(terms))[1..] == OrToks(terms);
    if |terms| == 1 {
      assert AtomToks(t) + [] == AtomToks(t);
      SingleAtom(t, []);
      OneOperand(AtomToks(t), Leaf(AtomOf(t)), []);
    } else {
      var tail := [KwOr] + OrToks(terms[1..]);
      SingleAtom(t, tail);
      OneOperand(AtomToks(t) + tail, Leaf(AtomOf(t)), tail);
      OrsRead(next, terms[1..]);
    }
  }

  lemma OneOperand(toks: seq<Tok>, e: Expr, rest: seq<Tok>)
    requires ParsePrimary(toks) == Some((e, rest)) && (rest == [] || rest[0] == KwOr)
    ensures ParseAnd(toks) == Some((e, rest))
  {
    hide ParsePrimary;
    assert ParseNot(toks) == Some((e, rest));
  }

  lemma {:induction false} DisjMeaning(first: Expr, terms: seq<Term>, holds: Atom -> bool)
    ensures Eval(Disj(first, terms), holds)
            <==> Eval(first, holds) || exists i :: 0 <= i < |terms| && Holds(terms[i], holds)
    decreases |terms|
  {
    if terms != [] {
      DisjMeaning(Or(first, Leaf(AtomOf(terms[0]))), terms[1..], holds);
      assert forall i :: 1 <= i < |terms| ==> terms[i] == terms[1..][i - 1];
      assert forall i :: 0 <= i < |terms[1..]| ==> terms[1..][i] == terms[i + 1];
    }
  }

  /** The exclusions' expression always parses, and matches exactly where some excluded term holds. */
  lemma ExclusionsMeaning(terms: seq<Term>, holds: Atom -> bool)
    ensures FtsExclusions(terms).None? <==> forall t :: t in terms ==> !t.negated
    ensures FtsExclusions(terms).Some? ==>
              && ParseExpr(FtsExclusions(terms).value).Some?
              && (Eval(ParseExpr(FtsExclusions(terms).value).value, holds)
                  <==> exists t :: t in terms && t.negated && Holds(t, holds))
  {
    var nots := Signed(terms, true);
    if nots != [] {
      assert nots[0] in nots;
      LexOrs(nots);
      OrListRead(nots);
      hide Lex, ParseOr, JoinTerms, Signed, OrToks, Holds;
      var first := Leaf(AtomOf(nots[0]));
      DisjMeaning(first, nots[1..], holds);
      FirstOrRest(nots, holds);
    }
  }

  lemma FirstOrRest(nots: seq<Term>, holds: Atom -> bool)
    requires nots != []
    ensures Eval(Leaf(AtomOf(nots[0])), holds) || (exists i :: 0 <= i < |nots[1..]| && Holds(nots[1..][i], holds))
            <==> exists t :: t in nots && Holds(t, holds)
  {
    if exists t :: t in nots && Holds(t, holds) {
      var i :| 0 <= i < |nots| && Holds(nots[i], holds);
      assert i > 0 ==> nots[1..][i - 1] == nots[i];
    }
    if exists i :: 0 <= i < |nots[1..]| && Holds(nots[1..][i], holds) {
      var i :| 0 <= i < |nots[1..]| && Holds(nots[1..][i], holds);
      assert nots[1..][i] == nots[i + 1] && nots[i + 1] in nots;
    }
    assert nots[0] in nots;
  }

  lemma OrListRead(terms: seq<Term>)
    requires terms != []
    ensures ParseOr(OrToks(terms)) == Some((Disj(Leaf(AtomOf(terms[0])), terms[1..]), []))
  {
    hide ParsePrimary, AtomToks;
    var t := terms[0];
    if |terms| == 1 {
      assert AtomToks(t) + [] == AtomToks(t);
      SingleAtom(t, []);
      OneOperand(AtomToks(t), Leaf(AtomOf(t)), []);
    } else {
      var tail := [KwOr] + OrToks(terms[1..]);
      SingleAtom(t, tail);
      OneOperand(AtomToks(t) + tail, Leaf(AtomOf(t)), tail);
      OrsRead(Leaf(AtomOf(t)), terms[1..]);
    }
  }
}
