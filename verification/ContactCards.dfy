/** Reading the first vCard of a file and counting the rest. */
module ContactCards {
  import opened Text
  import opened ContentLines

  // ---- The line loop -------------------------------------------------------------------------------------

  /** A property handed to the card's builder; `quoted` when its value still is quoted-printable text. */
  datatype Read = Read(name: string, line: Line, value: string, quoted: bool)

  datatype State = State(depth: nat, cards: nat, props: seq<Read>)

  const START := State(0, 0, [])

  /** The name without its group: `item1.EMAIL` is `EMAIL`. */
  function PropertyName(name: string): string
    decreases |name|
  {
    var dot := Find(name, '.');
    if dot < |name| then PropertyName(name[dot + 1..]) else name
  }

  predicate IsQuotedPrintable(l: Line) {
    exists i :: 0 <= i < |l.params| &&
      ((l.params[i].name == "ENCODING" && EqIgnoreCase(l.params[i].value, "QUOTED-PRINTABLE"))
       || (l.params[i].name == "QUOTED-PRINTABLE" && l.params[i].value == ""))
  }

  predicate EndsSoft(s: string) {
    s != [] && s[|s| - 1] == '='
  }

  /** Joining soft line breaks: the value, and the lines left over. */
  function Soft(joined: string, rest: seq<string>): (r: (string, seq<string>))
    ensures |r.1| <= |rest|
    decreases |rest|
  {
    if EndsSoft(joined) && rest != [] then Soft(joined[..|joined| - 1] + TrimEnd(rest[0]), rest[1..])
    else (joined, rest)
  }

  /** A line as the loop reads it. */
  function ReadLine(line: string): Option<Line> {
    var raw := TrimEnd(line);
    if Trim(raw) == "" then None else Parse(raw)
  }

  predicate IsMark(l: Line, mark: string) {
    PropertyName(l.name) == mark && EqIgnoreCase(Trim(l.value), "VCARD")
  }

  predicate OwnProperty(s: State) {
    s.cards == 1 && s.depth == 1
  }

  /** One round of the loop: the state after it and the lines it left. */
  function Next(s: State, lines: seq<string>): (r: (State, seq<string>))
    requires lines != []
    ensures |r.1| < |lines|
  {
    var rest := lines[1..];
    match ReadLine(lines[0])
    case None => (s, rest)
    case Some(l) =>
      if IsMark(l, "BEGIN")
      then (s.(depth := s.depth + 1, cards := if s.depth == 0 then s.cards + 1 else s.cards), rest)
      else if IsMark(l, "END") then (s.(depth := if s.depth > 0 then s.depth - 1 else 0), rest)
      else if !OwnProperty(s) then (s, rest)
      else if IsQuotedPrintable(l) then
        var (value, left) := Soft(l.value, rest);
        (s.(props := s.props + [Read(PropertyName(l.name), l, value, true)]), left)
      else (s.(props := s.props + [Read(PropertyName(l.name), l, l.value, false)]), rest)
  }

  function Run(s: State, lines: seq<string>): State
    decreases |lines|
  {
    if lines == [] then s
    else
      var (t, rest) := Next(s, lines);
      Run(t, rest)
  }

  /** What the card is built from, and how many further cards there are; None without any card. */
  function ParseLines(lines: seq<string>): Option<(seq<Read>, nat)> {
    var s := Run(START, lines);
    if s.cards == 0 then None else Some((s.props, s.cards - 1))
  }

  /** `parse_vcard`: the loop over the unfolded lines with its updated `depth` and `cards`. */
  method ParseVCard(lines: seq<string>) returns (r: Option<(seq<Read>, nat)>)
    ensures r == ParseLines(lines)
  {
    hide ReadLine, IsMark, IsQuotedPrintable, TrimEnd, PropertyName;
    var depth: nat, cards: nat := 0, 0;
    var props: seq<Read> := [];
    var i := 0;
    assert lines[0..] == lines;
    while i < |lines|
      invariant i <= |lines|
      invariant Run(State(depth, cards, props), lines[i..]) == Run(START, lines)
      decreases |lines| - i
    {
      var raw := lines[i];
      assert lines[i..][1..] == lines[i + 1..];
      i := i + 1;
      var cl := ReadLine(raw);
      if cl.None? {
        continue;
      }
      var l := cl.value;
      if IsMark(l, "BEGIN") {
        if depth == 0 {
          cards := cards + 1;
        }
        depth := depth + 1;
        continue;
      }
      if IsMark(l, "END") {
        depth := if depth > 0 then depth - 1 else 0;
        continue;
      }
      if cards != 1 || depth != 1 {
        continue;
      }
      if IsQuotedPrintable(l) {
        var joined := l.value;
        ghost var (value, left) := Soft(joined, lines[i..]);
        while EndsSoft(joined) && i < |lines|
          invariant i <= |lines|
          invariant Soft(joined, lines[i..]) == (value, left)
        {
          assert lines[i..][1..] == lines[i + 1..];
          joined := joined[..|joined| - 1] + TrimEnd(lines[i]);
          i := i + 1;
        }
        props := props + [Read(PropertyName(l.name), l, joined, true)];
      } else {
        props := props + [Read(PropertyName(l.name), l, l.value, false)];
      }
    }
    assert lines[i..] == [];
    if cards == 0 {
      return None;
    }
    r := Some((props, cards - 1));
  }

  const MAX_VCARD_BYTES := 4 * 1024 * 1024

  function ReadFile(data: string): Option<(seq<Read>, nat)> {
    if Utf8Len(data) > MAX_VCARD_BYTES then None else ParseLines(Lines(Unfold(data)))
  }

  /** `parse_vcard` from the file's text: the size limit, unfolding, and the loop. */
  method ReadVCard(data: string) returns (r: Option<(seq<Read>, nat)>)
    ensures r == ReadFile(data)
    ensures r == if Utf8Len(data) > 0x40_0000 then None else ParseLines(Lines(Unfold(data)))
  {
    if Utf8Len(data) > MAX_VCARD_BYTES {
      return None;
    }
    var unfolded := UnfoldLines(data);
    r := ParseVCard(Lines(unfolded));
  }

  /** How a file within the size limit is folded does not matter: its logical lines are what is read. */
  lemma FoldingDoesNotMatter(lines: seq<Folded>)
    requires ValidFold(lines) && Utf8Len(PrintFolded(lines)) <= MAX_VCARD_BYTES
    ensures ReadFile(PrintFolded(lines)) == ParseLines(Texts(lines))
  {
    hide ParseLines, Unfold, Lines;
    UnfoldUndoesFolding(lines);
    LinesOfLogical(lines);
  }

  // ---- Whole cards inside and behind the first -------------------------------------------------------------

  /** No property of the first card is left waiting for a continuation line at the end of `lines`. */
  predicate Complete(s: State, lines: seq<string>)
    decreases |lines|
  {
    lines != [] ==> !Waits(s, lines) && Complete(Next(s, lines).0, Next(s, lines).1)
  }

  /** The round that reads the last line leaves a value that would go on. */
  predicate Waits(s: State, lines: seq<string>)
    requires lines != []
  {
    var (t, rest) := Next(s, lines);
    rest == [] && |t.props| > |s.props| && t.props[|t.props| - 1].quoted && EndsSoft(t.props[|t.props| - 1].value)
  }

  lemma {:induction false} SoftAppend(joined: string, a: seq<string>, b: seq<string>)
    requires var (value, left) := Soft(joined, a); left != [] || !EndsSoft(value)
    ensures Soft(joined, a + b) == (Soft(joined, a).0, Soft(joined, a).1 + b)
    decreases |a|
  {
    if EndsSoft(joined) && a != [] {
      assert (a + b)[1..] == a[1..] + b;
      SoftAppend(joined[..|joined| - 1] + TrimEnd(a[0]), a[1..], b);
    }
  }

  lemma NextAppend(s: State, a: seq<string>, b: seq<string>)
    requires a != [] && !Waits(s, a)
    ensures Next(s, a + b) == (Next(s, a).0, Next(s, a).1 + b)
  {
    hide ReadLine, IsMark, IsQuotedPrintable, Soft;
    assert (a + b)[1..] == a[1..] + b;
    var l := ReadLine(a[0]);
    if l.Some? && IsQuotedPrintable(l.value) && OwnProperty(s) && !IsMark(l.value, "BEGIN") && !IsMark(l.value, "END") {
      SoftAppend(l.value.value, a[1..], b);
    }
  }

  lemma {:induction false} RunAppend(s: State, a: seq<string>, b: seq<string>)
    requires Complete(s, a)
    ensures Run(s, a + b) == Run(Run(s, a), b)
    decreases |a|
  {
    hide Next;
    if a == [] {
      assert a + b == b;
    } else {
      NextAppend(s, a, b);
      RunAppend(Next(s, a).0, Next(s, a).1, b);
    }
  }

  /** A whole card: its marks as spelled, its property lines and the cards inside it. */
  datatype Card = Card(begin: string, items: seq<Item>, end: string)
  datatype Item = Prop(line: string) | Sub(card: Card)

  function Flatten(c: Card): seq<string>
    decreases c, 1
  {
    [c.begin] + (FlattenItems(c.items) + [c.end])
  }

  function LinesOf(item: Item): seq<string>
    decreases item, 0
  {
    if item.Prop? then [item.line] else Flatten(item.card)
  }

  function FlattenItems(items: seq<Item>): seq<string>
    decreases items, 0
  {
    if items == [] then [] else LinesOf(items[0]) + FlattenItems(items[1..])
  }

  predicate Marks(line: string, mark: string) {
    var l := ReadLine(line);
    l.Some? && IsMark(l.value, mark)
  }

  predicate ValidCard(c: Card)
    decreases c, 1
  {
    Marks(c.begin, "BEGIN") && Marks(c.end, "END") && ValidItems(c.items)
  }

  predicate ValidItem(item: Item)
    decreases item, 0
  {
    if item.Prop? then !Marks(item.line, "BEGIN") && !Marks(item.line, "END") else ValidCard(item.card)
  }

  predicate ValidItems(items: seq<Item>)
    decreases items, 0
  {
    items != [] ==> ValidItem(items[0]) && ValidItems(items[1..])
  }

  lemma OneMarkOnly(l: Line)
    ensures !(IsMark(l, "BEGIN") && IsMark(l, "END"))
  {
  }

  lemma RunOne(s: State, line: string, rest: seq<string>)
    requires Next(s, [line] + rest).1 == rest
    ensures Run(s, [line] + rest) == Run(Next(s, [line] + rest).0, rest)
  {
    hide Next;
  }

  lemma BeginNext(s: State, line: string, rest: seq<string>)
    requires Marks(line, "BEGIN")
    ensures Next(s, [line] + rest)
            == (s.(depth := s.depth + 1, cards := if s.depth == 0 then s.cards + 1 else s.cards), rest)
  {
    hide ReadLine, IsMark;
    assert ([line] + rest)[1..] == rest;
  }

  lemma EndNext(s: State, line: string, rest: seq<string>)
    requires Marks(line, "END")
    ensures Next(s, [line] + rest) == (s.(depth := if s.depth > 0 then s.depth - 1 else 0), rest)
  {
    OneMarkOnly(ReadLine(line).value);
    hide ReadLine, IsMark;
    assert ([line] + rest)[1..] == rest;
  }

  lemma SkippedNext(s: State, line: string, rest: seq<string>)
    requires !Marks(line, "BEGIN") && !Marks(line, "END") && !OwnProperty(s)
    ensures Next(s, [line] + rest) == (s, rest)
  {
    hide ReadLine, IsMark;
    assert ([line] + rest)[1..] == rest;
  }

  /** Lines of a card that is not the first one's own are passed over. */
  lemma {:induction false} ItemsRun(s: State, items: seq<Item>, rest: seq<string>)
    requires ValidItems(items) && s.depth > 0 && !OwnProperty(s) && s.cards > 0
    ensures Run(s, FlattenItems(items) + rest) == Run(s, rest)
    decreases items, 0
  {
    hide Run, Marks;
    if items == [] {
      assert FlattenItems(items) + rest == rest;
    } else {
      var tail := FlattenItems(items[1..]) + rest;
      assert FlattenItems(items) + rest == LinesOf(items[0]) + tail;
      ItemRun(s, items[0], tail);
      ItemsRun(s, items[1..], rest);
    }
  }

  lemma {:induction false} ItemRun(s: State, item: Item, rest: seq<string>)
    requires ValidItem(item) && s.depth > 0 && !OwnProperty(s) && s.cards > 0
    ensures Run(s, LinesOf(item) + rest) == Run(s, rest)
    decreases item, 0
  {
    hide Run, Marks;
    if item.Prop? {
      SkippedNext(s, item.line, rest);
      RunOne(s, item.line, rest);
    } else {
      CardRun(s, item.card, rest);
    }
  }

  /** A whole card inside another changes nothing; behind the first one it only counts. */
  lemma {:induction false} CardRun(s: State, c: Card, rest: seq<string>)
    requires ValidCard(c) && s.cards > 0
    ensures Run(s, Flatten(c) + rest) == Run(if s.depth == 0 then s.(cards := s.cards + 1) else s, rest)
    decreases c, 1
  {
    hide Run, Marks;
    var tail := FlattenItems(c.items) + ([c.end] + rest);
    assert Flatten(c) + rest == [c.begin] + tail;
    BeginNext(s, c.begin, tail);
    RunOne(s, c.begin, tail);
    var inner := s.(depth := s.depth + 1, cards := if s.depth == 0 then s.cards + 1 else s.cards);
    ItemsRun(inner, c.items, [c.end] + rest);
    EndNext(inner, c.end, rest);
    RunOne(inner, c.end, rest);
  }

  /** A card embedded behind a complete value changes nothing of what is read. */
  lemma CompleteHidesCard(before: seq<string>, c: Card, behind: seq<string>)
    requires ValidCard(c)
    ensures Complete(START, before) && Run(START, before).depth > 0 && Run(START, before).cards > 0
            ==> ParseLines(before + Flatten(c) + behind) == ParseLines(before + behind)
  {
    hide Run, Complete, Flatten, ValidCard;
    if Complete(START, before) && Run(START, before).depth > 0 && Run(START, before).cards > 0 {
      RunAppend(START, before, behind);
      assert before + Flatten(c) + behind == before + (Flatten(c) + behind);
      RunAppend(START, before, Flatten(c) + behind);
      CardRun(Run(START, before), c, behind);
    }
  }

  lemma {:induction false} ScanSuffix(s: string, inQuotes: bool, current: string)
    ensures var r := Scan(s, inQuotes, current);
            r.Some? ==> |r.value.1| <= |s| && r.value.1 == s[|s| - |r.value.1|..]
    decreases |s|
  {
    if s != [] {
      ScanSuffix(s[1..], false, []);
      ScanSuffix(s[1..], if s[0] == '"' then !inQuotes else inQuotes, current + [s[0]]);
    }
  }

  /** A mark's line ends with its value, so never with `=`. */
  lemma MarkEndsHard(line: string, mark: string)
    requires Marks(line, mark)
    ensures TrimEnd(line) != "" && !EndsSoft(TrimEnd(line))
  {
    var raw := TrimEnd(line);
    TrimEndShape(line);
    ScanSuffix(raw, false, []);
    var value := Parse(raw).value.value;
    TrimStartShape(value);
    hide Parse, PropertyName;
    var word := Trim(value);
    assert value[|value| - 1] == raw[|raw| - 1];
    assert word == TrimStart(value);
    assert value[|value| - 1] == word[4] && Lower(word[4]) == Lower("VCARD"[4]);
  }

  lemma {:induction false} SoftThrough(joined: string, a: seq<string>, b: seq<string>)
    requires Soft(joined, a).1 == []
    ensures Soft(joined, a + b) == Soft(Soft(joined, a).0, b)
    decreases |a|
  {
    if a == [] {
      assert a + b == b;
    } else {
      assert (a + b)[1..] == a[1..] + b;
      SoftThrough(joined[..|joined| - 1] + TrimEnd(a[0]), a[1..], b);
    }
  }

  lemma {:induction false} PropsGrow(s: State, lines: seq<string>)
    ensures s.props <= Run(s, lines).props && s.cards <= Run(s, lines).cards
    decreases |lines|
  {
    hide ReadLine, IsMark, IsQuotedPrintable, Soft;
    if lines != [] { PropsGrow(Next(s, lines).0, Next(s, lines).1); }
  }

  /** A waiting value belongs to an open first card. */
  lemma {:induction false} WaitingIsOpen(s: State, lines: seq<string>)
    ensures !Complete(s, lines) ==> Run(s, lines).depth == 1 && Run(s, lines).cards == 1
    decreases |lines|
  {
    hide ReadLine, IsMark, IsQuotedPrintable, Soft;
    if lines != [] { WaitingIsOpen(Next(s, lines).0, Next(s, lines).1); }
  }

  /** The value that waits takes the next line and, if that ends hard, no more. */
  lemma WaitsTakesNext(s: State, lines: seq<string>, next: string, more: seq<string>)
    requires lines != [] && Waits(s, lines) && !EndsSoft(TrimEnd(next)) && TrimEnd(next) != ""
    ensures var (t, rest), (u, left) := Next(s, lines), Next(s, lines + ([next] + more));
            && left == more && |u.props| == |t.props| == |s.props| + 1
            && t.props[|s.props|].value != u.props[|s.props|].value
            && t.cards == u.cards == 1
  {
    hide ReadLine, IsMark, IsQuotedPrintable, Soft, TrimEnd;
    var behind := [next] + more;
    assert (lines + behind)[1..] == lines[1..] + behind;
    var l := ReadLine(lines[0]).value;
    var value := Soft(l.value, lines[1..]).0;
    SoftThrough(l.value, lines[1..], behind);
    SoftOnce(value, next, more);
  }

  lemma SoftOnce(value: string, next: string, more: seq<string>)
    requires EndsSoft(value) && !EndsSoft(TrimEnd(next)) && TrimEnd(next) != ""
    ensures Soft(value, [next] + more) == (value[..|value| - 1] + TrimEnd(next), more)
    ensures !EndsSoft(value[..|value| - 1] + TrimEnd(next))
  {
    hide TrimEnd;
    var joined := value[..|value| - 1] + TrimEnd(next);
    assert joined[|joined| - 1] == TrimEnd(next)[|TrimEnd(next)| - 1];
    assert ([next] + more)[1..] == more;
    assert Soft(joined, more) == (joined, more);
  }

  lemma {:induction false} WaitingShows(s: State, lines: seq<string>, next: string, more: seq<string>)
    requires !Complete(s, lines) && !EndsSoft(TrimEnd(next)) && TrimEnd(next) != ""
    ensures Run(s, lines + ([next] + more)).props != Run(s, lines).props
    ensures Run(s, lines + ([next] + more)).cards > 0 && Run(s, lines).cards > 0
    decreases |lines|
  {
    var behind := [next] + more;
    if Waits(s, lines) {
      WaitsTakesNext(s, lines, next, more);
      var u := Next(s, lines + behind).0;
      PropsGrow(u, more);
      hide Next;
      assert Run(s, lines) == Run(Next(s, lines).0, []);
    } else {
      NextAppend(s, lines, behind);
      WaitingShows(Next(s, lines).0, Next(s, lines).1, next, more);
    }
  }

  /** Inside a value that still waits for its next line any card shows: its first line is taken into the value. */
  lemma SplitValueSwallowsCard(before: seq<string>, c: Card)
    requires ValidCard(c)
    ensures !Complete(START, before) ==> ParseLines(before + Flatten(c)) != ParseLines(before)
  {
    if !Complete(START, before) {
      MarkEndsHard(c.begin, "BEGIN");
      hide Run, Complete;
      WaitingShows(START, before, c.begin, FlattenItems(c.items) + [c.end]);
    }
  }

  /** Inside the first card an embedded card is invisible, whatever follows, exactly when no value waits for a line. */
  lemma EmbeddedCardInvisible(before: seq<string>, c: Card)
    requires ValidCard(c)
    ensures Run(START, before).depth > 0 && Run(START, before).cards > 0 ==>
              (Complete(START, before)
               <==> forall behind: seq<string> ::
                      ParseLines(before + Flatten(c) + behind) == ParseLines(before + behind))
  {
    hide ParseLines, Run, Complete, Flatten, ValidCard;
    if Run(START, before).depth > 0 && Run(START, before).cards > 0 {
      forall behind: seq<string> | Complete(START, before)
        ensures ParseLines(before + Flatten(c) + behind) == ParseLines(before + behind)
      {
        CompleteHidesCard(before, c, behind);
      }
      SplitValueSwallowsCard(before, c);
      assert before + Flatten(c) + [] == before + Flatten(c) && before + [] == before;
    }
  }

  /** A printed line is read as meant. */
  lemma PrintedLineRead(name: string, ps: seq<Written>, value: string)
    requires CleanName(name) && name != [] && forall i :: 0 <= i < |ps| ==> ValidParam(ps[i])
    ensures ReadLine(PrintLine(name, ps, value)) == Some(Line(UpperAll(name), AllMeant(ps), TrimEnd(value)))
  {
    hide Parse, PrintParams, ValidParam, AllMeant, TrimEnd;
    var front := name + (PrintParams(ps) + ":");
    assert PrintLine(name, ps, value) == front + value;
    TrimEndKeeps(front, value);
    var s := PrintLine(name, ps, TrimEnd(value));
    assert s == front + TrimEnd(value);
    ParseUndoesPrint(name, ps, TrimEnd(value));
    assert s[0] == name[0] && !IsSpace(s[0]);
    NotBlank(s, 0);
  }

  lemma NameIs(name: string)
    requires forall i :: 0 <= i < |name| ==> name[i] != '.'
    ensures PropertyName(name) == name
  {
  }

  lemma PrintedMark(mark: string, card: string)
    requires (mark == "BEGIN" || mark == "END") && card == "VCARD"
    ensures Marks(PrintLine(mark, [], card), mark)
  {
    hide ReadLine, PropertyName, PrintLine;
    assert UpperAll(mark) == mark;
    PrintedLineRead(mark, [], card);
    NameIs(mark);
    TrimTrimmed(card);
  }

  lemma PrintedBare(name: string, param: string, value: string)
    requires CleanName(name) && name != [] && CleanName(param) && param != [] && value != []
            && !IsSpace(value[|value| - 1])
    ensures ReadLine(PrintLine(name, [Bare(param)], value))
            == Some(Line(UpperAll(name), [Param(UpperAll(param), "")], value))
  {
    hide ReadLine, PrintLine;
    PrintedLineRead(name, [Bare(param)], value);
    var ps := [Bare(param)];
    assert ps[1..] == [];
    assert AllMeant(ps) == [Meant(ps[0])] + AllMeant(ps[1..]) && AllMeant(ps[1..]) == [];
    assert AllMeant(ps) == [Param(UpperAll(param), "")];
  }

  /** A quoted-printable property right behind the first mark takes the line after it. */
  lemma NoteTakes(mark: string, note: string, l: Line, next: string, more: seq<string>)
    requires Marks(mark, "BEGIN") && ReadLine(note) == Some(l) && !Marks(note, "BEGIN") && !Marks(note, "END")
    requires IsQuotedPrintable(l) && EndsSoft(l.value) && TrimEnd(next) != "" && !EndsSoft(TrimEnd(next))
    ensures var value := l.value[..|l.value| - 1] + TrimEnd(next);
            Run(START, [mark] + ([note] + ([next] + more)))
            == Run(State(1, 1, [Read(PropertyName(l.name), l, value, true)]), more)
  {
    hide Run, ReadLine, IsMark, IsQuotedPrintable, Soft, TrimEnd;
    var rest := [next] + more;
    BeginNext(START, mark, [note] + rest);
    RunOne(START, mark, [note] + rest);
    SoftOnce(l.value, next, more);
    var lines := [note] + rest;
    assert lines[1..] == rest && lines[0] == note;
    var prop := Read(PropertyName(l.name), l, l.value[..|l.value| - 1] + TrimEnd(next), true);
    assert [] + [prop] == [prop];
    assert Next(State(1, 1, []), lines) == (State(1, 1, [prop]), more);
    RunRound(State(1, 1, []), lines);
  }

  lemma RunRound(s: State, lines: seq<string>)
    requires lines != []
    ensures Run(s, lines) == Run(Next(s, lines).0, Next(s, lines).1)
  {
    hide Next;
  }

  /** Such a file: a quoted-printable note ending in `=`, an embedded card, the end. The card changes the note. */
  lemma SplitValueExample(note: string, param: string, text: string, begin: string, end: string, card: string)
    requires note == "NOTE" && param == "QUOTED-PRINTABLE" && text == "a=" && begin == "BEGIN" && end == "END"
            && card == "VCARD"
    ensures var b, n, e := PrintLine(begin, [], card), PrintLine(note, [Bare(param)], text), PrintLine(end, [], card);
            var l := Line(note, [Param(param, "")], text);
            && ValidCard(Card(b, [], e))
            && ParseLines([b] + ([n] + [e])) == Some(([Read(note, l, "a" + e, true)], 0))
            && ParseLines([b] + ([n] + (Flatten(Card(b, [], e)) + [e]))) == Some(([Read(note, l, "a" + b, true)], 0))
            && "a" + b != "a" + e
  {
    hide ReadLine, PropertyName, PrintLine, Run, TrimEnd, IsMark, IsQuotedPrintable;
    var b, n, e := PrintLine(begin, [], card), PrintLine(note, [Bare(param)], text), PrintLine(end, [], card);
    var l := Line(note, [Param(param, "")], text);
    PrintedMark(begin, card);
    PrintedMark(end, card);
    PrintedEnd(begin, card);
    PrintedEnd(end, card);
    PrintedNote(note, param, text);
    NoteTakes(b, n, l, e, []);
    var c := Flatten(Card(b, [], e)) + [e];
    assert c == [b] + ([e] + [e]) && [e] + [] == [e];
    NoteTakes(b, n, l, b, [e] + [e]);
    var s := State(1, 1, [Read(note, l, "a" + b, true)]);
    assert text[..1] == "a";
    EndNext(s, e, [e]);
    RunOne(s, e, [e]);
    EndNext(s.(depth := 0), e, []);
    RunOne(s.(depth := 0), e, []);
    RunNothing(s.(depth := 0));
    RunNothing(State(1, 1, [Read(note, l, "a" + e, true)]));
    PrintedDiffer(begin, end, card);
  }

  lemma RunNothing(s: State)
    ensures Run(s, []) == s
  {
  }

  lemma PrintedNote(note: string, param: string, text: string)
    requires note == "NOTE" && param == "QUOTED-PRINTABLE" && text == "a="
    ensures var n, l := PrintLine(note, [Bare(param)], text), Line(note, [Param(param, "")], text);
            && ReadLine(n) == Some(l) && IsQuotedPrintable(l) && PropertyName(l.name) == note
            && !Marks(n, "BEGIN") && !Marks(n, "END")
  {
    hide ReadLine, PropertyName, PrintLine;
    assert UpperAll(note) == note && UpperAll(param) == param;
    PrintedBare(note, param, text);
    NameIs(note);
    var l := Line(note, [Param(param, "")], text);
    assert l.params[0].name == "QUOTED-PRINTABLE" && l.params[0].value == "";
  }

  lemma PrintedDiffer(begin: string, end: string, card: string)
    requires begin == "BEGIN" && end == "END"
    ensures "a" + PrintLine(begin, [], card) != "a" + PrintLine(end, [], card)
  {
    hide PrintParams;
    assert ("a" + PrintLine(begin, [], card))[1] == 'B' && ("a" + PrintLine(end, [], card))[1] == 'E';
  }

  lemma PrintedEnd(mark: string, card: string)
    requires card == "VCARD"
    ensures TrimEnd(PrintLine(mark, [], card)) == PrintLine(mark, [], card) != ""
            && !EndsSoft(PrintLine(mark, [], card))
  {
    hide PrintParams;
    var s := PrintLine(mark, [], card);
    assert s[|s| - 1] == card[4] == 'D';
  }

  function FlattenAll(cs: seq<Card>): seq<string> {
    if cs == [] then [] else Flatten(cs[0]) + FlattenAll(cs[1..])
  }

  lemma {:induction false} CardsRun(s: State, cs: seq<Card>)
    requires (forall i :: 0 <= i < |cs| ==> ValidCard(cs[i])) && s.cards > 0 && s.depth == 0
    ensures Run(s, FlattenAll(cs)) == s.(cards := s.cards + |cs|)
    decreases |cs|
  {
    hide Flatten, ValidCard;
    if cs != [] {
      CardRun(s, cs[0], FlattenAll(cs[1..]));
      CardsRun(s.(cards := s.cards + 1), cs[1..]);
    }
  }

  /** Appending k whole cards to a file of whole cards raises the count of further cards by k, and nothing else. */
  lemma AppendedCardsCount(file: seq<string>, cs: seq<Card>)
    requires forall i :: 0 <= i < |cs| ==> ValidCard(cs[i])
    requires Run(START, file).depth == 0 && Run(START, file).cards > 0
    ensures ParseLines(file).Some?
    ensures ParseLines(file + FlattenAll(cs)) == Some((ParseLines(file).value.0, ParseLines(file).value.1 + |cs|))
  {
    WaitingIsOpen(START, file);
    hide Run, Complete, ValidCard, FlattenAll;
    RunAppend(START, file, FlattenAll(cs));
    CardsRun(Run(START, file), cs);
  }

  // ---- A card as printed --------------------------------------------------------------------------------------------

  /** A property of a card, its name with or without a group in front, in any case. */
  datatype Own = Own(group: string, name: string, params: seq<Written>, value: string)

  function FullName(o: Own): string {
    if o.group == "" then o.name else o.group + ("." + o.name)
  }

  function PrintOwn(o: Own): string {
    PrintLine(FullName(o), o.params, o.value)
  }

  /** What is read of it: the name without its group in upper case, and the value without blanks at its end. */
  function OwnRead(o: Own): Read {
    var l := Line(UpperAll(FullName(o)), AllMeant(o.params), TrimEnd(o.value));
    Read(UpperAll(o.name), l, TrimEnd(o.value), IsQuotedPrintable(l))
  }

  /** No mark, and no value that is broken over lines. */
  predicate ValidOwn(o: Own) {
    && CleanName(FullName(o)) && o.name != "" && (forall i :: 0 <= i < |o.name| ==> o.name[i] != '.')
    && (forall i :: 0 <= i < |o.params| ==> ValidParam(o.params[i]))
    && UpperAll(o.name) != "BEGIN" && UpperAll(o.name) != "END"
    && !(OwnRead(o).quoted && EndsSoft(OwnRead(o).value))
  }

  lemma {:induction false} GroupDropped(group: string, name: string)
    requires forall i :: 0 <= i < |name| ==> name[i] != '.'
    ensures PropertyName(name) == name && PropertyName(group + ("." + name)) == name
    decreases |group|
  {
    var s := group + ("." + name);
    assert s[|group|] == '.';
    var dot := Find(s, '.');
    if dot == |group| {
      assert s[dot + 1..] == name;
    } else {
      assert dot < |group|;
      assert s[dot + 1..] == group[dot + 1..] + ("." + name);
      GroupDropped(group[dot + 1..], name);
    }
  }

  lemma UpperName(o: Own)
    requires forall i :: 0 <= i < |o.name| ==> o.name[i] != '.'
    ensures PropertyName(UpperAll(FullName(o))) == UpperAll(o.name)
  {
    hide PropertyName;
    if o.group == "" {
      GroupDropped("", UpperAll(o.name));
    } else {
      assert UpperAll(FullName(o)) == UpperAll(o.group) + ("." + UpperAll(o.name));
      GroupDropped(UpperAll(o.group), UpperAll(o.name));
    }
  }

  lemma OwnNext(s: State, o: Own, rest: seq<string>)
    requires ValidOwn(o) && OwnProperty(s)
    ensures Next(s, [PrintOwn(o)] + rest) == (s.(props := s.props + [OwnRead(o)]), rest)
  {
    assert ([PrintOwn(o)] + rest)[1..] == rest;
    PrintedLineRead(FullName(o), o.params, o.value);
    UpperName(o);
    hide ReadLine, PropertyName, IsQuotedPrintable, UpperAll, AllMeant, FullName, TrimEnd, CleanName;
    var l := OwnRead(o).line;
    assert !IsMark(l, "BEGIN") && !IsMark(l, "END");
    assert IsQuotedPrintable(l) ==> Soft(l.value, rest) == (l.value, rest);
  }

  function PrintOwns(os: seq<Own>): seq<string> {
    if os == [] then [] else [PrintOwn(os[0])] + PrintOwns(os[1..])
  }

  function OwnReads(os: seq<Own>): seq<Read> {
    if os == [] then [] else [OwnRead(os[0])] + OwnReads(os[1..])
  }

  lemma OwnReadsAppend(before: seq<Read>, os: seq<Own>)
    requires os != []
    ensures before + [OwnRead(os[0])] + OwnReads(os[1..]) == before + OwnReads(os)
  {
    hide OwnRead;
  }

  lemma {:induction false} OwnsRun(s: State, os: seq<Own>, rest: seq<string>)
    requires (forall i :: 0 <= i < |os| ==> ValidOwn(os[i])) && OwnProperty(s)
    ensures Run(s, PrintOwns(os) + rest) == Run(s.(props := s.props + OwnReads(os)), rest)
    decreases |os|
  {
    hide Run, ValidOwn, OwnRead, PrintOwn, Next;
    if os == [] {
      assert PrintOwns(os) + rest == rest && s.props + [] == s.props;
    } else {
      var tail := PrintOwns(os[1..]) + rest;
      assert PrintOwns(os) + rest == [PrintOwn(os[0])] + tail;
      OwnNext(s, os[0], tail);
      RunOne(s, PrintOwn(os[0]), tail);
      OwnsRun(s.(props := s.props + [OwnRead(os[0])]), os[1..], rest);
      OwnReadsAppend(s.props, os);
    }
  }

  /** A card's properties are handed over each as meant, in order and none else. */
  lemma CardRead(begin: string, os: seq<Own>, end: string)
    requires Marks(begin, "BEGIN") && Marks(end, "END") && forall i :: 0 <= i < |os| ==> ValidOwn(os[i])
    ensures ParseLines([begin] + (PrintOwns(os) + [end])) == Some((OwnReads(os), 0))
  {
    hide *;
    var tail := PrintOwns(os) + [end];
    BeginNext(START, begin, tail);
    RunOne(START, begin, tail);
    Opened();
    OwnsRun(State(1, 1, []), os, [end]);
    assert [] + OwnReads(os) == OwnReads(os);
    CardClosed(OwnReads(os), end);
    Parsed([begin] + tail, OwnReads(os));
  }

  lemma Opened()
    ensures START.(depth := START.depth + 1, cards := if START.depth == 0 then START.cards + 1 else START.cards)
            == State(1, 1, []) && OwnProperty(State(1, 1, []))
  {
  }

  lemma CardClosed(props: seq<Read>, end: string)
    requires Marks(end, "END")
    ensures Run(State(1, 1, props), [end]) == State(0, 1, props)
  {
    hide *;
    var s := State(1, 1, props);
    assert [end] + [] == [end];
    EndNext(s, end, []);
    RunOne(s, end, []);
    RunNothing(s.(depth := 0));
  }

  lemma Parsed(lines: seq<string>, props: seq<Read>)
    requires Run(START, lines) == State(0, 1, props)
    ensures ParseLines(lines) == Some((props, 0))
  {
    hide Run;
  }

  // ---- Soft line breaks (section 6.7 of RFC 2045) --------------------------------------------------------------

  function JoinAll(parts: seq<string>): string {
    if parts == [] then "" else parts[0] + JoinAll(parts[1..])
  }

  /** The physical lines after the first: each but the last ends with `=`. */
  function SoftLines(parts: seq<string>): seq<string> {
    if |parts| <= 1 then parts else [parts[0] + "="] + SoftLines(parts[1..])
  }

  /** A value broken over several lines is joined again, and no line too many is taken. */
  lemma {:induction false} SoftJoins(first: string, parts: seq<string>, rest: seq<string>)
    requires parts != [] && TrimEnd(parts[|parts| - 1]) == parts[|parts| - 1]
    requires !EndsSoft(first + JoinAll(parts))
    ensures Soft(first + "=", SoftLines(parts) + rest) == (first + JoinAll(parts), rest)
    decreases |parts|
  {
    var lines := SoftLines(parts) + rest;
    assert (first + "=")[..|first|] == first;
    if |parts| == 1 {
      assert lines[1..] == rest && JoinAll(parts) == parts[0] + JoinAll([]);
      assert first + JoinAll(parts) == first + parts[0];
    } else {
      assert lines == [parts[0] + "="] + (SoftLines(parts[1..]) + rest);
      assert lines[1..] == SoftLines(parts[1..]) + rest;
      assert TrimEnd(parts[0] + "=") == parts[0] + "=";
      assert first + (parts[0] + "=") == first + parts[0] + "=";
      assert first + JoinAll(parts) == first + parts[0] + JoinAll(parts[1..]);
      SoftJoins(first + parts[0], parts[1..], rest);
    }
  }

  // ---- Quoted-printable bytes ------------------------------------------------------------------------------------

  type byte = b: nat | b < 256

  const EQUALS: byte := 0x3D
  const PLUS: byte := 0x2B

  function HexDigit(b: byte): Option<nat> {
    if 0x30 <= b <= 0x39 then Some(b - 0x30)
    else if 0x41 <= b <= 0x46 then Some(b - 0x41 + 10)
    else if 0x61 <= b <= 0x66 then Some(b - 0x61 + 10)
    else None
  }

  /** `u8::from_str_radix` on two bytes: two digits, or a plus sign and one. */
  function HexByte(a: byte, b: byte): Option<byte> {
    if HexDigit(b).None? then None
    else if a == PLUS then Some(HexDigit(b).value)
    else if HexDigit(a).None? then None
    else Some(16 * HexDigit(a).value + HexDigit(b).value)
  }

  function Decode(bytes: seq<byte>): seq<byte>
    decreases |bytes|
  {
    if bytes == [] then []
    else if bytes[0] == EQUALS && |bytes| >= 3 && HexByte(bytes[1], bytes[2]).Some?
    then [HexByte(bytes[1], bytes[2]).value] + Decode(bytes[3..])
    else [bytes[0]] + Decode(bytes[1..])
  }

  /** `decode_quoted_printable` */
  method DecodeQuotedPrintable(bytes: seq<byte>) returns (out: seq<byte>)
    ensures out == Decode(bytes)
  {
    hide Decode;
    out := [];
    var i := 0;
    assert bytes[0..] == bytes;
    while i < |bytes|
      invariant i <= |bytes|
      invariant out + Decode(bytes[i..]) == Decode(bytes)
    {
      DecodeStep(bytes, i, out);
      if bytes[i] == EQUALS && i + 3 <= |bytes| {
        var b := HexByte(bytes[i + 1], bytes[i + 2]);
        if b.Some? {
          out := out + [b.value];
          i := i + 3;
          continue;
        }
      }
      out := out + [bytes[i]];
      i := i + 1;
    }
    DecodeNothing();
    assert bytes[i..] == [];
    assert out + [] == out;
  }

  lemma DecodeNothing()
    ensures Decode([]) == []
  {
  }

  lemma DecodeStep(bytes: seq<byte>, i: nat, out: seq<byte>)
    requires i < |bytes|
    ensures out + Decode(bytes[i..])
            == if bytes[i] == EQUALS && i + 3 <= |bytes| && HexByte(bytes[i + 1], bytes[i + 2]).Some?
               then out + [HexByte(bytes[i + 1], bytes[i + 2]).value] + Decode(bytes[i + 3..])
               else out + [bytes[i]] + Decode(bytes[i + 1..])
  {
    hide HexByte;
    var t := bytes[i..];
    assert t[1..] == bytes[i + 1..];
    if i + 3 <= |bytes| { assert t[3..] == bytes[i + 3..] && t[1] == bytes[i + 1] && t[2] == bytes[i + 2]; }
  }

  function Digit(d: nat): byte
    requires d < 16
  {
    if d < 10 then 0x30 + d else 0x41 + d - 10
  }

  /** Section 6.7 of RFC 2045: any octet may be written as `=` and two digits; `=` itself must be. */
  function Encode(bytes: seq<byte>, escaped: byte -> bool): seq<byte> {
    if bytes == [] then []
    else (if escaped(bytes[0]) then [EQUALS, Digit(bytes[0] / 16), Digit(bytes[0] % 16)] else [bytes[0]])
         + Encode(bytes[1..], escaped)
  }

  /** Decoding undoes encoding, whichever octets the encoder chose to escape. */
  lemma {:induction false} DecodeUndoesEncode(bytes: seq<byte>, escaped: byte -> bool)
    requires escaped(EQUALS)
    ensures Decode(Encode(bytes, escaped)) == bytes
  {
    if bytes == [] {
      assert Encode(bytes, escaped) == [];
    } else {
      var b, rest := bytes[0], Encode(bytes[1..], escaped);
      DecodeUndoesEncode(bytes[1..], escaped);
      if escaped(b) {
        var e := [EQUALS, Digit(b / 16), Digit(b % 16)] + rest;
        assert e[3..] == rest;
        assert 16 * (b / 16) + b % 16 == b;
      } else {
        assert ([b] + rest)[1..] == rest;
      }
      assert bytes == [b] + bytes[1..];
    }
  }

  /** The digit a byte spells, in either case. */
  ghost predicate Spells(b: byte, d: nat) {
    (d < 10 && b == 0x30 + d) || (10 <= d < 16 && (b == 0x41 + (d - 10) || b == 0x61 + (d - 10)))
  }

  /** An equals sign with two digits behind it, or a plus sign and one, is that octet. */
  lemma EscapeDecoded(a: byte, b: byte, hi: nat, lo: nat, rest: seq<byte>)
    requires hi < 16 && Spells(b, lo) && (Spells(a, hi) || (a == 0x2B && hi == 0))
    ensures Decode([0x3D, a, b] + rest) == [16 * hi + lo] + Decode(rest)
  {
    DecodeThree(a, b, rest);
    SpellsOnce(b, lo);
    if Spells(a, hi) { SpellsOnce(a, hi); }
    hide Decode, HexDigit;
  }

  /** An equals sign with any other two octets behind it stays as it is. */
  lemma MalformedKept(a: byte, b: byte, rest: seq<byte>)
    requires (forall d :: !Spells(b, d)) || (a != 0x2B && forall d :: !Spells(a, d))
    ensures Decode([0x3D, a, b] + rest) == [0x3D] + Decode([a, b] + rest)
  {
    DecodeThree(a, b, rest);
    DigitIs(a);
    DigitIs(b);
    hide Decode, HexDigit;
  }

  lemma DecodeThree(a: byte, b: byte, rest: seq<byte>)
    ensures Decode([0x3D, a, b] + rest)
            == if HexByte(a, b).Some? then [HexByte(a, b).value] + Decode(rest) else [0x3D] + Decode([a, b] + rest)
  {
    hide HexByte;
    var s := [0x3D, a, b] + rest;
    assert s[3..] == rest && s[1..] == [a, b] + rest;
  }

  /** Every other octet stays, and so does an equals sign with fewer than two behind it. */
  lemma DecodeOne(a: byte, rest: seq<byte>)
    requires a != 0x3D || |rest| < 2
    ensures Decode([a] + rest) == [a] + Decode(rest)
  {
    hide HexByte;
    assert ([a] + rest)[1..] == rest;
  }

  lemma DigitIs(b: byte)
    ensures HexDigit(b).Some? ==> Spells(b, HexDigit(b).value)
    ensures HexDigit(b).None? ==> forall d :: !Spells(b, d)
  {
  }

  lemma SpellsOnce(b: byte, d: nat)
    requires Spells(b, d)
    ensures HexDigit(b) == Some(d)
  {
  }

  // ---- Structured values (section 3.4 of RFC 6350) -----------------------------------------------------------------

  /** Cut at each `;` that no backslash escapes. */
  function Parts(s: string, current: string): seq<string>
    decreases |s|
  {
    if s == [] then [current]
    else if s[0] == '\\' then (if |s| > 1 then Parts(s[2..], current + s[..2]) else Parts(s[1..], current + s[..1]))
    else if s[0] == ';' then [current] + Parts(s[1..], [])
    else Parts(s[1..], current + [s[0]])
  }

  function Component(part: string): string {
    Trim(Unescape(part))
  }

  function ReadParts(parts: seq<string>): (r: seq<string>)
    ensures |r| == |parts|
    ensures forall i :: 0 <= i < |parts| ==> r[i] == Component(parts[i])
  {
    seq(|parts|, i requires 0 <= i < |parts| => Component(parts[i]))
  }

  /** `components`: one pass that pushes into `current`. */
  method Components(value: string) returns (r: seq<string>)
    ensures r == ReadParts(Parts(value, []))
  {
    var parts: seq<string> := [];
    var current := "";
    var i := 0;
    assert value[0..] == value;
    while i < |value|
      invariant i <= |value|
      invariant parts + Parts(value[i..], current) == Parts(value, [])
      decreases |value| - i
    {
      var c := value[i];
      PartsStep(value, i, current);
      if c == '\\' {
        current := current + ['\\'];
        i := i + 1;
        if i < |value| {
          current := current + [value[i]];
          i := i + 1;
        }
      } else if c == ';' {
        assert parts + ([current] + Parts(value[i + 1..], [])) == parts + [current] + Parts(value[i + 1..], []);
        parts := parts + [current];
        current := "";
        i := i + 1;
      } else {
        current := current + [c];
        i := i + 1;
      }
    }
    assert value[i..] == [];
    parts := parts + [current];
    r := ReadParts(parts);
  }

  lemma PartsStep(s: string, i: nat, current: string)
    requires i < |s|
    ensures Parts(s[i..], current)
            == if s[i] == '\\' then
                 (if i + 1 < |s| then Parts(s[i + 2..], current + ['\\'] + [s[i + 1]])
                     else Parts(s[i + 1..], current + ['\\']))
               else if s[i] == ';' then [current] + Parts(s[i + 1..], [])
               else Parts(s[i + 1..], current + [s[i]])
  {
    var t := s[i..];
    assert t[1..] == s[i + 1..] && t[..1] == [s[i]];
    if i + 1 < |s| {
      assert t[2..] == s[i + 2..] && t[..2] == [s[i]] + [s[i + 1]];
      assert current + ([s[i]] + [s[i + 1]]) == current + [s[i]] + [s[i + 1]];
    }
  }

  function JoinParts(parts: seq<string>): string
    requires parts != []
  {
    if |parts| == 1 then Escape(parts[0]) else Escape(parts[0]) + (";" + JoinParts(parts[1..]))
  }

  lemma PartsOfEscaped(c: char, rest: string, current: string)
    ensures Parts(EscapedChar(c) + rest, current) == Parts(rest, current + EscapedChar(c))
  {
    var e := EscapedChar(c);
    var t := e + rest;
    assert t[|e|..] == rest && t[..|e|] == e;
  }

  lemma {:induction false} PartsOfEscape(part: string, rest: string, current: string)
    ensures Parts(Escape(part) + rest, current) == Parts(rest, current + Escape(part))
    decreases |part|
  {
    hide Parts;
    if part == [] {
      assert Escape(part) + rest == rest && current + Escape(part) == current;
    } else {
      var e, more := EscapedChar(part[0]), Escape(part[1..]);
      assert Escape(part) + rest == e + (more + rest);
      PartsOfEscaped(part[0], more + rest, current);
      PartsOfEscape(part[1..], rest, current + e);
      assert current + e + more == current + Escape(part);
    }
  }

  function EscapedParts(parts: seq<string>): seq<string> {
    if parts == [] then [] else [Escape(parts[0])] + EscapedParts(parts[1..])
  }

  lemma {:induction false} PartsOfJoined(parts: seq<string>)
    requires parts != []
    ensures Parts(JoinParts(parts), []) == EscapedParts(parts)
  {
    var e := Escape(parts[0]);
    assert [] + e == e;
    if |parts| == 1 {
      PartsOfEscape(parts[0], [], []);
      assert e + [] == e;
      assert EscapedParts(parts) == [e] + EscapedParts([]);
    } else {
      var rest := JoinParts(parts[1..]);
      PartsOfEscape(parts[0], ";" + rest, []);
      assert (";" + rest)[1..] == rest;
      PartsOfJoined(parts[1..]);
    }
  }

  lemma {:induction false} EscapedAt(parts: seq<string>, i: nat)
    requires i < |parts|
    ensures |EscapedParts(parts)| == |parts| && EscapedParts(parts)[i] == Escape(parts[i])
  {
    if |parts| > 1 {
      EscapedAt(parts[1..], if i > 0 then i - 1 else 0);
    }
  }

  /** Components written out escaped and joined by `;` are read back, trimmed. */
  lemma ComponentsUndoJoin(parts: seq<string>)
    requires parts != []
    ensures |ReadParts(Parts(JoinParts(parts), []))| == |parts|
    ensures forall i :: 0 <= i < |parts| ==> ReadParts(Parts(JoinParts(parts), []))[i] == Trim(parts[i])
  {
    hide Parts, JoinParts, EscapedParts, Unescape, Escape, Trim;
    PartsOfJoined(parts);
    EscapedAt(parts, 0);
    forall i | 0 <= i < |parts| ensures Component(EscapedParts(parts)[i]) == Trim(parts[i]) {
      EscapedAt(parts, i);
      UnescapeUndoesEscape(parts[i]);
    }
  }
}
