/** Content lines shared by iCalendar and vCard: unfolding, the name/parameter/value split, and unescaping. */
module ContentLines {
  import opened Text

  // ---- Unfolding (section 3.1 of RFC 5545) -------------------------------------------------------------------

  /** Length of the line break `s` starts with, 0 for none. A lone carriage return is text. */
  function BreakAt(s: string): nat {
    if |s| > 1 && s[0] == '\r' && s[1] == '\n' then 2 else if s != [] && s[0] == '\n' then 1 else 0
  }

  predicate StartsBlank(s: string) {
    s != [] && (s[0] == ' ' || s[0] == '\t')
  }

  function Unfold(s: string): string {
    if s == [] then []
    else if BreakAt(s) == 0 then [s[0]] + Unfold(s[1..])
    else
      var rest := s[BreakAt(s)..];
      if StartsBlank(rest) then Unfold(rest[1..]) else "\n" + Unfold(rest)
  }

  /** `unfold`: one pass with a peeked character. */
  method UnfoldLines(input: string) returns (out: string)
    ensures out == Unfold(input)
  {
    hide Unfold;
    out := "";
    var i := 0;
    assert input[0..] == input;
    while i < |input|
      invariant i <= |input|
      invariant out + Unfold(input[i..]) == Unfold(input)
      decreases |input| - i
    {
      UnfoldStep(input, i, out);
      var c := input[i];
      var newline := false;
      i := i + 1;
      if c == '\r' && i < |input| && input[i] == '\n' {
        i := i + 1;
        newline := true;
      } else if c == '\n' {
        newline := true;
      }
      if !newline {
        out := out + [c];
        continue;
      }
      if i < |input| && (input[i] == ' ' || input[i] == '\t') {
        i := i + 1;
        continue;
      }
      out := out + ['\n'];
    }
    UnfoldNothing();
    assert input[i..] == [];
    assert out + [] == out;
  }

  /** Length of the line break at index `i`. */
  function BreakIn(s: string, i: nat): (n: nat)
    requires i < |s|
    ensures i + n <= |s|
  {
    if s[i] == '\r' && i + 1 < |s| && s[i + 1] == '\n' then 2 else if s[i] == '\n' then 1 else 0
  }

  lemma UnfoldStep(s: string, i: nat, out: string)
    requires i < |s|
    ensures var n := BreakIn(s, i);
            out + Unfold(s[i..]) == if n == 0 then out + [s[i]] + Unfold(s[i + 1..])
                                    else if i + n < |s| && (s[i + n] == ' ' || s[i + n] == '\t')
                                        then out + Unfold(s[i + n + 1..])
                                    else out + ['\n'] + Unfold(s[i + n..])
  {
    var t := s[i..];
    var n := BreakIn(s, i);
    assert BreakAt(t) == n;
    assert t[1..] == s[i + 1..];
    assert t[n..] == s[i + n..];
    if i + n < |s| { assert t[n..][1..] == s[i + n + 1..]; }
  }

  lemma UnfoldNothing()
    ensures Unfold([]) == []
  {
  }

  predicate NoBreaks(s: string) {
    forall i :: 0 <= i < |s| ==> s[i] != '\r' && s[i] != '\n'
  }

  predicate IsBreak(s: string) {
    s == "\r\n" || s == "\n"
  }

  /** A further piece of a folded line: a line break and one blank before it. */
  datatype Piece = Piece(br: string, blank: char, text: string)

  /** A logical line as folded, and the line break that ends it; the last line may end with the text. */
  datatype Folded = Folded(first: string, more: seq<Piece>, end: string)

  function PrintPieces(more: seq<Piece>): string {
    if more == [] then "" else more[0].br + ([more[0].blank] + (more[0].text + PrintPieces(more[1..])))
  }

  function TextOfPieces(more: seq<Piece>): string {
    if more == [] then "" else more[0].text + TextOfPieces(more[1..])
  }

  function PrintFolded(lines: seq<Folded>): string {
    if lines == [] then "" else lines[0].first + (PrintPieces(lines[0].more) + (lines[0].end + PrintFolded(lines[1..])))
  }

  function TextOf(l: Folded): string {
    l.first + TextOfPieces(l.more)
  }

  /** The logical lines, each that was ended ended by one newline. */
  function Logical(lines: seq<Folded>): string {
    if lines == [] then ""
    else if lines[0].end == "" then TextOf(lines[0]) + Logical(lines[1..])
    else TextOf(lines[0]) + ("\n" + Logical(lines[1..]))
  }

  ghost predicate ValidFold(lines: seq<Folded>) {
    forall i :: 0 <= i < |lines| ==>
      && NoBreaks(lines[i].first)
      && (IsBreak(lines[i].end) || (i == |lines| - 1 && lines[i].end == "" && TextOf(lines[i]) != ""))
      && (i > 0 ==> !StartsBlank(lines[i].first))
      && forall j :: 0 <= j < |lines[i].more| ==>
           var p := lines[i].more[j];
           IsBreak(p.br) && (p.blank == ' ' || p.blank == '\t') && NoBreaks(p.text)
  }

  lemma {:induction false} UnfoldText(text: string, rest: string)
    requires NoBreaks(text)
    ensures Unfold(text + rest) == text + Unfold(rest)
  {
    if text == [] {
      assert text + rest == rest;
    } else {
      assert (text + rest)[1..] == text[1..] + rest;
      UnfoldText(text[1..], rest);
    }
  }

  lemma UnfoldBreak(br: string, rest: string)
    requires IsBreak(br)
    ensures Unfold(br + rest) == if StartsBlank(rest) then Unfold(rest[1..]) else "\n" + Unfold(rest)
  {
    var s := br + rest;
    assert BreakAt(s) == |br|;
    assert s[|br|..] == rest;
  }

  lemma {:induction false} UnfoldPieces(more: seq<Piece>, rest: string)
    requires forall j :: 0 <= j < |more| ==>
               IsBreak(more[j].br) && (more[j].blank == ' ' || more[j].blank == '\t') && NoBreaks(more[j].text)
    ensures Unfold(PrintPieces(more) + rest) == TextOfPieces(more) + Unfold(rest)
  {
    hide Unfold;
    if more == [] {
      assert PrintPieces(more) + rest == rest;
    } else {
      var p := more[0];
      var tail := PrintPieces(more[1..]) + rest;
      assert PrintPieces(more) + rest == p.br + ([p.blank] + (p.text + tail));
      assert ([p.blank] + (p.text + tail))[1..] == p.text + tail;
      UnfoldBreak(p.br, [p.blank] + (p.text + tail));
      UnfoldText(p.text, tail);
      UnfoldPieces(more[1..], rest);
    }
  }

  /** However the lines of a file are folded, unfolding gives its logical lines back. */
  lemma {:induction false} UnfoldUndoesFolding(lines: seq<Folded>)
    requires ValidFold(lines)
    ensures Unfold(PrintFolded(lines)) == Logical(lines)
  {
    hide Unfold;
    if lines == [] {
      assert Unfold("") == "" by { UnfoldEmpty(); }
    } else {
      var l, rest := lines[0], PrintFolded(lines[1..]);
      ValidFoldTail(lines);
      UnfoldText(l.first, PrintPieces(l.more) + (l.end + rest));
      UnfoldPieces(l.more, l.end + rest);
      UnfoldUndoesFolding(lines[1..]);
      assert Unfold(PrintFolded(lines)) == TextOf(l) + Unfold(l.end + rest);
      if l.end == "" {
        assert l.end + rest == rest;
      } else {
        NextNotBlank(lines);
        UnfoldBreak(l.end, rest);
      }
    }
  }

  lemma NextNotBlank(lines: seq<Folded>)
    requires ValidFold(lines) && lines != []
    ensures !StartsBlank(PrintFolded(lines[1..]))
  {
    if |lines| > 1 {
      var l := lines[1];
      assert lines[1..][0] == l;
      if l.first == [] && l.more == [] { assert TextOf(l) == ""; }
    }
  }

  lemma UnfoldEmpty()
    ensures Unfold("") == ""
  {
  }

  // ---- Text escapes (section 3.3.11 of RFC 5545) -----------------------------------------------------------------

  function Unescape(s: string): string {
    if s == [] then []
    else if s[0] != '\\' then [s[0]] + Unescape(s[1..])
    else if |s| == 1 then "\\"
    else (if s[1] == 'n' || s[1] == 'N' then "\n" else [s[1]]) + Unescape(s[2..])
  }

  /** A backslash makes `n` and `N` a line break and any other character itself; one at the end stays. */
  lemma UnescapeMeans(c: char, rest: string)
    ensures Unescape(['\\', c] + rest) == [if c == 'n' || c == 'N' then '\n' else c] + Unescape(rest)
    ensures c != '\\' ==> Unescape([c] + rest) == [c] + Unescape(rest)
    ensures Unescape("\\") == "\\"
  {
    assert (['\\', c] + rest)[2..] == rest && ([c] + rest)[1..] == rest;
  }

  /** `unescape_text` */
  method UnescapeText(s: string) returns (out: string)
    ensures out == Unescape(s)
  {
    hide Unescape;
    out := "";
    var i := 0;
    assert s[0..] == s;
    while i < |s|
      invariant i <= |s|
      invariant out + Unescape(s[i..]) == Unescape(s)
    {
      UnescapeStep(s, i, out);
      var c := s[i];
      i := i + 1;
      if c == '\\' {
        if i == |s| {
          out := out + ['\\'];
        } else {
          if s[i] == 'n' || s[i] == 'N' {
            out := out + ['\n'];
          } else {
            out := out + [s[i]];
          }
          i := i + 1;
        }
      } else {
        out := out + [c];
      }
    }
    UnescapeEmpty();
    assert s[i..] == [];
    assert out + [] == out;
  }

  lemma UnescapeStep(s: string, i: nat, out: string)
    requires i < |s|
    ensures out + Unescape(s[i..])
            == if s[i] != '\\' then out + [s[i]] + Unescape(s[i + 1..])
               else if i + 1 == |s| then out + ['\\'] + Unescape(s[i + 1..])
               else out + [if s[i + 1] == 'n' || s[i + 1] == 'N' then '\n' else s[i + 1]] + Unescape(s[i + 2..])
  {
    var t := s[i..];
    assert t[1..] == s[i + 1..];
    if i + 1 < |s| { assert t[2..] == s[i + 2..]; } else { assert s[i + 1..] == []; }
  }

  function EscapedChar(c: char): string {
    if c == '\\' || c == ';' || c == ',' then ['\\', c] else if c == '\n' then "\\n" else [c]
  }

  function Escape(s: string): string {
    if s == [] then [] else EscapedChar(s[0]) + Escape(s[1..])
  }

  lemma UnescapeOne(c: char, rest: string)
    ensures Unescape(EscapedChar(c) + rest) == [c] + Unescape(rest)
  {
    var e := EscapedChar(c);
    assert (e + rest)[|e|..] == rest;
  }

  /** Unescaping undoes escaping, for every text. */
  lemma {:induction false} UnescapeUndoesEscape(s: string)
    ensures Unescape(Escape(s)) == s
  {
    hide Unescape;
    if s == [] {
      assert Unescape([]) == [] by { UnescapeEmpty(); }
    } else {
      UnescapeOne(s[0], Escape(s[1..]));
      UnescapeUndoesEscape(s[1..]);
    }
  }

  lemma UnescapeEmpty()
    ensures Unescape([]) == []
  {
  }

  // ---- Parameter values (section 3 of RFC 6868) --------------------------------------------------------------------

  function CaretDecode(s: string): string {
    if s == [] then []
    else if s[0] != '^' then [s[0]] + CaretDecode(s[1..])
    else if |s| == 1 then "^"
    else (if s[1] == 'n' || s[1] == 'N' then "\n"
          else if s[1] == '\'' then "\""
          else if s[1] == '^' then "^"
          else ['^', s[1]]) + CaretDecode(s[2..])
  }

  /** A caret makes `n` and `N` a line break, `'` a quote and `^` a caret; before anything else, or at the end, it
      stays. */
  lemma CaretMeans(c: char, rest: string)
    ensures CaretDecode(['^', c] + rest)
            == (if c == 'n' || c == 'N' then ['\n'] else if c == '\'' then ['"'] else if c == '^' then ['^']
                else ['^', c]) + CaretDecode(rest)
    ensures c != '^' ==> CaretDecode([c] + rest) == [c] + CaretDecode(rest)
    ensures CaretDecode("^") == "^"
  {
    assert (['^', c] + rest)[2..] == rest && ([c] + rest)[1..] == rest;
  }

  function StripQuotes(raw: string): string {
    if |raw| > 1 && raw[0] == '"' && raw[|raw| - 1] == '"' then raw[1..|raw| - 1] else raw
  }

  function ParamValue(raw: string): string {
    CaretDecode(StripQuotes(Trim(raw)))
  }

  /** `param_value` */
  method ReadParamValue(text: string) returns (out: string)
    ensures out == ParamValue(text)
  {
    hide CaretDecode, Trim;
    var raw := StripQuotes(Trim(text));
    out := "";
    var i := 0;
    assert raw[0..] == raw;
    while i < |raw|
      invariant i <= |raw|
      invariant out + CaretDecode(raw[i..]) == CaretDecode(raw)
    {
      CaretStep(raw, i, out);
      var c := raw[i];
      i := i + 1;
      if c != '^' {
        out := out + [c];
        continue;
      }
      if i == |raw| {
        out := out + ['^'];
        continue;
      }
      if raw[i] == 'n' || raw[i] == 'N' {
        out := out + ['\n'];
      } else if raw[i] == '\'' {
        out := out + ['"'];
      } else if raw[i] == '^' {
        out := out + ['^'];
      } else {
        out := out + ['^'];
        out := out + [raw[i]];
      }
      i := i + 1;
    }
    CaretEmpty();
    assert raw[i..] == [];
    assert out + [] == out;
  }

  lemma CaretStep(s: string, i: nat, out: string)
    requires i < |s|
    ensures out + CaretDecode(s[i..])
            == if s[i] != '^' then out + [s[i]] + CaretDecode(s[i + 1..])
               else if i + 1 == |s| then out + ['^'] + CaretDecode(s[i + 1..])
               else (if s[i + 1] == 'n' || s[i + 1] == 'N' then out + ['\n']
                     else if s[i + 1] == '\'' then out + ['"']
                     else if s[i + 1] == '^' then out + ['^']
                     else out + ['^'] + [s[i + 1]]) + CaretDecode(s[i + 2..])
  {
    var t := s[i..];
    assert t[1..] == s[i + 1..];
    if i + 1 < |s| { assert t[2..] == s[i + 2..]; } else { assert s[i + 1..] == []; }
  }

  function CaretChar(c: char): string {
    if c == '^' then "^^" else if c == '\n' then "^n" else if c == '"' then "^'" else [c]
  }

  function CaretEncode(s: string): string {
    if s == [] then [] else CaretChar(s[0]) + CaretEncode(s[1..])
  }

  lemma CaretOne(c: char, rest: string)
    ensures CaretDecode(CaretChar(c) + rest) == [c] + CaretDecode(rest)
  {
    var e := CaretChar(c);
    assert (e + rest)[|e|..] == rest;
  }

  lemma {:induction false} CaretRoundTrip(s: string)
    ensures CaretDecode(CaretEncode(s)) == s
    ensures '"' !in CaretEncode(s)
  {
    hide CaretDecode;
    if s == [] {
      assert CaretDecode([]) == [] by { CaretEmpty(); }
    } else {
      CaretOne(s[0], CaretEncode(s[1..]));
      CaretRoundTrip(s[1..]);
    }
  }

  lemma CaretEmpty()
    ensures CaretDecode([]) == []
  {
  }

  // ---- The split --------------------------------------------------------------------------------------------------

  datatype Param = Param(name: string, value: string)
  datatype Line = Line(name: string, params: seq<Param>, value: string)

  /** The pieces before the first unquoted `:`, cut at unquoted `;`, and what follows it. */
  function Scan(s: string, inQuotes: bool, current: string): Option<(seq<string>, string)>
    decreases |s|
  {
    if s == [] then None
    else if s[0] == ';' && !inQuotes then
      match Scan(s[1..], false, []) case None => None case Some((segs, value)) => Some(([current] + segs, value))
    else if s[0] == ':' && !inQuotes then Some(([current], s[1..]))
    else Scan(s[1..], if s[0] == '"' then !inQuotes else inQuotes, current + [s[0]])
  }

  function ParamOf(segment: string): Param {
    var eq := Find(segment, '=');
    if eq < |segment| then Param(UpperAll(Trim(segment[..eq])), ParamValue(segment[eq + 1..]))
    else Param(UpperAll(Trim(segment)), "")
  }

  function ParamsOf(segments: seq<string>): seq<Param> {
    if segments == [] then []
    else (if Trim(segments[0]) == [] then [] else [ParamOf(segments[0])]) + ParamsOf(segments[1..])
  }

  function Parse(line: string): Option<Line> {
    match Scan(line, false, [])
    case None => None
    case Some((segs, value)) =>
      if segs == [] then None
      else
        var name := UpperAll(Trim(segs[0]));
        if name == [] then None else Some(Line(name, ParamsOf(segs[1..]), value))
  }

  /** `parse_content_line`: one pass that updates the quote flag and the start of the segment. */
  method ParseContentLine(line: string) returns (r: Option<Line>)
    ensures r == Parse(line)
  {
    var inQuotes := false;
    var segments: seq<string> := [];
    var segStart := 0;
    var colon := |line|;
    var i := 0;
    assert line[0..0] == [] && line[0..] == line;
    ChainedNone(Scan(line, false, []));
    while i < |line|
      invariant segStart <= i <= |line| && colon == |line|
      invariant Scan(line, false, []) == Chained(segments, Scan(line[i..], inQuotes, line[segStart..i]))
    {
      var c := line[i];
      assert line[i..][1..] == line[i + 1..];
      assert line[segStart..i] + [c] == line[segStart..i + 1];
      if c == '"' {
        inQuotes := !inQuotes;
      } else if c == ';' && !inQuotes {
        ChainedMore(segments, line[segStart..i], Scan(line[i + 1..], false, []));
        segments := segments + [line[segStart..i]];
        segStart := i + 1;
        assert line[segStart..i + 1] == [];
      } else if c == ':' && !inQuotes {
        colon := i;
        break;
      }
      i := i + 1;
    }
    if colon == |line| {
      assert line[i..] == [];
      return None;
    }
    segments := segments + [line[segStart..colon]];
    assert Scan(line, false, []) == Some((segments, line[colon + 1..]));
    var name := UpperAll(Trim(segments[0]));
    if name == [] {
      return None;
    }
    r := Some(Line(name, ParamsOf(segments[1..]), line[colon + 1..]));
  }

  ghost function Chained(segments: seq<string>, r: Option<(seq<string>, string)>): Option<(seq<string>, string)> {
    match r case None => None case Some((segs, value)) => Some((segments + segs, value))
  }

  lemma ChainedNone(r: Option<(seq<string>, string)>)
    ensures Chained([], r) == r
  {
    if r.Some? {
      assert [] + r.value.0 == r.value.0;
    }
  }

  lemma ChainedMore(segments: seq<string>, s: string, r: Option<(seq<string>, string)>)
    ensures Chained(segments, Chained([s], r)) == Chained(segments + [s], r)
  {
    if r.Some? {
      assert segments + ([s] + r.value.0) == segments + [s] + r.value.0;
    }
  }

  // ---- Printing (section 3.1 of RFC 5545) ---------------------------------------------------------------------------

  /** The ways a parameter can stand in a line: quoted, unquoted, or without a value. */
  datatype Written = Quoted(name: string, value: string) | Unquoted(name: string, value: string) | Bare(name: string)

  function Meant(w: Written): Param {
    match w
    case Quoted(n, v) => Param(UpperAll(n), v)
    case Unquoted(n, v) => Param(UpperAll(n), v)
    case Bare(n) => Param(UpperAll(n), "")
  }

  function Segment(w: Written): string {
    match w
    case Quoted(n, v) => n + ("=" + ("\"" + (CaretEncode(v) + "\"")))
    case Unquoted(n, v) => n + ("=" + v)
    case Bare(n) => n
  }

  function PrintParams(ps: seq<Written>): string {
    if ps == [] then "" else ";" + (Segment(ps[0]) + PrintParams(ps[1..]))
  }

  function PrintLine(name: string, ps: seq<Written>, value: string): string {
    name + (PrintParams(ps) + (":" + value))
  }

  /** A name in any case. */
  predicate CleanName(n: string) {
    && Trimmed(n)
    && forall i :: 0 <= i < |n| ==> n[i] != '"' && n[i] != ';' && n[i] != ':' && n[i] != '='
  }

  /** A value that needs neither quotes nor carets. */
  predicate PlainValue(v: string) {
    Trimmed(v) && forall i :: 0 <= i < |v| ==> v[i] != '"' && v[i] != ';' && v[i] != ':' && v[i] != '^'
  }

  predicate ValidParam(w: Written) {
    CleanName(w.name) && (w.Unquoted? ==> PlainValue(w.value)) && (w.Bare? ==> w.name != [])
  }

  function Segments(ps: seq<Written>): seq<string> {
    if ps == [] then [] else [Segment(ps[0])] + Segments(ps[1..])
  }

  function AllMeant(ps: seq<Written>): seq<Param> {
    if ps == [] then [] else [Meant(ps[0])] + AllMeant(ps[1..])
  }

  /** Outside quotes, text without separators and quotes is taken into the current piece. */
  lemma {:induction false} ScanPlain(text: string, rest: string, current: string)
    requires forall i :: 0 <= i < |text| ==> text[i] != '"' && text[i] != ';' && text[i] != ':'
    ensures Scan(text + rest, false, current) == Scan(rest, false, current + text)
  {
    if text == [] {
      assert text + rest == rest && current + text == current;
    } else {
      assert (text + rest)[1..] == text[1..] + rest;
      assert current + [text[0]] + text[1..] == current + text;
      ScanPlain(text[1..], rest, current + [text[0]]);
    }
  }

  /** Inside quotes, anything but a quote is. */
  lemma {:induction false} ScanQuoted(text: string, rest: string, current: string)
    requires '"' !in text
    ensures Scan(text + ("\"" + rest), true, current) == Scan(rest, false, current + (text + "\""))
  {
    if text == [] {
      var s := "\"" + rest;
      assert text + s == s && s[1..] == rest;
      assert current + ['"'] == current + (text + "\"");
    } else {
      assert (text + ("\"" + rest))[1..] == text[1..] + ("\"" + rest);
      assert current + [text[0]] + (text[1..] + "\"") == current + (text + "\"");
      ScanQuoted(text[1..], rest, current + [text[0]]);
    }
  }

  lemma ScanQuotedValue(n: string, code: string, rest: string)
    requires CleanName(n) && '"' !in code
    ensures Scan(n + ("=" + ("\"" + (code + "\""))) + rest, false, [])
            == Scan(rest, false, n + ("=" + ("\"" + (code + "\""))))
  {
    hide Scan;
    var head := n + "=";
    var tail := code + ("\"" + rest);
    assert n + ("=" + ("\"" + (code + "\""))) + rest == head + ("\"" + tail);
    ScanPlain(head, "\"" + tail, []);
    assert [] + head == head;
    ScanOpenQuote(tail, head);
    ScanQuoted(code, rest, head + ['"']);
    assert head + ['"'] + (code + "\"") == n + ("=" + ("\"" + (code + "\"")));
  }

  lemma ScanWhole(text: string, rest: string)
    requires forall i :: 0 <= i < |text| ==> text[i] != '"' && text[i] != ';' && text[i] != ':'
    ensures Scan(text + rest, false, []) == Scan(rest, false, text)
  {
    hide Scan;
    ScanPlain(text, rest, []);
    assert [] + text == text;
  }

  lemma ScanSegment(w: Written, rest: string)
    requires ValidParam(w)
    ensures Scan(Segment(w) + rest, false, []) == Scan(rest, false, Segment(w))
  {
    hide Scan, Trimmed;
    match w
    case Quoted(n, v) =>
      CaretRoundTrip(v);
      ScanQuotedValue(n, CaretEncode(v), rest);
    case Unquoted(n, v) => ScanWhole(n + ("=" + v), rest);
    case Bare(n) => ScanWhole(n, rest);
  }

  lemma ScanOpenQuote(rest: string, current: string)
    ensures Scan("\"" + rest, false, current) == Scan(rest, true, current + ['"'])
  {
    assert ("\"" + rest)[1..] == rest;
  }

  lemma ScanSeparators(rest: string, current: string)
    ensures Scan(";" + rest, false, current) == Chained([current], Scan(rest, false, []))
    ensures Scan(":" + rest, false, current) == Some(([current], rest))
  {
    assert (";" + rest)[1..] == rest && (":" + rest)[1..] == rest;
  }

  lemma {:induction false} ScanParams(ps: seq<Written>, value: string, current: string)
    requires forall i :: 0 <= i < |ps| ==> ValidParam(ps[i])
    ensures Scan(PrintParams(ps) + (":" + value), false, current) == Some(([current] + Segments(ps), value))
  {
    hide Scan, ValidParam, Segment;
    if ps == [] {
      assert PrintParams(ps) + (":" + value) == ":" + value;
      ScanSeparators(value, current);
      assert [current] + [] == [current];
    } else {
      var rest := PrintParams(ps[1..]) + (":" + value);
      assert PrintParams(ps) + (":" + value) == ";" + (Segment(ps[0]) + rest);
      ScanSeparators(Segment(ps[0]) + rest, current);
      ScanSegment(ps[0], rest);
      ScanParams(ps[1..], value, Segment(ps[0]));
      assert [current] + ([Segment(ps[0])] + Segments(ps[1..])) == [current] + Segments(ps);
    }
  }

  lemma QuotedValue(code: string)
    ensures Trim("\"" + (code + "\"")) == "\"" + (code + "\"")
    ensures StripQuotes("\"" + (code + "\"")) == code
  {
    TrimTrimmed("\"" + (code + "\""));
  }

  lemma {:induction false} PlainStays(v: string)
    requires forall i :: 0 <= i < |v| ==> v[i] != '^'
    ensures CaretDecode(v) == v
  {
    if v != [] {
      PlainStays(v[1..]);
    }
  }

  /** A segment is cut at the `=` behind its name. */
  lemma SegmentSplit(name: string, raw: string)
    requires CleanName(name)
    ensures var s := name + ("=" + raw);
            Trim(s) != [] && ParamOf(s) == Param(UpperAll(name), ParamValue(raw))
  {
    hide Trim, ParamValue, Find, UpperAll;
    TrimTrimmed(name);
    var s := name + ("=" + raw);
    assert s[|name|] == '=';
    assert forall i :: 0 <= i < |name| ==> s[i] == name[i];
    FindIs(s, '=', |name|);
    assert s[..|name|] == name && s[|name| + 1..] == raw;
    NotBlank(s, |name|);
  }

  lemma BareMeans(name: string)
    requires CleanName(name) && name != []
    ensures Trim(name) != [] && ParamOf(name) == Param(UpperAll(name), "")
  {
    hide Trim, Find, ParamValue;
    TrimTrimmed(name);
    FindIs(name, '=', |name|);
  }

  /** A written parameter is read back as meant. */
  lemma SegmentMeans(w: Written)
    requires ValidParam(w)
    ensures Trim(Segment(w)) != [] && ParamOf(Segment(w)) == Meant(w)
  {
    hide CaretEncode, Trim, ParamValue, ParamOf, CleanName;
    match w
    case Quoted(n, v) =>
      SegmentSplit(n, "\"" + (CaretEncode(v) + "\""));
      QuotedMeans(v);
    case Unquoted(n, v) =>
      SegmentSplit(n, v);
      PlainMeans(v);
    case Bare(n) => BareMeans(n);
  }

  lemma QuotedMeans(v: string)
    ensures ParamValue("\"" + (CaretEncode(v) + "\"")) == v
  {
    hide CaretDecode, CaretEncode, Trim;
    QuotedValue(CaretEncode(v));
    CaretRoundTrip(v);
  }

  lemma PlainMeans(v: string)
    requires PlainValue(v)
    ensures ParamValue(v) == v
  {
    hide CaretDecode;
    TrimTrimmed(v);
    PlainStays(v);
  }

  lemma NotBlank(s: string, k: nat)
    requires k < |s| && !IsSpace(s[k])
    ensures Trim(s) != []
  {
    var a, b := TrimShape(s);
    assert Blank(a + b);
    assert Trim(s) == [] ==> s == a + b;
  }

  lemma {:induction false} ParamsMean(ps: seq<Written>)
    requires forall i :: 0 <= i < |ps| ==> ValidParam(ps[i])
    ensures ParamsOf(Segments(ps)) == AllMeant(ps)
  {
    hide ParamOf, Meant, Segment, ValidParam, Trim;
    if ps != [] {
      SegmentMeans(ps[0]);
      assert Segments(ps)[1..] == Segments(ps[1..]);
      ParamsMean(ps[1..]);
    }
  }

  /** Parsing a printed line gives its name and parameters back, the names in upper case, and its value, whatever the
      values are. */
  lemma ParseUndoesPrint(name: string, ps: seq<Written>, value: string)
    requires CleanName(name) && name != [] && forall i :: 0 <= i < |ps| ==> ValidParam(ps[i])
    ensures Parse(PrintLine(name, ps, value)) == Some(Line(UpperAll(name), AllMeant(ps), value))
  {
    TrimTrimmed(name);
    ScanWhole(name, PrintParams(ps) + (":" + value));
    hide Scan, Segments, ValidParam, PrintParams, Trim, ParamsOf, AllMeant, UpperAll;
    ScanParams(ps, value, name);
    assert ([name] + Segments(ps))[1..] == Segments(ps);
    ParamsMean(ps);
  }

  /** Without a colon, or without a name before it, there is no line. */
  lemma NotALine(text: string, value: string, blanks: string)
    requires (forall i :: 0 <= i < |text| ==> text[i] != ':') && Blank(blanks)
    ensures Parse(text).None? && Parse(blanks + (":" + value)).None?
  {
    ScanNone(text, false, []);
    assert !IsSpace('"') && !IsSpace(';') && !IsSpace(':');
    ScanWhole(blanks, ":" + value);
    ScanSeparators(value, blanks);
    assert blanks + "" + "" == blanks;
    TrimIs(blanks, "", "");
    hide Scan, Trim;
  }

  lemma {:induction false} ScanNone(text: string, inQuotes: bool, current: string)
    requires forall i :: 0 <= i < |text| ==> text[i] != ':'
    ensures Scan(text, inQuotes, current).None?
    decreases |text|
  {
    if text != [] {
      ScanNone(text[1..], false, []);
      ScanNone(text[1..], if text[0] == '"' then !inQuotes else inQuotes, current + [text[0]]);
    }
  }

  // ---- Lines -------------------------------------------------------------------------------------------------------

  /** `str::lines`: cut at newlines, one carriage return before each dropped, nothing after the last one. */
  function Lines(s: string): seq<string> {
    if s == [] then []
    else
      var n := Find(s, '\n');
      [WithoutReturn(s[..n], n < |s|)] + if n < |s| then Lines(s[n + 1..]) else []
  }

  function WithoutReturn(line: string, ended: bool): string {
    if ended && line != [] && line[|line| - 1] == '\r' then line[..|line| - 1] else line
  }

  /** The logical lines of a folded text. */
  function Texts(lines: seq<Folded>): seq<string> {
    if lines == [] then [] else [TextOf(lines[0])] + Texts(lines[1..])
  }

  lemma {:induction false} PiecesHaveNoBreaks(more: seq<Piece>)
    requires forall j :: 0 <= j < |more| ==> NoBreaks(more[j].text)
    ensures NoBreaks(TextOfPieces(more))
  {
    if more != [] {
      PiecesHaveNoBreaks(more[1..]);
    }
  }

  lemma ValidFoldTail(lines: seq<Folded>)
    requires ValidFold(lines) && lines != []
    ensures ValidFold(lines[1..]) && NoBreaks(TextOf(lines[0]))
    ensures IsBreak(lines[0].end) || (|lines| == 1 && lines[0].end == "" && TextOf(lines[0]) != "")
  {
    PiecesHaveNoBreaks(lines[0].more);
    assert forall i :: 0 <= i < |lines[1..]| ==> lines[1..][i] == lines[i + 1];
  }

  lemma {:induction false} LinesOfLogical(lines: seq<Folded>)
    requires ValidFold(lines)
    ensures Lines(Logical(lines)) == Texts(lines)
  {
    hide Lines, ValidFold, TextOf;
    if lines == [] {
      NoLines();
    } else {
      ValidFoldTail(lines);
      var text, rest := TextOf(lines[0]), Logical(lines[1..]);
      if lines[0].end == "" {
        LastLine(text);
        assert lines[1..] == [] && text + rest == text;
      } else {
        LinesOfLogical(lines[1..]);
        LinesCons(text, rest);
      }
    }
  }

  lemma NoLines()
    ensures Lines("") == []
  {
  }

  lemma LastLine(text: string)
    requires NoBreaks(text) && text != []
    ensures Lines(text) == [text]
  {
    FindIs(text, '\n', |text|);
    assert text[..|text|] == text;
  }

  lemma LinesCons(text: string, rest: string)
    requires NoBreaks(text)
    ensures Lines(text + ("\n" + rest)) == [text] + Lines(rest)
  {
    hide NoBreaks, Lines, Find;
    NewlineAt(text, rest);
    if text != [] { LastIsText(text); }
    var s := text + ("\n" + rest);
    assert WithoutReturn(text, true) == text;
    LinesFirst(s, |text|);
  }

  lemma LinesFirst(s: string, n: nat)
    requires n < |s| && Find(s, '\n') == n
    ensures Lines(s) == [WithoutReturn(s[..n], true)] + Lines(s[n + 1..])
  {
    hide Find, WithoutReturn;
  }

  lemma LastIsText(text: string)
    requires NoBreaks(text) && text != []
    ensures text[|text| - 1] != '\r'
  {
  }

  lemma NewlineAt(text: string, rest: string)
    requires NoBreaks(text)
    ensures var s := text + ("\n" + rest);
            Find(s, '\n') == |text| && s[..|text|] == text && s[|text| + 1..] == rest
  {
    hide Find;
    var s := text + ("\n" + rest);
    assert s[|text|] == '\n' && forall i :: 0 <= i < |text| ==> s[i] == text[i];
    FindIs(s, '\n', |text|);
  }
}
