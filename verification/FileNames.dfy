/** The names attachments are written under. */
module FileNames {
  import opened Text

  // ---- Decimal numbers ---------------------------------------------------------------------------------------

  function Digit(d: nat): char
    requires d < 10
  {
    '0' + d as char
  }

  function Decimal(n: nat): (s: string)
    ensures s != [] && (|s| == 1 <==> n < 10)
  {
    if n < 10 then [Digit(n)] else Decimal(n / 10) + [Digit(n % 10)]
  }

  lemma {:induction false} DecimalInjective(a: nat, b: nat)
    requires Decimal(a) == Decimal(b)
    ensures a == b
  {
    var s, t := Decimal(a), Decimal(b);
    assert s[|s| - 1] == Digit(a % 10) && t[|t| - 1] == Digit(b % 10);
    if a >= 10 && b >= 10 {
      assert s[..|s| - 1] == Decimal(a / 10) && t[..|t| - 1] == Decimal(b / 10);
      DecimalInjective(a / 10, b / 10);
    }
  }

  /** `{id}` of a 64-bit row id. */
  function Signed(id: int): string {
    if id < 0 then "-" + Decimal(-id) else Decimal(id)
  }

  // ---- Numbered names ----------------------------------------------------------------------------------------

  /** `rfind('.')` */
  function LastDot(s: string): (r: Option<nat>)
    ensures r.Some? ==> r.value < |s| && s[r.value] == '.' && forall i :: r.value < i < |s| ==> s[i] != '.'
    ensures r.None? ==> forall i :: 0 <= i < |s| ==> s[i] != '.'
  {
    if s == [] then None
    else if s[|s| - 1] == '.' then Some(|s| - 1)
    else LastDot(s[..|s| - 1])
  }

  lemma LastDotIs(s: string, k: nat)
    requires k < |s| && s[k] == '.' && forall i :: k < i < |s| ==> s[i] != '.'
    ensures LastDot(s) == Some(k)
  {
  }

  /** The dot before the extension; a leading one starts no extension. */
  predicate HasExtension(s: string) {
    LastDot(s).Some? && LastDot(s).value > 0
  }

  function Dot(s: string): nat
    requires HasExtension(s)
  {
    LastDot(s).value
  }

  /** `numbered_filename`: `photo.pdf` and 1 make `photo(1).pdf`. */
  function Numbered(name: string, n: nat): string {
    if HasExtension(name) then name[..Dot(name)] + ("(" + Decimal(n) + ").") + name[Dot(name) + 1..]
    else name + ("(" + Decimal(n) + ")")
  }

  /** The n-th name tried. */
  function Candidate(name: string, n: nat): string {
    if n == 0 then name else Numbered(name, n)
  }

  lemma MiddleEqual(a: string, x: string, y: string, b: string)
    requires a + x + b == a + y + b
    ensures x == y
  {
    assert |x| == |y|;
    forall i | 0 <= i < |x| ensures x[i] == y[i] {
      assert (a + x + b)[|a| + i] == x[i] && (a + y + b)[|a| + i] == y[i];
    }
  }

  lemma BracketsEqual(x: string, y: string, close: string)
    requires "(" + x + close == "(" + y + close
    ensures x == y
  {
    MiddleEqual("(", x, y, close);
  }

  /** No two numbers make the same name, and none makes the bare one. */
  lemma CandidateInjective(name: string, a: nat, b: nat)
    requires Candidate(name, a) == Candidate(name, b)
    ensures a == b
  {
    hide Decimal;
    if a == 0 || b == 0 {
      assert |Numbered(name, a)| > |name| && |Numbered(name, b)| > |name|;
    } else {
      if HasExtension(name) {
        MiddleEqual(name[..Dot(name)], "(" + Decimal(a) + ").", "(" + Decimal(b) + ").", name[Dot(name) + 1..]);
        BracketsEqual(Decimal(a), Decimal(b), ").");
      } else {
        var x, y := "(" + Decimal(a) + ")", "(" + Decimal(b) + ")";
        assert name + x + [] == name + x && name + y + [] == name + y;
        MiddleEqual(name, x, y, []);
        BracketsEqual(Decimal(a), Decimal(b), ")");
      }
      DecimalInjective(a, b);
    }
  }

  lemma {:induction false} CandidatesCount(name: string, n: nat, existing: set<string>)
    requires forall j :: 0 <= j < n ==> Candidate(name, j) in existing
    ensures n <= |existing|
  {
    hide Candidate;
    if n > 0 {
      var last := Candidate(name, n - 1);
      forall j | 0 <= j < n - 1 ensures Candidate(name, j) in existing - {last} {
        if Candidate(name, j) == last { CandidateInjective(name, j, n - 1); }
      }
      CandidatesCount(name, n - 1, existing - {last});
    }
  }

  /** `free_path` in a folder with these names: the first candidate nobody has, within as many tries as names. */
  method FreePath(existing: set<string>, name: string) returns (p: string, ghost k: nat)
    ensures p !in existing && p == Candidate(name, k) && k <= |existing|
    ensures forall j :: 0 <= j < k ==> Candidate(name, j) in existing
  {
    hide Numbered;
    p := name;
    k := 0;
    var n := 1;
    while p in existing
      invariant n == k + 1 && p == Candidate(name, k) && k <= |existing|
      invariant forall j :: 0 <= j < k ==> Candidate(name, j) in existing
      decreases |existing| - k
    {
      CandidatesCount(name, k + 1, existing);
      p := Numbered(name, n);
      n := n + 1;
      k := k + 1;
    }
  }

  // ---- Clean names -------------------------------------------------------------------------------------------

  /** `char::is_control` */
  predicate IsControl(c: char) {
    c < ' ' || '\U{7F}' <= c <= '\U{9F}'
  }

  predicate IsReserved(c: char) {
    c == ':' || c == '*' || c == '?' || c == '"' || c == '<' || c == '>' || c == '|'
  }

  predicate IsSeparator(c: char) {
    c == '/' || c == '\\'
  }

  predicate Allowed(c: char) {
    !IsControl(c) && !IsReserved(c) && !IsSeparator(c)
  }

  predicate AllAllowed(s: string) {
    forall i :: 0 <= i < |s| ==> Allowed(s[i])
  }

  predicate DotOrSpace(c: char) {
    c == ' ' || c == '.'
  }

  predicate EndsWell(s: string) {
    s != [] ==> !DotOrSpace(s[|s| - 1])
  }

  /** What follows the last separator. */
  function Basename(s: string): (r: string)
    ensures forall i :: 0 <= i < |r| ==> !IsSeparator(r[i])
  {
    if s == [] || IsSeparator(s[|s| - 1]) then [] else Basename(s[..|s| - 1]) + [s[|s| - 1]]
  }

  function Replaced(s: string): (r: string)
    ensures |r| == |s|
    ensures forall i :: 0 <= i < |s| ==> r[i] == if IsControl(s[i]) || IsReserved(s[i]) then '_' else s[i]
  {
    seq(|s|, i requires 0 <= i < |s| => if IsControl(s[i]) || IsReserved(s[i]) then '_' else s[i])
  }

  /** `trim_end_matches([' ', '.'])` */
  function TrimDots(s: string): (r: string)
    ensures r <= s && EndsWell(r)
    ensures forall i :: |r| <= i < |s| ==> DotOrSpace(s[i])
  {
    if s != [] && DotOrSpace(s[|s| - 1]) then TrimDots(s[..|s| - 1]) else s
  }

  const WINDOWS_DEVICE_NAMES := [
    "con", "prn", "aux", "nul", "com1", "com2", "com3", "com4", "com5", "com6", "com7", "com8",
    "com9", "lpt1", "lpt2", "lpt3", "lpt4", "lpt5", "lpt6", "lpt7", "lpt8", "lpt9"]

  predicate IsDevice(stem: string) {
    exists i :: 0 <= i < |WINDOWS_DEVICE_NAMES| && EqIgnoreCase(stem, WINDOWS_DEVICE_NAMES[i])
  }

  /** What precedes the first dot: what Windows takes for a device, whatever follows. */
  function Stem(s: string): string {
    s[..Find(s, '.')]
  }

  function Fallback(id: int): string {
    "attachment-" + (Signed(id) + ".bin")
  }

  /** `clean_attachment_name` */
  function Cleaned(name: Option<string>, id: int): string {
    var base := Trim(Basename(if name.Some? then name.value else ""));
    var cleaned := TrimDots(Replaced(base));
    if cleaned == [] then Fallback(id)
    else if IsDevice(Stem(cleaned)) then "_" + cleaned
    else cleaned
  }

  // ---- The cap -----------------------------------------------------------------------------------------------

  const MAX_ATTACHMENT_NAME_BYTES := 150

  /** `is_char_boundary`: some whole number of characters takes exactly `n` bytes. */
  predicate IsBoundary(s: string, n: nat) {
    exists k :: 0 <= k <= |s| && Utf8Len(s[..k]) == n
  }

  /** The longest prefix of at most `n` bytes. */
  function Fitting(s: string, n: nat): (r: string)
    ensures r <= s && Utf8Len(r) <= n
  {
    if Utf8Len(s) <= n then s else Fitting(s[..|s| - 1], n)
  }

  lemma {:induction false} FittingIsLongest(s: string, n: nat)
    ensures |Fitting(s, n)| < |s| ==> Utf8Len(s[..|Fitting(s, n)| + 1]) > n
  {
    if Utf8Len(s) > n {
      var t := s[..|s| - 1];
      FittingIsLongest(t, n);
      if |Fitting(t, n)| < |t| {
        assert t[..|Fitting(t, n)| + 1] == s[..|Fitting(t, n)| + 1];
      } else {
        assert s[..|s|] == s;
      }
    }
  }

  /** The cut at the nearest boundary below does not lose a character that would fit. */
  lemma {:induction false} NoBoundary(s: string, n: nat)
    requires n > 0 && !IsBoundary(s, n)
    ensures Fitting(s, n) == Fitting(s, n - 1)
  {
    assert s[..|s|] == s;
    if Utf8Len(s) > n {
      var t := s[..|s| - 1];
      forall k | 0 <= k <= |t| ensures Utf8Len(t[..k]) != n {
        assert t[..k] == s[..k];
      }
      NoBoundary(t, n);
    }
  }

  lemma {:induction false} PrefixLen(s: string, k: nat)
    requires k <= |s|
    ensures Utf8Len(s[..k]) <= Utf8Len(s)
    ensures k < |s| ==> Utf8Len(s[..k]) < Utf8Len(s)
    decreases |s|
  {
    assert s[..|s|] == s;
    if k < |s| {
      var t := s[..|s| - 1];
      PrefixLen(t, k);
      assert t[..k] == s[..k];
    }
  }

  lemma {:induction false} BoundaryFits(s: string, k: nat)
    requires k <= |s|
    ensures Fitting(s, Utf8Len(s[..k])) == s[..k]
    decreases |s|
  {
    assert s[..|s|] == s;
    if k < |s| {
      var t := s[..|s| - 1];
      PrefixLen(s, k);
      assert t[..k] == s[..k];
      BoundaryFits(t, k);
    }
  }

  /** The extension that survives a cut: a short one, with its dot. */
  function Tail(name: string): (ext: string)
    ensures |ext| <= |name| && name[|name| - |ext|..] == ext && Utf8Len(ext) <= 17
  {
    if HasExtension(name) && Utf8Len(name[Dot(name)..]) <= 17 then name[Dot(name)..] else []
  }

  /** `cap_name` */
  function Capped(name: string, max: nat): string
    requires max >= 17
  {
    if Utf8Len(name) <= max then name
    else
      var ext := Tail(name);
      TrimDots(Fitting(name[..|name| - |ext|], max - Utf8Len(ext))) + ext
  }

  method CapName(name: string, max: nat) returns (r: string)
    requires max >= 17
    ensures r == Capped(name, max)
  {
    hide Utf8Len, Fitting, HasExtension, TrimDots, LastDot;
    if Utf8Len(name) <= max {
      return name;
    }
    var ext := Tail(name);
    var stem := name[..|name| - |ext|];
    var cut := max - Utf8Len(ext);
    while !IsBoundary(stem, cut)
      invariant 0 <= cut <= max
      invariant Fitting(stem, cut) == Fitting(stem, max - Utf8Len(ext))
      decreases cut
    {
      EmptyBoundary(stem);
      NoBoundary(stem, cut);
      cut := cut - 1;
    }
    var k: nat :| k <= |stem| && Utf8Len(stem[..k]) == cut;
    BoundaryFits(stem, k);
    r := TrimDots(stem[..k]) + ext;
  }

  lemma EmptyBoundary(s: string)
    ensures IsBoundary(s, 0)
  {
    assert Utf8Len(s[..0]) == 0;
  }

  // ---- The attachment's name -----------------------------------------------------------------------------------

  /** The type tables: an extension for a type, the canonical form of a type, and the type of an extension. */
  datatype Types = Types(
    extension: string -> Option<string>,
    canonical: string -> string,
    typeOf: string -> Option<string>)

  predicate GoodExtension(e: string) {
    0 < |e| <= 16 && forall i :: 0 <= i < |e| ==> 'a' <= e[i] <= 'z' || '0' <= e[i] <= '9'
  }

  /** Every extension in the table is a few lower-case letters and digits. */
  ghost predicate GoodTypes(t: Types) {
    forall m :: t.extension(m).Some? ==> GoodExtension(t.extension(m).value)
  }

  /** The extension names a type, and not the wanted one. */
  predicate NamesOtherType(t: Types, ext: string, mime: string) {
    t.typeOf(ext).Some? && t.typeOf(ext).value != t.canonical(mime)
  }

  /** The cleaned name with the extension its type asks for. */
  function Retyped(t: Types, cleaned: string, mime: string, want: string, id: int): string {
    if cleaned == Fallback(id) then "attachment-" + (Signed(id) + ("." + want))
    else if HasExtension(cleaned) && Dot(cleaned) < |cleaned| - 1 then
      (if NamesOtherType(t, cleaned[Dot(cleaned) + 1..], mime) then cleaned[..Dot(cleaned)] + ("." + want) else cleaned)
    else cleaned + ("." + want)
  }

  /** The name before the cap. */
  function Uncapped(t: Types, name: Option<string>, mime: Option<string>, id: int): string {
    var cleaned := Cleaned(name, id);
    if mime.None? || t.extension(mime.value).None? then cleaned
    else Retyped(t, cleaned, mime.value, t.extension(mime.value).value, id)
  }

  function SafeName(t: Types, name: Option<string>, mime: Option<string>, id: int): string {
    Capped(Uncapped(t, name, mime, id), MAX_ATTACHMENT_NAME_BYTES)
  }

  /** `safe_attachment_name_for_mime` */
  method SafeAttachmentName(t: Types, name: Option<string>, mime: Option<string>, id: int) returns (r: string)
    ensures r == SafeName(t, name, mime, id)
  {
    hide Cleaned, Capped, Fallback, NamesOtherType, Signed;
    var named := Cleaned(name, id);
    if mime.None? || t.extension(mime.value).None? {
      r := CapName(named, MAX_ATTACHMENT_NAME_BYTES);
      return;
    }
    var want := t.extension(mime.value).value;
    if named == Fallback(id) {
      r := CapName("attachment-" + (Signed(id) + ("." + want)), MAX_ATTACHMENT_NAME_BYTES);
      return;
    }
    var dot := LastDot(named);
    if dot.Some? && dot.value > 0 && dot.value < |named| - 1 {
      if NamesOtherType(t, named[dot.value + 1..], mime.value) {
        named := named[..dot.value] + ("." + want);
      }
    } else {
      named := named + ("." + want);
    }
    r := CapName(named, MAX_ATTACHMENT_NAME_BYTES);
  }

  // ---- Every name is fit to write ------------------------------------------------------------------------------

  lemma {:induction false} Utf8LenConcat(a: string, b: string)
    ensures Utf8Len(a + b) == Utf8Len(a) + Utf8Len(b)
    decreases |b|
  {
    if b == [] {
      assert a + b == a;
    } else {
      var c := b[..|b| - 1];
      assert (a + b)[..|a + b| - 1] == a + c;
      Utf8LenConcat(a, c);
    }
  }

  lemma {:induction false} DecimalAllowed(n: nat)
    ensures AllAllowed(Decimal(n)) && EndsWell(Decimal(n))
    ensures forall i :: 0 <= i < |Decimal(n)| ==> '0' <= Decimal(n)[i] <= '9'
  {
    if n >= 10 { DecimalAllowed(n / 10); }
  }

  lemma SignedAllowed(id: int)
    ensures AllAllowed(Signed(id)) && Signed(id) != []
  {
    hide Decimal;
    DecimalAllowed(if id < 0 then -id else id);
  }

  lemma ConcatAllowed(a: string, b: string)
    requires AllAllowed(a) && AllAllowed(b)
    ensures AllAllowed(a + b)
  {
  }

  lemma PrefixAllowed(s: string)
    ensures AllAllowed("attachment-" + s) <==> AllAllowed(s)
  {
    var t := "attachment-" + s;
    assert t[11..] == s;
    assert AllAllowed("attachment-");
    if AllAllowed(t) {
      forall i | 0 <= i < |s| ensures Allowed(s[i]) {
        assert t[i + 11] == s[i];
      }
    } else if AllAllowed(s) {
      ConcatAllowed("attachment-", s);
    }
  }

  lemma FallbackAllowed(id: int)
    ensures AllAllowed(Fallback(id)) && EndsWell(Fallback(id)) && Fallback(id) != []
  {
    hide Signed;
    SignedAllowed(id);
    assert AllAllowed(".bin");
    ConcatAllowed(Signed(id), ".bin");
    PrefixAllowed(Signed(id) + ".bin");
    assert Fallback(id)[|Fallback(id)| - 1] == ".bin"[3] == 'n';
  }

  lemma BaseAllowed(s: string)
    ensures AllAllowed(Replaced(Trim(Basename(s))))
  {
    hide Basename, Trim;
    var b := Basename(s);
    var x, y := TrimShape(b);
    forall i | 0 <= i < |Trim(b)| ensures !IsSeparator(Trim(b)[i]) {
      assert (x + Trim(b) + y)[|x| + i] == Trim(b)[i];
    }
  }

  lemma ShorterAllowed(p: string, s: string)
    requires p <= s && AllAllowed(s)
    ensures AllAllowed(p)
  {
    hide Allowed;
  }

  lemma UnderscoreKeeps(s: string)
    requires AllAllowed(s) && EndsWell(s) && s != []
    ensures AllAllowed("_" + s) && EndsWell("_" + s)
  {
    assert ("_" + s)[|s|] == s[|s| - 1];
    ConcatAllowed("_", s);
  }

  lemma CleanedAllowed(name: Option<string>, id: int)
    ensures AllAllowed(Cleaned(name, id)) && EndsWell(Cleaned(name, id)) && Cleaned(name, id) != []
  {
    hide Basename, Trim, Fallback, IsDevice, TrimDots, Stem, AllAllowed, EndsWell, Replaced;
    var base := Trim(Basename(if name.Some? then name.value else ""));
    BaseAllowed(if name.Some? then name.value else "");
    FallbackAllowed(id);
    var cleaned := TrimDots(Replaced(base));
    ShorterAllowed(cleaned, Replaced(base));
    if cleaned != [] { UnderscoreKeeps(cleaned); }
  }

  lemma WithExtension(s: string, want: string)
    requires AllAllowed(s) && GoodExtension(want)
    ensures AllAllowed(s + ("." + want)) && EndsWell(s + ("." + want))
  {
    var r := s + ("." + want);
    assert r[|r| - 1] == want[|want| - 1];
  }

  lemma NumberedFallbackAllowed(id: int, want: string)
    requires GoodExtension(want)
    ensures var r := "attachment-" + (Signed(id) + ("." + want)); AllAllowed(r) && EndsWell(r)
  {
    SignedAllowed(id);
    hide Signed, GoodExtension, Allowed;
    var tail := Signed(id) + ("." + want);
    WithExtension(Signed(id), want);
    PrefixAllowed(tail);
    var r := "attachment-" + tail;
    assert r[|r| - 1] == tail[|tail| - 1];
  }

  lemma UncappedAllowed(t: Types, name: Option<string>, mime: Option<string>, id: int)
    requires GoodTypes(t)
    ensures var r := Uncapped(t, name, mime, id); AllAllowed(r) && EndsWell(r) && r != []
  {
    hide Cleaned, Fallback, LastDot, NamesOtherType, GoodExtension, Signed, AllAllowed, EndsWell;
    CleanedAllowed(name, id);
    var c := Cleaned(name, id);
    if mime.Some? && t.extension(mime.value).Some? {
      var want := t.extension(mime.value).value;
      NumberedFallbackAllowed(id, want);
      WithExtension(c, want);
      if HasExtension(c) {
        ShorterAllowed(c[..Dot(c)], c);
        WithExtension(c[..Dot(c)], want);
      }
    }
  }

  lemma PrefixNoLonger(p: string, s: string)
    requires p <= s
    ensures Utf8Len(p) <= Utf8Len(s)
  {
    assert p == s[..|p|];
    PrefixLen(s, |p|);
  }

  lemma CappedFits(s: string, max: nat)
    requires max >= 17
    ensures Utf8Len(Capped(s, max)) <= max
  {
    hide LastDot, HasExtension, Utf8Len, Fitting, TrimDots;
    if Utf8Len(s) > max {
      var ext := Tail(s);
      var fit := Fitting(s[..|s| - |ext|], max - Utf8Len(ext));
      PrefixNoLonger(TrimDots(fit), fit);
      Utf8LenConcat(TrimDots(fit), ext);
    }
  }

  lemma CappedAllowed(s: string, max: nat)
    requires max >= 17 && AllAllowed(s) && EndsWell(s)
    ensures AllAllowed(Capped(s, max)) && EndsWell(Capped(s, max))
  {
    hide LastDot, HasExtension, Utf8Len, Fitting, TrimDots;
  }

  /** Whatever the mail calls the attachment: at most 150 bytes, nothing a path or a file system gives a meaning to,
      and no dot or blank at the end. */
  lemma SafeNameIsSafe(t: Types, name: Option<string>, mime: Option<string>, id: int)
    requires GoodTypes(t)
    ensures var r := SafeName(t, name, mime, id);
            Utf8Len(r) <= 150 && AllAllowed(r) && EndsWell(r)
  {
    hide Uncapped, Capped, Utf8Len, AllAllowed, EndsWell;
    UncappedAllowed(t, name, mime, id);
    CappedFits(Uncapped(t, name, mime, id), MAX_ATTACHMENT_NAME_BYTES);
    CappedAllowed(Uncapped(t, name, mime, id), MAX_ATTACHMENT_NAME_BYTES);
  }

  // ---- No name is a device, unless the cap makes it one ----------------------------------------------------------

  lemma FindKept(a: string, b: string, k: nat)
    requires k == Find(a, '.') && (k < |a| || (b != [] && b[0] == '.'))
    ensures Find(a + b, '.') == k
  {
    hide *;
    var s := a + b;
    assert s[k] == '.';
    assert forall i :: 0 <= i < k ==> s[i] == a[i];
    FindIs(s, '.', k);
  }

  /** Text behind the first dot, or a first dot behind the text, does not change the stem. */
  lemma StemKept(a: string, b: string)
    requires Find(a, '.') < |a| || (b != [] && b[0] == '.')
    ensures Stem(a + b) == Stem(a)
  {
    hide Find;
    FindKept(a, b, Find(a, '.'));
    assert (a + b)[..Find(a, '.')] == a[..Find(a, '.')];
  }

  lemma DeviceNames(i: nat)
    requires i < |WINDOWS_DEVICE_NAMES|
    ensures var d := WINDOWS_DEVICE_NAMES[i];
            3 <= |d| <= 4 && 'a' <= d[0] <= 'z' && forall j :: 0 <= j < |d| ==> !DotOrSpace(d[j])
  {
  }

  /** A device name is three or four characters, none of them a dot or blank, from a letter on. */
  lemma DeviceShort(stem: string)
    requires IsDevice(stem)
    ensures 3 <= |stem| <= 4 && stem[0] != '_' && forall j :: 0 <= j < |stem| ==> !DotOrSpace(stem[j])
  {
    var i :| 0 <= i < |WINDOWS_DEVICE_NAMES| && EqIgnoreCase(stem, WINDOWS_DEVICE_NAMES[i]);
    DeviceNames(i);
    forall j | 0 <= j < |stem| ensures !DotOrSpace(stem[j]) {
      assert Lower(stem[j]) == Lower(WINDOWS_DEVICE_NAMES[i][j]);
    }
  }

  lemma FallbackNoDevice(s: string)
    ensures !IsDevice(Stem("attachment-" + s))
  {
    hide IsDevice;
    var t := "attachment-" + s;
    assert t[..11] == "attachment-";
    assert forall i :: 0 <= i < 11 ==> t[..11][i] != '.';
    assert Find(t, '.') >= 11;
    if IsDevice(Stem(t)) { DeviceShort(Stem(t)); }
  }

  lemma CleanedNoDevice(name: Option<string>, id: int)
    ensures !IsDevice(Stem(Cleaned(name, id)))
  {
    hide IsDevice, Signed, TrimDots, Trim, Basename;
    FallbackNoDevice(Signed(id) + ".bin");
    var c := TrimDots(Replaced(Trim(Basename(if name.Some? then name.value else ""))));
    var prefixed := "_" + c;
    assert Find(prefixed, '.') > 0;
    if IsDevice(Stem(prefixed)) { DeviceShort(Stem(prefixed)); }
  }

  /** Before the cap no name is a device's. */
  lemma UncappedNoDevice(t: Types, name: Option<string>, mime: Option<string>, id: int)
    ensures !IsDevice(Stem(Uncapped(t, name, mime, id)))
  {
    hide IsDevice, Signed, Cleaned, Stem, LastDot;
    CleanedNoDevice(name, id);
    var c := Cleaned(name, id);
    if mime.Some? && t.extension(mime.value).Some? {
      var want := t.extension(mime.value).value;
      FallbackNoDevice(Signed(id) + ("." + want));
      StemKept(c, "." + want);
      if HasExtension(c) {
        var front := c[..Dot(c)];
        assert c == front + c[Dot(c)..];
        StemKept(front, c[Dot(c)..]);
        StemKept(front, "." + want);
      }
    }
  }

  /** What a cut leaves of a name before its extension. */
  function CutStem(s: string, max: nat): string
    requires max >= 17
  {
    TrimDots(CutPiece(s, max))
  }

  /** What fits of a name before its extension. */
  function CutPiece(s: string, max: nat): string
    requires max >= 17
  {
    Fitting(s[..|s| - |Tail(s)|], max - Utf8Len(Tail(s)))
  }

  lemma CutStemIsPrefix(s: string, max: nat)
    requires max >= 17
    ensures CutStem(s, max) <= s
    ensures Tail(s) != [] ==> Tail(s)[0] == '.'
    ensures Capped(s, max) == if Utf8Len(s) <= max then s else CutStem(s, max) + Tail(s)
  {
    hide Utf8Len, Fitting, TrimDots, LastDot;
  }

  /** The stem after a cut is the stem before, or all that the cut left. */
  lemma StemOfCut(s: string, k: string, ext: string)
    requires k <= s && (ext != [] ==> ext[0] == '.')
    ensures Stem(k + ext) == if Find(k, '.') < |k| then Stem(s) else k
  {
    if Find(k, '.') < |k| {
      StemKept(k, ext);
      assert s == k + s[|k|..];
      StemKept(k, s[|k|..]);
    } else if ext == [] {
      assert k + ext == k;
    } else {
      StemKept(k, ext);
    }
  }

  lemma DeviceByCut(t: Types, name: Option<string>, mime: Option<string>, id: int)
    ensures var u := Uncapped(t, name, mime, id);
            IsDevice(Stem(SafeName(t, name, mime, id)))
            <==> Utf8Len(u) > MAX_ATTACHMENT_NAME_BYTES && IsDevice(CutStem(u, MAX_ATTACHMENT_NAME_BYTES))
  {
    hide IsDevice, Uncapped, Stem, CutStem, Capped, Tail, Utf8Len;
    var u := Uncapped(t, name, mime, id);
    UncappedNoDevice(t, name, mime, id);
    CutStemIsPrefix(u, MAX_ATTACHMENT_NAME_BYTES);
    var k := CutStem(u, MAX_ATTACHMENT_NAME_BYTES);
    StemOfCut(u, k, Tail(u));
    if IsDevice(k) { DeviceShort(k); }
  }

  /** A device name and nothing but dots and blanks behind it. */
  predicate DeviceThenDots(w: string) {
    exists k :: 0 <= k <= |w| && IsDevice(w[..k]) && forall i :: k <= i < |w| ==> DotOrSpace(w[i])
  }

  lemma TrimmedToDevice(w: string)
    ensures IsDevice(TrimDots(w)) <==> DeviceThenDots(w)
  {
    hide IsDevice, TrimDots;
    if IsDevice(TrimDots(w)) {
      assert w[..|TrimDots(w)|] == TrimDots(w);
    }
    if DeviceThenDots(w) {
      var k :| 0 <= k <= |w| && IsDevice(w[..k]) && forall i :: k <= i < |w| ==> DotOrSpace(w[i]);
      DeviceShort(w[..k]);
      TrimDotsIs(w[..k], w[k..]);
      assert w == w[..k] + w[k..];
    }
  }

  /** A written name is a device's exactly when the name is too long and what fits of it before the extension starts
      with a device name followed by dots and blanks only. */
  lemma DeviceExactly(t: Types, name: Option<string>, mime: Option<string>, id: int)
    ensures var u := Uncapped(t, name, mime, id);
            IsDevice(Stem(SafeName(t, name, mime, id)))
            <==> Utf8Len(u) > MAX_ATTACHMENT_NAME_BYTES && DeviceThenDots(CutPiece(u, MAX_ATTACHMENT_NAME_BYTES))
  {
    hide IsDevice, Uncapped, SafeName, Stem, CutPiece, DeviceThenDots, Utf8Len, TrimDots;
    DeviceByCut(t, name, mime, id);
    TrimmedToDevice(CutPiece(Uncapped(t, name, mime, id), MAX_ATTACHMENT_NAME_BYTES));
  }

  /** A written name is empty exactly when the cap had to cut, kept no extension and found only dots and blanks. */
  lemma EmptyExactly(t: Types, name: Option<string>, mime: Option<string>, id: int)
    requires GoodTypes(t)
    ensures var u := Uncapped(t, name, mime, id);
            SafeName(t, name, mime, id) == ""
            <==> Utf8Len(u) > MAX_ATTACHMENT_NAME_BYTES && Tail(u) == ""
                 && forall i :: 0 <= i < |Fitting(u, MAX_ATTACHMENT_NAME_BYTES)| ==> DotOrSpace(u[i])
  {
    var u := Uncapped(t, name, mime, id);
    TailIsShort(u);
    hide Uncapped, SafeName, Capped, Tail, CutStem, ShortExtension, Utf8Len, Fitting, TrimDots, DotOrSpace;
    UncappedAllowed(t, name, mime, id);
    SafeNameIsCapped(t, name, mime, id);
    CutStemIsPrefix(u, MAX_ATTACHMENT_NAME_BYTES);
    if Utf8Len(u) > MAX_ATTACHMENT_NAME_BYTES && Tail(u) == "" {
      CappedBare(u, MAX_ATTACHMENT_NAME_BYTES);
      AllTrimmed(Fitting(u, MAX_ATTACHMENT_NAME_BYTES));
    }
  }

  lemma TailIsShort(s: string)
    ensures Tail(s) != "" <==> ShortExtension(s)
  {
    hide LastDot, Utf8Len;
  }

  lemma AllTrimmed(s: string)
    ensures TrimDots(s) == "" <==> forall i :: 0 <= i < |s| ==> DotOrSpace(s[i])
  {
    hide TrimDots, DotOrSpace;
    var r := TrimDots(s);
    if r != [] {
      assert r[|r| - 1] == s[|r| - 1];
    }
  }

  lemma EmptyLen()
    ensures Utf8Len([]) == 0
  {
  }

  lemma {:induction false} AsciiLen(s: string)
    requires IsAscii(s)
    ensures Utf8Len(s) == |s|
  {
    if s != [] { AsciiLen(s[..|s| - 1]); }
  }

  lemma FittingAscii(s: string, n: nat)
    requires IsAscii(s) && n <= |s|
    ensures Fitting(s, n) == s[..n]
  {
    hide Utf8Len, Fitting;
    AsciiLen(s[..n]);
    BoundaryFits(s, n);
  }

  lemma {:induction false} BasenameWhole(s: string)
    requires AllAllowed(s)
    ensures Basename(s) == s
  {
    if s != [] { BasenameWhole(s[..|s| - 1]); }
  }

  lemma {:induction false} TrimDotsIs(a: string, b: string)
    requires EndsWell(a) && forall i :: 0 <= i < |b| ==> DotOrSpace(b[i])
    ensures TrimDots(a + b) == a
  {
    if b == [] {
      assert a + b == a;
    } else {
      assert (a + b)[..|a + b| - 1] == a + b[..|b| - 1];
      TrimDotsIs(a, b[..|b| - 1]);
    }
  }

  /** A name with nothing to clean. */
  lemma CleanedWhole(s: string, id: int)
    requires AllAllowed(s) && Trimmed(s) && EndsWell(s) && s != [] && !IsDevice(Stem(s))
    ensures Cleaned(Some(s), id) == s
  {
    hide IsDevice, Stem, Basename, Trim, TrimDots;
    BasenameWhole(s);
    TrimTrimmed(s);
    assert Replaced(s) == s;
    assert s + [] == s;
    TrimDotsIs(s, []);
  }

  predicate AllBlanks(s: string) {
    forall i :: 0 <= i < |s| ==> s[i] == ' '
  }

  /** Cutting can make a device of what was none: `con`, 150 blanks or more and `x.pdf` is written as `con.pdf`. */
  lemma CutMakesDevice(t: Types, device: string, blanks: string, tail: string, id: int)
    requires device == "con" && tail == "x.pdf" && AllBlanks(blanks) && |blanks| >= 150
    ensures IsDevice(Stem(SafeName(t, Some(device + blanks + tail), None, id)))
  {
    hide IsDevice, Uncapped, SafeName, Utf8Len, Fitting, TrimDots, Basename, Trim;
    var u := device + blanks + tail;
    assert u[|u| - 5..] == tail && u[|u| - 4] == tail[1] && u[|u| - 3] == tail[2] && u[|u| - 2] == tail[3]
        && u[|u| - 1] == tail[4];
    assert u[..3] == device && u[0] == device[0];
    assert AllAllowed(device) && AllAllowed(tail) && IsAscii(device) && IsAscii(tail);
    CutMakesDeviceShape(device, blanks, tail, u);
    if IsDevice(Stem(u)) { DeviceShort(Stem(u)); }
    CleanedWhole(u, id);
    UncappedPlain(t, u, id);
    AsciiLen(u);
    IsDeviceAt(device, 0);
    DeviceByCut(t, Some(u), None, id);
  }

  lemma UncappedPlain(t: Types, s: string, id: int)
    ensures Uncapped(t, Some(s), None, id) == Cleaned(Some(s), id)
  {
  }

  lemma IsDeviceAt(s: string, i: nat)
    requires i < |WINDOWS_DEVICE_NAMES| && s == WINDOWS_DEVICE_NAMES[i]
    ensures IsDevice(s)
  {
  }

  lemma ConcatAscii(a: string, b: string)
    requires IsAscii(a) && IsAscii(b)
    ensures IsAscii(a + b)
  {
  }

  lemma BlanksPlain(blanks: string)
    requires AllBlanks(blanks)
    ensures AllAllowed(blanks) && IsAscii(blanks)
    ensures forall i :: 0 <= i < |blanks| ==> DotOrSpace(blanks[i])
  {
  }

  lemma CutMakesDeviceShape(device: string, blanks: string, tail: string, u: string)
    requires |device| == 3 && |tail| == 5 && AllBlanks(blanks) && |blanks| >= 150 && u == device + blanks + tail
    requires AllAllowed(device) && AllAllowed(tail) && IsAscii(device) && IsAscii(tail)
    requires (forall i :: 0 <= i < 3 ==> 'a' <= device[i] <= 'z') && tail[0] == 'x' && tail[1] == '.'
    requires forall i :: 2 <= i < 5 ==> 'a' <= tail[i] <= 'z'
    ensures AllAllowed(u) && IsAscii(u) && Trimmed(u) && EndsWell(u) && |Stem(u)| > 4
    ensures CutStem(u, MAX_ATTACHMENT_NAME_BYTES) == device
  {
    hide Utf8Len, Fitting, TrimDots, Find, LastDot, AllAllowed, IsAscii;
    BlanksPlain(blanks);
    ConcatAllowed(device, blanks);
    ConcatAllowed(device + blanks, tail);
    ConcatAscii(device, blanks);
    ConcatAscii(device + blanks, tail);
    assert u[0] == device[0] && u[|u| - 1] == tail[4];
    DotOfShape(device, blanks, tail, u);
    AsciiSlice(u, |u| - 4, |u|);
    AsciiLen(u[|u| - 4..|u|]);
    assert u[|u| - 4..|u|] == u[|u| - 4..] == Tail(u);
    var stem := u[..|u| - 4];
    AsciiSlice(u, 0, |u| - 4);
    assert u[0..|u| - 4] == stem;
    FittingAscii(stem, 146);
    assert stem[..146] == device + blanks[..143];
    TrimDotsIs(device, blanks[..143]);
  }

  lemma AsciiSlice(s: string, i: nat, j: nat)
    requires IsAscii(s) && i <= j <= |s|
    ensures IsAscii(s[i..j])
  {
  }

  lemma DotOfShape(device: string, blanks: string, tail: string, u: string)
    requires |device| == 3 && |tail| == 5 && AllBlanks(blanks) && u == device + blanks + tail
    requires (forall i :: 0 <= i < 3 ==> 'a' <= device[i] <= 'z') && tail[0] == 'x' && tail[1] == '.'
    requires forall i :: 2 <= i < 5 ==> 'a' <= tail[i] <= 'z'
    ensures Find(u, '.') == |u| - 4 && LastDot(u) == Some(|u| - 4)
  {
    hide Find, LastDot;
    forall i | 0 <= i < |u| ensures u[i] == '.' <==> i == |u| - 4 {
      assert u[i] == if i < 3 then device[i] else if i < 3 + |blanks| then blanks[i - 3] else tail[i - 3 - |blanks|];
    }
    FindIs(u, '.', |u| - 4);
    LastDotIs(u, |u| - 4);
  }

  predicate AllOne(s: string, c: char) {
    forall i :: 0 <= i < |s| ==> s[i] == c
  }

  predicate Letters(s: string) {
    forall i :: 0 <= i < |s| ==> 'a' <= s[i] <= 'z'
  }

  lemma LettersPlain(s: string)
    requires Letters(s)
    ensures AllAllowed(s) && IsAscii(s) && EndsWell(s) && forall i :: 0 <= i < |s| ==> s[i] != '.'
  {
  }

  /** A long name of one character repeated, a dot and a long extension of letters. */
  lemma LongTail(front: string, c: char, tail: string, id: int)
    requires AllOne(front, c) && |front| >= 149 && Letters(tail) && |tail| >= 17 && (c == '.' || 'a' <= c <= 'z')
    ensures var u := front + ("." + tail);
            && Cleaned(Some(u), id) == u && LastDot(u) == Some(|front|) && u[|front| + 1..] == tail
            && Utf8Len(u) > MAX_ATTACHMENT_NAME_BYTES && !ShortExtension(u)
            && Fitting(u, MAX_ATTACHMENT_NAME_BYTES) == u[..MAX_ATTACHMENT_NAME_BYTES]
  {
    hide IsDevice, Utf8Len, Fitting, LastDot, Cleaned, Find, AllAllowed, IsAscii;
    var u := front + ("." + tail);
    LettersPlain(tail);
    DotPlain();
    OnePlain(front, c);
    ConcatAllowed(".", tail);
    ConcatAllowed(front, "." + tail);
    ConcatAscii(".", tail);
    ConcatAscii(front, "." + tail);
    assert u[0] == front[0] == c && u[|u| - 1] == tail[|tail| - 1] && 'a' <= tail[|tail| - 1] <= 'z';
    LongTailStem(front, c, tail);
    CleanedWhole(u, id);
    forall i | |front| < i < |u| ensures u[i] != '.' {
      assert u[i] == tail[i - |front| - 1];
    }
    LastDotIs(u, |front|);
    assert u[|front| + 1..] == tail && u[|front|..] == "." + tail;
    AsciiLen("." + tail);
    AsciiLen(u);
    FittingAscii(u, MAX_ATTACHMENT_NAME_BYTES);
  }

  lemma DotPlain()
    ensures AllAllowed(".") && IsAscii(".")
  {
  }

  lemma OnePlain(s: string, c: char)
    requires AllOne(s, c) && (c == '.' || 'a' <= c <= 'z')
    ensures AllAllowed(s) && IsAscii(s)
  {
  }

  lemma LongTailStem(front: string, c: char, tail: string)
    requires AllOne(front, c) && |front| >= 149 && (c == '.' || 'a' <= c <= 'z')
    ensures !IsDevice(Stem(front + ("." + tail)))
  {
    hide IsDevice;
    var u := front + ("." + tail);
    var k := if c == '.' then 0 else |front|;
    assert u[|front|] == '.' && forall i :: 0 <= i < |front| ==> u[i] == c;
    FindIs(u, '.', k);
    if IsDevice(Stem(u)) { DeviceShort(Stem(u)); }
  }

  lemma LongTailWritten(t: Types, front: string, c: char, tail: string, mime: Option<string>, id: int)
    requires AllOne(front, c) && |front| >= 149 && Letters(tail) && |tail| >= 17 && (c == '.' || 'a' <= c <= 'z')
    requires var u := front + ("." + tail); Uncapped(t, Some(u), mime, id) == u
    ensures var u := front + ("." + tail);
            |u| > 150 && SafeName(t, Some(u), mime, id) == TrimDots(u[..150])
  {
    hide Uncapped, Cleaned, Utf8Len, Fitting, TrimDots, ShortExtension, Capped, LastDot, AllOne, Letters;
    var u := front + ("." + tail);
    LongTail(front, c, tail, id);
    SafeNameIsCapped(t, Some(u), mime, id);
    CappedBare(u, MAX_ATTACHMENT_NAME_BYTES);
  }

  lemma FrontOf(front: string, c: char, tail: string)
    requires AllOne(front, c) && (|front| >= 150 || (|front| == 149 && c == '.')) && |tail| >= 1
    ensures AllOne((front + ("." + tail))[..150], c)
  {
    var u := front + ("." + tail);
    forall i | 0 <= i < 150 ensures u[..150][i] == c {
      assert u[i] == if i < |front| then front[i] else '.';
    }
  }

  lemma TrimmedDots(s: string)
    requires AllOne(s, '.')
    ensures TrimDots(s) == ""
  {
    assert [] + s == s;
    TrimDotsIs([], s);
  }

  /** Cutting can leave nothing: 150 dots or more and at least 17 letters are written as the empty name. */
  lemma CutMakesEmpty(t: Types, front: string, tail: string, id: int)
    requires AllOne(front, '.') && |front| >= 149 && Letters(tail) && |tail| >= 17
    ensures SafeName(t, Some(front + ("." + tail)), None, id) == ""
  {
    var u := front + ("." + tail);
    LongTail(front, '.', tail, id);
    hide Cleaned, SafeName, TrimDots, ShortExtension, Utf8Len, Fitting, LastDot, AllOne, Letters;
    UncappedPlain(t, u, id);
    LongTailWritten(t, front, '.', tail, None, id);
    FrontOf(front, '.', tail);
    TrimmedDots(u[..150]);
  }

  lemma NoDotsLeft(s: string)
    requires AllOne(s, 'b')
    ensures TrimDots(s) == s && Extension(s) == None
  {
    hide TrimDots, LastDot;
    assert s + [] == s;
    TrimDotsIs(s, []);
  }

  lemma LongTailUncapped(t: Types, front: string, tail: string, mime: string, id: int)
    requires AllOne(front, 'b') && |front| >= 149 && Letters(tail) && |tail| >= 17
    requires t.typeOf(tail).None? && t.extension(mime).Some?
    ensures var u := front + ("." + tail); Uncapped(t, Some(u), Some(mime), id) == u
  {
    var u := front + ("." + tail);
    LongTail(front, 'b', tail, id);
    FallbackStart(id);
    assert u[0] == front[0] == 'b';
    hide Cleaned, Utf8Len, Fitting, ShortExtension, LastDot, Letters, AllOne, Fallback;
    assert HasExtension(u) && Dot(u) == |front|;
  }

  lemma FallbackStart(id: int)
    ensures Fallback(id) != [] && Fallback(id)[0] == 'a'
  {
    hide Signed;
  }

  /** Cutting can lose the extension: 150 letters b or more, a dot and at least 17 letters that name no type. */
  lemma CutLosesExtension(t: Types, front: string, tail: string, mime: string, id: int)
    requires AllOne(front, 'b') && |front| >= 150 && Letters(tail) && |tail| >= 17
    requires t.typeOf(tail).None? && t.extension(mime).Some?
    ensures Extension(SafeName(t, Some(front + ("." + tail)), Some(mime), id)) == None
  {
    hide SafeName, Uncapped, Extension, AllOne, Letters, TrimDots;
    LongTailUncapped(t, front, tail, mime, id);
    LongTailWritten(t, front, 'b', tail, Some(mime), id);
    FrontOf(front, 'b', tail);
    NoDotsLeft((front + ("." + tail))[..150]);
  }

  // ---- The extension survives -----------------------------------------------------------------------------------

  /** What the file opens by: the text behind the last dot. */
  function Extension(s: string): Option<string> {
    if LastDot(s).Some? then Some(s[LastDot(s).value + 1..]) else None
  }

  lemma ExtensionIs(a: string, x: string)
    requires forall i :: 0 <= i < |x| ==> x[i] != '.'
    ensures Extension(a + ("." + x)) == Some(x)
  {
    var s := a + ("." + x);
    forall i | |a| < i < |s| ensures s[i] != '.' {
      assert s[i] == x[i - |a| - 1];
    }
    LastDotIs(s, |a|);
    assert s[|a| + 1..] == x;
  }

  /** The application that opens by this extension is right for the type, or none is known. */
  predicate Opens(t: Types, x: Option<string>, mime: string) {
    x.Some? && (t.extension(mime) == x || !NamesOtherType(t, x.value, mime))
  }

  /** A written name opens right exactly when it fits, or ends in a short extension, or what is left of it after the cut
      still ends in a right one. */
  lemma OpensRight(t: Types, name: Option<string>, mime: string, id: int)
    requires GoodTypes(t) && t.extension(mime).Some?
    ensures var u := Uncapped(t, name, Some(mime), id);
            Opens(t, Extension(SafeName(t, name, Some(mime), id)), mime)
            <==> Utf8Len(u) <= MAX_ATTACHMENT_NAME_BYTES || ShortExtension(u)
                 || Opens(t, Extension(TrimDots(Fitting(u, MAX_ATTACHMENT_NAME_BYTES))), mime)
  {
    hide Cleaned, Fallback, LastDot, Uncapped, SafeName, Capped, ShortExtension, Utf8Len, NamesOtherType;
    hide Fitting, TrimDots;
    var u := Uncapped(t, name, Some(mime), id);
    UncappedOpensRight(t, name, mime, id);
    SafeNameIsCapped(t, name, Some(mime), id);
    if Utf8Len(u) <= MAX_ATTACHMENT_NAME_BYTES || ShortExtension(u) {
      CapKeepsExtension(u, MAX_ATTACHMENT_NAME_BYTES);
    } else {
      CappedBare(u, MAX_ATTACHMENT_NAME_BYTES);
    }
  }

  lemma CappedBare(s: string, max: nat)
    requires max >= 17 && Utf8Len(s) > max && !ShortExtension(s)
    ensures Capped(s, max) == TrimDots(Fitting(s, max))
  {
    hide LastDot, Fitting, TrimDots;
    assert s[..|s| - 0] == s;
    EmptyLen();
    assert TrimDots(Fitting(s, max)) + [] == TrimDots(Fitting(s, max));
  }

  lemma SafeNameIsCapped(t: Types, name: Option<string>, mime: Option<string>, id: int)
    ensures SafeName(t, name, mime, id) == Capped(Uncapped(t, name, mime, id), MAX_ATTACHMENT_NAME_BYTES)
  {
  }

  lemma UncappedOpensRight(t: Types, name: Option<string>, mime: string, id: int)
    requires GoodTypes(t) && t.extension(mime).Some?
    ensures var x := Extension(Uncapped(t, name, Some(mime), id));
            Opens(t, x, mime)
  {
    hide Cleaned, Fallback, LastDot, NamesOtherType, Signed;
    var want := t.extension(mime).value;
    var c := Cleaned(name, id);
    ExtensionIs(c, want);
    ExtensionIs("attachment-" + Signed(id), want);
    assert "attachment-" + Signed(id) + ("." + want) == "attachment-" + (Signed(id) + ("." + want));
    if HasExtension(c) { ExtensionIs(c[..Dot(c)], want); }
  }

  /** A dot and at most 16 bytes behind it, which a cut leaves alone. */
  predicate ShortExtension(s: string) {
    HasExtension(s) && Utf8Len(s[Dot(s)..]) <= 17
  }

  lemma CapKeepsExtension(s: string, max: nat)
    requires max >= 17 && (Utf8Len(s) <= max || ShortExtension(s))
    ensures Extension(Capped(s, max)) == Extension(s)
  {
    hide Utf8Len, Fitting, TrimDots, LastDot;
    if Utf8Len(s) > max {
      var x := s[Dot(s) + 1..];
      assert Tail(s) == "." + x;
      forall i | 0 <= i < |x| ensures x[i] != '.' {
        assert x[i] == s[Dot(s) + 1 + i];
      }
      ExtensionIs(CutStem(s, max), x);
    }
  }

  // ---- Numbering a written name -----------------------------------------------------------------------------------

  function Pow10(k: nat): nat {
    if k == 0 then 1 else 10 * Pow10(k - 1)
  }

  lemma {:induction false} DecimalLen(n: nat, k: nat)
    requires k >= 1 && n < Pow10(k)
    ensures |Decimal(n)| <= k
  {
    if n >= 10 {
      if k > 1 { DecimalLen(n / 10, k - 1); }
    }
  }

  lemma BracketedFits(n: nat)
    requires n < 0x1_0000_0000
    ensures var d := "(" + Decimal(n) + ")"; AllAllowed(d) && EndsWell(d) && Utf8Len(d) <= 12
  {
    hide Decimal, Utf8Len;
    DecimalAllowed(n);
    assert n < Pow10(10) by { assert Pow10(5) == 100000; assert Pow10(10) == 100000 * Pow10(5); }
    DecimalLen(n, 10);
    AsciiLen("(" + Decimal(n) + ")");
  }

  /** The number goes between the name and its extension. */
  lemma NumberedShape(s: string, n: nat)
    requires HasExtension(s)
    ensures Numbered(s, n) == s[..Dot(s)] + ("(" + Decimal(n) + ")") + s[Dot(s)..]
  {
    hide Decimal, LastDot;
    assert s[Dot(s)..] == "." + s[Dot(s) + 1..];
  }

  lemma InsertKeeps(a: string, d: string, e: string)
    requires e != [] && e[0] == '.' && forall i :: 1 <= i < |e| ==> e[i] != '.'
    ensures Utf8Len(a + d + e) == Utf8Len(a + e) + Utf8Len(d)
    ensures Extension(a + d + e) == Extension(a + e)
    ensures EndsWell(a + e) ==> EndsWell(a + d + e)
    ensures AllAllowed(a + e) && AllAllowed(d) ==> AllAllowed(a + d + e)
  {
    hide Utf8Len, LastDot, Allowed, Extension;
    Utf8LenConcat(a + d, e);
    Utf8LenConcat(a, d);
    Utf8LenConcat(a, e);
    var x := e[1..];
    assert e == "." + x;
    ExtensionIs(a + d, x);
    ExtensionIs(a, x);
    assert (a + e)[|a + e| - 1] == e[|e| - 1] == (a + d + e)[|a + d + e| - 1];
    if AllAllowed(a + e) && AllAllowed(d) {
      forall i | 0 <= i < |a + d + e| ensures Allowed((a + d + e)[i]) {
        assert (a + d + e)[i] == if i < |a| then (a + e)[i] else if i < |a| + |d| then d[i - |a|] else (a + e)[i - |d|];
      }
    }
  }

  /** A number of 32 bits adds at most twelve bytes and leaves the name fit to write, with the extension it had. */
  lemma NumberedFits(s: string, n: nat)
    requires AllAllowed(s) && EndsWell(s) && n < 0x1_0000_0000
    ensures AllAllowed(Numbered(s, n)) && EndsWell(Numbered(s, n))
    ensures Utf8Len(Numbered(s, n)) <= Utf8Len(s) + 12
    ensures HasExtension(s) ==> Extension(Numbered(s, n)) == Extension(s)
  {
    hide Decimal, Utf8Len, LastDot, Allowed, Extension;
    BracketedFits(n);
    var d := "(" + Decimal(n) + ")";
    if HasExtension(s) {
      NumberedShape(s, n);
      assert s == s[..Dot(s)] + s[Dot(s)..];
      InsertKeeps(s[..Dot(s)], d, s[Dot(s)..]);
    } else {
      Utf8LenConcat(s, d);
    }
  }

  /** Every number that collisions can ask for gives a name a file system takes. */
  lemma CollisionFits(t: Types, name: Option<string>, mime: Option<string>, id: int, n: nat)
    requires GoodTypes(t) && n < 0x1_0000_0000
    ensures var r := Candidate(SafeName(t, name, mime, id), n);
            Utf8Len(r) <= MAX_ATTACHMENT_NAME_BYTES + 12 && AllAllowed(r) && EndsWell(r)
  {
    hide SafeName, Numbered, AllAllowed, EndsWell, Utf8Len;
    SafeNameIsSafe(t, name, mime, id);
    NumberedFits(SafeName(t, name, mime, id), n);
  }

  // ---- The written name from the given one -------------------------------------------------------------------

  lemma {:induction false} BasenameBehind(dir: string, s: string)
    requires dir != [] && (dir[|dir| - 1] == '/' || dir[|dir| - 1] == '\\')
    ensures Basename(dir + s) == Basename(s)
  {
    if s == [] {
      assert dir + s == dir;
    } else {
      assert (dir + s)[..|dir + s| - 1] == dir + s[..|s| - 1];
      BasenameBehind(dir, s[..|s| - 1]);
    }
  }

  /** Whatever stands before the last `/` or `\` makes no difference. */
  lemma DirectoryDoesNotMatter(t: Types, dir: string, s: string, mime: Option<string>, id: int)
    requires dir != [] && (dir[|dir| - 1] == '/' || dir[|dir| - 1] == '\\')
    ensures SafeName(t, Some(dir + s), mime, id) == SafeName(t, Some(s), mime, id)
  {
    BasenameBehind(dir, s);
    SameBasename(dir + s, s, id);
    hide Cleaned, Capped, Retyped;
  }

  lemma SameBasename(a: string, b: string, id: int)
    requires Basename(a) == Basename(b)
    ensures Cleaned(Some(a), id) == Cleaned(Some(b), id)
  {
    hide Basename, Fallback, IsDevice, Trim, TrimDots, Replaced, Stem;
  }

  lemma {:induction false} NoSeparator(s: string)
    requires forall i :: 0 <= i < |s| ==> s[i] != '/' && s[i] != '\\'
    ensures Basename(s) == s
  {
    if s != [] { NoSeparator(s[..|s| - 1]); }
  }

  /** The names Windows takes for devices. */
  lemma DeviceMeans(stem: string)
    ensures IsDevice(stem) <==>
              || EqIgnoreCase(stem, "con") || EqIgnoreCase(stem, "prn") || EqIgnoreCase(stem, "aux")
              || EqIgnoreCase(stem, "nul")
              || (|stem| == 4 && '1' <= stem[3] <= '9'
                  && (EqIgnoreCase(stem[..3], "com") || EqIgnoreCase(stem[..3], "lpt")))
  {
    if IsDevice(stem) {
      var i :| 0 <= i < |WINDOWS_DEVICE_NAMES| && EqIgnoreCase(stem, WINDOWS_DEVICE_NAMES[i]);
      if i >= 4 { NumberedDevice(stem, i); }
    }
    forall d: string | (d == "con" || d == "prn" || d == "aux" || d == "nul") && EqIgnoreCase(stem, d)
      ensures IsDevice(stem)
    {
      var i := if d == "con" then 0 else if d == "prn" then 1 else if d == "aux" then 2 else 3;
      assert EqIgnoreCase(stem, WINDOWS_DEVICE_NAMES[i]);
    }
    if |stem| == 4 && '1' <= stem[3] <= '9' && (EqIgnoreCase(stem[..3], "com") || EqIgnoreCase(stem[..3], "lpt")) {
      DeviceNumbered(stem);
    }
  }

  lemma NumberedDevice(stem: string, i: nat)
    requires 4 <= i < |WINDOWS_DEVICE_NAMES| && EqIgnoreCase(stem, WINDOWS_DEVICE_NAMES[i])
    ensures |stem| == 4 && '1' <= stem[3] <= '9'
    ensures EqIgnoreCase(stem[..3], "com") || EqIgnoreCase(stem[..3], "lpt")
  {
    var d := WINDOWS_DEVICE_NAMES[i];
    assert |d| == 4 && (d[..3] == "com" || d[..3] == "lpt") && '1' <= d[3] <= '9';
    assert forall j :: 0 <= j < 3 ==> d[..3][j] == d[j];
  }

  lemma DeviceNumbered(stem: string)
    requires |stem| == 4 && '1' <= stem[3] <= '9'
    requires EqIgnoreCase(stem[..3], "com") || EqIgnoreCase(stem[..3], "lpt")
    ensures IsDevice(stem)
  {
    var n := stem[3] as int - '1' as int;
    var i := if EqIgnoreCase(stem[..3], "com") then 4 + n else 13 + n;
    var d := WINDOWS_DEVICE_NAMES[i];
    assert d[..3] == (if EqIgnoreCase(stem[..3], "com") then "com" else "lpt") && d[3] == stem[3];
    forall j | 0 <= j < 4 ensures Lower(stem[j]) == Lower(d[j]) {
      if j < 3 { assert stem[..3][j] == stem[j] && d[..3][j] == d[j]; }
    }
    assert EqIgnoreCase(stem, d);
  }

  /** How a character is written: control characters and `:*?"<>|` become `_`. */
  function Shown(c: char): char {
    if c < ' ' || '\U{7F}' <= c <= '\U{9F}' then '_'
    else if c == ':' || c == '*' || c == '?' || c == '"' || c == '<' || c == '>' || c == '|' then '_'
    else c
  }

  /** Blanks around a name and the dots and blanks at its end are dropped, a control or reserved character becomes `_`,
      and a device's name gets a `_` in front. `written` is `kept` after the replacing. */
  lemma CleanedIs(dir: string, lead: string, kept: string, dots: string, blanks: string, written: string, id: int)
    requires dir != [] && (dir[|dir| - 1] == '/' || dir[|dir| - 1] == '\\')
    requires Blank(lead) && Blank(blanks) && (forall i :: 0 <= i < |dots| ==> dots[i] == ' ' || dots[i] == '.')
    requires kept != [] && !IsSpace(kept[0]) && !IsSpace(kept[|kept| - 1]) && kept[|kept| - 1] != '.'
    requires forall i :: 0 <= i < |kept| ==> kept[i] != '/' && kept[i] != '\\'
    requires |written| == |kept| && forall i :: 0 <= i < |kept| ==> written[i] == Shown(kept[i])
    ensures Cleaned(Some(dir + (lead + (kept + (dots + blanks)))), id)
            == if IsDevice(Stem(written)) then "_" + written else written
  {
    var tail := dots + blanks;
    var base := lead + (kept + tail);
    assert forall i :: 0 <= i < |base| ==> base[i] != '/' && base[i] != '\\';
    BasenameBehind(dir, base);
    NoSeparator(base);
    TrimStartBlank(lead, kept + tail);
    TrimEndKeeps(kept, tail);
    TrimEndShape(tail);
    var rest := TrimEnd(tail);
    assert Trim(base) == kept + rest by { assert (kept + tail)[0] == kept[0]; }
    DotsLeft(dots, blanks);
    hide Basename, Trim, TrimEnd, TrimStart, IsDevice, Stem, TrimDots;
    ReplacedWith(kept, rest, written);
    TrimDotsIs(written, rest);
  }

  lemma {:induction false} DotsLeft(dots: string, blanks: string)
    requires Blank(blanks) && forall i :: 0 <= i < |dots| ==> dots[i] == ' ' || dots[i] == '.'
    ensures forall i :: 0 <= i < |TrimEnd(dots + blanks)| ==> DotOrSpace(TrimEnd(dots + blanks)[i])
  {
    TrimEndBlank(dots, blanks);
    TrimEndShape(dots);
  }

  lemma ReplacedWith(kept: string, rest: string, written: string)
    requires kept != [] && !IsSpace(kept[|kept| - 1]) && kept[|kept| - 1] != '.'
    requires |written| == |kept| && forall i :: 0 <= i < |kept| ==> written[i] == Shown(kept[i])
    requires forall i :: 0 <= i < |rest| ==> DotOrSpace(rest[i])
    ensures Replaced(kept + rest) == written + rest && EndsWell(written)
  {
    var n := |kept| - 1;
    assert written[n] == kept[n] || written[n] == '_';
  }

  /** Without a name, or with dots and blanks only, the name is made up from the row id. */
  lemma CleanedEmpty(dir: string, dots: string, id: int)
    requires dir != [] && (dir[|dir| - 1] == '/' || dir[|dir| - 1] == '\\')
    requires forall i :: 0 <= i < |dots| ==> dots[i] == ' ' || dots[i] == '.'
    ensures Cleaned(None, id) == Cleaned(Some(dir + dots), id) == Cleaned(Some(dots), id)
            == "attachment-" + ((if id < 0 then "-" + Decimal(-id) else Decimal(id)) + ".bin")
  {
    BasenameBehind(dir, dots);
    SameBasename(dir + dots, dots, id);
    DotsCleaned(dots, id);
    DotsCleaned("", id);
    hide Basename, Decimal, Trim, Replaced, TrimDots, IsDevice;
  }

  lemma DotsCleaned(dots: string, id: int)
    requires forall i :: 0 <= i < |dots| ==> DotOrSpace(dots[i])
    ensures Cleaned(Some(dots), id) == Fallback(id)
  {
    NoSeparator(dots);
    DotsTrimmed(dots);
    var kept := Trim(dots);
    hide Basename, Trim, TrimDots, Fallback, IsDevice;
    NothingReplaced(kept);
    assert [] + kept == kept;
    TrimDotsIs([], kept);
  }

  lemma NothingReplaced(dots: string)
    requires forall i :: 0 <= i < |dots| ==> DotOrSpace(dots[i])
    ensures Replaced(dots) == dots
  {
  }

  lemma DotsTrimmed(dots: string)
    requires forall i :: 0 <= i < |dots| ==> DotOrSpace(dots[i])
    ensures forall i :: 0 <= i < |Trim(dots)| ==> DotOrSpace(Trim(dots)[i])
  {
    var a, b := TrimShape(dots);
    var kept := Trim(dots);
    hide Trim;
    assert forall i :: 0 <= i < |kept| ==> kept[i] == dots[|a| + i];
  }

  /** The number a row of decimal digits stands for. */
  function Value(s: string): int {
    if s == [] then 0 else 10 * Value(s[..|s| - 1]) + (s[|s| - 1] as int - '0' as int)
  }

  lemma {:induction false} DecimalValue(n: nat)
    ensures Value(Decimal(n)) == n && forall i :: 0 <= i < |Decimal(n)| ==> '0' <= Decimal(n)[i] <= '9'
    ensures n > 0 ==> Decimal(n)[0] != '0'
  {
    var s := Decimal(n);
    if n < 10 {
      assert s[..0] == [];
    } else {
      DecimalValue(n / 10);
      assert s[..|s| - 1] == Decimal(n / 10);
    }
  }

  lemma DotBefore(a: string, x: string)
    requires a != [] && forall i :: 0 <= i < |x| ==> x[i] != '.'
    ensures var s := a + ("." + x);
            HasExtension(s) && Dot(s) == |a| && s[..|a|] == a && s[|a| + 1..] == x
  {
    var s := a + ("." + x);
    assert s[|a|] == '.' && forall i :: |a| < i < |s| ==> s[i] == x[i - |a| - 1];
    LastDotIs(s, |a|);
  }

  /** The number of a collision goes before the extension, or to the end. */
  lemma NumberedIs(a: string, x: string, bare: string, n: nat)
    requires a != [] && forall i :: 0 <= i < |x| ==> x[i] != '.'
    requires forall i :: 0 < i < |bare| ==> bare[i] != '.'
    ensures Numbered(a + ("." + x), n) == a + ("(" + (Decimal(n) + (")." + x)))
    ensures Numbered(bare, n) == bare + ("(" + (Decimal(n) + ")"))
  {
    DotBefore(a, x);
    hide Decimal;
  }

  /** With a known type, a made-up name takes its extension and a name without an extension gets it. */
  lemma UncappedGains(t: Types, name: Option<string>, mime: string, want: string, id: int)
    requires t.extension(mime) == Some(want)
    ensures var c, u := Cleaned(name, id), Uncapped(t, name, Some(mime), id);
            if c == Fallback(id)
            then u == "attachment-" + ((if id < 0 then "-" + Decimal(-id) else Decimal(id)) + ("." + want))
            else (forall i :: 0 < i < |c| ==> c[i] != '.') ==> u == c + ("." + want)
  {
    hide Cleaned, Decimal, NamesOtherType;
    var c := Cleaned(name, id);
    if c == Fallback(id) {
      hide Fallback;
    } else {
      hide Fallback, Signed;
      if forall i :: 0 < i < |c| ==> c[i] != '.' { assert !HasExtension(c); }
    }
  }

  /** An extension that names another type is swapped and any other stays. */
  lemma UncappedSwaps(t: Types, name: Option<string>, mime: string, want: string, id: int, a: string, x: string)
    requires t.extension(mime) == Some(want) && Cleaned(name, id) == a + ("." + x) != Fallback(id)
    requires a != [] && x != [] && forall i :: 0 <= i < |x| ==> x[i] != '.'
    ensures Uncapped(t, name, Some(mime), id)
            == a + ("." + if t.typeOf(x).None? || t.typeOf(x).value == t.canonical(mime) then x else want)
  {
    hide Cleaned, Fallback, Signed, HasExtension, Dot;
    DotBefore(a, x);
  }

  lemma PrefixOrder(s: string, i: nat, j: nat)
    requires i <= j <= |s|
    ensures Utf8Len(s[..i]) <= Utf8Len(s[..j])
  {
    PrefixLen(s[..j], i);
    assert s[..j][..i] == s[..i];
  }

  lemma FittingIs(s: string, n: nat, k: nat)
    requires k <= |s| && Utf8Len(s[..k]) <= n && (k < |s| ==> Utf8Len(s[..k + 1]) > n)
    ensures Fitting(s, n) == s[..k]
  {
    hide Utf8Len, Fitting;
    var r := Fitting(s, n);
    FittingIsLongest(s, n);
    assert r == s[..|r|];
    if |r| < k {
      PrefixOrder(s, |r| + 1, k);
    } else if |r| > k {
      PrefixOrder(s, k + 1, |r|);
    }
  }

  /** `k` characters of `s` are what fits into `n` bytes; without dots and blanks at the end `kept` is left of them. */
  ghost predicate Leaves(s: string, n: int, k: nat, kept: string) {
    && k <= |s| && Utf8Len(s[..k]) <= n && (k < |s| ==> Utf8Len(s[..k + 1]) > n)
    && kept <= s[..k] && EndsWell(kept) && forall i :: |kept| <= i < k ==> DotOrSpace(s[i])
  }

  lemma LeavesTrimmed(s: string, n: nat, k: nat, kept: string)
    requires Leaves(s, n, k, kept)
    ensures TrimDots(Fitting(s, n)) == kept
  {
    FittingIs(s, n, k);
    hide Utf8Len, Fitting, TrimDots, EndsWell;
    assert s[..k] == kept + s[..k][|kept|..];
    TrimDotsIs(kept, s[..k][|kept|..]);
  }

  /** A name of at most 150 bytes is written as it is. Of a longer one without a short extension the whole characters
      that fit are written, without dots and blanks at the end. */
  lemma CutIs(t: Types, name: Option<string>, mime: Option<string>, id: int, k: nat, kept: string)
    ensures var u, r := Uncapped(t, name, mime, id), SafeName(t, name, mime, id);
            && (Utf8Len(u) <= 150 ==> r == u)
            && (Utf8Len(u) > 150 && Tail(u) == "" && Leaves(u, 150, k, kept) ==> r == kept)
  {
    hide Uncapped, Utf8Len, Fitting, TrimDots, Tail, Leaves;
    var u := Uncapped(t, name, mime, id);
    assert u[..|u|] == u && kept + "" == kept;
    EmptyLen();
    if Leaves(u, 150, k, kept) { LeavesTrimmed(u, 150, k, kept); }
  }

  /** An extension of at most 16 bytes stays whole behind what fits of the name before it. */
  lemma CutBefore(t: Types, name: Option<string>, mime: Option<string>, id: int, a: string, x: string, k: nat,
                  kept: string)
    requires Uncapped(t, name, mime, id) == a + ("." + x) && Utf8Len(a + ("." + x)) > 150
    requires a != [] && (forall i :: 0 <= i < |x| ==> x[i] != '.') && Utf8Len("." + x) <= 17
    requires Leaves(a, 150 - Utf8Len("." + x), k, kept)
    ensures SafeName(t, name, mime, id) == kept + ("." + x)
  {
    hide Uncapped, Utf8Len, Fitting, TrimDots, Tail, Leaves;
    TailIs(a, x);
    LeavesTrimmed(a, 150 - Utf8Len("." + x), k, kept);
    assert (a + ("." + x))[..|a|] == a;
  }

  lemma TailIs(a: string, x: string)
    requires a != [] && forall i :: 0 <= i < |x| ==> x[i] != '.'
    ensures Tail(a + ("." + x)) == if Utf8Len("." + x) <= 17 then "." + x else ""
  {
    hide Utf8Len;
    DotBefore(a, x);
    assert (a + ("." + x))[|a|..] == "." + x;
  }
}
