# Mail core model

A Dafny model of the algorithms of the mail client's core where a fast or stateful form must agree with a simple one, and
of the two protocols that guard shared state, with proofs that they do. Loops and in-place updates of the source are
methods with loops and classes; each is proved to compute a specification function, and what the source promises is
proved about that function for every input, every run or every reachable state.

- **Similar messages** (`Text`, `Subjects`, `LikePattern`, `Similar`). A subject is normalised by stripping reply prefixes
  and bracketed tags until nothing applies. The sender tier scans only rows that pass a `like` prefilter; each of the three
  tiers reads no more rows than a tight `limit`, and a collector drops rows it has seen. The result is shown to be the
  first `limit` distinct rows of the three tiers read in full.
- **Sidebar** (`FolderPaths`, `Sidebar`). Folders form a forest only through their path strings. A row is shown while its
  ancestors are expanded; a collapsed row carries the counts of what it hides. Nothing hidden is lost; the painted sum is
  the real one exactly when no folder with mail lies under two collapsed rows, which the code does allow (`CountedTwice`).
- **Hit groups** (`HitGroups`). Search hits regrouped by folder: a stable regrouping, and the only one.
- **Query language** (`Query`, `QueryText`, `Fts`, `SearchPlan`). The parser reads back what is written in the query
  language; the compiler's text is scanned and parsed by the grammar of SQLite's FTS5 and means what the query means; and
  the row condition the search runs is what the user asked for.
- **Sender colours** (`Badge`). 32-bit FNV-1a with a finaliser, in natural-number arithmetic with explicit wrap-around.
- **In-flight jobs** (`Inflight`). One locked table, one queue thread, and snapshots that reach the frontend in any order.
- **Content lines, calendars, contact cards** (`ContentLines`, `Calendar`, `ContactCards`). Folding, escaping and quoting undone;
  component and card nesting that does not interfere.
- **Secret vault** (`SecretVault`). Calls interleaved at every file operation, with input and output errors, panics, kills and
  power cuts at any point. A power cut loses what was not synced and may bring back an earlier version of the file:
  `NoUpdateLost` says which changes are left then, and `PowerCutLosesWrite` is a run that loses one.
- **Cache trim** (`CacheTrim`) and **file names** (`FileNames`). The file-name model finds three kinds of input
  the cap spoils: a name cut at 150 bytes can become a Windows device name, become empty, or lose its extension.
  `DeviceExactly`, `EmptyExactly` and `OpensRight` say when; `CutMakesDevice`, `CutMakesEmpty` and `CutLosesExtension`
  are inputs.

Characters are Unicode scalar values and UTF-8 lengths are counted where the source counts bytes. White space, control
characters and ASCII case are the source's own classes. Lower-casing beyond ASCII, the date reader, the letter-or-digit
class, the time and number readers of calendars, the JSON codec and the tables of MIME types are parameters; what a
theorem needs of one is in its precondition.

## Model

| member | source | states |
|---|---|---|
| Text.TrimShape | crates/mailcore/src/similar.rs:46 | `trim` keeps a contiguous piece, drops only Unicode white space at the ends, and leaves none there |
| Subjects.NormalizeSubject | crates/mailcore/src/similar.rs:45-81 | the loop with its reassigned subject ends on every input and returns the lower-cased fixpoint of one stripping round |
| Subjects.RoundShape | crates/mailcore/src/similar.rs:48-79 | a round either strips nothing, exactly when neither a tag nor a prefix applies, or leaves a strictly shorter trimmed piece |
| Subjects.FixpointShape | crates/mailcore/src/similar.rs:48-79 | the loop stops at a trimmed contiguous piece that no branch strips further |
| Subjects.StrippedShape | crates/mailcore/src/similar.rs:45-81 | the normal form is a contiguous piece of the subject, trimmed at both ends, starting with none of the nine prefixes in any case and with no tag |
| Subjects.NothingToStrip | crates/mailcore/src/similar.rs:45-81 | a trimmed subject with no prefix and no tag is left alone |
| Subjects.NormalizeIdempotent | crates/mailcore/src/similar.rs:45-81 | normalising any subject twice is normalising it once, under what holds of Unicode lower-casing: only k and i come from other characters, and blanks only from themselves |
| Subjects.AsciiIdempotent | crates/mailcore/src/similar.rs:45-81 | on ASCII subjects the same for any lower-casing that is right on ASCII |
| Subjects.PrefixVanishes | crates/mailcore/src/similar.rs:30-43 | any prefix, in any case, in front of a subject does not change its normal form |
| Subjects.TagVanishes | crates/mailcore/src/similar.rs:50-60 | `[Re]` with any prefix name and blanks inside the brackets does not change it either |
| Subjects.BracketVanishes | crates/mailcore/src/similar.rs:50-72 | `[Fwd: x]` has the normal form of `x`, even when `x` holds brackets |
| Subjects.MarksVanish | crates/mailcore/src/similar.rs:30-79 | `Re: x`, `[Re] x`, `[Fwd: x]`, and `[Fwd: x` where `x` holds a closing bracket but does not end with one, all have the normal form of `x`, for each of the nine words in any case |
| Subjects.NothingElseVanishes | crates/mailcore/src/similar.rs:30-79 | a trimmed subject that starts with none of the nine prefixes, and in brackets with none of the nine words or prefixes, or with a bracket that is never closed, is left alone |
| LikePattern.ContainsPattern | crates/mailcore/src/similar.rs:86-100 | the buffer ends up as the text with each character spelled for `like`, between two wildcards |
| LikePattern.PatternMeaning | crates/mailcore/src/similar.rs:83-100 | for every text, the pattern matches exactly the strings in which the text fits somewhere, ASCII case folded and any character where the text has a non-ASCII one |
| LikePattern.AsciiPatternMeaning | crates/mailcore/src/similar.rs:83-100 | for an ASCII text: exactly the strings that contain it in any case |
| LikePattern.PrefilterKeepsMatches | crates/mailcore/src/similar.rs:271-306 | a subject of any characters, or none, that normalises to a nonempty target passes the prefilter |
| LikePattern.PrefilterMeans | crates/mailcore/src/similar.rs:271-286 | for an ASCII target a subject passes exactly if it contains the target in any case or a character outside printable ASCII; no subject never passes |
| Similar.Collector.constructor | crates/mailcore/src/similar.rs:184-191 | a new collector has seen only the target and holds no rows |
| Similar.Collector.Push | crates/mailcore/src/similar.rs:201-206 | a full collector or a seen row changes nothing; otherwise the row is appended and its id seen |
| Similar.Collector.PushAll | crates/mailcore/src/similar.rs:201-206 | pushing a tier keeps what is new in it, in order, up to the limit |
| Similar.FreshCount | crates/mailcore/src/similar.rs:246-270 | among k rows of distinct ids at most as many are stale as ids were seen |
| Similar.LimitLosesNothing | crates/mailcore/src/similar.rs:246-340 | a `limit` of the wanted rows plus the seen ids yields what reading the whole tier would |
| Similar.SlackIsNeeded | crates/mailcore/src/similar.rs:246-270 | one row less and the target itself can push a match out |
| Similar.PrefilterIsExact | crates/mailcore/src/similar.rs:271-306 | scanning the prefiltered rows collects the same ids as scanning all of them |
| Similar.ScanSubjects | crates/mailcore/src/similar.rs:283-306 | the scan that stops early returns the first wanted unseen ids of a full scan |
| Similar.PushLimited | crates/mailcore/src/similar.rs:246-270 | a tier read with its limit leaves the collector as the whole tier would |
| Similar.PushSender | crates/mailcore/src/similar.rs:271-320 | so does the sender tier: prefilter, scan, fetch of the rows found |
| Similar.SimilarRows | crates/mailcore/src/similar.rs:210-343 | the rows collected are the first `max(limit, 1)` of the deduplicated concatenation of the three unlimited tiers without the target, of which the next five rows say what it is |
| Similar.ThreadFirst | crates/mailcore/src/similar.rs:246-270 | of the rows found, each thread row other than the target stands before every row that is not an earlier thread row |
| Similar.SenderNext | crates/mailcore/src/similar.rs:271-320 | each sender row with the target's nonempty normal form stands before every row found that is neither of the thread nor such a row before it, and is the row fetched for it |
| Similar.KeywordsLast | crates/mailcore/src/similar.rs:321-343 | each keyword row stands before every row found that is of neither other tier and no keyword row before it |
| Similar.FoundComesFrom | crates/mailcore/src/similar.rs:246-343 | every row found is a thread row, the row fetched for a sender row with the target's nonempty normal form, or a keyword row; none is the target, none comes twice, and there are no more than the limit |
| Similar.NothingMissing | crates/mailcore/src/similar.rs:246-343 | when fewer than the limit are found, every row of the thread and keywords and every sender row with that normal form is among them, the target aside |
| FolderPaths.JoinSplit | crates/mailcore/src/feed.rs:283-293 | joining the segments of a path gives the path back, for any delimiter |
| FolderPaths.LastCut | crates/mailcore/src/feed.rs:283-293 | cutting a path before its last delimiter leaves the other segments as they were |
| FolderPaths.ParentShape | crates/mailcore/src/feed.rs:262-293 | a parent exists exactly below the top level, is a strictly shorter prefix ending before a delimiter, and is one level up |
| FolderPaths.SegmentAppended | crates/mailcore/src/feed.rs:262-293 | under a one-character delimiter the parent of a path with a segment appended is that path, one level up |
| Sidebar.ParentIs | crates/mailcore/src/feed.rs:179-182 | among listed folders the parent is exactly the one whose path is the parent path, one level up |
| Sidebar.IsShown | crates/mailcore/src/feed.rs:183-204 | the upward walk ends for any list with unique ids and paths, mixed delimiters included, and answers whether every ancestor up to the nearest always-visible one is expanded |
| Sidebar.IsUnder | crates/mailcore/src/feed.rs:205-216 | the upward walk ends and answers whether the folder is the row or lies below it |
| Sidebar.ShownMeans | crates/mailcore/src/feed.rs:183-204 | a folder is hidden exactly if it is plain and its parent is listed, no inbox, and not expanded or hidden itself |
| Sidebar.UnderMeans | crates/mailcore/src/feed.rs:205-216 | below a row are the row's folder and whatever has its parent below it |
| Sidebar.PaintRow | crates/mailcore/src/feed.rs:225-247 | a row's counts are its own plus, when collapsed, those of every hidden folder below it; `RowShows` says which own ones |
| Sidebar.RowShows | crates/mailcore/src/feed.rs:130-138 | a row has its folder's id and open state, a toggle exactly if a plain folder stands directly below and it is no inbox; open or without a toggle it shows exactly the folder's total, and its unread count, 0 for Trash |
| Sidebar.SidebarRows | crates/mailcore/src/feed.rs:163-250 | the rows are those of the shown subscribed folders; the next three rows say which rows those are and in what order |
| Sidebar.RowsAreShown | crates/mailcore/src/feed.rs:218-250 | every shown folder has its row and every row a shown folder |
| Sidebar.RowsInOrder | crates/mailcore/src/feed.rs:218-250 | rows come in the order of their folders |
| Sidebar.SubscribedInOrder | crates/mailcore/src/feed.rs:163-178 | subscribed folders keep the feed's order |
| Sidebar.ExpandingKeepsShown | crates/mailcore/src/feed.rs:183-204 | expanding more folders never hides a shown row |
| Sidebar.InboxNotCollapsible | crates/mailcore/src/feed.rs:119-128 | a folder with the inbox role never gets a toggle |
| Sidebar.HiddenIsCarried | crates/mailcore/src/feed.rs:183-238 | a hidden folder has a nearest shown ancestor, which is collapsible and not expanded and whose row carries it |
| Sidebar.RowsShowPaintedSum | crates/mailcore/src/feed.rs:163-250 | the totals and unread counts of the rows add up to the painted sums the theorems below speak of |
| Sidebar.SumsExchange | crates/mailcore/src/feed.rs:217-248 | adding row by row is adding, folder by folder, each count as often as it is painted |
| Sidebar.Conservation | crates/mailcore/src/feed.rs:163-250 | the painted sum is never below the real one, and equals it if and only if no folder with a count is carried by two collapsed rows |
| Sidebar.AncestorsChain | crates/mailcore/src/feed.rs:205-216 | two folders above the same folder lie above one another |
| Sidebar.ShownBelowCollapsed | crates/mailcore/src/feed.rs:183-204 | a folder shown strictly below a collapsed one has an always-visible one between |
| Sidebar.ConservedWithoutNestedRoles | crates/mailcore/src/feed.rs:163-250 | if no always-visible folder lies strictly below a collapsed row, the painted sum is exactly the real one |
| Sidebar.RowsShowEverything | crates/mailcore/src/feed.rs:163-250 | the rows' totals add up to at least all messages of the folders and their unread counts to all unread ones outside Trash; to exactly these if no always-visible folder lies strictly below a collapsed row |
| Sidebar.CountedTwice | crates/mailcore/src/feed.rs:225-238 | a collapsed Sent folder below a collapsed folder: its hidden child is painted on both rows |
| HitGroups.GroupHits | crates/mailcore/src/feed.rs:974-989 | the collected order and the stable sort by position in it give the regrouping |
| HitGroups.SortShape | crates/mailcore/src/feed.rs:984-987 | the sort permutes, sorts, and leaves each folder's own hits in order |
| HitGroups.OrderShape | crates/mailcore/src/feed.rs:977-983 | the order lists each folder once, by first hit |
| HitGroups.PositionIsFirst | crates/mailcore/src/feed.rs:977-987 | sorting by position in the order is sorting by first hit |
| HitGroups.GroupedShape | crates/mailcore/src/feed.rs:974-989 | a permutation in which each folder is one run, runs come by first hit, and each folder's own hits are unchanged |
| HitGroups.GroupingUnique | crates/mailcore/src/feed.rs:974-989 | those promises determine the result |
| HitGroups.GroupedIdempotent | crates/mailcore/src/feed.rs:974-989 | regrouping twice is regrouping once |
| Query.ParseQueryFull | crates/mailcore/src/search.rs:147-212 | the loop ends on every string and yields the terms and filters of the rounds |
| QueryText.FilterTaken | crates/mailcore/src/search.rs:155-181 | a valid pair at the front is taken whole with the blanks behind it; only a date key may have blanks before its value; the six rows from `ReadStateRound` on say which pairs those are and what they set |
| QueryText.ReadStateRound | crates/mailcore/src/search.rs:111-120 | in any case and in front of any tail, `is:unread` sets the filter to unread and `is:read` to read, behind a minus the other way round, and nothing else changes |
| QueryText.StarRound | crates/mailcore/src/search.rs:121-128 | the same of `is:starred` or `is:flagged` and `is:unstarred` or `is:unflagged` |
| QueryText.AttachmentRound | crates/mailcore/src/search.rs:130-134 | the same of `has:attachment` and `has:attachments` |
| QueryText.DateRound | crates/mailcore/src/search.rs:135-145 | `after:` and `since:` set the one bound and `before:` the other to the day that is read, with blanks before it or not and whatever the sign |
| QueryText.NothingElseFilters | crates/mailcore/src/search.rs:105-181 | a word that is none of these pairs, or a date key with nothing behind it, leaves the filters as they are |
| QueryText.FieldTermRound | crates/mailcore/src/search.rs:84-88 | `from:`, `to:` and `subject:`, in any case and with blanks behind, send a word or phrase to their field |
| QueryText.WordNoFilter | crates/mailcore/src/search.rs:155-181 | a word that is no valid pair is not taken |
| QueryText.TextMeans | crates/mailcore/src/search.rs:192-200 | text is a word up to the next blank, or all between quotes, the closing one optional; quotes and stars are dropped and quoted words joined by single blanks |
| QueryText.CleanMeans | crates/mailcore/src/search.rs:229-232 | cleaning drops the quotes and stars of a word and nothing else |
| Query.RoundConsumes | crates/mailcore/src/search.rs:147-212 | every round consumes input, even after a lone `-` or an empty field prefix |
| Query.TermsWellFormed | crates/mailcore/src/search.rs:192-232 | whatever is typed, no term holds a quote or a star and every term holds a letter or digit |
| QueryText.TokenRound | crates/mailcore/src/search.rs:147-232 | one written token, of any kind and sign, is read back as itself by one round |
| QueryText.QueryRoundTrip | crates/mailcore/src/search.rs:147-232 | any list of tokens written with any blanks around them is read back as exactly those terms and filters; a quoted part stays a term |
| QueryText.DateKeyTakesOnlyDates | crates/mailcore/src/search.rs:105-181 | a date key, negated or not, with blanks behind its colon takes the next word, whatever it is, if and only if that is a valid date; otherwise the key is text and the word is left |
| Fts.CompileQuery | crates/mailcore/src/search.rs:246-261 | the loop that wraps the query in one NOT after another builds the nested expression |
| Fts.LexQuoted | crates/mailcore/src/search.rs:277-286 | any text, quoted with doubled quotes, is scanned as one string: nothing in it is syntax |
| Fts.LexTerm | crates/mailcore/src/search.rs:277-286 | a compiled term is scanned as its columns, its string and its star |
| Fts.AtomRead | crates/mailcore/src/search.rs:277-286 | and parsed as one phrase or prefix restricted to its columns |
| Fts.NotsRead | crates/mailcore/src/search.rs:246-261 | each pair of parentheses keeps its NOT outside everything before it |
| Fts.QueryMeaning | crates/mailcore/src/search.rs:246-261 | there is an expression exactly when some term is not negated; it always parses under FTS5 precedence and matches exactly where every plain term holds and no negated one does |
| Fts.ExclusionsMeaning | crates/mailcore/src/search.rs:267-275 | there are exclusions exactly when some term is negated; the expression always parses and matches exactly where some negated term holds |
| Fts.OneTermRead | crates/mailcore/src/search.rs:277-286 | a query of one term is read as its text, a word by its start and a phrase whole, in the columns of its field: sender address and name, the three kinds of recipients, subject, or all |
| SearchPlan.PlanMeaning | crates/mailcore/src/feed.rs:855-897 | for every query and row: no statement is a syntax error, the result is forced empty exactly when the query is not searchable, and a row passes if and only if it is wanted |
| SearchPlan.PlanFinds | crates/mailcore/src/feed.rs:855-897 | without a plain term or a filter the search finds nothing; else it finds exactly the rows in scope that hold every plain term and no excluded one, are unread or read, starred or not, with attachments or not as asked, and are dated on or after the one day and before the other |
| SearchPlan.SearchMeaning | crates/mailcore/src/feed.rs:848-897 | the same from the typed text on, whatever it is |
| SearchPlan.TermSearch | crates/mailcore/src/feed.rs:855-897 | in a listed row every term's text is, or for an excluded term is not, in the columns of its field |
| SearchPlan.ReadStateSearch | crates/mailcore/src/feed.rs:892-905 | a typed query whose last read-state token is `is:unread` lists no read mail, with `is:read` no unread, and with a minus the other way round |
| SearchPlan.StarSearch | crates/mailcore/src/feed.rs:893-905 | the same of the last star token |
| SearchPlan.AttachmentSearch | crates/mailcore/src/feed.rs:894-905 | the same of the last attachment token |
| SearchPlan.DaySearch | crates/mailcore/src/feed.rs:895-905 | behind the last `after:` or `since:` only mail of that day or later is listed, behind the last `before:` only earlier mail, and mail without a date under neither |
| Badge.HashSeed | crates/mailcore/src/badge.rs:129-141 | the byte loop and the finaliser's updates of `h` compute the hash |
| Badge.MixInvertible | crates/mailcore/src/badge.rs:136-140 | folding in a right shift of a third of the word or more can be undone |
| Badge.MulBack | crates/mailcore/src/badge.rs:137-139 | a wrapping multiplication is undone by the modular inverse |
| Badge.FinaliserBijection | crates/mailcore/src/badge.rs:136-140 | the finaliser is a bijection on 32-bit words, with its inverse given |
| Badge.FnvStepInjective | crates/mailcore/src/badge.rs:132-135 | a step is injective in the state for a fixed byte and in the byte for a fixed state |
| Badge.SuffixCancels | crates/mailcore/src/badge.rs:132-135 | a common suffix neither makes nor breaks a collision |
| Badge.FinaliserAddsNoCollision | crates/mailcore/src/badge.rs:129-141 | two seeds collide exactly when their FNV states do |
| Badge.OneByteApart | crates/mailcore/src/badge.rs:129-141 | seeds of equal length that differ in exactly one byte never share a hash |
| Badge.SameColour | crates/mailcore/src/badge.rs:119-127 | two seeds share a colour if and only if their hashes agree modulo 2160 |
| Badge.ColourDigits | crates/mailcore/src/badge.rs:119-127 | hue, tone and saturation are the digits of the hash modulo 2160 in bases 360, 3 and 2, the hue the lowest |
| Badge.XorMeans | crates/mailcore/src/badge.rs:134-140 | exclusive or compares two numbers bit by bit |
| Badge.ShrDivides | crates/mailcore/src/badge.rs:136-140 | shifting right is dividing by a power of two |
| Badge.HashIs | crates/mailcore/src/badge.rs:129-141 | from the states of FNV-1a on, started at its offset basis and with `?` for an empty seed: the last one, mixed by shifts of 16, 13 and 16 with the two multiplications between, is the hash |
| Inflight.SharedTable.constructor | crates/mailffi/src/net.rs:106-114 | the table starts empty at generation 0 |
| Inflight.SharedTable.TryInsert | crates/mailffi/src/net.rs:217-225 | a key in flight is refused and nothing changes; a new one is entered, counted and snapshotted |
| Inflight.SharedTable.Remove | crates/mailffi/src/net.rs:169-174 | a present key is removed and counted, an absent one changes nothing |
| Inflight.RemovalFinds | crates/mailffi/src/net.rs:234-270 | whenever a job's entry is removed it is there |
| Inflight.InvStep | crates/mailffi/src/net.rs:176-277 | every step of the caller, the thread, the frontend and the transport keeps the invariant |
| Inflight.RunHolds | crates/mailffi/src/net.rs:176-277 | so it holds at every point of every run |
| Inflight.TableIsExact | crates/mailffi/src/net.rs:96-174 | the keys are exactly those of jobs entered and not removed, at most one a key; each job is entered once and removed at most once |
| Inflight.HistoryGrows | crates/mailffi/src/net.rs:102-109 | what a generation stood for is never rewritten |
| Inflight.GenerationDetermines | crates/mailffi/src/net.rs:102-109 | two snapshots of one generation, seen at any two times, are equal |
| Inflight.NeverBackwards | android/app/src/main/kotlin/de/renier/mailclient/ui/state/MailState.kt:288-297 | the frontend never goes back to an older table |
| Inflight.NewestShowsTable | android/app/src/main/kotlin/de/renier/mailclient/ui/state/MailState.kt:288-297 | having applied the newest generation, it shows the kinds in flight |
| Inflight.SettledShowsTable | crates/mailffi/src/net.rs:246-277 | once nothing is on its way and no report was lost, it shows exactly the kinds in flight |
| ContentLines.UnfoldLines | crates/mailcore/src/content_line.rs:6-29 | one pass with a peeked character computes the unfolding |
| ContentLines.UnfoldUndoesFolding | crates/mailcore/src/content_line.rs:6-29 | text cut into chunks joined by any line break and a blank (section 3.1 of RFC 5545) is given back, line by line |
| ContentLines.UnescapeText | crates/mailcore/src/content_line.rs:31-47 | the character loop computes the unescaping |
| ContentLines.UnescapeUndoesEscape | crates/mailcore/src/content_line.rs:31-47 | it inverts the escaping of section 3.3.11 of RFC 5545 on every text |
| ContentLines.ReadParamValue | crates/mailcore/src/content_line.rs:51-80 | quotes stripped and carets decoded |
| ContentLines.CaretRoundTrip | crates/mailcore/src/content_line.rs:51-80 | decoding inverts the encoding of section 3 of RFC 6868, which leaves no quote |
| ContentLines.ParseContentLine | crates/mailcore/src/content_line.rs:96-136 | one pass with a quote flag and a segment start computes the line |
| ContentLines.ParseUndoesPrint | crates/mailcore/src/content_line.rs:82-136 | a line printed as in section 3.1 of RFC 5545, with names in any case, any parameter values and any value, is read back exactly, the names in upper case |
| ContentLines.NotALine | crates/mailcore/src/content_line.rs:96-124 | without a colon, or without a name before it, there is no line |
| ContentLines.LinesOfLogical | crates/mailcore/src/calendar.rs:199 | the unfolded text splits into exactly the logical lines |
| Calendar.ReadCalendar | crates/mailcore/src/calendar.rs:172-299 | the loop with its stack, flags and zones computes the run of the state machine; the rows from `EventTexts` on say what a run reads |
| Calendar.ReadIcs | crates/mailcore/src/calendar.rs:172-299 | the size limit of 1 MiB, unfolding and the loop |
| Calendar.PrintedLineRead | crates/mailcore/src/calendar.rs:199-208 | a line printed with any parameters and any value, and blanks before and behind, is read as meant |
| Calendar.EventTexts | crates/mailcore/src/calendar.rs:266-277 | after every run the event's summary is what its last SUMMARY line, read directly inside VEVENT while the first event was open, says unescaped; the place the same trimmed, blank meaning none; status and method trimmed; the organizer by its reader; none without such a line |
| Calendar.EventTimes | crates/mailcore/src/calendar.rs:278-281 | in the same way the start is the time of the last DTSTART line, the end that of DTEND, the duration that of DURATION, and the sequence number that of SEQUENCE, else 0 |
| Calendar.CalendarMethod | crates/mailcore/src/calendar.rs:255 | the calendar's own method is its last METHOD line outside every other component, trimmed |
| Calendar.Opens | crates/mailcore/src/calendar.rs:210-224 | BEGIN opens a component innermost and changes nothing else but a zone under construction; with 32 open ones the file is refused |
| Calendar.Closes | crates/mailcore/src/calendar.rs:225-247 | END closes the innermost component of its name with all inside it, or nothing; END:VEVENT ends the first event once something was read of it, and only END:VCALENDAR stops |
| Calendar.SeenOfRun | crates/mailcore/src/calendar.rs:266-268 | something was read of the first event exactly if a property stood directly inside it |
| Calendar.FirstEventDecides | crates/mailcore/src/calendar.rs:180-299 | whatever follows the end of the first event, what was read of it stays |
| Calendar.ZoneOfRun | crates/mailcore/src/calendar.rs:256-265 | of a zone the last TZID directly inside it and the offsets of its STANDARD and DAYLIGHT rules are gathered, in order |
| Calendar.ZoneDefined | crates/mailcore/src/calendar.rs:225-238 | a zone is kept exactly if it names itself and all its rules state one and the same known offset |
| Calendar.AddressRead | crates/mailcore/src/calendar.rs:125-131 | the address is what stands behind `mailto:` in any case, else the whole value, without blanks around it |
| Calendar.PersonRead | crates/mailcore/src/calendar.rs:73-144 | an attendee or organizer is shown by the first CN parameter unless blank, the organizer with the address behind it where they differ, else by the address, else not at all; an attendee's status is the first PARTSTAT in upper case |
| Calendar.StackBounded | crates/mailcore/src/calendar.rs:170-224 | whatever the input, the stack never holds more than 32 components |
| Calendar.DoneEventStays | crates/mailcore/src/calendar.rs:180-299 | once the first event is done no line changes what was read of it |
| Calendar.AttendeeOfRun | crates/mailcore/src/calendar.rs:284-293 | the kept attendee is the choice among those read so far, from any state on |
| Calendar.AttendeeChoice | crates/mailcore/src/calendar.rs:284-293 | the attendee is the first one read that states a participation status, else the first one read, and none only if none was read |
| Calendar.TreeRun | crates/mailcore/src/calendar.rs:206-247 | a foreign component tree leaves the whole state as it was, or the file is refused exactly when it nests deeper than 32 |
| Calendar.NestedComponentsDoNotInterfere | crates/mailcore/src/calendar.rs:170-299 | inserted between two lines of an event, it leaves the result unchanged exactly as long as nesting stays within 32 |
| Calendar.FoldingDoesNotMatter | crates/mailcore/src/calendar.rs:172-199 | how a file within the size limit is folded does not matter |
| ContactCards.ParseVCard | crates/mailcore/src/vcard.rs:113-171 | the loop with its depth and card counters computes the run over the lines |
| ContactCards.ReadVCard | crates/mailcore/src/vcard.rs:113-171 | the size limit of 4 MiB, unfolding and the loop |
| ContactCards.FoldingDoesNotMatter | crates/mailcore/src/vcard.rs:113-118 | how a file within the size limit is folded does not matter |
| ContactCards.RunAppend | crates/mailcore/src/vcard.rs:122-165 | lines after a complete value are read from the state the lines before left |
| ContactCards.CardRun | crates/mailcore/src/vcard.rs:122-150 | a whole card inside another, however nested, changes nothing; behind the first it only counts |
| ContactCards.EmbeddedCardInvisible | crates/mailcore/src/vcard.rs:122-165 | inside the first card, an embedded card changes nothing of what is read, whatever follows, if and only if no value is waiting for its continuation line |
| ContactCards.SplitValueSwallowsCard | crates/mailcore/src/vcard.rs:151-162 | behind a value that waits, any whole card changes what is read: its first line is taken into the value |
| ContactCards.SplitValueExample | crates/mailcore/src/vcard.rs:113-171 | such a file: with an embedded card behind a note ending in `=` the note is read as another |
| ContactCards.PrintedLineRead | crates/mailcore/src/vcard.rs:122-131 | a property printed with any parameters and any value is read as meant, its name in upper case and blanks at its end trimmed |
| ContactCards.CardRead | crates/mailcore/src/vcard.rs:122-165 | the printed properties of a card, with or without a group and in any case, are handed over each as meant, in order, and none else |
| ContactCards.AppendedCardsCount | crates/mailcore/src/vcard.rs:122-171 | appending k whole cards raises the count of further cards by k and changes nothing else |
| ContactCards.SoftJoins | crates/mailcore/src/vcard.rs:151-162 | a value broken by soft line breaks is joined again and no line too many is taken |
| ContactCards.DecodeQuotedPrintable | crates/mailcore/src/vcard.rs:402-421 | the byte loop computes the decoding, malformed escapes kept |
| ContactCards.DecodeUndoesEncode | crates/mailcore/src/vcard.rs:402-421 | it inverts the encoding of section 6.7 of RFC 2045, whichever octets the encoder escapes |
| ContactCards.EscapeDecoded | crates/mailcore/src/vcard.rs:402-421 | an equals sign with two hexadecimal digits in either case, or a plus sign and one, is that octet |
| ContactCards.MalformedKept | crates/mailcore/src/vcard.rs:402-421 | an equals sign with any other two octets behind it stays as it is |
| ContactCards.Components | crates/mailcore/src/vcard.rs:272-295 | the loop with its current part splits at unescaped semicolons |
| ContactCards.ComponentsUndoJoin | crates/mailcore/src/vcard.rs:272-295 | parts escaped and joined by `;` (section 3.4 of RFC 6350) are given back trimmed |
| SecretVault.VaultFiles.constructor | crates/mailcore/src/auth.rs:168-183 | no temporary file at the start |
| SecretVault.VaultFiles.ReadMap | crates/mailcore/src/auth.rs:193-200 | a missing file is the empty map, a read error is an error, and otherwise the answer is exactly what the codec makes of the text |
| SecretVault.VaultFiles.WriteMap | crates/mailcore/src/auth.rs:204-215 | whichever file operation fails, the vault file is the encoded new map or untouched |
| SecretVault.VaultFiles.Update | crates/mailcore/src/auth.rs:217-226 | success, exactly when the file was missing or decodes and nothing failed, means the changed map; a file that does not decode, or any failure, leaves the file as it was |
| SecretVault.VaultFiles.GetSecret | crates/mailcore/src/auth.rs:228-236 | the secret, that there is none, or a failure for a vault that cannot be read |
| SecretVault.VaultFiles.SetSecret | crates/mailcore/src/auth.rs:238-242 | the key has the secret and every other key what it had, or the file is untouched |
| SecretVault.VaultFiles.DeleteSecret | crates/mailcore/src/auth.rs:244-251 | the key is gone and every other key is as it was, or the file is untouched; a missing vault stays missing |
| SecretVault.InvStep | crates/mailcore/src/auth.rs:185-251 | every file operation, failure, panic, kill and power cut keeps the invariant |
| SecretVault.RunHolds | crates/mailcore/src/auth.rs:185-251 | so it holds at every point of every run |
| SecretVault.RecordsGrow | crates/mailcore/src/auth.rs:185-251 | the log and the versions only grow, an answer given stays, and calls begun later begin at a later record |
| SecretVault.LookAnswers | crates/mailcore/src/auth.rs:193-236 | in every interleaving a reader's answer is the secret in the file as it is when looked at, that there is none, or a failure if the text does not decode |
| SecretVault.VaultIsReplay | crates/mailcore/src/auth.rs:185-251 | at every point of any interleaving with any crashes the vault means the logged changes applied one after the other |
| SecretVault.WrittenOnce | crates/mailcore/src/auth.rs:217-251 | a call is in the log exactly once if it was answered with success, else never, and after it began |
| SecretVault.ReaderSeesOneMoment | crates/mailcore/src/auth.rs:228-236 | a reader without the lock is told what held at one moment between its beginning and its answer |
| SecretVault.OrderKeepsTime | crates/mailcore/src/auth.rs:185-188 | a call begun after another was answered takes effect no earlier, and later if the other wrote |
| SecretVault.NoUpdateLost | crates/mailcore/src/auth.rs:185-226 | the vault is the first map with exactly the logged changes that no later power cut reached back over, in order; every change reported as written is logged; without a power cut, however often the process dies, all logged changes are there |
| SecretVault.ReplayOfSurvivors | crates/mailcore/src/auth.rs:202-215 | replaying changes and power cuts one after the other is applying the surviving changes alone |
| SecretVault.PowerCutLosesWrite | crates/mailcore/src/auth.rs:204-215 | a run in which a power cut takes back a change reported as written |
| SecretVault.StepChangesOneKey | crates/mailcore/src/auth.rs:202-226 | at each step the vault file is left alone, or replaced by one call's change with all other keys kept, or after a power cut an earlier version |
| SecretVault.UntouchedKeyKept | crates/mailcore/src/auth.rs:190-226 | a key no call wrote keeps its secret through every crash and power cut |
| SecretVault.CorruptVaultKept | crates/mailcore/src/auth.rs:190-200 | a file that does not decode is the same at every point of every run, and every finished call failed |
| SecretVault.UpdateAloneSucceeds | crates/mailcore/src/auth.rs:217-226 | whatever earlier crashes left behind, an undisturbed store into a sound vault goes through and leaves the disk as `Update` does |
| CacheTrim.LimitIsRank | crates/mailcore/src/maintenance.rs:276-281 | a row is among the first n by (uid, id) of its folder exactly when fewer than n are newer |
| CacheTrim.Cache.DeleteOld | crates/mailcore/src/maintenance.rs:270-287 | the statement for one folder keeps other folders, guarded rows and the folder's newest n, deletes the rest, counts it, and no guard changes |
| CacheTrim.Cache.TrimLocalCache | crates/mailcore/src/maintenance.rs:262-291 | the loop with its running count trims every folder: what stays are exactly the drafts, the rows with unpushed flags or a pending move, those a queued, sending or failed send refers to, and those with fewer than n rows of their folder of a greater (uid, id); sends lose exactly the messages that vanished, and the count is theirs |
| CacheTrim.RankKept | crates/mailcore/src/maintenance.rs:276-281 | a row within the limit has the same rank afterwards |
| CacheTrim.TrimsCompose | crates/mailcore/src/maintenance.rs:262-291 | trimming to j after trimming to k is trimming to the smaller |
| CacheTrim.TrimIdempotent | crates/mailcore/src/maintenance.rs:262-291 | a trim repeated changes nothing |
| CacheTrim.TrimmedFolder | crates/mailcore/src/maintenance.rs:249-261 | afterwards a folder holds exactly its guarded rows and its newest n, hence at most n unguarded ones |
| FileNames.DecimalInjective | crates/mailcore/src/paths.rs:230-235 | different numbers are printed differently |
| FileNames.DecimalValue | crates/mailcore/src/paths.rs:230-235 | the digits printed are decimal, without a leading zero, and stand for the number |
| FileNames.NumberedIs | crates/mailcore/src/paths.rs:230-235 | the number of a collision goes in brackets before the extension, or to the end without one |
| FileNames.CandidateInjective | crates/mailcore/src/paths.rs:230-246 | no two numbers make the same name and none makes the bare one |
| FileNames.FreePath | crates/mailcore/src/paths.rs:238-246 | the loop ends for every finite set of names, within as many tries as there are names, with the first candidate nobody has |
| FileNames.CapName | crates/mailcore/src/paths.rs:182-196 | the byte loop down to a character boundary cuts the longest prefix that fits |
| FileNames.FittingIsLongest | crates/mailcore/src/paths.rs:190-193 | one character more would not fit |
| FileNames.SafeAttachmentName | crates/mailcore/src/paths.rs:147-173 | the reassigned name ends up as the specification says |
| FileNames.SafeNameIsSafe | crates/mailcore/src/paths.rs:105-173 | whatever the mail says: at most 150 UTF-8 bytes, no separator, control or reserved character, no dot or blank at the end |
| FileNames.CleanedWhole | crates/mailcore/src/paths.rs:198-228 | a name with nothing to clean is kept as it is |
| FileNames.DirectoryDoesNotMatter | crates/mailcore/src/paths.rs:198-205 | what stands before the last separator makes no difference to the name written |
| FileNames.CleanedIs | crates/mailcore/src/paths.rs:198-228 | blanks around a name and dots and blanks at its end are dropped, each control character and each of `:*?"<>` and the bar becomes `_`, and a device's name gets a `_` in front |
| FileNames.CleanedEmpty | crates/mailcore/src/paths.rs:206-220 | without a name, or with dots and blanks only, the name is made up from the row id |
| FileNames.DeviceMeans | crates/mailcore/src/paths.rs:221-227 | device names are con, prn, aux, nul, and com and lpt with a digit from 1 to 9, in any case |
| FileNames.UncappedGains | crates/mailcore/src/paths.rs:147-172 | with a known type a made-up name takes its extension and a name without an extension gets it |
| FileNames.UncappedSwaps | crates/mailcore/src/paths.rs:158-168 | an extension that names another type is swapped and any other stays |
| FileNames.CutStemIsPrefix | crates/mailcore/src/paths.rs:182-196 | a name that fits is kept; a cut one is a prefix of it followed by its short extension |
| FileNames.CutIs | crates/mailcore/src/paths.rs:175-196 | a name of at most 150 bytes is written as it is; of a longer one without a short extension the whole characters that fit are written, without dots and blanks at the end |
| FileNames.CutBefore | crates/mailcore/src/paths.rs:182-196 | an extension of at most 16 bytes stays whole behind what fits of the name before it |
| FileNames.UncappedNoDevice | crates/mailcore/src/paths.rs:198-228 | before the cap no name is a device's, nor does the new extension make it one |
| FileNames.DeviceExactly | crates/mailcore/src/paths.rs:182-228 | a written name is a device's if and only if the name is too long and what fits of it before the extension is a device name followed by dots and blanks only |
| FileNames.CutMakesDevice | crates/mailcore/src/paths.rs:182-228 | `con`, 150 blanks or more and `x.pdf` is such an input |
| FileNames.EmptyExactly | crates/mailcore/src/paths.rs:182-196 | a written name is empty if and only if the name is too long, has no short extension, and what fits of it is dots and blanks |
| FileNames.CutMakesEmpty | crates/mailcore/src/paths.rs:182-196 | 150 dots or more and at least 17 letters are such an input |
| FileNames.OpensRight | crates/mailcore/src/paths.rs:137-196 | the written extension is the type's own, or names the type, or is none known, if and only if the name fits, or its extension is short, or what the cut leaves still ends in such a one |
| FileNames.CutLosesExtension | crates/mailcore/src/paths.rs:182-196 | 150 letters or more, a dot and at least 17 letters that name no type are written without an extension |
| FileNames.NumberedFits | crates/mailcore/src/paths.rs:175-235 | a 32-bit number adds at most twelve bytes and keeps the name fit to write and its extension |
| FileNames.CollisionFits | crates/mailcore/src/paths.rs:175-246 | so every name a collision asks for has at most 162 bytes and is fit to write |

## Left out

- Subjects.NormalizeIdempotent: the lower-casing itself is a parameter; that Unicode lower-casing meets the precondition is not proved here.
- FileNames.FreePath: numbers are unbounded; the source counts in 32 bits, which is enough for fewer than 2^32 files in the folder (the bound on tries). Joining with an absolute name and races with other writers are not modelled.
- SecretVault.VaultFiles.Update: the directory's creation and a path changed between two calls are not modelled; one process holds the lock, as the source says.
- Keyword extraction and the ranking of the keyword tier: the tier is an ordered sequence of rows.
- Real SQLite: tables are sets or sequences of rows; term matching is an abstract predicate. SQLite's pattern length limit and NUL characters in patterns are not modelled.
- Of the FTS5 grammar, the operators the compiler never prints (NEAR, `+`, `^`, negated column filters).
- The order in which snapshots list kinds and keys, the wrap of 64-bit generations, and flag pushes, which bypass the table.
- Resolving and formatting of event times, zones and durations, and the wording of notices.
- The contact card's builder: which property fills which field, labels, addresses; also picking UTF-8 or Latin-1 for decoded bytes.
- Colour conversion in floating point, badge letters, and the lower-casing of the hashed seed.
- File URLs, percent decoding and the pruning of temporary copies, which rest on file ages and platform paths.
- Evicting cached attachments, storage statistics and status texts, which no other part of the model depends on; rows that cascade from a deleted message other than its sends.
- Sync, outbox, accounts, the user interfaces and the foreign-function layers.
