/** The line-driven iCalendar reader: a component stack, and properties read only where they belong. */
module Calendar {
  import opened Text
  import opened ContentLines

  const MAX_DEPTH := 32

  datatype Attendee = Attendee(who: string, partstat: Option<string>)
  datatype Zone<O> = Zone(tzid: Option<string>, offsets: seq<Option<O>>)

  /** Readers of single values that live elsewhere: times, durations, UTC offsets and numbers. */
  datatype Readers<!T, !O> = Readers(
    time: Line -> Option<T>,
    duration: string -> Option<int>,
    offset: string -> Option<O>,
    number: string -> nat)

  /** What is read of the first event. */
  datatype Event<T> = Event(
    method_: Option<string>, summary: Option<string>, location: Option<string>, organizer: Option<string>,
    status: Option<string>, start: Option<T>, end: Option<T>, duration: Option<int>, sequence: nat,
    attendee: Option<Attendee>)

  datatype State<T, O> = State(
    stack: seq<string>,            // open components, innermost last
    eventSeen: bool,
    eventDone: bool,
    zone: Option<Zone<O>>,
    zones: map<string, O>,
    calendarMethod: Option<string>,
    event: Event<T>)

  /** Go on, stop at the end of the calendar, or give up on nesting that is too deep. */
  datatype Outcome<T, O> = Next(state: State<T, O>) | Stop(state: State<T, O>) | Refused

  function Start<T, O>(): State<T, O> {
    State([], false, false, None, map[], None, Event(None, None, None, None, None, None, None, None, 0, None))
  }

  function Top(stack: seq<string>): string {
    if stack == [] then "" else stack[|stack| - 1]
  }

  function ParamOrNone(l: Line, name: string): Option<string> {
    FindParam(l.params, name)
  }

  function FindParam(ps: seq<Param>, name: string): Option<string> {
    if ps == [] then None else if ps[0].name == name then Some(ps[0].value) else FindParam(ps[1..], name)
  }

  function WithoutMailto(value: string): string {
    var v := Trim(value);
    if |v| >= 7 && EqIgnoreCase(v[..7], "mailto:") then Trim(v[7..]) else v
  }

  function TrimmedParam(l: Line, name: string): Option<string> {
    match ParamOrNone(l, name)
    case Some(v) => if Trim(v) == "" then None else Some(Trim(v))
    case None => None
  }

  /** `parse_attendee` */
  function ReadAttendee(l: Line): Option<Attendee> {
    var email := WithoutMailto(l.value);
    var cn := TrimmedParam(l, "CN");
    var who := if cn.Some? then cn.value else email;
    if who == "" then None
    else Some(Attendee(who, match ParamOrNone(l, "PARTSTAT") case Some(p) => Some(UpperAll(Trim(p))) case None => None))
  }

  /** `parse_organizer` */
  function ReadOrganizer(l: Line): Option<string> {
    var addr := WithoutMailto(l.value);
    match TrimmedParam(l, "CN")
    case Some(name) => if addr != "" && name != addr then Some(name + " <" + addr + ">") else Some(name)
    case None => if addr != "" then Some(addr) else None
  }

  /** Prefer the first attendee that states a participation status, else keep the first. */
  function Prefer(cur: Option<Attendee>, a: Attendee): Option<Attendee> {
    if cur.None? || (cur.value.partstat.None? && a.partstat.Some?) then Some(a) else cur
  }

  /** `ZoneBuilder::fixed_offset`: a zone with one offset throughout. */
  function FixedOffset<O(==)>(z: Zone<O>): Option<O> {
    if z.offsets == [] || z.offsets[0].None? then None
    else if forall i :: 0 <= i < |z.offsets| ==> z.offsets[i] == z.offsets[0] then z.offsets[0]
    else None
  }

  /** The stack cut before the innermost `comp`; unchanged when there is none. */
  function Closed(stack: seq<string>, comp: string): (r: seq<string>)
    ensures |r| <= |stack|
  {
    CloseFrom(stack, comp, |stack|)
  }

  function CloseFrom(stack: seq<string>, comp: string, n: nat): (r: seq<string>)
    requires n <= |stack|
    ensures |r| <= |stack|
  {
    if n == 0 then stack else if stack[n - 1] == comp then stack[..n - 1] else CloseFrom(stack, comp, n - 1)
  }

  /** An event property, by its name. */
  function ReadEvent<T, O>(r: Readers<T, O>, e: Event<T>, l: Line): Event<T> {
    if l.name == "SUMMARY" then e.(summary := Some(Unescape(l.value)))
    else if l.name == "LOCATION" then
      var place := Trim(Unescape(l.value));
      e.(location := if place == "" then None else Some(place))
    else if l.name == "STATUS" then e.(status := Some(Trim(l.value)))
    else if l.name == "METHOD" then e.(method_ := Some(Trim(l.value)))
    else if l.name == "ORGANIZER" then e.(organizer := ReadOrganizer(l))
    else if l.name == "DTSTART" then e.(start := r.time(l))
    else if l.name == "DTEND" then e.(end := r.time(l))
    else if l.name == "DURATION" then e.(duration := r.duration(l.value))
    else if l.name == "SEQUENCE" then e.(sequence := r.number(Trim(l.value)))
    else if l.name == "ATTENDEE" then
      match ReadAttendee(l) case None => e case Some(a) => e.(attendee := Prefer(e.attendee, a))
    else e
  }

  function Property<T, O>(r: Readers<T, O>, s: State<T, O>, l: Line): State<T, O> {
    var top := Top(s.stack);
    if top == "VCALENDAR" && l.name == "METHOD" then s.(calendarMethod := Some(Trim(l.value)))
    else if top == "VTIMEZONE" && l.name == "TZID" then
      match s.zone case None => s case Some(z) => s.(zone := Some(z.(tzid := Some(Trim(l.value)))))
    else if (top == "STANDARD" || top == "DAYLIGHT") && l.name == "TZOFFSETTO"
         && |s.stack| >= 2 && s.stack[|s.stack| - 2] == "VTIMEZONE" then
      match s.zone case None => s case Some(z) => s.(zone := Some(z.(offsets := z.offsets + [r.offset(l.value)])))
    else if top == "VEVENT" && !s.eventDone then
      s.(eventSeen := true, event := ReadEvent(r, s.event, l))
    else s
  }

  function Begin<T, O>(s: State<T, O>, comp: string): Outcome<T, O> {
    if |s.stack| >= MAX_DEPTH then Refused
    else Next(s.(stack := s.stack + [comp], zone := if comp == "VTIMEZONE" then Some(Zone(None, [])) else s.zone))
  }

  function End<T, O(==)>(s: State<T, O>, comp: string): Outcome<T, O> {
    var t := s.(stack := Closed(s.stack, comp));
    if comp == "VTIMEZONE" then
      match s.zone
      case None => Next(t)
      case Some(z) =>
        Next(t.(zone := None,
                zones := if z.tzid.Some? && FixedOffset(z).Some? then s.zones[z.tzid.value := FixedOffset(z).value]
                         else s.zones))
    else if comp == "VEVENT" && s.eventSeen then Next(t.(eventDone := true))
    else if comp == "VCALENDAR" then Stop(t)
    else Next(t)
  }

  /** A physical line as the loop sees it: trimmed, and parsed if it can be. */
  function ReadLine(line: string): Option<Line> {
    if Trim(line) == "" then None else Parse(Trim(line))
  }

  function Step<T, O(==)>(r: Readers<T, O>, s: State<T, O>, line: string): Outcome<T, O> {
    match ReadLine(line)
    case None => Next(s)
    case Some(l) =>
      var comp := UpperAll(Trim(l.value));
      if l.name == "BEGIN" then Begin(s, comp)
      else if l.name == "END" then End(s, comp)
      else Next(Property(r, s, l))
  }

  function Run<T, O(==)>(r: Readers<T, O>, s: State<T, O>, lines: seq<string>): Outcome<T, O>
    decreases |lines|
  {
    if lines == [] then Next(s)
    else
      var out := Step(r, s, lines[0]);
      if out.Next? then Run(r, out.state, lines[1..]) else out
  }

  /** The loop of `parse` over the unfolded lines, each variable updated in place. */
  method ReadCalendar<T, O(==)>(r: Readers<T, O>, lines: seq<string>) returns (result: Outcome<T, O>)
    ensures result == Run(r, Start(), lines)
  {
    hide Trim, UpperAll, Parse, Property, FixedOffset, Closed;
    var stack: seq<string> := [];
    var eventSeen, eventDone := false, false;
    var zone: Option<Zone<O>> := None;
    var zones: map<string, O> := map[];
    var calendarMethod: Option<string> := None;
    var event: Event<T> := Event(None, None, None, None, None, None, None, None, 0, None);
    var i := 0;
    assert lines[0..] == lines;
    while i < |lines|
      invariant i <= |lines|
      invariant Run(r, State(stack, eventSeen, eventDone, zone, zones, calendarMethod, event), lines[i..])
              == Run(r, Start(), lines)
    {
      ghost var now := State(stack, eventSeen, eventDone, zone, zones, calendarMethod, event);
      var text := Trim(lines[i]);
      i := i + 1;
      if text == "" {
        continue;
      }
      var cl := Parse(text);
      if cl.None? {
        continue;
      }
      var l := cl.value;
      var comp := UpperAll(Trim(l.value));
      if l.name == "BEGIN" {
        if comp == "VTIMEZONE" {
          zone := Some(Zone(None, []));
        }
        if |stack| >= MAX_DEPTH {
          return Refused;
        }
        stack := stack + [comp];
        continue;
      }
      if l.name == "END" {
        stack := Closed(stack, comp);
        if comp == "VTIMEZONE" {
          if zone.Some? {
            var z := zone.value;
            zone := None;
            if z.tzid.Some? && FixedOffset(z).Some? {
              zones := zones[z.tzid.value := FixedOffset(z).value];
            }
          }
        } else if comp == "VEVENT" && eventSeen {
          eventDone := true;
        } else if comp == "VCALENDAR" {
          return Stop(State(stack, eventSeen, eventDone, zone, zones, calendarMethod, event));
        }
        continue;
      }
      var t := Property(r, State(stack, eventSeen, eventDone, zone, zones, calendarMethod, event), l);
      PropertyFrame(r, now, l);
      eventSeen, zone, calendarMethod, event := t.eventSeen, t.zone, t.calendarMethod, t.event;
    }
    assert lines[i..] == [];
    result := Next(State(stack, eventSeen, eventDone, zone, zones, calendarMethod, event));
  }

  /** A property never opens or closes anything. */
  lemma PropertyFrame<T, O>(r: Readers<T, O>, s: State<T, O>, l: Line)
    ensures var t := Property(r, s, l);
            t.stack == s.stack && t.eventDone == s.eventDone && t.zones == s.zones
  {
    hide ReadEvent, Trim;
  }

  lemma {:induction false} RunAppend<T, O>(r: Readers<T, O>, s: State<T, O>, a: seq<string>, b: seq<string>)
    ensures Run(r, s, a + b) == if Run(r, s, a).Next? then Run(r, Run(r, s, a).state, b) else Run(r, s, a)
    decreases |a|
  {
    hide Step;
    if a == [] {
      assert a + b == b;
    } else {
      assert (a + b)[1..] == a[1..] + b;
      var next := Step(r, s, a[0]);
      if next.Next? { RunAppend(r, next.state, a[1..], b); }
    }
  }

  lemma TrimPrinted(lead: string, front: string, value: string)
    requires Blank(lead) && front != [] && !IsSpace(front[0]) && !IsSpace(front[|front| - 1])
    ensures Trim(lead + (front + value)) == front + TrimEnd(value)
  {
    TrimStartBlank(lead, front + value);
    TrimEndKeeps(front, value);
    assert (front + value)[0] == front[0];
  }

  lemma PrintedFront(name: string, ps: seq<Written>, value: string)
    requires CleanName(name) && name != []
    ensures var front := name + (PrintParams(ps) + ":");
            && front != [] && !IsSpace(front[0]) && !IsSpace(front[|front| - 1])
            && PrintLine(name, ps, value) == front + value
  {
    hide PrintParams;
    var front := name + (PrintParams(ps) + ":");
    assert front[0] == name[0] && front[|front| - 1] == ':';
  }

  /** A printed line is read as meant, with blanks around it dropped. */
  lemma PrintedLineRead(lead: string, name: string, ps: seq<Written>, value: string)
    requires Blank(lead) && CleanName(name) && name != [] && forall i :: 0 <= i < |ps| ==> ValidParam(ps[i])
    ensures ReadLine(lead + PrintLine(name, ps, value)) == Some(Line(UpperAll(name), AllMeant(ps), TrimEnd(value)))
  {
    hide Parse, PrintParams, PrintLine, ValidParam, AllMeant, TrimEnd, Trim, UpperAll, IsSpace;
    PrintedFront(name, ps, value);
    PrintedFront(name, ps, TrimEnd(value));
    TrimPrinted(lead, name + (PrintParams(ps) + ":"), value);
    ParseUndoesPrint(name, ps, TrimEnd(value));
  }

  // ---- Bounds and the first event -----------------------------------------------------------------------------------

  /** Whatever the input, the stack never holds more than MAX_DEPTH components. */
  lemma {:induction false} StackBounded<T, O>(r: Readers<T, O>, s: State<T, O>, lines: seq<string>)
    requires |s.stack| <= MAX_DEPTH
    ensures !Run(r, s, lines).Refused? ==> |Run(r, s, lines).state.stack| <= MAX_DEPTH
    decreases |lines|
  {
    hide ReadLine, Property;
    if lines != [] {
      if ReadLine(lines[0]).Some? { PropertyFrame(r, s, ReadLine(lines[0]).value); }
      var next := Step(r, s, lines[0]);
      if next.Next? { StackBounded(r, next.state, lines[1..]); }
    }
  }

  /** Once the first event is done, no line changes what was read of it. */
  lemma {:induction false} DoneEventStays<T, O>(r: Readers<T, O>, s: State<T, O>, lines: seq<string>)
    requires s.eventDone
    ensures !Run(r, s, lines).Refused? ==> Run(r, s, lines).state.event == s.event && Run(r, s, lines).state.eventDone
    decreases |lines|
  {
    hide ReadLine, ReadEvent, FixedOffset, Closed;
    if lines != [] {
      var next := Step(r, s, lines[0]);
      if next.Next? { DoneEventStays(r, next.state, lines[1..]); }
    }
  }

  /** The attendees read for the first event, in order. */
  function AttendeesRead<T, O(==)>(r: Readers<T, O>, s: State<T, O>, lines: seq<string>): seq<Attendee>
    decreases |lines|
  {
    if lines == [] then []
    else
      var here := AttendeeAt(s, lines[0]);
      match Step(r, s, lines[0])
      case Next(t) => here + AttendeesRead(r, t, lines[1..])
      case _ => here
  }

  function AttendeeAt<T, O>(s: State<T, O>, line: string): seq<Attendee> {
    match ReadLine(line)
    case None => []
    case Some(l) =>
      if Top(s.stack) == "VEVENT" && !s.eventDone && l.name == "ATTENDEE" && ReadAttendee(l).Some?
      then [ReadAttendee(l).value] else []
  }

  /** The first that states a status, else the first, else none. */
  function FirstStating(list: seq<Attendee>): Option<Attendee> {
    if list == [] then None
    else if list[0].partstat.Some? then Some(list[0])
    else
      var rest := FirstStating(list[1..]);
      if rest.Some? && rest.value.partstat.Some? then rest else Some(list[0])
  }

  lemma {:induction false} FirstStatingMeans(list: seq<Attendee>)
    ensures FirstStating(list).None? <==> list == []
    ensures list != [] && (forall i :: 0 <= i < |list| ==> list[i].partstat.None?)
            ==> FirstStating(list) == Some(list[0])
    ensures forall k :: 0 <= k < |list| && list[k].partstat.Some? && (forall i :: 0 <= i < k ==> list[i].partstat.None?)
                        ==> FirstStating(list) == Some(list[k])
  {
    if list != [] {
      var rest := list[1..];
      FirstStatingMeans(rest);
      assert forall i :: 0 <= i < |rest| ==> rest[i] == list[i + 1];
      forall k | 0 <= k < |list| && list[k].partstat.Some? && (forall i :: 0 <= i < k ==> list[i].partstat.None?)
        ensures FirstStating(list) == Some(list[k])
      {
        if k > 0 {
          assert rest[k - 1].partstat.Some?;
          assert forall i :: 0 <= i < k - 1 ==> rest[i].partstat.None?;
        }
      }
    }
  }

  /** The choice so far, followed by more attendees. */
  function Chosen(cur: Option<Attendee>, list: seq<Attendee>): Option<Attendee> {
    FirstStating((if cur.Some? then [cur.value] else []) + list)
  }

  lemma ChosenMore(cur: Option<Attendee>, a: Attendee, list: seq<Attendee>)
    ensures Chosen(Prefer(cur, a), list) == Chosen(cur, [a] + list)
  {
    if cur.Some? {
      var all := [cur.value] + ([a] + list);
      assert all[1..] == [a] + list && ([a] + list)[1..] == list;
      assert ([cur.value] + list)[1..] == list;
      var y := FirstStating(list);
      assert FirstStating([a] + list)
             == if a.partstat.Some? then Some(a) else if y.Some? && y.value.partstat.Some? then y else Some(a);
    } else {
      assert [] + ([a] + list) == [a] + list;
    }
  }

  lemma {:induction false} AttendeeOfRun<T, O>(r: Readers<T, O>, s: State<T, O>, lines: seq<string>)
    ensures !Run(r, s, lines).Refused? ==>
              Run(r, s, lines).state.event.attendee == Chosen(s.event.attendee, AttendeesRead(r, s, lines))
    decreases |lines|
  {
    hide ReadLine, FixedOffset, Closed, ReadAttendee, Prefer, Chosen, Unescape, Trim, ReadOrganizer;
    ChosenNothing(s.event.attendee);
    if lines != [] {
      var here := AttendeeAt(s, lines[0]);
      AttendeeOfStep(r, s, lines[0]);
      hide Step, AttendeeAt;
      var next := Step(r, s, lines[0]);
      if next.Next? {
        AttendeeOfRun(r, next.state, lines[1..]);
        var more := AttendeesRead(r, next.state, lines[1..]);
        if here == [] {
          assert here + more == more;
        } else {
          assert here == [here[0]];
          ChosenMore(s.event.attendee, here[0], more);
        }
      }
    }
  }

  lemma ChosenNothing(cur: Option<Attendee>)
    ensures Chosen(cur, []) == cur
  {
    if cur.Some? {
      var one := [cur.value] + [];
      assert one[1..] == [] && FirstStating(one[1..]).None?;
    }
  }

  lemma AttendeeOfStep<T, O>(r: Readers<T, O>, s: State<T, O>, line: string)
    ensures |AttendeeAt(s, line)| <= 1
    ensures var out := Step(r, s, line);
            !out.Refused? ==>
              out.state.event.attendee == if AttendeeAt(s, line) == [] then s.event.attendee
                                          else Prefer(s.event.attendee, AttendeeAt(s, line)[0])
    ensures !Step(r, s, line).Next? ==> AttendeeAt(s, line) == []
  {
    hide ReadLine, FixedOffset, Closed, ReadAttendee, Prefer, Unescape, Trim, ReadOrganizer;
  }

  /** The attendee on the card is the first one read that states a status, else the first one read. */
  lemma AttendeeChoice<T, O>(r: Readers<T, O>, lines: seq<string>)
    ensures var out := Run(r, Start<T, O>(), lines);
            var read := AttendeesRead(r, Start<T, O>(), lines);
            !out.Refused? ==>
              var kept := out.state.event.attendee;
              && (kept.None? <==> read == [])
              && (read != [] && (forall i :: 0 <= i < |read| ==> read[i].partstat.None?) ==> kept == Some(read[0]))
              && (forall k :: 0 <= k < |read| && read[k].partstat.Some?
                              && (forall i :: 0 <= i < k ==> read[i].partstat.None?)
                              ==> kept == Some(read[k]))
  {
    AttendeeOfRun(r, Start<T, O>(), lines);
    FirstStatingMeans(AttendeesRead(r, Start<T, O>(), lines));
    hide Run, FirstStating, AttendeesRead;
    var list := AttendeesRead(r, Start<T, O>(), lines);
    assert [] + list == list;
  }

  // ---- What each field holds after a run ----------------------------------------------------------------------------

  /** Where an event property belongs: directly inside VEVENT, while the first event is open. */
  predicate InEvent<T, O>(s: State<T, O>) {
    Top(s.stack) == "VEVENT" && !s.eventDone
  }

  predicate InCalendar<T, O>(s: State<T, O>) {
    Top(s.stack) == "VCALENDAR"
  }

  /** A property line read in a state where `on` holds. */
  function LineWhile<T, O>(s: State<T, O>, line: string, on: State<T, O> -> bool): seq<Line> {
    match ReadLine(line)
    case None => []
    case Some(l) => if on(s) && l.name != "BEGIN" && l.name != "END" then [l] else []
  }

  /** All such lines of a run, in order. */
  function LinesWhile<T, O(==)>(r: Readers<T, O>, s: State<T, O>, lines: seq<string>, on: State<T, O> -> bool)
    : seq<Line>
    decreases |lines|
  {
    if lines == [] then []
    else
      LineWhile(s, lines[0], on)
      + match Step(r, s, lines[0])
        case Next(t) => LinesWhile(r, t, lines[1..], on)
        case _ => []
  }

  /** The last line with this name. */
  function LastNamed(ls: seq<Line>, name: string): Option<Line> {
    if ls == [] then None
    else
      var later := LastNamed(ls[1..], name);
      if later.Some? then later else if ls[0].name == name then Some(ls[0]) else None
  }

  lemma {:induction false} LastNamedIs(ls: seq<Line>, name: string)
    ensures LastNamed(ls, name).None? <==> forall i :: 0 <= i < |ls| ==> ls[i].name != name
    ensures forall k :: 0 <= k < |ls| && ls[k].name == name && (forall i :: k < i < |ls| ==> ls[i].name != name)
                        ==> LastNamed(ls, name) == Some(ls[k])
  {
    if ls != [] {
      var rest := ls[1..];
      LastNamedIs(rest, name);
      assert forall i :: 0 <= i < |rest| ==> rest[i] == ls[i + 1];
      forall k | 0 <= k < |ls| && ls[k].name == name && (forall i :: k < i < |ls| ==> ls[i].name != name)
        ensures LastNamed(ls, name) == Some(ls[k])
      {
        assert k > 0 ==> rest[k - 1].name == name;
      }
    }
  }

  /** What a field becomes: its reader's answer for the last line of its name, or what it was. */
  function Latest<X>(ls: seq<Line>, name: string, value: Line -> X, was: X): X {
    match LastNamed(ls, name) case None => was case Some(l) => value(l)
  }

  lemma LatestMore<X>(here: seq<Line>, more: seq<Line>, name: string, value: Line -> X, was: X)
    requires |here| <= 1
    ensures Latest(here + more, name, value, was)
            == Latest(more, name, value, if here != [] && here[0].name == name then value(here[0]) else was)
  {
    if here == [] {
      assert here + more == more;
    } else {
      assert (here + more)[1..] == more && (here + more)[0] == here[0];
    }
  }

  lemma {:induction false} FieldOfRun<T, O, X>(r: Readers<T, O>, s: State<T, O>, lines: seq<string>,
      on: State<T, O> -> bool, col: State<T, O> -> X, name: string, value: Line -> X)
    requires forall t, line :: var out, here := Step(r, t, line), LineWhile(t, line, on);
               !out.Refused? ==>
                 col(out.state) == if here != [] && here[0].name == name then value(here[0]) else col(t)
    ensures !Run(r, s, lines).Refused? ==>
              col(Run(r, s, lines).state) == Latest(LinesWhile(r, s, lines, on), name, value, col(s))
    decreases |lines|
  {
    if lines != [] {
      var here := LineWhile(s, lines[0], on);
      assert |here| <= 1;
      hide Step, LineWhile;
      var out := Step(r, s, lines[0]);
      if out.Next? {
        LatestMore(here, LinesWhile(r, out.state, lines[1..], on), name, value, col(s));
        FieldOfRun(r, out.state, lines[1..], on, col, name, value);
      } else {
        LatestMore(here, [], name, value, col(s));
        assert here + [] == here;
      }
    }
  }

  lemma StepFields<T, O>(r: Readers<T, O>, s: State<T, O>, line: string)
    requires !Step(r, s, line).Refused?
    ensures var t := Step(r, s, line).state;
            var here := LineWhile(s, line, InEvent<T, O>);
            && t.event == (if here == [] then s.event else ReadEvent(r, s.event, here[0]))
            && t.eventSeen == (s.eventSeen || here != [])
    ensures var t := Step(r, s, line).state;
            var here := LineWhile(s, line, InCalendar<T, O>);
            && t.calendarMethod == (if here != [] && here[0].name == "METHOD" then Some(Trim(here[0].value))
                                    else s.calendarMethod)
  {
    hide ReadLine, ReadEvent, Trim, FixedOffset, Closed, UpperAll;
  }

  /** A field of the event that one property fills. */
  lemma EventField<T, O, X>(r: Readers<T, O>, lines: seq<string>, col: Event<T> -> X, name: string, value: Line -> X)
    requires forall e, l :: col(ReadEvent(r, e, l)) == if l.name == name then value(l) else col(e)
    ensures var s0 := Start<T, O>();
            !Run(r, s0, lines).Refused? ==>
              col(Run(r, s0, lines).state.event)
              == Latest(LinesWhile(r, s0, lines, InEvent<T, O>), name, value, col(s0.event))
  {
    hide Run, Step, LineWhile, ReadEvent, Start;
    var all := (s: State<T, O>) => col(s.event);
    forall t, line | !Step<T, O>(r, t, line).Refused?
      ensures var here := LineWhile(t, line, InEvent<T, O>);
              all(Step(r, t, line).state) == if here != [] && here[0].name == name then value(here[0]) else all(t)
    {
      StepFields(r, t, line);
    }
    FieldOfRun(r, Start<T, O>(), lines, InEvent<T, O>, all, name, value);
  }

  /** Each text of the first event is its last line's: the summary unescaped, the place unescaped and trimmed with blank
      meaning none, status and method trimmed. */
  lemma EventTexts<T, O>(r: Readers<T, O>, lines: seq<string>)
    ensures var out, read := Run(r, Start<T, O>(), lines), LinesWhile(r, Start<T, O>(), lines, InEvent<T, O>);
            !out.Refused? ==>
              var e := out.state.event;
              && e.summary == (match LastNamed(read, "SUMMARY")
                               case None => None
                               case Some(l) => Some(Unescape(l.value)))
              && e.location == (match LastNamed(read, "LOCATION")
                                case None => None
                                case Some(l) => if Trim(Unescape(l.value)) == "" then None
                                                else Some(Trim(Unescape(l.value))))
              && e.status == (match LastNamed(read, "STATUS") case None => None case Some(l) => Some(Trim(l.value)))
              && e.method_ == (match LastNamed(read, "METHOD") case None => None case Some(l) => Some(Trim(l.value)))
              && e.organizer == (match LastNamed(read, "ORGANIZER") case None => None case Some(l) => ReadOrganizer(l))
  {
    hide Run, LinesWhile, LastNamed, Trim, Unescape, ReadOrganizer, ReadAttendee, Prefer;
    EventField(r, lines, (e: Event<T>) => e.summary, "SUMMARY", (l: Line) => Some(Unescape(l.value)));
    EventField(r, lines, (e: Event<T>) => e.location, "LOCATION",
               (l: Line) => if Trim(Unescape(l.value)) == "" then None else Some(Trim(Unescape(l.value))));
    EventField(r, lines, (e: Event<T>) => e.status, "STATUS", (l: Line) => Some(Trim(l.value)));
    EventField(r, lines, (e: Event<T>) => e.method_, "METHOD", (l: Line) => Some(Trim(l.value)));
    EventField(r, lines, (e: Event<T>) => e.organizer, "ORGANIZER", ReadOrganizer);
  }

  /** DTSTART gives the start, DTEND the end, and the duration and sequence number are their own lines'. */
  lemma EventTimes<T, O>(r: Readers<T, O>, lines: seq<string>)
    ensures var out, read := Run(r, Start<T, O>(), lines), LinesWhile(r, Start<T, O>(), lines, InEvent<T, O>);
            !out.Refused? ==>
              var e := out.state.event;
              && e.start == (match LastNamed(read, "DTSTART") case None => None case Some(l) => r.time(l))
              && e.end == (match LastNamed(read, "DTEND") case None => None case Some(l) => r.time(l))
              && e.duration == (match LastNamed(read, "DURATION") case None => None case Some(l) => r.duration(l.value))
              && e.sequence == (match LastNamed(read, "SEQUENCE")
                                case None => 0
                                case Some(l) => r.number(Trim(l.value)))
  {
    hide Run, LinesWhile, LastNamed, Trim, Unescape, ReadOrganizer, ReadAttendee, Prefer;
    EventField(r, lines, (e: Event<T>) => e.start, "DTSTART", r.time);
    EventField(r, lines, (e: Event<T>) => e.end, "DTEND", r.time);
    EventField(r, lines, (e: Event<T>) => e.duration, "DURATION", (l: Line) => r.duration(l.value));
    EventField(r, lines, (e: Event<T>) => e.sequence, "SEQUENCE", (l: Line) => r.number(Trim(l.value)));
  }

  /** The calendar's own method is its last METHOD line outside every other component. */
  lemma CalendarMethod<T, O>(r: Readers<T, O>, lines: seq<string>)
    ensures var out, read := Run(r, Start<T, O>(), lines), LinesWhile(r, Start<T, O>(), lines, InCalendar<T, O>);
            !out.Refused? ==>
              out.state.calendarMethod
              == match LastNamed(read, "METHOD") case None => None case Some(l) => Some(Trim(l.value))
  {
    hide Run, LinesWhile, LastNamed, Trim, Step, LineWhile;
    var col := (s: State<T, O>) => s.calendarMethod;
    var value := (l: Line) => Some(Trim(l.value));
    forall t, line | !Step<T, O>(r, t, line).Refused?
      ensures var here := LineWhile(t, line, InCalendar<T, O>);
              col(Step(r, t, line).state) == if here != [] && here[0].name == "METHOD" then value(here[0]) else col(t)
    {
      StepFields(r, t, line);
    }
    FieldOfRun(r, Start<T, O>(), lines, InCalendar<T, O>, col, "METHOD", value);
  }

  // ---- Organizer and attendee ---------------------------------------------------------------------------------------

  /** The first parameter of a name counts. */
  lemma {:induction false} FindParamIs(ps: seq<Param>, name: string, k: nat)
    requires k <= |ps| && (forall i :: 0 <= i < k ==> ps[i].name != name) && (k < |ps| ==> ps[k].name == name)
    ensures FindParam(ps, name) == if k < |ps| then Some(ps[k].value) else None
  {
    if k > 0 { FindParamIs(ps[1..], name, k - 1); }
  }

  /** The address of a value is what stands behind `mailto:` in any case, else all of it, without blanks around it. */
  lemma AddressRead(lead: string, spelled: string, rest: string, other: string)
    requires Blank(lead) && EqIgnoreCase(spelled, "mailto:")
    requires |Trim(other)| < 7 || !EqIgnoreCase(Trim(other)[..7], "mailto:")
    ensures WithoutMailto(lead + (spelled + rest)) == Trim(rest)
    ensures WithoutMailto(other) == Trim(other)
  {
    var a, b := TrimShape(rest);
    var t := Trim(rest);
    hide TrimStart, TrimEnd, Trim;
    var kept := if t == "" then spelled else spelled + (a + t);
    var behind := if t == "" then rest else b;
    assert lead + (spelled + rest) == lead + kept + behind;
    assert Trimmed(kept) && kept[..7] == spelled;
    TrimIs(lead, kept, behind);
    if t == "" {
      assert kept[7..] == "" && "" + "" + "" == "";
      TrimIs("", "", "");
    } else {
      assert kept[7..] == a + t + "";
      TrimIs(a, t, "");
    }
  }

  /** Who is shown: the name of the CN parameter unless blank, with the address behind an organizer's name where they
      differ, else the address, else nobody. `cn` counts the parameters before the first CN, `ps` before PARTSTAT. */
  lemma PersonRead(l: Line, address: string, cn: nat, ps: nat)
    requires WithoutMailto(l.value) == address
    requires cn <= |l.params| && (forall i :: 0 <= i < cn ==> l.params[i].name != "CN")
    requires cn < |l.params| ==> l.params[cn].name == "CN"
    requires ps <= |l.params| && (forall i :: 0 <= i < ps ==> l.params[i].name != "PARTSTAT")
    requires ps < |l.params| ==> l.params[ps].name == "PARTSTAT"
    ensures var stat := if ps < |l.params| then Some(UpperAll(Trim(l.params[ps].value))) else None;
            if cn < |l.params| && Trim(l.params[cn].value) != "" then
              var name := Trim(l.params[cn].value);
              && ReadAttendee(l) == Some(Attendee(name, stat))
              && ReadOrganizer(l)
                 == Some(if address != "" && name != address then name + " <" + address + ">" else name)
            else if address != "" then
              ReadAttendee(l) == Some(Attendee(address, stat)) && ReadOrganizer(l) == Some(address)
            else ReadAttendee(l) == None && ReadOrganizer(l) == None
  {
    FindParamIs(l.params, "CN", cn);
    FindParamIs(l.params, "PARTSTAT", ps);
    hide FindParam, Trim, WithoutMailto, UpperAll;
  }

  // ---- Nested components --------------------------------------------------------------------------------------------

  /** A component and its lines; `begin` and `end` as spelled in the file. */
  datatype Tree = Tree(comp: string, begin: string, items: seq<Item>, end: string)
  datatype Item = Prop(line: string) | Sub(tree: Tree)

  function Flatten(t: Tree): seq<string>
    decreases t, 1
  {
    [t.begin] + (FlattenItems(t.items) + [t.end])
  }

  function LinesOf(item: Item): seq<string>
    decreases item, 0
  {
    if item.Prop? then [item.line] else Flatten(item.tree)
  }

  function FlattenItems(items: seq<Item>): seq<string>
    decreases items, 0
  {
    if items == [] then [] else LinesOf(items[0]) + FlattenItems(items[1..])
  }

  function Depth(t: Tree): nat
    decreases t, 1
  {
    1 + DepthOfItems(t.items)
  }

  function DepthOf(item: Item): nat
    decreases item, 0
  {
    if item.Prop? then 0 else Depth(item.tree)
  }

  function DepthOfItems(items: seq<Item>): nat
    decreases items, 0
  {
    if items == [] then 0
    else if DepthOf(items[0]) > DepthOfItems(items[1..]) then DepthOf(items[0])
    else DepthOfItems(items[1..])
  }

  predicate Marks(line: string, name: string, comp: string) {
    var l := ReadLine(line);
    l.Some? && l.value.name == name && UpperAll(Trim(l.value.value)) == comp
  }

  predicate IsProperty(line: string) {
    var l := ReadLine(line);
    l.Some? ==> l.value.name != "BEGIN" && l.value.name != "END"
  }

  /** Balanced, and naming no component the reader looks at. */
  predicate ForeignTree(t: Tree)
    decreases t, 1
  {
    && t.comp != "VCALENDAR" && t.comp != "VEVENT" && t.comp != "VTIMEZONE"
    && Marks(t.begin, "BEGIN", t.comp) && Marks(t.end, "END", t.comp)
    && ForeignItems(t.items)
  }

  predicate ForeignItems(items: seq<Item>)
    decreases items, 0
  {
    items != [] ==>
      && ForeignItem(items[0])
      && ForeignItems(items[1..])
  }

  predicate ForeignItem(item: Item)
    decreases item, 0
  {
    if item.Prop? then IsProperty(item.line) else ForeignTree(item.tree)
  }

  /** Components inside which nothing of this reader's interest stands. */
  predicate Foreign(stack: seq<string>) {
    && stack != [] && Top(stack) != "VCALENDAR" && Top(stack) != "VEVENT" && Top(stack) != "VTIMEZONE"
    && (|stack| >= 2 ==> stack[|stack| - 2] != "VTIMEZONE")
  }

  lemma ForeignProperty<T, O>(r: Readers<T, O>, s: State<T, O>, line: string)
    requires IsProperty(line) && Foreign(s.stack)
    ensures Step(r, s, line) == Next(s)
  {
    hide ReadLine, Trim, ReadEvent;
  }

  lemma BeginStep<T, O>(r: Readers<T, O>, s: State<T, O>, line: string, comp: string)
    requires Marks(line, "BEGIN", comp)
    ensures Step(r, s, line) == Begin(s, comp)
  {
  }

  lemma EndStep<T, O>(r: Readers<T, O>, s: State<T, O>, line: string, comp: string)
    requires Marks(line, "END", comp)
    ensures Step(r, s, line) == End(s, comp)
  {
  }

  lemma RunOne<T, O>(r: Readers<T, O>, s: State<T, O>, line: string, rest: seq<string>)
    ensures Run(r, s, [line] + rest)
            == if Step(r, s, line).Next? then Run(r, Step(r, s, line).state, rest) else Step(r, s, line)
  {
    hide Step;
    assert ([line] + rest)[1..] == rest;
  }

  /** A foreign component, however nested, leaves the state as it was; beyond the depth limit the file is refused. */
  lemma {:induction false} TreeRun<T, O>(r: Readers<T, O>, s: State<T, O>, t: Tree)
    requires ForeignTree(t) && |s.stack| <= MAX_DEPTH && Top(s.stack) != "VTIMEZONE"
    ensures Run(r, s, Flatten(t)) == if |s.stack| + Depth(t) <= MAX_DEPTH then Next(s) else Refused
    decreases t, 1
  {
    hide Run, Step, Marks;
    var body := FlattenItems(t.items);
    RunOne(r, s, t.begin, body + [t.end]);
    BeginStep(r, s, t.begin, t.comp);
    if |s.stack| < MAX_DEPTH {
      var inner := s.(stack := s.stack + [t.comp]);
      assert Begin(s, t.comp) == Next(inner);
      assert Foreign(inner.stack);
      ItemsRun(r, inner, t.items);
      RunAppend(r, inner, body, [t.end]);
      if |inner.stack| + DepthOfItems(t.items) <= MAX_DEPTH {
        EndStep(r, inner, t.end, t.comp);
        RunSingle(r, inner, t.end);
      }
    }
  }

  lemma RunSingle<T, O>(r: Readers<T, O>, s: State<T, O>, line: string)
    ensures Run(r, s, [line]) == Step(r, s, line)
  {
    hide Step;
    assert [line][1..] == [];
    if Step(r, s, line).Next? {
      assert Run(r, Step(r, s, line).state, []) == Step(r, s, line);
    }
  }

  lemma {:induction false} ItemsRun<T, O>(r: Readers<T, O>, s: State<T, O>, items: seq<Item>)
    requires ForeignItems(items) && |s.stack| <= MAX_DEPTH && Foreign(s.stack)
    ensures Run(r, s, FlattenItems(items)) == if |s.stack| + DepthOfItems(items) <= MAX_DEPTH then Next(s) else Refused
    decreases items, 0
  {
    hide Run, Step, Marks, IsProperty;
    if items == [] {
      RunNone(r, s);
    } else {
      var rest := FlattenItems(items[1..]);
      ItemsRun(r, s, items[1..]);
      ItemRun(r, s, items[0]);
      RunAppend(r, s, LinesOf(items[0]), rest);
    }
  }

  lemma {:induction false} ItemRun<T, O>(r: Readers<T, O>, s: State<T, O>, item: Item)
    requires ForeignItem(item) && |s.stack| <= MAX_DEPTH && Foreign(s.stack)
    ensures Run(r, s, LinesOf(item)) == if |s.stack| + DepthOf(item) <= MAX_DEPTH then Next(s) else Refused
    decreases item, 0
  {
    hide Run, Step, IsProperty;
    if item.Prop? {
      RunSingle(r, s, item.line);
      ForeignProperty(r, s, item.line);
    } else {
      TreeRun(r, s, item.tree);
    }
  }

  lemma RunNone<T, O>(r: Readers<T, O>, s: State<T, O>)
    ensures Run(r, s, []) == Next(s)
  {
  }

  /** A foreign component between two lines of the event changes nothing of the result, unless it nests too deep. */
  lemma NestedComponentsDoNotInterfere<T, O>(r: Readers<T, O>, before: seq<string>, t: Tree, behind: seq<string>)
    requires ForeignTree(t)
    requires Run(r, Start<T, O>(), before).Next? && Top(Run(r, Start<T, O>(), before).state.stack) == "VEVENT"
    ensures var depth := |Run(r, Start<T, O>(), before).state.stack| + Depth(t);
            Run(r, Start<T, O>(), before + Flatten(t) + behind)
            == if depth <= MAX_DEPTH then Run(r, Start<T, O>(), before + behind) else Refused
  {
    hide Run, ForeignTree, Flatten, Depth;
    var s0 := Start<T, O>();
    StackBounded(r, s0, before);
    var s := Run(r, s0, before).state;
    RunAppend(r, s0, before, behind);
    RunAppend(r, s0, before + Flatten(t), behind);
    RunAppend(r, s0, before, Flatten(t));
    TreeRun(r, s, t);
  }

  // ---- Opening and closing ------------------------------------------------------------------------------------------

  /** BEGIN opens a component innermost, and is refused only below 32 open ones. */
  lemma Opens<T, O>(r: Readers<T, O>, s: State<T, O>, line: string, comp: string)
    requires Marks(line, "BEGIN", comp)
    ensures Step(r, s, line).Refused? <==> |s.stack| >= 32
    ensures |s.stack| < 32 ==>
              Step(r, s, line) == Next(State(s.stack + [comp], s.eventSeen, s.eventDone,
                                             if comp == "VTIMEZONE" then Some(Zone(None, [])) else s.zone,
                                             s.zones, s.calendarMethod, s.event))
  {
    BeginStep(r, s, line, comp);
    hide Step;
  }

  lemma {:induction false} ClosedIs(stack: seq<string>, comp: string, n: nat)
    requires n <= |stack| && forall i :: n <= i < |stack| ==> stack[i] != comp
    requires n > 0 ==> stack[n - 1] == comp
    ensures Closed(stack, comp) == if n == 0 then stack else stack[..n - 1]
  {
    CloseSkips(stack, comp, |stack|, n);
  }

  lemma {:induction false} CloseSkips(stack: seq<string>, comp: string, m: nat, n: nat)
    requires n <= m <= |stack| && forall i :: n <= i < m ==> stack[i] != comp
    ensures CloseFrom(stack, comp, m) == CloseFrom(stack, comp, n)
  {
    if m > n { CloseSkips(stack, comp, m - 1, n); }
  }

  /** END closes the innermost component of that name with all inside it, or nothing; `n` counts the components up to
      and with that one. It ends the first event once something was read of it, and only END:VCALENDAR stops. */
  lemma Closes<T, O>(r: Readers<T, O>, s: State<T, O>, line: string, comp: string, n: nat)
    requires Marks(line, "END", comp)
    requires n <= |s.stack| && (forall i :: n <= i < |s.stack| ==> s.stack[i] != comp)
    requires n > 0 ==> s.stack[n - 1] == comp
    ensures !Step(r, s, line).Refused? && (Step(r, s, line).Stop? <==> comp == "VCALENDAR")
    ensures var t := Step(r, s, line).state;
            && t.stack == (if n == 0 then s.stack else s.stack[..n - 1])
            && t.eventDone == (s.eventDone || (comp == "VEVENT" && s.eventSeen))
            && t.eventSeen == s.eventSeen && t.event == s.event && t.calendarMethod == s.calendarMethod
            && (comp != "VTIMEZONE" ==> t.zone == s.zone && t.zones == s.zones)
  {
    EndStep(r, s, line, comp);
    ClosedIs(s.stack, comp, n);
    hide Step, Closed, FixedOffset;
  }

  /** Something was read of the first event exactly if a property stood directly inside it. */
  lemma {:induction false} SeenOfRun<T, O>(r: Readers<T, O>, s: State<T, O>, lines: seq<string>)
    ensures !Run(r, s, lines).Refused? ==>
              Run(r, s, lines).state.eventSeen == (s.eventSeen || LinesWhile(r, s, lines, InEvent<T, O>) != [])
    decreases |lines|
  {
    if lines != [] {
      hide Step, LineWhile;
      var out := Step(r, s, lines[0]);
      if !out.Refused? { StepFields(r, s, lines[0]); }
      if out.Next? { SeenOfRun(r, out.state, lines[1..]); }
    }
  }

  /** From the end of the first event on, whatever follows, what was read of it stays. */
  lemma FirstEventDecides<T, O>(r: Readers<T, O>, first: seq<string>, end: string, more: seq<string>)
    requires Run(r, Start<T, O>(), first).Next? && Top(Run(r, Start<T, O>(), first).state.stack) == "VEVENT"
    requires LinesWhile(r, Start<T, O>(), first, InEvent<T, O>) != [] && Marks(end, "END", "VEVENT")
    ensures var out := Run(r, Start<T, O>(), first + [end] + more);
            !out.Refused? ==> out.state.event == Run(r, Start<T, O>(), first).state.event
  {
    hide Run, Step, LinesWhile, Marks;
    var s0 := Start<T, O>();
    var s := Run(r, s0, first).state;
    SeenOfRun(r, s0, first);
    RunAppend(r, s0, first, [end] + more);
    assert first + [end] + more == first + ([end] + more);
    RunOne(r, s, end, more);
    Closes(r, s, end, "VEVENT", |s.stack|);
    DoneEventStays(r, Step(r, s, end).state, more);
  }

  // ---- Time zones ---------------------------------------------------------------------------------------------------

  predicate InZone<T, O>(s: State<T, O>) {
    Top(s.stack) == "VTIMEZONE"
  }

  /** Inside STANDARD or DAYLIGHT directly inside VTIMEZONE. */
  predicate InRule<T, O>(s: State<T, O>) {
    && (Top(s.stack) == "STANDARD" || Top(s.stack) == "DAYLIGHT")
    && |s.stack| >= 2 && s.stack[|s.stack| - 2] == "VTIMEZONE"
  }

  /** The offsets these lines state, in order. */
  function Offsets<T, O>(r: Readers<T, O>, ls: seq<Line>): seq<Option<O>> {
    if ls == [] then []
    else (if ls[0].name == "TZOFFSETTO" then [r.offset(ls[0].value)] else []) + Offsets(r, ls[1..])
  }

  function Identified(l: Line): Option<string> {
    Some(Trim(l.value))
  }

  predicate NoZoneMark(line: string) {
    !Marks(line, "BEGIN", "VTIMEZONE") && !Marks(line, "END", "VTIMEZONE")
  }

  lemma StepZone<T, O>(r: Readers<T, O>, s: State<T, O>, line: string)
    requires NoZoneMark(line) && s.zone.Some? && !Step(r, s, line).Refused?
    ensures var t := Step(r, s, line).state;
            var id, off := LineWhile(s, line, InZone<T, O>), LineWhile(s, line, InRule<T, O>);
            && t.zones == s.zones && t.zone.Some?
            && t.zone.value.tzid == (if id != [] && id[0].name == "TZID" then Identified(id[0])
                                     else s.zone.value.tzid)
            && t.zone.value.offsets == s.zone.value.offsets + Offsets(r, off)
            && |id| <= 1 && |off| <= 1
  {
    hide ReadLine, ReadEvent, Trim, FixedOffset, Closed, UpperAll;
    var off := LineWhile(s, line, InRule<T, O>);
    if off != [] { assert off[1..] == [] && Offsets(r, off[1..]) == []; }
  }

  lemma OffsetsMore<T, O>(r: Readers<T, O>, here: seq<Line>, more: seq<Line>)
    requires |here| <= 1
    ensures Offsets(r, here + more) == Offsets(r, here) + Offsets(r, more)
  {
    if here == [] {
      assert here + more == more;
    } else {
      assert (here + more)[1..] == more && here[1..] == [];
    }
  }

  /** What is gathered of a zone: the last TZID directly inside it, and the offsets of its rules in order. */
  lemma {:induction false} ZoneOfRun<T, O>(r: Readers<T, O>, s: State<T, O>, lines: seq<string>)
    requires s.zone.Some? && forall i :: 0 <= i < |lines| ==> NoZoneMark(lines[i])
    requires Run(r, s, lines).Next?
    ensures var t := Run(r, s, lines).state;
            && t.zones == s.zones && t.zone.Some?
            && t.zone.value.tzid == Latest(LinesWhile(r, s, lines, InZone<T, O>), "TZID", Identified, s.zone.value.tzid)
            && t.zone.value.offsets == s.zone.value.offsets + Offsets(r, LinesWhile(r, s, lines, InRule<T, O>))
    decreases |lines|
  {
    hide *;
    if lines == [] {
      NothingOfRun(r, s, s.zone.value.tzid, InZone<T, O>);
      NothingOfRun(r, s, s.zone.value.tzid, InRule<T, O>);
    } else {
      var was := s.zone.value.tzid;
      RunMore(r, s, lines, InZone<T, O>);
      RunMore(r, s, lines, InRule<T, O>);
      var next := Step(r, s, lines[0]).state;
      StepZone(r, s, lines[0]);
      ZoneOfRun(r, next, lines[1..]);
      var id, off := LineWhile(s, lines[0], InZone<T, O>), LineWhile(s, lines[0], InRule<T, O>);
      LatestMore(id, LinesWhile(r, next, lines[1..], InZone<T, O>), "TZID", Identified, was);
      OffsetsMore(r, off, LinesWhile(r, next, lines[1..], InRule<T, O>));
    }
  }

  lemma NothingOfRun<T, O>(r: Readers<T, O>, s: State<T, O>, was: Option<string>, on: State<T, O> -> bool)
    ensures Run(r, s, []) == Next(s) && LinesWhile(r, s, [], on) == [] && Offsets(r, []) == []
    ensures Latest([], "TZID", Identified, was) == was
  {
  }

  lemma RunMore<T, O>(r: Readers<T, O>, s: State<T, O>, lines: seq<string>, on: State<T, O> -> bool)
    requires lines != [] && Run(r, s, lines).Next?
    ensures var next := Step(r, s, lines[0]);
            && next.Next? && Run(r, s, lines) == Run(r, next.state, lines[1..])
            && LinesWhile(r, s, lines, on) == LineWhile(s, lines[0], on) + LinesWhile(r, next.state, lines[1..], on)
  {
    hide Step, LineWhile;
  }

  /** A zone definition is kept exactly if it names itself and all its rules state one and the same known offset. */
  lemma ZoneDefined<T, O>(r: Readers<T, O>, s: State<T, O>, begin: string, inside: seq<string>, end: string)
    requires Marks(begin, "BEGIN", "VTIMEZONE") && Marks(end, "END", "VTIMEZONE")
    requires forall i :: 0 <= i < |inside| ==> NoZoneMark(inside[i])
    requires Run(r, s, [begin] + (inside + [end])).Next?
    ensures Step(r, s, begin).Next?
    ensures var open := Step(r, s, begin).state;
            var id := LastNamed(LinesWhile(r, open, inside, InZone<T, O>), "TZID");
            var offsets := Offsets(r, LinesWhile(r, open, inside, InRule<T, O>));
            var t := Run(r, s, [begin] + (inside + [end])).state;
            && t.zone.None?
            && t.zones == if id.Some? && offsets != [] && offsets[0].Some?
                             && (forall i :: 0 <= i < |offsets| ==> offsets[i] == offsets[0])
                          then s.zones[Trim(id.value.value) := offsets[0].value] else s.zones
  {
    hide Run, Step, Marks, LinesWhile, Offsets, NoZoneMark, LastNamed, Trim, Closed;
    RunOne(r, s, begin, inside + [end]);
    Opens(r, s, begin, "VTIMEZONE");
    var open := Step(r, s, begin).state;
    RunAppend(r, open, inside, [end]);
    var full := Run(r, open, inside).state;
    ZoneOfRun(r, open, inside);
    RunSingle(r, full, end);
    EndStep(r, full, end, "VTIMEZONE");
    var offsets := Offsets(r, LinesWhile(r, open, inside, InRule<T, O>));
    assert [] + offsets == offsets && full.zone == Some(Zone(full.zone.value.tzid, offsets));
  }

  // ---- From the file ------------------------------------------------------------------------------------------------

  /** Largest text parsed, in bytes. */
  const MAX_ICS_BYTES := 1024 * 1024

  function ReadFile<T, O(==)>(r: Readers<T, O>, data: string): Outcome<T, O> {
    if Utf8Len(data) > MAX_ICS_BYTES then Refused else Run(r, Start(), Lines(Unfold(data)))
  }

  /** `parse` up to the resolving and formatting of times. */
  method ReadIcs<T, O(==)>(r: Readers<T, O>, data: string) returns (result: Outcome<T, O>)
    ensures result == ReadFile(r, data)
    ensures result == if Utf8Len(data) > 0x10_0000 then Refused else Run(r, Start(), Lines(Unfold(data)))
  {
    if Utf8Len(data) > MAX_ICS_BYTES {
      return Refused;
    }
    var unfolded := UnfoldLines(data);
    result := ReadCalendar(r, Lines(unfolded));
  }

  /** How a file within the size limit is folded does not matter: its logical lines are what is read. */
  lemma FoldingDoesNotMatter<T, O>(r: Readers<T, O>, lines: seq<Folded>)
    requires ValidFold(lines) && Utf8Len(PrintFolded(lines)) <= MAX_ICS_BYTES
    ensures ReadFile(r, PrintFolded(lines)) == Run(r, Start<T, O>(), Texts(lines))
  {
    hide Run, Unfold, Lines;
    UnfoldUndoesFolding(lines);
    LinesOfLogical(lines);
  }
}
