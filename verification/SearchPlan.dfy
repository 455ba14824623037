/** The row condition a search runs: the index with its NOTs, or the filters with the exclusions dropped. */
module SearchPlan {
  import opened Text
  import opened Query
  import opened Fts
  import opened QueryText

  datatype Plan =
    | Nothing                                   // "[]" without asking the database
    | ByIndex(query: string)                    // messages_fts match query
    | ByFilters(exclusions: Option<string>)     // exclusions is null, or the row is not in their matches

  /** `is_searchable` */
  predicate IsSearchable(q: Parsed) {
    (exists t :: t in q.terms && !t.negated) || q.filters != NO_FILTERS
  }

  /** The choice at the start of `search_json`. */
  function ChoosePlan(q: Parsed): Plan {
    match FtsQuery(q.terms)
    case Some(query) => ByIndex(query)
    case None => if q.filters == NO_FILTERS then Nothing else ByFilters(FtsExclusions(q.terms))
  }

  /** A message row: `holds` says which phrases its indexed text matches, `inScope` the account, folder and move
      conditions. */
  datatype Message = Message(isRead: bool, isStarred: bool, hasAttachments: bool, date: Option<string>,
                             inScope: bool, holds: Atom -> bool)

  /** SQL text comparison `a < b`. */
  predicate Below(a: string, b: string) {
    if b == [] then false
    else if a == [] then true
    else a[0] < b[0] || (a[0] == b[0] && Below(a[1..], b[1..]))
  }

  /** `?n is null or column = ?n` */
  predicate FlagClause(param: Option<bool>, column: bool) {
    param.None? || column == param.value
  }

  /** The filter clauses with the parameters bound as the statement binds them; a null date passes no date bound. */
  predicate FilterClauses(f: Filters, m: Message) {
    && FlagClause(if f.unread.Some? then Some(!f.unread.value) else None, m.isRead)
    && FlagClause(f.starred, m.isStarred)
    && FlagClause(f.hasAttachments, m.hasAttachments)
    && (f.after.None? || (m.date.Some? && !Below(m.date.value, f.after.value)))
    && (f.before.None? || (m.date.Some? && Below(m.date.value, f.before.value)))
  }

  /** Whether the index lists `m` for a MATCH expression. */
  predicate Indexed(query: string, m: Message) {
    ParseExpr(query).Some? && Eval(ParseExpr(query).value, m.holds)
  }

  predicate RowPasses(plan: Plan, f: Filters, m: Message) {
    && m.inScope
    && FilterClauses(f, m)
    && match plan
       case Nothing => false
       case ByIndex(query) => Indexed(query, m)
       case ByFilters(exclusions) => exclusions.None? || !Indexed(exclusions.value, m)
  }

  /** No statement the plan runs is a syntax error. */
  predicate Runs(plan: Plan) {
    match plan
    case Nothing => true
    case ByIndex(query) => ParseExpr(query).Some?
    case ByFilters(exclusions) => exclusions.None? || ParseExpr(exclusions.value).Some?
  }

  /** What the user asked for. */
  ghost predicate Wanted(q: Parsed, m: Message) {
    && m.inScope
    && IsSearchable(q)
    && (forall t :: t in q.terms && !t.negated ==> Holds(t, m.holds))
    && (forall t :: t in q.terms && t.negated ==> !Holds(t, m.holds))
    && (q.filters.unread == Some(true) ==> !m.isRead)
    && (q.filters.unread == Some(false) ==> m.isRead)
    && (q.filters.starred.Some? ==> m.isStarred == q.filters.starred.value)
    && (q.filters.hasAttachments.Some? ==> m.hasAttachments == q.filters.hasAttachments.value)
    && (q.filters.after.Some? ==> m.date.Some? && !Below(m.date.value, q.filters.after.value))
    && (q.filters.before.Some? ==> m.date.Some? && Below(m.date.value, q.filters.before.value))
  }

  /** For every query: the plan runs, is empty exactly when nothing is searchable, and finds exactly what is wanted. */
  lemma PlanMeaning(q: Parsed, m: Message)
    ensures Runs(ChoosePlan(q))
    ensures ChoosePlan(q) == Nothing <==> !IsSearchable(q)
    ensures RowPasses(ChoosePlan(q), q.filters, m) <==> Wanted(q, m)
  {
    QueryMeaning(q.terms, m.holds);
    ExclusionsMeaning(q.terms, m.holds);
    hide FtsQuery, FtsExclusions, ParseExpr, Eval, Below, Holds;
  }

  /** What is found, by the query's own terms and filters: nothing without a plain term or a filter, else exactly the
      rows in scope that hold the plain terms and not the excluded ones and pass every filter. */
  lemma PlanFinds(q: Parsed, m: Message)
    ensures var f := q.filters;
            if (exists t :: t in q.terms && !t.negated) || f.unread.Some? || f.starred.Some? || f.hasAttachments.Some?
               || f.after.Some? || f.before.Some?
            then
              RowPasses(ChoosePlan(q), f, m)
              <==> && m.inScope && (forall t :: t in q.terms ==> Holds(t, m.holds) == !t.negated)
                   && (f.unread.Some? ==> m.isRead == !f.unread.value)
                   && (f.starred.Some? ==> m.isStarred == f.starred.value)
                   && (f.hasAttachments.Some? ==> m.hasAttachments == f.hasAttachments.value)
                   && (f.after.Some? ==> m.date.Some? && !Below(m.date.value, f.after.value))
                   && (f.before.Some? ==> m.date.Some? && Below(m.date.value, f.before.value))
            else ChoosePlan(q) == Nothing && !RowPasses(ChoosePlan(q), f, m)
  {
    hide ChoosePlan, RowPasses, Below, Holds;
    PlanMeaning(q, m);
  }

  /** The same from the typed text on, whatever it is. */
  lemma SearchMeaning(env: Env, raw: string, m: Message)
    ensures var q := ParseQuery(env, raw);
            && Runs(ChoosePlan(q))
            && (ChoosePlan(q) == Nothing <==> !IsSearchable(q))
            && (RowPasses(ChoosePlan(q), q.filters, m) <==> Wanted(q, m))
            && forall t :: t in q.terms ==> NoQuoteOrStar(t.text) && HasAlnum(env, t.text)
  {
    hide ChoosePlan, RowPasses, Wanted, Runs;
    PlanMeaning(ParseQuery(env, raw), m);
    TermsWellFormed(env, raw);
    hide ParseQuery;
  }

  // ---- What a filter token does to the rows --------------------------------------------------------

  /** Text order: at the first difference the smaller character, or the end, comes first. */
  lemma {:induction false} BelowAt(a: string, b: string, k: nat)
    requires k <= |a| && k <= |b| && a[..k] == b[..k]
    ensures k < |b| && (k == |a| || a[k] < b[k]) ==> Below(a, b) && !Below(b, a)
    ensures k == |a| == |b| ==> !Below(a, b)
  {
    if k > 0 {
      assert a[0] == a[..k][0] && b[0] == b[..k][0];
      assert a[1..][..k - 1] == a[..k][1..] && b[1..][..k - 1] == b[..k][1..];
      BelowAt(a[1..], b[1..], k - 1);
    }
  }

  /** In a listed row every term's text is, or for an excluded term is not, in the columns of its field. */
  lemma TermSearch(q: Parsed, t: Term, m: Message)
    requires t in q.terms && RowPasses(ChoosePlan(q), q.filters, m)
    ensures m.holds(Atom(match t.field
                         case AnyField => []
                         case FromField => ["from_addr", "from_name"]
                         case ToField => ["to_addrs", "cc_addrs", "bcc_addrs"]
                         case SubjectField => ["subject"],
                         t.text, !t.phrase)) == !t.negated
  {
    hide RowPasses, ChoosePlan;
    PlanMeaning(q, m);
    assert Holds(t, m.holds) == !t.negated;
  }

  /** Behind its last read-state token a typed query lists no mail in the other state. */
  lemma ReadStateSearch(env: Env, lead: string, ts: seq<Spaced>, k: nat, unread: bool, m: Message)
    requires Blank(lead) && AllValid(env, ts) && k < |ts| && SaysRead(ts[k].token, unread)
    requires forall j :: k < j < |ts| ==> !SaysRead(ts[j].token, true) && !SaysRead(ts[j].token, false)
    ensures var q := ParseQuery(env, lead + PrintAll(ts));
            RowPasses(ChoosePlan(q), q.filters, m) ==> m.isRead == (unread == ts[k].token.negated)
  {
    LastReadState(env, lead, ts, k, unread);
    hide ParseQuery, ChoosePlan, PrintAll, AllValid, SaysRead, Indexed, Below, Blank;
  }

  lemma StarSearch(env: Env, lead: string, ts: seq<Spaced>, k: nat, starred: bool, m: Message)
    requires Blank(lead) && AllValid(env, ts) && k < |ts| && SaysStar(ts[k].token, starred)
    requires forall j :: k < j < |ts| ==> !SaysStar(ts[j].token, true) && !SaysStar(ts[j].token, false)
    ensures var q := ParseQuery(env, lead + PrintAll(ts));
            RowPasses(ChoosePlan(q), q.filters, m) ==> m.isStarred == (starred != ts[k].token.negated)
  {
    LastStar(env, lead, ts, k, starred);
    hide ParseQuery, ChoosePlan, PrintAll, AllValid, SaysStar, Indexed, Below, Blank;
  }

  lemma AttachmentSearch(env: Env, lead: string, ts: seq<Spaced>, k: nat, m: Message)
    requires Blank(lead) && AllValid(env, ts) && k < |ts| && SaysAttachment(ts[k].token)
    requires forall j :: k < j < |ts| ==> !SaysAttachment(ts[j].token)
    ensures var q := ParseQuery(env, lead + PrintAll(ts));
            RowPasses(ChoosePlan(q), q.filters, m) ==> m.hasAttachments == !ts[k].token.negated
  {
    LastAttachment(env, lead, ts, k);
    hide ParseQuery, ChoosePlan, PrintAll, AllValid, SaysAttachment, Indexed, Below, Blank;
  }

  /** The first day of `after:` is in, the day of `before:` is out, and mail without a date is listed under neither. */
  lemma DaySearch(env: Env, lead: string, ts: seq<Spaced>, k: nat, before: bool, m: Message)
    requires Blank(lead) && AllValid(env, ts) && k < |ts| && SaysDay(ts[k].token, before)
    requires forall j :: k < j < |ts| ==> !SaysDay(ts[j].token, before)
    ensures var q, day := ParseQuery(env, lead + PrintAll(ts)), env.day(ts[k].token.val);
            RowPasses(ChoosePlan(q), q.filters, m) ==>
              && m.date.Some? && day.Some?
              && (if before then Below(m.date.value, day.value) else !Below(m.date.value, day.value))
  {
    LastDay(env, lead, ts, k, before);
    hide ParseQuery, ChoosePlan, PrintAll, AllValid, SaysDay, Indexed, Below, Blank;
  }
}
