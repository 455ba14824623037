/** Folding one account's folders into the painted sidebar rows. */
module Sidebar {
  import opened Text
  import opened FolderPaths

  datatype Role = Inbox | Sent | Drafts | Trash | Junk | Archive | Custom

  datatype Folder = Folder(id: int, path: string, delimiter: string, role: Role, subscribed: bool)
  datatype Counts = Counts(total: nat, unread: nat)
  datatype SidebarRow = SidebarRow(id: int, collapsible: bool, expanded: bool, unread: nat, total: nat)

  /** Ids are primary keys and a path is unique in its account. */
  ghost predicate Keyed(list: seq<Folder>) {
    forall i, j :: 0 <= i < j < |list| ==> list[i].id != list[j].id && list[i].path != list[j].path
  }

  function Subscribed(list: seq<Folder>): seq<Folder> {
    if list == [] then []
    else (if list[0].subscribed then [list[0]] else []) + Subscribed(list[1..])
  }

  lemma {:induction false} SubscribedAre(list: seq<Folder>)
    ensures forall f :: f in Subscribed(list) <==> f in list && f.subscribed
  {
    if list != [] { SubscribedAre(list[1..]); }
  }

  lemma {:induction false} SubscribedKeyed(list: seq<Folder>)
    requires Keyed(list)
    ensures Keyed(Subscribed(list))
  {
    if list != [] {
      SubscribedAre(list[1..]);
      SubscribedKeyed(list[1..]);
      assert forall f :: f in list[1..] ==> f.id != list[0].id && f.path != list[0].path;
    }
  }

  function ById(list: seq<Folder>, id: int): (r: Option<Folder>)
    ensures r.Some? ==> r.value in list && r.value.id == id
    ensures r.None? ==> forall f :: f in list ==> f.id != id
  {
    if list == [] then None else if list[0].id == id then Some(list[0]) else ById(list[1..], id)
  }

  function ByPath(list: seq<Folder>, path: string): (r: Option<Folder>)
    ensures r.Some? ==> r.value in list && r.value.path == path
    ensures r.None? ==> forall f :: f in list ==> f.path != path
  {
    if list == [] then None else if list[0].path == path then Some(list[0]) else ByPath(list[1..], path)
  }

  lemma ByIdIs(list: seq<Folder>, f: Folder)
    requires Keyed(list) && f in list
    ensures ById(list, f.id) == Some(f)
  {
  }

  /** The listed parent of `f`, if its parent path is listed. It is strictly shorter, so walking up ends. */
  function Parent(list: seq<Folder>, f: Folder): (r: Option<Folder>)
    ensures r.Some? ==> r.value in list && |r.value.path| < |f.path|
    ensures r.Some? ==> ParentPath(f.path, f.delimiter) == Some(r.value.path)
  {
    ParentShape(f.path, f.delimiter);
    match ParentPath(f.path, f.delimiter)
    case None => None
    case Some(p) => ByPath(list, p)
  }

  lemma {:induction false} ByPathIs(list: seq<Folder>, f: Folder)
    requires Keyed(list) && f in list
    ensures ByPath(list, f.path) == Some(f)
  {
  }

  /** Among listed folders the parent is the one whose path is the parent path. */
  lemma ParentIs(list: seq<Folder>, f: Folder, g: Folder)
    requires Keyed(list) && g in list
    ensures Parent(list, f) == Some(g) <==> ParentPath(f.path, f.delimiter) == Some(g.path)
    ensures ParentPath(f.path, f.delimiter) == Some(g.path)
            ==> FolderDepth(g.path, f.delimiter) == FolderDepth(f.path, f.delimiter) - 1
  {
    hide ParentPath, FolderDepth;
    ParentShape(f.path, f.delimiter);
    ByPathIs(list, g);
  }

  /** `folder_always_visible`: known roles, and direct children of the inbox. */
  predicate AlwaysVisible(list: seq<Folder>, f: Folder) {
    f.role != Custom || (Parent(list, f).Some? && Parent(list, f).value.role == Inbox)
  }

  /** Shown while every ancestor up to the nearest always-visible one is expanded. */
  predicate Shown(list: seq<Folder>, expanded: set<int>, f: Folder)
    decreases |f.path|
  {
    || FolderDepth(f.path, f.delimiter) == 0
    || AlwaysVisible(list, f)
    || Parent(list, f).None?
    || (Parent(list, f).value.id in expanded && Shown(list, expanded, Parent(list, f).value))
  }

  /** `f` is the folder `row` or lies below it. */
  predicate Under(list: seq<Folder>, row: int, f: Folder)
    decreases |f.path|
  {
    f.id == row || (Parent(list, f).Some? && Under(list, row, Parent(list, f).value))
  }

  predicate FoldsInto(list: seq<Folder>, f: Folder, d: Folder) {
    Parent(list, d) == Some(f) && !AlwaysVisible(list, d)
  }

  /** The toggle hides something: a direct child that folds away. */
  predicate Collapsible(list: seq<Folder>, f: Folder) {
    exists d :: d in list && FoldsInto(list, f, d)
  }

  /** A painted row that carries what is hidden below it. */
  predicate CollapsedRow(list: seq<Folder>, expanded: set<int>, f: Folder) {
    Shown(list, expanded, f) && Collapsible(list, f) && f.id !in expanded
  }

  predicate Carries(list: seq<Folder>, expanded: set<int>, row: Folder, d: Folder) {
    CollapsedRow(list, expanded, row) && !Shown(list, expanded, d) && Under(list, row.id, d)
  }

  function CountOf(counts: map<int, Counts>, f: Folder): Counts {
    if f.id in counts then counts[f.id] else Counts(0, 0)
  }

  function TotalOf(counts: map<int, Counts>): Folder -> nat {
    (f: Folder) => CountOf(counts, f).total
  }

  /** `folder_unread`: Trash never carries an unread pill. */
  function UnreadOf(counts: map<int, Counts>): Folder -> nat {
    (f: Folder) => if f.role == Trash then 0 else CountOf(counts, f).unread
  }

  function Sum(list: seq<Folder>, weight: Folder -> nat): nat {
    if list == [] then 0 else weight(list[0]) + Sum(list[1..], weight)
  }

  /** What of `weight` the row of `f` carries for the folders in `below`. */
  function Carried(list: seq<Folder>, expanded: set<int>, f: Folder, below: seq<Folder>, weight: Folder -> nat): nat {
    if below == [] then 0
    else (if Carries(list, expanded, f, below[0]) then weight(below[0]) else 0)
         + Carried(list, expanded, f, below[1..], weight)
  }

  function RowOf(list: seq<Folder>, expanded: set<int>, counts: map<int, Counts>, f: Folder): SidebarRow {
    SidebarRow(f.id, Collapsible(list, f), f.id in expanded,
               UnreadOf(counts)(f) + Carried(list, expanded, f, list, UnreadOf(counts)),
               TotalOf(counts)(f) + Carried(list, expanded, f, list, TotalOf(counts)))
  }

  function RowsOf(list: seq<Folder>, expanded: set<int>, counts: map<int, Counts>, fs: seq<Folder>): seq<SidebarRow> {
    if fs == [] then []
    else (if Shown(list, expanded, fs[0]) then [RowOf(list, expanded, counts, fs[0])] else [])
         + RowsOf(list, expanded, counts, fs[1..])
  }

  // ---- The loops ---------------------------------------------------------------------------------

  method ParentOf(list: seq<Folder>, id: int) returns (r: Option<int>)
    ensures r == match ById(list, id)
                 case None => None
                 case Some(f) => if Parent(list, f).Some? then Some(Parent(list, f).value.id) else None
  {
    var f := ById(list, id);
    if f.None? { return None; }
    var p := Parent(list, f.value);
    r := if p.Some? then Some(p.value.id) else None;
  }

  /** The upward walk `is_shown`, with its reassigned `id`. */
  method IsShown(list: seq<Folder>, expanded: set<int>, start: int) returns (r: bool)
    requires Keyed(list)
    ensures r == (ById(list, start).None? || Shown(list, expanded, ById(list, start).value))
  {
    var id := start;
    while true
      invariant ById(list, id).None? ==> ById(list, start).None?
      invariant ById(list, id).Some? && ById(list, start).Some? ==>
                  Shown(list, expanded, ById(list, id).value) == Shown(list, expanded, ById(list, start).value)
      invariant ById(list, id).Some? ==> ById(list, start).Some?
      decreases if ById(list, id).Some? then |ById(list, id).value.path| else 0
    {
      var f := ById(list, id);
      if f.None? || FolderDepth(f.value.path, f.value.delimiter) == 0 || AlwaysVisible(list, f.value) {
        return true;
      }
      var p := ParentOf(list, id);
      if p.None? {
        return true;
      }
      ByIdIs(list, Parent(list, f.value).value);
      if p.value !in expanded {
        return false;
      }
      id := p.value;
    }
  }

  /** The upward walk `is_under`. */
  method IsUnder(list: seq<Folder>, row: int, start: Folder) returns (r: bool)
    requires Keyed(list) && start in list
    ensures r == Under(list, row, start)
  {
    var id := start.id;
    ghost var f := start;
    ByIdIs(list, f);
    while true
      invariant f in list && f.id == id && ById(list, id) == Some(f)
      invariant Under(list, row, f) == Under(list, row, start)
      decreases |f.path|
    {
      if id == row {
        return true;
      }
      var p := ParentOf(list, id);
      if p.None? {
        return false;
      }
      f := Parent(list, f).value;
      ByIdIs(list, f);
      id := p.value;
    }
  }

  /** `sidebar_rows`: feed order kept, hidden rows omitted, collapsed rows with their hidden folders' counts. */
  method SidebarRows(all: seq<Folder>, expanded: set<int>, counts: map<int, Counts>) returns (rows: seq<SidebarRow>)
    requires Keyed(all)
    ensures rows == RowsOf(Subscribed(all), expanded, counts, Subscribed(all))
  {
    hide RowsOf, RowOf, Shown, Subscribed;
    var list := Subscribed(all);
    SubscribedKeyed(all);
    rows := [];
    var i := 0;
    assert list[0..] == list;
    while i < |list|
      invariant i <= |list|
      invariant rows + RowsOf(list, expanded, counts, list[i..]) == RowsOf(list, expanded, counts, list)
    {
      var f := list[i];
      ByIdIs(list, f);
      RowsStep(list, expanded, counts, list, i);
      var shown := IsShown(list, expanded, f.id);
      if shown {
        var row := PaintRow(list, expanded, counts, f);
        rows := rows + [row];
      }
      i := i + 1;
    }
    NoRows(list, expanded, counts);
    assert list[i..] == [];
  }

  lemma NoRows(list: seq<Folder>, expanded: set<int>, counts: map<int, Counts>)
    ensures RowsOf(list, expanded, counts, []) == []
  {
  }

  lemma RowsStep(list: seq<Folder>, expanded: set<int>, counts: map<int, Counts>, fs: seq<Folder>, i: nat)
    requires i < |fs|
    ensures RowsOf(list, expanded, counts, fs[i..])
            == (if Shown(list, expanded, fs[i]) then [RowOf(list, expanded, counts, fs[i])] else [])
               + RowsOf(list, expanded, counts, fs[i + 1..])
  {
    hide Shown, RowOf;
    assert fs[i..][1..] == fs[i + 1..];
  }

  lemma CarriedStep(list: seq<Folder>, expanded: set<int>, f: Folder, j: nat, weight: Folder -> nat)
    requires j < |list|
    ensures Carried(list, expanded, f, list[j..], weight)
            == (if Carries(list, expanded, f, list[j]) then weight(list[j]) else 0)
                + Carried(list, expanded, f, list[j + 1..], weight)
  {
    hide Carries;
    assert list[j..][1..] == list[j + 1..];
  }

  lemma CarriedNone(list: seq<Folder>, expanded: set<int>, f: Folder, weight: Folder -> nat)
    ensures Carried(list, expanded, f, [], weight) == 0
  {
  }

  method PaintRow(list: seq<Folder>, expanded: set<int>, counts: map<int, Counts>, f: Folder) returns (row: SidebarRow)
    requires Keyed(list) && f in list && Shown(list, expanded, f)
    ensures row == RowOf(list, expanded, counts, f)
  {
    hide Carried, Shown, Under, Keyed, ById, UnreadOf, TotalOf;
    var collapsible := Collapsible(list, f);
    var open := f.id in expanded;
    hide Collapsible;
    var unread := UnreadOf(counts)(f);
    var total := TotalOf(counts)(f);
    if collapsible && !open {
      var j := 0;
      assert list[0..] == list;
      while j < |list|
        invariant j <= |list|
        invariant unread + Carried(list, expanded, f, list[j..], UnreadOf(counts))
                == RowOf(list, expanded, counts, f).unread
        invariant total + Carried(list, expanded, f, list[j..], TotalOf(counts))
                == RowOf(list, expanded, counts, f).total
      {
        var d := list[j];
        ByIdIs(list, d);
        ByIdIs(list, f);
        CarriedStep(list, expanded, f, j, UnreadOf(counts));
        CarriedStep(list, expanded, f, j, TotalOf(counts));
        if d.id != f.id {
          var shown := IsShown(list, expanded, d.id);
          var under := IsUnder(list, f.id, d);
          if !shown && under {
            unread := unread + UnreadOf(counts)(d);
            total := total + TotalOf(counts)(d);
          }
        }
        j := j + 1;
      }
      CarriedNone(list, expanded, f, UnreadOf(counts));
      CarriedNone(list, expanded, f, TotalOf(counts));
      assert list[j..] == [];
    } else {
      CarriesNothing(list, expanded, f, list, UnreadOf(counts));
      CarriesNothing(list, expanded, f, list, TotalOf(counts));
    }
    row := SidebarRow(f.id, collapsible, open, unread, total);
  }

  lemma {:induction false} CarriesNothing(list: seq<Folder>, expanded: set<int>, f: Folder, below: seq<Folder>,
      weight: Folder -> nat)
    requires !CollapsedRow(list, expanded, f)
    ensures Carried(list, expanded, f, below, weight) == 0
  {
    hide CollapsedRow;
    if below != [] {
      CarriesNothing(list, expanded, f, below[1..], weight);
    }
  }

  // ---- What the fold promises ----------------------------------------------------------------------

  /** Expanding more folders never hides a shown row. */
  lemma {:induction false} ExpandingKeepsShown(list: seq<Folder>, expanded: set<int>, more: set<int>, f: Folder)
    requires expanded <= more && Shown(list, expanded, f)
    ensures Shown(list, more, f)
    decreases |f.path|
  {
    if Parent(list, f).Some? && Shown(list, expanded, Parent(list, f).value) {
      ExpandingKeepsShown(list, expanded, more, Parent(list, f).value);
    }
  }

  /** An inbox never gets a chevron: all its direct children stay visible. */
  lemma InboxNotCollapsible(list: seq<Folder>, f: Folder)
    requires f.role == Inbox
    ensures !Collapsible(list, f)
  {
  }

  /** Coverage: a hidden folder's counts are on the row of its nearest shown ancestor. */
  lemma {:induction false} HiddenIsCarried(list: seq<Folder>, expanded: set<int>, d: Folder) returns (row: Folder)
    requires Keyed(list) && d in list && !Shown(list, expanded, d)
    ensures row in list && row.id != d.id && Carries(list, expanded, row, d)
    ensures forall g :: g in list && g.id != row.id && Under(list, g.id, d) && Under(list, row.id, g)
                        ==> !Shown(list, expanded, g)
    decreases |d.path|
  {
    ParentShape(d.path, d.delimiter);
    var p := Parent(list, d).value;
    if Shown(list, expanded, p) {
      row := p;
      assert FoldsInto(list, p, d);
      forall g | g in list && g.id != p.id && Under(list, g.id, d) && Under(list, p.id, g)
        ensures !Shown(list, expanded, g)
      {
        if g.id == d.id {
          ByIdIs(list, g);
          ByIdIs(list, d);
        } else {
          UnderShorter(list, g, p);
          UnderShorter(list, p, g);
          assert false;
        }
      }
    } else {
      row := HiddenIsCarried(list, expanded, p);
      forall g | g in list && g.id != row.id && Under(list, g.id, d) && Under(list, row.id, g)
        ensures !Shown(list, expanded, g)
      {
        if g.id == d.id {
          ByIdIs(list, g);
          ByIdIs(list, d);
        }
      }
    }
  }

  /** Being below a folder makes a path no shorter, and equal only when it is the folder itself. */
  lemma {:induction false} UnderShorter(list: seq<Folder>, row: Folder, f: Folder)
    requires Keyed(list) && row in list && f in list && Under(list, row.id, f)
    ensures |row.path| <= |f.path|
    ensures row.id != f.id ==> |row.path| < |f.path|
    decreases |f.path|
  {
    if f.id == row.id {
      ByIdIs(list, f);
      ByIdIs(list, row);
    } else {
      UnderShorter(list, row, Parent(list, f).value);
    }
  }

  // ---- Conservation --------------------------------------------------------------------------------

  function SumRows(rows: seq<SidebarRow>, column: SidebarRow -> nat): nat {
    if rows == [] then 0 else column(rows[0]) + SumRows(rows[1..], column)
  }

  /** What all painted rows together show of `weight`. */
  ghost function PaintedSum(list: seq<Folder>, expanded: set<int>, fs: seq<Folder>, weight: Folder -> nat): nat {
    if fs == [] then 0
    else (if Shown(list, expanded, fs[0]) then weight(fs[0]) + Carried(list, expanded, fs[0], list, weight) else 0)
         + PaintedSum(list, expanded, fs[1..], weight)
  }

  lemma {:induction false} RowsShowPaintedSum(list: seq<Folder>, expanded: set<int>, counts: map<int, Counts>,
      fs: seq<Folder>)
    ensures SumRows(RowsOf(list, expanded, counts, fs), (r: SidebarRow) => r.total)
            == PaintedSum(list, expanded, fs, TotalOf(counts))
    ensures SumRows(RowsOf(list, expanded, counts, fs), (r: SidebarRow) => r.unread)
            == PaintedSum(list, expanded, fs, UnreadOf(counts))
  {
    hide Shown, Carried, Collapsible, TotalOf, UnreadOf;
    if fs != [] {
      var rest := RowsOf(list, expanded, counts, fs[1..]);
      RowsShowPaintedSum(list, expanded, counts, fs[1..]);
      if Shown(list, expanded, fs[0]) {
        assert ([RowOf(list, expanded, counts, fs[0])] + rest)[1..] == rest;
      } else {
        assert [] + rest == rest;
      }
    }
  }

  /** How many of the rows `fs` carry the hidden folder `d`. */
  ghost function Carriers(list: seq<Folder>, expanded: set<int>, fs: seq<Folder>, d: Folder): nat {
    if fs == [] then 0
    else (if Carries(list, expanded, fs[0], d) then 1 else 0) + Carriers(list, expanded, fs[1..], d)
  }

  /** How often the folders `ds` are painted in all: once when shown, and once per carrier. */
  ghost function Times(list: seq<Folder>, expanded: set<int>, fs: seq<Folder>, ds: seq<Folder>,
      weight: Folder -> nat): nat {
    if ds == [] then 0
    else Carriers(list, expanded, fs, ds[0]) * weight(ds[0]) + Times(list, expanded, fs, ds[1..], weight)
  }

  ghost function ShownSum(list: seq<Folder>, expanded: set<int>, fs: seq<Folder>, weight: Folder -> nat): nat {
    if fs == [] then 0
    else (if Shown(list, expanded, fs[0]) then weight(fs[0]) else 0) + ShownSum(list, expanded, fs[1..], weight)
  }

  lemma {:induction false} TimesOfNoRows(list: seq<Folder>, expanded: set<int>, ds: seq<Folder>, weight: Folder -> nat)
    ensures Times(list, expanded, [], ds, weight) == 0
  {
    if ds != [] {
      TimesOfNoRows(list, expanded, ds[1..], weight);
    }
  }

  lemma {:induction false} TimesOfRow(list: seq<Folder>, expanded: set<int>, fs: seq<Folder>, ds: seq<Folder>,
      weight: Folder -> nat)
    requires fs != []
    ensures Times(list, expanded, fs, ds, weight)
            == Carried(list, expanded, fs[0], ds, weight) + Times(list, expanded, fs[1..], ds, weight)
  {
    hide Carries;
    if ds != [] {
      TimesOfRow(list, expanded, fs, ds[1..], weight);
      var n, w := Carriers(list, expanded, fs[1..], ds[0]), weight(ds[0]);
      assert (1 + n) * w == w + n * w;
    }
  }

  /** Summing row by row or folder by folder is the same. */
  lemma {:induction false} SumsExchange(list: seq<Folder>, expanded: set<int>, fs: seq<Folder>, weight: Folder -> nat)
    ensures PaintedSum(list, expanded, fs, weight)
            == ShownSum(list, expanded, fs, weight) + Times(list, expanded, fs, list, weight)
  {
    hide Shown, Carries, Collapsible;
    if fs == [] {
      TimesOfNoRows(list, expanded, list, weight);
    } else {
      SumsExchange(list, expanded, fs[1..], weight);
      TimesOfRow(list, expanded, fs, list, weight);
      if !Shown(list, expanded, fs[0]) {
        CarriesNothing(list, expanded, fs[0], list, weight);
      }
    }
  }

  /** Two rows at once carry `d`. */
  ghost predicate DoublyCarried(list: seq<Folder>, expanded: set<int>, d: Folder) {
    exists r, q :: r in list && q in list && r.id != q.id && Carries(list, expanded, r, d)
        && Carries(list, expanded, q, d)
  }

  lemma {:induction false} CarriersCount(list: seq<Folder>, expanded: set<int>, fs: seq<Folder>, d: Folder)
    requires Keyed(fs)
    ensures Carriers(list, expanded, fs, d) == 0 <==> forall r :: r in fs ==> !Carries(list, expanded, r, d)
    ensures Carriers(list, expanded, fs, d) >= 2 <==>
            exists r, q :: r in fs && q in fs && r.id != q.id && Carries(list, expanded, r, d)
                && Carries(list, expanded, q, d)
  {
    hide Carries;
    if fs != [] {
      var rest := fs[1..];
      CarriersCount(list, expanded, rest, d);
      assert forall f :: f in fs <==> f == fs[0] || f in rest;
      assert forall f :: f in rest ==> f.id != fs[0].id;
      if Carriers(list, expanded, fs, d) >= 2 && Carries(list, expanded, fs[0], d) {
        var q :| q in rest && Carries(list, expanded, q, d);
        assert fs[0] in fs && q in fs;
      }
    }
  }

  lemma {:induction false} TermByTerm(list: seq<Folder>, expanded: set<int>, ds: seq<Folder>, weight: Folder -> nat)
    requires Keyed(list) && forall d :: d in ds ==> d in list
    ensures var painted := ShownSum(list, expanded, ds, weight) + Times(list, expanded, list, ds, weight);
            && painted >= Sum(ds, weight)
            && (painted == Sum(ds, weight)
                <==> forall d :: d in ds && weight(d) > 0 ==> !DoublyCarried(list, expanded, d))
  {
    hide Shown, Carries;
    if ds != [] {
      var d, rest := ds[0], ds[1..];
      assert forall f :: f in ds <==> f == d || f in rest;
      TermByTerm(list, expanded, rest, weight);
      CarriersCount(list, expanded, list, d);
      OnceOrMore(list, expanded, d, weight(d));
      var n, w := Carriers(list, expanded, list, d), weight(d);
      var here := (if Shown(list, expanded, d) then w else 0) + n * w;
      assert here >= w && (here == w <==> (w > 0 ==> !DoublyCarried(list, expanded, d)));
    }
  }

  lemma OnceOrMore(list: seq<Folder>, expanded: set<int>, d: Folder, w: nat)
    requires Keyed(list) && d in list
    ensures var here := (if Shown(list, expanded, d) then w else 0) + Carriers(list, expanded, list, d) * w;
            here >= w && (here == w <==> (w > 0 ==> !DoublyCarried(list, expanded, d)))
  {
    CarrierBounds(list, expanded, d);
    hide *;
    TimesWeight(Carriers(list, expanded, list, d), w);
  }

  lemma TimesWeight(n: nat, w: nat)
    ensures n == 0 || w == 0 ==> n * w == 0
    ensures n == 1 ==> n * w == w
    ensures n >= 2 && w > 0 ==> n * w > w
  {
  }

  lemma CarrierBounds(list: seq<Folder>, expanded: set<int>, d: Folder)
    requires Keyed(list) && d in list
    ensures Shown(list, expanded, d) ==> Carriers(list, expanded, list, d) == 0
    ensures !Shown(list, expanded, d) ==> Carriers(list, expanded, list, d) >= 1
    ensures DoublyCarried(list, expanded, d) <==> Carriers(list, expanded, list, d) >= 2
  {
    hide Shown, Carriers, CollapsedRow, Under;
    CarriersCount(list, expanded, list, d);
    if !Shown(list, expanded, d) {
      var row := HiddenIsCarried(list, expanded, d);
    }
  }

  /** No pill disappears, and the painted sum is exactly the real one unless mail lies under two collapsed rows. */
  lemma Conservation(list: seq<Folder>, expanded: set<int>, weight: Folder -> nat)
    requires Keyed(list)
    ensures PaintedSum(list, expanded, list, weight) >= Sum(list, weight)
    ensures PaintedSum(list, expanded, list, weight) == Sum(list, weight)
            <==> forall d :: d in list && weight(d) > 0 ==> !DoublyCarried(list, expanded, d)
  {
    SumsExchange(list, expanded, list, weight);
    TermByTerm(list, expanded, list, weight);
  }

  // ---- When nothing is counted twice -----------------------------------------------------------------

  /** Ancestors of one folder lie on one chain. */
  lemma {:induction false} AncestorsChain(list: seq<Folder>, r: Folder, q: Folder, d: Folder)
    requires Keyed(list) && r in list && q in list && d in list
    requires Under(list, r.id, d) && Under(list, q.id, d)
    ensures Under(list, r.id, q) || Under(list, q.id, r)
    decreases |d.path|
  {
    ByIdIs(list, d);
    ByIdIs(list, r);
    ByIdIs(list, q);
    if d.id != r.id && d.id != q.id {
      AncestorsChain(list, r, q, Parent(list, d).value);
    }
  }

  /** A shown folder strictly below a collapsed row is there only because of an always-visible one between them. */
  lemma {:induction false} ShownBelowCollapsed(list: seq<Folder>, expanded: set<int>, row: Folder, g: Folder)
      returns (a: Folder)
    requires Keyed(list) && row in list && g in list
    requires row.id !in expanded && row.id != g.id && Under(list, row.id, g) && Shown(list, expanded, g)
    ensures a in list && a.id != row.id && Under(list, row.id, a) && AlwaysVisible(list, a)
    decreases |g.path|
  {
    ParentShape(g.path, g.delimiter);
    a := g;
    if !AlwaysVisible(list, g) {
      a := ShownBelowCollapsed(list, expanded, row, Parent(list, g).value);
    }
  }

  /** If no always-visible folder lies strictly below a collapsed row, every count is painted exactly once. */
  lemma ConservedWithoutNestedRoles(list: seq<Folder>, expanded: set<int>, weight: Folder -> nat)
    requires Keyed(list)
    requires forall row, a | row in list && a in list && CollapsedRow(list, expanded, row) ::
               a.id != row.id && Under(list, row.id, a) ==> !AlwaysVisible(list, a)
    ensures PaintedSum(list, expanded, list, weight) == Sum(list, weight)
  {
    Conservation(list, expanded, weight);
    forall d | d in list && weight(d) > 0 ensures !DoublyCarried(list, expanded, d) {
      if DoublyCarried(list, expanded, d) {
        var r, q :| r in list && q in list && r.id != q.id && Carries(list, expanded, r, d)
            && Carries(list, expanded, q, d);
        AncestorsChain(list, r, q, d);
        if Under(list, r.id, q) {
          var a := ShownBelowCollapsed(list, expanded, r, q);
        } else {
          var a := ShownBelowCollapsed(list, expanded, q, r);
        }
        assert false;
      }
    }
  }

  // ---- When something is ---------------------------------------------------------------------------

  lemma ListedParent(list: seq<Folder>, f: Folder, p: Folder, leaf: string)
    requires Keyed(list) && p in list && f.delimiter == "/" && f.path == p.path + "/" + leaf && '/' !in leaf
    ensures Parent(list, f) == Some(p) && FolderDepth(f.path, "/") > 0
  {
    SegmentAppended(p.path, "/", leaf);
    hide ParentPath;
  }

  lemma TopLevel(list: seq<Folder>, f: Folder)
    requires f.delimiter == "/" && '/' !in f.path
    ensures Parent(list, f).None?
  {
    forall i ensures !OccursAt(f.path, "/", i) { OccursChar(f.path, "/", i); }
    SplitWhole(f.path, "/");
  }

  /** A collapsed `a` above a collapsed `a/s` that stays visible: the mail of `a/s/c` is painted on both rows. */
  lemma CountedTwice(root: string, b: string, s: string, c: string, list: seq<Folder>)
    requires '/' !in root && '/' !in b && '/' !in s && '/' !in c && b != s
    requires var sent := root + "/" + s;
             list == [Folder(1, root, "/", Custom, true), Folder(2, root + "/" + b, "/", Custom, true),
                      Folder(3, sent, "/", Sent, true), Folder(4, sent + "/" + c, "/", Custom, true)]
    ensures Keyed(list)
    ensures PaintedSum(list, {}, list, f => 1) > Sum(list, f => 1)
  {
    hide *;
    var A, B, S, C := list[0], list[1], list[2], list[3];
    NestedKeyed(root, b, s, c, list);
    TopLevel(list, A);
    ListedParent(list, B, A, b);
    ListedParent(list, S, A, s);
    ListedParent(list, C, S, c);
    BothCarry(list, A, B, S, C);
    var w: Folder -> nat := f => 1;
    assert w(C) > 0;
    Conservation(list, {}, w);
  }

  lemma NestedKeyed(root: string, b: string, s: string, c: string, list: seq<Folder>)
    requires '/' !in b && b != s
    requires var sent := root + "/" + s;
             list == [Folder(1, root, "/", Custom, true), Folder(2, root + "/" + b, "/", Custom, true),
                      Folder(3, sent, "/", Sent, true), Folder(4, sent + "/" + c, "/", Custom, true)]
    ensures Keyed(list)
  {
    var n := |root| + 1;
    assert list[1].path[n..] == b && list[2].path[n..] == s;
    assert list[3].path[n..] == s + "/" + c;
    assert (s + "/" + c)[|s|] == '/';
  }

  lemma BothCarry(list: seq<Folder>, A: Folder, B: Folder, S: Folder, C: Folder)
    requires A in list && B in list && S in list && C in list && A.id != S.id
    requires B.role == Custom && S.role == Sent && C.role == Custom && A.role == Custom
            && FolderDepth(C.path, C.delimiter) > 0
    requires Parent(list, A).None? && Parent(list, B) == Some(A) && Parent(list, S) == Some(A)
            && Parent(list, C) == Some(S)
    ensures DoublyCarried(list, {}, C)
  {
    hide Parent, FolderDepth;
    assert Shown(list, {}, A) && Shown(list, {}, S) && !Shown(list, {}, C);
    assert FoldsInto(list, A, B) && FoldsInto(list, S, C);
    assert Under(list, S.id, C) && Under(list, A.id, S) && Under(list, A.id, C);
    hide Shown, Under, FoldsInto;
    assert Carries(list, {}, A, C) && Carries(list, {}, S, C);
  }

  // ---- What a row shows, from the folders and counts alone -----------------------------------------

  lemma NoParent(list: seq<Folder>, f: Folder)
    requires Keyed(list)
    ensures Parent(list, f).None? <==> forall g :: g in list ==> ParentPath(f.path, f.delimiter) != Some(g.path)
  {
    hide ParentPath;
    if Parent(list, f).None? {
      forall g | g in list ensures ParentPath(f.path, f.delimiter) != Some(g.path) {
        ParentIs(list, f, g);
      }
    }
  }

  /** Hidden is a plain folder whose parent is listed, is no inbox, and is closed or hidden itself. */
  lemma ShownMeans(list: seq<Folder>, expanded: set<int>, f: Folder)
    requires Keyed(list) && f in list
    ensures Shown(list, expanded, f)
            <==> || f.role != Custom
                 || (forall g :: g in list ==> ParentPath(f.path, f.delimiter) != Some(g.path))
                 || exists g :: g in list && ParentPath(f.path, f.delimiter) == Some(g.path)
                      && (g.role == Inbox || (g.id in expanded && Shown(list, expanded, g)))
  {
    NoParent(list, f);
    ParentShape(f.path, f.delimiter);
    hide ParentPath, FolderDepth;
    forall g | g in list && ParentPath(f.path, f.delimiter) == Some(g.path) ensures Parent(list, f) == Some(g) {
      ParentIs(list, f, g);
    }
    if Parent(list, f).Some? {
      var g := Parent(list, f).value;
      assert g in list && ParentPath(f.path, f.delimiter) == Some(g.path);
    }
  }

  /** Below a row is the row's folder and whatever has its parent below it. */
  lemma UnderMeans(list: seq<Folder>, row: int, f: Folder)
    requires Keyed(list) && f in list
    ensures Under(list, row, f)
            <==> f.id == row
                 || exists g :: g in list && ParentPath(f.path, f.delimiter) == Some(g.path) && Under(list, row, g)
  {
    hide ParentPath;
    forall g | g in list && ParentPath(f.path, f.delimiter) == Some(g.path) ensures Parent(list, f) == Some(g) {
      ParentIs(list, f, g);
    }
    if Parent(list, f).Some? {
      var g := Parent(list, f).value;
      assert g in list && ParentPath(f.path, f.delimiter) == Some(g.path);
    }
  }

  /** A row is its folder's: it has a toggle when a plain folder lies directly below and it is no inbox, and an open row
      or one without a toggle shows exactly its own counts, unread never for Trash. */
  lemma RowShows(list: seq<Folder>, expanded: set<int>, counts: map<int, Counts>, f: Folder)
    requires Keyed(list) && f in list
    ensures var row := RowOf(list, expanded, counts, f);
            && row.id == f.id && row.expanded == (f.id in expanded)
            && (row.collapsible
                <==> f.role != Inbox
                     && exists d :: d in list && d.role == Custom && ParentPath(d.path, d.delimiter) == Some(f.path))
            && (row.expanded || !row.collapsible ==>
                  && row.total == (if f.id in counts then counts[f.id].total else 0)
                  && row.unread == (if f.role != Trash && f.id in counts then counts[f.id].unread else 0))
  {
    hide ParentPath, Carried, Shown;
    forall d | d in list
      ensures FoldsInto(list, f, d)
              <==> d.role == Custom && f.role != Inbox && ParentPath(d.path, d.delimiter) == Some(f.path)
    {
      ParentIs(list, d, f);
    }
    if f.id in expanded || !Collapsible(list, f) {
      CarriesNothing(list, expanded, f, list, UnreadOf(counts));
      CarriesNothing(list, expanded, f, list, TotalOf(counts));
    }
  }

  /** Every shown folder has a row, and every row a shown folder. */
  lemma {:induction false} RowsAreShown(list: seq<Folder>, expanded: set<int>, counts: map<int, Counts>,
                                        fs: seq<Folder>)
    ensures forall row :: row in RowsOf(list, expanded, counts, fs) ==>
              exists f :: f in fs && Shown(list, expanded, f) && row == RowOf(list, expanded, counts, f)
    ensures forall f :: f in fs && Shown(list, expanded, f) ==>
              RowOf(list, expanded, counts, f) in RowsOf(list, expanded, counts, fs)
  {
    hide Shown, RowOf;
    if fs != [] { RowsAreShown(list, expanded, counts, fs[1..]); }
  }

  /** Rows come in the order of their folders. */
  lemma {:induction false} RowsInOrder(list: seq<Folder>, expanded: set<int>, counts: map<int, Counts>, fs: seq<Folder>,
                                       a: nat, b: nat)
    returns (i: nat, j: nat)
    requires a < b < |RowsOf(list, expanded, counts, fs)|
    ensures i < j < |fs|
    ensures RowsOf(list, expanded, counts, fs)[a] == RowOf(list, expanded, counts, fs[i])
    ensures RowsOf(list, expanded, counts, fs)[b] == RowOf(list, expanded, counts, fs[j])
    decreases |fs|
  {
    hide Shown, RowOf;
    var rest := RowsOf(list, expanded, counts, fs[1..]);
    if !Shown(list, expanded, fs[0]) {
      assert [] + rest == rest;
      i, j := RowsInOrder(list, expanded, counts, fs[1..], a, b);
      i, j := i + 1, j + 1;
    } else if a > 0 {
      i, j := RowsInOrder(list, expanded, counts, fs[1..], a - 1, b - 1);
      i, j := i + 1, j + 1;
    } else {
      i := 0;
      j := RowAt(list, expanded, counts, fs[1..], b - 1);
      j := j + 1;
    }
  }

  lemma {:induction false} RowAt(list: seq<Folder>, expanded: set<int>, counts: map<int, Counts>, fs: seq<Folder>,
                                 b: nat)
    returns (j: nat)
    requires b < |RowsOf(list, expanded, counts, fs)|
    ensures j < |fs| && RowsOf(list, expanded, counts, fs)[b] == RowOf(list, expanded, counts, fs[j])
    decreases |fs|
  {
    hide Shown, RowOf;
    if Shown(list, expanded, fs[0]) && b == 0 {
      j := 0;
    } else {
      j := RowAt(list, expanded, counts, fs[1..], if Shown(list, expanded, fs[0]) then b - 1 else b);
      j := j + 1;
    }
  }

  /** The subscribed folders keep the feed's order. */
  lemma {:induction false} SubscribedInOrder(all: seq<Folder>, a: nat, b: nat) returns (i: nat, j: nat)
    requires a < b < |Subscribed(all)|
    ensures i < j < |all| && Subscribed(all)[a] == all[i] && Subscribed(all)[b] == all[j]
    decreases |all|
  {
    SubscribedFrom(all, a);
    SubscribedFrom(all, b);
    hide Subscribed;
    var n := if all[0].subscribed then 1 else 0;
    if a >= n {
      i, j := SubscribedInOrder(all[1..], a - n, b - n);
      i, j := i + 1, j + 1;
    } else {
      i := 0;
      j := SubscribedAt(all[1..], b - n);
      j := j + 1;
    }
  }

  lemma {:induction false} SubscribedAt(all: seq<Folder>, b: nat) returns (j: nat)
    requires b < |Subscribed(all)|
    ensures j < |all| && Subscribed(all)[b] == all[j]
    decreases |all|
  {
    SubscribedFrom(all, b);
    hide Subscribed;
    if all[0].subscribed && b == 0 {
      j := 0;
    } else {
      j := SubscribedAt(all[1..], if all[0].subscribed then b - 1 else b);
      j := j + 1;
    }
  }

  lemma SubscribedFrom(all: seq<Folder>, k: nat)
    requires k < |Subscribed(all)|
    ensures all != []
    ensures var n := if all[0].subscribed then 1 else 0;
            var rest := Subscribed(all[1..]);
            if k < n then Subscribed(all)[k] == all[0] else k - n < |rest| && Subscribed(all)[k] == rest[k - n]
  {
  }

  /** The messages of all these folders, and the unread ones outside Trash. */
  function AllMessages(list: seq<Folder>, counts: map<int, Counts>): nat {
    if list == [] then 0
    else (if list[0].id in counts then counts[list[0].id].total else 0) + AllMessages(list[1..], counts)
  }

  function AllUnread(list: seq<Folder>, counts: map<int, Counts>): nat {
    if list == [] then 0
    else (if list[0].role != Trash && list[0].id in counts then counts[list[0].id].unread else 0)
         + AllUnread(list[1..], counts)
  }

  lemma {:induction false} SumsOfCounts(list: seq<Folder>, counts: map<int, Counts>)
    ensures Sum(list, TotalOf(counts)) == AllMessages(list, counts)
    ensures Sum(list, UnreadOf(counts)) == AllUnread(list, counts)
  {
    if list != [] { SumsOfCounts(list[1..], counts); }
  }

  /** The rows together show at least every message, and without an always-visible folder strictly below a collapsed row
      exactly every message and every unread one once. */
  lemma RowsShowEverything(list: seq<Folder>, expanded: set<int>, counts: map<int, Counts>)
    requires Keyed(list)
    ensures var rows := RowsOf(list, expanded, counts, list);
            && SumRows(rows, (r: SidebarRow) => r.total) >= AllMessages(list, counts)
            && SumRows(rows, (r: SidebarRow) => r.unread) >= AllUnread(list, counts)
            && ((forall row, a | row in list && a in list && CollapsedRow(list, expanded, row) ::
                   a.id != row.id && Under(list, row.id, a) ==> !AlwaysVisible(list, a)) ==>
                  && SumRows(rows, (r: SidebarRow) => r.total) == AllMessages(list, counts)
                  && SumRows(rows, (r: SidebarRow) => r.unread) == AllUnread(list, counts))
  {
    hide RowsOf, PaintedSum, Sum, CollapsedRow, Under, AlwaysVisible, TotalOf, UnreadOf;
    RowsShowPaintedSum(list, expanded, counts, list);
    SumsOfCounts(list, counts);
    Conservation(list, expanded, TotalOf(counts));
    Conservation(list, expanded, UnreadOf(counts));
    if forall row, a | row in list && a in list && CollapsedRow(list, expanded, row) ::
         a.id != row.id && Under(list, row.id, a) ==> !AlwaysVisible(list, a)
    {
      ConservedWithoutNestedRoles(list, expanded, TotalOf(counts));
      ConservedWithoutNestedRoles(list, expanded, UnreadOf(counts));
    }
  }
}
