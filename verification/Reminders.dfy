/** The reminders page: a filter panel (date range, status, done leads) over the
    leads, sorted by follow-up time, and the badge each card shows. Here `parse`
    is JavaScript's `new Date(string)` as a time value in milliseconds, `None`
    for an invalid date (every comparison with which is false). */
module Reminders {
  import opened Wrappers
  import opened LeadModel
  import Seqs
  import LeadStore

  /** `setDate(getDate() + 1)` moves a time one calendar day on. */
  const MsPerDay := 86400000

  /** The filter panel's state; an empty string leaves its criterion unset. */
  datatype ReminderSettings = ReminderSettings(
    startDate: string,
    endDate: string,
    sortOrder: SortOrder,
    includeDone: bool,
    statusFilter: string)

  /** The initial panel, restored by `handleReset`. */
  const DefaultSettings := ReminderSettings("", "", Asc, false, "")

  /** The follow-up time of a lead. */
  function Time(l: Lead, parse: string -> Option<int>): Option<int> {
    parse(l.followUpDate)
  }

  // ----- The criteria, one per filter step -----

  predicate DoneAllowed(l: Lead, s: ReminderSettings) {
    s.includeDone || !l.isDone
  }

  predicate StatusMatches(l: Lead, s: ReminderSettings) {
    StatusLabel(l.status) == s.statusFilter
  }

  predicate OnOrAfterStart(l: Lead, s: ReminderSettings, parse: string -> Option<int>) {
    Time(l, parse).Some? && parse(s.startDate).Some? && Time(l, parse).value >= parse(s.startDate).value
  }

  /** Before the start of the day after the end date. */
  predicate BeforeEndNextDay(l: Lead, s: ReminderSettings, parse: string -> Option<int>) {
    Time(l, parse).Some? && parse(s.endDate).Some? && Time(l, parse).value < parse(s.endDate).value + MsPerDay
  }

  /** Whether a lead passes the panel, every set criterion at once. */
  predicate Shown(l: Lead, s: ReminderSettings, parse: string -> Option<int>) {
    && DoneAllowed(l, s)
    && (s.statusFilter == "" || StatusMatches(l, s))
    && (s.startDate == "" || OnOrAfterStart(l, s, parse))
    && (s.endDate == "" || BeforeEndNextDay(l, s, parse))
  }

  // ----- The filter steps of `filteredAndSorted`, applied in turn -----

  function DoneStep(items: seq<Lead>, s: ReminderSettings): (r: seq<Lead>)
    ensures Seqs.IsSubseq(r, items)
    ensures forall l :: l in r <==> l in items && DoneAllowed(l, s)
    ensures forall l :: multiset(r)[l] == if DoneAllowed(l, s) then multiset(items)[l] else 0
  {
    Seqs.FilterCount(items, (l: Lead) => DoneAllowed(l, s));
    Seqs.Filter(items, (l: Lead) => DoneAllowed(l, s))
  }

  function StatusStep(items: seq<Lead>, s: ReminderSettings): (r: seq<Lead>)
    ensures Seqs.IsSubseq(r, items)
    ensures forall l :: l in r <==> l in items && (s.statusFilter == "" || StatusMatches(l, s))
    ensures forall l :: multiset(r)[l] == if s.statusFilter == "" || StatusMatches(l, s) then multiset(items)[l] else 0
  {
    if s.statusFilter == "" then Seqs.SubseqRefl(items); items
    else
      Seqs.FilterCount(items, (l: Lead) => StatusMatches(l, s));
      Seqs.Filter(items, (l: Lead) => StatusMatches(l, s))
  }

  function StartStep(items: seq<Lead>, s: ReminderSettings, parse: string -> Option<int>): (r: seq<Lead>)
    ensures Seqs.IsSubseq(r, items)
    ensures forall l :: l in r <==> l in items && (s.startDate == "" || OnOrAfterStart(l, s, parse))
    ensures forall l :: multiset(r)[l] == if s.startDate == "" || OnOrAfterStart(l, s, parse) then multiset(items)[l] else 0
  {
    if s.startDate == "" then Seqs.SubseqRefl(items); items
    else
      Seqs.FilterCount(items, (l: Lead) => OnOrAfterStart(l, s, parse));
      Seqs.Filter(items, (l: Lead) => OnOrAfterStart(l, s, parse))
  }

  function EndStep(items: seq<Lead>, s: ReminderSettings, parse: string -> Option<int>): (r: seq<Lead>)
    ensures Seqs.IsSubseq(r, items)
    ensures forall l :: l in r <==> l in items && (s.endDate == "" || BeforeEndNextDay(l, s, parse))
    ensures forall l :: multiset(r)[l] == if s.endDate == "" || BeforeEndNextDay(l, s, parse) then multiset(items)[l] else 0
  {
    if s.endDate == "" then Seqs.SubseqRefl(items); items
    else
      Seqs.FilterCount(items, (l: Lead) => BeforeEndNextDay(l, s, parse));
      Seqs.Filter(items, (l: Lead) => BeforeEndNextDay(l, s, parse))
  }

  /** The four filter steps in the page's order. */
  function Selected(leads: seq<Lead>, s: ReminderSettings, parse: string -> Option<int>): (r: seq<Lead>)
    ensures Seqs.IsSubseq(r, leads)
    ensures forall l :: l in r <==> l in leads && Shown(l, s, parse)
    ensures forall l :: multiset(r)[l] == if Shown(l, s, parse) then multiset(leads)[l] else 0
  {
    var a := DoneStep(leads, s);
    var b := StatusStep(a, s);
    var c := StartStep(b, s, parse);
    var d := EndStep(c, s, parse);
    Seqs.SubseqTrans(b, a, leads);
    Seqs.SubseqTrans(c, b, leads);
    Seqs.SubseqTrans(d, c, leads);
    d
  }

  // ----- Sorting -----

  /** The sort comparator `da - db` (or `db - da`); a difference involving an invalid
      date is NaN, which the array sort reads as 0. */
  function TimeDiff(x: Option<int>, y: Option<int>, order: SortOrder): int {
    if x.Some? && y.Some? then (if order == Asc then x.value - y.value else y.value - x.value)
    else 0
  }

  function Comparator(parse: string -> Option<int>, order: SortOrder): (Lead, Lead) -> int {
    (a: Lead, b: Lead) => TimeDiff(Time(a, parse), Time(b, parse), order)
  }

  /** Two valid times are in the requested order. */
  predicate InOrder(x: int, y: int, order: SortOrder) {
    if order == Asc then x <= y else x >= y
  }

  lemma ComparatorAntisymmetric(parse: string -> Option<int>, order: SortOrder)
    ensures Seqs.Antisymmetric(Comparator(parse, order))
  {
  }

  /** What the stable sort by follow-up time guarantees. */
  lemma SortByTime(items: seq<Lead>, parse: string -> Option<int>, order: SortOrder)
    ensures var r := Seqs.Sort(items, Comparator(parse, order));
      && multiset(r) == multiset(items)
      && (forall i :: 0 <= i < |r| - 1 && Time(r[i], parse).Some? && Time(r[i + 1], parse).Some? ==>
            InOrder(Time(r[i], parse).value, Time(r[i + 1], parse).value, order))
  {
    var cmp := Comparator(parse, order);
    ComparatorAntisymmetric(parse, order);
    var r := Seqs.Sort(items, cmp);
    assert Seqs.AdjacentSorted(r, cmp);
    forall i | 0 <= i < |r| - 1 && Time(r[i], parse).Some? && Time(r[i + 1], parse).Some?
      ensures InOrder(Time(r[i], parse).value, Time(r[i + 1], parse).value, order)
    {
      assert cmp(r[i], r[i + 1]) <= 0;
    }
  }

  /** `filteredAndSorted`: the leads the panel admits, each once per occurrence, with
      neighbouring valid follow-up times in the chosen order. */
  function FilteredAndSorted(leads: seq<Lead>, s: ReminderSettings, parse: string -> Option<int>): (r: seq<Lead>)
    ensures multiset(r) == multiset(Selected(leads, s, parse))
    ensures forall l :: l in r <==> l in leads && Shown(l, s, parse)
    ensures forall i :: 0 <= i < |r| - 1 && Time(r[i], parse).Some? && Time(r[i + 1], parse).Some? ==>
      InOrder(Time(r[i], parse).value, Time(r[i + 1], parse).value, s.sortOrder)
  {
    var sel := Selected(leads, s, parse);
    SortByTime(sel, parse, s.sortOrder);
    var r := Seqs.Sort(sel, Comparator(parse, s.sortOrder));
    Seqs.SameMembers(r, sel);
    r
  }

  // ----- The card badge -----

  /** `isPast`: the follow-up time is before today's midnight UTC (`todayUtc`). */
  predicate IsPast(l: Lead, todayUtc: int, parse: string -> Option<int>) {
    Time(l, parse).Some? && Time(l, parse).value < todayUtc
  }

  datatype Badge = DoneBadge | PastBadge | PendingBadge

  /** The colour class of the date badge: done wins over past. */
  function BadgeOf(l: Lead, todayUtc: int, parse: string -> Option<int>): (r: Badge)
    ensures r == DoneBadge <==> l.isDone
    ensures r == PastBadge <==> !l.isDone && IsPast(l, todayUtc, parse)
  {
    if l.isDone then DoneBadge else if IsPast(l, todayUtc, parse) then PastBadge else PendingBadge
  }

  // ----- Properties -----

  /** Neighbouring order of times that are all valid is order of every pair. */
  lemma {:induction false} ChainInOrder(r: seq<Lead>, parse: string -> Option<int>, order: SortOrder)
    requires forall i :: 0 <= i < |r| ==> Time(r[i], parse).Some?
    requires forall i :: 0 <= i < |r| - 1 ==> InOrder(Time(r[i], parse).value, Time(r[i + 1], parse).value, order)
    ensures forall i, j :: 0 <= i < j < |r| ==> InOrder(Time(r[i], parse).value, Time(r[j], parse).value, order)
  {
    if |r| > 1 {
      var t := r[1..];
      ChainInOrder(t, parse, order);
      forall j | 1 <= j < |r| ensures InOrder(Time(r[0], parse).value, Time(r[j], parse).value, order) {
        if j > 1 {
          assert r[j] == t[j - 1] && r[1] == t[0];
        }
      }
      forall i, j | 0 <= i < j < |r| ensures InOrder(Time(r[i], parse).value, Time(r[j], parse).value, order) {
        if i > 0 {
          assert r[i] == t[i - 1] && r[j] == t[j - 1];
        }
      }
    }
  }

  /** With a valid start date set, every shown lead has a valid time, so the whole list
      is in the chosen order. */
  lemma SortedWhenStartSet(leads: seq<Lead>, s: ReminderSettings, parse: string -> Option<int>)
    requires s.startDate != ""
    ensures var r := FilteredAndSorted(leads, s, parse);
      forall i, j :: 0 <= i < j < |r| ==>
        Time(r[i], parse).Some? && Time(r[j], parse).Some? &&
        InOrder(Time(r[i], parse).value, Time(r[j], parse).value, s.sortOrder)
  {
    var r := FilteredAndSorted(leads, s, parse);
    AllTimed(r, leads, s, parse);
    ChainInOrder(r, parse, s.sortOrder);
  }

  /** Everything shown under a start bound has a valid time. */
  lemma AllTimed(r: seq<Lead>, leads: seq<Lead>, s: ReminderSettings, parse: string -> Option<int>)
    requires s.startDate != ""
    requires forall l :: l in r ==> l in leads && Shown(l, s, parse)
    ensures forall i :: 0 <= i < |r| ==> Time(r[i], parse).Some?
  {
    forall i | 0 <= i < |r| ensures Time(r[i], parse).Some? {
      assert r[i] in r;
    }
  }

  /** After a reset the page lists exactly the open leads, each as often as it is stored. */
  lemma ResetShowsOpenLeads(leads: seq<Lead>, parse: string -> Option<int>)
    ensures var r := FilteredAndSorted(leads, DefaultSettings, parse);
      multiset(r) == multiset(Seqs.Filter(leads, (l: Lead) => !l.isDone))
  {
    var d := DefaultSettings;
    var a := DoneStep(leads, d);
    assert Selected(leads, d, parse) == a;
    Seqs.FilterExt(leads, (l: Lead) => DoneAllowed(l, d), (l: Lead) => !l.isDone);
  }

  /** A status filter admits only leads stored with exactly that label. */
  lemma StatusFilterExact(leads: seq<Lead>, s: ReminderSettings, parse: string -> Option<int>, l: Lead)
    requires s.statusFilter != "" && l in FilteredAndSorted(leads, s, parse)
    ensures StatusLabel(l.status) == s.statusFilter
  {
  }

  /** Marking a lead done removes it from the list unless done leads are included. */
  lemma MarkDoneHides(leads: seq<Lead>, id: string, s: ReminderSettings, parse: string -> Option<int>)
    requires !s.includeDone
    ensures forall l :: l in FilteredAndSorted(LeadStore.MarkAsDone(leads, id), s, parse) ==> l.id != id
  {
    LeadStore.MarkAsDoneMarksId(leads, id);
  }

  /** A lead with an invalid follow-up date shows only when no date bound is set. */
  lemma InvalidDateNeedsNoBounds(leads: seq<Lead>, s: ReminderSettings, parse: string -> Option<int>, l: Lead)
    requires Time(l, parse).None? && l in FilteredAndSorted(leads, s, parse)
    ensures s.startDate == "" && s.endDate == ""
  {
  }
}
