/** The date-bucket views of the due-today and upcoming pages. `today` is the
    clock's local date as a day ordinal and `parse` reads a follow-up date as a day
    ordinal; the pages read it with `parseFollowUpDate`, which is `PageParse(native)`
    for the platform's `new Date(string)` parser `native`. */
module DateViews {
  import opened Wrappers
  import opened LeadModel
  import opened Dates
  import Seqs
  import LeadStore

  /** `parseFollowUpDate` as the pages call it. */
  function PageParse(native: string -> Option<int>): string -> Option<int> {
    s => FollowUpDay(s, native)
  }

  /** The day a lead is due, when it is open and has a parseable follow-up date. */
  function DueDay(l: Lead, parse: string -> Option<int>): (r: Option<int>)
    ensures r.Some? ==> !l.isDone && l.followUpDate != ""
  {
    if l.isDone || l.followUpDate == "" then None else parse(l.followUpDate)
  }

  predicate DueToday(l: Lead, today: int, parse: string -> Option<int>) {
    DueDay(l, parse) == Some(today)
  }

  predicate Overdue(l: Lead, today: int, parse: string -> Option<int>) {
    DueDay(l, parse).Some? && DueDay(l, parse).value < today
  }

  /** Strictly after today and no later than `today + horizon`. */
  predicate DueWithin(l: Lead, today: int, horizon: int, parse: string -> Option<int>) {
    DueDay(l, parse).Some? && today < DueDay(l, parse).value <= today + horizon
  }

  /** `todayLeads`: open leads whose follow-up falls on today. */
  function TodayLeads(leads: seq<Lead>, today: int, parse: string -> Option<int>): (r: seq<Lead>)
    ensures Seqs.IsSubseq(r, leads)
    ensures forall i :: 0 <= i < |r| ==>
      !r[i].isDone && r[i].followUpDate != "" && parse(r[i].followUpDate) == Some(today)
    ensures forall l :: l in leads ==> (l in r <==> DueToday(l, today, parse))
    ensures forall l :: multiset(r)[l] == if DueToday(l, today, parse) then multiset(leads)[l] else 0
  {
    Seqs.FilterCount(leads, (l: Lead) => DueToday(l, today, parse));
    Seqs.Filter(leads, (l: Lead) => DueToday(l, today, parse))
  }

  /** `overdueLeads`: open leads whose follow-up day is before today. */
  function OverdueLeads(leads: seq<Lead>, today: int, parse: string -> Option<int>): (r: seq<Lead>)
    ensures Seqs.IsSubseq(r, leads)
    ensures forall i :: 0 <= i < |r| ==>
      && !r[i].isDone && r[i].followUpDate != ""
      && parse(r[i].followUpDate).Some? && parse(r[i].followUpDate).value < today
    ensures forall l :: l in leads ==> (l in r <==> Overdue(l, today, parse))
    ensures forall l :: multiset(r)[l] == if Overdue(l, today, parse) then multiset(leads)[l] else 0
  {
    Seqs.FilterCount(leads, (l: Lead) => Overdue(l, today, parse));
    Seqs.Filter(leads, (l: Lead) => Overdue(l, today, parse))
  }

  /** Open leads due after today and no later than `today + horizon`, in store order. */
  function WindowLeads(leads: seq<Lead>, today: int, horizon: int, parse: string -> Option<int>): (r: seq<Lead>)
    ensures Seqs.IsSubseq(r, leads)
    ensures forall i :: 0 <= i < |r| ==>
      && !r[i].isDone && r[i].followUpDate != ""
      && parse(r[i].followUpDate).Some?
      && today < parse(r[i].followUpDate).value <= today + horizon
    ensures forall l :: l in leads ==> (l in r <==> DueWithin(l, today, horizon, parse))
    ensures forall l :: multiset(r)[l] == if DueWithin(l, today, horizon, parse) then multiset(leads)[l] else 0
  {
    Seqs.FilterCount(leads, (l: Lead) => DueWithin(l, today, horizon, parse));
    Seqs.Filter(leads, (l: Lead) => DueWithin(l, today, horizon, parse))
  }

  /** `upcomingLeads`: open leads due in the seven days after today. */
  function UpcomingLeads(leads: seq<Lead>, today: int, parse: string -> Option<int>): (r: seq<Lead>)
    ensures Seqs.IsSubseq(r, leads)
    ensures forall l :: multiset(r)[l] == if DueWithin(l, today, 7, parse) then multiset(leads)[l] else 0
  {
    WindowLeads(leads, today, 7, parse)
  }

  /** Days from `today` to the end of its week: 7 on a Sunday, 1 on a Saturday. */
  function WeekHorizon(today: int): (h: int)
    ensures 1 <= h <= 7
    ensures h == 7 <==> Weekday(today) == 0
  {
    7 - Weekday(today)
  }

  /** `thisWeekLeads`: open leads due after today and up to `7 - getDay()` days ahead. */
  function ThisWeekLeads(leads: seq<Lead>, today: int, parse: string -> Option<int>): (r: seq<Lead>)
    ensures Seqs.IsSubseq(r, leads)
    ensures forall l :: multiset(r)[l] == if DueWithin(l, today, WeekHorizon(today), parse) then multiset(leads)[l] else 0
  {
    WindowLeads(leads, today, WeekHorizon(today), parse)
  }

  // ----- Properties -----

  /** No lead is both due today and overdue. */
  lemma TodayOverdueDisjoint(leads: seq<Lead>, today: int, parse: string -> Option<int>, l: Lead)
    ensures !(l in TodayLeads(leads, today, parse) && l in OverdueLeads(leads, today, parse))
  {
  }

  /** The upcoming and this-week views never hold a lead due today or overdue. */
  lemma UpcomingDisjointFromDue(leads: seq<Lead>, today: int, parse: string -> Option<int>, l: Lead)
    requires l in UpcomingLeads(leads, today, parse) || l in ThisWeekLeads(leads, today, parse)
    ensures l !in TodayLeads(leads, today, parse)
    ensures l !in OverdueLeads(leads, today, parse)
  {
  }

  /** A shorter window selects a subsequence of a longer one. */
  lemma WindowMonotone(leads: seq<Lead>, today: int, h1: int, h2: int, parse: string -> Option<int>)
    requires h1 <= h2
    ensures Seqs.IsSubseq(WindowLeads(leads, today, h1, parse), WindowLeads(leads, today, h2, parse))
  {
    var p := (l: Lead) => DueWithin(l, today, h1, parse);
    var q := (l: Lead) => DueWithin(l, today, h2, parse);
    Seqs.FilterMonotone(leads, p, q);
  }

  /** The this-week window (1 to 7 days) ends within the upcoming one, so this week's
      leads are a subsequence of the upcoming leads. */
  lemma ThisWeekWithinUpcoming(leads: seq<Lead>, today: int, parse: string -> Option<int>)
    ensures Seqs.IsSubseq(ThisWeekLeads(leads, today, parse), UpcomingLeads(leads, today, parse))
  {
    WindowMonotone(leads, today, WeekHorizon(today), 7, parse);
  }

  /** On a Sunday the two windows coincide. */
  lemma ThisWeekIsUpcomingOnSunday(leads: seq<Lead>, today: int, parse: string -> Option<int>)
    requires Weekday(today) == 0
    ensures ThisWeekLeads(leads, today, parse) == UpcomingLeads(leads, today, parse)
  {
    assert WeekHorizon(today) == 7;
  }

  /** A done lead appears in none of the four views. */
  lemma DoneInNoView(leads: seq<Lead>, today: int, parse: string -> Option<int>, l: Lead)
    requires l.isDone
    ensures l !in TodayLeads(leads, today, parse) && l !in OverdueLeads(leads, today, parse)
    ensures l !in UpcomingLeads(leads, today, parse) && l !in ThisWeekLeads(leads, today, parse)
  {
  }

  /** A stored open lead due today is in the due-today view and in no other date view. */
  lemma DueTodayOnlyInToday(leads: seq<Lead>, today: int, parse: string -> Option<int>, l: Lead)
    requires l in leads && !l.isDone && l.followUpDate != ""
    requires parse(l.followUpDate) == Some(today)
    ensures l in TodayLeads(leads, today, parse)
    ensures l !in OverdueLeads(leads, today, parse)
    ensures l !in UpcomingLeads(leads, today, parse) && l !in ThisWeekLeads(leads, today, parse)
  {
  }

  /** Once a lead is marked done, no lead with its id is due today. */
  lemma MarkDoneLeavesToday(leads: seq<Lead>, id: string, today: int, parse: string -> Option<int>)
    ensures forall l :: l in TodayLeads(LeadStore.MarkAsDone(leads, id), today, parse) ==> l.id != id
  {
    LeadStore.MarkAsDoneMarksId(leads, id);
  }
}
