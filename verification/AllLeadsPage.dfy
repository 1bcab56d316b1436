/** The all-leads page: its own copy of the search (which, unlike the store's, also
    looks at contact names and the status), the all/active tabs, and the display
    helpers of a lead card and its detail panel. */
module AllLeadsPage {
  import opened Wrappers
  import opened LeadModel
  import opened Strings
  import Seqs
  import Search
  import MobileNumbers
  import LeadForm

  /** The candidate fields of the page's search before empty ones are dropped. */
  function PageCandidates(l: Lead): (r: seq<Option<string>>)
    ensures forall s :: Some(s) in r <==>
      || s == l.clientName || s == l.company || s in Search.PhoneCandidates(l)
      || Some(s) in Search.NamesOf(Numbers(l))
      || s == l.consumerNumber || s == l.kva
      || Some(s) == l.companyLocation || Some(s) == l.notes || Some(s) == l.finalConclusion
      || s == StatusLabel(l.status)
  {
    Search.WrapMembers(Search.PhoneCandidates(l));
    [Some(l.clientName), Some(l.company)] + Search.Wrap(Search.PhoneCandidates(l))
      + Search.NamesOf(Numbers(l)) + PageTail(l)
  }

  /** The candidates after the phone numbers and contact names. */
  function PageTail(l: Lead): (r: seq<Option<string>>)
    ensures forall s :: Some(s) in r <==>
      || s == l.consumerNumber || s == l.kva
      || Some(s) == l.companyLocation || Some(s) == l.notes || Some(s) == l.finalConclusion
      || s == StatusLabel(l.status)
  {
    [Some(l.consumerNumber), Some(l.kva), l.companyLocation, l.notes, l.finalConclusion,
     Some(StatusLabel(l.status))]
  }

  /** The text fields the page's search scans: the store's fields, the contact names of the
      phone list and the status, empty ones dropped. */
  function PageFields(l: Lead): (r: seq<string>)
    ensures forall s :: s in r <==>
      && s != ""
      && (|| s == l.clientName || s == l.company || s in Search.PhoneCandidates(l)
          || Some(s) in Search.NamesOf(Numbers(l))
          || s == l.consumerNumber || s == l.kva
          || Some(s) == l.companyLocation || Some(s) == l.notes || Some(s) == l.finalConclusion
          || s == StatusLabel(l.status))
  {
    Search.Present(PageCandidates(l))
  }

  /** The page's search for a non-empty term: a digit-only term matching a phone's digits
      includes the lead at once; otherwise (and as fallback) some page field must contain
      the lower-cased term. `PageSearchMatchIff` states what it means. */
  predicate PageSearchMatch(l: Lead, term: string) {
    || (IsDigitString(term) && Search.AnyPhoneDigitsContain(Search.PhoneCandidates(l), term))
    || Search.AnyFieldContains(PageFields(l), ToLower(term))
  }

  /** A lead matches exactly when a digit-only term is in some phone's digits, or some page
      field contains the lower-cased term. */
  lemma PageSearchMatchIff(l: Lead, term: string)
    ensures PageSearchMatch(l, term) <==>
      || (IsDigitString(term) && Search.AnyPhoneDigitsContain(Search.PhoneCandidates(l), term))
      || exists s :: s in PageFields(l) && Contains(ToLower(s), ToLower(term))
  {
    var fields := PageFields(l);
    if exists s :: s in fields && Contains(ToLower(s), ToLower(term)) {
      var s :| s in fields && Contains(ToLower(s), ToLower(term));
      var i :| 0 <= i < |fields| && fields[i] == s;
    }
  }

  function Matcher(term: string): Lead -> bool {
    l => PageSearchMatch(l, term)
  }

  predicate Open(l: Lead) {
    !l.isDone
  }

  /** The search filter both tabs apply for a non-empty term: the matching leads, each as
      often as it occurs, in order. */
  function SearchLeads(leads: seq<Lead>, term: string): (r: seq<Lead>)
    ensures Seqs.IsSubseq(r, leads)
    ensures forall l :: multiset(r)[l] == if PageSearchMatch(l, term) then multiset(leads)[l] else 0
  {
    Seqs.FilterCount(leads, Matcher(term));
    Seqs.Filter(leads, Matcher(term))
  }

  /** `allLeads`: every lead, or with a search term the leads it matches, in store order. */
  function AllLeads(leads: seq<Lead>, term: string): (r: seq<Lead>)
    ensures term == "" ==> r == leads
    ensures Seqs.IsSubseq(r, leads)
    ensures term != "" ==> forall i :: 0 <= i < |r| ==> PageSearchMatch(r[i], term)
    ensures forall l :: multiset(r)[l] == if term == "" || PageSearchMatch(l, term) then multiset(leads)[l] else 0
    ensures forall l :: l in leads ==> (l in r <==> term == "" || PageSearchMatch(l, term))
  {
    if term == "" then
      Seqs.SubseqRefl(leads);
      leads
    else
      var r := SearchLeads(leads, term);
      SearchLeadsMembers(leads, term);
      r
  }

  /** The search keeps exactly the matching leads, so each kept lead matches. */
  lemma SearchLeadsMembers(leads: seq<Lead>, term: string)
    ensures var r := SearchLeads(leads, term);
      forall l :: l in r <==> l in leads && PageSearchMatch(l, term)
    ensures var r := SearchLeads(leads, term);
      forall i :: 0 <= i < |r| ==> PageSearchMatch(r[i], term)
  {
    var r := SearchLeads(leads, term);
    forall l
      ensures l in r <==> l in leads && PageSearchMatch(l, term)
    {
      assert l in r <==> multiset(r)[l] > 0;
      assert l in leads <==> multiset(leads)[l] > 0;
    }
    forall i | 0 <= i < |r|
      ensures PageSearchMatch(r[i], term)
    {
      assert r[i] in r;
    }
  }

  /** `activeLeads`: the leads not done, then the search, in store order. */
  function ActiveLeads(leads: seq<Lead>, term: string): (r: seq<Lead>)
    ensures Seqs.IsSubseq(r, leads)
    ensures forall i :: 0 <= i < |r| ==> !r[i].isDone
    ensures forall l :: multiset(r)[l] == if !l.isDone && (term == "" || PageSearchMatch(l, term)) then multiset(leads)[l] else 0
    ensures forall l :: l in leads ==> (l in r <==> !l.isDone && (term == "" || PageSearchMatch(l, term)))
  {
    if term == "" then OpenLeads(leads) else ActiveSearch(leads, term)
  }

  /** The leads not done, each as often as it occurs, in store order. */
  function OpenLeads(leads: seq<Lead>): (r: seq<Lead>)
    ensures Seqs.IsSubseq(r, leads)
    ensures forall i :: 0 <= i < |r| ==> !r[i].isDone
    ensures forall l :: multiset(r)[l] == if !l.isDone then multiset(leads)[l] else 0
    ensures forall l :: l in r <==> l in leads && !l.isDone
  {
    Seqs.FilterCount(leads, Open);
    Seqs.Filter(leads, Open)
  }

  /** The active tab under a search term: the open leads the term matches. */
  function ActiveSearch(leads: seq<Lead>, term: string): (r: seq<Lead>)
    ensures Seqs.IsSubseq(r, leads)
    ensures forall i :: 0 <= i < |r| ==> !r[i].isDone && PageSearchMatch(r[i], term)
    ensures forall l :: multiset(r)[l] == if !l.isDone && PageSearchMatch(l, term) then multiset(leads)[l] else 0
    ensures forall l :: l in r <==> l in leads && !l.isDone && PageSearchMatch(l, term)
  {
    var open := OpenLeads(leads);
    var r := SearchLeads(open, term);
    SearchLeadsMembers(open, term);
    Seqs.SubseqTrans(r, open, leads);
    assert forall i :: 0 <= i < |r| ==> !r[i].isDone && PageSearchMatch(r[i], term) by {
      forall i | 0 <= i < |r|
        ensures !r[i].isDone && PageSearchMatch(r[i], term)
      {
        assert r[i] in r;
      }
    }
    r
  }

  /** The phone line of a lead card: with a phone list, the first main entry's number, else
      the first entry's number, else 'N/A'; without one, the legacy number, else 'N/A'. */
  function MainPhoneDisplay(l: Lead): (r: string)
    ensures r != ""
    ensures |Numbers(l)| == 0 ==> r == (if l.mobileNumber != "" then l.mobileNumber else "N/A")
    ensures var nums := Numbers(l);
      forall k :: (0 <= k < |nums| && nums[k].isMain && nums[k].number != "" && (forall j :: 0 <= j < k ==> !nums[j].isMain))
        ==> r == nums[k].number
    ensures var nums := Numbers(l);
      |nums| > 0 && !Truthy(MobileNumbers.MainNumberOf(nums)) ==> r == (if nums[0].number != "" then nums[0].number else "N/A")
  {
    var nums := Numbers(l);
    forall k | 0 <= k < |nums| && nums[k].isMain && (forall j :: 0 <= j < k ==> !nums[j].isMain)
      ensures MobileNumbers.MainNumberOf(nums) == Some(nums[k].number)
    {
      MobileNumbers.MainNumberIsFirstMain(nums, k);
    }
    if |nums| > 0 then Or(MobileNumbers.MainNumberOf(nums), Or(MobileNumbers.FirstNumber(nums), "N/A"))
    else if l.mobileNumber != "" then l.mobileNumber
    else "N/A"
  }

  /** The follow-up line: a date of exactly three '-'-separated parts is shown with the
      parts reversed (`yyyy-mm-dd` as `dd-mm-yyyy`); any other string is shown as it is. */
  function FollowUpDisplay(s: string): (r: string)
    ensures |Split(s, '-')| != 3 ==> r == s
    ensures var p := Split(s, '-');
      |p| == 3 ==> Split(r, '-') == [p[2], p[1], p[0]]
  {
    var p := Split(s, '-');
    if |p| == 3 then
      var r := p[2] + "-" + p[1] + "-" + p[0];
      JoinThree(p[2], p[1], p[0], '-');
      SplitJoin([p[2], p[1], p[0]], '-');
      r
    else s
  }

  /** `activities.slice(-3)`: the last three activities (all of them when fewer), in order. */
  function LastThree(acts: seq<Activity>): (r: seq<Activity>)
    ensures |r| == if |acts| < 3 then |acts| else 3
    ensures acts == acts[..|acts| - |r|] + r
  {
    if |acts| <= 3 then acts else acts[|acts| - 3..]
  }

  /** The detail panel's activity list: absent when the lead has no activities. */
  function RecentActivities(l: Lead): (r: Option<seq<Activity>>)
    ensures r.None? <==> |Activities(l)| == 0
    ensures r.Some? ==> r.value == LastThree(Activities(l))
  {
    if l.activities.Some? && |l.activities.value| > 0 then Some(LastThree(l.activities.value)) else None
  }

  // ----- Properties -----

  /** Without a search term the page lists the whole store. */
  lemma EmptyTermListsAll(leads: seq<Lead>)
    ensures AllLeads(leads, "") == leads
    ensures ActiveLeads(leads, "") == Seqs.Filter(leads, Open)
  {
  }

  /** The active tab is the all tab with the done leads removed. */
  lemma ActiveIsAllWithoutDone(leads: seq<Lead>, term: string)
    ensures ActiveLeads(leads, term) == Seqs.Filter(AllLeads(leads, term), Open)
    ensures Seqs.IsSubseq(ActiveLeads(leads, term), AllLeads(leads, term))
  {
    if term != "" {
      Seqs.FilterCommute(leads, Open, Matcher(term));
    }
  }

  /** Whatever the store's search finds, the page's search finds. */
  lemma StoreMatchFoundOnPage(l: Lead, term: string)
    requires Search.StoreSearchMatch(l, term)
    ensures PageSearchMatch(l, term)
  {
    var fields := Search.StoreFields(l);
    if !(IsDigitString(term) && Search.AnyPhoneDigitsContain(Search.PhoneCandidates(l), term)) {
      assert Search.AnyFieldContains(fields, ToLower(term));
      var i :| 0 <= i < |fields| && Contains(ToLower(fields[i]), ToLower(term));
      assert fields[i] in PageFields(l);
      PageSearchMatchIff(l, term);
    }
  }

  /** A term found only in the status (such as "new" for a New lead) is missed by the
      store's search but includes the lead on this page. */
  lemma StatusOnlyMatch(l: Lead, term: string)
    requires !IsDigitString(term)
    requires Contains(ToLower(StatusLabel(l.status)), ToLower(term))
    requires forall s :: s in Search.StoreFields(l) ==> !Contains(ToLower(s), ToLower(term))
    ensures !Search.StoreSearchMatch(l, term)
    ensures PageSearchMatch(l, term)
  {
    Search.StoreSearchMiss(l, term);
    assert StatusLabel(l.status) in PageFields(l);
    PageSearchMatchIff(l, term);
  }

  /** The phone line agrees with the number the form stores as main, or says 'N/A'. */
  lemma PhoneDisplayMatchesStoredMain(l: Lead)
    requires |Numbers(l)| > 0
    ensures var stored := LeadForm.MainMobileNumber(Numbers(l));
      MainPhoneDisplay(l) == if stored != "" then stored else "N/A"
  {
  }

  /** Swapping the parts twice gives the date back. */
  lemma FollowUpDisplayInvolution(s: string)
    ensures FollowUpDisplay(FollowUpDisplay(s)) == s
  {
    var p := Split(s, '-');
    if |p| == 3 {
      var r := FollowUpDisplay(s);
      assert Split(r, '-') == [p[2], p[1], p[0]];
      assert FollowUpDisplay(r) == p[0] + "-" + p[1] + "-" + p[2];
      assert p == [p[0], p[1], p[2]];
      JoinThree(p[0], p[1], p[2], '-');
    }
  }

  /** A `yyyy-mm-dd` date is shown as `dd-mm-yyyy`. */
  lemma IsoShownDayFirst(y: string, m: string, d: string)
    requires '-' !in y && '-' !in m && '-' !in d
    ensures FollowUpDisplay(y + "-" + m + "-" + d) == d + "-" + m + "-" + y
  {
    JoinThree(y, m, d, '-');
    SplitJoin([y, m, d], '-');
  }
}
