/** The lead store's filter and search engine (`getFilteredLeads`): a status
    filter, a follow-up date range compared as strings, and a two-stage search
    (phone digits first, then case-insensitive text). */
module Search {
  import opened Wrappers
  import opened LeadModel
  import opened Strings
  import Seqs

  /** The numbers of a phone list, in order (`mobileNumbers.map(m => m.number)`). */
  function NumbersOf(ms: seq<MobileNumber>): (r: seq<string>)
    ensures |r| == |ms|
    ensures forall i :: 0 <= i < |ms| ==> r[i] == ms[i].number
  {
    if |ms| == 0 then [] else [ms[0].number] + NumbersOf(ms[1..])
  }

  /** The contact names of a phone list, in order (`mobileNumbers.map(m => m.name)`). */
  function NamesOf(ms: seq<MobileNumber>): (r: seq<Option<string>>)
    ensures |r| == |ms|
    ensures forall i :: 0 <= i < |ms| ==> r[i] == ms[i].name
  {
    if |ms| == 0 then [] else [ms[0].name] + NamesOf(ms[1..])
  }

  /** Every phone number the search looks at: the legacy number, then the list. */
  function PhoneCandidates(l: Lead): (r: seq<string>)
    ensures |r| == |Numbers(l)| + 1
    ensures r[0] == l.mobileNumber
    ensures forall i :: 0 <= i < |Numbers(l)| ==> r[i + 1] == Numbers(l)[i].number
  {
    [l.mobileNumber] + NumbersOf(Numbers(l))
  }

  function Wrap(ss: seq<string>): (r: seq<Option<string>>)
    ensures |r| == |ss|
    ensures forall i :: 0 <= i < |ss| ==> r[i] == Some(ss[i])
  {
    if |ss| == 0 then [] else [Some(ss[0])] + Wrap(ss[1..])
  }

  lemma WrapMembers(ss: seq<string>)
    ensures forall s :: Some(s) in Wrap(ss) <==> s in ss
  {
    forall s ensures Some(s) in Wrap(ss) <==> s in ss {
      var w := Wrap(ss);
      if Some(s) in w {
        var i :| 0 <= i < |w| && w[i] == Some(s);
        assert ss[i] == s;
      }
      if s in ss {
        var i :| 0 <= i < |ss| && ss[i] == s;
        assert w[i] == Some(s);
      }
    }
  }

  /** `.filter(Boolean)`: the present, non-empty strings, in order. */
  function Present(fs: seq<Option<string>>): (r: seq<string>)
    ensures forall i :: 0 <= i < |r| ==> r[i] != ""
    ensures forall s :: s in r <==> s != "" && Some(s) in fs
  {
    if |fs| == 0 then []
    else
      var rest := Present(fs[1..]);
      assert fs == [fs[0]] + fs[1..];
      if Truthy(fs[0]) then [fs[0].value] + rest else rest
  }

  /** The phone-number loop of the digit-only search: some non-empty candidate
      contains `term` once its non-digits are stripped. */
  function AnyPhoneDigitsContain(phones: seq<string>, term: string): (r: bool)
    ensures r <==> exists i :: 0 <= i < |phones| && phones[i] != "" && Contains(DigitsOnly(phones[i]), term)
  {
    if |phones| == 0 then false
    else if phones[0] != "" && Contains(DigitsOnly(phones[0]), term) then true
    else
      var r := AnyPhoneDigitsContain(phones[1..], term);
      assert forall i :: 1 <= i < |phones| ==> phones[i] == phones[1..][i - 1];
      r
  }

  /** `fields.some(f => f.toLowerCase().includes(t))` */
  function AnyFieldContains(fields: seq<string>, t: string): (r: bool)
    ensures r <==> exists i :: 0 <= i < |fields| && Contains(ToLower(fields[i]), t)
  {
    if |fields| == 0 then false
    else if Contains(ToLower(fields[0]), t) then true
    else
      var r := AnyFieldContains(fields[1..], t);
      assert forall i :: 1 <= i < |fields| ==> fields[i] == fields[1..][i - 1];
      r
  }

  /** The text fields the store's search scans: name, company, phone numbers,
      consumer number, kVA, location, notes and conclusion, empty ones dropped. */
  function StoreFields(l: Lead): (r: seq<string>)
    ensures forall s :: s in r <==>
      && s != ""
      && (|| s == l.clientName || s == l.company || s in PhoneCandidates(l)
          || s == l.consumerNumber || s == l.kva
          || Some(s) == l.companyLocation || Some(s) == l.notes || Some(s) == l.finalConclusion)
  {
    Present(StoreCandidates(l))
  }

  /** The candidate fields of the store's search before empty ones are dropped. */
  function StoreCandidates(l: Lead): (r: seq<Option<string>>)
    ensures forall s :: Some(s) in r <==>
      || s == l.clientName || s == l.company || s in PhoneCandidates(l)
      || s == l.consumerNumber || s == l.kva
      || Some(s) == l.companyLocation || Some(s) == l.notes || Some(s) == l.finalConclusion
  {
    WrapMembers(PhoneCandidates(l));
    [Some(l.clientName), Some(l.company)] + Wrap(PhoneCandidates(l))
      + [Some(l.consumerNumber), Some(l.kva), l.companyLocation, l.notes, l.finalConclusion]
  }

  /** The store's search for a non-empty term: for a digit-only term a phone whose digits contain it
      includes the lead at once; otherwise (and as fallback) some field must contain the lower-cased term. */
  function StoreSearchMatch(l: Lead, term: string): (r: bool)
    ensures r <==>
      || (IsDigitString(term) && AnyPhoneDigitsContain(PhoneCandidates(l), term))
      || exists s :: s in StoreFields(l) && Contains(ToLower(s), ToLower(term))
  {
    var fields := StoreFields(l);
    var r := (IsDigitString(term) && AnyPhoneDigitsContain(PhoneCandidates(l), term))
      || AnyFieldContains(fields, ToLower(term));
    assert AnyFieldContains(fields, ToLower(term)) <==> exists s :: s in fields && Contains(ToLower(s), ToLower(term)) by {
      if exists s :: s in fields && Contains(ToLower(s), ToLower(term)) {
        var s :| s in fields && Contains(ToLower(s), ToLower(term));
        var i :| 0 <= i < |fields| && fields[i] == s;
      }
    }
    r
  }

  /** A non-digit term that no field contains does not match. */
  lemma StoreSearchMiss(l: Lead, term: string)
    requires !IsDigitString(term)
    requires forall s :: s in StoreFields(l) ==> !Contains(ToLower(s), ToLower(term))
    ensures !StoreSearchMatch(l, term)
  {
  }

  /** A digit-only term that no phone holds still matches through the text fields, for
      instance a consumer number. */
  lemma DigitTermFallsThrough(l: Lead, term: string)
    requires IsDigitString(term) && l.consumerNumber != ""
    requires Contains(ToLower(l.consumerNumber), ToLower(term))
    ensures StoreSearchMatch(l, term)
  {
    assert l.consumerNumber in StoreFields(l);
  }

  /** The status criterion: no constraint unless a non-empty status list is given. */
  predicate StatusAllowed(l: Lead, f: LeadFilters) {
    !(f.status.Some? && |f.status.value| > 0 && l.status !in f.status.value)
  }

  /** The follow-up range criterion, compared as strings; an empty bound is no bound. */
  predicate InDateRange(l: Lead, f: LeadFilters) {
    && (Truthy(f.followUpDateStart) ==> !Less(l.followUpDate, f.followUpDateStart.value))
    && (Truthy(f.followUpDateEnd) ==> !Less(f.followUpDateEnd.value, l.followUpDate))
  }

  predicate PassesFilters(l: Lead, f: LeadFilters) {
    && StatusAllowed(l, f)
    && InDateRange(l, f)
    && (Truthy(f.searchTerm) ==> StoreSearchMatch(l, f.searchTerm.value))
  }

  /** `getFilteredLeads`: the leads meeting every criterion, in store order. */
  function GetFilteredLeads(leads: seq<Lead>, f: LeadFilters): (r: seq<Lead>)
    ensures Seqs.IsSubseq(r, leads)
    ensures forall i :: 0 <= i < |r| ==>
      && (f.status.Some? && |f.status.value| > 0 ==> r[i].status in f.status.value)
      && (Truthy(f.followUpDateStart) ==> !Less(r[i].followUpDate, f.followUpDateStart.value))
      && (Truthy(f.followUpDateEnd) ==> !Less(f.followUpDateEnd.value, r[i].followUpDate))
      && (Truthy(f.searchTerm) ==> StoreSearchMatch(r[i], f.searchTerm.value))
    ensures forall l :: l in leads ==>
      (l in r <==> StatusAllowed(l, f) && InDateRange(l, f) && (Truthy(f.searchTerm) ==> StoreSearchMatch(l, f.searchTerm.value)))
    ensures forall l :: multiset(r)[l] == if PassesFilters(l, f) then multiset(leads)[l] else 0
  {
    Seqs.FilterCount(leads, (l: Lead) => PassesFilters(l, f));
    Seqs.Filter(leads, (l: Lead) => PassesFilters(l, f))
  }

  // ----- Properties -----

  /** With no criteria every lead is returned, in order. */
  lemma NoFiltersKeepsAll(leads: seq<Lead>)
    ensures GetFilteredLeads(leads, NoFilters) == leads
  {
    Seqs.FilterAll(leads, (l: Lead) => PassesFilters(l, NoFilters));
  }

  /** An empty status list is the same as no status criterion. */
  lemma EmptyStatusListNoConstraint(leads: seq<Lead>, f: LeadFilters)
    ensures GetFilteredLeads(leads, f.(status := Some([]))) == GetFilteredLeads(leads, f.(status := None))
  {
    var f1, f2 := f.(status := Some([])), f.(status := None);
    Seqs.FilterExt(leads, (l: Lead) => PassesFilters(l, f1), (l: Lead) => PassesFilters(l, f2));
    assert GetFilteredLeads(leads, f1) == Seqs.Filter(leads, (l: Lead) => PassesFilters(l, f1));
    assert GetFilteredLeads(leads, f2) == Seqs.Filter(leads, (l: Lead) => PassesFilters(l, f2));
  }

  /** A digit-only term finds a lead (meeting the other criteria) through any phone
      whose digits contain it, whatever punctuation the stored number has. */
  lemma PhoneDigitsFound(leads: seq<Lead>, f: LeadFilters, l: Lead, i: int)
    requires l in leads && StatusAllowed(l, f) && InDateRange(l, f)
    requires f.searchTerm.Some? && IsDigitString(f.searchTerm.value)
    requires 0 <= i < |PhoneCandidates(l)| && PhoneCandidates(l)[i] != ""
    requires Contains(DigitsOnly(PhoneCandidates(l)[i]), f.searchTerm.value)
    ensures l in GetFilteredLeads(leads, f)
  {
  }

  /** The number "98765-43210" is found by the digits "9876543210". */
  lemma PunctuatedPhoneExample(leads: seq<Lead>, l: Lead)
    requires l in leads && l.mobileNumber == "98765-43210"
    ensures l in GetFilteredLeads(leads, NoFilters.(searchTerm := Some("9876543210")))
  {
    var a, b := "98765", "43210";
    assert IsDigitString(a) && IsDigitString(b);
    PunctuatedDigits(a, b);
    assert a + "-" + b == "98765-43210" && a + b == "9876543210";
    assert OccursAt(DigitsOnly(l.mobileNumber), a + b, 0);
    var f := NoFilters.(searchTerm := Some(a + b));
    assert IsDigitString(a + b);
    PhoneDigitsFound(leads, f, l, 0);
  }

  /** Text search ignores case: "acme" matches a lead whose company is "ACME Corp". */
  lemma CaseInsensitiveMatch(l: Lead)
    requires l.company == "ACME Corp"
    ensures StoreSearchMatch(l, "acme")
  {
    AcmeContainsLowered();
    assert l.company in StoreFields(l);
  }

  /** ... and so the store's filter with that search term returns it. */
  lemma CaseInsensitiveExample(leads: seq<Lead>, l: Lead)
    requires l in leads && l.company == "ACME Corp"
    ensures l in GetFilteredLeads(leads, NoFilters.(searchTerm := Some("acme")))
  {
    CaseInsensitiveMatch(l);
  }
}
