/** The add-lead form: its validator, the phone-number list editors, loading a
    stored lead for editing, and the lead a submission builds. The clock, the
    UUID generator and `toISOString()` enter as parameters. */
module LeadForm {
  import opened Wrappers
  import opened LeadModel
  import opened Strings
  import opened MobileNumbers
  import Dates
  import LeadStore

  /** The form's fields. Its phone numbers carry no contact name. */
  datatype FormData = FormData(
    kva: string,
    connectionDate: string,
    consumerNumber: string,
    company: string,
    clientName: string,
    mobileNumber: string,
    mobileNumbers: seq<MobileNumber>,
    companyLocation: string,
    unitType: UnitType,
    status: Status,
    lastActivityDate: string,
    followUpDate: string,
    finalConclusion: string,
    notes: string)

  /** Three empty slots, the first flagged main. */
  const EmptySlots := [
    MobileNumber("1", "", None, true),
    MobileNumber("2", "", None, false),
    MobileNumber("3", "", None, false)]

  const EmptyForm := FormData("", "", "", "", "", "", EmptySlots, "", NewUnit, StatusNew, "", "", "", "")

  // ----- Validation -----

  /** One entry of the error record `validateForm` builds. */
  datatype FieldError =
    | KvaRequired
    | ConsumerNumberRequired
    | ConsumerNumberInvalid
    | CompanyRequired
    | ClientNameRequired
    | MobileNumberRequired
    | MobileNumberInvalid(index: nat)  // the key `mobileNumber_<index>`
    | ConnectionDateInvalid
    | FollowUpDatePast

  /** A non-blank value whose trimmed text is made of digits, white space, `-`, `+` and parentheses. */
  predicate ValidPhone(s: string) {
    !IsBlank(s) && MatchesPhonePattern(Trim(s))
  }

  /** A non-blank phone entry the pattern rejects. */
  predicate BadPhone(s: string) {
    !IsBlank(s) && !MatchesPhonePattern(Trim(s))
  }

  /** What an acceptable form is, field by field. */
  predicate FormAcceptable(form: FormData, todayIso: string) {
    && !IsBlank(form.kva)
    && ValidPhone(form.consumerNumber)
    && !IsBlank(form.company)
    && !IsBlank(form.clientName)
    && (exists i :: 0 <= i < |form.mobileNumbers| && ValidPhone(form.mobileNumbers[i].number))
    && (forall i :: 0 <= i < |form.mobileNumbers| ==> !BadPhone(form.mobileNumbers[i].number))
    && (form.connectionDate == "" || MatchesDayFirstPattern(form.connectionDate))
    && (form.followUpDate == "" || !Less(form.followUpDate, todayIso))
  }

  /** The keys of the error record for the kva, consumer-number, company and client-name
      checks, in the order they are set. */
  function RequiredFieldErrors(form: FormData): (r: seq<FieldError>)
    ensures r == [] <==> !IsBlank(form.kva) && ValidPhone(form.consumerNumber) && !IsBlank(form.company) && !IsBlank(form.clientName)
    ensures forall i: nat :: MobileNumberInvalid(i) !in r
  {
    (if IsBlank(form.kva) then [KvaRequired] else [])
    + (if IsBlank(form.consumerNumber) then [ConsumerNumberRequired]
       else if !MatchesPhonePattern(Trim(form.consumerNumber)) then [ConsumerNumberInvalid]
       else [])
    + (if IsBlank(form.company) then [CompanyRequired] else [])
    + (if IsBlank(form.clientName) then [ClientNameRequired] else [])
  }

  /** One `mobileNumber_<index>` key per non-blank entry from position `k` on that the pattern rejects. */
  function InvalidNumberErrors(nums: seq<MobileNumber>, k: nat): (r: seq<FieldError>)
    requires k <= |nums|
    ensures forall i: nat :: MobileNumberInvalid(i) in r <==> k <= i < |nums| && BadPhone(nums[i].number)
    ensures r == [] <==> forall i :: k <= i < |nums| ==> !BadPhone(nums[i].number)
    decreases |nums| - k
  {
    if k == |nums| then []
    else
      var rest := InvalidNumberErrors(nums, k + 1);
      var bad := BadPhone(nums[k].number);
      var r := if bad then [MobileNumberInvalid(k)] + rest else rest;
      assert forall i: nat :: MobileNumberInvalid(i) in r <==> MobileNumberInvalid(i) in rest || (bad && i == k);
      r
  }

  /** `some(mobile => ...)`: an entry from position `k` on holds an acceptable number. */
  function HasValidNumber(nums: seq<MobileNumber>, k: nat): (b: bool)
    requires k <= |nums|
    ensures b <==> exists i :: k <= i < |nums| && ValidPhone(nums[i].number)
    decreases |nums| - k
  {
    if k == |nums| then false else ValidPhone(nums[k].number) || HasValidNumber(nums, k + 1)
  }

  /** The keys for the connection-date and follow-up-date checks. */
  function DateErrors(form: FormData, todayIso: string): (r: seq<FieldError>)
    ensures forall i: nat :: MobileNumberInvalid(i) !in r
    ensures r == [] <==>
      (form.connectionDate == "" || MatchesDayFirstPattern(form.connectionDate))
      && (form.followUpDate == "" || !Less(form.followUpDate, todayIso))
  {
    (if form.connectionDate != "" && !MatchesDayFirstPattern(form.connectionDate) then [ConnectionDateInvalid] else [])
    + (if form.followUpDate != "" && Less(form.followUpDate, todayIso) then [FollowUpDatePast] else [])
  }

  /** `validateForm`: the keys of the error record, in the order they are set; the form
      passes when there are none. `todayIso` is today's UTC date as `YYYY-MM-DD`. */
  function ValidateForm(form: FormData, todayIso: string): (r: seq<FieldError>)
    ensures r == [] <==> FormAcceptable(form, todayIso)
  {
    var nums := form.mobileNumbers;
    var fields := RequiredFieldErrors(form);
    var invalid := InvalidNumberErrors(nums, 0);
    var dates := DateErrors(form, todayIso);
    var required := if HasValidNumber(nums, 0) then [] else [MobileNumberRequired];
    var r := fields + required + invalid + dates;
    assert |r| == |fields| + |required| + |invalid| + |dates|;
    AcceptableByParts(form, todayIso);
    r
  }

  /** The acceptability of a form, check by check. */
  lemma AcceptableByParts(form: FormData, todayIso: string)
    ensures FormAcceptable(form, todayIso) <==>
      && RequiredFieldErrors(form) == []
      && HasValidNumber(form.mobileNumbers, 0)
      && InvalidNumberErrors(form.mobileNumbers, 0) == []
      && DateErrors(form, todayIso) == []
  {
  }

  // ----- The phone-number list -----

  /** `handleMobileNumberChange`: entry `index` gets the number `value`. */
  function HandleMobileNumberChange(nums: seq<MobileNumber>, index: int, value: string): (r: seq<MobileNumber>)
    ensures |r| == |nums|
    ensures forall i :: 0 <= i < |r| ==> r[i].id == nums[i].id && r[i].isMain == nums[i].isMain && r[i].name == nums[i].name
    ensures forall i :: 0 <= i < |r| && i != index ==> r[i] == nums[i]
    ensures 0 <= index < |r| ==> r[index].number == value
  {
    seq(|nums|, i requires 0 <= i < |nums| => if i == index then nums[i].(number := value) else nums[i])
  }

  /** `handleMainMobileNumberChange`: entry `index` becomes the only main entry. */
  function HandleMainMobileNumberChange(nums: seq<MobileNumber>, index: int): (r: seq<MobileNumber>)
    ensures |r| == |nums|
    ensures forall i :: 0 <= i < |r| ==> r[i].id == nums[i].id && r[i].number == nums[i].number && r[i].name == nums[i].name
    ensures forall i :: 0 <= i < |r| ==> (r[i].isMain <==> i == index)
  {
    seq(|nums|, i requires 0 <= i < |nums| => nums[i].(isMain := i == index))
  }

  /** The number stored in a lead's legacy `mobileNumber` field: the first main entry's
      number, else the first entry's number, else the empty string. */
  function MainMobileNumber(nums: seq<MobileNumber>): (r: string)
    ensures r == "" || exists i :: 0 <= i < |nums| && nums[i].number == r
    ensures forall k ::
      (0 <= k < |nums| && nums[k].isMain && nums[k].number != "" && (forall j :: 0 <= j < k ==> !nums[j].isMain))
      ==> r == nums[k].number
    ensures (forall k :: 0 <= k < |nums| && nums[k].isMain && (forall j :: 0 <= j < k ==> !nums[j].isMain)
               ==> nums[k].number == "")
      ==> r == (if |nums| > 0 then nums[0].number else "")
  {
    forall k | 0 <= k < |nums| && nums[k].isMain && (forall j :: 0 <= j < k ==> !nums[j].isMain)
      ensures MainNumberOf(nums) == Some(nums[k].number)
    {
      MainNumberIsFirstMain(nums, k);
    }
    Or(MainNumberOf(nums), Or(FirstNumber(nums), ""))
  }

  // ----- Loading a lead for editing -----

  /** `extractAddressFromNotes`. Notes without "Address:" give no address and stay as they
      are; otherwise `matchAddress` stands for the regular-expression match, yielding the
      address and the cleaned notes, or `None` when it does not match. */
  function ExtractAddressFromNotes(notes: string, matchAddress: string -> Option<(string, string)>): (r: (string, string))
    ensures !Contains(notes, "Address:") ==> r == ("", notes)
  {
    if !Contains(notes, "Address:") then ("", notes)
    else
      match matchAddress(notes)
      case Some(found) => found
      case None => ("", notes)
  }

  /** The stored phone list as the form shows it: an entry without an id gets its
      one-based position as id, and contact names are dropped. */
  function SlotsOf(nums: seq<MobileNumber>): (r: seq<MobileNumber>)
    ensures |r| == |nums|
    ensures forall i :: 0 <= i < |r| ==> r[i].number == nums[i].number && r[i].isMain == nums[i].isMain && r[i].name == None
    ensures forall i :: 0 <= i < |r| ==> r[i].id == (if nums[i].id == "" then NatToString(i + 1) else nums[i].id)
  {
    seq(|nums|, i requires 0 <= i < |nums| =>
      MobileNumber(if nums[i].id == "" then NatToString(i + 1) else nums[i].id, nums[i].number, None, nums[i].isMain))
  }

  /** The edit-mode load: a lead becomes form data; a legacy lead with only
      `mobileNumber` gets it in the first slot, flagged main. */
  function LoadForEdit(lead: Lead, matchAddress: string -> Option<(string, string)>): (r: FormData)
    ensures lead.mobileNumbers.Some? ==> r.mobileNumbers == SlotsOf(lead.mobileNumbers.value)
    ensures lead.mobileNumbers.None? && lead.mobileNumber != "" ==>
      r.mobileNumbers == [MobileNumber("1", lead.mobileNumber, None, true)] + EmptySlots[1..]
    ensures lead.mobileNumbers.None? && lead.mobileNumber == "" ==> r.mobileNumbers == EmptySlots
  {
    var extracted := ExtractAddressFromNotes(lead.notes.GetOr(""), matchAddress);
    var nums :=
      if lead.mobileNumbers.Some? then SlotsOf(lead.mobileNumbers.value)
      else if lead.mobileNumber != "" then EmptySlots[0 := MobileNumber("1", lead.mobileNumber, None, true)]
      else EmptySlots;
    FormData(
      lead.kva, lead.connectionDate, lead.consumerNumber, lead.company, lead.clientName,
      lead.mobileNumber, nums, Or(lead.companyLocation, extracted.0), lead.unitType, lead.status,
      lead.lastActivityDate, lead.followUpDate, lead.finalConclusion.GetOr(""), extracted.1)
  }

  // ----- Submission -----

  /** The local calendar date read from the clock. */
  datatype Clock = Clock(year: nat, month: nat, day: nat)

  /** `day + '-' + month + '-' + year` with day and month padded to two digits. */
  function DateStamp(day: nat, month: nat, year: nat): (r: string)
    ensures 1 <= day <= 99 && 1 <= month <= 12 ==>
      Split(r, '-') == [PadStart2(NatToString(day)), PadStart2(NatToString(month)), NatToString(year)]
    ensures 1 <= day <= 99 && 1 <= month <= 12 && 1000 <= year <= 9999 ==> MatchesDayFirstPattern(r)
  {
    var d := PadStart2(NatToString(day));
    var m := PadStart2(NatToString(month));
    var y := NatToString(year);
    assert 1 <= day <= 99 && 1 <= month <= 12 ==>
      && Split(d + "-" + m + "-" + y, '-') == [d, m, y]
      && (1000 <= year <= 9999 ==> MatchesDayFirstPattern(d + "-" + m + "-" + y))
    by {
      if 1 <= day <= 99 && 1 <= month <= 12 {
        StampShape(day, month, year);
      }
    }
    d + "-" + m + "-" + y
  }

  /** A day or month in 1..99 pads to two digits. */
  lemma PaddedTwoDigits(n: nat)
    requires 1 <= n <= 99
    ensures var p := PadStart2(NatToString(n)); |p| == 2 && IsDigit(p[0]) && IsDigit(p[1]) && '-' !in p
  {
    NatToStringWidth(n);
  }

  /** The parts of a stamp hold no '-', so splitting it gives them back. */
  lemma StampShape(day: nat, month: nat, year: nat)
    requires 1 <= day <= 99 && 1 <= month <= 12
    ensures var d := PadStart2(NatToString(day)); var m := PadStart2(NatToString(month)); var y := NatToString(year);
      && Split(d + "-" + m + "-" + y, '-') == [d, m, y]
      && (1000 <= year <= 9999 ==> MatchesDayFirstPattern(d + "-" + m + "-" + y))
  {
    var d := PadStart2(NatToString(day));
    var m := PadStart2(NatToString(month));
    var y := NatToString(year);
    PaddedTwoDigits(day);
    PaddedTwoDigits(month);
    assert '-' !in y;
    SplitThree(d, m, y);
    if 1000 <= year <= 9999 {
      NatToStringWidth(year);
      StampPattern(d, m, y);
    }
  }

  /** Two digits, '-', two digits, '-', four digits. */
  lemma StampPattern(d: string, m: string, y: string)
    requires |d| == 2 && IsDigit(d[0]) && IsDigit(d[1])
    requires |m| == 2 && IsDigit(m[0]) && IsDigit(m[1])
    requires |y| == 4 && forall i :: 0 <= i < 4 ==> IsDigit(y[i])
    ensures MatchesDayFirstPattern(d + "-" + m + "-" + y)
  {
    var s := d + "-" + m + "-" + y;
    assert s[6..] == y;
    forall i | 0 <= i < 10 && i != 2 && i != 5 ensures IsDigit(s[i]) {
      if i >= 6 {
        assert s[i] == y[i - 6];
      }
    }
  }

  /** The lead record a submission stores, with the given id and activity trail. */
  function BuildLead(form: FormData, id: string, currentDate: string, activities: Option<seq<Activity>>): (r: Lead)
    ensures r.id == id && !r.isDone && r.activities == activities
    ensures r.mandateStatus == Some(MandatePending) && r.documentStatus == Some(PendingDocuments)
    ensures r.lastActivityDate == currentDate && r.mobileNumber == MainMobileNumber(form.mobileNumbers)
    ensures && r.kva == form.kva && r.connectionDate == form.connectionDate
            && r.consumerNumber == form.consumerNumber && r.company == form.company
            && r.clientName == form.clientName && r.mobileNumbers == Some(form.mobileNumbers)
            && r.companyLocation == Some(form.companyLocation) && r.unitType == form.unitType
            && r.status == form.status && r.followUpDate == form.followUpDate
            && r.finalConclusion == Some(form.finalConclusion) && r.notes == Some(form.notes)
    ensures r.marketingObjective.None? && r.budget.None? && r.timeline.None? && r.contactOwner.None?
  {
    Lead(
      id, form.kva, form.connectionDate, form.consumerNumber, form.company, form.clientName,
      Some(form.mobileNumbers), MainMobileNumber(form.mobileNumbers), Some(form.companyLocation), form.unitType,
      None, None, None, form.status, None, currentDate, form.followUpDate,
      Some(form.finalConclusion), Some(form.notes), false, activities, Some(MandatePending), Some(PendingDocuments))
  }

  /** A new lead: one "Lead created" activity that points back at the lead. */
  function NewLead(form: FormData, leadId: string, activityId: string, timestamp: string, currentDate: string): (r: Lead)
    ensures r.id == leadId && !r.isDone
    ensures r.documentStatus == Some(PendingDocuments) && r.mandateStatus == Some(MandatePending)
    ensures |Activities(r)| == 1 && Activities(r)[0].leadId == r.id && Activities(r)[0].description == "Lead created"
  {
    BuildLead(form, leadId, currentDate, Some([Activity(activityId, leadId, "Lead created", timestamp)]))
  }

  /** An edited lead keeps its id and is rebuilt without an activities field. */
  function EditedLead(form: FormData, id: string, currentDate: string): (r: Lead)
    ensures r.id == id && !r.isDone && r.activities.None?
    ensures r.documentStatus == Some(PendingDocuments) && r.mandateStatus == Some(MandatePending)
  {
    BuildLead(form, id, currentDate, None)
  }

  datatype Submission = Rejected(errors: seq<FieldError>) | Saved(leads: seq<Lead>)

  /** The store after an accepted submission: in edit mode with an editing id the lead
      with that id is replaced, otherwise a new lead is appended. */
  function Save(leads: seq<Lead>, form: FormData, editingId: Option<string>, currentDate: string,
                freshLeadId: string, freshActivityId: string, timestamp: string): (r: seq<Lead>)
    ensures Truthy(editingId) ==>
      && |r| == |leads|
      && (forall i :: 0 <= i < |leads| ==> r[i].id == leads[i].id)
      && (forall i :: 0 <= i < |leads| && leads[i].id != editingId.value ==> r[i] == leads[i])
      && (forall i :: 0 <= i < |leads| && leads[i].id == editingId.value ==>
            r[i].lastActivityDate == currentDate && !r[i].isDone)
      && (forall i :: 0 <= i < |leads| && leads[i].id == editingId.value ==>
            r[i] == EditedLead(form, editingId.value, currentDate))
    ensures !Truthy(editingId) ==>
      && |r| == |leads| + 1 && r[..|leads|] == leads
      && r[|leads|].id == freshLeadId && r[|leads|].lastActivityDate == currentDate
      && r[|leads|] == NewLead(form, freshLeadId, freshActivityId, timestamp, currentDate)
  {
    if Truthy(editingId) then
      LeadStore.UpdateLead(leads, EditedLead(form, editingId.value, currentDate))
    else
      LeadStore.AddLead(leads, NewLead(form, freshLeadId, freshActivityId, timestamp, currentDate))
  }

  /** `handleSubmit`: an invalid form is rejected with the validator's errors; an
      acceptable one is saved, stamped with the clock's date. */
  function Submit(leads: seq<Lead>, form: FormData, editingId: Option<string>, todayIso: string, now: Clock,
                  freshLeadId: string, freshActivityId: string, timestamp: string): (r: Submission)
    ensures r.Rejected? <==> !FormAcceptable(form, todayIso)
    ensures r.Rejected? ==> r.errors == ValidateForm(form, todayIso) && r.errors != []
    ensures r.Saved? ==>
      r.leads == Save(leads, form, editingId, DateStamp(now.day, now.month, now.year), freshLeadId, freshActivityId, timestamp)
  {
    var errors := ValidateForm(form, todayIso);
    if errors != [] then Rejected(errors)
    else Saved(Save(leads, form, editingId, DateStamp(now.day, now.month, now.year), freshLeadId, freshActivityId, timestamp))
  }

  // ----- Properties -----

  /** Selecting a non-empty entry as main makes it the stored number. */
  lemma SelectedMainIsStored(nums: seq<MobileNumber>, index: int)
    requires 0 <= index < |nums| && nums[index].number != ""
    ensures MainMobileNumber(HandleMainMobileNumberChange(nums, index)) == nums[index].number
  {
    var r := HandleMainMobileNumberChange(nums, index);
    assert r[index].isMain && r[index].number != "";
  }

  /** Exactly one entry is main after a selection in range. */
  lemma SelectionLeavesOneMain(nums: seq<MobileNumber>, index: int)
    requires 0 <= index < |nums|
    ensures var r := HandleMainMobileNumberChange(nums, index);
      FirstMainIndex(r) == Some(index as nat) && forall i :: index < i < |r| ==> !r[i].isMain
  {
    var r := HandleMainMobileNumberChange(nums, index);
    assert r[index].isMain;
    var k := FirstMainIndex(r).value;
    assert !(k < index) && !(index < k);
  }

  /** Editing a number leaves the main selection where it was. */
  lemma NumberChangeKeepsMain(nums: seq<MobileNumber>, index: int, value: string)
    ensures FirstMainIndex(HandleMobileNumberChange(nums, index, value)) == FirstMainIndex(nums)
  {
    var r := HandleMobileNumberChange(nums, index, value);
    match FirstMainIndex(nums)
    case None =>
    case Some(k) =>
      assert r[k].isMain && forall j :: 0 <= j < k ==> !r[j].isMain;
      var k' := FirstMainIndex(r).value;
      assert !(k' < k) && !(k < k');
  }

  /** A legacy lead's single number comes back as the stored main number. */
  lemma LegacyNumberIsMain(lead: Lead, matchAddress: string -> Option<(string, string)>)
    requires lead.mobileNumbers.None? && lead.mobileNumber != ""
    ensures MainMobileNumber(LoadForEdit(lead, matchAddress).mobileNumbers) == lead.mobileNumber
  {
    var nums := LoadForEdit(lead, matchAddress).mobileNumbers;
    assert nums[0].isMain;
  }

  /** Loading a lead and saving it unchanged keeps its id, its identifying fields and
      its follow-up date; its notes survive when they carry no address. */
  lemma EditRoundTrip(lead: Lead, matchAddress: string -> Option<(string, string)>, currentDate: string)
    ensures var e := EditedLead(LoadForEdit(lead, matchAddress), lead.id, currentDate);
      && e.id == lead.id && e.kva == lead.kva && e.company == lead.company && e.clientName == lead.clientName
      && e.consumerNumber == lead.consumerNumber && e.connectionDate == lead.connectionDate
      && e.followUpDate == lead.followUpDate && e.status == lead.status && e.unitType == lead.unitType
      && (lead.notes.Some? && !Contains(lead.notes.value, "Address:") ==> e.notes == lead.notes)
  {
  }

  /** Saving a new lead and loading it for editing gives the form back: the same kVA,
      company, client name, consumer number, dates, status and unit type, the same
      location when one was entered, the same conclusion, the notes when they carry no
      address, and the same number slots (up to ids the form left empty, which load as
      positions). */
  lemma NewLeadLoadsBack(form: FormData, leadId: string, activityId: string, timestamp: string,
                         currentDate: string, matchAddress: string -> Option<(string, string)>)
    ensures var f := LoadForEdit(NewLead(form, leadId, activityId, timestamp, currentDate), matchAddress);
      && f.kva == form.kva && f.company == form.company && f.clientName == form.clientName
      && f.consumerNumber == form.consumerNumber && f.connectionDate == form.connectionDate
      && f.followUpDate == form.followUpDate && f.status == form.status && f.unitType == form.unitType
      && f.finalConclusion == form.finalConclusion && f.lastActivityDate == currentDate
      && f.mobileNumber == MainMobileNumber(form.mobileNumbers)
      && (form.companyLocation != "" ==> f.companyLocation == form.companyLocation)
      && (!Contains(form.notes, "Address:") ==> f.notes == form.notes)
      && f.mobileNumbers == SlotsOf(form.mobileNumbers)
    ensures (forall i :: 0 <= i < |form.mobileNumbers| ==> form.mobileNumbers[i].id != "" && form.mobileNumbers[i].name.None?) ==>
      LoadForEdit(NewLead(form, leadId, activityId, timestamp, currentDate), matchAddress).mobileNumbers == form.mobileNumbers
  {
    var f := LoadForEdit(NewLead(form, leadId, activityId, timestamp, currentDate), matchAddress);
    if forall i :: 0 <= i < |form.mobileNumbers| ==> form.mobileNumbers[i].id != "" && form.mobileNumbers[i].name.None? {
      assert forall i :: 0 <= i < |f.mobileNumbers| ==> f.mobileNumbers[i] == form.mobileNumbers[i];
    }
  }

  /** The stamp reads back day-first as the clock's date (years below 100 would be read
      as 19xx, so the year is at least 100). */
  lemma StampReadsBack(day: nat, month: nat, year: nat, native: string -> Option<int>)
    requires 1 <= day <= 99 && 1 <= month <= 12 && year >= 100
    ensures Dates.FollowUpDay(DateStamp(day, month, year), native) == Dates.TimeClip(Dates.MakeDay(year, month - 1, day))
  {
    var s := DateStamp(day, month, year);
    var d := PadStart2(NatToString(day));
    var m := PadStart2(NatToString(month));
    var y := NatToString(year);
    NatToStringWidth(day);
    assert '-' in s by { assert s[|d|] == '-'; }
    assert Dates.ClassifyFollowUpDate(s) == Dates.DayFirst(d, m, y);
    ParsePadStart2(day);
    ParsePadStart2(month);
    ParseNatToString(year);
  }

  /** A submission of an acceptable form as a new lead stores the stamp, not the form's
      last-activity field. */
  lemma StampIgnoresFormInput(leads: seq<Lead>, form: FormData, todayIso: string, now: Clock,
                              leadId: string, activityId: string, timestamp: string)
    requires FormAcceptable(form, todayIso)
    ensures var r := Submit(leads, form, None, todayIso, now, leadId, activityId, timestamp);
      r.Saved? && r.leads[|leads|].lastActivityDate == DateStamp(now.day, now.month, now.year)
  {
  }
}
