/** The records of the lead tracker: leads with their phone numbers and
    activity trail, the filter criteria of the lead table, and saved views. */
module LeadModel {
  import opened Wrappers

  /** One phone number of a lead; `name` is the contact person it belongs to. */
  datatype MobileNumber = MobileNumber(id: string, number: string, name: Option<string>, isMain: bool)

  datatype UnitType = NewUnit | ExistingUnit | OtherUnit

  /** The workflow stage of a lead. */
  datatype Status = StatusNew | Contacted | InProgress | FollowUp | ClosedWon | ClosedLost

  /** The text a status is stored and displayed as. */
  function StatusLabel(s: Status): (r: string)
    ensures r != ""
  {
    match s
    case StatusNew => "New"
    case Contacted => "Contacted"
    case InProgress => "In Progress"
    case FollowUp => "Follow-up"
    case ClosedWon => "Closed - Won"
    case ClosedLost => "Closed - Lost"
  }

  datatype MandateStatus = MandatePending | MandateInProgress | MandateCompleted

  datatype DocumentStatus = PendingDocuments | DocumentsSubmitted | DocumentsReviewed | SignedMandate

  /** One entry of a lead's audit trail. */
  datatype Activity = Activity(id: string, leadId: string, description: string, timestamp: string)

  /** A lead. `mobileNumber` is the legacy single-number field kept beside the list;
      fields the record may leave undefined are `Option`s. */
  datatype Lead = Lead(
    id: string,
    kva: string,
    connectionDate: string,
    consumerNumber: string,
    company: string,
    clientName: string,
    mobileNumbers: Option<seq<MobileNumber>>,
    mobileNumber: string,
    companyLocation: Option<string>,
    unitType: UnitType,
    marketingObjective: Option<string>,
    budget: Option<string>,
    timeline: Option<string>,
    status: Status,
    contactOwner: Option<string>,
    lastActivityDate: string,
    followUpDate: string,
    finalConclusion: Option<string>,
    notes: Option<string>,
    isDone: bool,
    activities: Option<seq<Activity>>,
    mandateStatus: Option<MandateStatus>,
    documentStatus: Option<DocumentStatus>)

  /** `lead.mobileNumbers || []` */
  function Numbers(l: Lead): seq<MobileNumber> {
    l.mobileNumbers.GetOr([])
  }

  /** `lead.activities || []` */
  function Activities(l: Lead): seq<Activity> {
    l.activities.GetOr([])
  }

  /** Filter criteria of the lead table; every criterion is optional. */
  datatype LeadFilters = LeadFilters(
    status: Option<seq<Status>>,
    followUpDateStart: Option<string>,
    followUpDateEnd: Option<string>,
    searchTerm: Option<string>)

  const NoFilters := LeadFilters(None, None, None, None)

  /** A named filter preset. */
  datatype SavedView = SavedView(id: string, name: string, filters: LeadFilters)

  /** A list ordering chosen on a page: `'asc'` or `'desc'`. */
  datatype SortOrder = Asc | Desc

  /** JavaScript truthiness of an optional string: present and non-empty. */
  predicate Truthy(o: Option<string>) {
    o.Some? && o.value != ""
  }

  /** JavaScript's `a || b` with an optional string on the left. */
  function Or(a: Option<string>, b: string): string {
    if Truthy(a) then a.value else b
  }
}
