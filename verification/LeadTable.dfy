/** The lead table: click-to-sort column headers, the sorted rows, and the cell
    formatting of dates and the main phone number. `localeCompare` is taken as
    code-unit order, and `toLocaleDateString` enters as the parameter `display`. */
module LeadTable {
  import opened Wrappers
  import opened LeadModel
  import opened Strings
  import Seqs
  import Dates
  import MobileNumbers
  import LeadForm

  /** A lead field the rows may be sorted by: the nine column headers, and the optional
      fields, which a lead may leave undefined. `NoField` is the unsorted table. */
  datatype SortField =
    | NoField
    | KvaField | ConnectionDateField | ConsumerNumberField | CompanyField | ClientNameField
    | MobileNumberField | StatusField | LastActivityDateField | FollowUpDateField
    | CompanyLocationField | NotesField | FinalConclusionField

  predicate IsHeader(f: SortField) {
    !f.NoField? && !f.CompanyLocationField? && !f.NotesField? && !f.FinalConclusionField?
  }

  /** `lead[field]`, `None` when undefined. */
  function FieldValue(l: Lead, f: SortField): (r: Option<string>)
    ensures IsHeader(f) ==> r.Some?
  {
    match f
    case NoField => None
    case KvaField => Some(l.kva)
    case ConnectionDateField => Some(l.connectionDate)
    case ConsumerNumberField => Some(l.consumerNumber)
    case CompanyField => Some(l.company)
    case ClientNameField => Some(l.clientName)
    case MobileNumberField => Some(l.mobileNumber)
    case StatusField => Some(StatusLabel(l.status))
    case LastActivityDateField => Some(l.lastActivityDate)
    case FollowUpDateField => Some(l.followUpDate)
    case CompanyLocationField => l.companyLocation
    case NotesField => l.notes
    case FinalConclusionField => l.finalConclusion
  }

  /** The header state: the sorted field and the direction. */
  datatype SortState = SortState(field: SortField, direction: SortOrder)

  const InitialSort := SortState(NoField, Asc)

  function Flip(d: SortOrder): SortOrder {
    if d == Asc then Desc else Asc
  }

  /** `handleSort`: clicking the sorted column flips the direction; clicking another
      column sorts by it ascending. */
  function HandleSort(s: SortState, field: SortField): (r: SortState)
    ensures r.field == field
    ensures s.field == field ==> r.direction != s.direction
    ensures s.field != field ==> r.direction == Asc
  {
    if s.field == field then SortState(field, Flip(s.direction)) else SortState(field, Asc)
  }

  /** The sort comparator: 0 when either value is undefined, otherwise the string
      comparison, negated for a descending sort. */
  function RowCompare(f: SortField, d: SortOrder, a: Lead, b: Lead): int {
    match (FieldValue(a, f), FieldValue(b, f))
    case (Some(x), Some(y)) => if d == Asc then Compare(x, y) else -Compare(x, y)
    case _ => 0
  }

  function Comparator(f: SortField, d: SortOrder): (Lead, Lead) -> int {
    (a: Lead, b: Lead) => RowCompare(f, d, a, b)
  }

  lemma ComparatorAntisymmetric(f: SortField, d: SortOrder)
    ensures Seqs.Antisymmetric(Comparator(f, d))
  {
    forall a: Lead, b: Lead ensures Comparator(f, d)(a, b) == -Comparator(f, d)(b, a) {
      match (FieldValue(a, f), FieldValue(b, f))
      case (Some(x), Some(y)) => CompareAntisymmetric(x, y);
      case _ =>
    }
  }

  /** `sortedLeads`: the filtered rows unchanged when no field is chosen, otherwise the
      same rows with neighbours in order wherever both values are defined. */
  function SortedLeads(filtered: seq<Lead>, s: SortState): (r: seq<Lead>)
    ensures s.field == NoField ==> r == filtered
    ensures multiset(r) == multiset(filtered)
    ensures s.field != NoField ==> forall i :: 0 <= i < |r| - 1 ==> RowCompare(s.field, s.direction, r[i], r[i + 1]) <= 0
  {
    if s.field == NoField then filtered
    else
      var cmp := Comparator(s.field, s.direction);
      ComparatorAntisymmetric(s.field, s.direction);
      var r := Seqs.Sort(filtered, cmp);
      assert Seqs.AdjacentSorted(r, cmp);
      assert forall i :: 0 <= i < |r| - 1 ==> cmp(r[i], r[i + 1]) <= 0;
      r
  }

  // ----- Cell formatting -----

  /** `formatDate`: the empty string stays empty; a `DD-MM-YYYY` string is shown as the date
      the `Date` constructor makes of it; any other string is shown as the date `native`
      reads, or unchanged when that is invalid. `display` is `toLocaleDateString`. */
  function FormatDate(s: string, native: string -> Option<int>, display: int -> string): (r: string)
    ensures s == "" ==> r == ""
    ensures s != "" && !MatchesDayFirstPattern(s) && native(s).None? ==> r == s
    ensures s != "" && !MatchesDayFirstPattern(s) && native(s).Some? ==> r == display(native(s).value)
  {
    if s == "" then ""
    else if MatchesDayFirstPattern(s) then
      DayFirstPatternSplit(s);
      var parts := Split(s, '-');
      match Dates.DayFirstDay(parts[0], parts[1], parts[2])
      case Some(t) => display(t)
      case None => "Invalid Date"
    else
      match native(s)
      case Some(t) => display(t)
      case None => s
  }

  /** The mobile cell: the first main number, else the legacy number, without dashes. */
  function MobileCell(l: Lead): (r: string)
    ensures '-' !in r
    ensures var shown := Or(MobileNumbers.MainNumberOf(Numbers(l)), l.mobileNumber);
      Seqs.IsSubseq(r, shown) && forall c :: c != '-' ==> multiset(r)[c] == multiset(shown)[c]
  {
    RemoveAll(Or(MobileNumbers.MainNumberOf(Numbers(l)), l.mobileNumber), '-')
  }

  // ----- Properties -----

  /** Clicking the same header twice restores the state. */
  lemma TwoClicksRestore(s: SortState)
    ensures HandleSort(HandleSort(s, s.field), s.field) == s
  {
  }

  /** A new column sorts ascending on the first click and descending on the second. */
  lemma NewColumnAscThenDesc(s: SortState, field: SortField)
    requires s.field != field
    ensures HandleSort(s, field) == SortState(field, Asc)
    ensures HandleSort(HandleSort(s, field), field) == SortState(field, Desc)
  {
  }

  /** The descending comparator is the ascending one negated; undefined values tie. */
  lemma DescendingNegatesAscending(f: SortField, a: Lead, b: Lead)
    ensures RowCompare(f, Desc, a, b) == -RowCompare(f, Asc, a, b)
    ensures FieldValue(a, f).None? || FieldValue(b, f).None? ==> RowCompare(f, Asc, a, b) == 0
  {
  }

  /** A header comparator is transitive. */
  lemma HeaderComparatorTransitive(f: SortField, d: SortOrder)
    requires IsHeader(f)
    ensures Seqs.Transitive(Comparator(f, d))
  {
    var cmp := Comparator(f, d);
    forall a: Lead, b: Lead, c: Lead | cmp(a, b) <= 0 && cmp(b, c) <= 0 ensures cmp(a, c) <= 0 {
      var x, y, z := FieldValue(a, f).value, FieldValue(b, f).value, FieldValue(c, f).value;
      if d == Asc {
        CompareTransitive(x, y, z);
      } else {
        CompareAntisymmetric(x, y);
        CompareAntisymmetric(y, z);
        CompareAntisymmetric(x, z);
        CompareTransitive(z, y, x);
      }
    }
  }

  /** Sorted by a column header, every pair of rows is in order, not only neighbours. */
  lemma HeaderSortIsTotal(filtered: seq<Lead>, s: SortState)
    requires IsHeader(s.field)
    ensures var r := SortedLeads(filtered, s);
      forall i, j :: 0 <= i < j < |r| ==> RowCompare(s.field, s.direction, r[i], r[j]) <= 0
  {
    var r := SortedLeads(filtered, s);
    var cmp := Comparator(s.field, s.direction);
    HeaderComparatorTransitive(s.field, s.direction);
    assert Seqs.AdjacentSorted(r, cmp) by {
      forall i | 0 <= i < |r| - 1 ensures cmp(r[i], r[i + 1]) <= 0 {
        assert RowCompare(s.field, s.direction, r[i], r[i + 1]) <= 0;
      }
    }
    Seqs.AdjacentToSorted(r, cmp);
    forall i, j | 0 <= i < j < |r| ensures RowCompare(s.field, s.direction, r[i], r[j]) <= 0 {
      assert cmp(r[i], r[j]) <= 0;
    }
  }

  /** A last-activity stamp with a four-digit year is shown as the clock's date. */
  lemma StampShownAsClockDate(day: nat, month: nat, year: nat, native: string -> Option<int>, display: int -> string)
    requires 1 <= day <= 99 && 1 <= month <= 12 && 1000 <= year <= 9999
    requires Dates.TimeClip(Dates.MakeDay(year, month - 1, day)).Some?
    ensures FormatDate(LeadForm.DateStamp(day, month, year), native, display) == display(Dates.MakeDay(year, month - 1, day))
  {
    var s := LeadForm.DateStamp(day, month, year);
    assert MatchesDayFirstPattern(s) && s != "";
    ParsePadStart2(day);
    ParsePadStart2(month);
    ParseNatToString(year);
  }

  /** A `DD-MM-YYYY` string is formatted without consulting the native parser. */
  lemma DayFirstIgnoresNative(s: string, native1: string -> Option<int>, native2: string -> Option<int>, display: int -> string)
    requires MatchesDayFirstPattern(s)
    ensures FormatDate(s, native1, display) == FormatDate(s, native2, display)
  {
  }
}
