/** Lookups on a lead's list of phone numbers shared by the form, the table and
    the all-leads page. */
module MobileNumbers {
  import opened Wrappers
  import opened LeadModel

  /** The position `find(m => m.isMain)` stops at: the first number flagged main. */
  function FirstMainIndex(nums: seq<MobileNumber>): (r: Option<nat>)
    ensures r.Some? ==> r.value < |nums| && nums[r.value].isMain
    ensures r.Some? ==> forall j :: 0 <= j < r.value ==> !nums[j].isMain
    ensures r.None? <==> forall j :: 0 <= j < |nums| ==> !nums[j].isMain
  {
    if |nums| == 0 then None
    else if nums[0].isMain then Some(0)
    else
      match FirstMainIndex(nums[1..])
      case None => None
      case Some(k) => Some(k + 1)
  }

  /** `find(m => m.isMain)?.number` */
  function MainNumberOf(nums: seq<MobileNumber>): Option<string> {
    match FirstMainIndex(nums)
    case Some(k) => Some(nums[k].number)
    case None => None
  }

  /** `[0]?.number` */
  function FirstNumber(nums: seq<MobileNumber>): Option<string> {
    if |nums| == 0 then None else Some(nums[0].number)
  }

  /** The number of the first entry flagged main, when that entry exists. */
  lemma MainNumberIsFirstMain(nums: seq<MobileNumber>, k: nat)
    requires k < |nums| && nums[k].isMain
    requires forall j :: 0 <= j < k ==> !nums[j].isMain
    ensures MainNumberOf(nums) == Some(nums[k].number)
  {
    var i := FirstMainIndex(nums).value;
    assert !(i < k) && !(k < i);
  }
}
