/** The lead store's mutations: each replaces the lead sequence (or the saved
    views) by a new one. Persisting to local storage happens outside the model. */
module LeadStore {
  import opened Wrappers
  import opened LeadModel
  import Seqs

  /** No lead in `leads` carries `id`. */
  predicate IdAbsent(leads: seq<Lead>, id: string) {
    forall i :: 0 <= i < |leads| ==> leads[i].id != id
  }

  /** `addLead`: the lead is appended after all existing ones. */
  function AddLead(leads: seq<Lead>, lead: Lead): (r: seq<Lead>)
    ensures |r| == |leads| + 1
    ensures r[..|leads|] == leads
    ensures r[|leads|] == lead
  {
    leads + [lead]
  }

  /** `updateLead`: every lead sharing the updated lead's id is replaced by it. */
  function UpdateLead(leads: seq<Lead>, updated: Lead): (r: seq<Lead>)
    ensures |r| == |leads|
    ensures forall i :: 0 <= i < |leads| && leads[i].id == updated.id ==> r[i] == updated
    ensures forall i :: 0 <= i < |leads| && leads[i].id != updated.id ==> r[i] == leads[i]
  {
    if |leads| == 0 then []
    else [if leads[0].id == updated.id then updated else leads[0]] + UpdateLead(leads[1..], updated)
  }

  /** `deleteLead`: the leads with `id` are removed; the others keep their order and multiplicity. */
  function DeleteLead(leads: seq<Lead>, id: string): (r: seq<Lead>)
    ensures IdAbsent(r, id)
    ensures Seqs.IsSubseq(r, leads)
    ensures forall l: Lead :: l.id != id ==> multiset(r)[l] == multiset(leads)[l]
  {
    var p := (l: Lead) => l.id != id;
    Seqs.FilterCount(leads, p);
    Seqs.Filter(leads, p)
  }

  /** `markAsDone`: the leads with `id` get `isDone` set; no other field or lead changes. */
  function MarkAsDone(leads: seq<Lead>, id: string): (r: seq<Lead>)
    ensures |r| == |leads|
    ensures forall i :: 0 <= i < |leads| && leads[i].id == id ==> r[i].isDone && r[i].(isDone := leads[i].isDone) == leads[i]
    ensures forall i :: 0 <= i < |leads| && leads[i].id != id ==> r[i] == leads[i]
  {
    if |leads| == 0 then []
    else [if leads[0].id == id then leads[0].(isDone := true) else leads[0]] + MarkAsDone(leads[1..], id)
  }

  /** `addActivity`: the leads with `leadId` get one activity appended (a missing trail counts
      as empty) and their last-activity date set; nothing else changes. `activityId` stands
      for the generated UUID; the clock is read twice, `activityTime` for the activity's
      timestamp and `updateTime` (inside the state update, possibly later) for the
      last-activity date. */
  function AddActivity(leads: seq<Lead>, leadId: string, description: string, activityId: string,
                       activityTime: string, updateTime: string): (r: seq<Lead>)
    ensures |r| == |leads|
    ensures forall i :: 0 <= i < |leads| && leads[i].id == leadId ==>
      && r[i].activities == Some(Activities(leads[i]) + [Activity(activityId, leadId, description, activityTime)])
      && r[i].lastActivityDate == updateTime
      && r[i].(activities := leads[i].activities, lastActivityDate := leads[i].lastActivityDate) == leads[i]
    ensures forall i :: 0 <= i < |leads| && leads[i].id != leadId ==> r[i] == leads[i]
  {
    seq(|leads|, i requires 0 <= i < |leads| =>
      if leads[i].id == leadId then WithActivity(leads[i], Activity(activityId, leadId, description, activityTime), updateTime)
      else leads[i])
  }

  /** One lead with `a` appended to its trail and its last-activity date set to `time`. */
  function WithActivity(l: Lead, a: Activity, time: string): (r: Lead)
    ensures r.activities == Some(Activities(l) + [a]) && r.lastActivityDate == time
    ensures r.(activities := l.activities, lastActivityDate := l.lastActivityDate) == l
  {
    l.(activities := Some(Activities(l) + [a]), lastActivityDate := time)
  }

  /** `addSavedView`: the view is appended. */
  function AddSavedView(views: seq<SavedView>, view: SavedView): (r: seq<SavedView>)
    ensures |r| == |views| + 1
    ensures r[..|views|] == views
    ensures r[|views|] == view
  {
    views + [view]
  }

  /** `deleteSavedView`: the views with `id` are removed; the others keep their order. */
  function DeleteSavedView(views: seq<SavedView>, id: string): (r: seq<SavedView>)
    ensures forall i :: 0 <= i < |r| ==> r[i].id != id
    ensures Seqs.IsSubseq(r, views)
    ensures forall v: SavedView :: v.id != id ==> multiset(r)[v] == multiset(views)[v]
  {
    var p := (v: SavedView) => v.id != id;
    Seqs.FilterCount(views, p);
    Seqs.Filter(views, p)
  }

  // ----- Properties relating the operations -----

  /** Deleting a freshly added lead by its (new) id restores the store. */
  lemma AddThenDelete(leads: seq<Lead>, lead: Lead)
    requires IdAbsent(leads, lead.id)
    ensures DeleteLead(AddLead(leads, lead), lead.id) == leads
  {
    var p := (l: Lead) => l.id != lead.id;
    Seqs.FilterAll(leads, p);
    assert AddLead(leads, lead) == leads + [lead];
    Seqs.FilterSnoc(leads, lead, p);
  }

  /** Deleting a freshly added saved view by its id restores the views. */
  lemma AddThenDeleteSavedView(views: seq<SavedView>, view: SavedView)
    requires forall i :: 0 <= i < |views| ==> views[i].id != view.id
    ensures DeleteSavedView(AddSavedView(views, view), view.id) == views
  {
    var p := (v: SavedView) => v.id != view.id;
    Seqs.FilterAll(views, p);
    Seqs.FilterSnoc(views, view, p);
  }

  /** Updating a lead whose id is not stored changes nothing. */
  lemma UpdateAbsent(leads: seq<Lead>, updated: Lead)
    requires IdAbsent(leads, updated.id)
    ensures UpdateLead(leads, updated) == leads
  {
  }

  /** Updating twice with the same lead is updating once. */
  lemma UpdateIdempotent(leads: seq<Lead>, updated: Lead)
    ensures UpdateLead(UpdateLead(leads, updated), updated) == UpdateLead(leads, updated)
  {
  }

  /** Updating keeps the position of every id. */
  lemma UpdateKeepsIds(leads: seq<Lead>, updated: Lead)
    ensures forall i :: 0 <= i < |leads| ==> UpdateLead(leads, updated)[i].id == leads[i].id
  {
  }

  /** Marking done twice is marking done once. */
  lemma MarkAsDoneIdempotent(leads: seq<Lead>, id: string)
    ensures MarkAsDone(MarkAsDone(leads, id), id) == MarkAsDone(leads, id)
  {
  }

  /** After marking, every lead carrying the id is done. */
  lemma MarkAsDoneMarksId(leads: seq<Lead>, id: string)
    ensures forall l :: l in MarkAsDone(leads, id) && l.id == id ==> l.isDone
  {
    var r := MarkAsDone(leads, id);
    forall l | l in r && l.id == id ensures l.isDone {
      var i :| 0 <= i < |r| && r[i] == l;
      if leads[i].id != id {
        assert r[i] == leads[i];
      }
    }
  }

  /** An added activity is the last entry of the target's trail, which grows by exactly one. */
  lemma AddActivityAppendsOne(leads: seq<Lead>, leadId: string, description: string, activityId: string,
                               activityTime: string, updateTime: string, i: int)
    requires 0 <= i < |leads| && leads[i].id == leadId
    ensures var acts := Activities(AddActivity(leads, leadId, description, activityId, activityTime, updateTime)[i]);
      |acts| == |Activities(leads[i])| + 1 && acts[|acts| - 1].leadId == leadId
      && acts[..|acts| - 1] == Activities(leads[i])
  {
  }
}
