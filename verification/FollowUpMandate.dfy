/** The follow-up-mandate page: open leads still owing documents, and open leads
    whose mandate is signed. */
module FollowUpMandate {
  import opened Wrappers
  import opened LeadModel
  import Seqs
  import LeadStore
  import LeadForm

  predicate AwaitingDocuments(l: Lead) {
    l.documentStatus == Some(PendingDocuments) && !l.isDone
  }

  predicate MandateSigned(l: Lead) {
    l.documentStatus == Some(SignedMandate) && !l.isDone
  }

  /** `documentation`: open leads whose documents are pending, in store order. */
  function Documentation(leads: seq<Lead>): (r: seq<Lead>)
    ensures Seqs.IsSubseq(r, leads)
    ensures forall l :: l in r <==> l in leads && l.documentStatus == Some(PendingDocuments) && !l.isDone
    ensures forall l :: multiset(r)[l] == if AwaitingDocuments(l) then multiset(leads)[l] else 0
  {
    Seqs.FilterCount(leads, AwaitingDocuments);
    Seqs.Filter(leads, AwaitingDocuments)
  }

  /** `mandateSent`: open leads with a signed mandate, in store order. */
  function MandateSent(leads: seq<Lead>): (r: seq<Lead>)
    ensures Seqs.IsSubseq(r, leads)
    ensures forall l :: l in r <==> l in leads && l.documentStatus == Some(SignedMandate) && !l.isDone
    ensures forall l :: multiset(r)[l] == if MandateSigned(l) then multiset(leads)[l] else 0
  {
    Seqs.FilterCount(leads, MandateSigned);
    Seqs.Filter(leads, MandateSigned)
  }

  // ----- Properties -----

  /** No lead is in both lists, and no done lead is in either. */
  lemma ViewsDisjoint(leads: seq<Lead>, l: Lead)
    ensures !(l in Documentation(leads) && l in MandateSent(leads))
    ensures l.isDone ==> l !in Documentation(leads) && l !in MandateSent(leads)
  {
  }

  /** Together the two lists never hold more leads than the store. */
  lemma ViewsFitInStore(leads: seq<Lead>)
    ensures |Documentation(leads)| + |MandateSent(leads)| <= |leads|
  {
    var both := Seqs.Filter(leads, (l: Lead) => AwaitingDocuments(l) || MandateSigned(l));
    Seqs.FilterCount(leads, (l: Lead) => AwaitingDocuments(l) || MandateSigned(l));
    assert multiset(Documentation(leads)) + multiset(MandateSent(leads)) == multiset(both);
  }

  /** A freshly added lead is awaiting documents. */
  lemma NewLeadAwaitsDocuments(leads: seq<Lead>, form: LeadForm.FormData, leadId: string, activityId: string,
                               timestamp: string, currentDate: string)
    ensures var lead := LeadForm.NewLead(form, leadId, activityId, timestamp, currentDate);
      lead in Documentation(LeadStore.AddLead(leads, lead))
  {
  }

  /** Once a lead is marked done, no lead with its id is in either list. */
  lemma MarkDoneLeavesBoth(leads: seq<Lead>, id: string)
    ensures forall l :: l in Documentation(LeadStore.MarkAsDone(leads, id)) ==> l.id != id
    ensures forall l :: l in MandateSent(LeadStore.MarkAsDone(leads, id)) ==> l.id != id
  {
    LeadStore.MarkAsDoneMarksId(leads, id);
  }
}
