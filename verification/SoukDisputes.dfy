/** When a dispute may be opened, in terms of the calls that finished the deal. */
module SoukDisputes {
  import opened Basics
  import opened SoukModel
  import opened SoukInvariant
  import opened SoukPreservation
  import opened SoukTermination
  import opened SoukHandovers

  predicate Finished(o: Offer) {
    o.status.Confirmed? || o.status.Cancelled?
  }

  ghost predicate IsFinished(w: World, offerId: Id) {
    offerId in w.offers && Finished(w.offers[offerId])
  }

  /** The i-th call of the run is a confirmation or cancellation of this offer that was carried out and finished the deal. */
  ghost predicate FinishedAt(calls: seq<Call>, i: nat, offerId: Id)
    requires i < |calls|
  {
    && KindOf(calls[i].request) == HandoverKind && calls[i].request.offerId == offerId && Succeeds(calls, i)
    && offerId in Run(calls[..i]).offers && Run(calls[..i]).offers[offerId].status.InHandover()
    && IsFinished(Run(calls[..i + 1]), offerId)
  }

  /** Some call of the run, made at this time, finished the deal. */
  ghost predicate FinishedBy(calls: seq<Call>, offerId: Id, at: Time) {
    exists i :: 0 <= i < |calls| && FinishedAt(calls, i, offerId) && calls[i].now == at
  }

  lemma FinishedByExtends(calls: seq<Call>, c: Call, offerId: Id, at: Time)
    requires FinishedBy(calls, offerId, at)
    ensures FinishedBy(calls + [c], offerId, at)
  {
    var i :| 0 <= i < |calls| && FinishedAt(calls, i, offerId) && calls[i].now == at;
    assert (calls + [c])[..i] == calls[..i] && (calls + [c])[..i + 1] == calls[..i + 1];
    assert FinishedAt(calls + [c], i, offerId);
  }

  lemma FinishedByLast(calls: seq<Call>, c: Call, offerId: Id)
    requires KindOf(c.request) == HandoverKind && c.request.offerId == offerId && Step(Run(calls), c).Ok?
    requires !IsFinished(Run(calls), offerId) && IsFinished(Run(calls + [c]), offerId)
    ensures FinishedBy(calls + [c], offerId, c.now)
  {
    var all := calls + [c];
    assert all[..|calls|] == calls && all[..|calls| + 1] == all;
    assert FinishedAt(all, |calls|, offerId);
  }

  /** A finished deal keeps its offer and its handover row. */
  lemma FinishedFrozen(w: World, c: Call, id: Id)
    requires id in w.offers && Finished(w.offers[id])
    ensures id in Next(w, c).offers && Next(w, c).offers[id] == w.offers[id]
    ensures id in Next(w, c).handovers <==> id in w.handovers
    ensures id in w.handovers ==> Next(w, c).handovers[id] == w.handovers[id]
  {
    TerminalFrozen(w, c, id);
    if KindOf(c.request) != HandoverKind { OnlyHandoverStamps(w, c); }
  }

  /** Only a cancellation or confirmation of the offer itself finishes it, and the dispute window starts then. */
  lemma {:induction false} FinishedNow(w: World, c: Call, id: Id)
    ensures
      && id in Next(w, c).offers && Finished(Next(w, c).offers[id])
      && (id in w.offers ==> HandshakeOk(w, id) && !Finished(w.offers[id]))
      ==>
      && Step(w, c).Ok? && KindOf(c.request) == HandoverKind && c.request.offerId == id
      && DisputeReference(Next(w, c), id) == c.now
  {
    if KindOf(c.request) != HandoverKind && id in Next(w, c).offers && Finished(Next(w, c).offers[id]) {
      NotFinishedElsewhere(w, c, id);
    }
  }

  lemma AcceptFinishesNothing(w: World, c: Call, id: Id)
    requires KindOf(c.request) == AcceptKind
    requires id in Next(w, c).offers && Finished(Next(w, c).offers[id])
    ensures id in w.offers && Finished(w.offers[id])
  {
  }

  lemma NewOfferFinishesNothing(w: World, c: Call, id: Id)
    requires KindOf(c.request) == NewOfferKind
    requires id in Next(w, c).offers && Finished(Next(w, c).offers[id])
    ensures id in w.offers && Finished(w.offers[id])
  {
  }

  lemma RetireFinishesNothing(w: World, c: Call, id: Id)
    requires KindOf(c.request) == RetireKind
    requires id in Next(w, c).offers && Finished(Next(w, c).offers[id])
    ensures id in w.offers && Finished(w.offers[id])
  {
  }

  lemma NotFinishedElsewhere(w: World, c: Call, id: Id)
    requires KindOf(c.request) != HandoverKind && id in Next(w, c).offers && Finished(Next(w, c).offers[id])
    ensures id in w.offers && Finished(w.offers[id])
  {
    match KindOf(c.request)
    case ListingKind =>
    case AcceptKind => AcceptFinishesNothing(w, c, id);
    case RetireKind => RetireFinishesNothing(w, c, id);
    case NewOfferKind => NewOfferFinishesNothing(w, c, id);
    case _ => OtherwiseSameOffers(w, c);
  }

  /** In every run the dispute window of a finished deal starts at the call that took it from handover to its end. */
  lemma {:induction false} WindowStartsAtFinish(calls: seq<Call>, id: Id)
    requires id in Run(calls).offers && Finished(Run(calls).offers[id])
    ensures FinishedBy(calls, id, DisputeReference(Run(calls), id))
  {
    var before, c := calls[..|calls| - 1], calls[|calls| - 1];
    var w := Run(before);
    assert calls == before + [c];
    if id in w.offers && Finished(w.offers[id]) {
      WindowStartsAtFinish(before, id);
      FinishedFrozen(w, c, id);
      FinishedByExtends(before, c, id, DisputeReference(w, id));
    } else {
      ReachableInv(before);
      assert id in w.offers ==> HandshakeOk(w, id);
      FinishedNow(w, c, id);
      FinishedByLast(before, c, id);
    }
  }

  /** In every run at most one call finishes a deal. */
  lemma {:induction false} FinishedOnce(calls: seq<Call>, i: nat, j: nat, id: Id)
    requires i < j < |calls| && FinishedAt(calls, i, id)
    ensures !FinishedAt(calls, j, id)
  {
    TerminalForever(calls[..i + 1], calls[i + 1..j], id);
    assert calls[..i + 1] + calls[i + 1..j] == calls[..j];
  }

  /**
   * In every reachable state a party may open a dispute exactly when the offer has none yet, settled ones included, and
   * the deal is under way, or finished at most 48 hours ago.
   */
  lemma {:induction false} DisputeAdmission(calls: seq<Call>, newId: Id, id: Id, filedById: UserId, now: Time)
    requires id in Run(calls).offers && Run(calls).offers[id].IsParty(filedById) && newId !in Run(calls).disputes
    ensures var w := Run(calls);
      var o := w.offers[id];
      CreateDispute(w, newId, id, filedById, now).Ok? <==>
        && !HasDispute(w.disputes, id)
        && match o.status
           case Accepted => true
           case HandoverPending => true
           case Confirmed =>
             && id in w.handovers && w.handovers[id].bothConfirmedAt.Some?
             && now - w.handovers[id].bothConfirmedAt.value <= 48 * 60 * 60 * 1000
           case Cancelled => now - o.updatedAt <= 48 * 60 * 60 * 1000
           case _ => false
  {
    ReachableInv(calls);
    assert HandshakeOk(Run(calls), id);
  }
}
