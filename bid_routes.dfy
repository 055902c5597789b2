/** The bid routes of server/routes/bidRoutes.js as transitions of the store:
    bid intake (`POST /`), the owner-only bid list (`GET /:gigId`), the
    freelancer's own bids (`GET /mine`), and the hire state machine
    (`PATCH /:bidId/hire`), whose transaction is one atomic step here. */
module BidRoutes {
  import opened Entities
  import opened Validation
  import opened Listing
  import opened Store

  // ---- bid intake ----

  /** The four ordered checks of bid intake; the first that fails decides the
      answer. */
  function SubmitCheck(db: Db, caller: UserId, gigId: Id): Option<Failure> {
    if gigId !in db.gigs then Some(GigNotFound)
    else if db.gigs[gigId].status != Open then Some(GigNotAccepting)
    else if db.gigs[gigId].ownerId == caller then Some(OwnGig)
    else if exists k :: k in db.bids && db.bids[k].gigId == gigId && db.bids[k].freelancerId == caller
    then Some(DuplicateBid)
    else None
  }

  /** `POST /`: validate the body, run the checks, insert a pending bid. */
  function Submit(db: Db, caller: UserId, input: BidInput): Outcome<Bid> {
    if !BidValid(input) then Outcome(Err(ValidationFailed), db)
    else
      var gigId := ParseObjectId(input.gigId);
      match SubmitCheck(db, caller, gigId)
      case Some(f) => Outcome(Err(f), db)
      case None =>
        var bid := Bid(db.nextId, gigId, caller, input.message, input.price, Pending, db.nextId);
        Outcome(Ok(bid), db.(bids := db.bids[db.nextId := bid], nextId := db.nextId + 1))
  }

  /** A refused bid leaves the store as it was; an accepted one adds exactly
      one new pending bid, for the named gig, by the caller, with the given
      message and price, and changes nothing else. */
  lemma SubmitEffect(db: Db, caller: UserId, input: BidInput)
    requires WellKeyed(db)
    ensures var o := Submit(db, caller, input);
      && (o.result.Err? ==> o.after == db)
      && (o.result.Ok? ==>
            var b := o.result.value;
            && BidValid(input)
            && b.id !in db.bids
            && b == Bid(b.id, ParseObjectId(input.gigId), caller, input.message, input.price, Pending, b.createdAt)
            && o.after == db.(bids := db.bids[b.id := b], nextId := o.after.nextId)
            && |o.after.bids| == |db.bids| + 1)
  {
  }

  /** The failure each ordered check produces, given that the earlier ones
      passed. */
  lemma SubmitFailures(db: Db, caller: UserId, input: BidInput)
    ensures var r := Submit(db, caller, input).result;
      && (!BidValid(input) <==> r == Err(ValidationFailed))
      && (BidValid(input) ==>
            var g := ParseObjectId(input.gigId);
            && (g !in db.gigs <==> r == Err(GigNotFound))
            && (g in db.gigs && db.gigs[g].status == Assigned <==> r == Err(GigNotAccepting))
            && (g in db.gigs && db.gigs[g].status == Open && db.gigs[g].ownerId == caller
                <==> r == Err(OwnGig))
            && (g in db.gigs && db.gigs[g].status == Open && db.gigs[g].ownerId != caller
                && (exists k :: k in db.bids && db.bids[k].gigId == g && db.bids[k].freelancerId == caller)
                <==> r == Err(DuplicateBid)))
      && (r.Ok? <==> BidValid(input) && SubmitCheck(db, caller, ParseObjectId(input.gigId)) == None)
      && (r.Ok? ==>
            var g := ParseObjectId(input.gigId);
            && g in db.gigs && db.gigs[g].status == Open && db.gigs[g].ownerId != caller
            && (forall k :: k in db.bids && db.bids[k].gigId == g ==> db.bids[k].freelancerId != caller))
  {
  }

  /** Bid intake keeps the store invariant; in particular at most one bid per
      (gig, freelancer) pair. */
  lemma SubmitPreservesInv(db: Db, caller: UserId, input: BidInput)
    requires Inv(db)
    ensures Inv(Submit(db, caller, input).after)
  {
    var o := Submit(db, caller, input);
    if o.result.Ok? {
      var b := o.result.value;
      assert o.after == db.(bids := db.bids[b.id := b], nextId := db.nextId + 1);
      AddBidKeepsInv(db, b);
    }
  }

  /** Storing a new pending bid on an open gig, by someone who is neither its
      owner nor already a bidder on it, keeps the invariant. */
  lemma AddBidKeepsInv(db: Db, b: Bid)
    requires Inv(db)
    requires b.id == db.nextId && b.createdAt == db.nextId && b.status == Pending
    requires b.gigId in db.gigs && db.gigs[b.gigId].status == Open
    requires db.gigs[b.gigId].ownerId != b.freelancerId
    requires forall k :: k in db.bids && db.bids[k].gigId == b.gigId ==> db.bids[k].freelancerId != b.freelancerId
    ensures Inv(db.(bids := db.bids[b.id := b], nextId := db.nextId + 1))
  {
    var db' := db.(bids := db.bids[b.id := b], nextId := db.nextId + 1);
    AddBidKeepsOneBid(db.bids, b);
    AddBidKeepsDecided(db, b);
    assert WellKeyed(db') && BidsReferenceGigs(db') && OpenGigsUndecided(db');
  }

  lemma AddBidKeepsDecided(db: Db, b: Bid)
    requires AssignedGigsDecided(db)
    requires b.id !in db.bids && b.gigId in db.gigs && db.gigs[b.gigId].status == Open
    ensures AssignedGigsDecided(db.(bids := db.bids[b.id := b], nextId := db.nextId + 1))
  {
    var db' := db.(bids := db.bids[b.id := b], nextId := db.nextId + 1);
    forall g | g in db'.gigs && db'.gigs[g].status == Assigned
      ensures HiredBids(db'.bids, g) == HiredBids(db.bids, g)
      ensures PendingBids(db'.bids, g) == PendingBids(db.bids, g)
    {
      assert g != b.gigId;
    }
  }

  lemma AddBidKeepsOneBid(bids: map<Id, Bid>, b: Bid)
    requires OneBidPerFreelancer(bids)
    requires b.id !in bids
    requires forall k :: k in bids && bids[k].gigId == b.gigId ==> bids[k].freelancerId != b.freelancerId
    ensures OneBidPerFreelancer(bids[b.id := b])
  {
    var bids' := bids[b.id := b];
    forall k, k' | k in bids' && k' in bids' && k != k' && bids'[k].gigId == bids'[k'].gigId
      ensures bids'[k].freelancerId != bids'[k'].freelancerId
    {
      if k == b.id {
        assert k' in bids;
      } else if k' == b.id {
        assert k in bids;
      }
    }
  }

  /** A freelancer cannot bid twice on a gig: once a bid is accepted, every
      later bid by the same caller on the same gig is refused as a duplicate. */
  lemma NoSecondBid(db: Db, caller: UserId, input: BidInput, again: BidInput)
    requires WellKeyed(db)
    requires Submit(db, caller, input).result.Ok?
    requires BidValid(again) && ParseObjectId(again.gigId) == ParseObjectId(input.gigId)
    ensures var db' := Submit(db, caller, input).after;
      Submit(db', caller, again) == Outcome(Err(DuplicateBid), db')
  {
    var o := Submit(db, caller, input);
    var b := o.result.value;
    assert o.after.bids[b.id].gigId == b.gigId && o.after.bids[b.id].freelancerId == caller;
  }

  // ---- listing ----

  /** `GET /:gigId`: the gig's bids, newest first, for its owner only. */
  function ListGigBids(db: Db, caller: UserId, gigId: Id): Result<seq<Bid>, Failure> {
    if gigId !in db.gigs then Err(GigNotFound)
    else if db.gigs[gigId].ownerId != caller then Err(NotAuthorizedToView)
    else Ok(Lookup(db.bids, Descending(BidsOf(db.bids, gigId), db.nextId)))
  }

  /** 404 for a missing gig, 403 for anyone but its owner; otherwise exactly
      the bids of that gig, each once, newest first. */
  lemma ListGigBidsSpec(db: Db, caller: UserId, gigId: Id)
    requires WellKeyed(db)
    ensures var r := ListGigBids(db, caller, gigId);
      && (gigId !in db.gigs <==> r == Err(GigNotFound))
      && (r == Err(NotAuthorizedToView) <==> gigId in db.gigs && db.gigs[gigId].ownerId != caller)
      && (r.Ok? <==> gigId in db.gigs && db.gigs[gigId].ownerId == caller)
      && (r.Ok? ==>
            && (forall i :: 0 <= i < |r.value| ==> r.value[i].gigId == gigId && r.value[i] == db.bids[r.value[i].id])
            && (forall k :: k in db.bids && db.bids[k].gigId == gigId ==> db.bids[k] in r.value)
            && (forall i, j :: 0 <= i < j < |r.value| ==> r.value[i].createdAt > r.value[j].createdAt))
  {
    var ids := Descending(BidsOf(db.bids, gigId), db.nextId);
    forall k | k in db.bids && db.bids[k].gigId == gigId
      ensures db.bids[k] in Lookup(db.bids, ids)
    {
      LookupHas(db.bids, ids, k);
    }
  }

  /** `GET /mine`: the caller's bids, newest first. */
  function MyBids(db: Db, caller: UserId): seq<Bid> {
    Lookup(db.bids, Descending((set k | k in db.bids && db.bids[k].freelancerId == caller), db.nextId))
  }

  lemma MyBidsSpec(db: Db, caller: UserId)
    requires WellKeyed(db)
    ensures var r := MyBids(db, caller);
      && (forall i :: 0 <= i < |r| ==> r[i].freelancerId == caller && r[i] == db.bids[r[i].id])
      && (forall k :: k in db.bids && db.bids[k].freelancerId == caller ==> db.bids[k] in r)
      && (forall i, j :: 0 <= i < j < |r| ==> r[i].createdAt > r[j].createdAt)
  {
    var ids := Descending((set k | k in db.bids && db.bids[k].freelancerId == caller), db.nextId);
    forall k | k in db.bids && db.bids[k].freelancerId == caller
      ensures db.bids[k] in Lookup(db.bids, ids)
    {
      LookupHas(db.bids, ids, k);
    }
  }

  // ---- hire ----

  /** The five ordered checks of the hire transaction. */
  function HireCheck(db: Db, caller: UserId, bidId: Id): Option<Failure> {
    if bidId !in db.bids then Some(BidNotFound)
    else if db.bids[bidId].status != Pending then Some(BidUnavailable)
    else if db.bids[bidId].gigId !in db.gigs then Some(GigNotFound)
    else if db.gigs[db.bids[bidId].gigId].ownerId != caller then Some(NotAuthorizedToHire)
    else if db.gigs[db.bids[bidId].gigId].status != Open then Some(GigNotOpen)
    else None
  }

  /** Filter of `Gig.updateOne({ _id, status: 'open' }, ...)`. */
  predicate GigStillOpen(gigs: map<Id, Gig>, gigId: Id) {
    gigId in gigs && gigs[gigId].status == Open
  }

  /** `Gig.updateOne`: the gig becomes assigned if the filter matches. */
  function AssignIfOpen(gigs: map<Id, Gig>, gigId: Id): map<Id, Gig> {
    if GigStillOpen(gigs, gigId) then gigs[gigId := gigs[gigId].(status := Assigned)] else gigs
  }

  /** Filter of `Bid.updateOne({ _id: bidId, status: 'pending' }, ...)`. */
  predicate BidStillPending(bids: map<Id, Bid>, bidId: Id) {
    bidId in bids && bids[bidId].status == Pending
  }

  /** `Bid.updateOne`: the chosen bid becomes hired if the filter matches. */
  function HireIfPending(bids: map<Id, Bid>, bidId: Id): map<Id, Bid> {
    if BidStillPending(bids, bidId) then bids[bidId := bids[bidId].(status := Hired)] else bids
  }

  /** Filter of `Bid.updateMany({ gigId, _id: { $ne: bidId }, status: 'pending' }, ...)`. */
  predicate IsPendingSibling(b: Bid, gigId: Id, hiredId: Id) {
    b.gigId == gigId && b.id != hiredId && b.status == Pending
  }

  /** `Bid.updateMany`: every matching bid becomes rejected. */
  function RejectPendingSiblings(bids: map<Id, Bid>, gigId: Id, hiredId: Id): map<Id, Bid> {
    map k | k in bids :: if IsPendingSibling(bids[k], gigId, hiredId) then bids[k].(status := Rejected) else bids[k]
  }

  /** Text of the notification and of the live event sent to the hired freelancer. */
  function HiredMessage(title: string): string {
    "You have been hired for " + title + "!"
  }

  /** `PATCH /:bidId/hire`: the checks, the three conditional writes, then the
      live event and the stored notification for the hired freelancer. */
  function Hire(db: Db, caller: UserId, bidId: Id): Outcome<Bid> {
    match HireCheck(db, caller, bidId)
    case Some(f) => Outcome(Err(f), db)
    case None =>
      var bid := db.bids[bidId];
      var gig := db.gigs[bid.gigId];
      var gigs := AssignIfOpen(db.gigs, gig.id);
      var bids := RejectPendingSiblings(HireIfPending(db.bids, bidId), gig.id, bidId);
      var text := HiredMessage(gig.title);
      var note := NewNotification(db.nextId, Some(bid.freelancerId), text, db.nextId).value;
      Outcome(Ok(bids[bidId]),
              Db(gigs, bids, db.notifications[db.nextId := note],
                 db.events + [Event(bid.freelancerId, text, "hired")], db.nextId + 1))
  }

  /** The failure each ordered check of the hire produces, given that the
      earlier ones passed; the hire succeeds exactly when all five pass, so
      only the gig's owner can hire, and only a pending bid of an open gig. */
  lemma HireFailures(db: Db, caller: UserId, bidId: Id)
    ensures var r := Hire(db, caller, bidId).result;
      && (bidId !in db.bids <==> r == Err(BidNotFound))
      && (bidId in db.bids ==>
            var bid := db.bids[bidId];
            && (bid.status != Pending <==> r == Err(BidUnavailable))
            && (bid.status == Pending && bid.gigId !in db.gigs <==> r == Err(GigNotFound))
            && (bid.status == Pending && bid.gigId in db.gigs && db.gigs[bid.gigId].ownerId != caller
                <==> r == Err(NotAuthorizedToHire))
            && (bid.status == Pending && bid.gigId in db.gigs && db.gigs[bid.gigId].ownerId == caller
                && db.gigs[bid.gigId].status != Open
                <==> r == Err(GigNotOpen)))
      && (r.Ok? <==> HireCheck(db, caller, bidId) == None)
      && (r.Ok? ==>
            && bidId in db.bids && db.bids[bidId].status == Pending
            && db.bids[bidId].gigId in db.gigs
            && db.gigs[db.bids[bidId].gigId].ownerId == caller
            && db.gigs[db.bids[bidId].gigId].status == Open)
  {
  }

  /** Once the checks have passed, the filters of the three writes match what
      the checks saw: the gig is still open, the chosen bid still pending, and
      the bulk update selects exactly the other pending bids of the gig. */
  lemma HireGuardsHold(db: Db, caller: UserId, bidId: Id)
    requires WellKeyed(db)
    requires HireCheck(db, caller, bidId) == None
    ensures var gigId := db.gigs[db.bids[bidId].gigId].id;
      && gigId == db.bids[bidId].gigId
      && GigStillOpen(db.gigs, gigId)
      && BidStillPending(db.bids, bidId)
      && var bids := HireIfPending(db.bids, bidId);
         (set k | k in bids && IsPendingSibling(bids[k], gigId, bidId)) == PendingBids(db.bids, gigId) - {bidId}
  {
    var gigId := db.bids[bidId].gigId;
    var bids := HireIfPending(db.bids, bidId);
    assert (set k | k in bids && IsPendingSibling(bids[k], gigId, bidId)) == PendingBids(db.bids, gigId) - {bidId} by {
      forall k | k in bids
        ensures IsPendingSibling(bids[k], gigId, bidId) <==> k in PendingBids(db.bids, gigId) && k != bidId
      {
        if k != bidId {
          assert bids[k] == db.bids[k];
        }
      }
    }
  }

  /** A refused hire changes nothing. A successful one assigns the gig, hires
      the chosen bid, rejects the gig's other pending bids, and leaves every
      other gig and every other bid (already decided, or of another gig) as
      it was. */
  lemma HireWrites(db: Db, caller: UserId, bidId: Id)
    requires WellKeyed(db)
    ensures var o := Hire(db, caller, bidId);
      && (o.result.Err? ==> o.after == db)
      && (o.result.Ok? ==>
            var bid := db.bids[bidId];
            var g := bid.gigId;
            && o.result.value == bid.(status := Hired)
            && o.after.gigs == db.gigs[g := db.gigs[g].(status := Assigned)]
            && o.after.bids.Keys == db.bids.Keys
            && o.after.bids[bidId] == bid.(status := Hired)
            && (forall k :: k in db.bids && k != bidId ==>
                  o.after.bids[k] ==
                    if db.bids[k].gigId == g && db.bids[k].status == Pending
                    then db.bids[k].(status := Rejected) else db.bids[k]))
  {
    var o := Hire(db, caller, bidId);
    if o.result.Ok? {
      var g := db.bids[bidId].gigId;
      var hired := HireIfPending(db.bids, bidId);
      forall k | k in db.bids && k != bidId
        ensures o.after.bids[k] ==
                if db.bids[k].gigId == g && db.bids[k].status == Pending
                then db.bids[k].(status := Rejected) else db.bids[k]
      {
        assert hired[k] == db.bids[k];
      }
    }
  }

  /** After a successful hire the gig is assigned, the chosen bid is its only
      hired bid, and none of its bids is pending. */
  lemma HireDecidesGig(db: Db, caller: UserId, bidId: Id)
    requires WellKeyed(db) && OpenGigsUndecided(db)
    requires Hire(db, caller, bidId).result.Ok?
    ensures var db' := Hire(db, caller, bidId).after;
      var g := db.bids[bidId].gigId;
      && db'.gigs[g].status == Assigned
      && HiredBids(db'.bids, g) == {bidId}
      && PendingBids(db'.bids, g) == {}
      && (forall k :: k in db'.bids && db'.bids[k].gigId == g && k != bidId ==> db'.bids[k].status == Rejected)
  {
    var g := db.bids[bidId].gigId;
    var db' := Hire(db, caller, bidId).after;
    assert db.gigs[g].id == g;
    assert db'.gigs == AssignIfOpen(db.gigs, g);
    assert db'.bids == RejectPendingSiblings(HireIfPending(db.bids, bidId), g, bidId);
    forall k | k in db.bids && db.bids[k].gigId == g
      ensures db.bids[k].status == Pending
    {
    }
    WritesDecideBids(db.bids, g, bidId);
  }

  /** The three writes on the bids of an open gig: the chosen bid is hired,
      every other bid of the gig rejected. */
  lemma WritesDecideBids(bids: map<Id, Bid>, g: Id, bidId: Id)
    requires forall k :: k in bids ==> bids[k].id == k
    requires bidId in bids && bids[bidId].gigId == g
    requires forall k :: k in bids && bids[k].gigId == g ==> bids[k].status == Pending
    ensures var nb := RejectPendingSiblings(HireIfPending(bids, bidId), g, bidId);
      && HiredBids(nb, g) == {bidId}
      && PendingBids(nb, g) == {}
      && (forall k :: k in nb && nb[k].gigId == g && k != bidId ==> nb[k].status == Rejected)
  {
    var hb := HireIfPending(bids, bidId);
    var nb := RejectPendingSiblings(hb, g, bidId);
    forall k | k in nb && nb[k].gigId == g
      ensures k == bidId ==> nb[k].status == Hired
      ensures k != bidId ==> nb[k].status == Rejected
    {
      if k != bidId {
        assert hb[k] == bids[k];
      }
    }
    assert HiredBids(nb, g) == {bidId};
    assert PendingBids(nb, g) == {};
  }

  /** A successful hire records one unread notification for the hired
      freelancer, "You have been hired for <gig title>!", and pushes the same
      text, of type "hired", to that freelancer's room. */
  lemma HireNotifies(db: Db, caller: UserId, bidId: Id)
    requires WellKeyed(db)
    requires Hire(db, caller, bidId).result.Ok?
    ensures var db' := Hire(db, caller, bidId).after;
      var bid := db.bids[bidId];
      var text := "You have been hired for " + db.gigs[bid.gigId].title + "!";
      && db.nextId !in db.notifications
      && db'.notifications == db.notifications[db.nextId := Notification(db.nextId, bid.freelancerId, text, false, db.nextId)]
      && db'.events == db.events + [Event(bid.freelancerId, text, "hired")]
      && db'.nextId == db.nextId + 1
  {
  }

  /** A successful hire only changes statuses, and the notification it adds
      is keyed and stamped like every other record. */
  lemma HireKeepsShape(db: Db, caller: UserId, bidId: Id)
    requires WellKeyed(db)
    requires Hire(db, caller, bidId).result.Ok?
    ensures var db' := Hire(db, caller, bidId).after;
      StatusesOnlyChanged(db, db') && WellKeyed(db')
  {
    HireKeepsKeys(db, caller, bidId);
    HireWrites(db, caller, bidId);
    var db' := Hire(db, caller, bidId).after;
    forall k | k in db.gigs
      ensures db'.gigs[k] == db.gigs[k].(status := db'.gigs[k].status)
    {
    }
    forall k | k in db.bids
      ensures db'.bids[k] == db.bids[k].(status := db'.bids[k].status)
    {
    }
  }

  /** The records a hire touches keep their keys and stamps, and the new
      notification is stamped with the id it is stored under. */
  lemma HireKeepsKeys(db: Db, caller: UserId, bidId: Id)
    requires WellKeyed(db)
    requires Hire(db, caller, bidId).result.Ok?
    ensures WellKeyed(Hire(db, caller, bidId).after)
  {
    HireWrites(db, caller, bidId);
    HireNotifies(db, caller, bidId);
    var db' := Hire(db, caller, bidId).after;
    assert db'.nextId == db.nextId + 1;
    forall k | k in db'.gigs
      ensures db'.gigs[k].id == k && db'.gigs[k].createdAt == k && k < db'.nextId
    {
    }
    forall k | k in db'.bids
      ensures db'.bids[k].id == k && db'.bids[k].createdAt == k && k < db'.nextId
    {
    }
    forall k | k in db'.notifications
      ensures db'.notifications[k].id == k && db'.notifications[k].createdAt == k && k < db'.nextId
    {
    }
  }

  /** A successful hire leaves the other gigs and their bids' decisions as
      they were. */
  lemma HireKeepsOtherGigs(db: Db, caller: UserId, bidId: Id, g': Id)
    requires WellKeyed(db)
    requires Hire(db, caller, bidId).result.Ok?
    requires g' != db.bids[bidId].gigId
    ensures var db' := Hire(db, caller, bidId).after;
      && (g' in db.gigs ==> g' in db'.gigs && db'.gigs[g'] == db.gigs[g'])
      && HiredBids(db'.bids, g') == HiredBids(db.bids, g')
      && PendingBids(db'.bids, g') == PendingBids(db.bids, g')
      && (forall k :: k in db.bids && db.bids[k].gigId == g' ==> db'.bids[k] == db.bids[k])
  {
    HireWrites(db, caller, bidId);
    var db' := Hire(db, caller, bidId).after;
    forall k | k in db.bids && db.bids[k].gigId == g'
      ensures db'.bids[k] == db.bids[k]
    {
    }
    assert HiredBids(db'.bids, g') == HiredBids(db.bids, g');
    assert PendingBids(db'.bids, g') == PendingBids(db.bids, g');
  }

  /** The hire transaction keeps the store invariant. */
  lemma HirePreservesInv(db: Db, caller: UserId, bidId: Id)
    requires Inv(db)
    ensures Inv(Hire(db, caller, bidId).after)
  {
    var o := Hire(db, caller, bidId);
    if o.result.Ok? {
      HireDecidesOnlyItsGig(db, caller, bidId);
      DecidingKeepsInv(db, o.after, db.bids[bidId].gigId, bidId);
    }
  }

  /** A successful hire decides its gig and nothing else. */
  lemma HireDecidesOnlyItsGig(db: Db, caller: UserId, bidId: Id)
    requires WellKeyed(db) && OpenGigsUndecided(db)
    requires Hire(db, caller, bidId).result.Ok?
    ensures var db' := Hire(db, caller, bidId).after;
      var g := db.bids[bidId].gigId;
      && StatusesOnlyChanged(db, db') && WellKeyed(db')
      && g in db'.gigs && db'.gigs[g].status == Assigned
      && HiredBids(db'.bids, g) == {bidId} && PendingBids(db'.bids, g) == {}
      && (forall g' :: g' in db.gigs && g' != g ==> db'.gigs[g'] == db.gigs[g'])
      && (forall k :: k in db.bids && db.bids[k].gigId != g ==> db'.bids[k] == db.bids[k])
  {
    HireKeepsShape(db, caller, bidId);
    HireDecidesGig(db, caller, bidId);
    HireWrites(db, caller, bidId);
  }

  /** Deciding one gig (assigning it, with one hired bid and none pending)
      while changing only statuses, and nothing of the other gigs, keeps the
      invariant. */
  lemma DecidingKeepsInv(db: Db, db': Db, g: Id, bidId: Id)
    requires Inv(db)
    requires StatusesOnlyChanged(db, db') && WellKeyed(db')
    requires g in db'.gigs && db'.gigs[g].status == Assigned
    requires HiredBids(db'.bids, g) == {bidId} && PendingBids(db'.bids, g) == {}
    requires forall g' :: g' in db.gigs && g' != g ==> db'.gigs[g'] == db.gigs[g']
    requires forall k :: k in db.bids && db.bids[k].gigId != g ==> db'.bids[k] == db.bids[k]
    ensures Inv(db')
  {
    StatusChangesKeepReferences(db, db');
    DecidingKeepsOpenUndecided(db, db', g);
    DecidingKeepsAssignedDecided(db, db', g, bidId);
  }

  lemma DecidingKeepsOpenUndecided(db: Db, db': Db, g: Id)
    requires OpenGigsUndecided(db)
    requires StatusesOnlyChanged(db, db')
    requires g in db'.gigs && db'.gigs[g].status == Assigned
    requires forall g' :: g' in db.gigs && g' != g ==> db'.gigs[g'] == db.gigs[g']
    requires forall k :: k in db.bids && db.bids[k].gigId != g ==> db'.bids[k] == db.bids[k]
    ensures OpenGigsUndecided(db')
  {
    forall k | k in db'.bids && db'.bids[k].gigId in db'.gigs && db'.gigs[db'.bids[k].gigId].status == Open
      ensures db'.bids[k].status == Pending
    {
      assert db'.bids[k].gigId == db.bids[k].gigId;
    }
  }

  lemma DecidingKeepsAssignedDecided(db: Db, db': Db, g: Id, bidId: Id)
    requires AssignedGigsDecided(db)
    requires StatusesOnlyChanged(db, db')
    requires HiredBids(db'.bids, g) == {bidId} && PendingBids(db'.bids, g) == {}
    requires forall g' :: g' in db.gigs && g' != g ==> db'.gigs[g'] == db.gigs[g']
    requires forall k :: k in db.bids && db.bids[k].gigId != g ==> db'.bids[k] == db.bids[k]
    ensures AssignedGigsDecided(db')
  {
    forall g' | g' in db'.gigs && g' != g
      ensures HiredBids(db'.bids, g') == HiredBids(db.bids, g')
      ensures PendingBids(db'.bids, g') == PendingBids(db.bids, g')
    {
      forall k | k in db.bids
        ensures db'.bids[k].gigId == db.bids[k].gigId
      {
      }
    }
  }

  /** Under the invariant the gig checks of the hire never fire: a pending
      bid's gig exists and is open. They only matter for interleavings that
      the atomic transaction rules out. */
  lemma HireGigChecksUnreachable(db: Db, caller: UserId, bidId: Id)
    requires Inv(db)
    ensures HireCheck(db, caller, bidId) != Some(GigNotFound)
    ensures HireCheck(db, caller, bidId) != Some(GigNotOpen)
  {
    if bidId in db.bids && db.bids[bidId].status == Pending {
      var g := db.bids[bidId].gigId;
      assert g in db.gigs;
      assert bidId in PendingBids(db.bids, g);
    }
  }

  /** Once a gig is assigned, every hire on any of its bids, by anyone, is
      refused with "Bid is no longer available" and changes nothing. */
  lemma HireOnAssignedGigFails(db: Db, caller: UserId, bidId: Id)
    requires Inv(db)
    requires bidId in db.bids && db.bids[bidId].gigId in db.gigs
    requires db.gigs[db.bids[bidId].gigId].status == Assigned
    ensures Hire(db, caller, bidId) == Outcome(Err(BidUnavailable), db)
  {
    assert bidId !in PendingBids(db.bids, db.bids[bidId].gigId);
  }

  /** First committed hire wins: after a successful hire, a second hire of the
      same bid or of any other bid of the same gig fails. */
  lemma SecondHireFails(db: Db, caller: UserId, bidId: Id, caller': UserId, bidId': Id)
    requires Inv(db)
    requires Hire(db, caller, bidId).result.Ok?
    requires bidId' in db.bids && db.bids[bidId'].gigId == db.bids[bidId].gigId
    ensures var db' := Hire(db, caller, bidId).after;
      Hire(db', caller', bidId') == Outcome(Err(BidUnavailable), db')
  {
    var db' := Hire(db, caller, bidId).after;
    var g := db.bids[bidId].gigId;
    HireDecidesGig(db, caller, bidId);
    HireWrites(db, caller, bidId);
    assert bidId' in db'.bids && db'.bids[bidId'].gigId == g;
    assert bidId' !in PendingBids(db'.bids, g);
  }

  /** No bid can be placed on an assigned gig. */
  lemma NoBidAfterHire(db: Db, caller: UserId, bidId: Id, freelancer: UserId, input: BidInput)
    requires Inv(db)
    requires Hire(db, caller, bidId).result.Ok?
    requires BidValid(input) && ParseObjectId(input.gigId) == db.bids[bidId].gigId
    ensures var db' := Hire(db, caller, bidId).after;
      Submit(db', freelancer, input) == Outcome(Err(GigNotAccepting), db')
  {
    HireWrites(db, caller, bidId);
  }
}
