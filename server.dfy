/** The server's store as a mutable object: the gig, bid and notification
    collections and the event log, updated in place by the write routes of
    server/routes/bidRoutes.js, server/routes/gigRoutes.js and
    server/routes/notificationRoutes.js. Each method runs the route's checks
    with early returns and then its writes, and is proved to leave exactly the
    store that the route's transition function describes, so every lemma about
    those functions (and the store invariant) carries over. */
module Server {
  import opened Entities
  import opened Validation
  import opened Store
  import BidRoutes
  import GigRoutes
  import NotificationRoutes

  class Marketplace {
    var gigs: map<Id, Gig>
    var bids: map<Id, Bid>
    var notifications: map<Id, Notification>
    var events: seq<Event>
    var nextId: Id

    /** The collections as one value. */
    function State(): Db
      reads this
    {
      Db(gigs, bids, notifications, events, nextId)
    }

    ghost predicate Valid()
      reads this
    {
      Inv(State())
    }

    /** An empty database. */
    constructor ()
      ensures State() == Empty
      ensures Valid()
    {
      gigs := map[];
      bids := map[];
      notifications := map[];
      events := [];
      nextId := 0;
      new;
      EmptyInv();
    }

    /** `Bid.findOne({ gigId, freelancerId })`: a bid of this freelancer on
        this gig, if there is one. */
    method FindBid(gigId: Id, freelancer: UserId) returns (found: Option<Id>)
      ensures found.None? <==>
        !exists k :: k in bids && bids[k].gigId == gigId && bids[k].freelancerId == freelancer
      ensures found.Some? ==>
        found.value in bids && bids[found.value].gigId == gigId && bids[found.value].freelancerId == freelancer
    {
      var todo := bids.Keys;
      while todo != {}
        invariant todo <= bids.Keys
        invariant forall k :: k in bids && k !in todo ==>
          !(bids[k].gigId == gigId && bids[k].freelancerId == freelancer)
        decreases todo
      {
        var k :| k in todo;
        if bids[k].gigId == gigId && bids[k].freelancerId == freelancer {
          return Some(k);
        }
        todo := todo - {k};
      }
      return None;
    }

    /** `POST /api/bids`. */
    method SubmitBid(caller: UserId, input: BidInput) returns (r: Result<Bid, Failure>)
      requires Valid()
      modifies this
      ensures r == BidRoutes.Submit(old(State()), caller, input).result
      ensures State() == BidRoutes.Submit(old(State()), caller, input).after
      ensures Valid()
    {
      BidRoutes.SubmitPreservesInv(State(), caller, input);
      if !BidValid(input) {
        return Err(ValidationFailed);
      }
      var gigId := ParseObjectId(input.gigId);
      if gigId !in gigs {
        return Err(GigNotFound);
      }
      var gig := gigs[gigId];
      if gig.status != Open {
        return Err(GigNotAccepting);
      }
      if gig.ownerId == caller {
        return Err(OwnGig);
      }
      var existing := FindBid(gigId, caller);
      if existing.Some? {
        return Err(DuplicateBid);
      }
      var bid := Bid(nextId, gigId, caller, input.message, input.price, Pending, nextId);
      bids := bids[nextId := bid];
      nextId := nextId + 1;
      r := Ok(bid);
    }

    /** `Bid.updateMany({ gigId, _id: { $ne: hiredId }, status: 'pending' },
        { $set: { status: 'rejected' } })`, one document at a time. */
    method RejectPendingSiblings(gigId: Id, hiredId: Id)
      modifies this
      ensures bids == BidRoutes.RejectPendingSiblings(old(bids), gigId, hiredId)
      ensures gigs == old(gigs) && notifications == old(notifications)
      ensures events == old(events) && nextId == old(nextId)
    {
      ghost var before := bids;
      var todo := bids.Keys;
      while todo != {}
        invariant todo <= before.Keys && bids.Keys == before.Keys
        invariant forall k :: k in todo ==> bids[k] == before[k]
        invariant forall k :: k in before && k !in todo ==>
          bids[k] == if BidRoutes.IsPendingSibling(before[k], gigId, hiredId)
                     then before[k].(status := Rejected) else before[k]
        invariant gigs == old(gigs) && notifications == old(notifications)
        invariant events == old(events) && nextId == old(nextId)
        decreases todo
      {
        var k :| k in todo;
        if BidRoutes.IsPendingSibling(bids[k], gigId, hiredId) {
          bids := bids[k := bids[k].(status := Rejected)];
        }
        todo := todo - {k};
      }
    }

    /** `PATCH /api/bids/:bidId/hire`, the transaction as one atomic body:
        every refusal returns before the first write. */
    method Hire(caller: UserId, bidId: Id) returns (r: Result<Bid, Failure>)
      requires Valid()
      modifies this
      ensures r == BidRoutes.Hire(old(State()), caller, bidId).result
      ensures State() == BidRoutes.Hire(old(State()), caller, bidId).after
      ensures Valid()
    {
      ghost var db := State();
      if bidId !in bids {
        return Err(BidNotFound);
      }
      var bid := bids[bidId];
      if bid.status != Pending {
        return Err(BidUnavailable);
      }
      if bid.gigId !in gigs {
        return Err(GigNotFound);
      }
      var gig := gigs[bid.gigId];
      if gig.ownerId != caller {
        return Err(NotAuthorizedToHire);
      }
      if gig.status != Open {
        return Err(GigNotOpen);
      }
      r := CommitHire(caller, bidId);
      BidRoutes.HirePreservesInv(db, caller, bidId);
    }

    /** The writes of the hire transaction once its checks have passed: the
        three conditional updates, the live event and the notification. */
    method CommitHire(caller: UserId, bidId: Id) returns (r: Result<Bid, Failure>)
      requires WellKeyed(State())
      requires BidRoutes.HireCheck(State(), caller, bidId) == None
      modifies this
      ensures r == BidRoutes.Hire(old(State()), caller, bidId).result
      ensures State() == BidRoutes.Hire(old(State()), caller, bidId).after
    {
      ghost var db := State();
      var bid := bids[bidId];
      var gig := gigs[bid.gigId];
      if BidRoutes.GigStillOpen(gigs, gig.id) {
        gigs := gigs[gig.id := gigs[gig.id].(status := Assigned)];
      }
      assert gigs == BidRoutes.AssignIfOpen(db.gigs, gig.id);
      if BidRoutes.BidStillPending(bids, bidId) {
        bids := bids[bidId := bids[bidId].(status := Hired)];
      }
      assert bids == BidRoutes.HireIfPending(db.bids, bidId);
      RejectPendingSiblings(gig.id, bidId);
      var text := BidRoutes.HiredMessage(gig.title);
      events := events + [Event(bid.freelancerId, text, "hired")];
      var note := NewNotification(nextId, Some(bid.freelancerId), text, nextId);
      notifications := notifications[nextId := note.value];
      nextId := nextId + 1;
      r := Ok(bids[bidId]);
    }

    /** `POST /api/gigs`. */
    method CreateGig(caller: UserId, input: GigInput) returns (r: Result<Gig, Failure>)
      requires Valid()
      modifies this
      ensures r == GigRoutes.CreateGig(old(State()), caller, input).result
      ensures State() == GigRoutes.CreateGig(old(State()), caller, input).after
      ensures Valid()
    {
      GigRoutes.CreateGigPreservesInv(State(), caller, input);
      if !GigValid(input) {
        return Err(ValidationFailed);
      }
      var gig := Gig(nextId, caller, input.title, input.description, input.budget, Open, nextId);
      gigs := gigs[nextId := gig];
      nextId := nextId + 1;
      r := Ok(gig);
    }

    /** `PATCH /api/notifications/:id/read`. */
    method MarkRead(caller: UserId, id: Id) returns (r: Result<Notification, Failure>)
      requires Valid()
      modifies this
      ensures r == NotificationRoutes.MarkRead(old(State()), caller, id).result
      ensures State() == NotificationRoutes.MarkRead(old(State()), caller, id).after
      ensures Valid()
    {
      NotificationRoutes.MarkReadPreservesInv(State(), caller, id);
      if id !in notifications {
        return Err(NotificationNotFound);
      }
      var n := notifications[id];
      if n.receiverId != caller {
        return Err(NotAuthorized);
      }
      n := n.(isRead := true);
      notifications := notifications[id := n];
      r := Ok(n);
    }
  }
}
