/** The client's bid state (client/src/store/slices/bidSlice.js): the bids of
    the gig on screen, the user's own bids, a loading flag and the last error
    message. Each reducer case is a method that updates the state in place. */
module BidSlice {
  import opened Entities
  import opened Listing
  import opened Store
  import BidRoutes

  /** One element of the `hireBid.fulfilled` map: the hired bid by its `_id`,
      any other pending bid rejected, the rest left alone. */
  function HireOutcome(b: Bid, hiredId: Id): Bid {
    if b.id == hiredId then b.(status := Hired)
    else if b.status == Pending then b.(status := Rejected)
    else b
  }

  /** `hireBid.fulfilled` on the list: same bids in the same order, only
      statuses change; nothing is left pending; a bid ends up hired exactly
      when it is the chosen one or was hired already; a rejected bid was
      pending or rejected before. */
  function MarkHired(bids: seq<Bid>, hiredId: Id): (r: seq<Bid>)
    ensures |r| == |bids|
    ensures forall i :: 0 <= i < |r| ==> r[i] == bids[i].(status := r[i].status)
    ensures forall i :: 0 <= i < |r| ==> r[i].status != Pending
    ensures forall i :: 0 <= i < |r| ==>
      (r[i].status == Hired <==> bids[i].id == hiredId || bids[i].status == Hired)
    ensures forall i :: 0 <= i < |r| ==>
      (r[i].status == Rejected <==> bids[i].id != hiredId && bids[i].status != Hired)
  {
    seq(|bids|, i requires 0 <= i < |bids| => HireOutcome(bids[i], hiredId))
  }

  /** A hire changes no bid's gig and hands out one new id, to a
      notification, so the gig's bids are listed under the same ids. */
  lemma HireKeepsGigBidIds(db: Db, caller: UserId, bidId: Id)
    requires WellKeyed(db)
    requires BidRoutes.Hire(db, caller, bidId).result.Ok?
    ensures var db' := BidRoutes.Hire(db, caller, bidId).after;
      var g := db.bids[bidId].gigId;
      Descending(BidsOf(db'.bids, g), db'.nextId) == Descending(BidsOf(db.bids, g), db.nextId)
  {
    var db' := BidRoutes.Hire(db, caller, bidId).after;
    BidRoutes.HireKeepsShape(db, caller, bidId);
    BidRoutes.HireNotifies(db, caller, bidId);
    forall k | k in db.bids
      ensures db'.bids[k].gigId == db.bids[k].gigId && k < db.nextId
    {
    }
    SameGigsSameListing(db.bids, db'.bids, db.bids[bidId].gigId, db.nextId, db'.nextId);
  }

  /** Bids that keep their ids and gigs, all below the counter, are listed
      alike after the counter moves on by one. */
  lemma SameGigsSameListing(bids: map<Id, Bid>, bids': map<Id, Bid>, g: Id, n: nat, n': nat)
    requires n' == n + 1
    requires bids'.Keys == bids.Keys
    requires forall k :: k in bids ==> bids'[k].gigId == bids[k].gigId && k < n
    ensures Descending(BidsOf(bids', g), n') == Descending(BidsOf(bids, g), n)
  {
    assert BidsOf(bids', g) == BidsOf(bids, g);
    DescendingGrow(BidsOf(bids, g), BidsOf(bids', g), n, n');
  }

  /** On the server each bid of the hired gig ends as the client's map says. */
  lemma HireOutcomeOnServer(db: Db, caller: UserId, bidId: Id, k: Id)
    requires WellKeyed(db)
    requires BidRoutes.Hire(db, caller, bidId).result.Ok?
    requires k in db.bids && db.bids[k].gigId == db.bids[bidId].gigId
    ensures var db' := BidRoutes.Hire(db, caller, bidId).after;
      k in db'.bids && db'.bids[k] == HireOutcome(db.bids[k], bidId)
  {
    BidRoutes.HireWrites(db, caller, bidId);
  }

  /** The client's update after a successful hire is exactly what fetching the
      gig's bids again returns: for the gig's owner, marking the listed bids
      gives the server's listing after the hire. */
  lemma MarkHiredMatchesServer(db: Db, caller: UserId, bidId: Id)
    requires WellKeyed(db)
    requires BidRoutes.Hire(db, caller, bidId).result.Ok?
    ensures var g := db.bids[bidId].gigId;
      var before := BidRoutes.ListGigBids(db, caller, g);
      var after := BidRoutes.ListGigBids(BidRoutes.Hire(db, caller, bidId).after, caller, g);
      && before.Ok? && after.Ok?
      && after.value == MarkHired(before.value, bidId)
  {
    var db' := BidRoutes.Hire(db, caller, bidId).after;
    var g := db.bids[bidId].gigId;
    HireKeepsGigBidIds(db, caller, bidId);
    BidRoutes.HireWrites(db, caller, bidId);
    var ids := Descending(BidsOf(db.bids, g), db.nextId);
    assert ids == Descending(BidsOf(db'.bids, g), db'.nextId);
    var before := Lookup(db.bids, ids);
    var after := Lookup(db'.bids, ids);
    assert BidRoutes.ListGigBids(db, caller, g) == Ok(before);
    assert BidRoutes.ListGigBids(db', caller, g) == Ok(after);
    forall i | 0 <= i < |ids|
      ensures after[i] == HireOutcome(before[i], bidId)
    {
      HireOutcomeOnServer(db, caller, bidId, ids[i]);
    }
    assert after == MarkHired(before, bidId);
  }

  class BidState {
    var gigBids: seq<Bid>
    var myBids: seq<Bid>
    var isLoading: bool
    var error: Option<string>

    /** `initialState`. */
    constructor ()
      ensures gigBids == [] && myBids == [] && !isLoading && error == None
    {
      gigBids := [];
      myBids := [];
      isLoading := false;
      error := None;
    }

    /** `clearGigBids`: empties the gig's list and nothing else. */
    method ClearGigBids()
      modifies this
      ensures gigBids == []
      ensures myBids == old(myBids) && isLoading == old(isLoading) && error == old(error)
    {
      gigBids := [];
    }

    /** The `pending` case of `createBid`, `fetchGigBids` and `fetchMyBids`. */
    method Pending()
      modifies this
      ensures isLoading && error == None
      ensures gigBids == old(gigBids) && myBids == old(myBids)
    {
      isLoading := true;
      error := None;
    }

    /** The `rejected` case of `createBid`, `fetchGigBids` and `fetchMyBids`:
        the message becomes the error, the lists stay. */
    method Rejected(message: string)
      modifies this
      ensures !isLoading && error == Some(message)
      ensures gigBids == old(gigBids) && myBids == old(myBids)
    {
      isLoading := false;
      error := Some(message);
    }

    /** `createBid.fulfilled`: the new bid goes to the end of the gig's list. */
    method CreateBidFulfilled(bid: Bid)
      modifies this
      ensures gigBids == old(gigBids) + [bid]
      ensures !isLoading && myBids == old(myBids) && error == old(error)
    {
      isLoading := false;
      gigBids := gigBids + [bid];
    }

    /** `fetchGigBids.fulfilled`: replaces the gig's list only. */
    method FetchGigBidsFulfilled(bids: seq<Bid>)
      modifies this
      ensures gigBids == bids
      ensures !isLoading && myBids == old(myBids) && error == old(error)
    {
      isLoading := false;
      gigBids := bids;
    }

    /** `fetchMyBids.fulfilled`: replaces the user's own list only. */
    method FetchMyBidsFulfilled(bids: seq<Bid>)
      modifies this
      ensures myBids == bids
      ensures !isLoading && gigBids == old(gigBids) && error == old(error)
    {
      isLoading := false;
      myBids := bids;
    }

    /** `hireBid.fulfilled`: the server's hired bid decides the gig's list. */
    method HireBidFulfilled(hired: Bid)
      modifies this
      ensures gigBids == MarkHired(old(gigBids), hired.id)
      ensures myBids == old(myBids) && isLoading == old(isLoading) && error == old(error)
    {
      gigBids := MarkHired(gigBids, hired.id);
    }
  }
}
