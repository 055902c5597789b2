/** The entity store as one value: the gig, bid and notification collections,
    the log of live events pushed to users' rooms, and the counter that hands
    out ObjectIds. Its invariant is the set of facts about gigs and bids that
    every route keeps. */
module Store {
  import opened Entities

  datatype Db = Db(
    gigs: map<Id, Gig>,
    bids: map<Id, Bid>,
    notifications: map<Id, Notification>,
    events: seq<Event>,
    nextId: Id)

  const Empty := Db(map[], map[], map[], [], 0)

  /** What a route answers, and the store after it. */
  datatype Outcome<T> = Outcome(result: Result<T, Failure>, after: Db)

  /** Every record's `_id` is its key and its `createdAt` is the tick at which
      that id was handed out; every key has been handed out. */
  ghost predicate WellKeyed(db: Db) {
    && (forall k :: k in db.gigs ==> db.gigs[k].id == k && db.gigs[k].createdAt == k && k < db.nextId)
    && (forall k :: k in db.bids ==> db.bids[k].id == k && db.bids[k].createdAt == k && k < db.nextId)
    && (forall k :: k in db.notifications ==>
          db.notifications[k].id == k && db.notifications[k].createdAt == k && k < db.nextId)
  }

  /** Every bid is for a stored gig, and not by that gig's owner. */
  ghost predicate BidsReferenceGigs(db: Db) {
    forall k :: k in db.bids ==>
      db.bids[k].gigId in db.gigs && db.bids[k].freelancerId != db.gigs[db.bids[k].gigId].ownerId
  }

  /** At most one bid per (gig, freelancer) pair. */
  ghost predicate OneBidPerFreelancer(bids: map<Id, Bid>) {
    forall k, k' :: k in bids && k' in bids && k != k' && bids[k].gigId == bids[k'].gigId ==>
      bids[k].freelancerId != bids[k'].freelancerId
  }

  function BidsOf(bids: map<Id, Bid>, gigId: Id): set<Id> {
    set k | k in bids && bids[k].gigId == gigId
  }

  function HiredBids(bids: map<Id, Bid>, gigId: Id): set<Id> {
    set k | k in bids && bids[k].gigId == gigId && bids[k].status == Hired
  }

  function PendingBids(bids: map<Id, Bid>, gigId: Id): set<Id> {
    set k | k in bids && bids[k].gigId == gigId && bids[k].status == Pending
  }

  /** No decision has been taken on the bids of an open gig. */
  ghost predicate OpenGigsUndecided(db: Db) {
    forall k :: k in db.bids && db.bids[k].gigId in db.gigs && db.gigs[db.bids[k].gigId].status == Open ==>
      db.bids[k].status == Pending
  }

  /** An assigned gig has exactly one hired bid and no pending one. */
  ghost predicate AssignedGigsDecided(db: Db) {
    forall g :: g in db.gigs && db.gigs[g].status == Assigned ==>
      |HiredBids(db.bids, g)| == 1 && PendingBids(db.bids, g) == {}
  }

  ghost predicate Inv(db: Db) {
    && WellKeyed(db)
    && BidsReferenceGigs(db)
    && OneBidPerFreelancer(db.bids)
    && OpenGigsUndecided(db)
    && AssignedGigsDecided(db)
  }

  /** `db'` differs from `db` at most in the statuses of its gigs and bids. */
  ghost predicate StatusesOnlyChanged(db: Db, db': Db) {
    && db'.gigs.Keys == db.gigs.Keys
    && (forall k :: k in db.gigs ==> db'.gigs[k] == db.gigs[k].(status := db'.gigs[k].status))
    && db'.bids.Keys == db.bids.Keys
    && (forall k :: k in db.bids ==> db'.bids[k] == db.bids[k].(status := db'.bids[k].status))
  }

  /** Status updates cannot break which gig a bid is for, who placed it, or
      who owns the gig. */
  lemma StatusChangesKeepReferences(db: Db, db': Db)
    requires BidsReferenceGigs(db) && OneBidPerFreelancer(db.bids)
    requires StatusesOnlyChanged(db, db')
    ensures BidsReferenceGigs(db') && OneBidPerFreelancer(db'.bids)
  {
    forall k | k in db'.bids
      ensures db'.bids[k].gigId in db'.gigs && db'.bids[k].freelancerId != db'.gigs[db'.bids[k].gigId].ownerId
    {
      assert db.bids[k].gigId in db.gigs;
    }
    forall k, k' | k in db'.bids && k' in db'.bids && k != k' && db'.bids[k].gigId == db'.bids[k'].gigId
      ensures db'.bids[k].freelancerId != db'.bids[k'].freelancerId
    {
      assert db.bids[k].gigId == db.bids[k'].gigId;
    }
  }

  lemma EmptyInv()
    ensures Inv(Empty)
  {
  }

  /** The hiring invariant of the whole store: for every gig, at most one bid
      is hired, and once one is, none is pending. */
  lemma AtMostOneHired(db: Db, gigId: Id)
    requires Inv(db)
    ensures |HiredBids(db.bids, gigId)| <= 1
    ensures HiredBids(db.bids, gigId) != {} ==> PendingBids(db.bids, gigId) == {}
  {
    if gigId in db.gigs && db.gigs[gigId].status == Assigned {
    } else {
      forall k | k in db.bids && db.bids[k].gigId == gigId
        ensures db.bids[k].status == Pending
      {
        assert db.bids[k].gigId in db.gigs;
      }
      assert HiredBids(db.bids, gigId) == {};
    }
  }
}
