/** Delivery of the hire's live event: the room a hire emits to is the room
    the hired freelancer's socket connections join. */
module LiveEvents {
  import opened Entities
  import opened Validation
  import opened Store
  import BidRoutes
  import Socket

  /** The `hired` event of a successful hire is addressed to the room named
      after the hired freelancer's id: a connection that joined its own room
      receives it exactly when its user is that freelancer. The store keeps
      user ids unbounded; a real one is an ObjectId, below 16^24. */
  lemma HiredEventReachesFreelancer(db: Db, caller: UserId, bidId: Id, freelancer: Socket.ObjectIdValue, user: Socket.ObjectIdValue)
    requires WellKeyed(db)
    requires BidRoutes.Hire(db, caller, bidId).result.Ok?
    requires db.bids[bidId].freelancerId == freelancer
    ensures BidRoutes.Hire(db, caller, bidId).after.events
      == db.events + [Event(freelancer, BidRoutes.HiredMessage(db.gigs[db.bids[bidId].gigId].title), "hired")]
    ensures ObjectIdString(freelancer) == ObjectIdString(user) <==> user == freelancer
  {
    BidRoutes.HireNotifies(db, caller, bidId);
    Socket.RoomsIdentifyUsers(freelancer, user);
  }
}
