/** The records of the marketplace's entity store (gigs, bids, notifications),
    their status enumerations, the live event pushed to a user's room, and the
    error responses the routes send back. */
module Entities {

  /** A MongoDB ObjectId. The store hands ids out in creation order from one
      counter, which the model also uses as the creation clock. */
  type Id = nat

  /** The ObjectId of a registered user, as supplied by the auth middleware. */
  type UserId = nat

  datatype Option<T> = None | Some(value: T)

  datatype GigStatus = Open | Assigned

  datatype BidStatus = Pending | Hired | Rejected

  datatype Gig = Gig(
    id: Id,
    ownerId: UserId,
    title: string,
    description: string,
    budget: real,
    status: GigStatus,
    createdAt: nat)

  datatype Bid = Bid(
    id: Id,
    gigId: Id,
    freelancerId: UserId,
    message: string,
    price: real,
    status: BidStatus,
    createdAt: nat)

  /** A stored notification (server/models/Notification.js). */
  datatype Notification = Notification(
    id: Id,
    receiverId: UserId,
    message: string,
    isRead: bool,
    createdAt: nat)

  /** Why Mongoose refuses to create a notification. */
  datatype SchemaError = ReceiverRequired | MessageRequired

  /** `Notification.create`: `receiverId` and `message` are required (Mongoose
      treats an empty string as missing) and `isRead` defaults to false. */
  function NewNotification(id: Id, receiverId: Option<UserId>, message: string, now: nat)
    : (r: Result<Notification, SchemaError>)
    ensures r.Ok? <==> receiverId.Some? && message != []
    ensures receiverId.None? ==> r == Err(ReceiverRequired)
    ensures receiverId.Some? && message == [] ==> r == Err(MessageRequired)
    ensures r.Ok? ==> r.value == Notification(id, receiverId.value, message, false, now)
  {
    if receiverId.None? then Err(ReceiverRequired)
    else if message == [] then Err(MessageRequired)
    else Ok(Notification(id, receiverId.value, message, false, now))
  }

  /** A Socket.io event emitted to the room named after a user's id. */
  datatype Event = Event(room: UserId, message: string, kind: string)

  datatype Result<T, E> = Ok(value: T) | Err(error: E)

  /** The failure responses of the gig, bid and notification routes. */
  datatype Failure =
    | ValidationFailed      // a zod schema rejected the request body
    | GigNotFound
    | GigNotAccepting       // bid on a gig that is not open
    | OwnGig                // bid on one's own gig
    | DuplicateBid
    | NotAuthorizedToView   // bid list of someone else's gig
    | BidNotFound
    | BidUnavailable        // hire of a bid that is not pending
    | NotAuthorizedToHire
    | GigNotOpen            // hire on a gig that is not open
    | NotificationNotFound
    | NotAuthorized         // mark-read of someone else's notification

  /** The HTTP status each route answers with. Validation errors are thrown by
      zod and answered by the error middleware, whose code is not part of this
      model; 400 is what it is taken to send. */
  function StatusCode(f: Failure): (code: nat)
    ensures 400 <= code < 500
    ensures code == 404 <==> f.GigNotFound? || f.BidNotFound? || f.NotificationNotFound?
    ensures code == 403 <==> f.NotAuthorizedToView? || f.NotAuthorizedToHire? || f.NotAuthorized?
    ensures code == 400 || code == 403 || code == 404
  {
    match f
    case GigNotFound | BidNotFound | NotificationNotFound => 404
    case NotAuthorizedToView | NotAuthorizedToHire | NotAuthorized => 403
    case _ => 400
  }

  /** The `message` field of each failure response the routes write themselves
      (zod composes the text of a validation error). */
  function Message(f: Failure): string
    requires !f.ValidationFailed?
  {
    match f
    case GigNotFound => "Gig not found"
    case GigNotAccepting => "Gig is no longer accepting bids"
    case OwnGig => "You cannot bid on your own gig"
    case DuplicateBid => "You have already placed a bid on this gig"
    case NotAuthorizedToView => "Not authorized to view these bids"
    case BidNotFound => "Bid not found"
    case BidUnavailable => "Bid is no longer available"
    case NotAuthorizedToHire => "Not authorized to hire for this gig"
    case GigNotOpen => "Gig is no longer open"
    case NotificationNotFound => "Notification not found"
    case NotAuthorized => "Not authorized"
  }
}
