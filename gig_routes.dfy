/** The gig routes of server/routes/gigRoutes.js: the open-gig listing
    (`GET /` without a search term), a single gig (`GET /:gigId`), gig creation
    (`POST /`) and the owner's gigs (`GET /mine`). */
module GigRoutes {
  import opened Entities
  import opened Validation
  import opened Listing
  import opened Store

  function OpenGigIds(gigs: map<Id, Gig>): set<Id> {
    set k | k in gigs && gigs[k].status == Open
  }

  function OwnedGigIds(gigs: map<Id, Gig>, owner: UserId): set<Id> {
    set k | k in gigs && gigs[k].ownerId == owner
  }

  /** `GET /` with no search term: the open gigs, newest first. */
  function ListOpenGigs(db: Db): seq<Gig> {
    Lookup(db.gigs, Descending(OpenGigIds(db.gigs), db.nextId))
  }

  /** Only open gigs are listed, every open gig is listed, newest first. */
  lemma ListOpenGigsSpec(db: Db)
    requires WellKeyed(db)
    ensures var r := ListOpenGigs(db);
      && (forall i :: 0 <= i < |r| ==> r[i].status == Open && r[i].id in db.gigs && r[i] == db.gigs[r[i].id])
      && (forall k :: k in db.gigs && db.gigs[k].status == Open ==> db.gigs[k] in r)
      && (forall i, j :: 0 <= i < j < |r| ==> r[i].createdAt > r[j].createdAt)
  {
    var ids := Descending(OpenGigIds(db.gigs), db.nextId);
    forall k | k in db.gigs && db.gigs[k].status == Open
      ensures db.gigs[k] in ListOpenGigs(db)
    {
      LookupHas(db.gigs, ids, k);
    }
  }

  /** `GET /:gigId`. */
  function GetGig(db: Db, gigId: Id): Result<Gig, Failure> {
    if gigId !in db.gigs then Err(GigNotFound) else Ok(db.gigs[gigId])
  }

  /** 404 exactly for an absent gig, otherwise the stored gig itself; a gig is
      in the open listing exactly when fetching it by id gives an open gig. */
  lemma GetGigAgreesWithListing(db: Db, gigId: Id)
    requires WellKeyed(db)
    ensures GetGig(db, gigId) == Err(GigNotFound) <==> gigId !in db.gigs
    ensures gigId in db.gigs ==> GetGig(db, gigId) == Ok(db.gigs[gigId]) && db.gigs[gigId].id == gigId
    ensures (GetGig(db, gigId).Ok? && GetGig(db, gigId).value.status == Open)
        <==> (exists i :: 0 <= i < |ListOpenGigs(db)| && ListOpenGigs(db)[i].id == gigId)
  {
    ListOpenGigsSpec(db);
    var r := ListOpenGigs(db);
    if gigId in db.gigs && db.gigs[gigId].status == Open {
      var i :| 0 <= i < |r| && r[i] == db.gigs[gigId];
      assert r[i].id == gigId;
    }
  }

  /** `GET /mine`: the caller's gigs, of any status, newest first. */
  function MyGigs(db: Db, caller: UserId): seq<Gig> {
    Lookup(db.gigs, Descending(OwnedGigIds(db.gigs, caller), db.nextId))
  }

  lemma MyGigsSpec(db: Db, caller: UserId)
    requires WellKeyed(db)
    ensures var r := MyGigs(db, caller);
      && (forall i :: 0 <= i < |r| ==> r[i].ownerId == caller && r[i].id in db.gigs && r[i] == db.gigs[r[i].id])
      && (forall k :: k in db.gigs && db.gigs[k].ownerId == caller ==> db.gigs[k] in r)
      && (forall i, j :: 0 <= i < j < |r| ==> r[i].createdAt > r[j].createdAt)
  {
    var ids := Descending(OwnedGigIds(db.gigs, caller), db.nextId);
    forall k | k in db.gigs && db.gigs[k].ownerId == caller
      ensures db.gigs[k] in MyGigs(db, caller)
    {
      LookupHas(db.gigs, ids, k);
    }
  }

  /** `POST /`: validate the body and store an open gig owned by the caller. */
  function CreateGig(db: Db, caller: UserId, input: GigInput): Outcome<Gig> {
    if !GigValid(input) then Outcome(Err(ValidationFailed), db)
    else
      var gig := Gig(db.nextId, caller, input.title, input.description, input.budget, Open, db.nextId);
      Outcome(Ok(gig), db.(gigs := db.gigs[db.nextId := gig], nextId := db.nextId + 1))
  }

  /** A refused body changes nothing; an accepted one adds exactly one new
      open gig with the validated fields and the caller as owner. */
  lemma CreateGigEffect(db: Db, caller: UserId, input: GigInput)
    requires WellKeyed(db)
    ensures var o := CreateGig(db, caller, input);
      && (o.result.Ok? <==> GigValid(input))
      && (o.result.Err? ==> o.after == db)
      && (o.result.Ok? ==>
            var gig := o.result.value;
            && gig.id !in db.gigs
            && gig == Gig(gig.id, caller, input.title, input.description, input.budget, Open, gig.createdAt)
            && o.after == db.(gigs := db.gigs[gig.id := gig], nextId := o.after.nextId)
            && |o.after.gigs| == |db.gigs| + 1)
  {
  }

  lemma CreateGigPreservesInv(db: Db, caller: UserId, input: GigInput)
    requires Inv(db)
    ensures Inv(CreateGig(db, caller, input).after)
  {
    var o := CreateGig(db, caller, input);
    if o.result.Ok? {
      var db' := o.after;
      forall k | k in db'.bids
        ensures db'.bids[k].gigId in db'.gigs && db'.bids[k].freelancerId != db'.gigs[db'.bids[k].gigId].ownerId
      {
        assert db.bids[k].gigId in db.gigs;
      }
    }
  }

  /** A new gig heads both the open listing and its owner's list, ahead of
      everything that was there, which keeps its order. */
  lemma CreatedGigListedFirst(db: Db, caller: UserId, input: GigInput)
    requires WellKeyed(db)
    requires CreateGig(db, caller, input).result.Ok?
    ensures var o := CreateGig(db, caller, input);
      && ListOpenGigs(o.after) == [o.result.value] + ListOpenGigs(db)
      && MyGigs(o.after, caller) == [o.result.value] + MyGigs(db, caller)
  {
    var o := CreateGig(db, caller, input);
    var db' := o.after;
    var n := db.nextId;
    DescendingGrow(OpenGigIds(db.gigs), OpenGigIds(db'.gigs), n, db'.nextId);
    DescendingGrow(OwnedGigIds(db.gigs, caller), OwnedGigIds(db'.gigs, caller), n, db'.nextId);
    LookupExtend(db.gigs, n, o.result.value, Descending(OpenGigIds(db.gigs), n));
    LookupExtend(db.gigs, n, o.result.value, Descending(OwnedGigIds(db.gigs, caller), n));
  }
}
