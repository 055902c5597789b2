/** The client's gig state (client/src/store/slices/gigSlice.js): the open
    gigs being browsed, the gig on screen, the user's own gigs, a loading flag
    and the last error. */
module GigSlice {
  import opened Entities

  class GigState {
    var gigs: seq<Gig>
    var currentGig: Option<Gig>
    var myGigs: seq<Gig>
    var isLoading: bool
    var error: Option<string>

    /** `initialState`. */
    constructor ()
      ensures gigs == [] && currentGig == None && myGigs == [] && !isLoading && error == None
    {
      gigs := [];
      currentGig := None;
      myGigs := [];
      isLoading := false;
      error := None;
    }

    /** `clearCurrentGig`: forgets the gig on screen and nothing else. */
    method ClearCurrentGig()
      modifies this
      ensures currentGig == None
      ensures gigs == old(gigs) && myGigs == old(myGigs)
      ensures isLoading == old(isLoading) && error == old(error)
    {
      currentGig := None;
    }

    /** The `pending` case of `fetchGigs`, `fetchGig`, `createGig` and
        `fetchMyGigs`. */
    method Pending()
      modifies this
      ensures isLoading && error == None
      ensures gigs == old(gigs) && currentGig == old(currentGig) && myGigs == old(myGigs)
    {
      isLoading := true;
      error := None;
    }

    /** The `rejected` case of the same four requests: the message becomes
        the error; the lists and the gig on screen stay. */
    method Rejected(message: string)
      modifies this
      ensures !isLoading && error == Some(message)
      ensures gigs == old(gigs) && currentGig == old(currentGig) && myGigs == old(myGigs)
    {
      isLoading := false;
      error := Some(message);
    }

    /** `fetchGigs.fulfilled`: replaces the browsed list only. */
    method FetchGigsFulfilled(payload: seq<Gig>)
      modifies this
      ensures gigs == payload
      ensures !isLoading && currentGig == old(currentGig) && myGigs == old(myGigs) && error == old(error)
    {
      isLoading := false;
      gigs := payload;
    }

    /** `fetchGig.fulfilled`: replaces the gig on screen only. */
    method FetchGigFulfilled(payload: Gig)
      modifies this
      ensures currentGig == Some(payload)
      ensures !isLoading && gigs == old(gigs) && myGigs == old(myGigs) && error == old(error)
    {
      isLoading := false;
      currentGig := Some(payload);
    }

    /** `createGig.fulfilled`: the new gig goes first in both lists, as it
        does in the server's listings (GigRoutes.CreatedGigListedFirst). */
    method CreateGigFulfilled(payload: Gig)
      modifies this
      ensures gigs == [payload] + old(gigs) && myGigs == [payload] + old(myGigs)
      ensures !isLoading && currentGig == old(currentGig) && error == old(error)
    {
      isLoading := false;
      gigs := [payload] + gigs;
      myGigs := [payload] + myGigs;
    }

    /** `fetchMyGigs.fulfilled`: replaces the user's own list only. */
    method FetchMyGigsFulfilled(payload: seq<Gig>)
      modifies this
      ensures myGigs == payload
      ensures !isLoading && gigs == old(gigs) && currentGig == old(currentGig) && error == old(error)
    {
      isLoading := false;
      myGigs := payload;
    }
  }
}
