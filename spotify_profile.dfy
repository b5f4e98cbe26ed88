/** The profile id (useSpotifyProfile): fetched once a user token is held, forgotten when the
    token goes away. */
module SpotifyProfile {
  import opened Types

  /** The one request the hook makes: `makeAuthenticatedRequest("me", "GET", null)`. */
  const MeRequest := ApiRequest("me", "GET", None)

  class Profile {
    var userProfileId: Option<string>

    constructor ()
      ensures userProfileId == None
    {
      userProfileId := None;
    }

    /** One run of the hook's effect with the current user token. When the effect asks for the
        profile, `reply` is what the request gives back (its `Threw` is an error, which is
        logged and swallowed). */
    method Effect(userAccessToken: Option<string>, reply: ApiReply) returns (request: Option<ApiRequest>)
      modifies this
      ensures request.Some? <==> Truthy(userAccessToken) && !Truthy(old(userProfileId))
      ensures request.Some? ==> request.value == MeRequest
      ensures !Truthy(userAccessToken) ==> userProfileId == None
      ensures request.Some? && reply.Object? && Truthy(reply.id) ==> userProfileId == reply.id
      ensures request.Some? && !(reply.Object? && Truthy(reply.id)) ==> userProfileId == old(userProfileId)
      ensures Truthy(userAccessToken) && Truthy(old(userProfileId)) ==> userProfileId == old(userProfileId)
    {
      if Truthy(userAccessToken) && !Truthy(userProfileId) {
        request := Some(MeRequest);
        GetUserProfileId(reply);
      } else {
        request := None;
        if !Truthy(userAccessToken) {
          userProfileId := None;
        }
      }
    }

    /** `getUserProfileId()` once its request has given back `reply`: the id is taken only
        from a reply that has one. */
    method GetUserProfileId(reply: ApiReply)
      modifies this
      ensures reply.Object? && Truthy(reply.id) ==> userProfileId == reply.id
      ensures !(reply.Object? && Truthy(reply.id)) ==> userProfileId == old(userProfileId)
    {
      if reply.Object? && Truthy(reply.id) {
        userProfileId := reply.id;
      }
    }
  }
}
