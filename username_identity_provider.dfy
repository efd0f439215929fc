/**
 * The claims-keyed identity cache: one identity per pair of subject and
 * client id claims, created on first sight and always cached.
 */
module UsernameIdentityProvider {
  import opened Wrappers
  import opened LeakyBucket
  import opened ClientIdentity

  /** A claim of the request's user. */
  datatype Claim = Claim(claimType: string, value: string)

  /** The exception thrown when no request context is set. */
  datatype ProviderError = ContextArgumentError

  const Unknown: string := "Unknown"

  /** The value of the first claim of the given type, or "Unknown" when the user has none. */
  function GetContextInformation(claims: seq<Claim>, claimType: string): (r: string)
    ensures (forall i :: 0 <= i < |claims| ==> claims[i].claimType != claimType) ==> r == Unknown
    ensures forall i :: 0 <= i < |claims| && claims[i].claimType == claimType &&
                        (forall j :: 0 <= j < i ==> claims[j].claimType != claimType) ==>
                          r == claims[i].value
    decreases |claims|
  {
    if |claims| == 0 then Unknown
    else if claims[0].claimType == claimType then claims[0].value
    else
      var r := GetContextInformation(claims[1..], claimType);
      assert forall i :: 1 <= i < |claims| ==> claims[i] == claims[1..][i - 1];
      r
  }

  /** The cache key: subject and client id joined by "::". */
  function IdentityKey(claims: seq<Claim>): (key: string)
    ensures var sub, clientId := GetContextInformation(claims, "sub"), GetContextInformation(claims, "client_id");
            && |key| == |sub| + 2 + |clientId|
            && key[..|sub|] == sub
            && key[|sub|..|sub| + 2] == "::"
            && key[|sub| + 2..] == clientId
  {
    GetContextInformation(claims, "sub") + "::" + GetContextInformation(claims, "client_id")
  }

  class UsernameClientIdIdentityProvider {
    var clientIdentities: map<string, LeakyBucketClientIdentity>
    /** The claims of the current request's user; `None` is a null context. */
    var context: Option<seq<Claim>>

    constructor ()
      ensures clientIdentities == map[] && context.None?
    {
      clientIdentities := map[];
      context := None;
    }

    /**
     * Lookup-or-insert on the claims key: with no context, an argument error;
     * a cached identity is returned as it is; otherwise a fresh identity
     * carrying the key is returned and cached.
     */
    method GetIdentityForCurrentRequest() returns (r: Result<LeakyBucketClientIdentity, ProviderError>)
      modifies this`clientIdentities
      ensures context.None? ==> r == Failure(ContextArgumentError) && clientIdentities == old(clientIdentities)
      ensures context.Some? ==>
                var key := IdentityKey(context.value);
                && r.Success?
                && (key in old(clientIdentities) ==>
                      r.value == old(clientIdentities)[key] && clientIdentities == old(clientIdentities))
                && (key !in old(clientIdentities) ==>
                      && fresh(r.value)
                      && r.value.uniqueIdentifier == Some(key)
                      && r.value.State() == Fresh
                      && clientIdentities == old(clientIdentities)[key := r.value])
      // the cache only grows, and no entry is ever replaced
      ensures forall key :: key in old(clientIdentities) ==>
                key in clientIdentities && clientIdentities[key] == old(clientIdentities)[key]
    {
      if context.None? {
        return Failure(ContextArgumentError);
      }
      var username := GetContextInformation(context.value, "sub");
      var clientId := GetContextInformation(context.value, "client_id");
      var usernameClientId := username + "::" + clientId;
      if usernameClientId in clientIdentities {
        return Success(clientIdentities[usernameClientId]);
      }
      var newIdentity := new LeakyBucketClientIdentity(Some(usernameClientId));
      // TryAdd: the key is known to be absent here
      clientIdentities := clientIdentities[usernameClientId := newIdentity];
      r := Success(newIdentity);
    }
  }

  /** Every user without the two claims shares the key "Unknown::Unknown", hence one bucket. */
  lemma ClaimlessUsersShareKey(claims: seq<Claim>)
    requires forall i :: 0 <= i < |claims| ==> claims[i].claimType != "sub" && claims[i].claimType != "client_id"
    ensures IdentityKey(claims) == "Unknown::Unknown"
  {
  }

  /**
   * The key does not separate its parts: a subject containing "::" can
   * collide with a different subject and client id.
   */
  lemma KeyIsAmbiguous()
    ensures IdentityKey([Claim("sub", "a::b"), Claim("client_id", "c")]) ==
            IdentityKey([Claim("sub", "a"), Claim("client_id", "b::c")])
  {
    assert IdentityKey([Claim("sub", "a::b"), Claim("client_id", "c")]) == "a::b::c";
    assert IdentityKey([Claim("sub", "a"), Claim("client_id", "b::c")]) == "a::b::c";
  }
}
