/**
 * The address-keyed identity cache: one identity per remote address, created
 * on first sight; a blank address is never cached.
 */
module IpIdentityProvider {
  import opened Wrappers
  import opened LeakyBucket
  import opened ClientIdentity

  /** `char.IsWhiteSpace`: the Unicode space separators, line and paragraph separators, and U+0009-U+000D, U+0085. */
  predicate IsWhiteSpace(c: char) {
    var n := c as int;
    || n == 0x20 || 0x09 <= n <= 0x0D || n == 0x85 || n == 0xA0 || n == 0x1680
    || 0x2000 <= n <= 0x200A || n == 0x2028 || n == 0x2029 || n == 0x202F
    || n == 0x205F || n == 0x3000
  }

  /**
   * `string.IsNullOrWhiteSpace` for a non-null string, scanning for the first
   * character that is not white space: blank exactly when there is none.
   */
  predicate IsBlank(s: string)
    ensures IsBlank(s) <==> forall i :: 0 <= i < |s| ==> IsWhiteSpace(s[i])
    decreases |s|
  {
    |s| == 0 || (IsWhiteSpace(s[0]) && IsBlank(s[1..]))
  }

  /** The cache key: the remote address's text, or "" when the request has no connection feature. */
  function HostAddressKey(remoteAddress: Option<string>): (key: string)
    ensures remoteAddress.Some? ==> key == remoteAddress.value
    ensures remoteAddress.None? ==> key == "" && IsBlank(key)
  {
    remoteAddress.GetOr("")
  }

  class IpClientIdentityProvider {
    var clientIdentities: map<string, LeakyBucketClientIdentity>

    /** No blank key is ever cached. */
    ghost predicate Valid()
      reads this
    {
      forall key :: key in clientIdentities ==> !IsBlank(key)
    }

    constructor ()
      ensures Valid() && clientIdentities == map[]
    {
      clientIdentities := map[];
    }

    /**
     * Lookup-or-insert: a cached identity is returned as it is; otherwise a
     * fresh identity carrying the key is returned, and cached unless the key
     * is blank.
     */
    method GetCurrentIdentity(remoteAddress: Option<string>) returns (identity: LeakyBucketClientIdentity)
      modifies this
      ensures old(Valid()) ==> Valid()
      ensures var key := HostAddressKey(remoteAddress);
              key in old(clientIdentities) ==>
                identity == old(clientIdentities)[key] && clientIdentities == old(clientIdentities)
      ensures var key := HostAddressKey(remoteAddress);
              key !in old(clientIdentities) ==>
                && fresh(identity)
                && identity.uniqueIdentifier == Some(key)
                && identity.State() == Fresh
                && clientIdentities == if IsBlank(key) then old(clientIdentities) else old(clientIdentities)[key := identity]
      // the cache only grows, and no entry is ever replaced
      ensures forall key :: key in old(clientIdentities) ==>
                key in clientIdentities && clientIdentities[key] == old(clientIdentities)[key]
    {
      var userHostAddress := HostAddressKey(remoteAddress);
      if userHostAddress in clientIdentities {
        return clientIdentities[userHostAddress];
      }
      identity := new LeakyBucketClientIdentity(Some(userHostAddress));
      if !IsBlank(userHostAddress) {
        // TryAdd: the key is known to be absent here
        clientIdentities := clientIdentities[userHostAddress := identity];
      }
    }
  }

  /** Two requests from the same non-blank address get the very same identity object. */
  method SameAddressSameIdentity(provider: IpClientIdentityProvider, address: string)
    returns (first: LeakyBucketClientIdentity, second: LeakyBucketClientIdentity)
    requires !IsBlank(address)
    modifies provider
    ensures first == second
  {
    first := provider.GetCurrentIdentity(Some(address));
    second := provider.GetCurrentIdentity(Some(address));
  }

  /** Two requests with a blank address get two distinct identities, and the cache does not change. */
  method BlankAddressNeverShared(provider: IpClientIdentityProvider, address: Option<string>)
    returns (first: LeakyBucketClientIdentity, second: LeakyBucketClientIdentity)
    requires provider.Valid() && IsBlank(HostAddressKey(address))
    modifies provider
    ensures first != second
    ensures provider.clientIdentities == old(provider.clientIdentities)
  {
    first := provider.GetCurrentIdentity(address);
    second := provider.GetCurrentIdentity(address);
  }
}
