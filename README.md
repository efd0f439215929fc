# KnowYourLimits: leaky-bucket admission, in Dafny

KnowYourLimits is a request rate limiter for ASP.NET Core. For each request it
picks a leaky-bucket configuration and an identity provider for that request,
asks the provider for the caller's identity, and admits the request when the
caller's bucket still has room. This project models the core of that
decision and proves properties of the model:

- **The leaky-bucket strategy** (`LeakyBucketRateLimitStrategy`). It keeps a
  request counter and the time of the last leak on each client identity.
  Consuming adds to the counter and refunding subtracts from it. A leak lowers
  the counter by the amount leaked over the whole leak intervals elapsed,
  never below zero, and re-bases the leak clock to the current time. It also
  builds five diagnostic headers. `LeakyBucket` models the arithmetic on
  values. `RateLimitStrategy` holds the methods that update an identity
  object in place, each proved against those values.
- **The client identity** (`LeakyBucketClientIdentity`). It is a class,
  because providers return the same object for the same caller. Its equality
  looks only at the identifier.
- **Configuration resolution** (`LeakyBucketConfigurationProvider`). It holds
  an ordered list of targets (predicate, optional configuration, optional
  identity provider) plus defaults. If two or more targets match a request,
  resolution is an error. If exactly one matches, that target wins, with
  per-field fallback to the defaults. If none matches, the defaults are used.
- **The identity caches** (`IpClientIdentityProvider`,
  `UsernameClientIdIdentityProvider`). Both do lookup-or-insert on a map from
  key to identity. The address provider never caches a blank key. The claims
  provider keys on `sub::client_id`, with `Unknown` for a missing claim.
- **The legacy interval comparator** (`LeakyBucketInterval`). It orders
  intervals by start time.

Time is an integer count of ticks (100 ns, ten million per second). Each
operation takes a single `now` parameter in place of the source's repeated
reads of the system clock. The HTTP context is the type parameter `Ctx` of
the configuration provider, and each target's predicate is a total function
of it. Identity providers, as the configuration provider sees them, are the
type parameter `P`. The address provider takes the remote address (absent
when the request has no connection feature), and the claims provider takes
the user's claims as a sequence of (type, value) pairs.

The model follows the code as written, in particular:

- `GetRemainingAllowance` and `GetResponseHeaders` do not leak; only
  `HasRemainingAllowance` does.
- `IncreaseAllowanceBy` lets the counter go negative. The next due leak
  raises a negative counter to zero.
- The two `ReduceAllowanceBy` overloads and `IncreaseAllowanceBy` return the
  new request count. The interface's documentation says they return the new
  remaining allowance (KnowYourLimits/Strategies/IRateLimitStrategy.cs:40).
- Nothing checks the leak rate. A zero rate divides by zero once the clock
  has moved past the last leak. A negative rate makes a leak due as soon as
  the clock has moved past the last leak. The truncating division then gives
  a non-positive number of intervals, so with a positive leak amount the leak
  adds to the counter. The model leaves both out: a positive leak
  rate is a precondition of every operation that leaks.
- There is no per-identity locking, and the cache has no atomic get-or-add
  (see "Left out").

The configuration carries every field the strategy and its tests use:
`MaxRequests`, `LeakRate`, `LeakAmount`, `RequestCost`, `EnableHeaders` and
`HeaderPrefix`. The last two default to `false` and `"X-"`. `RequestCost` is
read by the strategy but declared by none of the configuration classes shown.
The model gives it the default 1, the value that the long-interval test rows
need. `LeakyBucket.Configure` builds a configuration with these defaults.

## Model

| member | source | states |
|---|---|---|
| `LeakyBucket.Leaked` | KnowYourLimits/Strategies/LeakyBucket/LeakyBucketRateLimitStrategy.cs:56-79 | after a leak the clock is set, and a second leak at the same instant changes nothing; a first observation only records `now`; before a whole interval has elapsed nothing changes; otherwise the counter becomes max(0, count − LeakAmount·⌊elapsed/LeakRate⌋) and the clock moves to `now` |
| `LeakyBucket.LeakIdempotent` | KnowYourLimits/Strategies/LeakyBucket/LeakyBucketRateLimitStrategy.cs:63-72 | two leaks at the same instant act as one |
| `LeakyBucket.LeakDecreasesByLeakedTotal` | KnowYourLimits/Strategies/LeakyBucket/LeakyBucketRateLimitStrategy.cs:74-78 | for a non-negative leak amount, a due leak lowers a non-negative counter by min(leaked total, counter), and raises a negative counter to 0 |
| `LeakyBucket.LeakedTotalsSplit` | KnowYourLimits/Strategies/LeakyBucket/LeakyBucketRateLimitStrategy.cs:74-78 | with a non-negative leak amount, the amount leaked at t1 plus the amount leaked at t2 after re-basing is at most the amount a single leak at t2 would take |
| `LeakyBucket.SplitLeakNeverDrainsMore` | KnowYourLimits/Strategies/LeakyBucket/LeakyBucketRateLimitStrategy.cs:74-78 | because each leak re-bases the clock to `now`, leaking at t1 and then at t2 never leaks more than one catch-up leak at t2 |
| `LeakyBucket.RebasingDropsPartialInterval` | KnowYourLimits/Strategies/LeakyBucket/LeakyBucketRateLimitStrategy.cs:74-78 | a concrete case where re-basing loses a partial interval: leaks at 15 and 20 leak 1, a single leak at 20 leaks 2 |
| `LeakyBucket.GetRemainingAllowance` | KnowYourLimits/Strategies/LeakyBucket/LeakyBucketRateLimitStrategy.cs:81-84 | allowance remains (is positive) exactly when the counter is below `MaxRequests`; no leak is applied |
| `LeakyBucket.FreshBucketHasFullAllowance` | KnowYourLimits/Strategies/LeakyBucket/LeakyBucketRateLimitStrategy.cs:81-84 | a fresh identity's remaining allowance is `MaxRequests` |
| `LeakyBucket.ConsumeLowersAllowance` | KnowYourLimits/Strategies/LeakyBucket/LeakyBucketRateLimitStrategy.cs:25-29 | consuming n lowers the remaining allowance by exactly n, without clamping, and leaves the leak clock alone |
| `LeakyBucket.RefundUndoesConsume` | KnowYourLimits/Strategies/LeakyBucket/LeakyBucketRateLimitStrategy.cs:25-35 | consume-then-refund and refund-then-consume of the same amount restore the bucket |
| `LeakyBucket.ConsumedAllLowersBySum` | KnowYourLimits/Strategies/LeakyBucket/LeakyBucketRateLimitStrategy.cs:25-29 | consuming a sequence of amounts with no leak in between lowers the remaining allowance by their sum |
| `LeakyBucket.Decide` | KnowYourLimits.UnitTests/LeakyBucketRateLimitStrategyTests.cs:163-175 | check-then-consume: admitted iff the post-leak counter is below `MaxRequests`; the new counter is the post-leak counter plus `RequestCost` if admitted; the clock is the post-leak clock |
| `LeakyBucket.DecideMany` | KnowYourLimits.UnitTests/LeakyBucketRateLimitStrategyTests.cs:224-227 | n admission steps at one instant admit or reject each request: admitted + rejected = n; no steps change nothing; after a non-empty run the clock is the clock after one leak, since the later steps find no leak due |
| `LeakyBucket.BurstWithinInterval` | KnowYourLimits/Strategies/LeakyBucket/LeakyBucketRateLimitStrategy.cs:14-29 | with no leak due and cost 1, a burst of n admits min(n, MaxRequests − count) (none if full), rejects the rest, and rejections change nothing |
| `LeakyBucket.BurstFromFresh` | KnowYourLimits/Strategies/LeakyBucket/LeakyBucketRateLimitStrategy.cs:14-29 | from a fresh identity, n ≥ 1 admissions at one instant admit the first min(n, MaxRequests) and the counter ends at that number |
| `LeakyBucket.GetResponseHeaders` | KnowYourLimits/Strategies/LeakyBucket/LeakyBucketRateLimitStrategy.cs:37-49 | exactly five distinct keys, the prefix followed by `RateLimit-Remaining`, `-LeakRate`, `-LeakAmount`, `-BucketSize` and `-Cost`; each value parses back to the remaining allowance (no leak) or to the configured field |
| `LeakyBucket.ShouldAddHeaders` | KnowYourLimits/Strategies/LeakyBucket/LeakyBucketRateLimitStrategy.cs:51-54 | headers are added exactly when the configuration enables them; no other field and no client state plays a part |
| `LeakyBucket.HeadersAfterConsume` | KnowYourLimits/Strategies/LeakyBucket/LeakyBucketRateLimitStrategy.cs:37-49 | after consuming n, the keys are unchanged, every header except `Remaining` is unchanged, and `Remaining` parses to the old allowance minus n |
| `Decimal.IntToString` | KnowYourLimits/Strategies/LeakyBucket/LeakyBucketRateLimitStrategy.cs:43-47 | `long.ToString()`: non-empty, and starts with `-` exactly for negative numbers |
| `Decimal.IntToStringRoundTrip` | KnowYourLimits/Strategies/LeakyBucket/LeakyBucketRateLimitStrategy.cs:43-47 | parsing a rendered number gives the number back |
| `Decimal.IntToStringInjective` | KnowYourLimits/Strategies/LeakyBucket/LeakyBucketRateLimitStrategy.cs:43-47 | distinct numbers render differently, so a header value changes whenever its number does |
| `ClientIdentity.LeakyBucketClientIdentity.constructor` | KnowYourLimits/Strategies/LeakyBucket/LeakyBucketClientIdentity.cs:9-11 | a new identity carries the given identifier, a zero counter and no last leak |
| `ClientIdentity.LeakyBucketClientIdentity.Equals` | KnowYourLimits/Strategies/LeakyBucket/LeakyBucketClientIdentity.cs:8 | every identity equals itself; an identity equals null exactly when its own identifier is null |
| `ClientIdentity.EqualsIgnoresCounters` | KnowYourLimits/Strategies/LeakyBucket/LeakyBucketClientIdentity.cs:8 | two identities are equal iff their identifiers are equal, whatever their counters |
| `ClientIdentity.EqualsSymmetric` | KnowYourLimits/Strategies/LeakyBucket/LeakyBucketClientIdentity.cs:8 | equality between non-null identities is symmetric |
| `ClientIdentity.EqualsTransitive` | KnowYourLimits/Strategies/LeakyBucket/LeakyBucketClientIdentity.cs:8 | equality between non-null identities is transitive |
| `RateLimitStrategy.Leak` | KnowYourLimits/Strategies/LeakyBucket/LeakyBucketRateLimitStrategy.cs:56-79 | the in-place leak leaves the identity's counters equal to `Leaked` of the old counters and keeps the identifier |
| `RateLimitStrategy.HasRemainingAllowance` | KnowYourLimits/Strategies/LeakyBucket/LeakyBucketRateLimitStrategy.cs:14-18 | leaks in place, then answers true iff `MaxRequests` minus the post-leak counter is positive |
| `RateLimitStrategy.ReduceAllowanceBy` | KnowYourLimits/Strategies/LeakyBucket/LeakyBucketRateLimitStrategy.cs:25-29 | adds n to the counter unconditionally, keeps the clock and identifier, and returns the new counter |
| `RateLimitStrategy.ReduceAllowanceByCost` | KnowYourLimits/Strategies/LeakyBucket/LeakyBucketRateLimitStrategy.cs:20-23 | the configuration overload adds `RequestCost` and returns the new counter |
| `RateLimitStrategy.IncreaseAllowanceBy` | KnowYourLimits/Strategies/LeakyBucket/LeakyBucketRateLimitStrategy.cs:31-35 | subtracts n from the counter with no clamping, keeps the clock and identifier, and returns the new counter |
| `RateLimitStrategy.Admit` | KnowYourLimits.UnitTests/LeakyBucketRateLimitStrategyTests.cs:163-175 | check-then-consume on the identity object leaves it in the state `Decide` computes, with the same admission answer |
| `RateLimitStrategy.ConsumeThenRefund` | KnowYourLimits/Strategies/LeakyBucket/LeakyBucketRateLimitStrategy.cs:25-35 | `ReduceAllowanceBy` then `IncreaseAllowanceBy` of the same amount leaves the identity's counters as they were |
| `ConfigurationProvider.Matching` | KnowYourLimits/Strategies/LeakyBucket/LeakyBucketConfigurationProvider.cs:63 | the `Where` filter: no longer than the target list, and every selected target is registered and matches |
| `ConfigurationProvider.MatchingComplete` | KnowYourLimits/Strategies/LeakyBucket/LeakyBucketConfigurationProvider.cs:63 | the converse: every registered target whose predicate holds is selected |
| `ConfigurationProvider.MatchingEmpty` | KnowYourLimits/Strategies/LeakyBucket/LeakyBucketConfigurationProvider.cs:63 | the filtered list is empty iff no registered predicate holds |
| `ConfigurationProvider.MatchingConflict` | KnowYourLimits/Strategies/LeakyBucket/LeakyBucketConfigurationProvider.cs:63-64 | the filtered list has two or more targets iff two distinct registered predicates hold, whatever their order |
| `ConfigurationProvider.MatchingSole` | KnowYourLimits/Strategies/LeakyBucket/LeakyBucketConfigurationProvider.cs:63-68 | when only target i matches, the filtered list is exactly that target |
| `ConfigurationProvider.MatchingCount` | KnowYourLimits/Strategies/LeakyBucket/LeakyBucketConfigurationProvider.cs:63-68 | the three cases together: none, exactly one (which), or a conflict |
| `ConfigurationProvider.LeakyBucketConfigurationProvider.constructor` | KnowYourLimits/Strategies/LeakyBucket/LeakyBucketConfigurationProvider.cs:28-30 | a new provider has no targets and no defaults |
| `ConfigurationProvider.LeakyBucketConfigurationProvider.AddDefaultConfiguration` | KnowYourLimits/Strategies/LeakyBucket/LeakyBucketConfigurationProvider.cs:32-36 | overwrites the default configuration (last wins), keeps the targets and the default provider, returns the same provider |
| `ConfigurationProvider.LeakyBucketConfigurationProvider.AddDefaultIdentityProvider` | KnowYourLimits/Strategies/LeakyBucket/LeakyBucketConfigurationProvider.cs:38-42 | overwrites the default identity provider (last wins), keeps the targets and the default configuration, returns the same provider |
| `ConfigurationProvider.LeakyBucketConfigurationProvider.AddConfigurationWithProvider` | KnowYourLimits/Strategies/LeakyBucket/LeakyBucketConfigurationProvider.cs:44-51 | appends exactly one target carrying the predicate, configuration and provider; earlier targets and both defaults unchanged |
| `ConfigurationProvider.LeakyBucketConfigurationProvider.AddConfiguration` | KnowYourLimits/Strategies/LeakyBucket/LeakyBucketConfigurationProvider.cs:53-59 | appends exactly one target with no provider of its own; earlier targets and both defaults unchanged |
| `ConfigurationProvider.LeakyBucketConfigurationProvider.GetConfiguration` | KnowYourLimits/Strategies/LeakyBucket/LeakyBucketConfigurationProvider.cs:61-69 | fails iff two distinct targets match, regardless of defaults; with a sole match returns its configuration, or the default when that is null; with no match returns the default (possibly none) |
| `ConfigurationProvider.LeakyBucketConfigurationProvider.GetIdentityProvider` | KnowYourLimits/Strategies/LeakyBucket/LeakyBucketConfigurationProvider.cs:76-84 | same conflict rule; with a sole match returns its provider, or the default when it has none; with no match returns the default provider |
| `ConfigurationProvider.LeakyBucketConfigurationProvider.GetDefaultConfiguration` | KnowYourLimits/Strategies/LeakyBucket/LeakyBucketConfigurationProvider.cs:71-74 | what it returns is what configuration resolution gives every request that no target matches |
| `ConfigurationProvider.LeakyBucketConfigurationProvider.GetDefaultIdentityProvider` | KnowYourLimits/Strategies/LeakyBucket/LeakyBucketConfigurationProvider.cs:86-89 | what it returns is what identity-provider resolution gives every request that no target matches |
| `ConfigurationProvider.LeakyBucketConfigurationProvider.ResolutionsFailTogether` | KnowYourLimits/Strategies/LeakyBucket/LeakyBucketConfigurationProvider.cs:63-65 | for the same context, configuration resolution fails iff identity-provider resolution fails |
| `ConfigurationProvider.LeakyBucketConfigurationProvider.UnmatchedRequestsGetDefaults` | KnowYourLimits/Strategies/LeakyBucket/LeakyBucketConfigurationProvider.cs:68-89 | with no match, both resolutions return exactly what the default getters return |
| `ConfigurationProvider.LeakyBucketConfigurationProvider.TargetWithoutProviderUsesDefault` | KnowYourLimits/Strategies/LeakyBucket/LeakyBucketConfigurationProvider.cs:53-59 | a sole matching target registered without a provider resolves to the default provider |
| `IpIdentityProvider.IsBlank` | KnowYourLimits.AspNetCore/IpClientIdentityProvider.cs:33 | `string.IsNullOrWhiteSpace` on the key, as a scan for a non-white-space character: blank exactly when every character is white space (so the empty key is blank) |
| `IpIdentityProvider.HostAddressKey` | KnowYourLimits.AspNetCore/IpClientIdentityProvider.cs:22-24 | the key is the remote address's text; with no connection feature it is `""`, which is blank |
| `IpIdentityProvider.IpClientIdentityProvider.constructor` | KnowYourLimits.AspNetCore/IpClientIdentityProvider.cs:12-18 | a new provider has an empty cache, which holds no blank key |
| `IpIdentityProvider.IpClientIdentityProvider.GetCurrentIdentity` | KnowYourLimits.AspNetCore/IpClientIdentityProvider.cs:20-43 | the key is the remote address or `""`; a cached key returns the stored object and leaves the cache unchanged; otherwise returns a fresh identity carrying the key with zero counters, cached iff the key is not blank; the cache only grows, entries are never replaced, and no blank key is ever cached |
| `IpIdentityProvider.SameAddressSameIdentity` | KnowYourLimits.AspNetCore/IpClientIdentityProvider.cs:26-36 | two calls with the same non-blank address return the same object |
| `IpIdentityProvider.BlankAddressNeverShared` | KnowYourLimits.AspNetCore/IpClientIdentityProvider.cs:31-36 | two calls with a blank address return two distinct identities and leave the cache unchanged |
| `UsernameIdentityProvider.GetContextInformation` | KnowYourLimits.AspNetCore/UserNameClientIdIdentityProvider.cs:32-35 | the value of the first claim of the type, or `Unknown` when there is none |
| `UsernameIdentityProvider.IdentityKey` | KnowYourLimits.AspNetCore/UserNameClientIdIdentityProvider.cs:20-23 | the key is the subject value, then `::`, then the client id value, each the first claim of its type or `Unknown` |
| `UsernameIdentityProvider.UsernameClientIdIdentityProvider.constructor` | KnowYourLimits.AspNetCore/UserNameClientIdIdentityProvider.cs:12-15 | a new provider has an empty cache and a null context |
| `UsernameIdentityProvider.UsernameClientIdIdentityProvider.GetIdentityForCurrentRequest` | KnowYourLimits.AspNetCore/UserNameClientIdIdentityProvider.cs:16-30 | a null context fails with an argument error and leaves the cache unchanged; otherwise the key is `sub::client_id`; a cached key returns the stored object; an uncached key yields a fresh identity carrying it, always cached; entries are never replaced |
| `UsernameIdentityProvider.ClaimlessUsersShareKey` | KnowYourLimits.AspNetCore/UserNameClientIdIdentityProvider.cs:20-23 | every user with neither claim gets the key `Unknown::Unknown` |
| `UsernameIdentityProvider.KeyIsAmbiguous` | KnowYourLimits.AspNetCore/UserNameClientIdIdentityProvider.cs:23 | a subject containing `::` can collide with a different (subject, client id) pair |
| `IntervalOrder.LeakyBucketInterval.constructor` | Strategies/LeakyBucket/LeakyBucketInterval.cs:10-13 | a new interval has the given start and no requests |
| `IntervalOrder.LeakyBucketInterval.CompareTo` | Strategies/LeakyBucket/LeakyBucketInterval.cs:15-20 | returns −1, 0 or 1; 1 against null; against another interval, the sign of comparing the starts (the request count plays no part) |
| `IntervalOrder.LeakyBucketInterval.CompareToTime` | Strategies/LeakyBucket/LeakyBucketInterval.cs:22-25 | returns −1, 0 or 1 with the sign of comparing the start with the given time |
| `IntervalOrder.CompareToSelf` | Strategies/LeakyBucket/LeakyBucketInterval.cs:17 | an interval compares equal to itself |
| `IntervalOrder.CompareToAntisymmetric` | Strategies/LeakyBucket/LeakyBucketInterval.cs:19 | sign(a.CompareTo(b)) = −sign(b.CompareTo(a)) |
| `IntervalOrder.CompareToAgreesWithTime` | Strategies/LeakyBucket/LeakyBucketInterval.cs:15-25 | comparing with an interval equals comparing with its start |
| `StrategyScenarios.CheckAfterRequests` | KnowYourLimits.UnitTests/LeakyBucketRateLimitStrategyTests.cs:57-78 | after n requests on a fresh identity the check admits iff n < `MaxRequests` (the rows 1/10, 5/4, 41/52) |
| `StrategyScenarios.EmptyBucketRefillsAfterInterval` | KnowYourLimits.UnitTests/LeakyBucketRateLimitStrategyTests.cs:80-102 | a full bucket of 5 leaking 5 per 5 s is refused, then empty with 5 remaining at least 5 s later |
| `StrategyScenarios.SteadyRateApproachesLimit` | KnowYourLimits.UnitTests/LeakyBucketRateLimitStrategyTests.cs:104-140 | cost 3 per second against a leak of 2 per second gives remaining 37, 36, 35, 34 |
| `StrategyScenarios.FiveOfSixAdmitted` | KnowYourLimits.UnitTests/LeakyBucketRateLimitStrategyTests.cs:142-188 | six requests against a bucket of 5: five admitted, one rejected |
| `StrategyScenarios.LongIntervalRows` | KnowYourLimits.UnitTests/LeakyBucketRateLimitStrategyTests.cs:190-237 | the six rows of the long-interval test give 4, 2, 1, 5, 7 and 0, for any sleep overshoot below a second |
| `StrategyScenarios.ShouldAddHeadersFollowsFlag` | KnowYourLimits.UnitTests/LeakyBucketRateLimitStrategyTests.cs:239-255 | for the test's configuration (bucket 2, one per second) with either flag, and for every other configuration, headers are added iff `EnableHeaders` is set |
| `StrategyScenarios.HeadersOfFreshIdentity` | KnowYourLimits.UnitTests/LeakyBucketRateLimitStrategyTests.cs:257-294 | with the default prefix the five `X-RateLimit-*` keys are present; `Remaining` and `BucketSize` show `MaxRequests`, `LeakAmount` shows the leak amount, `Cost` shows `RequestCost`; after one request only `Remaining` changes, to `MaxRequests` − 1 |

## Left out

- `LeakyBucket.GetResponseHeaders`: the `LeakRate` header renders the leak interval as a decimal count of ticks. The source renders it with `TimeSpan.ToString()` (`hh:mm:ss`), which is not modelled.
- `LeakyBucket.Leaked`: negative and zero leak rates are excluded by its `requires` (and by every operation that leaks). The source accepts them: zero divides by zero, and a negative rate adds to the counter.
- `Decimal.IntToString`: models the invariant-culture rendering of `long.ToString()`. Culture-specific formatting is not modelled.
- 64-bit overflow. Counters, times and the product `LeakAmount × leaks` are unbounded integers, so the wrap-around of `long` arithmetic is not modelled.
- The wall clock. Each operation takes one `now`, instead of reading `DateTime.UtcNow` up to five times. Clock skew between those reads is not modelled.
- The unit tests' sleeps. A sleep of s seconds becomes an elapsed time of at least s seconds and less than s + 1. Requests that a test makes in a tight loop happen at one instant.
- Null identities and configurations passed to the strategy. The null guard at the top of the private leak is not modelled, because `HasRemainingAllowance` dereferences the identity right after it anyway. Identities and configurations are non-null here.
- Concurrency. The caches are `ConcurrentDictionary`s read with `ContainsKey` and then written with `TryAdd`. That race, and the lack of any per-identity locking around leak-then-consume, are not modelled. The caches are modelled as sequential maps.
- `IpClientIdentityProvider`: the HTTP context accessor and feature lookup are replaced by the remote-address string, absent when the request has no connection feature. A present feature with a null `RemoteIpAddress` throws in the source; that case is not modelled. The ill-formed guard `if(4=2)` is ignored.
- The identity providers' generic identity type. It is fixed to `LeakyBucketClientIdentity`, and `new TClientIdentity { UniqueIdentifier = key }` becomes the identity's constructor.
- `UsernameClientIdIdentityProvider`: the request's `User` is reduced to its list of claims. The `Context` property is a public field set directly.
- The setter of a target's `IdentityProvider` (a private class) is never called and is not modelled.
- ASP.NET plumbing: the middleware, its registration extensions, the example `Startup`, the `IHttpContextIdentityProvider` interface and the test-only identity providers. The middleware's check-then-consume rule appears as `RateLimitStrategy.Admit`, written as the unit tests' helper does it, consuming `RequestCost`.
- The interface-only files and the configuration classes. They contribute only field names and defaults.
- Eviction from the identity caches. The source has none, so both caches grow without bound.
