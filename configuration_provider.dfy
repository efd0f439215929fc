/**
 * Resolution of the configuration and identity provider for a request: an
 * ordered list of targets, each a predicate over the request context with an
 * optional configuration and an optional identity provider, plus a default of
 * each. More than one matching target is an error.
 *
 * `Ctx` stands for the HTTP context and `P` for identity providers; a
 * predicate is a total function of the context. The source's non-nullable
 * parameters are not checked at run time, so a passed-in configuration or
 * provider may be null (`None`).
 */
module ConfigurationProvider {
  import opened Wrappers
  import opened LeakyBucket

  /** The exception thrown when several targets match one request. */
  datatype ConfigurationError = MultipleConfigurationsMatch

  datatype ConfigTarget<!Ctx, P> = ConfigTarget(
    useWhen: Ctx -> bool,
    configuration: Option<LeakyBucketConfiguration>,
    identityProvider: Option<P>)

  /** The targets whose predicate holds for `ctx`, in registration order. */
  function Matching<Ctx, P>(targets: seq<ConfigTarget<Ctx, P>>, ctx: Ctx): (r: seq<ConfigTarget<Ctx, P>>)
    ensures |r| <= |targets|
    ensures forall k :: 0 <= k < |r| ==> r[k].useWhen(ctx) && r[k] in targets
    decreases |targets|
  {
    if |targets| == 0 then []
    else (if targets[0].useWhen(ctx) then [targets[0]] else []) + Matching(targets[1..], ctx)
  }

  /** Every registered target whose predicate holds is selected. */
  lemma {:induction false} MatchingComplete<Ctx, P>(targets: seq<ConfigTarget<Ctx, P>>, ctx: Ctx, i: int)
    requires 0 <= i < |targets| && targets[i].useWhen(ctx)
    ensures targets[i] in Matching(targets, ctx)
    decreases |targets|
  {
    if i > 0 {
      assert targets[1..][i - 1] == targets[i];
      MatchingComplete(targets[1..], ctx, i - 1);
    }
  }

  /** Two distinct registered targets both match. */
  ghost predicate Conflict<Ctx, P>(targets: seq<ConfigTarget<Ctx, P>>, ctx: Ctx) {
    exists i, j :: 0 <= i < j < |targets| && targets[i].useWhen(ctx) && targets[j].useWhen(ctx)
  }

  ghost predicate NoneMatch<Ctx, P>(targets: seq<ConfigTarget<Ctx, P>>, ctx: Ctx) {
    forall i :: 0 <= i < |targets| ==> !targets[i].useWhen(ctx)
  }

  /** Target `i` matches and no other does. */
  ghost predicate SoleMatch<Ctx, P>(targets: seq<ConfigTarget<Ctx, P>>, ctx: Ctx, i: int) {
    && 0 <= i < |targets|
    && targets[i].useWhen(ctx)
    && forall j :: 0 <= j < |targets| && j != i ==> !targets[j].useWhen(ctx)
  }

  /** No target is selected exactly when no predicate holds. */
  lemma {:induction false} MatchingEmpty<Ctx, P>(targets: seq<ConfigTarget<Ctx, P>>, ctx: Ctx)
    ensures |Matching(targets, ctx)| == 0 <==> NoneMatch(targets, ctx)
    decreases |targets|
  {
    if |targets| > 0 {
      var rest := targets[1..];
      MatchingEmpty(rest, ctx);
      if NoneMatch(rest, ctx) && !targets[0].useWhen(ctx) {
        forall i | 0 <= i < |targets|
          ensures !targets[i].useWhen(ctx)
        {
          if i > 0 {
            assert targets[i] == rest[i - 1];
          }
        }
      }
      if !NoneMatch(rest, ctx) {
        var j :| 0 <= j < |rest| && rest[j].useWhen(ctx);
        assert targets[j + 1].useWhen(ctx);
      }
    }
  }

  /** Two or more targets are selected exactly when two distinct predicates hold. */
  lemma {:induction false} MatchingConflict<Ctx, P>(targets: seq<ConfigTarget<Ctx, P>>, ctx: Ctx)
    ensures |Matching(targets, ctx)| >= 2 <==> Conflict(targets, ctx)
    decreases |targets|
  {
    if |targets| > 0 {
      var rest := targets[1..];
      MatchingConflict(rest, ctx);
      MatchingEmpty(rest, ctx);
      if Conflict(targets, ctx) {
        var i, j :| 0 <= i < j < |targets| && targets[i].useWhen(ctx) && targets[j].useWhen(ctx);
        assert rest[j - 1].useWhen(ctx);
        if i > 0 {
          assert rest[i - 1].useWhen(ctx);
        }
      }
      if targets[0].useWhen(ctx) && !NoneMatch(rest, ctx) {
        var j :| 0 <= j < |rest| && rest[j].useWhen(ctx);
        assert targets[j + 1].useWhen(ctx);
      }
      if Conflict(rest, ctx) {
        var i, j :| 0 <= i < j < |rest| && rest[i].useWhen(ctx) && rest[j].useWhen(ctx);
        assert targets[i + 1].useWhen(ctx) && targets[j + 1].useWhen(ctx);
      }
    }
  }

  /** When target `i` is the only one whose predicate holds, it alone is selected. */
  lemma {:induction false} MatchingSole<Ctx, P>(targets: seq<ConfigTarget<Ctx, P>>, ctx: Ctx, i: int)
    requires SoleMatch(targets, ctx, i)
    ensures |Matching(targets, ctx)| == 1 && Matching(targets, ctx)[0] == targets[i]
    decreases |targets|
  {
    var rest := targets[1..];
    if i == 0 {
      MatchingEmpty(rest, ctx);
      assert NoneMatch(rest, ctx) by {
        forall j | 0 <= j < |rest|
          ensures !rest[j].useWhen(ctx)
        {
          assert rest[j] == targets[j + 1];
        }
      }
    } else {
      assert !targets[0].useWhen(ctx);
      assert SoleMatch(rest, ctx, i - 1) by {
        forall j | 0 <= j < |rest| && j != i - 1
          ensures !rest[j].useWhen(ctx)
        {
          assert rest[j] == targets[j + 1];
        }
      }
      MatchingSole(rest, ctx, i - 1);
    }
  }

  /** The matching targets, counted: none, exactly one (and which), or a conflict. */
  lemma {:induction false} MatchingCount<Ctx, P>(targets: seq<ConfigTarget<Ctx, P>>, ctx: Ctx)
    ensures |Matching(targets, ctx)| >= 2 <==> Conflict(targets, ctx)
    ensures |Matching(targets, ctx)| == 0 <==> NoneMatch(targets, ctx)
    ensures forall i :: SoleMatch(targets, ctx, i) ==>
              |Matching(targets, ctx)| == 1 && Matching(targets, ctx)[0] == targets[i]
  {
    MatchingEmpty(targets, ctx);
    MatchingConflict(targets, ctx);
    forall i | SoleMatch(targets, ctx, i)
      ensures |Matching(targets, ctx)| == 1 && Matching(targets, ctx)[0] == targets[i]
    {
      MatchingSole(targets, ctx, i);
    }
  }

  class LeakyBucketConfigurationProvider<Ctx(!new), P> {
    var configTargets: seq<ConfigTarget<Ctx, P>>
    var defaultConfig: Option<LeakyBucketConfiguration>
    var defaultIdentityProvider: Option<P>

    constructor ()
      ensures |configTargets| == 0 && defaultConfig.None? && defaultIdentityProvider.None?
    {
      configTargets := [];
      defaultConfig := None;
      defaultIdentityProvider := None;
    }

    /** Replaces the default configuration; the last one registered wins. */
    method AddDefaultConfiguration(config: Option<LeakyBucketConfiguration>)
      returns (self: LeakyBucketConfigurationProvider<Ctx, P>)
      modifies this
      ensures self == this
      ensures defaultConfig == config
      ensures configTargets == old(configTargets)
      ensures defaultIdentityProvider == old(defaultIdentityProvider)
    {
      defaultConfig := config;
      self := this;
    }

    /** Replaces the default identity provider; the last one registered wins. */
    method AddDefaultIdentityProvider(idProvider: Option<P>)
      returns (self: LeakyBucketConfigurationProvider<Ctx, P>)
      modifies this
      ensures self == this
      ensures defaultIdentityProvider == idProvider
      ensures configTargets == old(configTargets)
      ensures defaultConfig == old(defaultConfig)
    {
      defaultIdentityProvider := idProvider;
      self := this;
    }

    /** Appends a target that carries its own identity provider. */
    method AddConfigurationWithProvider(useWhen: Ctx -> bool, config: Option<LeakyBucketConfiguration>, idProvider: Option<P>)
      returns (self: LeakyBucketConfigurationProvider<Ctx, P>)
      modifies this
      ensures self == this
      ensures configTargets == old(configTargets) + [ConfigTarget(useWhen, config, idProvider)]
      ensures defaultConfig == old(defaultConfig)
      ensures defaultIdentityProvider == old(defaultIdentityProvider)
    {
      configTargets := configTargets + [ConfigTarget(useWhen, config, idProvider)];
      self := this;
    }

    /** Appends a target with no identity provider of its own. */
    method AddConfiguration(useWhen: Ctx -> bool, config: Option<LeakyBucketConfiguration>)
      returns (self: LeakyBucketConfigurationProvider<Ctx, P>)
      modifies this
      ensures self == this
      ensures configTargets == old(configTargets) + [ConfigTarget(useWhen, config, None)]
      ensures defaultConfig == old(defaultConfig)
      ensures defaultIdentityProvider == old(defaultIdentityProvider)
    {
      configTargets := configTargets + [ConfigTarget(useWhen, config, None)];
      self := this;
    }

    /**
     * The configuration for a request: an error when two or more targets
     * match; the sole matching target's configuration, or the default when
     * that is null; the default when nothing matches.
     */
    function GetConfiguration(ctx: Ctx): (r: Result<Option<LeakyBucketConfiguration>, ConfigurationError>)
      reads this
      ensures r.Failure? <==> Conflict(configTargets, ctx)
      ensures NoneMatch(configTargets, ctx) ==> r == Success(defaultConfig)
      ensures forall i :: SoleMatch(configTargets, ctx, i) ==>
                r == Success(if configTargets[i].configuration.Some? then configTargets[i].configuration else defaultConfig)
    {
      MatchingCount(configTargets, ctx);
      var configurations := Matching(configTargets, ctx);
      if |configurations| > 1 then Failure(MultipleConfigurationsMatch)
      else
        var single := if |configurations| == 1 then configurations[0].configuration else None;
        Success(if single.Some? then single else defaultConfig)
    }

    /**
     * The identity provider for a request, by the same rule: an error on a
     * conflict; the sole matching target's provider, or the default when the
     * target has none; the default when nothing matches.
     */
    function GetIdentityProvider(ctx: Ctx): (r: Result<Option<P>, ConfigurationError>)
      reads this
      ensures r.Failure? <==> Conflict(configTargets, ctx)
      ensures NoneMatch(configTargets, ctx) ==> r == Success(defaultIdentityProvider)
      ensures forall i :: SoleMatch(configTargets, ctx, i) ==>
                r == Success(if configTargets[i].identityProvider.Some? then configTargets[i].identityProvider else defaultIdentityProvider)
    {
      MatchingCount(configTargets, ctx);
      var configurations := Matching(configTargets, ctx);
      if |configurations| > 1 then Failure(MultipleConfigurationsMatch)
      else
        var single := if |configurations| == 1 then configurations[0].identityProvider else None;
        Success(if single.Some? then single else defaultIdentityProvider)
    }

    /** The configuration every request that no target matches resolves to. */
    function GetDefaultConfiguration(): (r: Option<LeakyBucketConfiguration>)
      reads this
      ensures forall ctx :: NoneMatch(configTargets, ctx) ==> GetConfiguration(ctx) == Success(r)
    {
      defaultConfig
    }

    /** The identity provider every request that no target matches resolves to. */
    function GetDefaultIdentityProvider(): (r: Option<P>)
      reads this
      ensures forall ctx :: NoneMatch(configTargets, ctx) ==> GetIdentityProvider(ctx) == Success(r)
    {
      defaultIdentityProvider
    }

    /** Both resolutions fail on exactly the same requests. */
    lemma ResolutionsFailTogether(ctx: Ctx)
      ensures GetConfiguration(ctx).Failure? <==> GetIdentityProvider(ctx).Failure?
    {
    }

    /** When no target matches, both resolutions return what the default getters return. */
    lemma UnmatchedRequestsGetDefaults(ctx: Ctx)
      requires NoneMatch(configTargets, ctx)
      ensures GetConfiguration(ctx) == Success(GetDefaultConfiguration())
      ensures GetIdentityProvider(ctx) == Success(GetDefaultIdentityProvider())
    {
    }

    /**
     * A target registered without a provider resolves to the default
     * provider when it is the sole match.
     */
    lemma TargetWithoutProviderUsesDefault(ctx: Ctx, i: int)
      requires SoleMatch(configTargets, ctx, i) && configTargets[i].identityProvider.None?
      ensures GetIdentityProvider(ctx) == Success(GetDefaultIdentityProvider())
    {
    }
  }
}
