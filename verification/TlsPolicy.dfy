// internal/tls/profile.go: the TLS profile is resolved once, and the process shuts down on
// selected changes so that the next one resolves it anew.
module TlsPolicy {
  import opened Outcome

  // configv1.TLSAdherencePolicy
  datatype Adherence = NoOpinion | LegacyAdheringComponentsOnly | StrictAllComponents | OtherPolicy(name: string)

  // configv1.TLSProfileSpec
  datatype Profile = Profile(minVersion: string, ciphers: seq<string>, groups: seq<string>)

  // The parts of the platform libraries that the decision depends on: the Intermediate
  // profile, the profile reported together with a fallback, and whether a TLS configuration
  // can be built from a profile.
  datatype Platform = Platform(intermediate: Profile, fallback: Profile, usable: Profile -> bool)

  // Outcomes of reading the cluster's APIServer object.
  datatype Load =
    | Observed(profile: Profile, adherence: Adherence)
    | Absent
    | Transient
    | Denied

  // frameworktls.ShouldHonorClusterTLSProfile; an unknown policy is honoured.
  predicate ShouldHonor(adherence: Adherence) {
    !adherence.NoOpinion? && !adherence.LegacyAdheringComponentsOnly?
  }

  datatype Resolved = Resolved(
    profile: Profile,
    profileHonored: bool,
    adherence: Adherence,
    usedFallback: bool,
    watchable: bool,
    effectiveProfile: Profile)

  function Resolve(platform: Platform, load: Load): Result<Resolved> {
    if load.Denied? then Failure("loading APIServer TLS profile and adherence")
    else
      var (profile, adherence) :=
        if load.Observed? then (load.profile, load.adherence) else (platform.fallback, NoOpinion);
      var honored := ShouldHonor(adherence);
      var effective := if honored then profile else platform.intermediate;
      if platform.usable(effective) then
        Success(Resolved(profile, honored, adherence, !load.Observed?, !load.Absent?, effective))
      else
        Failure("building TLS config from profile")
  }

  // --- The watcher ---

  // A profile and adherence policy seen by the watcher.
  datatype Event = Event(profile: Profile, adherence: Adherence)

  // The context whose cancellation shuts the manager down.
  class Context {
    var cancelled: bool

    constructor ()
      ensures !cancelled
    {
      cancelled := false;
    }

    method Cancel()
      modifies this
      ensures cancelled
    {
      cancelled := true;
    }
  }

  // frameworktls.SecurityProfileWatcher: a set callback runs whenever the observed value
  // differs from the initial one. Both callbacks cancel the context.
  class SecurityProfileWatcher {
    const context: Context
    const initialProfile: Profile
    const initialAdherence: Adherence
    var onAdherencePolicyChange: bool
    var onProfileChange: bool

    // newSecurityProfileWatcher
    constructor (resolved: Resolved, context: Context)
      ensures this.context == context && Watches(resolved)
    {
      this.context := context;
      initialProfile := resolved.profile;
      initialAdherence := resolved.adherence;
      onAdherencePolicyChange := true;
      onProfileChange := false;
      new;
      if resolved.profileHonored || resolved.usedFallback {
        onProfileChange := true;
      }
    }

    ghost predicate Watches(resolved: Resolved)
      reads this
    {
      && initialProfile == resolved.profile && initialAdherence == resolved.adherence
      && onAdherencePolicyChange
      && onProfileChange == (resolved.profileHonored || resolved.usedFallback)
    }

    method Observe(event: Event, ghost resolved: Resolved)
      requires Watches(resolved)
      modifies context
      ensures context.cancelled == (old(context.cancelled) || Triggers(resolved, event))
    {
      if event.profile != initialProfile && onProfileChange {
        context.Cancel();
      }
      if event.adherence != initialAdherence && onAdherencePolicyChange {
        context.Cancel();
      }
    }
  }

  // The events that make a watched process shut down.
  predicate Triggers(resolved: Resolved, event: Event) {
    || event.adherence != resolved.adherence
    || (event.profile != resolved.profile && (resolved.profileHonored || resolved.usedFallback))
  }

  // SetupWatcher, and a run over the events. Nothing watches an unwatchable result.
  method Run(resolved: Resolved, events: seq<Event>) returns (context: Context)
    ensures fresh(context)
    ensures context.cancelled <==> ShutdownRequested(resolved, events)
  {
    context := new Context();
    if !resolved.watchable {
      return;
    }
    var watcher := new SecurityProfileWatcher(resolved, context);
    for i := 0 to |events|
      invariant watcher.context == context && watcher.Watches(resolved)
      invariant context.cancelled <==> ShutdownRequested(resolved, events[..i])
    {
      watcher.Observe(events[i], resolved);
      assert events[..i + 1] == events[..i] + [events[i]];
    }
    assert events[..|events|] == events;
  }

  predicate ShutdownRequested(resolved: Resolved, events: seq<Event>) {
    resolved.watchable && exists event <- events :: Triggers(resolved, event)
  }

  // --- What is served, and what ends it ---

  // The profile that a load outcome puts in force: the cluster's own under any policy but these
  // two, and otherwise, as when none could be read, the Intermediate one.
  function InForce(platform: Platform, load: Load): Profile {
    match load
    case Observed(_, NoOpinion) => platform.intermediate
    case Observed(_, LegacyAdheringComponentsOnly) => platform.intermediate
    case Observed(profile, _) => profile
    case _ => platform.intermediate
  }

  // A process starts unless reading is denied or the profile in force cannot be used, and serves
  // that profile. One change ends it exactly if the object is there to be watched, and the policy
  // is not the one observed, or the profile is not and it is in force or could not be read.
  lemma Serves(platform: Platform, load: Load, event: Event)
    ensures Resolve(platform, load).Success? <==> !load.Denied? && platform.usable(InForce(platform, load))
    ensures Resolve(platform, load).Success? ==>
      Resolve(platform, load).value.effectiveProfile == InForce(platform, load)
    ensures Resolve(platform, load).Success? ==>
      (ShutdownRequested(Resolve(platform, load).value, [event]) <==>
       match load
       case Observed(profile, adherence) =>
         || event.adherence != adherence
         || (event.profile != profile && adherence != NoOpinion && adherence != LegacyAdheringComponentsOnly)
       case Transient => event.adherence != NoOpinion || event.profile != platform.fallback
       case Absent => false
       case Denied => false)
  {
    if Resolve(platform, load).Success? && Triggers(Resolve(platform, load).value, event) {
      assert event in [event];
    }
  }

  // --- Staleness ---

  // The profile in use is the one that resolving anew would choose.
  ghost predicate UpToDate(platform: Platform, resolved: Resolved, event: Event) {
    var anew := Resolve(platform, Observed(event.profile, event.adherence));
    anew.Success? && anew.value.effectiveProfile == resolved.effectiveProfile
  }

  // At every point of every run, a watched process is shutting down or up to date with the last
  // change it has seen. Shutdown is requested exactly when some change differs from what was
  // resolved in the policy, or in the profile while that is honoured or in fallback.
  lemma NeverStale(platform: Platform, load: Load, events: seq<Event>)
    requires Resolve(platform, load).Success? && Resolve(platform, load).value.watchable
    ensures
      var resolved := Resolve(platform, load).value;
      && (forall i | 0 <= i < |events| ::
            ShutdownRequested(resolved, events[..i + 1]) || UpToDate(platform, resolved, events[i]))
      && (ShutdownRequested(resolved, events) <==>
          exists event <- events ::
            || event.adherence != resolved.adherence
            || (event.profile != resolved.profile && (ShouldHonor(resolved.adherence) || load.Transient?)))
  {
    var resolved := Resolve(platform, load).value;
    forall i | 0 <= i < |events|
      ensures ShutdownRequested(resolved, events[..i + 1]) || UpToDate(platform, resolved, events[i])
    {
      assert events[i] == events[..i + 1][i];
      assert Triggers(resolved, events[i]) || UpToDate(platform, resolved, events[i]);
    }
    assert forall event :: Triggers(resolved, event) <==>
      || event.adherence != resolved.adherence
      || (event.profile != resolved.profile && (ShouldHonor(resolved.adherence) || load.Transient?));
  }

  // A profile change under an unchanged policy asks for a shutdown only while the profile is
  // honoured or in fallback, and a shutdown of an honoured profile is never needless.
  lemma ShutdownIsNeeded(platform: Platform, load: Load, event: Event)
    requires Resolve(platform, load).Success?
    requires event.adherence == Resolve(platform, load).value.adherence
    requires Triggers(Resolve(platform, load).value, event)
    ensures
      var resolved := Resolve(platform, load).value;
      && (resolved.profileHonored || resolved.usedFallback)
      && (UpToDate(platform, resolved, event) <==> resolved.usedFallback)
  {
  }

  // An unwatchable process never shuts down; it stays up to date exactly while the policy does
  // not honour the profile or the profile is the Intermediate one.
  lemma UnwatchedProcess(platform: Platform, load: Load, events: seq<Event>)
    requires events != [] && Resolve(platform, load).Success?
    requires !Resolve(platform, load).value.watchable
    ensures
      var resolved := Resolve(platform, load).value;
      var last := events[|events| - 1];
      && !ShutdownRequested(resolved, events)
      && (UpToDate(platform, resolved, last) <==> !ShouldHonor(last.adherence) || last.profile == platform.intermediate)
  {
  }
}
