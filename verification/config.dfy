/** Game settings: the defaults of the configuration module and the
    administrator's `/config` command, which validates and applies the four
    tunable values one after another. */
module Config {
  import opened Wrappers

  /** The mutable game settings read by the spawner and the spawn loop. */
  datatype Settings = Settings(
    giftLifetime: int,      // seconds a gift stays up
    minSpawnInterval: int,  // lower bound of the random wait, seconds
    maxSpawnInterval: int,  // upper bound of the random wait, seconds
    winProbability: real    // chance that a claimant wins the role
  )

  /** The values the configuration module starts with. */
  const Defaults: Settings := Settings(5, 1, 5, 0.25)

  /** The configured channel id when the environment does not set one. */
  const DefaultChannelId: int := 0

  predicate LifetimeOk(v: int) { 1 <= v <= 60 }

  predicate ProbabilityOk(p: real) { 0.0 <= p <= 1.0 }

  /** The bounds that `/config` checks field by field. */
  predicate Sane(c: Settings) {
    && LifetimeOk(c.giftLifetime)
    && c.minSpawnInterval >= 1
    && c.maxSpawnInterval >= 1
    && ProbabilityOk(c.winProbability)
  }

  /** Sane settings whose spawn interval is a non-empty range. */
  predicate Valid(c: Settings) {
    Sane(c) && c.minSpawnInterval <= c.maxSpawnInterval
  }

  datatype Field = Lifetime | MinInterval | MaxInterval | Probability

  /** The optional arguments of `/config`; `None` means "not given". */
  datatype Args = Args(
    giftLifetime: Option<int>,
    minInterval: Option<int>,
    maxInterval: Option<int>,
    winProbability: Option<real>
  )

  const NoArgs: Args := Args(None, None, None, None)

  /** What the command answers: the first field it refused, the fields it
      changed (in order), or the current settings when nothing was given. */
  datatype Reply = Rejected(field: Field) | Updated(changes: seq<Field>) | ShowCurrent

  datatype Outcome = Outcome(settings: Settings, reply: Reply)

  /** The fields that `a` gives, in the order the command handles them. */
  function Given(a: Args): seq<Field> {
    (if a.giftLifetime.Some? then [Lifetime] else [])
    + (if a.minInterval.Some? then [MinInterval] else [])
    + (if a.maxInterval.Some? then [MaxInterval] else [])
    + (if a.winProbability.Some? then [Probability] else [])
  }

  /** Reference meaning of a fully accepted update: every given field
      overrides, every other field stays. */
  function Override(c: Settings, a: Args): Settings {
    Settings(
      a.giftLifetime.GetOr(c.giftLifetime),
      a.minInterval.GetOr(c.minSpawnInterval),
      a.maxInterval.GetOr(c.maxSpawnInterval),
      a.winProbability.GetOr(c.winProbability))
  }

  /** Every given field passes its check, the maximum being compared with the
      minimum of this same call when one is given. */
  predicate AllPass(c: Settings, a: Args) {
    && (a.giftLifetime.None? || LifetimeOk(a.giftLifetime.value))
    && (a.minInterval.None? || a.minInterval.value >= 1)
    && (a.maxInterval.None? || a.maxInterval.value >= a.minInterval.GetOr(c.minSpawnInterval))
    && (a.winProbability.None? || ProbabilityOk(a.winProbability.value))
  }

  /** The order in which the command handles the fields. */
  function Rank(f: Field): nat {
    match f
    case Lifetime => 0
    case MinInterval => 1
    case MaxInterval => 2
    case Probability => 3
  }

  /** Field `f` is given and fails its check; the maximum is compared with the
      minimum of this same call when one is given. */
  predicate Fails(c: Settings, a: Args, f: Field) {
    match f
    case Lifetime => a.giftLifetime.Some? && !LifetimeOk(a.giftLifetime.value)
    case MinInterval => a.minInterval.Some? && a.minInterval.value < 1
    case MaxInterval =>
      a.maxInterval.Some? && a.maxInterval.value < a.minInterval.GetOr(c.minSpawnInterval)
    case Probability => a.winProbability.Some? && !ProbabilityOk(a.winProbability.value)
  }

  /** Every field the command handles before `f` passes its check. */
  predicate PassBefore(c: Settings, a: Args, f: Field) {
    && (Rank(f) > 0 ==> !Fails(c, a, Lifetime))
    && (Rank(f) > 1 ==> !Fails(c, a, MinInterval))
    && (Rank(f) > 2 ==> !Fails(c, a, MaxInterval))
  }

  /** The arguments of the fields the command handles before `f`. */
  function Before(a: Args, f: Field): Args {
    Args(
      if Rank(f) > 0 then a.giftLifetime else None,
      if Rank(f) > 1 then a.minInterval else None,
      if Rank(f) > 2 then a.maxInterval else None,
      None)
  }

  /** True when `v` is either the old value or the argument given for it. */
  predicate OldOrGiven<T(==)>(v: T, prev: T, arg: Option<T>) {
    v == prev || arg == Some(v)
  }

  /** The `/config` command. Each given field is checked against the settings
      as they stand at that moment (so a minimum set earlier in the same call
      is the one the maximum is compared with) and written at once; the first
      refusal ends the command, leaving the fields written before it changed. */
  function Configure(c: Settings, a: Args): (o: Outcome)
    ensures o.reply.ShowCurrent? <==> a == NoArgs
    ensures o.reply.Updated? <==> a != NoArgs && AllPass(c, a)
    ensures o.reply.Rejected? <==> !AllPass(c, a)
    ensures o.reply.ShowCurrent? ==> o.settings == c
    ensures o.reply.Updated? ==> o.settings == Override(c, a) && o.reply.changes == Given(a)
    ensures o.reply.Rejected? ==> o.reply.field in Given(a)
    ensures OldOrGiven(o.settings.giftLifetime, c.giftLifetime, a.giftLifetime)
    ensures OldOrGiven(o.settings.minSpawnInterval, c.minSpawnInterval, a.minInterval)
    ensures OldOrGiven(o.settings.maxSpawnInterval, c.maxSpawnInterval, a.maxInterval)
    ensures OldOrGiven(o.settings.winProbability, c.winProbability, a.winProbability)
    ensures Sane(c) ==> Sane(o.settings)
  {
    if a.giftLifetime.Some? && !LifetimeOk(a.giftLifetime.value) then
      Outcome(c, Rejected(Lifetime))
    else
      var c1 := c.(giftLifetime := a.giftLifetime.GetOr(c.giftLifetime));
      if a.minInterval.Some? && a.minInterval.value < 1 then
        Outcome(c1, Rejected(MinInterval))
      else
        var c2 := c1.(minSpawnInterval := a.minInterval.GetOr(c1.minSpawnInterval));
        if a.maxInterval.Some? && a.maxInterval.value < c2.minSpawnInterval then
          Outcome(c2, Rejected(MaxInterval))
        else
          var c3 := c2.(maxSpawnInterval := a.maxInterval.GetOr(c2.maxSpawnInterval));
          if a.winProbability.Some? && !ProbabilityOk(a.winProbability.value) then
            Outcome(c3, Rejected(Probability))
          else
            var c4 := c3.(winProbability := a.winProbability.GetOr(c3.winProbability));
            if Given(a) == [] then Outcome(c4, ShowCurrent) else Outcome(c4, Updated(Given(a)))
  }

  /** The defaults satisfy every bound the command enforces, and min <= max. */
  lemma DefaultsValid()
    ensures Valid(Defaults)
    ensures Defaults.giftLifetime == 5 && Defaults.minSpawnInterval == 1
    ensures Defaults.maxSpawnInterval == 5 && Defaults.winProbability == 0.25
  {
  }

  /** A lifetime outside [1,60] is refused before anything is written. */
  lemma LifetimeOutOfRangeRejected(c: Settings, a: Args)
    requires a.giftLifetime.Some? && !LifetimeOk(a.giftLifetime.value)
    ensures Configure(c, a) == Outcome(c, Rejected(Lifetime))
  {
  }

  /** A minimum below one second is refused and not written; an accepted
      lifetime given in the same call stays written. */
  lemma MinIntervalBelowOneRejected(c: Settings, a: Args)
    requires a.minInterval.Some? && a.minInterval.value < 1
    requires a.giftLifetime.None? || LifetimeOk(a.giftLifetime.value)
    ensures Configure(c, a).reply == Rejected(MinInterval)
    ensures Configure(c, a).settings == c.(giftLifetime := a.giftLifetime.GetOr(c.giftLifetime))
  {
  }

  /** The maximum is compared with the minimum in force at that point of the
      call, which is the minimum given in the same call when there is one. */
  lemma MaxIntervalComparedWithCurrentMin(c: Settings, a: Args)
    requires a.giftLifetime.None? || LifetimeOk(a.giftLifetime.value)
    requires a.minInterval.None? || a.minInterval.value >= 1
    requires a.maxInterval.Some?
    ensures var m := a.minInterval.GetOr(c.minSpawnInterval);
            Configure(c, a).reply == Rejected(MaxInterval) <==> a.maxInterval.value < m
  {
  }

  /** A probability outside [0,1] is refused and not written. */
  lemma ProbabilityOutOfRangeRejected(c: Settings, a: Args)
    requires a.winProbability.Some? && !ProbabilityOk(a.winProbability.value)
    ensures Configure(c, a).reply.Rejected?
    ensures Configure(c, a).settings.winProbability == c.winProbability
    ensures AllPass(c, a.(winProbability := None)) ==>
              Configure(c, a) == Outcome(Override(c, a.(winProbability := None)), Rejected(Probability))
  {
  }

  /** A refusal names the first field, in the order the command handles
      them, that fails its check; the fields before it are written and the
      refused field and all later ones are not. */
  lemma RefusalIsFirstFailure(c: Settings, a: Args)
    ensures var o := Configure(c, a);
      o.reply.Rejected? ==>
        && Fails(c, a, o.reply.field)
        && PassBefore(c, a, o.reply.field)
        && o.settings == Override(c, Before(a, o.reply.field))
  {
  }

  /** Updates are not transactional: a refusal leaves every field handled
      before the refused one written, and the refused field and all later
      ones untouched. */
  lemma RefusalKeepsEarlierWrites(c: Settings, a: Args)
    requires Configure(c, a).reply.Rejected?
    ensures var o := Configure(c, a);
      match o.reply.field
      case Lifetime => o.settings == c
      case MinInterval =>
        o.settings == c.(giftLifetime := a.giftLifetime.GetOr(c.giftLifetime))
      case MaxInterval =>
        o.settings == c.(giftLifetime := a.giftLifetime.GetOr(c.giftLifetime),
                         minSpawnInterval := a.minInterval.GetOr(c.minSpawnInterval))
      case Probability =>
        o.settings == Override(c, a.(winProbability := None))
  {
  }

  /** Raising the minimum is never compared with the maximum, so a single
      accepted call can leave min > max. */
  lemma MinAboveMaxAccepted()
    ensures var o := Configure(Defaults, NoArgs.(minInterval := Some(10)));
      o.reply == Updated([MinInterval]) && Sane(o.settings) && !Valid(o.settings)
  {
    var o := Configure(Defaults, NoArgs.(minInterval := Some(10)));
    assert Given(NoArgs.(minInterval := Some(10))) == [MinInterval];
    assert o.settings == Defaults.(minSpawnInterval := 10);
  }

  /** With no arguments the command only shows the settings. */
  lemma NoArgsUnchanged(c: Settings)
    ensures Configure(c, NoArgs) == Outcome(c, ShowCurrent)
  {
  }
}
