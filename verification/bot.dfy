/** The bot as a whole: the start/stop/config commands, the spawn-loop tasks,
    one button view per spawned gift, and the button handler that runs the
    lottery for an accepted claim. Every asynchronous resumption is an event;
    random draws arrive as event parameters. */
module Bot {
  import opened Wrappers
  import Config
  import GiftManager
  import Lottery

  type ChannelId = int
  type UserId = GiftManager.UserId
  type MsgId = GiftManager.MsgId

  /** Where a spawn-loop task is: waiting out its random delay, inside
      `spawn_gift` waiting out the gift's lifetime, finished because the
      running flag was down, or dead from an empty random range. */
  datatype Phase = Sleeping(delay: int) | InGift(msg: MsgId) | Done | Crashed

  /** One `start_spawn_loop` task and the channel it spawns into. */
  datatype LoopTask = LoopTask(channel: ChannelId, phase: Phase)

  datatype BotState = BotState(
    gifts: GiftManager.GiftState,
    settings: Config.Settings,
    configuredChannel: ChannelId,          // CHANNEL_ID, read once at start-up
    visible: set<ChannelId>,               // the channels the client can resolve by id
    tasks: seq<LoopTask>,                  // every loop task ever created
    views: map<MsgId, bool>,               // each gift's button view: still accepting clicks?
    nextMsg: MsgId,                        // id the next sent gift message gets
    boundProbability: Option<real>,        // the lottery's threshold, once its module is loaded
    guildRoles: seq<Lottery.Role>,
    memberRoles: map<UserId, set<Lottery.RoleId>>
  )

  /** Every view belongs to a message sent before `nextMsg`, so the next
      gift message is one no view is attached to yet. */
  predicate MessagesFresh(s: BotState) {
    forall m :: m in s.views ==> m < s.nextMsg
  }

  /** Members hold only roles of the guild: the platform keeps no member
      role outside the guild's role list. */
  predicate RolesKnown(s: BotState) {
    forall v :: v in s.memberRoles ==> s.memberRoles[v] <= Lottery.Ids(s.guildRoles)
  }

  /** The state right after start-up. The guild's roles and its members'
      roles belong to the platform and exist before the bot starts (a
      Christmas role created in an earlier run is still there). */
  function Boot(configured: ChannelId, visible: set<ChannelId>,
                roles: seq<Lottery.Role>, members: map<UserId, set<Lottery.RoleId>>): (s: BotState)
    requires forall v :: v in members ==> members[v] <= Lottery.Ids(roles)
    ensures s.gifts == GiftManager.Initial && !s.gifts.isRunning
    ensures s.settings == Config.Defaults && s.tasks == [] && s.views == map[]
    ensures s.boundProbability == None
    ensures s.configuredChannel == configured && s.visible == visible
    ensures s.guildRoles == roles && s.memberRoles == members
    ensures MessagesFresh(s) && RolesKnown(s)
  {
    BotState(GiftManager.Initial, Config.Defaults, configured, visible, [], map[], 0, None, roles, members)
  }

  datatype Event =
    | SlashStart(channel: Option<ChannelId>, here: ChannelId, pick: nat)
    | PrefixStart(here: ChannelId, pick: nat)
    | SlashStop
    | PrefixStop
    | SlashConfig(args: Config.Args)
    | Wake(task: nat)                      // a task's random delay has elapsed
    | LifetimeOver(task: nat, pick: nat)   // a task's gift lifetime has elapsed
    | ViewTimeout(msg: MsgId)
    | Click(msg: MsgId, user: UserId, sample: real)

  datatype Reply =
    | AlreadyRunning
    | Started(channel: ChannelId)
    | ChannelNotFound
    | NotRunning
    | Stopped
    | Configured(config: Config.Reply)
    | NoSuchWait
    | Spawned(channel: ChannelId, msg: MsgId, lifetime: int)
    | LoopEnded
    | GiftOver
    | ViewClosed
    | NotDispatched
    | TooLate(holder: UserId)
    | Drawn(winner: UserId, outcome: Lottery.Outcome)

  datatype StepResult = StepResult(state: BotState, reply: Reply)

  predicate LiveTask(t: LoopTask) {
    t.phase.Sleeping? || t.phase.InGift?
  }

  function LiveTasks(tasks: seq<LoopTask>): nat
    decreases |tasks|
  {
    if tasks == [] then 0 else (if LiveTask(tasks[0]) then 1 else 0) + LiveTasks(tasks[1..])
  }

  /** Top of one loop iteration: draw the delay from the current interval
      bounds; an empty range raises and ends the task. */
  function NextWait(c: Config.Settings, pick: nat): (p: Phase)
    ensures p.Crashed? <==> c.minSpawnInterval > c.maxSpawnInterval
    ensures p.Sleeping? ==> c.minSpawnInterval <= p.delay <= c.maxSpawnInterval
    ensures p.Sleeping? || p.Crashed?
  {
    match GiftManager.RandInt(c.minSpawnInterval, c.maxSpawnInterval, pick)
    case Some(d) => Sleeping(d)
    case None => Crashed
  }

  /** What both start commands do once they have a channel: raise the
      running flag and create a loop task that begins its first iteration. */
  function Launch(s: BotState, ch: ChannelId, pick: nat): (r: StepResult)
    ensures r.reply == Started(ch) && r.state.gifts.isRunning
    ensures r.state.tasks == s.tasks + [LoopTask(ch, NextWait(s.settings, pick))]
    ensures r.state.gifts.activeGift == s.gifts.activeGift
    ensures r.state.gifts.claimedBy == s.gifts.claimedBy
    ensures r.state == s.(gifts := s.gifts.(isRunning := true), tasks := r.state.tasks)
  {
    StepResult(s.(gifts := GiftManager.StartLoop(s.gifts),
                  tasks := s.tasks + [LoopTask(ch, NextWait(s.settings, pick))]),
               Started(ch))
  }

  /** `/start`: refused while running; the channel is the one given, else the
      configured one if the client can resolve it, else the current one. */
  function SlashStartCmd(s: BotState, channel: Option<ChannelId>, here: ChannelId, pick: nat): (r: StepResult)
    ensures s.gifts.isRunning ==> r == StepResult(s, AlreadyRunning)
    ensures !s.gifts.isRunning ==>
              var fallback := if s.configuredChannel in s.visible then s.configuredChannel else here;
              && r.reply == Started(channel.GetOr(fallback)) && r.state.gifts.isRunning
              && r.state.tasks == s.tasks + [LoopTask(channel.GetOr(fallback), NextWait(s.settings, pick))]
              && r.state == s.(gifts := s.gifts.(isRunning := true), tasks := r.state.tasks)
  {
    if s.gifts.isRunning then StepResult(s, AlreadyRunning)
    else
      var target :=
        if channel.Some? then channel.value
        else if s.configuredChannel in s.visible then s.configuredChannel
        else here;
      Launch(s, target, pick)
  }

  /** `!start`: refused while running; a configured id of 0 means the current
      channel; an id the client cannot resolve is reported and nothing starts. */
  function PrefixStartCmd(s: BotState, here: ChannelId, pick: nat): (r: StepResult)
    ensures s.gifts.isRunning ==> r == StepResult(s, AlreadyRunning)
    ensures !s.gifts.isRunning ==>
              var id := if s.configuredChannel != 0 then s.configuredChannel else here;
              && (id in s.visible ==>
                    && r.reply == Started(id) && r.state.gifts.isRunning
                    && r.state.tasks == s.tasks + [LoopTask(id, NextWait(s.settings, pick))]
                    && r.state == s.(gifts := s.gifts.(isRunning := true), tasks := r.state.tasks))
              && (id !in s.visible ==> r == StepResult(s, ChannelNotFound))
  {
    if s.gifts.isRunning then StepResult(s, AlreadyRunning)
    else
      var id := if s.configuredChannel != 0 then s.configuredChannel else here;
      if id !in s.visible then StepResult(s, ChannelNotFound)
      else Launch(s, id, pick)
  }

  /** `/stop` and `!stop`: refused when not running; otherwise only the flag
      drops. Tasks, the active gift and its views are untouched. */
  function StopCmd(s: BotState): (r: StepResult)
    ensures !s.gifts.isRunning ==> r == StepResult(s, NotRunning)
    ensures s.gifts.isRunning ==>
              r.reply == Stopped && r.state == s.(gifts := s.gifts.(isRunning := false))
  {
    if !s.gifts.isRunning then StepResult(s, NotRunning)
    else StepResult(s.(gifts := GiftManager.StopLoop(s.gifts)), Stopped)
  }

  /** A sleeping task wakes: it spawns a gift (a new message with a live
      view) only if the running flag is still up; otherwise it ends. */
  function WakeTask(s: BotState, i: nat): (r: StepResult)
    ensures (i >= |s.tasks| || !s.tasks[i].phase.Sleeping?) ==> r == StepResult(s, NoSuchWait)
    ensures i < |s.tasks| && s.tasks[i].phase.Sleeping? ==>
              && (r.reply.Spawned? <==> s.gifts.isRunning)
              && (r.reply.Spawned? ==>
                    && r.reply == Spawned(s.tasks[i].channel, s.nextMsg, s.settings.giftLifetime)
                    && (MessagesFresh(s) ==> s.nextMsg !in s.views)
                    && r.state == s.(gifts := GiftManager.Spawn(s.gifts, s.nextMsg),
                                     views := s.views[s.nextMsg := true],
                                     nextMsg := s.nextMsg + 1,
                                     tasks := s.tasks[i := LoopTask(s.tasks[i].channel, InGift(s.nextMsg))]))
              && (!r.reply.Spawned? ==>
                    r == StepResult(s.(tasks := s.tasks[i := s.tasks[i].(phase := Done)]), LoopEnded))
  {
    if i >= |s.tasks| || !s.tasks[i].phase.Sleeping? then StepResult(s, NoSuchWait)
    else if !s.gifts.isRunning then
      StepResult(s.(tasks := s.tasks[i := s.tasks[i].(phase := Done)]), LoopEnded)
    else
      var msg := s.nextMsg;
      var ch := s.tasks[i].channel;
      StepResult(s.(gifts := GiftManager.Spawn(s.gifts, msg),
                    views := s.views[msg := true],
                    nextMsg := msg + 1,
                    tasks := s.tasks[i := LoopTask(ch, InGift(msg))]),
                 Spawned(ch, msg, s.settings.giftLifetime))
  }

  /** A task's gift lifetime ends: the shared gift state expires, then the
      task either starts its next wait or, when stopped, ends. */
  function EndLifetime(s: BotState, i: nat, pick: nat): (r: StepResult)
    ensures (i >= |s.tasks| || !s.tasks[i].phase.InGift?) ==> r == StepResult(s, NoSuchWait)
    ensures i < |s.tasks| && s.tasks[i].phase.InGift? ==>
              && r.reply == GiftOver
              && r.state.gifts == GiftManager.Expire(s.gifts)
              && |r.state.tasks| == |s.tasks|
              && r.state.tasks[i]
                 == s.tasks[i].(phase := if s.gifts.isRunning then NextWait(s.settings, pick) else Done)
              && (forall j :: 0 <= j < |s.tasks| && j != i ==> r.state.tasks[j] == s.tasks[j])
              && r.state == s.(gifts := r.state.gifts, tasks := r.state.tasks)
  {
    if i >= |s.tasks| || !s.tasks[i].phase.InGift? then StepResult(s, NoSuchWait)
    else
      var next := if s.gifts.isRunning then NextWait(s.settings, pick) else Done;
      StepResult(s.(gifts := GiftManager.Expire(s.gifts),
                    tasks := s.tasks[i := s.tasks[i].(phase := next)]),
                 GiftOver)
  }

  /** The view's own timeout: it stops accepting clicks. */
  function CloseView(s: BotState, msg: MsgId): (r: StepResult)
    ensures msg in s.views ==> r == StepResult(s.(views := s.views[msg := false]), ViewClosed)
    ensures msg !in s.views ==> r == StepResult(s, NotDispatched)
  {
    if msg in s.views then StepResult(s.(views := s.views[msg := false]), ViewClosed)
    else StepResult(s, NotDispatched)
  }

  /** A role id above every existing one, standing in for the id the
      platform gives a newly created role. */
  function NewRoleId(roles: seq<Lottery.Role>): (k: Lottery.RoleId)
    ensures forall j :: 0 <= j < |roles| ==> roles[j].id < k
    decreases |roles|
  {
    if roles == [] then 0
    else
      var rest := NewRoleId(roles[1..]);
      if roles[0].id + 1 > rest then roles[0].id + 1 else rest
  }

  function RolesOf(s: BotState, u: UserId): set<Lottery.RoleId> {
    if u in s.memberRoles then s.memberRoles[u] else {}
  }

  /** The lottery module's threshold: bound to the configured probability
      when the module is first loaded, then never read again. */
  function LoadLottery(s: BotState): (s': BotState)
    ensures s'.boundProbability == Some(s.boundProbability.GetOr(s.settings.winProbability))
    ensures s' == s.(boundProbability := s'.boundProbability)
  {
    if s.boundProbability.None? then s.(boundProbability := Some(s.settings.winProbability)) else s
  }

  /** The gift button. A click reaches the handler only while the view
      accepts input. The handler loads the lottery module, then asks the
      manager; a claimant it accepts runs the lottery, after which the
      button is disabled and the view stopped. */
  function ClickButton(s: BotState, msg: MsgId, u: UserId, sample: real): (r: StepResult)
    requires 0.0 <= sample < 1.0
    ensures (msg !in s.views || !s.views[msg]) ==> r == StepResult(s, NotDispatched)
    ensures msg in s.views && s.views[msg] ==>
              && r.state.boundProbability == LoadLottery(s).boundProbability
              && (r.reply.Drawn? <==> s.gifts.claimedBy.None?)
              && (s.gifts.claimedBy.Some? ==>
                    r == StepResult(LoadLottery(s), TooLate(s.gifts.claimedBy.value)))
              && (r.reply.Drawn? ==>
                    && r.reply.winner == u
                    && r.state.gifts.claimedBy == Some(u)
                    && r.state.gifts.activeGift == None
                    && r.state.views == s.views[msg := false]
                    && var d := Lottery.RunLottery(s.guildRoles, NewRoleId(s.guildRoles), RolesOf(s, u),
                                                   LoadLottery(s).boundProbability.value, sample);
                       && r.reply.outcome == d.outcome
                       && r.state.guildRoles == d.guildRoles
                       && r.state.memberRoles == s.memberRoles[u := d.userRoles]
                       && r.state == LoadLottery(s).(gifts := GiftManager.Claim(s.gifts, u).state,
                                                     guildRoles := d.guildRoles,
                                                     memberRoles := s.memberRoles[u := d.userRoles],
                                                     views := s.views[msg := false]))
  {
    if msg !in s.views || !s.views[msg] then StepResult(s, NotDispatched)
    else
      var loaded := LoadLottery(s);
      var claim := GiftManager.Claim(loaded.gifts, u);
      match claim.reply
      case TooLate(holder) => StepResult(loaded, TooLate(holder))
      case Accepted(winner) =>
        var newId := NewRoleId(loaded.guildRoles);
        var d := Lottery.RunLottery(loaded.guildRoles, newId, RolesOf(loaded, winner),
                                    loaded.boundProbability.value, sample);
        StepResult(loaded.(gifts := claim.state,
                           guildRoles := d.guildRoles,
                           memberRoles := loaded.memberRoles[winner := d.userRoles],
                           views := loaded.views[msg := false]),
                   Drawn(winner, d.outcome))
  }

  predicate EventOk(e: Event) {
    e.Click? ==> 0.0 <= e.sample < 1.0
  }

  /** One event of the whole bot. */
  function Step(s: BotState, e: Event): (r: StepResult)
    requires EventOk(e)
    ensures Config.Sane(s.settings) ==> Config.Sane(r.state.settings)
    ensures !e.SlashConfig? ==> r.state.settings == s.settings
    ensures !e.Click? ==> r.state.boundProbability == s.boundProbability
    ensures MessagesFresh(s) ==> MessagesFresh(r.state)
    ensures RolesKnown(s) ==> RolesKnown(r.state)
  {
    match e
    case SlashStart(ch, here, pick) => SlashStartCmd(s, ch, here, pick)
    case PrefixStart(here, pick) => PrefixStartCmd(s, here, pick)
    case SlashStop => StopCmd(s)
    case PrefixStop => StopCmd(s)
    case SlashConfig(a) =>
      var o := Config.Configure(s.settings, a);
      StepResult(s.(settings := o.settings), Configured(o.reply))
    case Wake(i) => WakeTask(s, i)
    case LifetimeOver(i, pick) => EndLifetime(s, i, pick)
    case ViewTimeout(m) => CloseView(s, m)
    case Click(m, u, x) => ClickButton(s, m, u, x)
  }

  /** From start-up, a start, the first wake and a click on the gift it
      posted: the click is accepted and runs the lottery, with the threshold
      bound to the default probability. */
  lemma FirstClickAfterBootDrawn(here: ChannelId, roles: seq<Lottery.Role>,
                                 members: map<UserId, set<Lottery.RoleId>>,
                                 pick: nat, u: UserId, sample: real)
    requires forall v :: v in members ==> members[v] <= Lottery.Ids(roles)
    requires 0.0 <= sample < 1.0
    ensures var s0 := Boot(0, {here}, roles, members);
      var s1 := Step(s0, SlashStart(None, here, pick)).state;
      var w := Step(s1, Wake(0));
      && w.reply == Spawned(here, 0, Config.Defaults.giftLifetime)
      && var c := Step(w.state, Click(0, u, sample));
         c.reply.Drawn? && c.reply.winner == u
         && c.state.boundProbability == Some(Config.Defaults.winProbability)
  {
  }

  /** After a stop, no task spawns again until the next start: every waking
      task ends instead. */
  lemma NoSpawnAfterStop(s: BotState, i: nat)
    requires s.gifts.isRunning
    ensures var t := Step(s, SlashStop).state;
      !Step(t, Wake(i)).reply.Spawned?
      && (i < |t.tasks| && t.tasks[i].phase.Sleeping? ==> Step(t, Wake(i)).state.tasks[i].phase == Done)
  {
  }

  /** Stop does not cancel a gift already up: its lifetime still ends with
      the usual expiry, after which the task ends instead of waiting again. */
  lemma StopKeepsGiftInFlight(s: BotState, i: nat, pick: nat)
    requires s.gifts.isRunning
    requires i < |s.tasks| && s.tasks[i].phase.InGift?
    ensures var t := Step(s, SlashStop).state;
      && t.gifts.activeGift == s.gifts.activeGift && t.views == s.views
      && var r := Step(t, LifetimeOver(i, pick));
         r.reply == GiftOver && r.state.gifts == GiftManager.Expire(t.gifts)
         && r.state.tasks[i].phase == Done
  {
  }

  /** Once the lottery module is loaded, the threshold it uses no longer
      follows `/config`: a later change of the win probability leaves it
      as it was, and the accepted claimant's draw compares with it. */
  lemma ThresholdFixedAtFirstLoad(s: BotState, a: Config.Args, msg: MsgId, u: UserId, sample: real)
    requires s.boundProbability.Some?
    requires 0.0 <= sample < 1.0
    requires msg in s.views && s.views[msg] && s.gifts.claimedBy.None?
    ensures var t := Step(s, SlashConfig(a)).state;
      && t.boundProbability == s.boundProbability
      && var r := Step(t, Click(msg, u, sample));
         var role := Lottery.GetOrCreateRole(t.guildRoles, NewRoleId(t.guildRoles)).role;
         role.id !in RolesOf(t, u) ==>
           (r.reply == Drawn(u, Lottery.Won) <==> sample < s.boundProbability.value)
  {
  }

  /** Concretely: with the threshold bound at the default 0.25, raising the
      win probability to 1 with `/config` still lets a claimant lose. */
  lemma ConfigIgnoredAfterLoad(here: ChannelId, pick1: nat, pick2: nat, u: UserId)
    ensures
      var s0 := Boot(0, {here}, [], map[]);
      var s1 := Step(s0, SlashStart(None, here, pick1)).state;
      var s2 := Step(s1, Wake(0)).state;
      var s3 := Step(s2, Click(0, u, 0.5)).state;
      var s4 := Step(s3, SlashConfig(Config.NoArgs.(winProbability := Some(1.0)))).state;
      var s5 := Step(s4, LifetimeOver(0, pick2)).state;
      var s6 := Step(s5, Wake(0)).state;
      && s3.boundProbability == Some(0.25)
      && s6.settings.winProbability == 1.0
      && Step(s6, Click(1, u, 0.5)).reply == Drawn(u, Lottery.FunFact)
  {
    var s0 := Boot(0, {here}, [], map[]);
    var s1 := Step(s0, SlashStart(None, here, pick1)).state;
    var s2 := Step(s1, Wake(0)).state;
    assert Lottery.FindRole([], Lottery.ChristmasRoleName).None?;
    var s3 := Step(s2, Click(0, u, 0.5)).state;
    assert RolesOf(s3, u) == {};
    var a := Config.NoArgs.(winProbability := Some(1.0));
    assert Config.Given(a) == [Config.Probability];
    var s4 := Step(s3, SlashConfig(a)).state;
    var s5 := Step(s4, LifetimeOver(0, pick2)).state;
    assert s5.tasks[0].phase.Sleeping?;
    var s6 := Step(s5, Wake(0)).state;
    assert s6.views[1];
  }

  /** The Christmas role a click creates is held by nobody yet, so in a guild
      without that role the first accepted claimant really draws: they win
      iff the sample is below the bound threshold. */
  lemma CreatedRoleNotAlreadyHeld(s: BotState, msg: MsgId, u: UserId, sample: real)
    requires RolesKnown(s)
    requires 0.0 <= sample < 1.0
    requires msg in s.views && s.views[msg] && s.gifts.claimedBy.None?
    requires Lottery.FindRole(s.guildRoles, Lottery.ChristmasRoleName).None?
    ensures var r := Step(s, Click(msg, u, sample));
      && r.reply.Drawn? && r.reply.outcome != Lottery.AlreadyElected
      && (r.reply.outcome == Lottery.Won <==> sample < LoadLottery(s).boundProbability.value)
  {
    var t := LoadLottery(s);
    Lottery.CreatedRoleIsDrawn(t.guildRoles, NewRoleId(t.guildRoles), RolesOf(t, u),
                               t.boundProbability.value, sample);
  }

  /** Stop only drops the flag: a start issued while the stopped task is
      still waiting gives two tasks that both wait to spawn. */
  lemma StopThenStartLeavesTwoLoops(here: ChannelId, pick1: nat, pick2: nat)
    ensures
      var s0 := Boot(0, {here}, [], map[]);
      var s1 := Step(s0, SlashStart(None, here, pick1)).state;
      var s2 := Step(s1, SlashStop).state;
      var s3 := Step(s2, SlashStart(None, here, pick2)).state;
      && s3.gifts.isRunning
      && |s3.tasks| == 2
      && s3.tasks[0].phase.Sleeping? && s3.tasks[1].phase.Sleeping?
      && Step(s3, Wake(0)).reply.Spawned?
  {
    Config.DefaultsValid();
  }

  /** An accepted `/config` that leaves min > max makes the next start's
      task die on its first draw, while the running flag stays up: `/start`
      is then refused although no task is left to spawn gifts. */
  lemma EmptyRangeStallsGame(here: ChannelId, pick1: nat, pick2: nat)
    ensures
      var s0 := Boot(0, {here}, [], map[]);
      var s1 := Step(s0, SlashConfig(Config.NoArgs.(minInterval := Some(10)))).state;
      var s2 := Step(s1, SlashStart(None, here, pick1)).state;
      && s2.gifts.isRunning
      && s2.tasks == [LoopTask(here, Crashed)]
      && LiveTasks(s2.tasks) == 0
      && Step(s2, SlashStart(None, here, pick2)) == StepResult(s2, AlreadyRunning)
  {
    Config.MinAboveMaxAccepted();
    var s1 := Step(Boot(0, {here}, [], map[]), SlashConfig(Config.NoArgs.(minInterval := Some(10)))).state;
    assert s1.settings.minSpawnInterval == 10 && s1.settings.maxSpawnInterval == 5;
  }

  /** With the default channel id 0 (and 0 not a channel), both start
      commands fall back to the channel they were issued in. */
  lemma DefaultChannelMeansHere(s: BotState, here: ChannelId, pick: nat)
    requires !s.gifts.isRunning
    requires s.configuredChannel == Config.DefaultChannelId
    requires 0 !in s.visible && here in s.visible
    ensures Step(s, SlashStart(None, here, pick)).reply == Started(here)
    ensures Step(s, PrefixStart(here, pick)).reply == Started(here)
  {
  }

  /** Stopping twice: the second stop is refused and changes nothing. */
  lemma SecondStopRefused(s: BotState)
    requires s.gifts.isRunning
    ensures var t := Step(s, SlashStop).state;
      !t.gifts.isRunning && Step(t, PrefixStop) == StepResult(t, NotRunning)
  {
  }

  /** A click on a view that has timed out reaches no handler, so a gift
      that expired unclaimed cannot be claimed through its own button. */
  lemma ExpiredGiftButtonIgnored(s: BotState, msg: MsgId, u: UserId, sample: real)
    requires 0.0 <= sample < 1.0
    requires msg in s.views
    ensures var t := Step(s, ViewTimeout(msg)).state;
      Step(t, Click(msg, u, sample)) == StepResult(t, NotDispatched)
  {
  }

  /** Spawning a gift and then its lifetime ending with no click: the
      manager forgets the gift but does not mark it claimed, and the view
      stays open until its own timeout, so a click dispatched to that view in
      between is accepted. The model does not track the deletion of the
      message, which in the program removes the button itself. */
  lemma LateClickBeforeViewTimeout(s: BotState, i: nat, pick: nat, u: UserId, sample: real)
    requires 0.0 <= sample < 1.0
    requires i < |s.tasks| && s.tasks[i].phase.Sleeping? && s.gifts.isRunning
    ensures
      var s1 := Step(s, Wake(i)).state;
      var s2 := Step(s1, LifetimeOver(i, pick)).state;
      && s2.gifts.activeGift == None
      && Step(s2, Click(s.nextMsg, u, sample)).reply.Drawn?
  {
  }
}
