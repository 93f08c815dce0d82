# Christmas gift bot — Dafny model of the gift, lottery and ledger core

BotNoel is a seasonal Discord bot. Once an administrator starts the game, a
spawn loop waits a random number of seconds, then posts a "gift" message with
a button into a channel. The first user to click the button claims the gift.
The claimant then enters a lottery for a Christmas role. A claimant who
already holds the role is told so. Anyone else either wins the role or gets a
fun fact. A separate book-winner ledger keeps a
persisted list of user ids.

This project models that core as pure transitions over immutable records:

- `Wrappers` (`wrappers.dfy`): the `Option` type.
- `Config` (`config.dfy`): the default settings of `modules/config.py`, and
  the `/config` command of `bot.py`. The command validates and writes each
  given field in turn, stopping at the first field it refuses.
- `GiftManager` (`gift_manager.dfy`): the manager's state `{activeGift,
  claimedBy, isRunning}`. Its operations are spawn, expiry, the check-and-set
  claim, start and stop. It also models `random.randint` with the random
  choice passed in. The first-claim-wins property is proved over any
  interleaving of claims with expiries, starts and stops.
- `Lottery` (`lottery.dfy`): find-or-create of the Christmas role over the
  guild's role list, and the three-way decision: already elected, win, or fun
  fact. The random sample is a parameter.
- `Books` (`books.dfy`): the book-winner list and its deduplicating add. Load
  and save go through an abstract winners file.
- `Bot` (`bot.dfy`): the whole bot as one event-driven state machine:
  - the start, stop and config commands;
  - every spawn-loop task (sleeping, holding a gift, finished, or crashed);
  - one button view per gift message, open until it times out or a claim is
    accepted;
  - the button handler, which claims the gift and then runs the lottery.

  Every asynchronous resumption is an event. Random delays, random samples
  and newly allocated ids are event parameters or explicit stand-ins.

Some behaviours below come from the code as written. The model follows them.

- Expiry records no "expired" state. It deletes the message and clears
  `activeGift`, and `claimedBy` stays empty. So `claim_gift` itself would
  accept a late claim. Apart from the deletion of the message, only the
  button view's own timeout stands between an expired gift and such a claim.
- The lottery module copies `WIN_PROBABILITY` by value when it is first
  imported. That import happens at the first button click. After that, a
  `/config` change of the probability has no effect on the draw (see
  `Bot.ThresholdFixedAtFirstLoad` and `Bot.ConfigIgnoredAfterLoad`).
- `/config` never compares a new minimum interval with the maximum. So
  `min > max` can be accepted. The next loop iteration then draws from an
  empty range, which raises and kills the loop task. The running flag stays
  up, so `/start` is refused although nothing spawns any more (see
  `Bot.EmptyRangeStallsGame`).
- Stop only lowers the running flag. A start issued while the stopped task
  is still sleeping leaves two live loop tasks (see
  `Bot.StopThenStartLeavesTwoLoops`).

The lottery has one role, one probability and a fun-fact fallback. It has
no book tier, no stock cap and no win log, and the book-winner ledger is not
called from it. The gift state has no "expired" value (see the first
behaviour above).

## Model

| member | source | states |
|---|---|---|
| Config.DefaultsValid | modules/config.py:16-19 | The defaults are lifetime 5, min interval 1, max interval 5 and probability 0.25. They meet every bound `/config` enforces, and min <= max. |
| Config.Configure | bot.py:119-171 | With no arguments the settings are shown unchanged. A call with arguments is accepted iff every given field passes its check (the maximum against the minimum of the same call, else the current one), and refused iff some given field fails. A fully accepted call equals the field-wise override by the given arguments and lists exactly the given fields in order. A refusal names a field that was given (which one, and what stays written, is `Config.RefusalIsFirstFailure`). Every field ends as either its old value or its argument. Bounds-sane settings stay sane. |
| Config.LifetimeOutOfRangeRejected | bot.py:121-125 | A lifetime outside [1,60] is refused and nothing is written. |
| Config.MinIntervalBelowOneRejected | bot.py:128-132 | A minimum below 1 is refused and not written. An accepted lifetime from the same call stays written. |
| Config.MaxIntervalComparedWithCurrentMin | bot.py:135-139 | The maximum is refused iff it is below the current minimum, where "current" includes a minimum set earlier in the same call. |
| Config.ProbabilityOutOfRangeRejected | bot.py:121-147 | A probability outside [0,1] is refused and the probability is not written. When every other given field passes, the refusal names the probability and the lifetime and interval arguments of the same call stay written. |
| Config.RefusalIsFirstFailure | bot.py:121-147 | A refusal names the first field, in the order lifetime, minimum, maximum, probability, that fails its check; every field before it passes. The settings are the old ones overridden by exactly the arguments of the fields before the refused one. |
| Config.RefusalKeepsEarlierWrites | bot.py:121-147 | Updates are not transactional. On a refusal, the fields handled before the refused one stay written, and the refused field and all later ones are untouched. |
| Config.MinAboveMaxAccepted | bot.py:128-140 | Setting the minimum to 10 over the defaults is accepted and leaves min > max. So `/config` does not preserve min <= max. |
| Config.NoArgsUnchanged | bot.py:149-163 | With no arguments the settings are unchanged and only shown. |
| GiftManager.Spawn | modules/gift_manager.py:41-42 | A spawn makes the new message the active gift, resets the claimant to none, and keeps the running flag. |
| GiftManager.Expire | modules/gift_manager.py:47-53 | Expiry of a claimed gift changes nothing. Expiry of an unclaimed gift only clears the active gift, so the claimant stays none. |
| GiftManager.Claim | modules/gift_manager.py:58-76 | If the gift is already claimed, the claim is rejected naming the holder and the state is unchanged. Otherwise the claimant is recorded, the active gift is cleared and the user is returned. |
| GiftManager.StartLoop | modules/gift_manager.py:78-80 | Starting the loop raises the running flag and leaves the gift untouched. |
| GiftManager.StopLoop | modules/gift_manager.py:91-93 | Stop only lowers the running flag and leaves the active gift and claimant untouched. |
| GiftManager.StopIdempotent | modules/gift_manager.py:91-93 | Stopping twice equals stopping once. |
| GiftManager.RandInt | modules/gift_manager.py:84 | The draw lies in [min, max] inclusive. It fails (the `ValueError`) exactly when min > max. |
| GiftManager.RandIntCoversRange | modules/gift_manager.py:84 | Every value of [min, max] is a possible draw. |
| GiftManager.ClaimAfterExpiryAccepted | modules/gift_manager.py:47-66 | After a spawn and an expiry with no claim, `claim_gift` by itself accepts the next claim. |
| GiftManager.ExpiryAfterClaimNoop | modules/gift_manager.py:48-63 | After an accepted claim, expiry is a no-op, and any later claim is rejected naming the claimant. |
| GiftManager.HeldGiftRejectsAll | modules/gift_manager.py:58-63 | Once the gift is held, every claim in any later interleaving without a spawn is rejected naming the holder. There is one answer per claim. |
| GiftManager.FirstClaimWins | modules/gift_manager.py:41-76 | After a spawn, over any interleaving of claims, expiries, starts and stops, the first claim is accepted and every later one is rejected naming the first claimant. |
| GiftManager.ExactlyOneWinnerPerGift | modules/gift_manager.py:41-76 | Per spawned gift, exactly one claim is accepted if anyone claims, and none otherwise. |
| Lottery.FirstNamed | modules/lottery.py:85 | The result is the index of the first role with the given name, or the list length when no role has that name. |
| Lottery.FindRole | modules/lottery.py:85 | The lookup returns the first role of the list with that name, and returns nothing iff no role has that name. |
| Lottery.GetOrCreateRole | modules/lottery.py:74-96 | An existing Christmas role is returned and the role list is unchanged. Otherwise exactly one role, with a new id, is created, added at the end of the list and returned. Either way, a later lookup finds the returned role, its id is one of the guild's, and no role id is lost. |
| Lottery.GetOrCreateTwiceCreatesAtMostOne | modules/lottery.py:85-96 | A second lookup finds the first lookup's role and creates nothing, so two calls add at most one role. |
| Lottery.RunLottery | modules/lottery.py:24-72 | The outcome is "already elected" iff the user holds the role. It is a win iff the user lacks the role and the sample is below the threshold. A win adds exactly the role to the user's roles. Every other outcome leaves them unchanged. |
| Lottery.CreatedRoleIsDrawn | modules/lottery.py:35-94 | When the guild has no Christmas role and the user holds only guild roles, the role the run creates is not theirs: the outcome is never "already elected", and they win iff the sample is below the threshold. |
| Lottery.HolderIsNotDrawn | modules/lottery.py:33-43 | For a holder of the role the outcome is "already elected", whatever the sample. No role is created and the user's roles are unchanged. |
| Lottery.ExtremeProbabilities | modules/lottery.py:46 | With a sample in [0,1), probability 0 never wins. Probability 1 always wins for a user without the role. |
| Books.Load | modules/books.py:26-35 | Loading yields the stored winners list. It yields the empty list when the file is missing, unreadable, or has no winners key. |
| Books.Save | modules/books.py:37-46 | After a successful save, loading yields exactly the saved list. A failed save leaves the file as it was. |
| Books.Open | modules/books.py:22-24 | A new ledger holds what loading the file yields. |
| Books.HasWonBook | modules/books.py:56-58 | A user has won the book iff their id occurs at some position of the in-memory list; the file is not consulted. |
| Books.WinnersAfterAdd | modules/books.py:48-58 | After an add, the winners are exactly the earlier winners and the added user, whether or not the save succeeded. |
| Books.AddWinner | modules/books.py:48-58 | A new id is appended at the end and the call returns true. A known id returns false and leaves everything unchanged. Afterwards the user has won the book. After a successful save, the file loads back to the in-memory list. |
| Books.AddKeepsNoDuplicates | modules/books.py:48-54 | If the list has no duplicates before an add, it has none after. |
| Books.AddIdempotent | modules/books.py:50-54 | Adding the same user a second time returns false and changes nothing. |
| Books.AddAllOnlyGrows | modules/books.py:48-58 | After any sequence of adds, the old list is a prefix of the new one and every added user has won the book. |
| Books.ReopenAfterSave | modules/books.py:26-53 | A ledger reopened from the file after a successful add-and-save holds the same list. |
| Books.FailedSaveDiverges | modules/books.py:37-53 | When the save fails, the in-memory ledger knows the new winner but a ledger reopened from the file does not. |
| Bot.Boot | modules/gift_manager.py:20-24 | At start-up no gift is active, nobody holds one and the game is not running. The settings are the defaults, the lottery threshold is unbound, and no loop task and no view exist. The guild's roles and its members' roles are whatever the platform already holds, members holding only roles of the guild (`Bot.RolesKnown`). |
| Bot.NextWait | modules/gift_manager.py:82-85 | At the top of each loop iteration, the task sleeps for a delay in [min, max] of the current settings. It crashes iff min > max. |
| Bot.Launch | modules/gift_manager.py:78-85 | Starting raises the running flag and adds exactly one new loop task, in its first wait, or crashed when min > max. Nothing else changes: the gift, the views, the settings, the binding and the roles are untouched. |
| Bot.SlashStartCmd | bot.py:61-71 | `/start` is refused with no change while running. Otherwise it starts in the given channel, else the configured channel if it resolves, else the current channel. It adds exactly one loop task in that channel (in its first wait, or crashed when min > max), raises the flag and changes nothing else. |
| Bot.PrefixStartCmd | bot.py:245-263 | `!start` is refused with no change while running. A configured id of 0 means the current channel. An id that does not resolve is reported, with no change. Otherwise the game starts there: exactly one loop task in that channel is added (in its first wait, or crashed when min > max), the flag rises and nothing else changes. |
| Bot.StopCmd | bot.py:86-92 | Both stop commands are refused with no change when not running. Otherwise only the running flag drops. |
| Bot.WakeTask | modules/gift_manager.py:82-89 | A waking task spawns iff the running flag is still up. The spawn posts a message with a new id, to which no view was attached before (given the `Bot.MessagesFresh` invariant), opens its view and announces it in the task's channel. Nothing else changes. Otherwise the task ends and nothing else changes. |
| Bot.EndLifetime | modules/gift_manager.py:45-89 | When a gift's lifetime ends, the shared gift state expires. The task then starts its next wait if still running, and ends otherwise. Every other task, every view, the settings and the roles are unchanged. |
| Bot.CloseView | modules/gift_manager.py:99-100 | A view's timeout closes only that view. |
| Bot.LoadLottery | modules/gift_manager.py:106-107 | The first load binds the lottery threshold to the configured probability at that moment. Later loads keep it. Nothing else changes. |
| Bot.ClickButton | modules/gift_manager.py:104-118 | Clicks on a closed view reach nothing. On an open view, the lottery runs iff the claim is accepted. Then the claimant holds the gift, the view is closed, and the outcome, the guild's roles and the claimant's roles are exactly those of the lottery run with the bound threshold. Nothing else changes: not the flag, the tasks, the settings, or anybody else's roles. A rejected click changes nothing but the lottery load and names the holder. |
| Bot.Step | bot.py:111-147 | Only `/config` changes the settings, and every step keeps sane settings sane. Only clicks bind the lottery threshold. Every step keeps the views below the next message id (`Bot.MessagesFresh`) and the members' roles among the guild's roles (`Bot.RolesKnown`). |
| Bot.ThresholdFixedAtFirstLoad | modules/lottery.py:7-46 | Once the threshold is bound, `/config` does not change it. An accepted claimant without the role wins iff the sample is below the bound value. |
| Bot.ConfigIgnoredAfterLoad | bot.py:142-146 | Concretely, from start-up: a first click binds 0.25; after `/config` sets the probability to 1, the next gift's claimant with sample 0.5 still loses. |
| Bot.CreatedRoleNotAlreadyHeld | modules/gift_manager.py:104-114 | In a guild without the Christmas role, the first accepted click is a real draw: never "already elected", and a win iff the sample is below the bound threshold. |
| Bot.StopThenStartLeavesTwoLoops | modules/gift_manager.py:78-93 | Start, stop, start leaves two sleeping loop tasks while running, and the first still spawns when it wakes. |
| Bot.EmptyRangeStallsGame | modules/gift_manager.py:84 | After an accepted min > max, a start's task crashes at once. The flag stays up, no live task is left, and `/start` is refused. |
| Bot.DefaultChannelMeansHere | bot.py:255 | With the default channel id 0, both start commands use the channel they were issued in. |
| Bot.SecondStopRefused | bot.py:283-285 | After a stop, a second stop is refused and changes nothing. |
| Bot.FirstClickAfterBootDrawn | modules/gift_manager.py:20-118 | From start-up, after a start and the first wake, a click on the posted gift is accepted, runs the lottery, and binds the threshold to the default probability. |
| Bot.NoSpawnAfterStop | modules/gift_manager.py:82-93 | After a stop, a task that wakes never spawns, and a sleeping one ends. |
| Bot.StopKeepsGiftInFlight | modules/gift_manager.py:45-93 | A stop leaves a gift that is up untouched, and its lifetime still ends with the usual expiry, after which its task ends. |
| Bot.ExpiredGiftButtonIgnored | modules/gift_manager.py:100 | After a view times out, its clicks change nothing. |
| Bot.LateClickBeforeViewTimeout | modules/gift_manager.py:48-58 | After a gift's lifetime ends unclaimed, the manager has forgotten the gift but not marked it claimed, and a click dispatched to its still-open view is accepted and runs the lottery. |

## Left out

- Discord calls (send, delete, `add_roles`, `create_role`, embeds, command registration, `tree.sync`): these are a foreign library. Messages are ids, replies are values, and a `NotFound` on delete is treated as success.
- Real interleaving inside one step is not modelled. Each event runs without suspension, so a click that lands between `channel.send` and the reset of `claimed_by`, or two `/start` calls before the running flag rises, are not represented. `start_spawn_loop` raises the flag inside the created task; the model raises it in the start command itself.
- Time is abstract. Waits end when their events arrive, with no clock ordering between them. So a view may close before or after its gift's lifetime ends.
- Randomness: `random.randint` takes its choice as a parameter, and `random.random` takes its sample as a parameter in [0,1). New role ids come from `Bot.NewRoleId`, a stand-in for the platform's allocator.
- Floats: probabilities are Dafny reals. NaN and rounding are not represented.
- The fun-facts module is not part of this model. The fun-fact outcome carries no text.
- File and JSON I/O: the winners file is an abstract store with three states (missing, unreadable, parsed document). A save failure is modelled as leaving the file unchanged, so a partially written file is not represented. A winners entry that is not a list of ids is not represented either.
- Message deletion is not tracked. When an unclaimed gift expires, the program deletes its message and with it the button. The model keeps such a view open until its timeout, so a late click there reaches the manager only in the model or for a click already on its way when the message was deleted (see `Bot.LateClickBeforeViewTimeout`).
- `create_role` adds the role at a position the platform chooses. The model puts it at the end of the role list. No lookup by name depends on that position.
- A view's timeout is counted from its creation; discord's reset of the timeout on each interaction is not modelled.
- Delete failures other than `NotFound` are not modelled. In `claim_gift` such a failure comes after the claimant is recorded: the active gift stays set, no lottery runs and the view is not stopped. In the spawn loop it ends the task. The model always clears the gift and, on a claim, runs the lottery.
- The spawn loop's channel send failing, and any exception inside the lottery, would end the task or the handler. They are not modelled.
- Permissions: events carry no issuer, so the administrator-only guard of the prefix commands (`@commands.has_permissions(administrator=True)`) and the slash commands' permission settings are not represented. A refusal of a non-administrator is not modelled.
- The `info` and `help` commands, `main`, `on_ready`, the token check and the permission-error handler are presentation only.
- `BookManager.create_win_embed` only builds a message. It is left out with the rest of the presentation.
