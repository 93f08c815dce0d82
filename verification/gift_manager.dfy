/** The gift manager: the one active gift message, who claimed it, and the
    running flag of the spawn loop. Each asynchronous step of the manager is a
    pure transition; the waits between them are the gaps between events. */
module GiftManager {
  import opened Wrappers

  type UserId = int
  type MsgId = int

  /** The manager's three attributes. Expiry does not record an "expired"
      state: it only clears `activeGift`. */
  datatype GiftState = GiftState(
    activeGift: Option<MsgId>,
    claimedBy: Option<UserId>,
    isRunning: bool
  )

  const Initial: GiftState := GiftState(None, None, false)

  /** What `claim_gift` answers: the claimant (who then runs the lottery), or
      a "too late" message naming the user who already holds the gift. */
  datatype ClaimReply = Accepted(user: UserId) | TooLate(holder: UserId)

  datatype ClaimResult = ClaimResult(reply: ClaimReply, state: GiftState)

  /** First half of `spawn_gift`: the sent message becomes the active gift and
      the previous claimant is forgotten. */
  function Spawn(s: GiftState, msg: MsgId): (s': GiftState)
    ensures s'.activeGift == Some(msg) && s'.claimedBy == None
    ensures s'.isRunning == s.isRunning
  {
    s.(activeGift := Some(msg), claimedBy := None)
  }

  /** Second half of `spawn_gift`, after the lifetime has elapsed: an
      unclaimed gift is deleted (a vanished message is ignored); a claimed
      one is left alone. */
  function Expire(s: GiftState): (s': GiftState)
    ensures s.claimedBy.Some? ==> s' == s
    ensures s.claimedBy.None? ==> s' == s.(activeGift := None)
  {
    if s.claimedBy.None? && s.activeGift.Some? then s.(activeGift := None) else s
  }

  /** `claim_gift`: a check-and-set on `claimedBy`. The first claimant takes
      the gift and its message is retracted; anyone later is told who won. */
  function Claim(s: GiftState, u: UserId): (r: ClaimResult)
    ensures s.claimedBy.Some? ==> r == ClaimResult(TooLate(s.claimedBy.value), s)
    ensures s.claimedBy.None? ==>
              r.reply == Accepted(u) && r.state.claimedBy == Some(u)
              && r.state.activeGift == None && r.state.isRunning == s.isRunning
  {
    match s.claimedBy
    case Some(holder) => ClaimResult(TooLate(holder), s)
    case None => ClaimResult(Accepted(u), s.(claimedBy := Some(u), activeGift := None))
  }

  /** The first statement of `start_spawn_loop`. */
  function StartLoop(s: GiftState): (s': GiftState)
    ensures s'.isRunning
    ensures s'.activeGift == s.activeGift && s'.claimedBy == s.claimedBy
  {
    s.(isRunning := true)
  }

  /** `stop_spawn_loop`: only lowers the flag; an active gift is untouched. */
  function StopLoop(s: GiftState): (s': GiftState)
    ensures !s'.isRunning
    ensures s'.activeGift == s.activeGift && s'.claimedBy == s.claimedBy
  {
    s.(isRunning := false)
  }

  /** Python's `random.randint(lo, hi)` with the random choice passed in as
      `pick`: `None` stands for the `ValueError` it raises on an empty range. */
  function RandInt(lo: int, hi: int, pick: nat): (r: Option<int>)
    ensures r.Some? <==> lo <= hi
    ensures r.Some? ==> lo <= r.value <= hi
  {
    if lo > hi then None else Some(lo + pick % (hi - lo + 1))
  }

  /** Every value of the range is a possible draw. */
  lemma RandIntCoversRange(lo: int, hi: int, v: int)
    requires lo <= v <= hi
    ensures exists pick: nat :: RandInt(lo, hi, pick) == Some(v)
  {
    var pick: nat := v - lo;
    assert RandInt(lo, hi, pick) == Some(v);
  }

  /** Stopping twice is the same as stopping once. */
  lemma StopIdempotent(s: GiftState)
    ensures StopLoop(StopLoop(s)) == StopLoop(s)
  {
  }

  /** Expiry of an unclaimed gift leaves `claimedBy` empty, so `claim_gift`
      on its own would still accept a claim after expiry: only the view's
      timeout keeps late clicks away. */
  lemma ClaimAfterExpiryAccepted(s: GiftState, msg: MsgId, u: UserId)
    ensures Claim(Expire(Spawn(s, msg)), u).reply == Accepted(u)
  {
  }

  /** Once claimed, expiry changes nothing and any later claim is rejected
      naming the winner. */
  lemma ExpiryAfterClaimNoop(s: GiftState, u: UserId, v: UserId)
    requires s.claimedBy.None?
    ensures var t := Claim(s, u).state;
      Expire(t) == t && Claim(t, v) == ClaimResult(TooLate(u), t)
  {
  }

  /** The manager-level events that can interleave with claims. */
  datatype Event = SpawnEv(msg: MsgId) | ClaimEv(user: UserId) | ExpireEv | StartEv | StopEv

  function Step(s: GiftState, e: Event): GiftState {
    match e
    case SpawnEv(m) => Spawn(s, m)
    case ClaimEv(u) => Claim(s, u).state
    case ExpireEv => Expire(s)
    case StartEv => StartLoop(s)
    case StopEv => StopLoop(s)
  }

  /** The answers given to the claim events of `es`, in order. */
  function Replies(s: GiftState, es: seq<Event>): seq<ClaimReply>
    decreases |es|
  {
    if es == [] then []
    else
      var rest := Replies(Step(s, es[0]), es[1..]);
      if es[0].ClaimEv? then [Claim(s, es[0].user).reply] + rest else rest
  }

  /** The users of the claim events of `es`, in order. */
  function Claimants(es: seq<Event>): seq<UserId>
    decreases |es|
  {
    if es == [] then []
    else (if es[0].ClaimEv? then [es[0].user] else []) + Claimants(es[1..])
  }

  predicate NoSpawn(es: seq<Event>) {
    forall i :: 0 <= i < |es| ==> !es[i].SpawnEv?
  }

  /** After a claim, every further claim in any interleaving without a new
      spawn is rejected naming that claimant. */
  lemma {:induction false} HeldGiftRejectsAll(s: GiftState, es: seq<Event>)
    requires s.claimedBy.Some?
    requires NoSpawn(es)
    ensures |Replies(s, es)| == |Claimants(es)|
    ensures forall i :: 0 <= i < |Replies(s, es)| ==> Replies(s, es)[i] == TooLate(s.claimedBy.value)
    decreases |es|
  {
    if es != [] {
      var t := Step(s, es[0]);
      assert t.claimedBy == s.claimedBy;
      assert NoSpawn(es[1..]) by {
        forall i | 0 <= i < |es[1..]| ensures !es[1..][i].SpawnEv? {
          assert es[1..][i] == es[i + 1];
        }
      }
      HeldGiftRejectsAll(t, es[1..]);
    }
  }

  /** First claim wins: from a fresh gift, whatever expiries, starts and stops
      interleave, the first claim is accepted and every later one is rejected
      naming the first claimant. */
  lemma {:induction false} FirstClaimWins(s: GiftState, es: seq<Event>)
    requires s.claimedBy.None?
    requires NoSpawn(es)
    ensures |Replies(s, es)| == |Claimants(es)|
    ensures |Claimants(es)| > 0 ==>
              var w := Claimants(es)[0];
              && Replies(s, es)[0] == Accepted(w)
              && forall i :: 1 <= i < |Replies(s, es)| ==> Replies(s, es)[i] == TooLate(w)
    decreases |es|
  {
    if es != [] {
      var t := Step(s, es[0]);
      assert NoSpawn(es[1..]) by {
        forall i | 0 <= i < |es[1..]| ensures !es[1..][i].SpawnEv? {
          assert es[1..][i] == es[i + 1];
        }
      }
      if es[0].ClaimEv? {
        assert t.claimedBy == Some(es[0].user);
        HeldGiftRejectsAll(t, es[1..]);
      } else {
        assert t.claimedBy.None?;
        FirstClaimWins(t, es[1..]);
      }
    }
  }

  /** The number of accepted answers. */
  function AcceptedCount(rs: seq<ClaimReply>): nat
    decreases |rs|
  {
    if rs == [] then 0 else (if rs[0].Accepted? then 1 else 0) + AcceptedCount(rs[1..])
  }

  lemma {:induction false} AllTooLateNoneAccepted(rs: seq<ClaimReply>)
    requires forall i :: 0 <= i < |rs| ==> rs[i].TooLate?
    ensures AcceptedCount(rs) == 0
    decreases |rs|
  {
    if rs != [] {
      AllTooLateNoneAccepted(rs[1..]);
    }
  }

  /** Exactly one claim succeeds per spawned gift: one when anyone claims,
      none otherwise. */
  lemma ExactlyOneWinnerPerGift(s: GiftState, msg: MsgId, es: seq<Event>)
    requires NoSpawn(es)
    ensures AcceptedCount(Replies(Spawn(s, msg), es)) == (if |Claimants(es)| > 0 then 1 else 0)
  {
    var rs := Replies(Spawn(s, msg), es);
    FirstClaimWins(Spawn(s, msg), es);
    if |Claimants(es)| > 0 {
      AllTooLateNoneAccepted(rs[1..]);
      assert rs == [rs[0]] + rs[1..];
    } else {
      assert rs == [];
    }
  }
}
