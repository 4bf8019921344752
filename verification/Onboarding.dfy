/** The onboarding job: from a queued target to a linked account, a request waiting for
    approval, a verdict, or a deferral. The messenger's answer is a parameter. */
module Onboarding {
  import opened Common
  import opened Identifiers
  import opened JobModel
  import opened JobProtocol
  import opened JoinPacing
  import L = Links

  datatype Status = NeedsAccount | Ready | Blocked

  /** What the messenger says to the join or resolve call. Raised: any error the job
      does not handle. */
  datatype Reply =
    | Accepted(entity: Entity)
    | FloodWait(seconds: int)
    | PeerFlood
    | TooManyChannels
    | RequestSent
    | AlreadyMember(found: Option<Entity>)
    | TerminalError
    | Raised

  /** How the job body ends; Error rolls the transaction back. */
  datatype JobEnd = Finished | Defer(seconds: int) | Error

  class Account {
    const id: int
    const pacing: PacedAccount
    var active: bool
    var cooldownUntil: Option<int>
    var channelsFull: bool

    constructor (id: int, pacing: PacedAccount)
      ensures this.id == id && this.pacing == pacing
      ensures active && cooldownUntil == None && !channelsFull
    {
      this.id, this.pacing := id, pacing;
      active, cooldownUntil, channelsFull := true, None, false;
    }
  }

  class OnboardingTarget {
    const id: int
    var identifier: string
    var step: OnboardStep
    var status: Status
    var invite: Option<string>

    constructor (id: int, identifier: string)
      ensures this.id == id && this.identifier == identifier
      ensures step == Queued && status == NeedsAccount && invite == None
    {
      this.id, this.identifier := id, identifier;
      step, status, invite := Queued, NeedsAccount, None;
    }

    method Fail()
      modifies this
      ensures step == StepFailed && status == NeedsAccount && identifier == old(identifier) && invite == old(invite)
    {
      step := StepFailed;
      status := NeedsAccount;
    }
  }

  /** The pacing fields after a recorded join. */
  function Recorded(w: Window, now: int): Window {
    var r := Refreshed(w, now);
    Window(r.start, r.count + 1, Some(now))
  }

  const HOUR := 3600

  /** The part of the job before an account is at hand. `account` is the pinned account,
      null if it is missing, or the pool's pick, null if there was none. Returns whether
      the job can go on with the account. */
  method ChooseAccount(target: OnboardingTarget, pinned: bool, account: Account?, poolWait: int)
      returns (goOn: bool, end: JobEnd)
    requires poolWait >= 0 && (!pinned && account != null ==> account.active)
    modifies target
    ensures target.identifier == old(target.identifier) && target.invite == old(target.invite)
    ensures goOn <==> account != null && account.active
    ensures goOn ==> target.step == Resolving
    ensures !goOn ==> end == if pinned || IsPrivate(target.identifier) || poolWait == 0
                            then Finished else Defer(Min(poolWait, HOUR))
    ensures !goOn && end.Finished? ==> target.step == StepFailed && target.status == NeedsAccount
    ensures !goOn && end.Defer? ==> target.step == Queued
  {
    end := Finished;
    target.step := Resolving;
    if pinned {
      if account == null || !account.active {
        target.Fail();
        return false, Finished;
      }
    } else {
      if account == null && IsPrivate(target.identifier) {
        target.Fail();
        return false, Finished;
      }
      if account == null {
        if poolWait > 0 {
          target.step := Queued;
          return false, Defer(Min(poolWait, HOUR));
        }
        target.Fail();
        return false, Finished;
      }
    }
    return true, Finished;
  }

  /** Whether the job may ask the messenger now. A join needs a chat that can be joined,
      permission, and a free slot in the account's pacing. */
  method MayAsk(target: OnboardingTarget, account: Account, member: bool, allowJoin: bool, lim: Limits, now: int)
      returns (ask: bool, end: JobEnd)
    requires target.step == Resolving
    modifies target, account.pacing
    ensures target.identifier == old(target.identifier) && target.invite == old(target.invite)
    ensures var refused := !member && (IsPrivate(target.identifier) || !allowJoin);
            var paced := !member && !refused;
            && account.pacing.Fields() == (if paced then Refreshed(old(account.pacing.Fields()), now)
                                           else old(account.pacing.Fields()))
            && (ask <==> !refused && (paced ==> Wait(lim, account.pacing.Fields(), now) == 0))
            && (ask ==> target.step == if member then Resolving else Joining)
            && (!ask && refused ==> end == Finished && target.step == StepFailed && target.status == NeedsAccount)
            && (!ask && !refused ==> end == Defer(Wait(lim, account.pacing.Fields(), now)) && end.seconds > 0
                                     && target.step == Resolving)
  {
    end := Finished;
    var needsJoin := !member;
    if needsJoin && IsPrivate(target.identifier) {
      target.Fail();
      return false, Finished;
    }
    if needsJoin && !allowJoin {
      target.Fail();
      return false, Finished;
    }
    if needsJoin {
      var wait := account.pacing.JoinPacingWaitSeconds(lim, now);
      if wait > 0 {
        return false, Defer(wait);
      }
    }
    target.step := if needsJoin then Joining else Resolving;
    return true, Finished;
  }

  /** The account is in: the target takes its canonical identity and its link. */
  method Settle(target: OnboardingTarget, account: Account, entity: Entity, table: L.LinkTable)
    requires L.OneRowPerPair(table.links)
    modifies target, table
    ensures target.step == Joined && target.status == Ready && target.identifier == Canonical(entity)
    ensures target.invite == if IsInvite(old(target.identifier)) then InviteHash(old(target.identifier))
                             else old(target.invite)
    ensures table.links == L.Linked(old(table.links), target.id, account.id)
  {
    if IsInvite(target.identifier) {
      target.invite := InviteHash(target.identifier);
    }
    target.identifier := Canonical(entity);
    table.LinkTo(target.id, account.id);
    target.step := Joined;
    target.status := Ready;
  }

  /** What the messenger's answer does to target, account and links. */
  method HandleReply(target: OnboardingTarget, account: Account, member: bool, reply: Reply, floodCooldown: int,
                     table: L.LinkTable, now: int) returns (end: JobEnd)
    requires target.step == (if member then Resolving else Joining)
    requires L.OneRowPerPair(table.links)
    modifies target, account`cooldownUntil, account`channelsFull, account.pacing, table
    ensures reply.Accepted? || (reply.AlreadyMember? && reply.found.Some?) ==>
              end == Finished && target.step == Joined && target.status == Ready
              && table.links == L.Linked(old(table.links), target.id, account.id)
    ensures reply.Accepted? ==> target.identifier == Canonical(reply.entity)
    ensures reply.AlreadyMember? && reply.found.Some? ==> target.identifier == Canonical(reply.found.value)
    ensures !(reply.Accepted? || (reply.AlreadyMember? && reply.found.Some?)) ==>
              table.links == old(table.links) && target.identifier == old(target.identifier)
    ensures account.pacing.Fields() == if (reply.Accepted? && !member) || reply.RequestSent?
                                       then Recorded(old(account.pacing.Fields()), now)
                                       else old(account.pacing.Fields())
    ensures reply.FloodWait? && reply.seconds != 0 ==>
              account.cooldownUntil == Some(now + reply.seconds * SECOND)
              && end == Defer(Max(Min(reply.seconds, HOUR), 1))
    ensures reply == FloodWait(0) ==> account.cooldownUntil == Some(now + 60 * SECOND) && end == Defer(60)
    ensures reply.PeerFlood? ==> account.cooldownUntil == Some(now + floodCooldown * SECOND) && end == Defer(HOUR)
    ensures !reply.FloodWait? && !reply.PeerFlood? ==> account.cooldownUntil == old(account.cooldownUntil)
    ensures account.channelsFull == (old(account.channelsFull) || reply.TooManyChannels?)
    ensures reply.TooManyChannels? ==> end == Defer(30)
    ensures end.Defer? ==> target.step == old(target.step)
    ensures reply.RequestSent? ==> end == Finished && target.step == PendingApproval && target.status == Blocked
    ensures reply.TerminalError? ==> end == Finished && target.step == StepFailed && target.status == NeedsAccount
    ensures end.Error? <==> reply.Raised? || (reply.AlreadyMember? && reply.found.None?)
  {
    match reply
    case Accepted(entity) =>
      if !member {
        account.pacing.RegisterJoin(now);
      }
      Settle(target, account, entity, table);
      return Finished;
    case FloodWait(seconds) =>
      account.cooldownUntil := Some(now + Flood(seconds) * SECOND);
      return Defer(Max(Min(Flood(seconds), HOUR), 1));
    case PeerFlood =>
      account.cooldownUntil := Some(now + floodCooldown * SECOND);
      return Defer(HOUR);
    case TooManyChannels =>
      account.channelsFull := true;
      return Defer(30);
    case RequestSent =>
      account.pacing.RegisterJoin(now);
      target.step := PendingApproval;
      target.status := Blocked;
      return Finished;
    case AlreadyMember(entity) =>
      if entity.None? {
        return Error;
      }
      Settle(target, account, entity.value, table);
      return Finished;
    case TerminalError =>
      target.Fail();
      return Finished;
    case Raised =>
      return Error;
  }

  /** A flood wait of 0 seconds counts as 60. */
  function Flood(seconds: int): int {
    if seconds == 0 then 60 else seconds
  }

  /** The event this job adds to the account's pacing history, if any. A resolve call, which
      only a member makes, records a join only if it is answered with "request sent"; no
      check comes before that one. */
  function PacingEvent(privateChat: bool, member: bool, allowJoin: bool, reply: Reply, lim: Limits, before: Window,
                       now: int): Option<PacingStep>
  {
    var checked := !member && !privateChat && allowJoin;
    if checked && (Wait(lim, Refreshed(before, now), now) > 0 || !(reply.Accepted? || reply.RequestSent?))
    then Some(Check(now))
    else if checked || (member && reply.RequestSent?) then Some(Join(now))
    else None
  }

  /** The whole job. A finished one leaves a verdict, a deferred one leaves the target
      under way; the account's pacing sees at most one event, and a join call is made only
      when the limiter allows it; the links change exactly when the target ends joined. */
  method RunOnboardJob(target: OnboardingTarget, pinned: bool, account: Account?, poolWait: int, member: bool,
                       allowJoin: bool, reply: Reply, lim: Limits, floodCooldown: int, table: L.LinkTable, now: int)
      returns (end: JobEnd)
    requires poolWait >= 0 && (!pinned && account != null ==> account.active)
    requires L.OneRowPerPair(table.links)
    modifies target, table
    modifies if account != null then {account, account.pacing} else {}
    ensures end.Finished? ==> target.step.Verdict()
    ensures end.Defer? ==> target.step.Unfinished() && end.seconds >= 1
    ensures forall job: Job :: job.onboard ==> AllowedOutcome(job, SeenOutcome(end, target.step))
    ensures end.Finished? && target.step.Joined? ==>
              account != null && account.active && (member || allowJoin)
              && table.links == L.Linked(old(table.links), target.id, account.id)
              && exists e: Entity :: target.identifier == Canonical(e)
    ensures !(end.Finished? && target.step.Joined?) ==> table.links == old(table.links)
    ensures account != null ==> account.active == old(account.active)
    ensures account != null && !account.active ==> account.pacing.Fields() == old(account.pacing.Fields())
    ensures account != null && account.active ==>
              var event := PacingEvent(IsPrivate(old(target.identifier)), member, allowJoin, reply, lim,
                                       old(account.pacing.Fields()), now);
              var refreshed := Refreshed(old(account.pacing.Fields()), now);
              && (event == None ==> account.pacing.Fields() == old(account.pacing.Fields()))
              && (event == Some(Check(now)) ==> account.pacing.Fields() == refreshed)
              && (event == Some(Join(now)) ==>
                    (!member ==> Wait(lim, refreshed, now) == 0)
                    && account.pacing.Fields() == Recorded(old(account.pacing.Fields()), now))
  {
    var goOn;
    goOn, end := ChooseAccount(target, pinned, account, poolWait);
    if !goOn {
      return;
    }
    var ask;
    ask, end := MayAsk(target, account, member, allowJoin, lim, now);
    if !ask {
      return;
    }
    end := HandleReply(target, account, member, reply, floodCooldown, table, now);
  }

  /** What a job does to its account's pacing is a step of the pacing history, and one that
      the pacing runs allow, except exactly when a member's resolve call is answered with
      "request sent" while the limiter would have had it wait. */
  lemma PacingEventIsAStep(h: History, lim: Limits, privateChat: bool, member: bool, allowJoin: bool, reply: Reply,
                           now: int)
    requires PacingEvent(privateChat, member, allowJoin, reply, lim, h.window, now).Some?
    ensures var e := PacingEvent(privateChat, member, allowJoin, reply, lim, h.window, now).value;
            && Step(h, e).window == (if e.Check? then Refreshed(h.window, now) else Recorded(h.window, now))
            && (Allowed(lim, h, e) <==>
                  !(member && reply.RequestSent? && Wait(lim, Refreshed(h.window, now), now) > 0))
  {
    assert AfterRefresh(h, now).window == Refreshed(h.window, now);
  }

  /** The outcome the job machine sees is one it allows for onboarding jobs. */
  function SeenOutcome(end: JobEnd, step: OnboardStep): Outcome {
    match end
    case Finished => Done(Some(step))
    case Defer(seconds) => Deferred(seconds, Some(step))
    case Error => Errored
  }
}
