/** The jobs a Telegram target asks the scheduler for, and why their keys never clash. */
module GenerateJobs {
  import opened Common
  import opened Decimal
  import opened JobModel
  import opened JobSteps
  import opened JobProtocol
  import FullBackfill
  import Onboarding
  import RangeBackfill

  // ---- What a target may ask for --------------------------------------------

  datatype Kind =
    | FullBatch(offset: int)
    | GapFill
    | PollOnce
    | Participants
    | RangeChunk(from: int, to: int)

  datatype Request =
    | StartOnboarding
    | ForAccount(account: int, kind: Kind, interval: int)

  datatype Settings = Settings(pollSeconds: int, participantsEnabled: bool, participantsUnavailable: bool,
                               participantsSeconds: int, liveEnabled: bool, backfill: RangeBackfill.BackfillConfig)

  datatype Account = Account(id: int, alive: Option<bool>, cooldownUntil: Option<int>,
                             hourStart: Option<int>, hourCount: int, hourlyLimit: int, health: real)

  predicate IsAvailable(a: Account, now: int) {
    if a.alive == Some(false) then false
    else if a.cooldownUntil.Some? && a.cooldownUntil.value > now then false
    else if a.hourStart.Some? && now - a.hourStart.value < Onboarding.HOUR then a.hourCount < Max(a.hourlyLimit, 1)
    else true
  }

  predicate FullMode(settings: Settings) {
    settings.backfill.enabled && RangeBackfill.Mode(settings.backfill.mode) == "full"
  }

  /** The offset of the account's next full batch, while its full backfill is under way. */
  function FullOffset(settings: Settings, progress: map<int, FullBackfill.Progress>, account: int): Option<int> {
    if FullMode(settings) then FullBackfill.OffsetOf(progress, account) else None
  }

  predicate SyncsParticipants(settings: Settings) {
    settings.participantsEnabled && !settings.participantsUnavailable
  }

  function ChunkRequests(account: int, ranges: seq<RangeBackfill.Range>): (r: seq<Request>)
    ensures |r| == |ranges|
    ensures forall i :: 0 <= i < |r| ==> r[i] == ForAccount(account, RangeChunk(ranges[i].from, ranges[i].to), 0)
  {
    seq(|ranges|, i requires 0 <= i < |ranges| => ForAccount(account, RangeChunk(ranges[i].from, ranges[i].to), 0))
  }

  function LiveRequest(account: int, settings: Settings): Request {
    ForAccount(account, if settings.liveEnabled then GapFill else PollOnce, Max(settings.pollSeconds, 30))
  }

  function SyncRequests(account: int, settings: Settings): seq<Request> {
    if SyncsParticipants(settings) then [ForAccount(account, Participants, Max(settings.participantsSeconds, 300))]
    else []
  }

  function Ranges(settings: Settings): seq<RangeBackfill.Range> {
    if FullMode(settings) then [] else RangeBackfill.Chunks(settings.backfill)
  }

  /** During a full backfill its batch alone; else the live job, the participants' sync
      and, outside full mode, the chunks of the date range. */
  function AccountRequests(account: int, settings: Settings, progress: map<int, FullBackfill.Progress>): seq<Request> {
    var offset := FullOffset(settings, progress, account);
    if offset.Some? then [ForAccount(account, FullBatch(offset.value), 0)]
    else [LiveRequest(account, settings)] + SyncRequests(account, settings) + ChunkRequests(account, Ranges(settings))
  }

  function AllRequests(accounts: seq<Account>, settings: Settings, progress: map<int, FullBackfill.Progress>)
      : seq<Request>
  {
    if accounts == [] then []
    else
      AllRequests(accounts[..|accounts| - 1], settings, progress)
      + AccountRequests(accounts[|accounts| - 1].id, settings, progress)
  }

  function Available(accounts: seq<Account>, now: int): seq<Account> {
    if accounts == [] then []
    else
      var last := accounts[|accounts| - 1];
      Available(accounts[..|accounts| - 1], now) + if IsAvailable(last, now) then [last] else []
  }

  /** Healthier accounts first, then those less used, then by id. */
  predicate RanksBefore(a: Account, b: Account) {
    || a.health > b.health
    || (a.health == b.health && a.hourCount < b.hourCount)
    || (a.health == b.health && a.hourCount == b.hourCount && a.id < b.id)
  }

  function Insert(a: Account, ranked: seq<Account>): seq<Account> {
    if ranked == [] || RanksBefore(a, ranked[0]) then [a] + ranked else [ranked[0]] + Insert(a, ranked[1..])
  }

  /** The library's sort. */
  function Ranked(accounts: seq<Account>): seq<Account> {
    if accounts == [] then [] else Insert(accounts[0], Ranked(accounts[1..]))
  }

  predicate InRankOrder(accounts: seq<Account>) {
    forall i, j :: 0 <= i < j < |accounts| ==> !RanksBefore(accounts[j], accounts[i])
  }

  /** The sort orders its input, loses nothing and adds nothing. */
  lemma {:induction false} RankedIsSorted(accounts: seq<Account>)
    ensures InRankOrder(Ranked(accounts)) && multiset(Ranked(accounts)) == multiset(accounts)
    ensures forall i, j :: 0 <= i < j < |Ranked(accounts)| ==>
              var x, y := Ranked(accounts)[i], Ranked(accounts)[j];
              && x.health >= y.health
              && (x.health == y.health ==> x.hourCount <= y.hourCount)
              && (x.health == y.health && x.hourCount == y.hourCount ==> x.id <= y.id)
  {
    if accounts != [] {
      RankedIsSorted(accounts[1..]);
      InsertKeepsOrder(accounts[0], Ranked(accounts[1..]));
      assert accounts == [accounts[0]] + accounts[1..];
    }
  }

  lemma {:induction false} InsertKeepsOrder(a: Account, ranked: seq<Account>)
    requires InRankOrder(ranked)
    ensures InRankOrder(Insert(a, ranked)) && multiset(Insert(a, ranked)) == multiset(ranked) + multiset{a}
  {
    if ranked != [] && !RanksBefore(a, ranked[0]) {
      var head, rest := ranked[0], ranked[1..];
      assert ranked == [head] + rest;
      InsertKeepsOrder(a, rest);
      forall x | x in Insert(a, rest)
        ensures !RanksBefore(x, head)
      {
        assert x in multiset(Insert(a, rest));
        assert x == a || x in rest;
      }
    }
  }

  // ---- The plugin's method --------------------------------------------------

  method AddAccountJobs(jobs0: seq<Request>, account: int, settings: Settings,
                        progress: map<int, FullBackfill.Progress>)
      returns (jobs: seq<Request>)
    ensures jobs == jobs0 + AccountRequests(account, settings, progress)
  {
    jobs := jobs0;
    var offset := FullOffset(settings, progress, account);
    if offset.Some? {
      jobs := jobs + [ForAccount(account, FullBatch(offset.value), 0)];
      return;
    }
    jobs := jobs + [LiveRequest(account, settings)];
    if SyncsParticipants(settings) {
      jobs := jobs + [ForAccount(account, Participants, Max(settings.participantsSeconds, 300))];
    }
    assert jobs == jobs0 + [LiveRequest(account, settings)] + SyncRequests(account, settings);
    if !FullMode(settings) {
      var ranges := RangeBackfill.BuildBackfillRanges(settings.backfill);
      jobs := AddChunks(jobs, account, ranges);
    }
  }

  method AddChunks(jobs0: seq<Request>, account: int, ranges: seq<RangeBackfill.Range>) returns (jobs: seq<Request>)
    ensures jobs == jobs0 + ChunkRequests(account, ranges)
  {
    jobs := jobs0;
    for i := 0 to |ranges|
      invariant jobs == jobs0 + ChunkRequests(account, ranges)[..i]
    {
      jobs := jobs + [ForAccount(account, RangeChunk(ranges[i].from, ranges[i].to), 0)];
    }
  }

  /** What the plugin answers for a target with these active accounts actively linked. */
  function Answer(rows: seq<Account>, quiet: bool, idle: bool, now: int, settings: Settings,
                  progress: map<int, FullBackfill.Progress>): seq<Request>
  {
    if quiet then []
    else if rows == [] then (if idle then [StartOnboarding] else [])
    else AllRequests(Ranked(Available(rows, now)), settings, progress)
  }

  method Generate(target: Onboarding.OnboardingTarget, rows: seq<Account>, quietUntil: Option<int>, now: int,
                  settings: Settings, progress: map<int, FullBackfill.Progress>)
      returns (jobs: seq<Request>)
    modifies target
    ensures var quiet := quietUntil.Some? && quietUntil.value > now;
            && jobs == Answer(rows, quiet, old(target.step).Idle?, now, settings, progress)
            && target.step == (if jobs == [StartOnboarding] then Queued else old(target.step))
            && target.status == (if quiet then old(target.status)
                                 else if rows == [] then Onboarding.NeedsAccount
                                 else if Available(rows, now) == [] then Onboarding.Blocked
                                 else Onboarding.Ready)
            && target.identifier == old(target.identifier) && target.invite == old(target.invite)
  {
    jobs := [];
    if quietUntil.Some? && quietUntil.value > now {
      return;
    }
    if rows == [] {
      target.status := Onboarding.NeedsAccount;
      if target.step.Idle? {
        target.step := Queued;
        jobs := [StartOnboarding];
      }
      return;
    }
    var accounts := AvailableAccounts(rows, now);
    if accounts == [] {
      target.status := Onboarding.Blocked;
      return;
    }
    target.status := Onboarding.Ready;
    accounts := Ranked(accounts);
    jobs := JobsForAll(accounts, settings, progress);
    NoOnboardAmong(accounts, settings, progress);
  }

  method AvailableAccounts(rows: seq<Account>, now: int) returns (accounts: seq<Account>)
    ensures accounts == Available(rows, now)
  {
    accounts := [];
    for i := 0 to |rows|
      invariant accounts == Available(rows[..i], now)
    {
      assert rows[..i + 1][..i] == rows[..i];
      if IsAvailable(rows[i], now) {
        accounts := accounts + [rows[i]];
      }
    }
    assert rows[..|rows|] == rows;
  }

  method JobsForAll(accounts: seq<Account>, settings: Settings, progress: map<int, FullBackfill.Progress>)
      returns (jobs: seq<Request>)
    ensures jobs == AllRequests(accounts, settings, progress)
  {
    jobs := [];
    for i := 0 to |accounts|
      invariant jobs == AllRequests(accounts[..i], settings, progress)
    {
      assert accounts[..i + 1][..i] == accounts[..i];
      jobs := AddAccountJobs(jobs, accounts[i].id, settings, progress);
    }
    assert accounts[..|accounts|] == accounts;
  }

  // ---- No two requests of a batch are alike ---------------------------------

  /** Accounts are linked to a target at most once. */
  predicate DistinctAccounts(accounts: seq<Account>) {
    forall i, j :: 0 <= i < j < |accounts| ==> accounts[i].id != accounts[j].id
  }

  /** What tells one request from another: its account and kind, not its interval. */
  predicate Alike(a: Request, b: Request) {
    a.ForAccount? && b.ForAccount? && a.account == b.account && a.kind == b.kind
  }

  predicate NoneAlike(requests: seq<Request>) {
    && (forall i :: 0 <= i < |requests| ==> requests[i].ForAccount?)
    && (forall i, j :: 0 <= i < j < |requests| ==> !Alike(requests[i], requests[j]))
  }

  predicate AllFor(requests: seq<Request>, account: int) {
    forall i :: 0 <= i < |requests| ==> requests[i].ForAccount? && requests[i].account == account
  }

  lemma {:induction false} ChunksRise(ranges: seq<RangeBackfill.Range>, start: int, end: int, step: int, i: nat, j: nat)
    requires RangeBackfill.Tiles(ranges, start, end, step) && i < j < |ranges|
    ensures ranges[i].from < ranges[j].from
    decreases j - i
  {
    if i + 1 < j {
      ChunksRise(ranges, start, end, step, i + 1, j);
    }
  }

  lemma ChunksAreNotAlike(account: int, config: RangeBackfill.BackfillConfig)
    ensures NoneAlike(ChunkRequests(account, RangeBackfill.Chunks(config)))
  {
    var ranges := RangeBackfill.Chunks(config);
    if RangeBackfill.Splits(config) {
      RangeBackfill.ChunksTile(config.from.value, config.to.value, RangeBackfill.Step(config));
    }
    forall i, j | 0 <= i < j < |ranges|
      ensures ranges[i].from < ranges[j].from
    {
      ChunksRise(ranges, config.from.value, config.to.value, RangeBackfill.Step(config), i, j);
    }
  }

  lemma AccountRequestsAreNotAlike(account: int, settings: Settings, progress: map<int, FullBackfill.Progress>)
    ensures NoneAlike(AccountRequests(account, settings, progress))
    ensures AllFor(AccountRequests(account, settings, progress), account)
  {
    ChunksAreNotAlike(account, settings.backfill);
    var head := [LiveRequest(account, settings)] + SyncRequests(account, settings);
    var chunks := ChunkRequests(account, Ranges(settings));
    assert NoneAlike(head) && NoneAlike(chunks);
    Joined(head, chunks);
  }

  lemma Joined(a: seq<Request>, b: seq<Request>)
    requires NoneAlike(a) && NoneAlike(b)
    requires forall i, j :: 0 <= i < |a| && 0 <= j < |b| ==> !Alike(a[i], b[j])
    ensures NoneAlike(a + b)
  {}

  lemma {:induction false} AllRequestsAreNotAlike(accounts: seq<Account>, settings: Settings,
                                                  progress: map<int, FullBackfill.Progress>)
    requires DistinctAccounts(accounts)
    ensures NoneAlike(AllRequests(accounts, settings, progress))
    ensures forall i :: 0 <= i < |AllRequests(accounts, settings, progress)| ==>
              exists k :: 0 <= k < |accounts| && AllRequests(accounts, settings, progress)[i].account == accounts[k].id
  {
    if accounts != [] {
      var init, last := accounts[..|accounts| - 1], accounts[|accounts| - 1];
      AllRequestsAreNotAlike(init, settings, progress);
      AccountRequestsAreNotAlike(last.id, settings, progress);
      var before, own := AllRequests(init, settings, progress), AccountRequests(last.id, settings, progress);
      forall i | 0 <= i < |before|
        ensures exists k :: 0 <= k < |accounts| && before[i].account == accounts[k].id
        ensures before[i].account != last.id
      {
        var k :| 0 <= k < |init| && before[i].account == init[k].id;
        assert accounts[k] == init[k];
      }
      assert accounts[|accounts| - 1] == last;
      Joined(before, own);
    }
  }

  lemma {:induction false} NoOnboardAmong(accounts: seq<Account>, settings: Settings,
                                          progress: map<int, FullBackfill.Progress>)
    ensures StartOnboarding !in AllRequests(accounts, settings, progress)
  {
    if accounts != [] {
      NoOnboardAmong(accounts[..|accounts| - 1], settings, progress);
      AccountRequestsAreNotAlike(accounts[|accounts| - 1].id, settings, progress);
    }
  }

  lemma {:induction false} AvailableStaysDistinct(rows: seq<Account>, now: int)
    requires DistinctAccounts(rows)
    ensures DistinctAccounts(Available(rows, now))
    ensures forall a :: a in Available(rows, now) ==> a in rows && IsAvailable(a, now)
  {
    if rows != [] {
      AvailableStaysDistinct(rows[..|rows| - 1], now);
      var before := Available(rows[..|rows| - 1], now);
      assert forall i :: 0 <= i < |before| ==> before[i] in before;
    }
  }

  lemma {:induction false} RankedStaysDistinct(accounts: seq<Account>)
    requires DistinctAccounts(accounts)
    ensures DistinctAccounts(Ranked(accounts))
    ensures forall a :: a in Ranked(accounts) <==> a in accounts
  {
    if accounts != [] {
      RankedStaysDistinct(accounts[1..]);
      InsertStaysDistinct(accounts[0], Ranked(accounts[1..]));
    }
  }

  lemma {:induction false} InsertStaysDistinct(a: Account, ranked: seq<Account>)
    requires DistinctAccounts(ranked) && forall b :: b in ranked ==> b.id != a.id
    ensures DistinctAccounts(Insert(a, ranked))
    ensures forall b :: b in Insert(a, ranked) <==> b == a || b in ranked
  {
    if ranked != [] && !RanksBefore(a, ranked[0]) {
      var rest := Insert(a, ranked[1..]);
      InsertStaysDistinct(a, ranked[1..]);
      forall i | 0 <= i < |rest|
        ensures rest[i].id != ranked[0].id
      {
        assert rest[i] in rest;
      }
    }
  }

  // ---- Keys -----------------------------------------------------------------

  function Prefix(kind: Kind): string {
    match kind
    case FullBatch(_) => "backfill-full:"
    case GapFill => "gapfill:"
    case PollOnce => "poll:"
    case Participants => "participants:"
    case RangeChunk(_, _) => "backfill:"
  }

  function Tail(kind: Kind, iso: int -> string): string {
    match kind
    case FullBatch(offset) => ":" + PrintInt(offset)
    case RangeChunk(from, to) => ":" + (iso(from) + (":" + iso(to)))
    case _ => ""
  }

  function KeyOf(target: int, account: int, kind: Kind, iso: int -> string): string {
    Prefix(kind) + (PrintInt(target) + (":" + (PrintInt(account) + Tail(kind, iso))))
  }

  function ToSpec(target: int, r: Request, iso: int -> string): Spec {
    if r.StartOnboarding? then OnboardSpec(target)
    else Spec(target, Some(r.account), Some(KeyOf(target, r.account, r.kind, iso)), false, r.interval, "", 0, None)
  }

  function ToSpecs(target: int, requests: seq<Request>, iso: int -> string): (r: seq<Spec>)
    ensures |r| == |requests|
    ensures forall i :: 0 <= i < |r| ==> r[i] == ToSpec(target, requests[i], iso)
  {
    seq(|requests|, i requires 0 <= i < |requests| => ToSpec(target, requests[i], iso))
  }

  /** Instants are written so that no instant's text begins another's. */
  ghost predicate PrefixFree(iso: int -> string) {
    forall a, b :: iso(a) <= iso(b) ==> a == b
  }

  lemma CancelLeft(p: string, x: string, q: string, y: string)
    requires p == q && p + x == q + y
    ensures x == y
  {
    assert x == (p + x)[|p|..];
    assert y == (q + y)[|q|..];
  }

  /** The text up to the first colon. */
  function Word(s: string): string {
    if s == "" || s[0] == ':' then "" else [s[0]] + Word(s[1..])
  }

  lemma {:induction false} WordOf(s: string, rest: string)
    requires ':' !in s && (rest == "" || rest[0] == ':')
    ensures Word(s + rest) == s
  {
    if s == "" {
      assert s + rest == rest;
    } else {
      assert (s + rest)[1..] == s[1..] + rest;
      WordOf(s[1..], rest);
    }
  }

  lemma PrintedHasNoColon(n: int)
    ensures ':' !in PrintInt(n)
  {}

  /** A printed number is read back, and so is what follows it. */
  lemma NumberIsReadBack(a: int, x: string, b: int, y: string)
    requires x == "" || x[0] == ':'
    requires y == "" || y[0] == ':'
    requires PrintInt(a) + x == PrintInt(b) + y
    ensures a == b && x == y
  {
    PrintedHasNoColon(a);
    PrintedHasNoColon(b);
    WordOf(PrintInt(a), x);
    WordOf(PrintInt(b), y);
    PrintIntInjective(a, b);
    CancelLeft(PrintInt(a), x, PrintInt(b), y);
  }

  lemma PrefixTells(s: string, k: Kind, x: string)
    requires s == Prefix(k) + x
    ensures |s| > 1 && s[0] == Prefix(k)[0] && s[1] == Prefix(k)[1]
    ensures k.FullBatch? ==> |s| > 8 && s[8] == '-'
    ensures k.RangeChunk? ==> |s| > 8 && s[8] == ':'
  {}

  lemma KindIsReadBack(s: string, k: Kind, x: string, l: Kind, y: string)
    requires s == Prefix(k) + x && s == Prefix(l) + y
    ensures Prefix(k) == Prefix(l) && x == y
  {
    PrefixTells(s, k, x);
    PrefixTells(s, l, y);
    CancelLeft(Prefix(k), x, Prefix(l), y);
  }

  lemma IsoIsReadBack(iso: int -> string, a: int, x: string, b: int, y: string)
    requires PrefixFree(iso) && iso(a) + x == iso(b) + y
    ensures a == b && x == y
  {
    var s := iso(a) + x;
    assert iso(a) == s[..|iso(a)|] && iso(b) == s[..|iso(b)|];
    assert iso(a) <= iso(b) || iso(b) <= iso(a);
    CancelLeft(iso(a), x, iso(b), y);
  }

  lemma TailIsReadBack(iso: int -> string, k: Kind, l: Kind)
    requires PrefixFree(iso) && Prefix(k) == Prefix(l) && Tail(k, iso) == Tail(l, iso)
    ensures k == l
  {
    PrefixTells(Prefix(k), k, "");
    PrefixTells(Prefix(l), l, "");
    match k
    case FullBatch(a) =>
      CancelLeft(":", PrintInt(a), ":", PrintInt(l.offset));
      PrintIntInjective(a, l.offset);
    case RangeChunk(from, to) =>
      CancelLeft(":", iso(from) + (":" + iso(to)), ":", iso(l.from) + (":" + iso(l.to)));
      IsoIsReadBack(iso, from, ":" + iso(to), l.from, ":" + iso(l.to));
      CancelLeft(":", iso(to), ":", iso(l.to));
      assert iso(to) <= iso(l.to);
    case _ =>
  }

  /** A key tells its account and its kind with all its parameters. */
  lemma KeyIsReadBack(target: int, iso: int -> string, a: int, k: Kind, b: int, l: Kind)
    requires PrefixFree(iso) && KeyOf(target, a, k, iso) == KeyOf(target, b, l, iso)
    ensures a == b && k == l
  {
    var x, y := ":" + (PrintInt(a) + Tail(k, iso)), ":" + (PrintInt(b) + Tail(l, iso));
    KindIsReadBack(KeyOf(target, a, k, iso), k, PrintInt(target) + x, l, PrintInt(target) + y);
    CancelLeft(PrintInt(target), x, PrintInt(target), y);
    CancelLeft(":", PrintInt(a) + Tail(k, iso), ":", PrintInt(b) + Tail(l, iso));
    NumberIsReadBack(a, Tail(k, iso), b, Tail(l, iso));
    TailIsReadBack(iso, k, l);
  }

  lemma SpecOfRequestFits(target: int, r: Request, iso: int -> string)
    ensures SpecFits(target, ToSpec(target, r, iso)) && ToSpec(target, r, iso).Keyed()
  {
    if r.ForAccount? {
      var rest := PrintInt(target) + (":" + (PrintInt(r.account) + Tail(r.kind, iso)));
      PrefixTells(KeyOf(target, r.account, r.kind, iso), r.kind, rest);
    }
  }

  /** What the scheduler needs of a target's answer: every key differs from every other,
      only the onboarding job's looks like an onboarding key, and all are for this target. */
  lemma AnswerIsSchedulable(target: int, rows: seq<Account>, quiet: bool, idle: bool, now: int, settings: Settings,
                            progress: map<int, FullBackfill.Progress>, iso: int -> string, cfg: Config, s: State,
                            flush: int)
    requires PrefixFree(iso) && DistinctAccounts(rows) && s.clock <= now <= flush
    ensures var specs := ToSpecs(target, Answer(rows, quiet, idle, now, settings, progress), iso);
            Enabled(cfg, s, Schedule(target, TELEGRAM, specs, now, flush))
  {
    var requests := Answer(rows, quiet, idle, now, settings, progress);
    var specs := ToSpecs(target, requests, iso);
    AvailableStaysDistinct(rows, now);
    RankedStaysDistinct(Available(rows, now));
    AllRequestsAreNotAlike(Ranked(Available(rows, now)), settings, progress);
    forall i | 0 <= i < |specs|
      ensures SpecFits(target, specs[i]) && specs[i].Keyed()
    {
      SpecOfRequestFits(target, requests[i], iso);
    }
    forall i, j | 0 <= i < j < |specs|
      ensures specs[i].key != specs[j].key
    {
      NotAlikeNotSameKey(target, requests[i], requests[j], iso);
    }
  }

  lemma NotAlikeNotSameKey(target: int, q: Request, r: Request, iso: int -> string)
    requires PrefixFree(iso) && q.ForAccount? && r.ForAccount? && !Alike(q, r)
    ensures ToSpec(target, q, iso).key != ToSpec(target, r, iso).key
  {
    if KeyOf(target, q.account, q.kind, iso) == KeyOf(target, r.account, r.kind, iso) {
      KeyIsReadBack(target, iso, q.account, q.kind, r.account, r.kind);
    }
  }

  // ---- Exactly what is asked for --------------------------------------------

  /** The account may collect: not known dead, not cooling down, and below its limit in an
      hour that has not passed. */
  predicate MayCollect(a: Account, now: int) {
    && a.alive != Some(false)
    && (a.cooldownUntil.Some? ==> a.cooldownUntil.value <= now)
    && (a.hourStart.Some? && now - a.hourStart.value < 3600 ==>
          a.hourCount < a.hourlyLimit || (a.hourCount < 1 && a.hourlyLimit < 1))
  }

  /** A full backfill of the account is under way. */
  predicate InFullBackfill(account: int, settings: Settings, progress: map<int, FullBackfill.Progress>) {
    && settings.backfill.enabled && RangeBackfill.Mode(settings.backfill.mode) == "full"
    && !(account in progress && progress[account].done)
  }

  /** What one account is to do. */
  predicate Wanted(account: int, kind: Kind, interval: int, settings: Settings,
                   progress: map<int, FullBackfill.Progress>)
  {
    match kind
    case FullBatch(offset) =>
      && InFullBackfill(account, settings, progress) && interval == 0
      && offset == (if account in progress && progress[account].next.Some? then progress[account].next.value else 0)
    case GapFill =>
      !InFullBackfill(account, settings, progress) && settings.liveEnabled && interval == Max(settings.pollSeconds, 30)
    case PollOnce =>
      !InFullBackfill(account, settings, progress) && !settings.liveEnabled && interval == Max(settings.pollSeconds, 30)
    case Participants =>
      && !InFullBackfill(account, settings, progress)
      && settings.participantsEnabled && !settings.participantsUnavailable
      && interval == Max(settings.participantsSeconds, 300)
    case RangeChunk(from, to) =>
      && !(settings.backfill.enabled && RangeBackfill.Mode(settings.backfill.mode) == "full") && interval == 0
      && RangeBackfill.Range(from, to) in RangeBackfill.Chunks(settings.backfill)
  }

  lemma AccountWants(account: int, settings: Settings, progress: map<int, FullBackfill.Progress>, r: Request)
    ensures r in AccountRequests(account, settings, progress) <==>
              r.ForAccount? && r.account == account && Wanted(account, r.kind, r.interval, settings, progress)
  {
    var ranges := Ranges(settings);
    ChunkIsRequested(account, ranges, r);
    var sync, chunks := SyncRequests(account, settings), ChunkRequests(account, ranges);
    assert r in [LiveRequest(account, settings)] + sync + chunks <==>
        r == LiveRequest(account, settings) || r in sync || r in chunks;
  }

  lemma ChunkIsRequested(account: int, ranges: seq<RangeBackfill.Range>, r: Request)
    ensures r in ChunkRequests(account, ranges) <==>
              r.ForAccount? && r.account == account && r.kind.RangeChunk? && r.interval == 0
              && RangeBackfill.Range(r.kind.from, r.kind.to) in ranges
  {
    var chunks := ChunkRequests(account, ranges);
    if r in chunks {
      var i :| 0 <= i < |chunks| && chunks[i] == r;
      assert ranges[i] == RangeBackfill.Range(r.kind.from, r.kind.to);
    }
    if r.ForAccount? && r.kind.RangeChunk? && RangeBackfill.Range(r.kind.from, r.kind.to) in ranges {
      var i :| 0 <= i < |ranges| && ranges[i] == RangeBackfill.Range(r.kind.from, r.kind.to);
      assert chunks[i] == ForAccount(account, r.kind, 0);
    }
  }

  lemma {:induction false} SomeAccountWants(accounts: seq<Account>, settings: Settings,
                                            progress: map<int, FullBackfill.Progress>, r: Request)
    ensures r in AllRequests(accounts, settings, progress) <==>
              r.ForAccount? && Wanted(r.account, r.kind, r.interval, settings, progress)
              && exists a :: a in accounts && a.id == r.account
  {
    if accounts != [] {
      var init, last := accounts[..|accounts| - 1], accounts[|accounts| - 1];
      SomeAccountWants(init, settings, progress, r);
      AccountWants(last.id, settings, progress, r);
      assert accounts == init + [last];
    }
  }

  lemma {:induction false} AvailableIff(accounts: seq<Account>, now: int, a: Account)
    ensures a in Available(accounts, now) <==> a in accounts && MayCollect(a, now)
  {
    if accounts != [] {
      var init, last := accounts[..|accounts| - 1], accounts[|accounts| - 1];
      AvailableIff(init, now, a);
      assert accounts == init + [last];
    }
  }

  /** What a target with linked accounts asks for: for each of them that may collect exactly
      what it is to do, and nothing else. */
  lemma RequestedIff(rows: seq<Account>, idle: bool, now: int, settings: Settings,
                     progress: map<int, FullBackfill.Progress>, r: Request)
    requires rows != []
    ensures r in Answer(rows, false, idle, now, settings, progress) <==>
              r.ForAccount? && Wanted(r.account, r.kind, r.interval, settings, progress)
              && exists a :: a in rows && a.id == r.account && MayCollect(a, now)
  {
    var accounts := Available(rows, now);
    SomeAccountWants(Ranked(accounts), settings, progress, r);
    RankedIsSorted(accounts);
    forall a
      ensures a in Ranked(accounts) <==> a in rows && MayCollect(a, now)
    {
      assert a in Ranked(accounts) <==> a in multiset(Ranked(accounts));
      AvailableIff(rows, now, a);
    }
  }

  /** Where the requests run: both kinds of backfill and the onboarding on the backfill
      queue, the rest on the live queue; a date range's key is one that runs once ever. */
  lemma RequestQueues(cfg: JobModel.Settings, target: int, r: Request, iso: int -> string, now: int, flush: int)
    ensures var row := NewRow(cfg, TELEGRAM, ToSpec(target, r, iso), now, flush);
            && row.key.Some?
            && (r.StartOnboarding? ==> "onboard:" <= row.key.value && row.maxAttempts == 20)
            && (r.ForAccount? && r.kind.RangeChunk? <==> "backfill:" <= row.key.value)
            && row.queue == (if r.StartOnboarding? || r.kind.FullBatch? || r.kind.RangeChunk?
                             then "telegram_backfill" else "telegram_live")
            && row.target == target && row.account == (if r.ForAccount? then Some(r.account) else None)
            && (r.ForAccount? ==>
                  && row.minInterval == r.interval && !row.onboard
                  && row.maxAttempts == (if row.queue == "telegram_backfill" then Max(cfg.backfillAttempts, 1)
                                         else Max(cfg.liveAttempts, 1)))
  {
    var spec := ToSpec(target, r, iso);
    RowOfSpec(cfg, TELEGRAM, spec, now, flush, now);
    if r.ForAccount? {
      var rest := PrintInt(target) + (":" + (PrintInt(r.account) + Tail(r.kind, iso)));
      var key := spec.key.value;
      assert key == Prefix(r.kind) + rest;
      PrefixTells(key, r.kind, rest);
      KeyOfNoBackfill(key, r.kind, rest);
    } else {
      assert spec.key.value[0] == 'o' && "backfill:"[0] == 'b';
    }
  }

  lemma KeyOfNoBackfill(key: string, kind: Kind, rest: string)
    requires key == Prefix(kind) + rest
    ensures kind.RangeChunk? <==> "backfill:" <= key
    ensures kind.FullBatch? <==> "backfill-full:" <= key
  {
    PrefixTells(key, kind, rest);
    assert "backfill:" <= key ==> |key| >= 9 && key[0] == 'b' && key[8] == ':';
    assert "backfill-full:" <= key ==> |key| >= 14 && key[0] == 'b' && key[8] == '-';
    assert kind.RangeChunk? ==> key[..9] == "backfill:";
    assert kind.FullBatch? ==> key[..14] == "backfill-full:";
  }

  /** The keys in full: the kind's name, target, account, and what the kind adds. */
  lemma KeyText(target: int, account: int, kind: Kind, iso: int -> string)
    ensures var name := match kind
                        case FullBatch(_) => "backfill-full:"
                        case GapFill => "gapfill:"
                        case PollOnce => "poll:"
                        case Participants => "participants:"
                        case RangeChunk(_, _) => "backfill:";
            var more := match kind
                        case FullBatch(offset) => ":" + PrintInt(offset)
                        case RangeChunk(from, to) => ":" + iso(from) + ":" + iso(to)
                        case _ => "";
            KeyOf(target, account, kind, iso) == name + PrintInt(target) + ":" + PrintInt(account) + more
  {
    FiveInOrder(Prefix(kind), PrintInt(target), ":", PrintInt(account), Tail(kind, iso));
    if kind.RangeChunk? {
      FiveInOrder("", ":", iso(kind.from), ":", iso(kind.to));
    }
  }

  lemma FiveInOrder(a: string, b: string, c: string, d: string, e: string)
    ensures a + (b + (c + (d + e))) == a + b + c + d + e
    ensures b + (c + (d + e)) == b + c + d + e
  {}
}
