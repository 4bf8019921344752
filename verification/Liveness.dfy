/** The liveness checker: consecutive failed probes, and the failover they cause. */
module Liveness {
  import opened Common
  import opened Links

  /** alive: None until the first verdict; failures: consecutive failed probes. */
  datatype Health = Health(alive: Option<bool>, failures: int)

  datatype Probed = Probed(health: Health, failover: bool)

  /** One probe of one account. */
  function Probe(h: Health, ok: bool, threshold: int): Probed {
    var wasDead := h.alive == Some(false) && h.failures >= threshold;
    if ok then Probed(Health(Some(true), 0), false)
    else
      var failures := h.failures + 1;
      Probed(Health(if failures >= threshold then Some(false) else h.alive, failures),
             failures >= threshold && !wasDead)
  }

  /** A round's results: the new health and links, the accounts that fell, in probing
      order, and how many answered. */
  datatype Round = Round(health: map<int, Health>, links: seq<Link>, fallen: seq<int>, alive: nat)

  function ProbeNext(r: Round, a: int, ok: bool, threshold: int): Round
    requires a in r.health
  {
    var probed := Probe(r.health[a], ok, threshold);
    Round(r.health[a := probed.health],
          if probed.failover then DetachAll(r.links, false, a) else r.links,
          if probed.failover then r.fallen + [a] else r.fallen,
          if ok then r.alive + 1 else r.alive)
  }

  function ProbeAll(health: map<int, Health>, links: seq<Link>, accounts: seq<int>, answers: map<int, bool>,
                    threshold: int): (r: Round)
    requires forall i :: 0 <= i < |accounts| ==> accounts[i] in health && accounts[i] in answers
    ensures r.health.Keys == health.Keys
  {
    if accounts == [] then Round(health, links, [], 0)
    else
      var a := accounts[|accounts| - 1];
      ProbeNext(ProbeAll(health, links, accounts[..|accounts| - 1], answers, threshold), a, answers[a], threshold)
  }

  class Checker {
    var health: map<int, Health>
    const table: LinkTable

    constructor (table: LinkTable)
      ensures this.table == table && health == map[]
    {
      this.table := table;
      health := map[];
    }

    /** Writes one probe's verdict; an account that just fell loses its links. */
    method Judge(a: int, ok: bool, threshold: int) returns (fell: bool)
      requires a in health
      modifies this, table
      ensures health == old(health)[a := Probe(old(health)[a], ok, threshold).health]
      ensures fell == Probe(old(health)[a], ok, threshold).failover
      ensures table.links == if fell then DetachAll(old(table.links), false, a) else old(table.links)
    {
      var h := health[a];
      var wasDead := h.alive == Some(false) && h.failures >= threshold;
      if ok {
        health := health[a := Health(Some(true), 0)];
        return false;
      }
      var failures := h.failures + 1;
      health := health[a := Health(if failures >= threshold then Some(false) else h.alive, failures)];
      fell := failures >= threshold && !wasDead;
      if fell {
        var moved := table.DetachAccount(a);
      }
    }

    /** One round over the active accounts; answers are what the probes said. */
    method CheckAccounts(accounts: seq<int>, answers: map<int, bool>, threshold: int)
        returns (checked: nat, alive: nat, dead: nat)
      requires forall i :: 0 <= i < |accounts| ==> accounts[i] in health && accounts[i] in answers
      modifies this, table
      ensures var r := ProbeAll(old(health), old(table.links), accounts, answers, threshold);
              health == r.health && table.links == r.links && alive == r.alive && dead == |r.fallen|
      ensures checked == |accounts|
    {
      checked, alive, dead := 0, 0, 0;
      ghost var h0, l0 := health, table.links;
      assert accounts[..0] == [];
      for i := 0 to |accounts|
        invariant var r := ProbeAll(h0, l0, accounts[..i], answers, threshold);
                  health == r.health && table.links == r.links && alive == r.alive && dead == |r.fallen|
        invariant checked == i
      {
        var a := accounts[i];
        assert accounts[..i + 1][..i] == accounts[..i];
        checked := checked + 1;
        var fell := Judge(a, answers[a], threshold);
        if answers[a] { alive := alive + 1; }
        if fell { dead := dead + 1; }
      }
      assert accounts[..|accounts|] == accounts;
    }
  }

  /** A round judges each account by its own probe alone, takes every active link from
      the accounts that fell and no link from the others. */
  lemma {:induction false} RoundIsPerAccount(health: map<int, Health>, links: seq<Link>, accounts: seq<int>,
                                             answers: map<int, bool>, threshold: int, a: int, target: int)
    requires forall i :: 0 <= i < |accounts| ==> accounts[i] in health && accounts[i] in answers
    requires forall i, j :: 0 <= i < j < |accounts| ==> accounts[i] != accounts[j]
    requires a in health && Sound(links)
    ensures var r := ProbeAll(health, links, accounts, answers, threshold);
            && Sound(r.links)
            && r.health[a] == (if a in accounts then Probe(health[a], answers[a], threshold).health else health[a])
            && (a in r.fallen <==> a in accounts && Probe(health[a], answers[a], threshold).failover)
            && (Serves(r.links, target, a) <==> Serves(links, target, a) && a !in r.fallen)
  {
    if accounts != [] {
      var init, last := accounts[..|accounts| - 1], accounts[|accounts| - 1];
      RoundIsPerAccount(health, links, init, answers, threshold, a, target);
      RoundIsPerAccount(health, links, init, answers, threshold, last, target);
      assert accounts == init + [last];
      DetachingClears(ProbeAll(health, links, init, answers, threshold).links, false, last);
    }
  }

  function Answering(accounts: seq<int>, answers: map<int, bool>): set<int> {
    set a | a in accounts && a in answers && answers[a]
  }

  function Falling(health: map<int, Health>, accounts: seq<int>, answers: map<int, bool>, threshold: int): set<int> {
    set a | a in accounts && a in health && a in answers && Falls(health[a], answers[a], threshold)
  }

  /** A round counts every account that answered and every one that fell: its probe failed,
      this made its failures reach the threshold, and it was not fallen before. */
  lemma {:induction false} CountsAreExact(health: map<int, Health>, links: seq<Link>, accounts: seq<int>,
                                          answers: map<int, bool>, threshold: int)
    requires forall i :: 0 <= i < |accounts| ==> accounts[i] in health && accounts[i] in answers
    requires forall i, j :: 0 <= i < j < |accounts| ==> accounts[i] != accounts[j]
    ensures var r := ProbeAll(health, links, accounts, answers, threshold);
            && r.alive == |Answering(accounts, answers)|
            && |r.fallen| == |Falling(health, accounts, answers, threshold)|
  {
    if accounts == [] {
      assert Answering(accounts, answers) == {} && Falling(health, accounts, answers, threshold) == {};
    } else {
      var init, last := accounts[..|accounts| - 1], accounts[|accounts| - 1];
      assert accounts == init + [last] && last !in init;
      CountsAreExact(health, links, init, answers, threshold);
      NotYetProbed(health, links, init, answers, threshold, last);
      OneMoreAnswers(init, last, answers);
      OneMoreFalls(health, init, last, answers, threshold);
    }
  }

  lemma OneMoreAnswers(init: seq<int>, last: int, answers: map<int, bool>)
    requires last !in init && last in answers
    ensures |Answering(init + [last], answers)| == |Answering(init, answers)| + (if answers[last] then 1 else 0)
  {
    if answers[last] {
      assert Answering(init + [last], answers) == Answering(init, answers) + {last};
    } else {
      assert Answering(init + [last], answers) == Answering(init, answers);
    }
  }

  lemma OneMoreFalls(health: map<int, Health>, init: seq<int>, last: int, answers: map<int, bool>, threshold: int)
    requires last !in init && last in health && last in answers
    ensures |Falling(health, init + [last], answers, threshold)|
            == |Falling(health, init, answers, threshold)|
               + (if Falls(health[last], answers[last], threshold) then 1 else 0)
  {
    var before, after := Falling(health, init, answers, threshold), Falling(health, init + [last], answers, threshold);
    if Falls(health[last], answers[last], threshold) {
      assert after == before + {last};
    } else {
      assert after == before;
    }
  }

  predicate Falls(h: Health, ok: bool, threshold: int) {
    !ok && h.failures + 1 >= threshold && !(h.alive == Some(false) && h.failures >= threshold)
  }

  lemma {:induction false} NotYetProbed(health: map<int, Health>, links: seq<Link>, accounts: seq<int>,
                                        answers: map<int, bool>, threshold: int, a: int)
    requires forall i :: 0 <= i < |accounts| ==> accounts[i] in health && accounts[i] in answers
    requires a in health && a !in accounts
    ensures ProbeAll(health, links, accounts, answers, threshold).health[a] == health[a]
  {
    if accounts != [] {
      assert accounts == accounts[..|accounts| - 1] + [accounts[|accounts| - 1]];
      NotYetProbed(health, links, accounts[..|accounts| - 1], answers, threshold, a);
    }
  }

  // ---- A whole series of probes of one account ------------------------------

  function AfterProbes(answers: seq<bool>, threshold: int): Health {
    if answers == [] then Health(None, 0)
    else Probe(AfterProbes(answers[..|answers| - 1], threshold), answers[|answers| - 1], threshold).health
  }

  function Failovers(answers: seq<bool>, threshold: int): nat {
    if answers == [] then 0
    else
      Failovers(answers[..|answers| - 1], threshold) +
      (if Probe(AfterProbes(answers[..|answers| - 1], threshold), answers[|answers| - 1], threshold).failover then 1
       else 0)
  }

  /** A maximal failing run of at least `length` probes starts here: nothing before it
      belongs to it, and `length` failures follow. */
  predicate StartsLongRun(answers: seq<bool>, from: nat, length: nat) {
    && from + length <= |answers|
    && (from == 0 || answers[from - 1])
    && forall i :: from <= i < from + length ==> !answers[i]
  }

  function LongRuns(answers: seq<bool>, length: nat): set<nat> {
    set from: nat | from < |answers| && StartsLongRun(answers, from, length)
  }

  /** Failures at the end of the series. */
  function Streak(answers: seq<bool>): nat {
    if answers == [] || answers[|answers| - 1] then 0 else Streak(answers[..|answers| - 1]) + 1
  }

  lemma {:induction false} StreakIsTheLastRun(answers: seq<bool>)
    ensures Streak(answers) <= |answers|
    ensures forall i :: |answers| - Streak(answers) <= i < |answers| ==> !answers[i]
    ensures Streak(answers) < |answers| ==> answers[|answers| - Streak(answers) - 1]
  {
    if answers != [] && !answers[|answers| - 1] {
      StreakIsTheLastRun(answers[..|answers| - 1]);
    }
  }

  /** One more probe adds a long run exactly when it brings the streak to the length. */
  lemma LongRunsGrow(answers: seq<bool>, ok: bool, length: nat)
    requires length >= 1
    ensures |LongRuns(answers + [ok], length)|
            == |LongRuns(answers, length)| + (if !ok && Streak(answers) + 1 == length then 1 else 0)
  {
    var longer, n := answers + [ok], |answers|;
    StreakIsTheLastRun(answers);
    var begin := n - Streak(answers);
    var reached := !ok && Streak(answers) + 1 == length;
    assert begin > 0 ==> longer[begin - 1];
    forall from: nat | from <= n
      ensures StartsLongRun(longer, from, length)
              <==> StartsLongRun(answers, from, length) || (reached && from == begin)
    {
      assert forall i :: 0 <= i < n ==> longer[i] == answers[i];
      assert from > begin ==> !longer[from - 1];
      if from + length <= n {
        assert StartsLongRun(longer, from, length) <==> StartsLongRun(answers, from, length);
        assert reached && from == begin ==> from + length > n;
      } else if StartsLongRun(longer, from, length) {
        assert !longer[n];
      }
    }
    assert LongRuns(longer, length) == LongRuns(answers, length) + if reached then {begin} else {};
  }

  /** For every threshold and every series of probes of a fresh account: as many
      failovers as maximal failing runs of at least max(threshold, 1) probes, and
      alive is False exactly while the current run has reached that length, and otherwise
      True once a probe was answered. */
  lemma {:induction false} FailoversCountLongRuns(answers: seq<bool>, threshold: int)
    ensures var h := AfterProbes(answers, threshold);
            && h.failures == Streak(answers)
            && (h.alive == Some(false) <==> Streak(answers) >= Max(threshold, 1))
            && (h.alive == Some(true) <==> Streak(answers) < Max(threshold, 1) && true in answers)
    ensures Failovers(answers, threshold) == |LongRuns(answers, Max(threshold, 1))|
  {
    if answers != [] {
      var init, ok := answers[..|answers| - 1], answers[|answers| - 1];
      FailoversCountLongRuns(init, threshold);
      LongRunsGrow(init, ok, Max(threshold, 1));
      assert answers == init + [ok];
    }
  }
}
