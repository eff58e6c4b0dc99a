/**
 * Any number of `_attest_org` calls over one provider, interleaved at their awaits
 * (attestation/scheduler.py, attestation/builder.py).
 */
module Scheduler {
  import opened Options
  import opened Sequences
  import opened Bytes
  import opened Records
  import opened Ledgers
  import L = LocalProvider

  /** Five minutes, in microseconds. */
  const MIN_PERIOD: int := 300_000_000

  /** What the database queries of `build_attestation` contribute. */
  datatype Commitment = Commitment(metricsHash: string, benchmarkHash: string, merkleRoot: string, timestamp: int)

  /** A call between two awaits: it has read the tip, or it has built its record. */
  datatype Task =
    | Fetched(org: string, now: int, tip: Option<Record>)
    | Ready(record: Record)

  datatype Outcome =
    | Accepted(task: nat, record: Record)
    | Rejected(task: nat, record: Record)

  datatype System = System(ledger: Ledger, tasks: map<nat, Task>, log: seq<Outcome>)

  datatype Event =
    | Start(task: nat, orgId: string, now: int)
    | Build(task: nat, earliest: Option<int>, commitment: Commitment)
    | Send(task: nat)
    | Fail(task: nat)   // the call raises before it submits, while it reads or builds

  const START: System := System(EMPTY, map[], [])

  function Latest(s: Ledger, org: string): Option<Record> {
    var n := LatestNonce(s, org);
    if n in Stored(s, org) then Some(Stored(s, org)[n]) else None
  }

  /** The next record after `tip`, or nothing when there is no event yet or the period is too short. */
  function NextRecord(link: LinkFn, org: string, now: int, tip: Option<Record>, earliest: Option<int>, c: Commitment)
    : Option<Record>
    requires tip.Some? ==> link(tip.value).Some?
  {
    var periodStart := if tip.Some? then Some(tip.value.periodEnd) else earliest;
    if periodStart.None? || now - periodStart.value < MIN_PERIOD then None
    else
      var prevHash := if tip.Some? then link(tip.value).value else ZeroHash();
      var nonce := if tip.Some? then tip.value.nonce + 1 else 1;
      Some(Record(org, periodStart.value, now, c.metricsHash, c.benchmarkHash, c.merkleRoot, prevHash, nonce,
                  c.timestamp))
  }

  /** One step of one call; an event that does not fit the state changes nothing. */
  function Step(link: LinkFn, hashOrgId: string -> Digest, s: System, e: Event): System {
    match e
    case Start(t, orgId, now) =>
      var org := hashOrgId(orgId);
      var tip := Latest(s.ledger, org);
      if t in s.tasks || (tip.Some? && link(tip.value).None?) then s
      else s.(tasks := s.tasks[t := Fetched(org, now, tip)])
    case Build(t, earliest, c) =>
      if t !in s.tasks || !s.tasks[t].Fetched? then s
      else
        var Fetched(org, now, tip) := s.tasks[t];
        if tip.Some? && link(tip.value).None? then s
        else
          var record := NextRecord(link, org, now, tip, earliest, c);
          s.(tasks := if record.None? then s.tasks - {t} else s.tasks[t := Ready(record.value)])
    case Send(t) =>
      if t !in s.tasks || !s.tasks[t].Ready? then s
      else
        var r := s.tasks[t].record;
        var (ledger', receipt) := Submit(link, s.ledger, r);
        System(ledger', s.tasks - {t}, s.log + [if receipt.Ok? then Accepted(t, r) else Rejected(t, r)])
    case Fail(t) => s.(tasks := s.tasks - {t})
  }

  function Run(link: LinkFn, hashOrgId: string -> Digest, s: System, es: seq<Event>): System
    decreases |es|
  {
    if es == [] then s else Run(link, hashOrgId, Step(link, hashOrgId, s, es[0]), es[1..])
  }

  // ---------- what every interleaving keeps ----------

  /** Periods are long enough and each begins where the one before ended. */
  predicate Tiled(c: seq<Record>) {
    forall i :: 0 <= i < |c| ==> TiledAt(c, i)
  }

  predicate TiledAt(c: seq<Record>, i: nat)
    requires i < |c|
  {
    && c[i].periodEnd - c[i].periodStart >= 5 * 60 * 1_000_000
    && (i > 0 ==> c[i].periodStart == c[i - 1].periodEnd)
  }

  /** Once built, a record fits behind the place of the chain its call read, which nobody can change any more. */
  predicate Fits(link: LinkFn, c: seq<Record>, r: Record) {
    && 1 <= r.nonce <= |c| + 1
    && r.periodEnd - r.periodStart >= MIN_PERIOD
    && if r.nonce == 1 then IsFirstLink(r.prevHash)
       else link(c[r.nonce - 2]) == Some(r.prevHash) && r.periodStart == c[r.nonce - 2].periodEnd
  }

  predicate OnChain(c: seq<Record>, tip: Record) {
    1 <= tip.nonce <= |c| && c[tip.nonce - 1] == tip
  }

  ghost predicate TaskOk(link: LinkFn, s: Ledger, t: Task) {
    match t
    case Fetched(org, _, tip) =>
      && org != "" && Contiguous(s, org)
      && (tip.Some? ==> link(tip.value).Some? && OnChain(Chain(s, org), tip.value))
    case Ready(r) =>
      r.orgIdHash != "" && Contiguous(s, r.orgIdHash) && Fits(link, Chain(s, r.orgIdHash), r)
  }

  function AcceptedOf(log: seq<Outcome>, org: string): seq<Record> {
    if log == [] then []
    else
      var last := log[|log| - 1];
      AcceptedOf(log[..|log| - 1], org) + if last.Accepted? && last.record.orgIdHash == org then [last.record] else []
  }

  ghost predicate OrgOk(s: System, org: string) {
    && Contiguous(s.ledger, org)
    && Tiled(Chain(s.ledger, org))
    && AcceptedOf(s.log, org) == Chain(s.ledger, org)
  }

  /** A rejection has a winner: an earlier acceptance of the same nonce for the same org. */
  ghost predicate RejectionHasWinner(log: seq<Outcome>, i: nat)
    requires i < |log|
  {
    log[i].Rejected? ==>
      exists j :: 0 <= j < i && log[j].Accepted?
                  && log[j].record.orgIdHash == log[i].record.orgIdHash && log[j].record.nonce == log[i].record.nonce
  }

  ghost predicate WonOnce(log: seq<Outcome>) {
    forall i, j :: 0 <= i < j < |log| && log[i].Accepted? && log[j].Accepted?
                   && log[i].record.orgIdHash == log[j].record.orgIdHash
                   ==> log[i].record.nonce < log[j].record.nonce
  }

  ghost predicate LogOk(s: System) {
    && WonOnce(s.log)
    && (forall i {:trigger RejectionHasWinner(s.log, i)} :: 0 <= i < |s.log| ==> RejectionHasWinner(s.log, i))
    && (forall i :: 0 <= i < |s.log| && s.log[i].Accepted? ==>
          s.log[i].record.nonce <= LatestNonce(s.ledger, s.log[i].record.orgIdHash))
  }

  ghost predicate Inv(link: LinkFn, s: System) {
    && Valid(link, s.ledger)
    && (forall org :: OrgOk(s, org))
    && (forall t :: t in s.tasks ==> TaskOk(link, s.ledger, s.tasks[t]))
    && LogOk(s)
  }

  lemma LatestIsTip(link: LinkFn, s: Ledger, org: string)
    requires Valid(link, s)
    ensures Contiguous(s, org)
    ensures var c := Chain(s, org);
            Latest(s, org) == (if c == [] then None else Some(c[|c| - 1])) && (c != [] ==> c[|c| - 1].nonce == |c|)
  {
    assert Contiguous(s, org);
    var c := Chain(s, org);
    assert ValidChain(link, org, c);
    assert c != [] ==> LinkedAt(link, c, |c| - 1);
  }

  /** Whatever was submitted in between, a built record is accepted exactly when its nonce is still free. */
  lemma AcceptedUnlessOvertaken(link: LinkFn, s: Ledger, r: Record)
    requires TaskOk(link, s, Ready(r))
    ensures Submit(link, s, r).1.Ok? <==> r.nonce == LatestNonce(s, r.orgIdHash) + 1
  {
    AcceptedWhenExtending(link, s, r);
  }

  lemma TaskStaysOk(link: LinkFn, s: Ledger, s': Ledger, t: Task, org: string, rs: seq<Record>)
    requires TaskOk(link, s, t) && org == (if t.Fetched? then t.org else t.record.orgIdHash)
    requires AppendsTo(s, s', org, rs)
    ensures TaskOk(link, s', t)
  {
  }

  lemma {:induction false} AcceptedInLog(log: seq<Outcome>, org: string, k: nat) returns (j: nat)
    requires k < |AcceptedOf(log, org)|
    ensures j < |log| && log[j].Accepted? && log[j].record == AcceptedOf(log, org)[k]
    ensures log[j].record.orgIdHash == org
  {
    var front := log[..|log| - 1];
    if k < |AcceptedOf(front, org)| {
      j := AcceptedInLog(front, org, k);
    } else {
      j := |log| - 1;
    }
  }

  lemma SendKeepsOrg(link: LinkFn, s: System, ledger': Ledger, receipt: Receipt, r: Record, o: Outcome, org: string)
    requires OrgOk(s, org) && AppendsTo(s.ledger, ledger', org, AddedBy(receipt, r, org))
    requires TaskOk(link, s.ledger, Ready(r)) && o.record == r && (o.Accepted? <==> receipt.Ok?)
    requires receipt.Ok? ==> r.nonce == LatestNonce(s.ledger, r.orgIdHash) + 1
    ensures OrgOk(System(ledger', s.tasks, s.log + [o]), org)
  {
    assert (s.log + [o])[..|s.log|] == s.log;
    var c, c' := Chain(s.ledger, org), Chain(ledger', org);
    if receipt.Ok? && org == r.orgIdHash {
      assert c' == c + [r];
      forall i | 0 <= i < |c'| ensures TiledAt(c', i) {
        assert i < |c| ==> TiledAt(c, i);
      }
    } else {
      assert c' == c;
    }
  }

  /** One more outcome leaves the winners of the earlier ones in place. */
  lemma EarlierWinnersStay(log: seq<Outcome>, o: Outcome, i: nat)
    requires i < |log| && RejectionHasWinner(log, i)
    ensures RejectionHasWinner(log + [o], i)
  {
    if log[i].Rejected? {
      var j :| 0 <= j < i && log[j].Accepted?
               && log[j].record.orgIdHash == log[i].record.orgIdHash && log[j].record.nonce == log[i].record.nonce;
      assert (log + [o])[j] == log[j];
    }
  }

  /** A record that is refused although it fits lost its nonce to the one that holds it. */
  lemma RefusedHasWinner(link: LinkFn, s: System, r: Record, o: Outcome)
    requires OrgOk(s, r.orgIdHash) && ValidChain(link, r.orgIdHash, Chain(s.ledger, r.orgIdHash))
    requires TaskOk(link, s.ledger, Ready(r)) && !Submit(link, s.ledger, r).1.Ok?
    requires o.record == r
    ensures RejectionHasWinner(s.log + [o], |s.log|)
  {
    AcceptedUnlessOvertaken(link, s.ledger, r);
    var c := Chain(s.ledger, r.orgIdHash);
    var j := AcceptedInLog(s.log, r.orgIdHash, r.nonce - 1);
    assert LinkedAt(link, c, r.nonce - 1);
    assert (s.log + [o])[j] == s.log[j];
  }

  lemma SendKeepsLog(link: LinkFn, s: System, r: Record, o: Outcome)
    requires Inv(link, s) && TaskOk(link, s.ledger, Ready(r))
    requires o.record == r && (o.Accepted? <==> Submit(link, s.ledger, r).1.Ok?)
    ensures LogOk(System(Submit(link, s.ledger, r).0, s.tasks, s.log + [o]))
  {
    assert OrgOk(s, r.orgIdHash);
    if o.Rejected? {
      assert ValidChain(link, r.orgIdHash, Chain(s.ledger, r.orgIdHash));
      RefusedHasWinner(link, s, r, o);
    }
    forall i: nat | i < |s.log| ensures RejectionHasWinner(s.log + [o], i) {
      EarlierWinnersStay(s.log, o, i);
    }
    AcceptedUnlessOvertaken(link, s.ledger, r);
    SubmitExtendsOneChain(link, s.ledger, r);
    NoncesStayBelow(s, Submit(link, s.ledger, r).0, Submit(link, s.ledger, r).1, r, o);
  }

  lemma NoncesStayBelow(s: System, ledger': Ledger, receipt: Receipt, r: Record, o: Outcome)
    requires LogOk(s) && o.record == r && (o.Accepted? <==> receipt.Ok?)
    requires receipt.Ok? ==> r.nonce == LatestNonce(s.ledger, r.orgIdHash) + 1
    requires forall org :: AppendsTo(s.ledger, ledger', org, AddedBy(receipt, r, org))
    ensures WonOnce(s.log + [o])
    ensures forall i :: 0 <= i < |s.log + [o]| && (s.log + [o])[i].Accepted? ==>
              (s.log + [o])[i].record.nonce <= LatestNonce(ledger', (s.log + [o])[i].record.orgIdHash)
  {
    forall i | 0 <= i < |s.log + [o]| && (s.log + [o])[i].Accepted?
      ensures (s.log + [o])[i].record.nonce <= LatestNonce(ledger', (s.log + [o])[i].record.orgIdHash)
    {
      var org := (s.log + [o])[i].record.orgIdHash;
      assert AppendsTo(s.ledger, ledger', org, AddedBy(receipt, r, org));
    }
  }

  lemma StepKeepsInv(link: LinkFn, hashOrgId: string -> Digest, s: System, e: Event)
    requires Inv(link, s)
    ensures Inv(link, Step(link, hashOrgId, s, e))
  {
    match e {
      case Start(t, orgId, now) => StartKeepsInv(link, hashOrgId, s, t, orgId, now);
      case Build(t, earliest, c) =>
        if t in s.tasks && s.tasks[t].Fetched? {
          BuildFits(link, s.ledger, s.tasks[t], earliest, c);
        }
        OnlyTasksChange(link, s, Step(link, hashOrgId, s, e));
      case Send(t) =>
        if t in s.tasks && s.tasks[t].Ready? {
          SendKeepsInv(link, s, t);
        }
      case Fail(t) => OnlyTasksChange(link, s, Step(link, hashOrgId, s, e));
    }
  }

  lemma StartKeepsInv(link: LinkFn, hashOrgId: string -> Digest, s: System, t: nat, orgId: string, now: int)
    requires Inv(link, s)
    ensures Inv(link, Step(link, hashOrgId, s, Start(t, orgId, now)))
  {
    var org := hashOrgId(orgId);
    LatestIsTip(link, s.ledger, org);
    var s' := Step(link, hashOrgId, s, Start(t, orgId, now));
    assert TaskOk(link, s.ledger, Fetched(org, now, Latest(s.ledger, org))) || s' == s;
    OnlyTasksChange(link, s, s');
  }

  lemma BuildFits(link: LinkFn, s: Ledger, t: Task, earliest: Option<int>, c: Commitment)
    requires t.Fetched? && TaskOk(link, s, t)
    ensures var record := NextRecord(link, t.org, t.now, t.tip, earliest, c);
            record.Some? ==> TaskOk(link, s, Ready(record.value))
  {
  }

  lemma OnlyTasksChange(link: LinkFn, s: System, s': System)
    requires Inv(link, s) && s'.ledger == s.ledger && s'.log == s.log
    requires forall t :: t in s'.tasks ==> TaskOk(link, s.ledger, s'.tasks[t])
    ensures Inv(link, s')
  {
    forall org ensures OrgOk(s', org) {
      assert OrgOk(s, org);
    }
  }

  lemma SendKeepsInv(link: LinkFn, s: System, t: nat)
    requires Inv(link, s) && t in s.tasks && s.tasks[t].Ready?
    ensures var r := s.tasks[t].record;
            var (ledger', receipt) := Submit(link, s.ledger, r);
            Inv(link, System(ledger', s.tasks - {t}, s.log + [if receipt.Ok? then Accepted(t, r) else Rejected(t, r)]))
  {
    var r := s.tasks[t].record;
    var (ledger', receipt) := Submit(link, s.ledger, r);
    var o := if receipt.Ok? then Accepted(t, r) else Rejected(t, r);
    assert TaskOk(link, s.ledger, s.tasks[t]);
    SubmitExtendsOneChain(link, s.ledger, r);
    AcceptedUnlessOvertaken(link, s.ledger, r);
    var s' := System(ledger', s.tasks - {t}, s.log + [o]);
    forall org ensures OrgOk(s', org) {
      assert OrgOk(s, org);
      SendKeepsOrg(link, s, ledger', receipt, r, o, org);
      assert OrgOk(System(ledger', s.tasks, s.log + [o]), org);
    }
    forall u | u in s'.tasks ensures TaskOk(link, ledger', s'.tasks[u]) {
      var task := s.tasks[u];
      assert TaskOk(link, s.ledger, task);
      var org := if task.Fetched? then task.org else task.record.orgIdHash;
      assert AppendsTo(s.ledger, ledger', org, AddedBy(receipt, r, org));
      TaskStaysOk(link, s.ledger, ledger', task, org, AddedBy(receipt, r, org));
    }
    SendKeepsLog(link, s, r, o);
  }

  lemma {:induction false} RunKeepsInv(link: LinkFn, hashOrgId: string -> Digest, s: System, es: seq<Event>)
    requires Inv(link, s)
    ensures Inv(link, Run(link, hashOrgId, s, es))
    decreases |es|
  {
    if es != [] {
      StepKeepsInv(link, hashOrgId, s, es[0]);
      RunKeepsInv(link, hashOrgId, Step(link, hashOrgId, s, es[0]), es[1..]);
    }
  }

  /** Over every interleaving of any number of calls, with any clocks: the ledger stays valid, each nonce of an
      org is won at most once, every rejected call lost its nonce to another, and the accepted records of an org
      are exactly its chain, whose periods tile without gap or overlap and last at least five minutes each. */
  lemma InterleavedSchedulersTile(link: LinkFn, hashOrgId: string -> Digest, es: seq<Event>)
    ensures var s := Run(link, hashOrgId, START, es);
            && Valid(link, s.ledger)
            && WonOnce(s.log)
            && (forall i :: 0 <= i < |s.log| ==> RejectionHasWinner(s.log, i))
            && forall org :: Tiled(Chain(s.ledger, org)) && AcceptedOf(s.log, org) == Chain(s.ledger, org)
  {
    EmptyIsValid(link);
    assert Inv(link, START);
    RunKeepsInv(link, hashOrgId, START, es);
    var s := Run(link, hashOrgId, START, es);
    forall org ensures Tiled(Chain(s.ledger, org)) && AcceptedOf(s.log, org) == Chain(s.ledger, org) {
      assert OrgOk(s, org);
    }
  }

  // ---------- whose data a record carries ----------

  /** The events by which a call began and built its record. */
  datatype Origin = Origin(start: Event, build: Option<Event>)

  /** The record attests what its call was given: the org, the end of the period, the digests and the time. */
  predicate Carries(hashOrgId: string -> Digest, o: Origin, task: nat, r: Record) {
    && o.start.Start? && o.start.task == task && r.orgIdHash == hashOrgId(o.start.orgId) && r.periodEnd == o.start.now
    && o.build.Some? && o.build.value.Build? && o.build.value.task == task
    && var c := o.build.value.commitment;
       && r.metricsHash == c.metricsHash && r.benchmarkHash == c.benchmarkHash && r.merkleRoot == c.merkleRoot
       && r.timestamp == c.timestamp
  }

  /** The events that made the present calls what they are. */
  function Origins(link: LinkFn, hashOrgId: string -> Digest, es: seq<Event>): map<nat, Origin> {
    if es == [] then map[]
    else
      var before, e := es[..|es| - 1], es[|es| - 1];
      var o, s := Origins(link, hashOrgId, before), Run(link, hashOrgId, START, before);
      var s' := Step(link, hashOrgId, s, e);
      if e.Start? && e.task !in s.tasks && e.task in s'.tasks then o[e.task := Origin(e, None)]
      else if e.Build? && e.task in s.tasks && s.tasks[e.task].Fetched? && e.task in o then
        o[e.task := o[e.task].(build := Some(e))]
      else o
  }

  /** For each outcome, the events of its own call. */
  function LogOrigins(link: LinkFn, hashOrgId: string -> Digest, es: seq<Event>): seq<Option<Origin>> {
    if es == [] then []
    else
      var before, e := es[..|es| - 1], es[|es| - 1];
      var o, s := Origins(link, hashOrgId, before), Run(link, hashOrgId, START, before);
      LogOrigins(link, hashOrgId, before)
      + if e.Send? && e.task in s.tasks && s.tasks[e.task].Ready? then
          [if e.task in o then Some(o[e.task]) else None]
        else []
  }

  predicate TaskCarries(hashOrgId: string -> Digest, o: map<nat, Origin>, s: System, task: nat) {
    && task in s.tasks && task in o
    && match s.tasks[task]
       case Fetched(org, now, _) =>
         o[task].start.Start? && o[task].start.task == task && org == hashOrgId(o[task].start.orgId)
         && now == o[task].start.now
       case Ready(r) => Carries(hashOrgId, o[task], task, r)
  }

  ghost predicate TasksCarry(hashOrgId: string -> Digest, o: map<nat, Origin>, s: System) {
    forall task {:trigger TaskCarries(hashOrgId, o, s, task)} :: task in s.tasks ==> TaskCarries(hashOrgId, o, s, task)
  }

  predicate OutcomeCarries(hashOrgId: string -> Digest, os: seq<Option<Origin>>, log: seq<Outcome>, i: nat) {
    i < |os| && i < |log| && os[i].Some? && Carries(hashOrgId, os[i].value, log[i].task, log[i].record)
  }

  lemma {:induction false} RunSnoc(link: LinkFn, hashOrgId: string -> Digest, s: System, es: seq<Event>, e: Event)
    ensures Run(link, hashOrgId, s, es + [e]) == Step(link, hashOrgId, Run(link, hashOrgId, s, es), e)
    decreases |es|
  {
    if es == [] {
      assert (es + [e])[1..] == [];
    } else {
      assert (es + [e])[1..] == es[1..] + [e];
      RunSnoc(link, hashOrgId, Step(link, hashOrgId, s, es[0]), es[1..], e);
    }
  }

  lemma StepKeepsCarrying(link: LinkFn, hashOrgId: string -> Digest, before: seq<Event>, e: Event)
    requires TasksCarry(hashOrgId, Origins(link, hashOrgId, before), Run(link, hashOrgId, START, before))
    ensures TasksCarry(hashOrgId, Origins(link, hashOrgId, before + [e]), Run(link, hashOrgId, START, before + [e]))
  {
    var all := before + [e];
    assert all[..|before|] == before && all[|before|] == e;
    RunSnoc(link, hashOrgId, START, before, e);
    var s, o := Run(link, hashOrgId, START, before), Origins(link, hashOrgId, before);
    forall task | task in Run(link, hashOrgId, START, all).tasks
      ensures TaskCarries(hashOrgId, Origins(link, hashOrgId, all), Run(link, hashOrgId, START, all), task)
    {
      if task in s.tasks {
        assert TaskCarries(hashOrgId, o, s, task);
      }
    }
  }

  lemma {:induction false} RunCarries(link: LinkFn, hashOrgId: string -> Digest, es: seq<Event>)
    ensures TasksCarry(hashOrgId, Origins(link, hashOrgId, es), Run(link, hashOrgId, START, es))
    decreases |es|
  {
    if es != [] {
      RunCarries(link, hashOrgId, es[..|es| - 1]);
      StepKeepsCarrying(link, hashOrgId, es[..|es| - 1], es[|es| - 1]);
      SplitLast(es);
    }
  }

  /** Over every interleaving, each outcome, accepted or rejected, is of a record that attests exactly what its own call
      was given when it began and when it built the record, and no other call's data. */
  lemma {:induction false} OutcomesCarryTheirOwn(link: LinkFn, hashOrgId: string -> Digest, es: seq<Event>)
    ensures var os, log := LogOrigins(link, hashOrgId, es), Run(link, hashOrgId, START, es).log;
            |os| == |log| && forall i {:trigger OutcomeCarries(hashOrgId, os, log, i)} :: 0 <= i < |log| ==>
                               OutcomeCarries(hashOrgId, os, log, i)
    decreases |es|
  {
    if es != [] {
      var before, e := es[..|es| - 1], es[|es| - 1];
      OutcomesCarryTheirOwn(link, hashOrgId, before);
      RunCarries(link, hashOrgId, before);
      RunSnoc(link, hashOrgId, START, before, e);
      SplitLast(es);
      OneMoreOutcome(link, hashOrgId, before, e);
    }
  }

  lemma OneMoreOutcome(link: LinkFn, hashOrgId: string -> Digest, before: seq<Event>, e: Event)
    requires var os, log := LogOrigins(link, hashOrgId, before), Run(link, hashOrgId, START, before).log;
             |os| == |log| && forall i {:trigger OutcomeCarries(hashOrgId, os, log, i)} :: 0 <= i < |log| ==>
                                OutcomeCarries(hashOrgId, os, log, i)
    requires TasksCarry(hashOrgId, Origins(link, hashOrgId, before), Run(link, hashOrgId, START, before))
    ensures var os := LogOrigins(link, hashOrgId, before + [e]);
            var log := Step(link, hashOrgId, Run(link, hashOrgId, START, before), e).log;
            |os| == |log| && forall i {:trigger OutcomeCarries(hashOrgId, os, log, i)} :: 0 <= i < |log| ==>
                               OutcomeCarries(hashOrgId, os, log, i)
  {
    var all := before + [e];
    assert all[..|before|] == before && all[|before|] == e;
    var s, os := Run(link, hashOrgId, START, before), LogOrigins(link, hashOrgId, before);
    var os', log' := LogOrigins(link, hashOrgId, all), Step(link, hashOrgId, s, e).log;
    forall i | 0 <= i < |log'| ensures OutcomeCarries(hashOrgId, os', log', i) {
      if i < |s.log| {
        assert OutcomeCarries(hashOrgId, os, s.log, i);
      } else {
        assert TaskCarries(hashOrgId, Origins(link, hashOrgId, before), s, e.task);
      }
    }
  }

  // ---------- a scheduler alone ----------

  /** The pending call, if any, has seen the current tip. */
  ghost predicate Current(link: LinkFn, s: System, me: nat) {
    && s.tasks.Keys <= {me}
    && (forall i :: 0 <= i < |s.log| ==> s.log[i].Accepted?)
    && (me in s.tasks ==> match s.tasks[me]
                          case Fetched(org, _, tip) => tip == Latest(s.ledger, org)
                          case Ready(r) => r.nonce == LatestNonce(s.ledger, r.orgIdHash) + 1)
  }

  lemma StepStaysCurrent(link: LinkFn, hashOrgId: string -> Digest, s: System, e: Event, me: nat)
    requires Inv(link, s) && Current(link, s, me) && e.task == me
    ensures Current(link, Step(link, hashOrgId, s, e), me)
  {
    if me in s.tasks {
      assert TaskOk(link, s.ledger, s.tasks[me]);
      match s.tasks[me] {
        case Fetched(org, _, _) => LatestIsTip(link, s.ledger, org);
        case Ready(r) => AcceptedUnlessOvertaken(link, s.ledger, r);
      }
    }
  }

  lemma {:induction false} AloneStaysCurrent(link: LinkFn, hashOrgId: string -> Digest, s: System, es: seq<Event>,
                                             me: nat)
    requires Inv(link, s) && Current(link, s, me)
    requires forall e :: e in es ==> e.task == me
    ensures Current(link, Run(link, hashOrgId, s, es), me)
    decreases |es|
  {
    if es != [] {
      StepKeepsInv(link, hashOrgId, s, es[0]);
      StepStaysCurrent(link, hashOrgId, s, es[0], me);
      AloneStaysCurrent(link, hashOrgId, Step(link, hashOrgId, s, es[0]), es[1..], me);
    }
  }

  /** A scheduler that makes its calls one after the other is never rejected, also after calls that raised. */
  lemma LoneSchedulerNeverRejected(link: LinkFn, hashOrgId: string -> Digest, es: seq<Event>, me: nat)
    requires forall e :: e in es ==> e.task == me
    ensures forall o :: o in Run(link, hashOrgId, START, es).log ==> o.Accepted?
  {
    EmptyIsValid(link);
    assert Inv(link, START);
    AloneStaysCurrent(link, hashOrgId, START, es, me);
  }

  // ---------- the call itself ----------

  /** `_attest_org` when nothing runs in between: unless the tip cannot be hashed, it submits exactly when there is
      a start and five minutes have passed, and its record is then the new end of the chain. */
  method AttestOrg(provider: L.LocalProvider, org: Digest, now: int, earliest: Option<int>, c: Commitment)
    returns (r: Option<Receipt>)
    requires Valid(provider.link, provider.State())
    modifies provider
    ensures Valid(provider.link, provider.State()) && Contiguous(old(provider.State()), org)
    ensures r.Some? ==> r.value.Ok?
    ensures r.None? ==> provider.State() == old(provider.State())
    ensures r.Some? <==> ShouldAttest(provider.link, old(provider.State()), org, now, earliest)
    ensures r.Some? ==> exists record ::
              && AppendsTo(old(provider.State()), provider.State(), org, [record])
              && Attests(provider.link, old(provider.State()), org, now, earliest, c, record)
  {
    ghost var before := provider.State();
    LatestIsTip(provider.link, before, org);
    var latest := provider.GetLatest(org);
    if latest.Some? && provider.link(latest.value).None? {
      return None;
    }
    var record := NextRecord(provider.link, org, now, latest, earliest, c);
    if record.None? {
      return None;
    }
    NextRecordFits(provider.link, before, org, now, earliest, c, record.value);
    var receipt := provider.Submit(record.value);
    assert AppendsTo(before, provider.State(), org, AddedBy(receipt, record.value, org));
    return Some(receipt);
  }

  /** The record attests the given digests for the period from where the last one ended, or the first event was, to now;
      it carries the next nonce and the hash of the record before, or 64 zeros. */
  ghost predicate Attests(link: LinkFn, s: Ledger, org: string, now: int, earliest: Option<int>, c: Commitment,
                          r: Record)
    requires Contiguous(s, org)
  {
    var chain := Chain(s, org);
    && r.orgIdHash == org && r.periodEnd == now && now - r.periodStart >= 5 * 60 * 1_000_000
    && r.metricsHash == c.metricsHash && r.benchmarkHash == c.benchmarkHash && r.merkleRoot == c.merkleRoot
    && r.timestamp == c.timestamp && r.nonce == |chain| + 1
    && if chain == [] then earliest == Some(r.periodStart) && |r.prevHash| == 64 && IsZeroHash(r.prevHash)
       else r.periodStart == chain[|chain| - 1].periodEnd && link(chain[|chain| - 1]) == Some(r.prevHash)
  }

  /** Where the next period of an org starts. */
  ghost function NextStart(s: Ledger, org: string, earliest: Option<int>): Option<int> {
    var tip := Latest(s, org);
    if tip.Some? then Some(tip.value.periodEnd) else earliest
  }

  ghost predicate ShouldAttest(link: LinkFn, s: Ledger, org: string, now: int, earliest: Option<int>) {
    var start, tip := NextStart(s, org, earliest), Latest(s, org);
    start.Some? && now - start.value >= 5 * 60 * 1_000_000 && (tip.Some? ==> link(tip.value).Some?)
  }

  /** A record built from the tip extends the chain. */
  lemma NextRecordFits(link: LinkFn, s: Ledger, org: Digest, now: int, earliest: Option<int>, c: Commitment, r: Record)
    requires Valid(link, s) && (Latest(s, org).Some? ==> link(Latest(s, org).value).Some?)
    requires NextRecord(link, org, now, Latest(s, org), earliest, c) == Some(r)
    ensures org != "" && Contiguous(s, org) && Extends(link, Chain(s, org), r)
    ensures Attests(link, s, org, now, earliest, c, r)
  {
    LatestIsTip(link, s, org);
  }
}
