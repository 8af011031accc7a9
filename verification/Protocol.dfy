/** Whole runs of the protocol. The tables are shared by any number of workers, each of which may
    stop for good between any two calls, by the queue that stages messages, and by an operator who
    replays dead letters. A run is a list of steps, each carrying whatever time its clock showed;
    a step that is not enabled changes nothing, so every list of steps is a run. */
module Protocol {
  import opened Basics
  import opened Identifiers
  import opened Effects
  import opened Store
  import SyncRun

  /** The message and the body a lease was handed out for. */
  datatype Holding = Holding(message: MessageId, body: Body)

  /** Besides the tables: every lease ever handed out, and every lease some worker has decided to
      acknowledge. A worker that stops simply never sends its acknowledgement, so nothing is ever
      removed from `decided`. */
  datatype System = System(db: Db, held: map<LeaseId, Holding>, decided: set<LeaseId>)

  const START: System := System(EMPTY, map[], {})

  datatype Step =
    | StageStep(messages: seq<Incoming>, now: Instant)
    | PullStep(hands: seq<HandOut>, visibilityMs: int, now: Instant)
    | ClaimStep(lease: LeaseId, now: Instant)
    | FinishStep(lease: LeaseId, input: JobResult, now: Instant)
    | RejectStep(lease: LeaseId, attempts: nat, reason: string, now: Instant)
    | SettleStep(acks: seq<LeaseId>, retries: seq<RetryLine>, now: Instant)
    | ReplayStep(jobId: JobId, key: IdempotencyKey, dryRun: bool, now: Instant)
    | ClaimEffectStep(effect: EffectKey, jobId: JobId, now: Instant)
    | FinishEffectStep(effect: EffectKey, result: EffectResult, now: Instant)
    | OpenRunStep(run: RunId, queued: seq<SyncRun.Source>, now: Instant)
    | PublishFailedStep(run: RunId, error: string, now: Instant)

  predicate DistinctHands(hands: seq<HandOut>) {
    forall i, j :: 0 <= i < j < |hands| ==> hands[i].message != hands[j].message && hands[i].leaseId != hands[j].leaseId
  }

  predicate HoldsJob(s: System, lease: LeaseId) { lease in s.held && s.held[lease].body.Parsed? }

  /** What the clients of the tables do: hand out due messages under fresh lease ids, claim and
      finish only the job of a lease they hold, reject only bodies that do not parse, and acknowledge
      only leases they decided to acknowledge. Everything else is unrestricted. */
  predicate Enabled(s: System, step: Step) {
    match step
    case PullStep(hands, _, now) =>
      && DistinctHands(hands)
      && forall h :: h in hands ==> h.leaseId !in s.held && Eligible(ReclaimExpired(s.db.inbox, now), h.message, now)
    case ClaimStep(lease, _) => HoldsJob(s, lease)
    case FinishStep(lease, _, _) => HoldsJob(s, lease)
    case RejectStep(lease, _, _, _) => lease in s.held && s.held[lease].body.Malformed?
    case SettleStep(acks, retries, _) =>
      (forall l :: l in acks ==> l in s.decided) && (forall r :: r in retries ==> r.leaseId !in acks)
    case OpenRunStep(run, _, _) => run !in s.db.runs
    case PublishFailedStep(run, _, _) => run in s.db.runs
    case _ => true
  }

  function Hold(held: map<LeaseId, Holding>, inbox: Inbox, hands: seq<HandOut>): map<LeaseId, Holding> {
    if hands == [] then held
    else
      var h := hands[|hands| - 1];
      var rest := Hold(held, inbox, hands[..|hands| - 1]);
      if h.message in inbox then rest[h.leaseId := Holding(h.message, inbox[h.message].body)] else rest
  }

  function Decide(s: System, lease: LeaseId, yes: bool): set<LeaseId> {
    if yes then s.decided + {lease} else s.decided
  }

  function Apply(s: System, step: Step): System {
    if !Enabled(s, step) then s
    else
      match step
      case StageStep(messages, now) => s.(db := s.db.(inbox := Stage(s.db.inbox, messages, now)))
      case PullStep(hands, visibilityMs, now) =>
        s.(db := s.db.(inbox := Pull(s.db.inbox, hands, visibilityMs, now)), held := Hold(s.held, s.db.inbox, hands))
      case ClaimStep(lease, now) =>
        var job := s.held[lease].body.job;
        s.(db := ClaimJob(s.db, job, now),
           decided := Decide(s, lease, ClaimAnswerFor(s.db.jobs, job, now) == Duplicate))
      case FinishStep(lease, input, now) =>
        var j := s.held[lease].body.job.jobId;
        s.(db := FinishJob(s.db, j, input, now),
           decided := Decide(s, lease, FinishAnswerFor(s.db, j, input, now) == Ack))
      case RejectStep(lease, attempts, reason, now) =>
        s.(db := RejectInvalid(s.db, s.held[lease].message, attempts, reason, Digest(s.held[lease].body), now),
           decided := Decide(s, lease, true))
      case SettleStep(acks, retries, now) => s.(db := s.db.(inbox := Settle(s.db.inbox, acks, retries, now)))
      case ReplayStep(j, key, dryRun, now) => s.(db := Replay(s.db, j, key, dryRun, now))
      case ClaimEffectStep(e, j, now) => s.(db := s.db.(effects := ClaimEffect(s.db.effects, e, j, now)))
      case FinishEffectStep(e, result, now) => s.(db := s.db.(effects := FinishEffect(s.db.effects, e, result, now)))
      case OpenRunStep(run, queued, now) =>
        s.(db := s.db.(runs := s.db.runs[run := SyncRun.OpenRun(queued, now)]))
      case PublishFailedStep(run, error, now) =>
        s.(db := s.db.(runs := s.db.runs[run := SyncRun.PublishFailed(s.db.runs[run], error, now)]))
  }

  /** The state after a run. */
  function Exec(steps: seq<Step>): System {
    if steps == [] then START else Apply(Exec(steps[..|steps| - 1]), steps[|steps| - 1])
  }

  function ExecFrom(s: System, steps: seq<Step>): System {
    if steps == [] then s else Apply(ExecFrom(s, steps[..|steps| - 1]), steps[|steps| - 1])
  }

  lemma {:induction false} ExecConcat(before: seq<Step>, after: seq<Step>)
    ensures Exec(before + after) == ExecFrom(Exec(before), after)
  {
    if after == [] {
      assert before + after == before;
    } else {
      var n := |after| - 1;
      ExecConcat(before, after[..n]);
      assert (before + after)[..|before + after| - 1] == before + after[..n];
      assert (before + after)[|before + after| - 1] == after[n];
    }
  }

  // -------------------------------------------------- what the queue does

  /** What handing out does to one row: it is leased to the lease id it is paired with, or left alone. */
  lemma {:induction false} LeaseAllRow(inbox: Inbox, hands: seq<HandOut>, until: Instant, now: Instant, m: MessageId)
    requires DistinctHands(hands) && m in inbox
    requires forall h :: h in hands ==> h.message in inbox && inbox[h.message].state == Queued
    ensures m in LeaseAll(inbox, hands, until, now)
    ensures (forall h :: h in hands ==> h.message != m) ==> LeaseAll(inbox, hands, until, now)[m] == inbox[m]
    ensures forall h :: h in hands && h.message == m ==>
      LeaseAll(inbox, hands, until, now)[m] ==
        inbox[m].(state := Leased(h.leaseId, until), attempts := inbox[m].attempts + 1, updatedAt := now)
  {
    if hands != [] {
      var n := |hands| - 1;
      var rest, last := hands[..n], hands[n];
      assert hands == rest + [last];
      LeaseAllRow(inbox, rest, until, now, m);
      if last.message == m {
        forall h | h in rest ensures h.message != m {
          var i :| 0 <= i < n && hands[i] == h;
        }
      }
    }
  }

  lemma {:induction false} LeaseAllKeys(inbox: Inbox, hands: seq<HandOut>, until: Instant, now: Instant)
    ensures LeaseAll(inbox, hands, until, now).Keys == inbox.Keys
  {
    if hands != [] {
      LeaseAllKeys(inbox, hands[..|hands| - 1], until, now);
    }
  }

  /** The hand-outs of a `pull` are for different messages, all of them due. */
  predicate PullsDue(inbox: Inbox, step: Step) {
    step.PullStep? ==>
      (DistinctHands(step.hands) &&
       forall h :: h in step.hands ==> Eligible(ReclaimExpired(inbox, step.now), h.message, step.now))
  }

  /** The effect of a `pull` on one row. */
  lemma PulledRow(inbox: Inbox, step: Step, m: MessageId)
    requires step.PullStep? && PullsDue(inbox, step) && m in inbox
    ensures var row, after := ReclaimExpired(inbox, step.now)[m],
                              Pull(inbox, step.hands, step.visibilityMs, step.now);
      && m in after
      && ((forall h :: h in step.hands ==> h.message != m) ==> after[m] == row)
      && forall h :: h in step.hands && h.message == m ==>
           after[m] == row.(state := Leased(h.leaseId, step.now + step.visibilityMs), attempts := row.attempts + 1,
                            updatedAt := step.now)
  {
    LeaseAllRow(ReclaimExpired(inbox, step.now), step.hands, step.now + step.visibilityMs, step.now, m);
  }

  lemma PullRow(s: System, step: Step, m: MessageId)
    requires step.PullStep? && Enabled(s, step) && m in s.db.inbox
    ensures m in Apply(s, step).db.inbox && Apply(s, step).db.inbox[m].body == s.db.inbox[m].body
    ensures (forall h :: h in step.hands ==> h.message != m) ==>
      Apply(s, step).db.inbox[m] == ReclaimExpired(s.db.inbox, step.now)[m]
    ensures forall h :: h in step.hands && h.message == m ==>
      Apply(s, step).db.inbox[m].state == Leased(h.leaseId, step.now + step.visibilityMs)
  {
    PulledRow(s.db.inbox, step, m);
  }

  /** Handing out adds leases and forgets none. */
  lemma {:induction false} HoldKeeps(held: map<LeaseId, Holding>, inbox: Inbox, hands: seq<HandOut>)
    requires forall h :: h in hands ==> h.leaseId !in held
    ensures forall l :: l in held ==> l in Hold(held, inbox, hands) && Hold(held, inbox, hands)[l] == held[l]
    ensures forall l :: l in Hold(held, inbox, hands) ==> l in held || exists h :: h in hands && h.leaseId == l
  {
    if hands != [] {
      var n := |hands| - 1;
      assert hands == hands[..n] + [hands[n]];
      HoldKeeps(held, inbox, hands[..n]);
    }
  }

  lemma {:induction false} HoldAdds(held: map<LeaseId, Holding>, inbox: Inbox, hands: seq<HandOut>, i: nat)
    requires DistinctHands(hands) && i < |hands| && hands[i].message in inbox
    ensures hands[i].leaseId in Hold(held, inbox, hands)
    ensures Hold(held, inbox, hands)[hands[i].leaseId] == Holding(hands[i].message, inbox[hands[i].message].body)
  {
    var n := |hands| - 1;
    if i < n { HoldAdds(held, inbox, hands[..n], i); }
  }

  lemma HoldRows(held: map<LeaseId, Holding>, inbox: Inbox, hands: seq<HandOut>)
    requires DistinctHands(hands)
    requires forall h :: h in hands ==> h.message in inbox && h.leaseId !in held
    ensures forall l :: l in held ==> l in Hold(held, inbox, hands) && Hold(held, inbox, hands)[l] == held[l]
    ensures forall l :: l in Hold(held, inbox, hands) ==> l in held || exists h :: h in hands && h.leaseId == l
    ensures forall h :: h in hands ==>
      (h.leaseId in Hold(held, inbox, hands) &&
       Hold(held, inbox, hands)[h.leaseId] == Holding(h.message, inbox[h.message].body))
  {
    HoldKeeps(held, inbox, hands);
    forall h | h in hands
      ensures h.leaseId in Hold(held, inbox, hands)
      ensures Hold(held, inbox, hands)[h.leaseId] == Holding(h.message, inbox[h.message].body)
    {
      var i :| 0 <= i < |hands| && hands[i] == h;
      HoldAdds(held, inbox, hands, i);
    }
  }

  lemma {:induction false} StageRows(inbox: Inbox, messages: seq<Incoming>, now: Instant)
    ensures forall m :: m in inbox ==> m in Stage(inbox, messages, now) && Stage(inbox, messages, now)[m] == inbox[m]
    ensures forall m :: m in Stage(inbox, messages, now) && m !in inbox ==>
      m.External? && Stage(inbox, messages, now)[m].state == Queued && Stage(inbox, messages, now)[m].attempts == 0
  {
    if messages != [] {
      StageRows(inbox, messages[..|messages| - 1], now);
    }
  }

  // ------------------------------------------------------- no stranded job

  /** Message `m` carries the job of key `k`, and no acknowledgement of its current lease was ever decided. */
  predicate CarriedBy(s: System, k: DedupeKey, m: MessageId) {
    && m in s.db.inbox
    && s.db.inbox[m].body.Parsed? && s.db.inbox[m].body.job.DedupeKey() == k
    && (s.db.inbox[m].state.Leased? ==> s.db.inbox[m].state.leaseId !in s.decided)
  }

  ghost predicate Carried(s: System, k: DedupeKey) { exists m :: CarriedBy(s, k, m) }

  /** Every job row that is not terminal has such a message. */
  ghost predicate NoneStranded(s: System) {
    forall k :: k in s.db.jobs && !Terminal(s.db.jobs[k].status) ==> Carried(s, k)
  }

  /** A lease names one message, the one it was handed out for. */
  ghost predicate LeasesMatch(s: System) {
    forall m :: m in s.db.inbox && s.db.inbox[m].state.Leased? ==>
      s.db.inbox[m].state.leaseId in s.held &&
      s.held[s.db.inbox[m].state.leaseId] == Holding(m, s.db.inbox[m].body)
  }

  /** An acknowledgement is decided only for a lease that was handed out, and if its body is a job,
      only once the job has a row. */
  ghost predicate DecidedHaveRows(s: System) {
    forall l :: l in s.decided ==>
      l in s.held && (s.held[l].body.Parsed? ==> s.held[l].body.job.DedupeKey() in s.db.jobs)
  }

  /** A handed-out job that has no row yet still has its message. */
  ghost predicate UnclaimedStay(s: System) {
    forall l :: l in s.held && HoldsJob(s, l) && s.held[l].body.job.DedupeKey() !in s.db.jobs ==>
      s.held[l].message in s.db.inbox && s.db.inbox[s.held[l].message].body == s.held[l].body
  }

  ghost predicate RowsKeyed(db: Db) {
    forall k :: k in db.jobs ==> db.jobs[k].jobId.key == k
  }

  ghost predicate ReplaysRecorded(db: Db) {
    forall j, key :: ReplayMessage(j, key) in db.inbox ==> key in db.operations
  }

  ghost predicate QueueInv(s: System) {
    && LeasesMatch(s) && DecidedHaveRows(s) && UnclaimedStay(s)
    && RowsKeyed(s.db) && ReplaysRecorded(s.db) && NoneStranded(s)
  }

  lemma StageKeeps(s: System, step: Step)
    requires QueueInv(s) && step.StageStep?
    ensures QueueInv(Apply(s, step))
  {
    var t := Apply(s, step);
    StageRows(s.db.inbox, step.messages, step.now);
    forall k | k in t.db.jobs && !Terminal(t.db.jobs[k].status) ensures Carried(t, k) {
      var m :| CarriedBy(s, k, m);
      assert CarriedBy(t, k, m);
    }
  }

  lemma PullKeepsLeases(s: System, step: Step)
    requires QueueInv(s) && step.PullStep? && Enabled(s, step)
    ensures LeasesMatch(Apply(s, step))
  {
    var t := Apply(s, step);
    LeaseAllKeys(ReclaimExpired(s.db.inbox, step.now), step.hands, step.now + step.visibilityMs, step.now);
    HoldRows(s.held, s.db.inbox, step.hands);
    forall m | m in t.db.inbox && t.db.inbox[m].state.Leased?
      ensures t.db.inbox[m].state.leaseId in t.held &&
              t.held[t.db.inbox[m].state.leaseId] == Holding(m, t.db.inbox[m].body)
    {
      PullRow(s, step, m);
    }
  }

  lemma PullKeepsUnclaimed(s: System, step: Step)
    requires QueueInv(s) && step.PullStep? && Enabled(s, step)
    ensures UnclaimedStay(Apply(s, step))
  {
    var t := Apply(s, step);
    HoldRows(s.held, s.db.inbox, step.hands);
    forall l | l in t.held && HoldsJob(t, l) && t.held[l].body.job.DedupeKey() !in t.db.jobs
      ensures t.held[l].message in t.db.inbox && t.db.inbox[t.held[l].message].body == t.held[l].body
    {
      PullRow(s, step, t.held[l].message);
    }
  }

  lemma PullKeepsCarried(s: System, step: Step, k: DedupeKey)
    requires QueueInv(s) && step.PullStep? && Enabled(s, step)
    requires k in s.db.jobs && !Terminal(s.db.jobs[k].status)
    ensures Carried(Apply(s, step), k)
  {
    var m :| CarriedBy(s, k, m);
    HoldRows(s.held, s.db.inbox, step.hands);
    PullRow(s, step, m);
    assert CarriedBy(Apply(s, step), k, m);
  }

  lemma PullKeeps(s: System, step: Step)
    requires QueueInv(s) && step.PullStep? && Enabled(s, step)
    ensures QueueInv(Apply(s, step))
  {
    PullKeepsLeases(s, step);
    PullKeepsUnclaimed(s, step);
    forall k | k in s.db.jobs && !Terminal(s.db.jobs[k].status) { PullKeepsCarried(s, step, k); }
    PullKeepsRest(s, step);
  }

  lemma PullKeepsRest(s: System, step: Step)
    requires QueueInv(s) && step.PullStep? && Enabled(s, step)
    ensures DecidedHaveRows(Apply(s, step)) && RowsKeyed(Apply(s, step).db) && ReplaysRecorded(Apply(s, step).db)
  {
    LeaseAllKeys(ReclaimExpired(s.db.inbox, step.now), step.hands, step.now + step.visibilityMs, step.now);
    HoldRows(s.held, s.db.inbox, step.hands);
  }

  lemma SettleKeeps(s: System, step: Step)
    requires QueueInv(s) && step.SettleStep? && Enabled(s, step)
    ensures QueueInv(Apply(s, step))
  {
    var t := Apply(s, step);
    forall k | k in t.db.jobs && !Terminal(t.db.jobs[k].status) ensures Carried(t, k) {
      var m :| CarriedBy(s, k, m);
      assert CarriedBy(t, k, m);
    }
  }

  lemma ClaimKeeps(s: System, step: Step)
    requires QueueInv(s) && step.ClaimStep? && Enabled(s, step)
    ensures QueueInv(Apply(s, step))
  {
    var t := Apply(s, step);
    var k0 := s.held[step.lease].body.job.DedupeKey();
    forall k | k in t.db.jobs && !Terminal(t.db.jobs[k].status) ensures Carried(t, k) {
      if k == k0 && k0 !in s.db.jobs {
        assert CarriedBy(t, k, s.held[step.lease].message);
      } else {
        var m :| CarriedBy(s, k, m);
        assert CarriedBy(t, k, m);
      }
    }
  }

  /** Finishing touches at most the row of its own key, and a terminal row not at all. */
  lemma FinishRow(db: Db, j: JobId, input: JobResult, now: Instant, k: DedupeKey)
    requires k in db.jobs
    ensures k in FinishJob(db, j, input, now).jobs
    ensures FinishJob(db, j, input, now).jobs[k].jobId == db.jobs[k].jobId
    ensures k != j.key || Terminal(db.jobs[k].status) ==> FinishJob(db, j, input, now).jobs[k] == db.jobs[k]
  {
  }

  lemma FinishFrame(db: Db, j: JobId, input: JobResult, now: Instant)
    ensures FinishJob(db, j, input, now).jobs.Keys == db.jobs.Keys
    ensures FinishJob(db, j, input, now).inbox == db.inbox
    ensures FinishJob(db, j, input, now).operations == db.operations
    ensures FinishJob(db, j, input, now).effects == db.effects
  {
    assert HasJob(db.jobs, j) ==> db.jobs.Keys + {j.key} == db.jobs.Keys;
  }

  /** The answer is to acknowledge exactly when the job is terminal once the transaction is over. */
  lemma AckMeansTerminal(db: Db, j: JobId, input: JobResult, now: Instant)
    ensures FinishAnswerFor(db, j, input, now) == Ack <==>
      HasJob(db.jobs, j) && Terminal(FinishJob(db, j, input, now).jobs[j.key].status)
  {
  }

  /** What a step does to the inbox. Claims, reports and the rest leave it alone; a publication may add one row. */
  ghost predicate InboxMove(before: Inbox, step: Step, after: Inbox) {
    match step
    case StageStep(messages, now) => after == Stage(before, messages, now)
    case PullStep(hands, visibilityMs, now) =>
      PullsDue(before, step) && after == Pull(before, hands, visibilityMs, now)
    case SettleStep(acks, retries, now) => after == Settle(before, acks, retries, now)
    case ReplayStep(j, key, _, _) =>
      || after == before
      || (ReplayMessage(j, key) !in before &&
          exists row: InboxRow ::
            row.state == Queued && row.attempts == 0 && after == before[ReplayMessage(j, key) := row])
    case _ => after == before
  }

  lemma StepInbox(s: System, step: Step)
    requires Enabled(s, step)
    ensures InboxMove(s.db.inbox, step, Apply(s, step).db.inbox)
  {
    if step.FinishStep? { FinishFrame(s.db, s.held[step.lease].body.job.jobId, step.input, step.now); }
  }

  lemma FinishKeeps(s: System, step: Step)
    requires QueueInv(s) && step.FinishStep? && Enabled(s, step)
    ensures QueueInv(Apply(s, step))
  {
    var t := Apply(s, step);
    var j := s.held[step.lease].body.job.jobId;
    FinishFrame(s.db, j, step.input, step.now);
    AckMeansTerminal(s.db, j, step.input, step.now);
    forall k | k in t.db.jobs ensures t.db.jobs[k].jobId.key == k {
      FinishRow(s.db, j, step.input, step.now, k);
    }
    forall k | k in t.db.jobs && !Terminal(t.db.jobs[k].status) ensures Carried(t, k) {
      FinishRow(s.db, j, step.input, step.now, k);
      var m :| CarriedBy(s, k, m);
      assert CarriedBy(t, k, m);
    }
  }

  lemma RejectKeeps(s: System, step: Step)
    requires QueueInv(s) && step.RejectStep? && Enabled(s, step)
    ensures QueueInv(Apply(s, step))
  {
    var t := Apply(s, step);
    forall k | k in t.db.jobs && !Terminal(t.db.jobs[k].status) ensures Carried(t, k) {
      var m :| CarriedBy(s, k, m);
      assert CarriedBy(t, k, m);
    }
  }

  lemma ReplayKeepsCarried(s: System, step: Step, k: DedupeKey)
    requires QueueInv(s) && step.ReplayStep?
    requires k in Apply(s, step).db.jobs && !Terminal(Apply(s, step).db.jobs[k].status)
    ensures Carried(Apply(s, step), k)
  {
    var t := Apply(s, step);
    if k == step.jobId.key && Publishes(s.db, step.jobId, step.key, step.dryRun) {
      assert CarriedBy(t, k, ReplayMessage(step.jobId, step.key));
    } else {
      var m :| CarriedBy(s, k, m);
      assert CarriedBy(t, k, m);
    }
  }

  /** A publication brings a row back to life and stages a fresh message for it in the same transaction. */
  lemma ReplayKeeps(s: System, step: Step)
    requires QueueInv(s) && step.ReplayStep?
    ensures QueueInv(Apply(s, step))
  {
    var t := Apply(s, step);
    forall k | k in t.db.jobs && !Terminal(t.db.jobs[k].status) { ReplayKeepsCarried(s, step, k); }
  }

  lemma OtherKeeps(s: System, step: Step)
    requires QueueInv(s)
    requires step.ClaimEffectStep? || step.FinishEffectStep? || step.OpenRunStep? || step.PublishFailedStep?
    ensures QueueInv(Apply(s, step))
  {
    var t := Apply(s, step);
    forall k | k in t.db.jobs && !Terminal(t.db.jobs[k].status) ensures Carried(t, k) {
      var m :| CarriedBy(s, k, m);
      assert CarriedBy(t, k, m);
    }
  }

  lemma StepKeepsQueue(s: System, step: Step)
    requires QueueInv(s)
    ensures QueueInv(Apply(s, step))
  {
    if Enabled(s, step) {
      match step
      case StageStep(_, _) => StageKeeps(s, step);
      case PullStep(_, _, _) => PullKeeps(s, step);
      case ClaimStep(_, _) => ClaimKeeps(s, step);
      case FinishStep(_, _, _) => FinishKeeps(s, step);
      case RejectStep(_, _, _, _) => RejectKeeps(s, step);
      case SettleStep(_, _, _) => SettleKeeps(s, step);
      case ReplayStep(_, _, _, _) => ReplayKeeps(s, step);
      case _ => OtherKeeps(s, step);
    }
  }

  lemma {:induction false} QueueInvHolds(steps: seq<Step>)
    ensures QueueInv(Exec(steps))
  {
    if steps != [] {
      QueueInvHolds(steps[..|steps| - 1]);
      StepKeepsQueue(Exec(steps[..|steps| - 1]), steps[|steps| - 1]);
    }
  }

  /** No stranded job. In every state of every run, a job row that is not terminal has a message in
      the inbox that carries it and whose current lease nobody has decided to acknowledge. */
  lemma NoStrandedJob(steps: seq<Step>, k: DedupeKey)
    requires k in Exec(steps).db.jobs && !Terminal(Exec(steps).db.jobs[k].status)
    ensures exists m :: CarriedBy(Exec(steps), k, m)
  {
    QueueInvHolds(steps);
    assert Carried(Exec(steps), k);
  }

  /** When a message may be handed out: at once when it is available, and when its lease has run out. */
  function DueAt(row: InboxRow): Instant { if row.state.Leased? then row.state.until else row.availableAt }

  /** From that instant on, and not before, every `pull` counts the message among those it may hand out. */
  lemma EveryMessageComesDue(inbox: Inbox, m: MessageId, now: Instant)
    requires m in inbox
    ensures Eligible(ReclaimExpired(inbox, now), m, now) <==> now >= DueAt(inbox[m])
  {
  }
}
