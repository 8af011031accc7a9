/** What replaying a dead letter is answered in reachable states, and that asking again gives the same answer. */
module Replays {
  import opened Basics
  import opened Identifiers
  import opened Effects
  import opened Store
  import opened Protocol
  import opened Ledger
  import opened History
  import Audit

  predicate Ended(jobs: Jobs, j: JobId, status: JobStatus) {
    j.key in jobs && jobs[j.key].jobId == j && jobs[j.key].status == status
  }

  /** In a reachable state the answer follows from plain questions, asked in this order: is the job over, or some effect
      of it settled; was the key used, and for which job; does the letter point at an envelope; is the envelope there
      and the job dead; is it a dry run. A broken envelope is never found. */
  lemma AnswersInRun(steps: seq<Step>, j: JobId, key: IdempotencyKey, dryRun: bool, settled: Option<EffectStatus>)
    requires FindsSettled(Exec(steps).db.effects, j, settled)
    ensures var db := Exec(steps).db;
      var letter := if ForJob(j) in db.letters then db.letters[ForJob(j)].envelopeJobId else None;
      var answer := ReplayAnswerFor(db, j, key, dryRun, settled);
      answer ==
        if Ended(db.jobs, j, Done) then ReplayAnswer(false, false, Rejected, DoneTerminal)
        else if Ended(db.jobs, j, Uncertain) then ReplayAnswer(false, false, Rejected, UncertainTerminal)
        else if settled == Some(EffectDone) then ReplayAnswer(false, false, Rejected, DoneTerminal)
        else if settled == Some(EffectUncertain) then ReplayAnswer(false, false, Rejected, UncertainTerminal)
        else if key in db.operations && db.operations[key].jobId == j then
          ReplayAnswer(true, true, Published, PublishedReason)
        else if key in db.operations then ReplayAnswer(false, false, Rejected, IdempotencyConflict)
        else if letter == None then ReplayAnswer(false, false, Rejected, HistoricalUnrecoverable)
        else if j !in db.envelopes || !Ended(db.jobs, j, Dead) then
          ReplayAnswer(false, false, Rejected, EnvelopeUnavailable)
        else if dryRun then ReplayAnswer(false, true, Validated, Replayable)
        else ReplayAnswer(true, true, Published, PublishedReason)
  {
    var db := Exec(steps).db;
    LedgerInvHolds(steps);
    if ForJob(j) in db.letters { assert LetterSound(db, j, db.letters[ForJob(j)]); }
    if j in db.envelopes { assert EnvelopeSound(db.jobs, j, db.envelopes[j]); }
  }

  lemma OperationStays(s: System, step: Step, key: IdempotencyKey)
    requires key in s.db.operations
    ensures key in Apply(s, step).db.operations && Apply(s, step).db.operations[key] == s.db.operations[key]
  {
  }

  lemma {:induction false} OperationsStay(before: seq<Step>, more: seq<Step>, key: IdempotencyKey)
    requires key in Exec(before).db.operations
    ensures key in Exec(before + more).db.operations
    ensures Exec(before + more).db.operations[key] == Exec(before).db.operations[key]
  {
    if more == [] {
      assert before + more == before;
    } else {
      var n := |more| - 1;
      var run := before + more;
      assert run[..|run| - 1] == before + more[..n] && run[|run| - 1] == more[n];
      OperationsStay(before, more[..n], key);
      OperationStays(Exec(before + more[..n]), more[n], key);
    }
  }

  /** The job is not over, and none of its effects is settled. */
  predicate Open(db: Db, j: JobId) {
    !Ended(db.jobs, j, Done) && !Ended(db.jobs, j, Uncertain) && !EffectSettled(db.effects, j)
  }

  /** After a publication the same request is answered as it was, dry run or not, whatever has happened since, and
      another job's request under the same key is refused as a conflict, as long as the job asked for is open. */
  lemma RepeatIsAnsweredAlike(before: seq<Step>, j: JobId, key: IdempotencyKey, now: Instant, more: seq<Step>, x: JobId,
                              dryRun: bool)
    requires Publishes(Exec(before).db, j, key, false)
    requires Open(Exec(before + [ReplayStep(j, key, false, now)] + more).db, x)
    ensures ReplayAnswerFor(Exec(before).db, j, key, false, None) ==
      ReplayAnswer(true, true, Published, PublishedReason)
    ensures ReplayAnswerFor(Exec(before + [ReplayStep(j, key, false, now)] + more).db, x, key, dryRun, None) ==
      if x == j then ReplayAnswer(true, true, Published, PublishedReason)
      else ReplayAnswer(false, false, Rejected, IdempotencyConflict)
  {
    var step := ReplayStep(j, key, false, now);
    var replayed := before + [step];
    assert replayed[..|before|] == before;
    LedgerInvHolds(before);
    PublicationEffect(Exec(before).db, j, key, now);
    OperationsStay(replayed, more, key);
    AnswersInRun(before, j, key, false, None);
    PublishesIff(Exec(before).db, j, key, false);
    AnswersInRun(replayed + more, x, key, dryRun, None);
  }

  /** A letter the audit calls matched can be replayed, under any new key, unless an effect of its job is settled. */
  lemma MatchedCanBeReplayed(steps: seq<Step>, j: JobId, key: IdempotencyKey)
    requires ForJob(j) in Exec(steps).db.letters && Audit.CategoryOf(Exec(steps).db, ForJob(j)) == Audit.Matched
    requires key !in Exec(steps).db.operations
    ensures Publishes(Exec(steps).db, j, key, false) <==> !EffectSettled(Exec(steps).db.effects, j)
  {
    var db := Exec(steps).db;
    LedgerInvHolds(steps);
    Audit.CategoryInRun(steps, ForJob(j));
    PublishesIff(db, j, key, false);
    assert LetterSound(db, j, db.letters[ForJob(j)]);
  }
}
