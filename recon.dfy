/**
 * The reconciliation pass: scan the eligible incoming documents, look up each
 * one's outgoing counterpart, and mark the pair reconciled when amount and
 * currency agree.
 */
module Recon {
  import opened Model
  import opened Repository

  /** The errors a pass surfaces, each wrapping the store error that caused it. */
  datatype ReconcileError =
    | ScanError(cause: StoreError)
    | LookupError(txnId: string, cause: StoreError)
    | SetReconciledError(txnId: string, cause: StoreError)

  datatype Outcome = Success | Failure(error: ReconcileError)

  /** How the database answers during one pass: the outcome of the eligibility
      scan, the txn_ids whose counterpart lookup fails with something other than
      not-found, and how the reconciled-flag transaction for a txn_id ends
      (it commits unless listed otherwise). */
  datatype Environment = Environment(
    scan: ScanOutcome,
    lookupFails: set<string>,
    txnOutcomes: map<string, TxnOutcome>)
  {
    function LookupOf(txnId: string): LookupOutcome
    {
      if txnId in lookupFails then LookupFails else Answered
    }

    function TxnOf(txnId: string): TxnOutcome
    {
      if txnId in txnOutcomes then txnOutcomes[txnId] else Commits
    }
  }

  /** The match test the pass applies to a pair. */
  predicate Agree(inTxn: Transaction, outTxn: Transaction)
  {
    inTxn.amount == outTxn.amount && inTxn.currency == outTxn.currency
  }

  /** The txn_ids a pass settles: eligible incoming documents whose outgoing
      counterpart exists and agrees in amount and currency. */
  function Matches(incoming: Ledger, outgoing: Ledger, now: Millis): (r: set<string>)
    ensures r <= Eligible(incoming, now).Keys
    ensures r <= outgoing.Keys
  {
    set id | id in Eligible(incoming, now) && id in outgoing && Agree(incoming[id], outgoing[id])
  }

  /** A ledger after every txn_id in `ids` has been marked reconciled. */
  function Settled(ledger: Ledger, ids: set<string>): (r: Ledger)
    ensures r.Keys == ledger.Keys
    ensures forall id :: id in r ==> SameExceptFlag(ledger[id], r[id])
    ensures forall id :: id in r ==> r[id].reconciled == (ledger[id].reconciled || id in ids)
    ensures WellKeyed(ledger) ==> WellKeyed(r)
  {
    map id | id in ledger :: if id in ids then ledger[id].(reconciled := true) else ledger[id]
  }

  /** Settling one more txn_id is one more SetReconciled on that side. */
  lemma SettledStep(ledger: Ledger, ids: set<string>, txnId: string)
    ensures Settled(ledger, ids + {txnId}) == MarkReconciled(Settled(ledger, ids), txnId)
  {
  }

  /** Nothing settled, nothing changed. */
  lemma SettledNothing(ledger: Ledger)
    ensures Settled(ledger, {}) == ledger
  {
  }

  /** Both sides agree on the flag of every txn_id they share. */
  ghost predicate Paired(incoming: Ledger, outgoing: Ledger)
  {
    forall id :: id in incoming && id in outgoing ==> incoming[id].reconciled == outgoing[id].reconciled
  }

  /** Settling the same txn_ids on both sides never makes them diverge. */
  lemma SettledKeepsPairing(incoming: Ledger, outgoing: Ledger, ids: set<string>)
    requires Paired(incoming, outgoing)
    ensures Paired(Settled(incoming, ids), Settled(outgoing, ids))
  {
  }

  /** Whatever the pass settles, outgoing documents without an incoming
      counterpart and eligible pairs that disagree keep every field. */
  lemma SettledSparesUnmatched(incoming: Ledger, outgoing: Ledger, now: Millis, ids: set<string>, txnId: string)
    requires ids <= Matches(incoming, outgoing, now)
    requires txnId !in incoming || (txnId in outgoing && !Agree(incoming[txnId], outgoing[txnId]))
    ensures txnId in incoming ==> Settled(incoming, ids)[txnId] == incoming[txnId]
    ensures txnId in outgoing ==> Settled(outgoing, ids)[txnId] == outgoing[txnId]
  {
  }

  /** A pass that meets no failure settles every match on both sides. */
  function PassResult(incoming: Ledger, outgoing: Ledger, now: Millis): (r: (Ledger, Ledger))
    ensures r.0.Keys == incoming.Keys && r.1.Keys == outgoing.Keys
    ensures forall id :: id in Matches(incoming, outgoing, now) ==>
      id in r.0 && id in r.1 && r.0[id].reconciled && r.1[id].reconciled
  {
    var m := Matches(incoming, outgoing, now);
    (Settled(incoming, m), Settled(outgoing, m))
  }

  /** An eligible txn_id that was not settled is still eligible later: it is
      re-evaluated by the next pass. */
  lemma UnsettledStaysEligible(incoming: Ledger, now: Millis, later: Millis, ids: set<string>)
    requires now <= later
    ensures Eligible(incoming, now).Keys - ids <= Eligible(Settled(incoming, ids), later).Keys
  {
  }

  /** If neither ledger receives new documents, a later pass after a
      successful pass can only settle txn_ids that were not eligible in the
      first one. */
  lemma PassLeavesNoMatch(incoming: Ledger, outgoing: Ledger, now: Millis, later: Millis)
    ensures var (i, o) := PassResult(incoming, outgoing, now);
      Matches(i, o, later) * Eligible(incoming, now).Keys == {}
  {
  }

  /** A second pass over the same data at the same time changes nothing. */
  lemma PassIdempotent(incoming: Ledger, outgoing: Ledger, now: Millis)
    ensures var (i, o) := PassResult(incoming, outgoing, now);
      PassResult(i, o, now) == (i, o)
  {
    var (i, o) := PassResult(incoming, outgoing, now);
    PassLeavesNoMatch(incoming, outgoing, now, now);
    assert Matches(i, o, now) == {};
    SettledNothing(i);
    SettledNothing(o);
  }

  /** A pass runs without failure exactly when the scan succeeds, no eligible
      lookup fails, and every matched pair's transaction commits. */
  ghost predicate CleanPass(env: Environment, incoming: Ledger, outgoing: Ledger, now: Millis)
  {
    && env.scan == Scanned
    && (forall id :: id in Eligible(incoming, now) ==> id !in env.lookupFails)
    && (forall id :: id in Matches(incoming, outgoing, now) ==> env.TxnOf(id) == Commits)
  }

  /** What a failed pass reports: a scan failure settles nothing; a lookup
      failure names an eligible txn_id whose lookup failed; a SetReconciled
      failure names a matched txn_id whose lookup answered and whose
      transaction did not commit. The named txn_id is never settled. */
  ghost predicate FailureExplained(e: ReconcileError, settled: set<string>, env: Environment,
                                   incoming: Ledger, outgoing: Ledger, now: Millis)
  {
    match e
    case ScanError(cause) =>
      && settled == {} && env.scan != Scanned
      && cause == (if env.scan == FindFails then FindFailed else DecodeFailed)
    case LookupError(txnId, cause) =>
      && txnId in Eligible(incoming, now)
      && txnId in env.lookupFails && txnId !in settled
      && cause == FindFailed
    case SetReconciledError(txnId, cause) =>
      && txnId in Matches(incoming, outgoing, now)
      && txnId !in env.lookupFails
      && env.TxnOf(txnId) != Commits && txnId !in settled
      && cause == (if env.TxnOf(txnId) == StartFails then SessionStartFailed else TransactionFailed)
  }

  /** Moving one txn_id from pending to processed adds it to the processed
      matches exactly when it is a match. */
  lemma ProcessedStep(all: set<string>, pending: set<string>, m: set<string>, id: string)
    requires id in pending
    ensures (all - (pending - {id})) * m ==
      if id in m && id in all then (all - pending) * m + {id} else (all - pending) * m
  {
  }

  /** The reconciliation engine over one store. */
  class Reconciler {
    const repository: Store

    constructor (repository: Store)
      ensures this.repository == repository
    {
      this.repository := repository;
    }

    /** One pass. `settled` names the pairs it marked reconciled; they stay
        reconciled even when the pass then fails, and nothing else changes. */
    method Reconcile(now: Millis, env: Environment) returns (r: Outcome, ghost settled: set<string>)
      requires repository.Valid()
      modifies repository
      ensures repository.Valid()
      ensures repository.openSessions == old(repository.openSessions)
      ensures settled <= Matches(old(repository.incoming), old(repository.outgoing), now)
      ensures repository.incoming == Settled(old(repository.incoming), settled)
      ensures repository.outgoing == Settled(old(repository.outgoing), settled)
      ensures r.Success? <==> CleanPass(env, old(repository.incoming), old(repository.outgoing), now)
      ensures r.Success? ==> settled == Matches(old(repository.incoming), old(repository.outgoing), now)
      ensures forall id :: id in settled ==> id !in env.lookupFails && env.TxnOf(id) == Commits
      ensures env.scan != Scanned ==> r.Failure? && r.error.ScanError? && settled == {}
      ensures r.Failure? ==> FailureExplained(r.error, settled, env, old(repository.incoming), old(repository.outgoing), now)
    {
      ghost var inc0, out0 := repository.incoming, repository.outgoing;
      ghost var m := Matches(inc0, out0, now);
      settled := {};
      SettledNothing(inc0);
      SettledNothing(out0);
      var scan := repository.FindUnReconciledIncomingTransactions(now, env.scan);
      if scan.Err? {
        assert FailureExplained(ScanError(scan.error), settled, env, inc0, out0, now);
        return Failure(ScanError(scan.error)), settled;
      }
      var snapshot := scan.value;
      assert snapshot == Eligible(inc0, now);
      var pending := snapshot.Keys;
      while pending != {}
        invariant pending <= snapshot.Keys
        invariant settled == (snapshot.Keys - pending) * m
        invariant forall id :: id in snapshot.Keys - pending ==> id !in env.lookupFails
        invariant forall id :: id in settled ==> env.TxnOf(id) == Commits
        invariant repository.incoming == Settled(inc0, settled)
        invariant repository.outgoing == Settled(out0, settled)
        invariant repository.Valid()
        invariant repository.openSessions == old(repository.openSessions)
        decreases pending
      {
        var id :| id in pending;
        var inTxn := snapshot[id];
        var found := repository.FindOutgoingTransactionByID(inTxn.txnId, env.LookupOf(inTxn.txnId));
        if found.Err? {
          if found.error == RecordNotFound {
            // No counterpart (yet): skip silently.
            assert id !in m;
            ProcessedStep(snapshot.Keys, pending, m, id);
            pending := pending - {id};
            continue;
          }
          assert inTxn.txnId == id && id in env.lookupFails && id !in settled;
          assert FailureExplained(LookupError(id, found.error), settled, env, inc0, out0, now);
          return Failure(LookupError(inTxn.txnId, found.error)), settled;
        }
        var outTxn := found.value;
        if inTxn.amount != outTxn.amount || inTxn.currency != outTxn.currency {
          // Amount or currency mismatch: skip.
          assert id !in m;
          ProcessedStep(snapshot.Keys, pending, m, id);
          pending := pending - {id};
          continue;
        }
        assert id in m;
        var status := repository.SetReconciled(inTxn.txnId, env.TxnOf(inTxn.txnId));
        if status.Failed? {
          assert inTxn.txnId == id && id !in env.lookupFails && id !in settled;
          assert FailureExplained(SetReconciledError(id, status.error), settled, env, inc0, out0, now);
          return Failure(SetReconciledError(inTxn.txnId, status.error)), settled;
        }
        SettledStep(inc0, settled, id);
        SettledStep(out0, settled, id);
        ProcessedStep(snapshot.Keys, pending, m, id);
        settled := settled + {id};
        pending := pending - {id};
      }
      r := Success;
    }
  }
}
