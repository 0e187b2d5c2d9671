/**
 * The ledger store the reconciler relies on: the two transaction
 * collections, the eligibility queries, the point lookups and the
 * transactional update that marks both sides of a pair reconciled.
 */
module Repository {
  import opened Model

  /** The staleness threshold of the eligibility queries: ten minutes. */
  const StalenessMs: int := 10 * 60 * 1000

  /** One collection, keyed by `txn_id` (the field carries a unique index). */
  type Ledger = map<string, Transaction>

  /** The failures the store reports to its callers. */
  datatype StoreError =
    | RecordNotFound      // no document carries the requested txn_id
    | FindFailed          // the driver's Find or FindOne returned another error
    | DecodeFailed        // the cursor could not decode the documents it found
    | SessionStartFailed  // no session could be started
    | TransactionFailed   // an update inside the transaction, or its commit, failed

  datatype Result<T> = Ok(value: T) | Err(error: StoreError)

  datatype Status = Done | Failed(error: StoreError)

  /** What the database does when an eligibility query is sent to it. */
  datatype ScanOutcome = Scanned | FindFails | DecodeFails

  /** What the database does when a point lookup is sent to it. */
  datatype LookupOutcome = Answered | LookupFails

  /** How a reconciled-flag transaction ends: committed, or failed at one of its steps. */
  datatype TxnOutcome =
    | Commits
    | StartFails
    | IncomingUpdateFails
    | OutgoingUpdateFails
    | CommitFails

  /** Every document sits under its own txn_id. */
  predicate WellKeyed(ledger: Ledger)
  {
    forall id :: id in ledger ==> ledger[id].txnId == id
  }

  /** The filter of the eligibility queries: not yet reconciled and strictly
      older than `now` minus the staleness threshold. */
  predicate IsEligible(t: Transaction, now: Millis)
  {
    !t.reconciled && t.timestamp < now - StalenessMs
  }

  /** The documents of `ledger` that the eligibility filter selects. */
  function Eligible(ledger: Ledger, now: Millis): (r: Ledger)
    ensures forall id :: id in r <==> id in ledger && IsEligible(ledger[id], now)
    ensures forall id :: id in r ==> r[id] == ledger[id]
    ensures WellKeyed(ledger) ==> WellKeyed(r)
  {
    map id | id in ledger && IsEligible(ledger[id], now) :: ledger[id]
  }

  /** A document at or after the threshold is never selected, whatever else holds. */
  lemma FreshNeverEligible(ledger: Ledger, now: Millis, id: string)
    requires id in ledger && ledger[id].timestamp >= now - StalenessMs
    ensures id !in Eligible(ledger, now)
  {
  }

  /** A document that is eligible now stays eligible later, as long as it is not reconciled. */
  lemma EligibleGrowsWithTime(ledger: Ledger, now: Millis, later: Millis)
    requires now <= later
    ensures Eligible(ledger, now).Keys <= Eligible(ledger, later).Keys
  {
  }

  /** The point lookup by txn_id, with not-found as its own error. */
  function FindById(ledger: Ledger, txnId: string): (r: Result<Transaction>)
    ensures r.Ok? <==> txnId in ledger
    ensures r.Ok? ==> r.value == ledger[txnId]
    ensures r.Err? ==> r.error == RecordNotFound
  {
    if txnId in ledger then Ok(ledger[txnId]) else Err(RecordNotFound)
  }

  /** The effect of `UpdateOne({txn_id: id}, {$set: {reconciled: true}})` on one
      collection. A missing document makes it match nothing, which is no error. */
  function MarkReconciled(ledger: Ledger, txnId: string): (r: Ledger)
    ensures r.Keys == ledger.Keys
    ensures forall id :: id in r ==> SameExceptFlag(ledger[id], r[id])
    ensures forall id :: id in r ==> r[id].reconciled == (ledger[id].reconciled || id == txnId)
    ensures WellKeyed(ledger) ==> WellKeyed(r)
  {
    if txnId in ledger then ledger[txnId := ledger[txnId].(reconciled := true)] else ledger
  }

  /** Setting the flag twice is setting it once: `$set` is idempotent. */
  lemma MarkReconciledIdempotent(ledger: Ledger, txnId: string)
    ensures MarkReconciled(MarkReconciled(ledger, txnId), txnId) == MarkReconciled(ledger, txnId)
  {
  }

  /** A lookup after the update finds the same document, now reconciled. */
  lemma FindAfterMark(ledger: Ledger, txnId: string, other: string)
    ensures FindById(MarkReconciled(ledger, txnId), other).Ok? == FindById(ledger, other).Ok?
    ensures FindById(ledger, other).Ok? ==>
      var r := FindById(MarkReconciled(ledger, txnId), other).value;
      SameExceptFlag(FindById(ledger, other).value, r) &&
      r.reconciled == (FindById(ledger, other).value.reconciled || other == txnId)
  {
  }

  /** The two collections, as the store holds them. */
  class Store {
    var incoming: Ledger
    var outgoing: Ledger
    /** Sessions started and not yet ended. */
    ghost var openSessions: nat

    ghost predicate Valid()
      reads this
    {
      WellKeyed(incoming) && WellKeyed(outgoing)
    }

    constructor (incoming: Ledger, outgoing: Ledger)
      requires WellKeyed(incoming) && WellKeyed(outgoing)
      ensures Valid()
      ensures this.incoming == incoming && this.outgoing == outgoing
      ensures openSessions == 0
    {
      this.incoming := incoming;
      this.outgoing := outgoing;
      openSessions := 0;
    }

    /** The unreconciled incoming documents older than the staleness threshold. */
    function FindUnReconciledIncomingTransactions(now: Millis, scan: ScanOutcome): (r: Result<Ledger>)
      reads this
      ensures r.Ok? <==> scan == Scanned
      ensures scan == FindFails ==> r == Err(FindFailed)
      ensures scan == DecodeFails ==> r == Err(DecodeFailed)
      ensures r.Ok? ==> forall id :: id in r.value <==> id in incoming && IsEligible(incoming[id], now)
      ensures r.Ok? ==> forall id :: id in r.value ==> r.value[id] == incoming[id]
    {
      match scan
      case Scanned => Ok(Eligible(incoming, now))
      case FindFails => Err(FindFailed)
      case DecodeFails => Err(DecodeFailed)
    }

    /** The same query on the outgoing collection. */
    function FindUnReconciledOutgoingTransactions(now: Millis, scan: ScanOutcome): (r: Result<Ledger>)
      reads this
      ensures r.Ok? <==> scan == Scanned
      ensures scan == FindFails ==> r == Err(FindFailed)
      ensures scan == DecodeFails ==> r == Err(DecodeFailed)
      ensures r.Ok? ==> forall id :: id in r.value <==> id in outgoing && IsEligible(outgoing[id], now)
      ensures r.Ok? ==> forall id :: id in r.value ==> r.value[id] == outgoing[id]
    {
      match scan
      case Scanned => Ok(Eligible(outgoing, now))
      case FindFails => Err(FindFailed)
      case DecodeFails => Err(DecodeFailed)
    }

    /** The outgoing document with this txn_id; not-found is kept apart from other failures. */
    function FindOutgoingTransactionByID(txnId: string, lookup: LookupOutcome): (r: Result<Transaction>)
      reads this
      ensures lookup == LookupFails ==> r == Err(FindFailed)
      ensures lookup == Answered && txnId in outgoing ==> r == Ok(outgoing[txnId])
      ensures lookup == Answered && txnId !in outgoing ==> r == Err(RecordNotFound)
    {
      if lookup == LookupFails then Err(FindFailed) else FindById(outgoing, txnId)
    }

    /** The incoming document with this txn_id; not-found is kept apart from other failures. */
    function FindIncomingTransactionByID(txnId: string, lookup: LookupOutcome): (r: Result<Transaction>)
      reads this
      ensures lookup == LookupFails ==> r == Err(FindFailed)
      ensures lookup == Answered && txnId in incoming ==> r == Ok(incoming[txnId])
      ensures lookup == Answered && txnId !in incoming ==> r == Err(RecordNotFound)
    {
      if lookup == LookupFails then Err(FindFailed) else FindById(incoming, txnId)
    }

    /** Marks both documents with this txn_id reconciled inside one transaction.
        Either both collections take the update or neither does, and the
        session is ended on every path after it was started. */
    method SetReconciled(txnId: string, outcome: TxnOutcome) returns (s: Status)
      requires Valid()
      modifies this
      ensures Valid()
      ensures openSessions == old(openSessions)
      ensures s.Done? <==> outcome == Commits
      ensures outcome == StartFails ==> s == Failed(SessionStartFailed)
      ensures outcome != Commits && outcome != StartFails ==> s == Failed(TransactionFailed)
      ensures s.Done? ==> incoming == MarkReconciled(old(incoming), txnId)
      ensures s.Done? ==> outgoing == MarkReconciled(old(outgoing), txnId)
      ensures s.Failed? ==> incoming == old(incoming) && outgoing == old(outgoing)
    {
      if outcome == StartFails {
        return Failed(SessionStartFailed);
      }
      openSessions := openSessions + 1;
      // The transaction works on its own snapshot; only a commit publishes it.
      var stagedIn, stagedOut := incoming, outgoing;
      var aborted := false;
      if outcome == IncomingUpdateFails {
        aborted := true;
      } else {
        stagedIn := MarkReconciled(stagedIn, txnId);
        if outcome == OutgoingUpdateFails {
          aborted := true;
        } else {
          stagedOut := MarkReconciled(stagedOut, txnId);
          aborted := outcome == CommitFails;
        }
      }
      if !aborted {
        incoming, outgoing := stagedIn, stagedOut;
      }
      // The deferred EndSession.
      openSessions := openSessions - 1;
      s := if aborted then Failed(TransactionFailed) else Done;
    }
  }
}
