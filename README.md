# Reconciler core, modelled in Dafny

The reconciler matches two transaction ledgers: an *incoming* collection and an
*outgoing* collection, joined by `txn_id`. One reconciliation pass does three things.

1. It scans the incoming side for documents that are not yet reconciled and are
   strictly older than ten minutes.
2. For each one, it looks up the outgoing document with the same `txn_id`.
3. When amount and currency agree, it marks both documents reconciled in one
   database transaction.

An incoming document with no counterpart is skipped, and so is a pair whose
amount or currency disagrees. Any other store failure aborts the pass. Pairs
settled earlier in that pass stay settled.

Files:

- `model.dfy` (module `Model`) holds the `Transaction` record.
- `repository.dfy` (module `Repository`) holds the store. It has the
  eligibility filter, the point lookup with not-found, and the one-collection
  `$set` as pure functions over `map<string, Transaction>` ledgers. The class
  `Store` holds both ledgers as fields. Its `SetReconciled` method updates them
  in place, all or nothing.
- `recon.dfy` (module `Recon`) holds the pass. `Reconciler.Reconcile` is a
  loop over the eligible snapshot. It is proved against the specification
  functions `Matches` (the pairs a pass settles) and `Settled` (a ledger with
  given `txn_id`s marked reconciled). The lemmas beside it state pairing,
  mismatch safety and idempotence.
- `seed.dfy` (module `Seed`) holds the sample data set. It gives the outcome of
  one pass and of a second pass over that data.

Modelling choices:

- Ledgers are maps keyed by `txn_id`. The unique index on `txn_id` makes a
  collection a map. `Store.Valid()` says that each document sits under its own
  `txn_id`.
- Time is a parameter `now`, in milliseconds, the unit of a BSON datetime.
- Store failures are oracle parameters:
  - `ScanOutcome` for the eligibility query (the find fails, or decoding fails);
  - `LookupOutcome` for a point lookup (a driver error other than "no documents");
  - `TxnOutcome` for `SetReconciled` (the session fails to start, either update
    fails, or the commit fails).

  A pass reads these from an `Environment`.
- The order in which the cursor returns eligible documents is unspecified. The
  loop picks any pending `txn_id`. Whatever the order, both ledgers end as
  `Settled(old, settled)` with `settled <= Matches(...)`. A successful pass
  settles all of `Matches`, whatever the order. On a failing pass, which pairs
  were settled before the failure does depend on the order.
- `Amount` is a `real` compared only with `==`. The code never computes with it.
- The seed documents carry no `currency` and no `source`. Both sides decode
  them as the empty string, so the seed pairs agree in currency.
- `SetReconciled(txnID)` takes one `txn_id` and filters both collections by it.

## Model

| member | source | states |
|---|---|---|
| `Repository.Eligible` | internal/repository/repository.go:48-51 | holds exactly the documents that are unreconciled and whose timestamp is strictly below `now` minus ten minutes, each as stored |
| `Repository.FreshNeverEligible` | internal/repository/repository.go:48-51 | a document at or after the threshold is never selected, even when a counterpart exists |
| `Repository.EligibleGrowsWithTime` | internal/repository/repository.go:48-51 | a document eligible at `now` is still eligible at any later time, unless it gets reconciled |
| `Repository.FindById` | internal/repository/repository.go:85-94 | returns the document with this `txn_id` when there is one; otherwise returns `RecordNotFound` and no other error |
| `Repository.MarkReconciled` | internal/repository/repository.go:114-117 | the `$set` on one collection: keeps the keys and every field other than `reconciled`; sets the flag on the matching document only; a missing document leaves the ledger unchanged |
| `Repository.MarkReconciledIdempotent` | internal/repository/repository.go:114-117 | applying the `$set` a second time changes nothing |
| `Repository.FindAfterMark` | internal/repository/repository.go:113-120 | a lookup after the update finds the same documents with only the target's flag raised |
| `Repository.Store.constructor` | internal/repository/repository.go:37-45 | a store over two well-keyed collections, with no session open |
| `Repository.Store.FindUnReconciledIncomingTransactions` | internal/repository/repository.go:47-64 | succeeds exactly when the scan succeeds, returning exactly the eligible incoming documents; a find error and a decode error are reported apart |
| `Repository.Store.FindUnReconciledOutgoingTransactions` | internal/repository/repository.go:66-83 | the same filter and the same errors on the outgoing collection |
| `Repository.Store.FindOutgoingTransactionByID` | internal/repository/repository.go:85-94 | a driver failure gives `FindFailed`; otherwise returns the outgoing document with this `txn_id`, or `RecordNotFound` |
| `Repository.Store.FindIncomingTransactionByID` | internal/repository/repository.go:96-105 | the same lookup on the incoming collection |
| `Repository.Store.SetReconciled` | internal/repository/repository.go:107-129 | on commit, both collections become `MarkReconciled` of their old value; on a session-start, update or commit failure, neither collection changes and the matching error is returned; the open-session count is back where it was on every path |
| `Recon.Matches` | internal/recon/recon.go:31-43 | the `txn_id`s a pass settles are eligible incoming documents that also exist on the outgoing side and agree with their counterpart in amount and currency |
| `Recon.Settled` | internal/recon/recon.go:44-46 | keeps the keys and every non-flag field; raises the flag exactly on the given `txn_id`s |
| `Recon.SettledStep` | internal/recon/recon.go:44-46 | settling one more `txn_id` equals one more `SetReconciled` on that side |
| `Recon.SettledKeepsPairing` | internal/recon/recon.go:44-46 | if both sides agree on every shared `txn_id`'s flag, they still agree after any settlement of the same ids on both sides |
| `Recon.SettledSparesUnmatched` | internal/recon/recon.go:32-43 | outgoing-only documents, and eligible pairs whose amount or currency differ, keep every field whatever subset of the matches is settled |
| `Recon.PassResult` | internal/recon/recon.go:26-50 | a pass with no failure keeps both key sets and leaves every matched pair reconciled on both sides |
| `Recon.UnsettledStaysEligible` | internal/recon/recon.go:31-47 | an eligible document that a pass did not settle is eligible again at any later time, so the next pass re-evaluates it |
| `Recon.PassLeavesNoMatch` | internal/recon/recon.go:31-47 | if neither ledger receives new documents, a later pass after a successful pass can settle no `txn_id` that was eligible in the first |
| `Recon.PassIdempotent` | internal/recon/recon.go:26-50 | a second pass at the same time with no new data changes nothing |
| `Recon.Reconciler.constructor` | internal/recon/recon.go:20-24 | the engine works on the given store |
| `Recon.Reconciler.Reconcile` | internal/recon/recon.go:26-50 | both ledgers end as `Settled(old, settled)` with `settled` a subset of `Matches`, so only flags of matched eligible pairs change and no document is added or removed; every settled `txn_id` had a lookup that answered and a transaction that committed; the pass succeeds exactly when the scan succeeds, no eligible lookup fails and every matched commit succeeds, and it then settles all of `Matches`; a scan failure returns `ScanError` and settles nothing, so neither ledger changes; a lookup failure names an eligible `txn_id` whose lookup failed; a `SetReconciled` failure names a matched `txn_id` whose lookup answered and whose transaction failed; either way that `txn_id` stays unsettled; no session stays open |
| `Seed.SeedPass` | cmd/seed/seed.go:14-24 | once the seed documents pass the threshold, the matches are `txn_001` and `txn_003`, both reconciled on both sides; `txn_002` (no counterpart) and `txn_004` (outgoing only) stay unreconciled |
| `Seed.SeedScenario` | cmd/seed/seed.go:14-24 | running the engine twice on the seeded store succeeds both times, with the flags above |

## Left out

- Ticker loop: the periodic loop in `cmd/recon/recon.go` is not modelled. It runs one pass every ten seconds and returns the first pass error, or `ctx.Err()` on cancellation.
- Cancellation: context cancellation inside a pass is not modelled separately. A cancelled store call shows up as one of the store failures above.
- Driver layer: the MongoDB client, database, collection and session wrappers are not modelled. BSON filter construction, cursor decoding and read/write-concern options are not modelled either. Their net effects are the set semantics of the queries and the all-or-nothing update.
- `WithTransaction` retries transient conflicts internally. The model sees only the final outcome of `SetReconciled`.
- Wall-clock time is a parameter. Sub-millisecond precision of `time.Now()` is not modelled, because BSON datetimes hold milliseconds.
- `Amount` is a `float64` in the code. The model compares exact values, so NaN (never equal to itself) and rounding are not modelled.
- Logging of skipped records is not modelled.
- Concurrent writers: inside a pass, the code's lookups and updates read and write the live collections. The model judges `Matches` and `settled` against the ledgers as they were when the pass began, so it assumes nothing else writes to either collection during a pass.
- Missing timestamps: the schema does not require a `timestamp`, and a document without one never matches the `$lt` filter. Every modelled `Transaction` has an integer timestamp, which becomes eligible once it is old enough. `Repository.EligibleGrowsWithTime` and `Recon.UnsettledStaysEligible` therefore hold only for documents that carry a timestamp.
- Outside the engine: process bootstrap, flags, command dispatch, schema and index provisioning, and seeding as I/O are not modelled. The uniqueness of `txn_id` is used only to justify keyed maps. The seed data appears only as concrete ledgers.
- `ErrAmountMismatch` and `ErrOutgoingTransactionNotFound` are declared in `internal/errors/reconcile/errors.go` but never returned. The model does not carry them.
