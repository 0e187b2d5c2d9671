/**
 * The sample data set: three incoming and three outgoing documents, all
 * stamped one day before seeding, without currency or source (both read
 * back as the empty string on either side).
 */
module Seed {
  import opened Model
  import opened Repository
  import opened Recon

  const DayMs: int := 24 * 60 * 60 * 1000

  function Doc(txnId: string, amount: Amount, seededAt: Millis): Transaction
  {
    Transaction(txnId, amount, "", seededAt - DayMs, "", false)
  }

  function SeedIncoming(seededAt: Millis): (r: Ledger)
    ensures WellKeyed(r)
  {
    map["txn_001" := Doc("txn_001", 100.0, seededAt),
        "txn_002" := Doc("txn_002", 250.0, seededAt),
        "txn_003" := Doc("txn_003", 500.0, seededAt)]
  }

  function SeedOutgoing(seededAt: Millis): (r: Ledger)
    ensures WellKeyed(r)
  {
    map["txn_001" := Doc("txn_001", 100.0, seededAt),
        "txn_003" := Doc("txn_003", 500.0, seededAt),
        "txn_004" := Doc("txn_004", 300.0, seededAt)]
  }

  /** A pass run once the seed documents are past the staleness threshold
      settles txn_001 and txn_003 on both sides and nothing else. */
  lemma SeedPass(seededAt: Millis, now: Millis)
    requires seededAt - DayMs < now - StalenessMs
    ensures Matches(SeedIncoming(seededAt), SeedOutgoing(seededAt), now) == {"txn_001", "txn_003"}
    ensures var (i, o) := PassResult(SeedIncoming(seededAt), SeedOutgoing(seededAt), now);
      && i.Keys == {"txn_001", "txn_002", "txn_003"}
      && o.Keys == {"txn_001", "txn_003", "txn_004"}
      && i["txn_001"].reconciled && o["txn_001"].reconciled
      && i["txn_003"].reconciled && o["txn_003"].reconciled
      && !i["txn_002"].reconciled
      && !o["txn_004"].reconciled
  {
    var inc, out := SeedIncoming(seededAt), SeedOutgoing(seededAt);
    assert Eligible(inc, now) == inc;
    assert Matches(inc, out, now) == {"txn_001", "txn_003"};
  }

  /** The seed scenario against the store: a first pass settles txn_001 and
      txn_003, a second pass at the same time finds nothing more to do. */
  method SeedScenario(seededAt: Millis, now: Millis) returns (first: Outcome, second: Outcome, incoming: Ledger, outgoing: Ledger)
    requires seededAt - DayMs < now - StalenessMs
    ensures first == Success && second == Success
    ensures incoming.Keys == {"txn_001", "txn_002", "txn_003"}
    ensures outgoing.Keys == {"txn_001", "txn_003", "txn_004"}
    ensures incoming["txn_001"].reconciled && incoming["txn_003"].reconciled && !incoming["txn_002"].reconciled
    ensures outgoing["txn_001"].reconciled && outgoing["txn_003"].reconciled && !outgoing["txn_004"].reconciled
  {
    var inc0, out0 := SeedIncoming(seededAt), SeedOutgoing(seededAt);
    var store := new Store(inc0, out0);
    var engine := new Reconciler(store);
    var calm := Environment(Scanned, {}, map[]);
    SeedPass(seededAt, now);
    ghost var pass := PassResult(inc0, out0, now);
    ghost var settled;
    first, settled := engine.Reconcile(now, calm);
    assert CleanPass(calm, inc0, out0, now);
    assert store.incoming == pass.0 && store.outgoing == pass.1;
    PassIdempotent(inc0, out0, now);
    second, settled := engine.Reconcile(now, calm);
    assert CleanPass(calm, pass.0, pass.1, now);
    SettledNothing(pass.0);
    SettledNothing(pass.1);
    incoming, outgoing := store.incoming, store.outgoing;
    assert incoming == pass.0 && outgoing == pass.1;
  }
}
