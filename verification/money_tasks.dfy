/**
 * The periodic tasks of the money app: the sweep over PENDING rows and the
 * bank-directory synchronisation. Both only log what goes wrong.
 *
 * The replies of the gateway are inputs: `replies(ref)` is the verification
 * answer for a reference; `transferOutcome(ref)` is the exception, if any,
 * raised by the withdrawal check `verify_transfer`, whose own effect on the
 * ledger is not part of this model.
 */
module MoneyTasks {
  import opened Wrappers
  import opened MoneyModels
  import opened ChapaService

  datatype LogLevel = Info | Error
  datatype LogLine = LogLine(level: LogLevel, text: string)

  /** The exception raised when no active `chapa` gateway is configured. */
  const NoGateway := "PaymentGateway matching query does not exist."

  /** A row the sweep verifies with the gateway: a PENDING deposit. */
  predicate SweptDeposit(t: Transaction) {
    t.status == Pending && t.kind == Deposit
  }

  /** A row after the sweep. */
  function SweptRow(t: Transaction, replies: string -> VerifyReply): Transaction {
    if SweptDeposit(t) then VerifiedRow(t, replies(t.reference)) else t
  }

  /** The ledger after the sweep: every row on its own. */
  function SweepLedger(txns: seq<Transaction>, replies: string -> VerifyReply): (txns': seq<Transaction>)
    ensures |txns'| == |txns|
    ensures forall j | 0 <= j < |txns| :: txns'[j] == SweptRow(txns[j], replies)
  {
    seq(|txns|, j requires 0 <= j < |txns| => SweptRow(txns[j], replies))
  }

  /** What the sweep credits wallet `w` for row `t`. */
  function RowSweepCredit(t: Transaction, replies: string -> VerifyReply, w: Wallet): real {
    if SweptDeposit(t) && t.wallet == w then RowCredit(t, replies(t.reference)) else 0.0
  }

  /** What the sweep credits wallet `w` for the first `n` rows. */
  function SweepCredit(txns: seq<Transaction>, replies: string -> VerifyReply, w: Wallet, n: nat): real
    requires n <= |txns|
  {
    if n == 0 then 0.0
    else SweepCredit(txns, replies, w, n - 1) + RowSweepCredit(txns[n - 1], replies, w)
  }

  /** The error line for row `t`: a pending withdrawal whose check raised. */
  function RowLog(t: Transaction, transferOutcome: string -> Option<string>): seq<LogLine> {
    if t.status == Pending && t.kind == Withdrawal && transferOutcome(t.reference).Some?
    then [LogLine(Error, "Error verifying transaction " + t.reference + ": " + transferOutcome(t.reference).value)]
    else []
  }

  /** The error lines of the sweep for the first `n` rows, in row order. */
  function SweepLog(txns: seq<Transaction>, transferOutcome: string -> Option<string>, n: nat): (log: seq<LogLine>)
    requires n <= |txns|
    ensures |log| <= n
    ensures forall l | l in log :: l.level == Error
  {
    if n == 0 then []
    else SweepLog(txns, transferOutcome, n - 1) + RowLog(txns[n - 1], transferOutcome)
  }

  /** One iteration of the sweep on row `i`, which still holds `tx`, the row as it was read. */
  method VisitRow(ledger: Ledger, tx: Transaction, i: nat,
                  replies: string -> VerifyReply, transferOutcome: string -> Option<string>)
    returns (lines: seq<LogLine>)
    requires ledger.Valid() && i < |ledger.transactions| && ledger.transactions[i] == tx
    modifies ledger, tx.wallet
    ensures ledger.Valid()
    ensures ledger.transactions == old(ledger.transactions)[i := SweptRow(tx, replies)]
    ensures lines == RowLog(tx, transferOutcome)
    ensures tx.wallet.lockedBalance == old(tx.wallet.lockedBalance)
    ensures tx.wallet.balance == old(tx.wallet.balance) + RowSweepCredit(tx, replies, tx.wallet)
  {
    lines := [];
    if tx.status == Pending {
      if tx.kind == Deposit {
        FindReferenceUnique(ledger.transactions, i);
        var _, _ := VerifyTransaction(ledger, tx.reference, replies(tx.reference));
      } else if tx.kind == Withdrawal {
        match transferOutcome(tx.reference) {
          case Some(e) =>
            lines := [LogLine(Error, "Error verifying transaction " + tx.reference + ": " + e)];
          case None =>
        }
      }
    }
  }

  /**
   * `verify_pending_transfers`: with no active gateway the task fails before
   * visiting anything. Otherwise every row that was PENDING when the task
   * started is visited once; deposits are verified, withdrawals checked, and an
   * error on one row is logged and the loop goes on.
   */
  method VerifyPendingTransfers(ledger: Ledger, gatewayActive: bool,
                                replies: string -> VerifyReply, transferOutcome: string -> Option<string>)
    returns (r: Result<seq<LogLine>, string>)
    requires ledger.Valid()
    modifies ledger, WalletsOf(ledger.transactions)
    ensures ledger.Valid()
    ensures !gatewayActive ==> r == Err(NoGateway) && ledger.transactions == old(ledger.transactions)
    ensures gatewayActive ==>
      && r == Ok(SweepLog(old(ledger.transactions), transferOutcome, |old(ledger.transactions)|))
      && ledger.transactions == SweepLedger(old(ledger.transactions), replies)
    ensures forall k | 0 <= k < |old(ledger.transactions)| ::
      var w := old(ledger.transactions)[k].wallet;
      && w.lockedBalance == old(w.lockedBalance)
      && w.balance == old(w.balance)
         + (if gatewayActive then SweepCredit(old(ledger.transactions), replies, w, |old(ledger.transactions)|) else 0.0)
  {
    if !gatewayActive {
      return Err(NoGateway);
    }
    var log := Sweep(ledger, replies, transferOutcome);
    r := Ok(log);
  }

  /** The loop of the sweep: every row read before the loop is visited once, in order. */
  method Sweep(ledger: Ledger, replies: string -> VerifyReply, transferOutcome: string -> Option<string>)
    returns (log: seq<LogLine>)
    requires ledger.Valid()
    modifies ledger, WalletsOf(ledger.transactions)
    ensures ledger.Valid()
    ensures log == SweepLog(old(ledger.transactions), transferOutcome, |old(ledger.transactions)|)
    ensures ledger.transactions == SweepLedger(old(ledger.transactions), replies)
    ensures forall k | 0 <= k < |old(ledger.transactions)| ::
      var w := old(ledger.transactions)[k].wallet;
      && w.lockedBalance == old(w.lockedBalance)
      && w.balance == old(w.balance) + SweepCredit(old(ledger.transactions), replies, w, |old(ledger.transactions)|)
  {
    ghost var txns0 := ledger.transactions;
    var pending := ledger.transactions;   // the filtered rows are read once, before the loop
    log := [];
    var i := 0;
    SweepPrefixNone(txns0, replies);
    while i < |pending|
      invariant 0 <= i <= |pending| && pending == txns0
      invariant ledger.Valid() && ledger.transactions == SweepPrefix(txns0, replies, i)
      invariant log == SweepLog(txns0, transferOutcome, i)
      invariant forall k | 0 <= k < |txns0| ::
        var w := txns0[k].wallet;
        && w.lockedBalance == old(w.lockedBalance)
        && w.balance == old(w.balance) + SweepCredit(txns0, replies, w, i)
    {
      assert pending[i].wallet in WalletsOf(txns0);
      log := SweepStep(ledger, pending, i, replies, transferOutcome, log);
      i := i + 1;
    }
    SweepPrefixAll(txns0, replies);
  }

  /** The body of the loop of the sweep: visits row `i` and appends its line to the log. */
  method SweepStep(ledger: Ledger, pending: seq<Transaction>, i: nat,
                   replies: string -> VerifyReply, transferOutcome: string -> Option<string>, log: seq<LogLine>)
    returns (log': seq<LogLine>)
    requires i < |pending| && ledger.Valid() && ledger.transactions == SweepPrefix(pending, replies, i)
    requires log == SweepLog(pending, transferOutcome, i)
    modifies ledger, pending[i].wallet
    ensures ledger.Valid() && ledger.transactions == SweepPrefix(pending, replies, i + 1)
    ensures log' == SweepLog(pending, transferOutcome, i + 1)
    ensures forall k | 0 <= k < |pending| ::
      var w := pending[k].wallet;
      && w.lockedBalance == old(w.lockedBalance)
      && w.balance == old(w.balance) + RowSweepCredit(pending[i], replies, w)
  {
    SweepPrefixStep(pending, replies, i);
    SweepLogStep(pending, transferOutcome, i);
    var lines := VisitRow(ledger, pending[i], i, replies, transferOutcome);
    log' := log + lines;
  }

  /** The table part-way through the sweep: the first `n` rows swept, the rest as they were read. */
  function SweepPrefix(txns: seq<Transaction>, replies: string -> VerifyReply, n: nat): (r: seq<Transaction>)
    requires n <= |txns|
    ensures |r| == |txns|
    ensures forall j | n <= j < |txns| :: r[j] == txns[j]
  {
    SweepLedger(txns[..n], replies) + txns[n..]
  }

  /** Sweeping row `n` extends the swept prefix by one. */
  lemma SweepPrefixStep(txns: seq<Transaction>, replies: string -> VerifyReply, n: nat)
    requires n < |txns|
    ensures SweepPrefix(txns, replies, n)[n := SweptRow(txns[n], replies)] == SweepPrefix(txns, replies, n + 1)
  {
    var a := SweepPrefix(txns, replies, n)[n := SweptRow(txns[n], replies)];
    var b := SweepPrefix(txns, replies, n + 1);
    forall j | 0 <= j < |txns|
      ensures a[j] == b[j]
    {
      if j < n {
        assert txns[..n][j] == txns[j] == txns[..n + 1][j];
      } else if j == n {
        assert txns[..n + 1][n] == txns[n];
      }
    }
  }

  /** Visiting row `n` appends its line, if any, to the log. */
  lemma SweepLogStep(txns: seq<Transaction>, transferOutcome: string -> Option<string>, n: nat)
    requires n < |txns|
    ensures SweepLog(txns, transferOutcome, n + 1) == SweepLog(txns, transferOutcome, n) + RowLog(txns[n], transferOutcome)
  {
  }

  /** Before the sweep, the table is as it was read. */
  lemma SweepPrefixNone(txns: seq<Transaction>, replies: string -> VerifyReply)
    ensures SweepPrefix(txns, replies, 0) == txns
  {
    assert txns[0..] == txns;
  }

  /** Once every row is swept, the table is the swept table. */
  lemma SweepPrefixAll(txns: seq<Transaction>, replies: string -> VerifyReply)
    ensures SweepPrefix(txns, replies, |txns|) == SweepLedger(txns, replies)
  {
    assert txns[..|txns|] == txns;
    assert txns[|txns|..] == [];
  }

  /** A row the first sweep settled is not visited again. */
  lemma {:induction false} SecondSweepCreditsNothing(txns: seq<Transaction>, replies: string -> VerifyReply,
                                                     replies2: string -> VerifyReply, w: Wallet, n: nat)
    requires n <= |txns|
    requires forall j | 0 <= j < n && SweptDeposit(txns[j]) :: !replies(txns[j].reference).VerifyRaised?
    ensures SweepCredit(SweepLedger(txns, replies), replies2, w, n) == 0.0
  {
    if n > 0 {
      SecondSweepCreditsNothing(txns, replies, replies2, w, n - 1);
    }
  }

  /** The credit of a sweep is the amount of every pending deposit of the wallet that the gateway confirmed. */
  lemma {:induction false} SweepCreditIsConfirmedDeposits(txns: seq<Transaction>, replies: string -> VerifyReply, w: Wallet, n: nat)
    requires n <= |txns|
    requires forall j | 0 <= j < n :: txns[j].amount >= 0.0
    ensures 0.0 <= SweepCredit(txns, replies, w, n)
    ensures (forall j | 0 <= j < n && txns[j].wallet == w && SweptDeposit(txns[j]) :: !replies(txns[j].reference).VerifySucceeded?)
            ==> SweepCredit(txns, replies, w, n) == 0.0
    ensures (exists j | 0 <= j < n :: && txns[j].wallet == w && SweptDeposit(txns[j])
                                       && replies(txns[j].reference).VerifySucceeded? && txns[j].amount > 0.0)
            ==> SweepCredit(txns, replies, w, n) > 0.0
  {
    if n > 0 {
      SweepCreditIsConfirmedDeposits(txns, replies, w, n - 1);
      var t := txns[n - 1];
      if t.wallet == w && SweptDeposit(t) && replies(t.reference).VerifySucceeded? && t.amount > 0.0 {
        assert RowSweepCredit(t, replies, w) == t.amount;
      }
    }
  }

  // ---------------------------------------------------------------------------
  // Bank synchronisation
  // ---------------------------------------------------------------------------

  /** What the service's bank synchronisation did: returned a flag and a message, or raised. */
  datatype SyncOutcome = SyncReturned(success: bool, message: string) | SyncRaised(error: string)

  /** `sync_chapa_banks`: every outcome, including an exception, ends in one log line and never escapes. */
  function SyncChapaBanks(outcome: SyncOutcome): (line: LogLine)
    ensures line.level == Info <==> outcome.SyncReturned? && outcome.success
  {
    match outcome
    case SyncReturned(true, m) => LogLine(Info, "Successfully synced Chapa banks: " + m)
    case SyncReturned(false, m) => LogLine(Error, "Failed to sync Chapa banks: " + m)
    case SyncRaised(e) => LogLine(Error, "Error syncing Chapa banks: " + e)
  }
}
