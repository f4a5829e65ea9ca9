/**
 * Gateway bookkeeping for Chapa deposits. The HTTP exchange with the gateway is
 * an input: the reply to the initialisation call and the reply to the
 * verification call. What is modelled is the local change: the PENDING row
 * written before the call, its FAILED ending, and the one-off credit when the
 * gateway confirms a payment.
 */
module ChapaService {
  import opened Wrappers
  import opened MoneyModels

  /** The answer to `POST /transaction/initialize`. */
  datatype InitReply =
    | InitSucceeded(checkoutUrl: string)   // status "success"
    | InitRejected(message: string)        // any other status, with the reply's message
    | InitRaised(error: string)            // HTTP error, malformed body, network failure

  /** The answer to `GET /transaction/verify/<ref>`. */
  datatype VerifyReply =
    | VerifySucceeded(gatewayReference: Option<string>)
    | VerifyNotSucceeded
    | VerifyRaised(error: string)

  /** The row written before the gateway is called. */
  function PendingDeposit(w: Wallet, amount: real, txRef: string): (t: Transaction)
    ensures t.status == Pending && t.kind == Deposit && t.reference == txRef
    ensures t.wallet == w && t.amount == amount
  {
    Transaction(w, amount, Deposit, Pending, txRef, None, "Deposit via Chapa",
                None, None, Some("chapa"), None, None)
  }

  /** The text of the exception that leaves `initialize_transaction` on a failed initialisation. */
  function InitError(reply: InitReply): string
    requires !reply.InitSucceeded?
  {
    match reply
    case InitRejected(m) => "Chapa initialization failed: " + m
    case InitRaised(e) => e
  }

  /**
   * `initialize_transaction`: a PENDING deposit row is appended before the call;
   * on success the checkout URL and that row are returned, otherwise the row is
   * marked FAILED with the outer handler's description and the error goes back
   * to the caller. The wallet is never touched.
   */
  method InitializeTransaction(wallet: Wallet, ledger: Ledger, amount: real, txRef: string, reply: InitReply)
    returns (r: Result<(string, Transaction), string>)
    requires ledger.Valid() && txRef !in References(ledger.transactions)
    modifies ledger
    ensures ledger.Valid()
    ensures wallet.Snapshot() == old(wallet.Snapshot())
    ensures |ledger.transactions| == |old(ledger.transactions)| + 1
    ensures ledger.transactions[..|old(ledger.transactions)|] == old(ledger.transactions)
    ensures reply.InitSucceeded? ==>
      && r == Ok((reply.checkoutUrl, PendingDeposit(wallet, amount, txRef)))
      && ledger.transactions[|old(ledger.transactions)|] == PendingDeposit(wallet, amount, txRef)
    ensures !reply.InitSucceeded? ==>
      && r == Err(InitError(reply))
      && ledger.transactions[|old(ledger.transactions)|]
         == PendingDeposit(wallet, amount, txRef).(status := Failed, description := "Chapa init error: " + InitError(reply))
  {
    var txn := PendingDeposit(wallet, amount, txRef);
    AppendFreshKeepsUnique(ledger.transactions, txn);
    ledger.transactions := ledger.transactions + [txn];
    var k := |ledger.transactions| - 1;
    match reply {
      case InitSucceeded(url) =>
        return Ok((url, txn));
      case InitRejected(m) =>
        // the inner handler's description is overwritten by the outer one below
        ledger.transactions := ledger.transactions[k := txn.(status := Failed, description := "Chapa init failed: " + m)];
        var e := "Chapa initialization failed: " + m;
        ledger.transactions := ledger.transactions[k := txn.(status := Failed, description := "Chapa init error: " + e)];
        r := Err(e);
      case InitRaised(e) =>
        ledger.transactions := ledger.transactions[k := txn.(status := Failed, description := "Chapa init error: " + e)];
        r := Err(e);
    }
    UpdateKeepsReferenceSet(old(ledger.transactions) + [txn], k, ledger.transactions[k]);
  }

  // ---------------------------------------------------------------------------
  // Verification
  // ---------------------------------------------------------------------------

  /** A found row after the verification reply. */
  function VerifiedRow(t: Transaction, reply: VerifyReply): (t': Transaction)
    ensures t'.reference == t.reference && t'.wallet == t.wallet && t'.amount == t.amount && t'.kind == t.kind
    ensures reply.VerifySucceeded? ==> t'.status == Success
    ensures reply.VerifyNotSucceeded? ==> t'.status == Failed
    ensures reply.VerifyRaised? ==> t' == t
  {
    match reply
    case VerifySucceeded(g) =>
      if t.status != Success then t.(status := Success, externalReference := g) else t
    case VerifyNotSucceeded => t.(status := Failed)
    case VerifyRaised(_) => t
  }

  /** What a found row's wallet is credited: the amount, once, when the row first becomes SUCCESS. */
  function RowCredit(t: Transaction, reply: VerifyReply): (c: real)
    ensures c != 0.0 ==> reply.VerifySucceeded? && t.status != Success && c == t.amount
  {
    if reply.VerifySucceeded? && t.status != Success then t.amount else 0.0
  }

  /** The pair `verify_transaction` returns. The HTTP failure comes before the lookup. */
  function VerifyAnswer(found: bool, reply: VerifyReply): (a: (bool, string))
    ensures a.0 <==> found && reply.VerifySucceeded?
  {
    match reply
    case VerifyRaised(e) => (false, e)
    case _ =>
      if !found then (false, "Transaction not found")
      else if reply.VerifySucceeded? then (true, "Transaction verified successfully")
      else (false, "Transaction verification failed")
  }

  /** The ledger after verifying `txRef`. */
  function VerifyLedger(txns: seq<Transaction>, txRef: string, reply: VerifyReply): (txns': seq<Transaction>)
    ensures |txns'| == |txns|
    ensures txRef !in References(txns) ==> txns' == txns
    ensures forall i | 0 <= i < |txns| :: txns'[i].reference == txns[i].reference
  {
    match FindReference(txns, txRef)
    case None => txns
    case Some(k) => txns[k := VerifiedRow(txns[k], reply)]
  }

  /** The credit one verification adds, over all wallets. */
  function VerifyCredit(txns: seq<Transaction>, txRef: string, reply: VerifyReply): real {
    match FindReference(txns, txRef)
    case None => 0.0
    case Some(k) => RowCredit(txns[k], reply)
  }

  /** The wallet verification may touch: the one of the row the reference finds, if any. */
  function TouchedWallets(txns: seq<Transaction>, txRef: string): (ws: set<Wallet>)
    ensures |ws| <= 1
  {
    match FindReference(txns, txRef)
    case None => {}
    case Some(k) => {txns[k].wallet}
  }

  /**
   * `verify_transaction`: looks the row up by reference; a confirmed payment on
   * a row not yet SUCCESS marks it SUCCESS, stores the gateway's reference and
   * credits the row's wallet; any other answer marks it FAILED. The row's
   * type is not looked at.
   */
  method VerifyTransaction(ledger: Ledger, txRef: string, reply: VerifyReply) returns (ok: bool, message: string)
    requires ledger.Valid()
    modifies ledger, TouchedWallets(ledger.transactions, txRef)
    ensures ledger.Valid()
    ensures (ok, message) == VerifyAnswer(txRef in References(old(ledger.transactions)), reply)
    ensures ledger.transactions == VerifyLedger(old(ledger.transactions), txRef, reply)
    ensures match FindReference(old(ledger.transactions), txRef)
      case None => true
      case Some(k) =>
        var w := old(ledger.transactions)[k].wallet;
        && w.lockedBalance == old(w.lockedBalance)
        && w.balance == old(w.balance) + RowCredit(old(ledger.transactions)[k], reply)
  {
    if reply.VerifyRaised? {
      return false, reply.error;
    }
    var found := FindReference(ledger.transactions, txRef);
    if found.None? {
      return false, "Transaction not found";
    }
    var k := found.value;
    var txn := ledger.transactions[k];
    if reply.VerifySucceeded? {
      if txn.status != Success {
        UpdateKeepsReferenceSet(ledger.transactions, k, txn.(status := Success, externalReference := reply.gatewayReference));
        ledger.transactions := ledger.transactions[k := txn.(status := Success, externalReference := reply.gatewayReference)];
        var wallet := txn.wallet;
        wallet.balance := wallet.balance + txn.amount;
      }
      return true, "Transaction verified successfully";
    } else {
      UpdateKeepsReferenceSet(ledger.transactions, k, txn.(status := Failed));
      ledger.transactions := ledger.transactions[k := txn.(status := Failed)];
      return false, "Transaction verification failed";
    }
  }

  // ---------------------------------------------------------------------------
  // Repeated verification of one reference
  // ---------------------------------------------------------------------------

  /** The total credit of a series of verification replies for one reference. */
  function ReplayCredit(txns: seq<Transaction>, txRef: string, replies: seq<VerifyReply>): real
    decreases |replies|
  {
    if replies == [] then 0.0
    else VerifyCredit(txns, txRef, replies[0]) + ReplayCredit(VerifyLedger(txns, txRef, replies[0]), txRef, replies[1..])
  }

  /** Whether some reply in the series confirms the payment. */
  predicate SomeSuccess(replies: seq<VerifyReply>) {
    exists i :: 0 <= i < |replies| && replies[i].VerifySucceeded?
  }

  /** Verification changes the row it finds and no other. */
  lemma VerifyLedgerRow(txns: seq<Transaction>, txRef: string, reply: VerifyReply, k: nat)
    requires FindReference(txns, txRef) == Some(k)
    ensures FindReference(VerifyLedger(txns, txRef, reply), txRef) == Some(k)
    ensures VerifyLedger(txns, txRef, reply)[k] == VerifiedRow(txns[k], reply)
  {
    UpdateKeepsLookup(txns, k, VerifiedRow(txns[k], reply), txRef);
  }

  /** Some reply of a series confirms exactly when its first one does or some later one does. */
  lemma SomeSuccessCons(replies: seq<VerifyReply>)
    requires replies != []
    ensures SomeSuccess(replies) <==> replies[0].VerifySucceeded? || SomeSuccess(replies[1..])
  {
    if SomeSuccess(replies) && !replies[0].VerifySucceeded? {
      var i :| 0 <= i < |replies| && replies[i].VerifySucceeded?;
      assert replies[1..][i - 1] == replies[i];
    }
    if SomeSuccess(replies[1..]) {
      var i :| 0 <= i < |replies[1..]| && replies[1..][i].VerifySucceeded?;
      assert replies[i + 1] == replies[1..][i];
    }
  }

  /**
   * As long as the gateway never answers "not successful", a reference is
   * credited at most once however often it is verified: exactly its amount if
   * the row was not yet SUCCESS and some reply confirms it, nothing otherwise.
   */
  lemma {:induction false} ReplayCreditsOnce(txns: seq<Transaction>, txRef: string, replies: seq<VerifyReply>)
    requires forall i | 0 <= i < |replies| :: !replies[i].VerifyNotSucceeded?
    ensures ReplayCredit(txns, txRef, replies) ==
      match FindReference(txns, txRef)
      case None => 0.0
      case Some(k) => if txns[k].status != Success && SomeSuccess(replies) then txns[k].amount else 0.0
    decreases |replies|
  {
    if replies != [] {
      var txns' := VerifyLedger(txns, txRef, replies[0]);
      assert forall i | 0 <= i < |replies[1..]| :: replies[1..][i] == replies[i + 1];
      ReplayCreditsOnce(txns', txRef, replies[1..]);
      SomeSuccessCons(replies);
      match FindReference(txns, txRef) {
        case None =>
          assert txns' == txns;
        case Some(k) =>
          VerifyLedgerRow(txns, txRef, replies[0], k);
      }
    }
  }

  /** A confirmed row verified again is left as it is and credits nothing. */
  lemma VerifyIdempotent(txns: seq<Transaction>, txRef: string, g1: Option<string>, g2: Option<string>)
    ensures var once := VerifyLedger(txns, txRef, VerifySucceeded(g1));
      && VerifyLedger(once, txRef, VerifySucceeded(g2)) == once
      && VerifyCredit(once, txRef, VerifySucceeded(g2)) == 0.0
  {
    match FindReference(txns, txRef) {
      case None =>
      case Some(k) => VerifyFoundAgain(txns, txRef, g1, g2, k);
    }
  }

  /** The row a reference finds is SUCCESS after one confirmation, so a second one leaves it. */
  lemma VerifyFoundAgain(txns: seq<Transaction>, txRef: string, g1: Option<string>, g2: Option<string>, k: nat)
    requires FindReference(txns, txRef) == Some(k)
    ensures var once := VerifyLedger(txns, txRef, VerifySucceeded(g1));
      && FindReference(once, txRef) == Some(k)
      && once[k].status == Success
      && VerifyLedger(once, txRef, VerifySucceeded(g2)) == once
  {
    VerifyLedgerRow(txns, txRef, VerifySucceeded(g1), k);
    var once := VerifyLedger(txns, txRef, VerifySucceeded(g1));
    assert once[k := VerifiedRow(once[k], VerifySucceeded(g2))] == once;
  }

  /** A "not successful" answer marks even a confirmed row FAILED, without taking the credit back. */
  lemma FailureOverridesSuccess(txns: seq<Transaction>, txRef: string, k: nat)
    requires FindReference(txns, txRef) == Some(k) && txns[k].status == Success
    ensures VerifyLedger(txns, txRef, VerifyNotSucceeded)[k].status == Failed
    ensures VerifyCredit(txns, txRef, VerifyNotSucceeded) == 0.0
  {
  }

  /** An unknown reference, or a failed HTTP call, changes nothing. */
  lemma VerifyNoEffect(txns: seq<Transaction>, txRef: string, reply: VerifyReply)
    requires txRef !in References(txns) || reply.VerifyRaised?
    ensures VerifyLedger(txns, txRef, reply) == txns
    ensures VerifyCredit(txns, txRef, reply) == 0.0
  {
  }

  /** Success, then failure, then success again: the same deposit is credited twice. */
  lemma DoubleCreditAfterFailure(w: Wallet)
    ensures var row := PendingDeposit(w, 100.0, "tx-1");
      ReplayCredit([row], "tx-1", [VerifySucceeded(None), VerifyNotSucceeded, VerifySucceeded(None)]) == 200.0
  {
    var row := PendingDeposit(w, 100.0, "tx-1");
    LatestMatch([row], "tx-1", 0);
    var s1 := VerifyLedger([row], "tx-1", VerifySucceeded(None));
    LatestMatch(s1, "tx-1", 0);
    var s2 := VerifyLedger(s1, "tx-1", VerifyNotSucceeded);
    LatestMatch(s2, "tx-1", 0);
    var s3 := VerifyLedger(s2, "tx-1", VerifySucceeded(None));
    assert ReplayCredit(s3, "tx-1", []) == 0.0;
  }

  /** The type is not checked: a pending withdrawal confirmed by the gateway is credited too. */
  lemma WithdrawalCredited(w: Wallet)
    ensures var row := PendingDeposit(w, 50.0, "tx-2").(kind := Withdrawal);
      VerifyCredit([row], "tx-2", VerifySucceeded(None)) == 50.0
  {
    LatestMatch([PendingDeposit(w, 50.0, "tx-2").(kind := Withdrawal)], "tx-2", 0);
  }
}
