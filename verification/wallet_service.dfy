/**
 * The wallet service: balance checks, the listing fee, the request fee plus
 * escrow lock, the release of a lock to the traveler net of commission, and the
 * refund of a lock. Each mutation is one atomic method that changes the wallet
 * numbers and appends SUCCESS rows to the ledger.
 *
 * The effect of every mutation on the two numbers of a wallet is given by a
 * function on `Funds` values (`...Outcome`); the methods are proved to follow
 * those functions, and the lemmas below state what the functions promise:
 * the balance checks agree with the deductions, money is conserved once the
 * platform's revenue is counted, and non-negative wallets stay non-negative.
 */
module WalletService {
  import opened Wrappers
  import opened Text
  import opened MoneyModels

  datatype WalletError = InsufficientBalance(required: real, available: real)

  /** `check_balance_for_listing`. */
  predicate CheckBalanceForListing(f: Funds, config: PlatformConfig) {
    f.balance >= config.minBalanceForTravelListing
  }

  /** `check_balance_for_request`: the request fee plus the price that will be locked. */
  predicate CheckBalanceForRequest(f: Funds, config: PlatformConfig, totalAmount: real) {
    f.balance >= config.minBalanceForPackageRequest + totalAmount
  }

  // ---------------------------------------------------------------------------
  // Effects on the wallet numbers
  // ---------------------------------------------------------------------------

  /** The listing fee: refused below the fee, otherwise taken from the balance. */
  function ListingFeeOutcome(f: Funds, config: PlatformConfig): (r: Result<Funds, WalletError>)
    ensures r.Ok? <==> CheckBalanceForListing(f, config)
    ensures r.Err? ==> r.error == InsufficientBalance(config.minBalanceForTravelListing, f.balance)
    ensures r.Ok? ==> r.value.locked == f.locked
    ensures r.Ok? ==> r.value.Total() == f.Total() - config.minBalanceForTravelListing
  {
    var fee := config.minBalanceForTravelListing;
    if f.balance < fee then Err(InsufficientBalance(fee, f.balance))
    else Ok(Funds(f.balance - fee, f.locked))
  }

  /** The request fee leaves the wallet; the request price moves from balance to locked. */
  function RequestFeeAndLockOutcome(f: Funds, config: PlatformConfig, lockAmount: real): (r: Result<Funds, WalletError>)
    ensures r.Ok? <==> CheckBalanceForRequest(f, config, lockAmount)
    ensures r.Err? ==> r.error == InsufficientBalance(config.minBalanceForPackageRequest + lockAmount, f.balance)
    ensures r.Ok? ==> r.value.locked == f.locked + lockAmount
    ensures r.Ok? ==> r.value.Total() == f.Total() - config.minBalanceForPackageRequest
  {
    var fee := config.minBalanceForPackageRequest;
    var required := fee + lockAmount;
    if f.balance < required then Err(InsufficientBalance(required, f.balance))
    else Ok(Funds(f.balance - fee - lockAmount, f.locked + lockAmount))
  }

  /** The split of a released amount: (traveler amount, commission). No rounding. */
  function CommissionSplit(lockedAmount: real, config: PlatformConfig): (split: (real, real))
    ensures split.0 + split.1 == lockedAmount
    ensures split.1 == lockedAmount * config.platformCommissionPercentage / 100.0
  {
    var commission := lockedAmount * (config.platformCommissionPercentage / 100.0);
    (lockedAmount - commission, commission)
  }

  /** Release: the requester's lock shrinks by the whole amount, the traveler's balance grows by its share. */
  function ReleaseOutcome(requester: Funds, traveler: Funds, lockedAmount: real, config: PlatformConfig): (r: (Funds, Funds))
    ensures r.0 == Funds(requester.balance, requester.locked - lockedAmount)
    ensures r.1 == Funds(traveler.balance + CommissionSplit(lockedAmount, config).0, traveler.locked)
  {
    var (travelerAmount, _) := CommissionSplit(lockedAmount, config);
    (Funds(requester.balance, requester.locked - lockedAmount),
     Funds(traveler.balance + travelerAmount, traveler.locked))
  }

  /** Refund: the amount moves back from locked to balance. */
  function RefundOutcome(f: Funds, lockedAmount: real): (r: Funds)
    ensures r.Total() == f.Total()
    ensures r.locked == f.locked - lockedAmount
  {
    Funds(f.balance + lockedAmount, f.locked - lockedAmount)
  }

  // ---------------------------------------------------------------------------
  // Ledger rows written by the service
  // ---------------------------------------------------------------------------

  function ListingFeeRecord(w: Wallet, fee: real, reference: string, listingId: nat): Transaction {
    Transaction(w, fee, ListingFee, Success, reference, None,
                "Fee for creating travel listing #" + NatToString(listingId),
                Some(SystemRevenue), None, None, Some(listingId), None)
  }

  function RequestFeeRecord(w: Wallet, fee: real, reference: string, requestId: nat): Transaction {
    Transaction(w, fee, RequestFee, Success, reference, None,
                "Fee for creating package request #" + NatToString(requestId),
                Some(SystemRevenue), None, None, None, Some(requestId))
  }

  function LockRecord(w: Wallet, amount: real, reference: string, requestId: nat): Transaction {
    Transaction(w, amount, PaymentLock, Success, reference, None,
                "Locked payment for package request #" + NatToString(requestId),
                Some(UserTransaction), None, None, None, Some(requestId))
  }

  function ReleaseRecord(from: Wallet, to: Wallet, amount: real, reference: string, requestId: nat): Transaction {
    Transaction(from, amount, PaymentRelease, Success, reference, None,
                "Payment released to traveler for package request #" + NatToString(requestId),
                Some(InternalTransfer), Some(to), None, None, Some(requestId))
  }

  function CommissionRecord(w: Wallet, amount: real, reference: string, requestId: nat): Transaction {
    Transaction(w, amount, Commission, Success, reference, None,
                "Platform commission for package request #" + NatToString(requestId),
                Some(SystemRevenue), None, None, None, Some(requestId))
  }

  function UnlockRecord(w: Wallet, amount: real, reference: string, requestId: nat): Transaction {
    Transaction(w, amount, PaymentUnlock, Success, reference, None,
                "Refund for rejected/cancelled package request #" + NatToString(requestId),
                Some(UserTransaction), None, None, None, Some(requestId))
  }

  /** Revenue of a ledger grown by one row. */
  lemma RevenueAppend(txns: seq<Transaction>, t: Transaction)
    ensures Revenue(txns + [t]) == Revenue(txns)
      + (if t.status == Success && t.category == Some(SystemRevenue) then t.amount else 0.0)
  {
    assert (txns + [t])[..|txns|] == txns;
  }

  // ---------------------------------------------------------------------------
  // What the effects promise
  // ---------------------------------------------------------------------------

  /** The traveler's share and the commission add up to the released amount and stay within it. */
  lemma CommissionSplitBounds(lockedAmount: real, config: PlatformConfig)
    requires lockedAmount >= 0.0
    requires 0.0 <= config.platformCommissionPercentage <= 100.0
    ensures var (travelerAmount, commission) := CommissionSplit(lockedAmount, config);
      && travelerAmount + commission == lockedAmount
      && 0.0 <= commission <= lockedAmount
      && 0.0 <= travelerAmount <= lockedAmount
  {
    var p := config.platformCommissionPercentage / 100.0;
    assert 0.0 <= p <= 1.0;
    assert lockedAmount * p <= lockedAmount * 1.0;
  }

  /** The listing fee moves exactly the fee from the wallet into the platform's revenue. */
  lemma ListingFeeConserves(f: Funds, config: PlatformConfig, txns: seq<Transaction>, w: Wallet, reference: string, listingId: nat)
    requires CheckBalanceForListing(f, config)
    ensures var after := ListingFeeOutcome(f, config).value;
      var txns' := txns + [ListingFeeRecord(w, config.minBalanceForTravelListing, reference, listingId)];
      after.Total() + Revenue(txns') == f.Total() + Revenue(txns)
  {
    RevenueAppend(txns, ListingFeeRecord(w, config.minBalanceForTravelListing, reference, listingId));
  }

  /** Fee plus lock: the fee becomes revenue, the lock stays in the wallet. */
  lemma RequestFeeAndLockConserves(f: Funds, config: PlatformConfig, lockAmount: real, txns: seq<Transaction>,
                                   w: Wallet, feeRef: string, lockRef: string, requestId: nat)
    requires CheckBalanceForRequest(f, config, lockAmount)
    ensures var after := RequestFeeAndLockOutcome(f, config, lockAmount).value;
      var txns' := txns + [RequestFeeRecord(w, config.minBalanceForPackageRequest, feeRef, requestId),
                           LockRecord(w, lockAmount, lockRef, requestId)];
      after.Total() + Revenue(txns') == f.Total() + Revenue(txns)
  {
    var feeTxn := RequestFeeRecord(w, config.minBalanceForPackageRequest, feeRef, requestId);
    var lockTxn := LockRecord(w, lockAmount, lockRef, requestId);
    RevenueAppend(txns, feeTxn);
    RevenueAppend(txns + [feeTxn], lockTxn);
    assert txns + [feeTxn, lockTxn] == txns + [feeTxn] + [lockTxn];
  }

  /** Release: the two wallets lose exactly the commission, which becomes revenue. */
  lemma ReleaseConserves(requester: Funds, traveler: Funds, lockedAmount: real, config: PlatformConfig,
                         txns: seq<Transaction>, from: Wallet, to: Wallet,
                         releaseRef: string, commissionRef: string, requestId: nat)
    ensures var (r, t) := ReleaseOutcome(requester, traveler, lockedAmount, config);
      var (travelerAmount, commission) := CommissionSplit(lockedAmount, config);
      var txns' := txns + [ReleaseRecord(from, to, travelerAmount, releaseRef, requestId),
                           CommissionRecord(from, commission, commissionRef, requestId)];
      && r.Total() + t.Total() == requester.Total() + traveler.Total() - commission
      && r.Total() + t.Total() + Revenue(txns') == requester.Total() + traveler.Total() + Revenue(txns)
  {
    var (travelerAmount, commission) := CommissionSplit(lockedAmount, config);
    var payTxn := ReleaseRecord(from, to, travelerAmount, releaseRef, requestId);
    var comTxn := CommissionRecord(from, commission, commissionRef, requestId);
    RevenueAppend(txns, payTxn);
    RevenueAppend(txns + [payTxn], comTxn);
    assert txns + [payTxn, comTxn] == txns + [payTxn] + [comTxn];
  }

  /** A refund moves money inside one wallet and takes no revenue. */
  lemma RefundConserves(f: Funds, lockedAmount: real, txns: seq<Transaction>, w: Wallet, reference: string, requestId: nat)
    ensures RefundOutcome(f, lockedAmount).Total() + Revenue(txns + [UnlockRecord(w, lockedAmount, reference, requestId)])
         == f.Total() + Revenue(txns)
  {
    RevenueAppend(txns, UnlockRecord(w, lockedAmount, reference, requestId));
  }

  /**
   * No mutation drives a non-negative wallet negative, provided the amounts are
   * non-negative, the commission percentage is at most 100 and a release or
   * refund never exceeds the lock (the service itself does not check the lock).
   */
  lemma NonNegativityPreserved(f: Funds, g: Funds, config: PlatformConfig, amount: real)
    requires f.NonNegative() && g.NonNegative() && amount >= 0.0
    requires 0.0 <= config.platformCommissionPercentage <= 100.0
    ensures ListingFeeOutcome(f, config).Ok? ==> ListingFeeOutcome(f, config).value.NonNegative()
    ensures RequestFeeAndLockOutcome(f, config, amount).Ok? ==> RequestFeeAndLockOutcome(f, config, amount).value.NonNegative()
    ensures amount <= f.locked ==> RefundOutcome(f, amount).NonNegative()
    ensures amount <= f.locked ==>
      ReleaseOutcome(f, g, amount, config).0.NonNegative() && ReleaseOutcome(f, g, amount, config).1.NonNegative()
  {
    CommissionSplitBounds(amount, config);
  }

  /** The request lifecycle scenario: 100 ETB, fee 10, price 30, commission 5%. */
  lemma RequestLifecycleScenario()
    ensures var config := PlatformConfig(10.0, 10.0, 5.0);
      var afterLock := RequestFeeAndLockOutcome(Funds(100.0, 0.0), config, 30.0);
      && afterLock == Ok(Funds(60.0, 30.0))
      && ReleaseOutcome(afterLock.value, Funds(0.0, 0.0), 30.0, config) == (Funds(60.0, 0.0), Funds(28.5, 0.0))
      && CommissionSplit(30.0, config).1 == 1.5
  {
  }

  // ---------------------------------------------------------------------------
  // The atomic mutations
  // ---------------------------------------------------------------------------

  /** `deduct_listing_fee`. */
  method DeductListingFee(wallet: Wallet, ledger: Ledger, config: PlatformConfig, listingId: nat, reference: string)
    returns (r: Result<Transaction, WalletError>)
    requires ledger.Valid() && reference !in References(ledger.transactions)
    modifies wallet, ledger
    ensures ledger.Valid()
    ensures match ListingFeeOutcome(old(wallet.Snapshot()), config)
      case Err(e) =>
        && r == Err(e)
        && wallet.Snapshot() == old(wallet.Snapshot())
        && ledger.transactions == old(ledger.transactions)
      case Ok(after) =>
        && r == Ok(ListingFeeRecord(wallet, config.minBalanceForTravelListing, reference, listingId))
        && wallet.Snapshot() == after
        && ledger.transactions == old(ledger.transactions) + [r.value]
  {
    var fee := config.minBalanceForTravelListing;
    if wallet.balance < fee {
      return Err(InsufficientBalance(fee, wallet.balance));
    }
    wallet.balance := wallet.balance - fee;
    var txn := ListingFeeRecord(wallet, fee, reference, listingId);
    AppendFreshKeepsUnique(ledger.transactions, txn);
    ledger.transactions := ledger.transactions + [txn];
    r := Ok(txn);
  }

  /** `deduct_request_fee_and_lock_amount`: returns the fee row and the lock row. */
  method DeductRequestFeeAndLockAmount(wallet: Wallet, ledger: Ledger, config: PlatformConfig,
                                       requestId: nat, totalPrice: real, feeRef: string, lockRef: string)
    returns (r: Result<(Transaction, Transaction), WalletError>)
    requires ledger.Valid() && feeRef != lockRef
    requires feeRef !in References(ledger.transactions) && lockRef !in References(ledger.transactions)
    modifies wallet, ledger
    ensures ledger.Valid()
    ensures match RequestFeeAndLockOutcome(old(wallet.Snapshot()), config, totalPrice)
      case Err(e) =>
        && r == Err(e)
        && wallet.Snapshot() == old(wallet.Snapshot())
        && ledger.transactions == old(ledger.transactions)
      case Ok(after) =>
        && r == Ok((RequestFeeRecord(wallet, config.minBalanceForPackageRequest, feeRef, requestId),
                    LockRecord(wallet, totalPrice, lockRef, requestId)))
        && wallet.Snapshot() == after
        && ledger.transactions == old(ledger.transactions) + [r.value.0, r.value.1]
  {
    var fee := config.minBalanceForPackageRequest;
    var lockAmount := totalPrice;
    var totalRequired := fee + lockAmount;
    if wallet.balance < totalRequired {
      return Err(InsufficientBalance(totalRequired, wallet.balance));
    }
    wallet.balance := wallet.balance - fee;
    wallet.balance := wallet.balance - lockAmount;
    wallet.lockedBalance := wallet.lockedBalance + lockAmount;
    var feeTxn := RequestFeeRecord(wallet, fee, feeRef, requestId);
    AppendFreshKeepsUnique(ledger.transactions, feeTxn);
    ledger.transactions := ledger.transactions + [feeTxn];
    var lockTxn := LockRecord(wallet, lockAmount, lockRef, requestId);
    AppendFreshKeepsUnique(ledger.transactions, lockTxn);
    ledger.transactions := ledger.transactions + [lockTxn];
    r := Ok((feeTxn, lockTxn));
  }

  /**
   * `release_payment_to_traveler`: `lockedAmount` is the request's total price.
   * The lock is not checked, so the requester's locked balance may go negative.
   */
  method ReleasePaymentToTraveler(requesterWallet: Wallet, travelerWallet: Wallet, ledger: Ledger, config: PlatformConfig,
                                  requestId: nat, lockedAmount: real, releaseRef: string, commissionRef: string)
    returns (payment: Transaction, commission: Transaction)
    requires requesterWallet != travelerWallet
    requires ledger.Valid() && releaseRef != commissionRef
    requires releaseRef !in References(ledger.transactions) && commissionRef !in References(ledger.transactions)
    modifies requesterWallet, travelerWallet, ledger
    ensures ledger.Valid()
    ensures (requesterWallet.Snapshot(), travelerWallet.Snapshot())
         == ReleaseOutcome(old(requesterWallet.Snapshot()), old(travelerWallet.Snapshot()), lockedAmount, config)
    ensures var (travelerAmount, commissionAmount) := CommissionSplit(lockedAmount, config);
      && payment == ReleaseRecord(requesterWallet, travelerWallet, travelerAmount, releaseRef, requestId)
      && commission == CommissionRecord(requesterWallet, commissionAmount, commissionRef, requestId)
    ensures ledger.transactions == old(ledger.transactions) + [payment, commission]
  {
    var commissionPercentage := config.platformCommissionPercentage / 100.0;
    var commissionAmount := lockedAmount * commissionPercentage;
    var travelerAmount := lockedAmount - commissionAmount;

    requesterWallet.lockedBalance := requesterWallet.lockedBalance - lockedAmount;
    travelerWallet.balance := travelerWallet.balance + travelerAmount;

    payment := ReleaseRecord(requesterWallet, travelerWallet, travelerAmount, releaseRef, requestId);
    AppendFreshKeepsUnique(ledger.transactions, payment);
    ledger.transactions := ledger.transactions + [payment];
    commission := CommissionRecord(requesterWallet, commissionAmount, commissionRef, requestId);
    AppendFreshKeepsUnique(ledger.transactions, commission);
    ledger.transactions := ledger.transactions + [commission];
    assert CommissionSplit(lockedAmount, config) == (travelerAmount, commissionAmount);
  }

  /** `refund_locked_amount`: the lock is not checked here either. */
  method RefundLockedAmount(wallet: Wallet, ledger: Ledger, requestId: nat, lockedAmount: real, reference: string)
    returns (txn: Transaction)
    requires ledger.Valid() && reference !in References(ledger.transactions)
    modifies wallet, ledger
    ensures ledger.Valid()
    ensures wallet.Snapshot() == RefundOutcome(old(wallet.Snapshot()), lockedAmount)
    ensures txn == UnlockRecord(wallet, lockedAmount, reference, requestId)
    ensures ledger.transactions == old(ledger.transactions) + [txn]
  {
    wallet.lockedBalance := wallet.lockedBalance - lockedAmount;
    wallet.balance := wallet.balance + lockedAmount;
    txn := UnlockRecord(wallet, lockedAmount, reference, requestId);
    AppendFreshKeepsUnique(ledger.transactions, txn);
    ledger.transactions := ledger.transactions + [txn];
  }
}
