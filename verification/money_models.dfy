/**
 * The ledger's stored entities: wallets, transaction records, banks and the
 * platform configuration. Amounts are exact decimals, modelled as `real`.
 */
module MoneyModels {
  import opened Wrappers

  type UserId = nat

  /** Every transaction type the wallet service and the gateway write. */
  datatype TxType =
    | Deposit | Withdrawal
    | ListingFee | RequestFee
    | PaymentLock | PaymentUnlock | PaymentRelease | Commission

  datatype TxStatus = Pending | Success | Failed

  datatype TxCategory = UserTransaction | SystemRevenue | InternalTransfer

  /** One wallet per user: `owner` never changes, both balances start at zero. */
  class Wallet {
    const owner: UserId
    const currency: string
    var balance: real
    var lockedBalance: real

    constructor (owner: UserId)
      ensures this.owner == owner && currency == "ETB"
      ensures balance == 0.0 && lockedBalance == 0.0
    {
      this.owner := owner;
      currency := "ETB";
      balance := 0.0;
      lockedBalance := 0.0;
    }

    function Snapshot(): Funds
      reads this
    {
      Funds(balance, lockedBalance)
    }
  }

  /** The two numbers of a wallet, as a value. */
  datatype Funds = Funds(balance: real, locked: real) {
    function Total(): real {
      balance + locked
    }

    predicate NonNegative() {
      balance >= 0.0 && locked >= 0.0
    }
  }

  /** A `user -> wallet` table is one-to-one and each wallet belongs to its key. */
  ghost predicate OneWalletPerUser(wallets: map<UserId, Wallet>) {
    && (forall u | u in wallets :: wallets[u].owner == u)
    && (forall u, v | u in wallets && v in wallets && u != v :: wallets[u] != wallets[v])
  }

  /**
   * A ledger row. `category`, `recipient`, `listing` and `request` are empty
   * where the writer does not set them; `gateway` names the payment gateway
   * of a gateway-initiated row.
   */
  datatype Transaction = Transaction(
    wallet: Wallet,
    amount: real,
    kind: TxType,
    status: TxStatus,
    reference: string,
    externalReference: Option<string>,
    description: string,
    category: Option<TxCategory>,
    recipient: Option<Wallet>,
    gateway: Option<string>,
    listing: Option<nat>,
    request: Option<nat>)

  /** The singleton fee and commission settings, read once per operation. */
  datatype PlatformConfig = PlatformConfig(
    minBalanceForTravelListing: real,
    minBalanceForPackageRequest: real,
    platformCommissionPercentage: real)

  predicate UniqueReferences(txns: seq<Transaction>) {
    forall i, j | 0 <= i < j < |txns| :: txns[i].reference != txns[j].reference
  }

  function References(txns: seq<Transaction>): (refs: set<string>)
    ensures forall i | 0 <= i < |txns| :: txns[i].reference in refs
    ensures forall r | r in refs :: exists i :: 0 <= i < |txns| && txns[i].reference == r
  {
    set i | 0 <= i < |txns| :: txns[i].reference
  }

  /** The lookup `Transaction.objects.get(reference=r)`, as an index. */
  function FindReference(txns: seq<Transaction>, reference: string): (r: Option<nat>)
    ensures r.Some? ==> r.value < |txns| && txns[r.value].reference == reference
    ensures r.Some? ==> forall j | r.value < j < |txns| :: txns[j].reference != reference
    ensures r.None? <==> reference !in References(txns)
  {
    if txns == [] then None
    else if txns[|txns| - 1].reference == reference then Some(|txns| - 1)
    else
      var r := FindReference(txns[..|txns| - 1], reference);
      assert forall i | 0 <= i < |txns| - 1 :: txns[..|txns| - 1][i] == txns[i];
      r
  }

  /** With unique references the lookup finds exactly the row that carries the reference. */
  lemma FindReferenceUnique(txns: seq<Transaction>, k: nat)
    requires UniqueReferences(txns) && k < |txns|
    ensures FindReference(txns, txns[k].reference) == Some(k)
  {
  }

  /** Appending a row whose reference is new keeps references unique. */
  lemma AppendFreshKeepsUnique(txns: seq<Transaction>, t: Transaction)
    requires UniqueReferences(txns) && t.reference !in References(txns)
    ensures UniqueReferences(txns + [t])
  {
  }

  /** Rewriting a row without touching its reference keeps the set of references. */
  lemma UpdateKeepsReferenceSet(txns: seq<Transaction>, k: nat, t: Transaction)
    requires k < |txns| && t.reference == txns[k].reference
    ensures References(txns[k := t]) == References(txns)
    ensures UniqueReferences(txns) ==> UniqueReferences(txns[k := t])
  {
    var txns' := txns[k := t];
    assert forall i | 0 <= i < |txns| :: txns'[i].reference == txns[i].reference;
    forall r | r in References(txns)
      ensures r in References(txns')
    {
      var i :| 0 <= i < |txns| && txns[i].reference == r;
      assert txns'[i].reference == r;
    }
  }

  /** The lookup finds the latest row carrying the reference. */
  lemma LatestMatch(txns: seq<Transaction>, reference: string, i: nat)
    requires i < |txns| && txns[i].reference == reference
    requires forall j | i < j < |txns| :: txns[j].reference != reference
    ensures FindReference(txns, reference) == Some(i)
  {
  }

  /** ... and the row a reference looks up. */
  lemma UpdateKeepsLookup(txns: seq<Transaction>, k: nat, t: Transaction, reference: string)
    requires k < |txns| && t.reference == txns[k].reference
    ensures FindReference(txns[k := t], reference) == FindReference(txns, reference)
  {
    var txns' := txns[k := t];
    match FindReference(txns, reference)
    case None =>
      UpdateKeepsReferenceSet(txns, k, t);
    case Some(i) =>
      forall j | i <= j < |txns|
        ensures txns'[j].reference == txns[j].reference
      {
      }
      LatestMatch(txns', reference, i);
  }

  /** The wallets that rows of the ledger belong to. */
  function WalletsOf(txns: seq<Transaction>): set<Wallet> {
    set i | 0 <= i < |txns| :: txns[i].wallet
  }

  /** The append-only transaction table. */
  class Ledger {
    var transactions: seq<Transaction>

    constructor ()
      ensures transactions == []
    {
      transactions := [];
    }

    /** The uniqueness constraint on `reference`. */
    ghost predicate Valid()
      reads this
    {
      UniqueReferences(transactions)
    }
  }

  /** Money the platform has taken in: successful SYSTEM_REVENUE rows. */
  function Revenue(txns: seq<Transaction>): real {
    if txns == [] then 0.0
    else
      var t := txns[|txns| - 1];
      Revenue(txns[..|txns| - 1])
      + (if t.status == Success && t.category == Some(SystemRevenue) then t.amount else 0.0)
  }

  /** A bank of the directory: unique per (gateway, code). */
  datatype Bank = Bank(gateway: string, name: string, code: string, isActive: bool, currency: string)

  predicate BanksUnique(banks: seq<Bank>) {
    forall i, j | 0 <= i < j < |banks| ::
      (banks[i].gateway, banks[i].code) != (banks[j].gateway, banks[j].code)
  }

  datatype IntegrityError = DuplicateBank(gateway: string, code: string)

  /** Inserting a bank: the `unique_together` constraint refuses a second (gateway, code). */
  function AddBank(banks: seq<Bank>, b: Bank): (r: Result<seq<Bank>, IntegrityError>)
    ensures r.Err? <==> exists i :: 0 <= i < |banks| && banks[i].gateway == b.gateway && banks[i].code == b.code
    ensures r.Ok? ==> r.value == banks + [b]
    ensures BanksUnique(banks) && r.Ok? ==> BanksUnique(r.value)
  {
    if exists i :: 0 <= i < |banks| && banks[i].gateway == b.gateway && banks[i].code == b.code
    then Err(DuplicateBank(b.gateway, b.code))
    else Ok(banks + [b])
  }
}
