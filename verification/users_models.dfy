/**
 * Accounts and one-time codes. Both tables are held by a directory whose
 * operations reassign them; a password is stored as what it checks against,
 * `None` standing for an unusable password.
 */
module UsersModels {
  import opened Wrappers
  import MoneyModels

  type UserId = MoneyModels.UserId

  datatype Purpose = EmailVerification | PhoneVerification | PasswordReset

  datatype Account = Account(
    id: UserId,
    username: string,
    email: Option<string>,
    phoneNumber: string,
    firstName: string,
    lastName: string,
    password: Option<string>,
    isActive: bool,
    isSuperuser: bool,
    isEmailVerified: bool,
    isPhoneVerified: bool,
    googleId: Option<string>)

  /**
   * `check_password`: an unusable password (`None`) matches nothing, and nor
   * does the empty value an account created without a password holds, though
   * that one still counts as usable.
   */
  predicate PasswordMatches(a: Account, password: string) {
    a.password == Some(password) && password != ""
  }

  /** A one-time code; `createdAt` in seconds. */
  datatype Otp = Otp(user: UserId, code: string, purpose: Purpose, createdAt: int, isUsed: bool)

  class Directory {
    var accounts: seq<Account>
    var otps: seq<Otp>
    var nextUserId: nat

    /** Ids are handed out in increasing order. */
    predicate Valid()
      reads this
    {
      IdsBelow(accounts, nextUserId)
    }

    constructor ()
      ensures Valid() && accounts == [] && otps == []
    {
      accounts := [];
      otps := [];
      nextUserId := 1;
    }

    /** Saves a new account under the next id. */
    method Add(account: Account)
      requires Valid() && account.id == nextUserId
      modifies this
      ensures Valid()
      ensures accounts == old(accounts) + [account] && nextUserId == old(nextUserId) + 1 && otps == old(otps)
    {
      AppendKeepsIdsBelow(accounts, account, nextUserId);
      accounts := accounts + [account];
      nextUserId := nextUserId + 1;
    }

    /** Saves changes to the account at position `k`, whose id stays. */
    method Replace(k: nat, account: Account)
      requires Valid() && k < |accounts| && account.id == accounts[k].id
      modifies this
      ensures Valid()
      ensures accounts == old(accounts)[k := account] && nextUserId == old(nextUserId) && otps == old(otps)
    {
      ReplaceKeepsIdsBelow(accounts, k, account, nextUserId);
      accounts := accounts[k := account];
    }
  }

  /** Every account's id is below `bound`, the next id to hand out. */
  predicate IdsBelow(accounts: seq<Account>, bound: nat)
    decreases |accounts|
  {
    accounts == [] || (accounts[|accounts| - 1].id < bound && IdsBelow(accounts[..|accounts| - 1], bound))
  }

  lemma {:induction false} IdsBelowAt(accounts: seq<Account>, bound: nat, j: nat)
    requires IdsBelow(accounts, bound) && j < |accounts|
    ensures accounts[j].id < bound
    decreases |accounts|
  {
    if j < |accounts| - 1 {
      IdsBelowAt(accounts[..|accounts| - 1], bound, j);
    }
  }

  lemma {:induction false} IdsBelowRaise(accounts: seq<Account>, bound: nat)
    requires IdsBelow(accounts, bound)
    ensures IdsBelow(accounts, bound + 1)
    decreases |accounts|
  {
    if accounts != [] {
      IdsBelowRaise(accounts[..|accounts| - 1], bound);
    }
  }

  /** Rewriting an account without changing its id keeps the bound. */
  lemma {:induction false} ReplaceKeepsIdsBelow(accounts: seq<Account>, k: nat, a: Account, bound: nat)
    requires IdsBelow(accounts, bound) && k < |accounts| && a.id == accounts[k].id
    ensures IdsBelow(accounts[k := a], bound)
    decreases |accounts|
  {
    var n := |accounts|;
    var accounts' := accounts[k := a];
    if k == n - 1 {
      assert accounts'[..n - 1] == accounts[..n - 1];
    } else {
      assert accounts'[..n - 1] == accounts[..n - 1][k := a];
      ReplaceKeepsIdsBelow(accounts[..n - 1], k, a, bound);
    }
  }

  /** An account appended under the next id moves the bound one up. */
  lemma AppendKeepsIdsBelow(accounts: seq<Account>, a: Account, bound: nat)
    requires IdsBelow(accounts, bound) && a.id == bound
    ensures IdsBelow(accounts + [a], bound + 1)
  {
    IdsBelowRaise(accounts, bound);
    assert (accounts + [a])[..|accounts|] == accounts;
  }

  /** The next id to hand out belongs to no account yet. */
  lemma NextIdIsFresh(accounts: seq<Account>, bound: nat)
    requires IdsBelow(accounts, bound)
    ensures FindAccount(accounts, bound).None?
  {
    forall j | 0 <= j < |accounts|
      ensures accounts[j].id != bound
    {
      IdsBelowAt(accounts, bound, j);
    }
  }

  /** The first account with id `id`, as `User.objects.get(id=...)` finds it. */
  function FindAccount(accounts: seq<Account>, id: UserId): (r: Option<nat>)
    ensures r.Some? ==> r.value < |accounts| && accounts[r.value].id == id
    ensures r.None? ==> forall j | 0 <= j < |accounts| :: accounts[j].id != id
  {
    if accounts == [] then None
    else if accounts[0].id == id then Some(0)
    else match FindAccount(accounts[1..], id)
      case None => None
      case Some(k) => Some(k + 1)
  }

  predicate UsernameTaken(accounts: seq<Account>, username: string) {
    exists j | 0 <= j < |accounts| :: accounts[j].username == username
  }

  predicate EmailTaken(accounts: seq<Account>, email: string) {
    exists j | 0 <= j < |accounts| :: accounts[j].email == Some(email)
  }

  predicate PhoneTaken(accounts: seq<Account>, phone: string) {
    exists j | 0 <= j < |accounts| :: accounts[j].phoneNumber == phone
  }
}
