/** The persisted entities of the bank (users, accounts, transaction records),
    a snapshot value holding all of them, the integrity facts every route
    keeps, and the lookups the routes perform. Amounts are integer cents. */
module LedgerModel {
  import opened Common

  datatype Role = USER | ADMIN
  datatype UserStatus = ACTIVE | SUSPENDED | DISABLED
  datatype AccountStatus = ACTIVE | FROZEN | CLOSED
  datatype AccountType = CURRENT | SAVINGS | VAULT
  datatype TxnType =
    | DEPOSIT | WITHDRAWAL | TRANSFER_OUT | TRANSFER_IN
    | TRANSFER_INTERNAL | PAYMENT_EXTERNAL | CARD_PAYMENT | FEE
  datatype TxnStatus = PENDING | COMPLETED | CANCELLED | FAILED

  datatype User = User(
    id: int,
    fullName: string,
    email: string,
    passwordHash: string,
    role: Role,
    status: UserStatus,
    dateOfBirth: Option<string>,
    profileImageUrl: Option<string>)

  datatype Account = Account(
    userId: int,
    name: string,
    kind: AccountType,
    iban: string,
    balance: int,
    currency: string,
    status: AccountStatus)

  /** A transaction record; either side may be absent (money entering or
      leaving the bank). */
  datatype Txn = Txn(
    id: int,
    fromAccountId: Option<int>,
    toAccountId: Option<int>,
    userId: Option<int>,
    amount: int,
    kind: TxnType,
    status: TxnStatus,
    description: string)

  /** Everything the routes read and write, with the next identifiers the
      database would hand out. */
  datatype Bank = Bank(
    users: seq<User>,
    accounts: map<int, Account>,
    txns: seq<Txn>,
    nextUserId: int,
    nextAccountId: int,
    nextTxnId: int)

  /** The authenticated caller as the session presents it. */
  datatype SessionUser = SessionUser(id: Option<int>, email: Option<string>, role: Role)

  // ---------------------------------------------------------------------
  // Integrity
  // ---------------------------------------------------------------------

  predicate UsersWellFormed(users: seq<User>, nextUserId: int) {
    && (forall i :: 0 <= i < |users| ==> users[i].id < nextUserId)
    && (forall i, j :: 0 <= i < j < |users| ==> users[i].id != users[j].id)
    && (forall i, j :: 0 <= i < j < |users| ==> users[i].email != users[j].email)
  }

  /** No account is overdrawn. */
  predicate NoOverdraft(accounts: map<int, Account>) {
    forall id :: id in accounts ==> accounts[id].balance >= 0
  }

  predicate AccountsWellFormed(accounts: map<int, Account>, nextAccountId: int) {
    && NoOverdraft(accounts)
    && (forall id :: id in accounts ==> id < nextAccountId)
    && (forall a, b :: a in accounts && b in accounts && a != b ==> accounts[a].iban != accounts[b].iban)
  }

  predicate RefersToAccount(side: Option<int>, accounts: map<int, Account>) {
    side.Some? ==> side.value in accounts
  }

  predicate TxnsWellFormed(txns: seq<Txn>, accounts: map<int, Account>, nextTxnId: int) {
    && (forall i :: 0 <= i < |txns| ==> txns[i].id < nextTxnId && txns[i].amount > 0)
    && (forall i :: 0 <= i < |txns| ==> RefersToAccount(txns[i].fromAccountId, accounts))
    && (forall i :: 0 <= i < |txns| ==> RefersToAccount(txns[i].toAccountId, accounts))
    && (forall i, j :: 0 <= i < j < |txns| ==> txns[i].id != txns[j].id)
  }

  predicate Valid(b: Bank) {
    && UsersWellFormed(b.users, b.nextUserId)
    && AccountsWellFormed(b.accounts, b.nextAccountId)
    && TxnsWellFormed(b.txns, b.accounts, b.nextTxnId)
  }

  // ---------------------------------------------------------------------
  // Lookups
  // ---------------------------------------------------------------------

  /** user.findUnique({ where: { email } }). */
  function FindUserByEmail(users: seq<User>, email: string): (r: Option<User>)
    ensures r.Some? ==> r.value in users && r.value.email == email
    ensures r.None? ==> forall i :: 0 <= i < |users| ==> users[i].email != email
  {
    if users == [] then None
    else if users[0].email == email then Some(users[0])
    else FindUserByEmail(users[1..], email)
  }

  /** With distinct e-mails, looking up users[k]'s address finds users[k]. */
  lemma {:induction false} FindUserByEmailUnique(users: seq<User>, k: int)
    requires 0 <= k < |users|
    requires forall i, j :: 0 <= i < j < |users| ==> users[i].email != users[j].email
    ensures FindUserByEmail(users, users[k].email) == Some(users[k])
  {
    if k > 0 {
      assert users[0].email != users[k].email;
      assert users[1..][k - 1] == users[k];
      FindUserByEmailUnique(users[1..], k - 1);
    }
  }

  /** The position of the record with this id, if any. */
  function FindTxn(txns: seq<Txn>, id: int): (r: Option<nat>)
    ensures r.Some? ==> r.value < |txns| && txns[r.value].id == id
    ensures r.None? ==> forall i :: 0 <= i < |txns| ==> txns[i].id != id
  {
    if txns == [] then None
    else if txns[0].id == id then Some(0)
    else match FindTxn(txns[1..], id)
      case None => None
      case Some(k) => Some(k + 1)
  }

  /** account.findFirst({ where: { id, userId } }): the account, only when
      the given user owns it. */
  function OwnedAccount(accounts: map<int, Account>, id: int, owner: int): (r: Option<Account>)
    ensures r.Some? <==> id in accounts && accounts[id].userId == owner
    ensures r.Some? ==> r.value == accounts[id]
  {
    if id in accounts && accounts[id].userId == owner then Some(accounts[id]) else None
  }

  /** Some account already carries this IBAN. */
  predicate IbanTaken(accounts: map<int, Account>, iban: string) {
    exists id :: id in accounts && accounts[id].iban == iban
  }

  // ---------------------------------------------------------------------
  // Sum of all balances
  // ---------------------------------------------------------------------

  ghost function Pick(keys: set<int>): (k: int)
    requires keys != {}
    ensures k in keys
  {
    assert exists x :: x in keys by {
      if forall x :: x !in keys { assert false; }
    }
    var k :| k in keys; k
  }

  ghost function TotalBalance(accounts: map<int, Account>): int
    decreases |accounts|
  {
    if accounts == map[] then 0
    else
      var k := Pick(accounts.Keys);
      accounts[k].balance + TotalBalance(accounts - {k})
  }

  /** The total can be split at any account, not only the one Pick chooses. */
  lemma {:induction false} TotalBalanceSplit(accounts: map<int, Account>, id: int)
    requires id in accounts
    ensures TotalBalance(accounts) == accounts[id].balance + TotalBalance(accounts - {id})
    decreases |accounts|
  {
    var k := Pick(accounts.Keys);
    if k != id {
      var rest := accounts - {k};
      assert id in rest;
      assert |rest| < |accounts| by { assert rest.Keys < accounts.Keys; }
      TotalBalanceSplit(rest, id);
      var both := accounts - {id};
      assert k in both;
      assert |both| < |accounts| by { assert both.Keys < accounts.Keys; }
      TotalBalanceSplit(both, k);
      assert rest - {id} == both - {k};
    }
  }

  /** Opening an account adds its balance to the total. */
  lemma TotalBalanceInsert(accounts: map<int, Account>, id: int, a: Account)
    requires id !in accounts
    ensures TotalBalance(accounts[id := a]) == TotalBalance(accounts) + a.balance
  {
    TotalBalanceSplit(accounts[id := a], id);
    assert accounts[id := a] - {id} == accounts;
  }

  /** Replacing one account changes the total by the change of its balance. */
  lemma TotalBalanceUpdate(accounts: map<int, Account>, id: int, a: Account)
    requires id in accounts
    ensures TotalBalance(accounts[id := a]) == TotalBalance(accounts) - accounts[id].balance + a.balance
  {
    TotalBalanceSplit(accounts, id);
    TotalBalanceSplit(accounts[id := a], id);
    assert accounts[id := a] - {id} == accounts - {id};
  }
}
