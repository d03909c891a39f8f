/** The bank's persistent store as an object whose route handlers check
    their guards in the routes' order and then update the rows in place.
    Each handler is proved to do exactly what the matching function of
    LedgerOps describes, and to keep the store valid. */
module LedgerStore {
  import opened Common
  import opened LedgerModel
  import opened LedgerOps
  import Registration

  class Store {
    var users: seq<User>
    var accounts: map<int, Account>
    var txns: seq<Txn>
    var nextUserId: int
    var nextAccountId: int
    var nextTxnId: int

    /** The rows as one value. */
    function State(): Bank
      reads this
    {
      Bank(users, accounts, txns, nextUserId, nextAccountId, nextTxnId)
    }

    /** An empty database; identifiers start at 1. */
    constructor()
      ensures State() == Bank([], map[], [], 1, 1, 1)
      ensures Valid(State())
    {
      users, accounts, txns := [], map[], [];
      nextUserId, nextAccountId, nextTxnId := 1, 1, 1;
    }

    // -------------------------------------------------------------------
    // Lookups
    // -------------------------------------------------------------------

    /** The user with this e-mail, scanning the rows in order. */
    method FindUser(email: string) returns (r: Option<User>)
      ensures r == FindUserByEmail(users, email)
    {
      var i := 0;
      while i < |users|
        invariant 0 <= i <= |users|
        invariant FindUserByEmail(users, email) == FindUserByEmail(users[i..], email)
      {
        if users[i].email == email {
          return Some(users[i]);
        }
        assert users[i..][1..] == users[i + 1..];
        i := i + 1;
      }
      return None;
    }

    /** The position of the record with this id, scanning the rows in order. */
    method LocateTxn(id: int) returns (r: Option<nat>)
      ensures r == FindTxn(txns, id)
    {
      var i := 0;
      while i < |txns|
        invariant 0 <= i <= |txns|
        invariant forall j :: 0 <= j < i ==> txns[j].id != id
      {
        if txns[i].id == id {
          FindTxnFirst(txns, i);
          return Some(i);
        }
        i := i + 1;
      }
      return None;
    }

    /** Whether an account already carries this IBAN (the unique constraint). */
    method IbanInUse(iban: string) returns (taken: bool)
      ensures taken == IbanTaken(accounts, iban)
    {
      var pending := accounts.Keys;
      while pending != {}
        invariant pending <= accounts.Keys
        invariant forall id :: id in accounts && id !in pending ==> accounts[id].iban != iban
        decreases |pending|
      {
        assert exists x :: x in pending by {
          if forall x :: x !in pending { assert false; }
        }
        var id :| id in pending;
        if accounts[id].iban == iban {
          return true;
        }
        pending := pending - {id};
      }
      return false;
    }

    // -------------------------------------------------------------------
    // User transfer
    // -------------------------------------------------------------------

    method Transfer(session: Option<SessionUser>, body: Option<TransferRequest>) returns (r: Outcome<Txn, TransferError>)
      requires Valid(State())
      modifies this
      ensures r == LedgerOps.Transfer(old(State()), session, body)
      ensures State() == if r.Done? then r.after else old(State())
      ensures Valid(State())
    {
      if session.None? || !Filled(session.value.email) {
        return Rejected(NotAuthenticated);
      }
      var found := FindUser(session.value.email.value);
      if found.None? {
        return Rejected(UserNotFound);
      }
      if body.None? {
        return Rejected(UnreadableBody);
      }
      r := TransferBy(found.value, body.value);
      if r.Done? {
        TransferPreservesValid(old(State()), session, body.value);
      }
    }

    /** The transfer once the caller is known: the source checks. */
    method TransferBy(user: User, req: TransferRequest) returns (r: Outcome<Txn, TransferError>)
      modifies this
      ensures r == LedgerOps.TransferBy(old(State()), user, req)
      ensures State() == if r.Done? then r.after else old(State())
    {
      if !Filled(req.mode) || !Truthy(req.fromAccountId) || !Truthy(req.amount) || req.amount.value <= 0 {
        return Rejected(InvalidTransferData);
      }
      var fromId, amount := req.fromAccountId.value, req.amount.value;
      if fromId !in accounts || accounts[fromId].userId != user.id {
        return Rejected(SourceNotFound);
      }
      var from := accounts[fromId];
      if from.status != AccountStatus.ACTIVE {
        return Rejected(SourceNotActive);
      }
      if amount <= 0 {
        // the route's second positivity check; the first one already ruled it out
        assert false;
      }
      if from.balance < amount {
        return Rejected(InsufficientFunds);
      }
      if req.mode.value == "internal" {
        r := TransferInternal(user, fromId, amount, req);
      } else if req.mode.value == "external" {
        r := TransferExternal(user, fromId, amount, req);
      } else {
        r := Rejected(UnknownMode);
      }
    }

    /** The destination checks, then both balances and the new record. */
    method TransferInternal(user: User, fromId: int, amount: int, req: TransferRequest) returns (r: Outcome<Txn, TransferError>)
      requires fromId in accounts
      modifies this
      ensures r == InternalTransfer(old(State()), user, fromId, amount, req)
      ensures State() == if r.Done? then r.after else old(State())
    {
      if !Truthy(req.toAccountId) {
        return Rejected(DestinationRequired);
      }
      var toId := req.toAccountId.value;
      if toId !in accounts || accounts[toId].userId != user.id {
        return Rejected(DestinationNotFound);
      }
      var from, to := accounts[fromId], accounts[toId];
      if toId == fromId {
        return Rejected(SameAccount);
      }
      if to.status != AccountStatus.ACTIVE {
        return Rejected(DestinationNotActive);
      }
      var t := Txn(nextTxnId, Some(fromId), Some(toId), Some(user.id), amount,
                   TRANSFER_INTERNAL, COMPLETED, OrElse(req.description, InternalDescription(from, to)));
      DebitAccount(fromId, amount);
      CreditAccount(toId, amount);
      AppendTxn(t);
      r := Done(t, State());
    }

    /** The beneficiary check, then the debit and the new record. */
    method TransferExternal(user: User, fromId: int, amount: int, req: TransferRequest) returns (r: Outcome<Txn, TransferError>)
      requires fromId in accounts
      modifies this
      ensures r == ExternalTransfer(old(State()), user, fromId, amount, req)
      ensures State() == if r.Done? then r.after else old(State())
    {
      if !Filled(req.externalName) || !Filled(req.externalIban) {
        return Rejected(BeneficiaryRequired);
      }
      var t := Txn(nextTxnId, Some(fromId), None, Some(user.id), amount, PAYMENT_EXTERNAL, COMPLETED,
                   OrElse(req.description, ExternalDescription(req.externalName.value, req.externalIban.value)));
      DebitAccount(fromId, amount);
      AppendTxn(t);
      r := Done(t, State());
    }

    // -------------------------------------------------------------------
    // Row updates shared by the transfers
    // -------------------------------------------------------------------

    /** Lowers one account's balance. */
    method DebitAccount(id: int, amount: int)
      requires id in accounts
      modifies this
      ensures State() == old(State()).(accounts := Debit(old(accounts), id, amount))
    {
      accounts := accounts[id := accounts[id].(balance := accounts[id].balance - amount)];
    }

    /** Raises one account's balance. */
    method CreditAccount(id: int, amount: int)
      requires id in accounts
      modifies this
      ensures State() == old(State()).(accounts := Credit(old(accounts), id, amount))
    {
      accounts := accounts[id := accounts[id].(balance := accounts[id].balance + amount)];
    }

    /** Creates a record with the next id. */
    method AppendTxn(t: Txn)
      modifies this
      ensures State() == Append(old(State()), t)
    {
      txns := txns + [t];
      nextTxnId := nextTxnId + 1;
    }

    // -------------------------------------------------------------------
    // Admin transfer
    // -------------------------------------------------------------------

    method AdminTransfer(session: Option<SessionUser>, body: Option<AdminTransferBody>) returns (r: Outcome<Txn, AdminError>)
      requires Valid(State())
      modifies this
      ensures r == LedgerOps.AdminTransfer(old(State()), session, body)
      ensures State() == if r.Done? then r.after else old(State())
      ensures Valid(State())
    {
      if !IsAdmin(session) {
        return Rejected(Unauthorized);
      }
      if body.None? {
        return Rejected(InvalidJson);
      }
      var req := body.value;
      var fromId, toId := ParseId(req.fromAccountId), ParseId(req.toAccountId);
      if fromId.None? || toId.None? {
        return Rejected(InvalidAccountId);
      }
      if req.amount.None? || req.amount.value <= 0 {
        return Rejected(InvalidAmount);
      }
      if fromId.value == toId.value {
        return Rejected(SameAccounts);
      }
      if fromId.value !in accounts || toId.value !in accounts {
        return Rejected(AccountNotFound);
      }
      var from, to, amount := fromId.value, toId.value, req.amount.value;
      if accounts[from].balance < amount {
        return Rejected(InternalError);
      }
      var t := Txn(nextTxnId, Some(from), Some(to), session.value.id, amount,
                   TRANSFER_INTERNAL, COMPLETED, AdminTransferDescription(req.description));
      DebitAccount(from, amount);
      CreditAccount(to, amount);
      AppendTxn(t);
      r := Done(t, State());
      AdminTransferPreservesValid(old(State()), session, body);
    }

    // -------------------------------------------------------------------
    // Record editing
    // -------------------------------------------------------------------

    method Adjust(session: Option<SessionUser>, body: Option<AdjustBody>) returns (r: Outcome<Txn, AdminError>)
      requires Valid(State())
      modifies this
      ensures r == LedgerOps.Adjust(old(State()), session, body)
      ensures State() == if r.Done? then r.after else old(State())
      ensures Valid(State())
    {
      if !IsAdmin(session) {
        return Rejected(Unauthorized);
      }
      if body.None? {
        return Rejected(InvalidJson);
      }
      var req := body.value;
      var id := ParseId(req.transactionId);
      if id.None? {
        return Rejected(InvalidTransactionId);
      }
      if req.newAmount.None? || req.newAmount.value <= 0 {
        return Rejected(InvalidAmount);
      }
      var k := LocateTxn(id.value);
      if k.None? {
        return Rejected(TransactionNotFound);
      }
      var t := txns[k.value].(amount := req.newAmount.value,
                              description := AdjustedDescription(txns[k.value].description, req.note));
      txns := txns[k.value := t];
      r := Done(t, State());
      AdjustPreservesValid(old(State()), session, body);
    }

    method Update(session: Option<SessionUser>, body: Option<UpdateBody>) returns (r: Outcome<Txn, AdminError>)
      requires Valid(State())
      modifies this
      ensures r == LedgerOps.Update(old(State()), session, body)
      ensures State() == if r.Done? then r.after else old(State())
      ensures Valid(State())
    {
      if !IsAdmin(session) {
        return Rejected(Unauthorized);
      }
      if body.None? {
        return Rejected(InvalidJson);
      }
      var req := body.value;
      var id := ParseId(req.transactionId);
      if id.None? {
        return Rejected(InvalidTransactionId);
      }
      var k := LocateTxn(id.value);
      if k.None? {
        return Rejected(TransactionNotFound);
      }
      // the patch is built field by field
      var t := txns[k.value];
      var patched := false;
      if req.description.Some? {
        t := t.(description := Trim(req.description.value));
        patched := true;
      }
      if Filled(req.status) {
        var s := ParseTxnStatus(req.status.value);
        if s.None? {
          return Rejected(InternalError);
        }
        t := t.(status := s.value);
        patched := true;
      }
      if !patched {
        return Rejected(NothingToUpdate);
      }
      txns := txns[k.value := t];
      r := Done(t, State());
      UpdatePreservesValid(old(State()), session, body);
    }

    method Delete(session: Option<SessionUser>, body: Option<DeleteBody>) returns (r: Outcome<Txn, AdminError>)
      requires Valid(State())
      modifies this
      ensures r == LedgerOps.Delete(old(State()), session, body)
      ensures State() == if r.Done? then r.after else old(State())
      ensures Valid(State())
    {
      if !IsAdmin(session) {
        return Rejected(Unauthorized);
      }
      if body.None? {
        return Rejected(InvalidJson);
      }
      var id := ParseId(body.value.transactionId);
      if id.None? {
        return Rejected(InvalidTransactionId);
      }
      var k := LocateTxn(id.value);
      if k.None? {
        return Rejected(TransactionNotFound);
      }
      var t := txns[k.value].(status := CANCELLED, description := txns[k.value].description + CancelSuffix);
      txns := txns[k.value := t];
      r := Done(t, State());
      DeletePreservesValid(old(State()), session, body);
    }

    // -------------------------------------------------------------------
    // Account status
    // -------------------------------------------------------------------

    method SetAccountStatus(session: Option<SessionUser>, body: Option<AccountUpdateBody>) returns (r: Outcome<Account, AdminError>)
      requires Valid(State())
      modifies this
      ensures r == LedgerOps.SetAccountStatus(old(State()), session, body)
      ensures State() == if r.Done? then r.after else old(State())
      ensures Valid(State())
    {
      if !IsAdmin(session) {
        return Rejected(Unauthorized);
      }
      if body.None? {
        return Rejected(InternalError);
      }
      var req := body.value;
      if !Truthy(req.accountId) || !Filled(req.newStatus) {
        return Rejected(MissingFields);
      }
      var s := ParseAccountStatus(req.newStatus.value);
      if s.None? || req.accountId.value !in accounts {
        return Rejected(InternalError);
      }
      var id := req.accountId.value;
      var a := accounts[id].(status := s.value);
      accounts := accounts[id := a];
      r := Done(a, State());
      SetAccountStatusPreservesValid(old(State()), session, body);
    }

    // -------------------------------------------------------------------
    // Registration
    // -------------------------------------------------------------------

    /** `passwordHash` is the bcrypt hash of the password, `draw` the value
        of Math.random() used for the IBAN and `isDate` whether `new Date`
        reads a text as a valid date. */
    method Register(body: Option<RegisterBody>, passwordHash: string, draw: real, isDate: string -> bool)
      returns (r: Outcome<User, RegisterError>)
      requires 0.0 <= draw < 1.0
      requires Valid(State())
      modifies this
      ensures r == LedgerOps.Register(old(State()), body, passwordHash, draw, isDate)
      ensures State() == if r.Done? then r.after else old(State())
      ensures Valid(State())
    {
      if body.None? {
        return Rejected(RegisterFailed);
      }
      var req := body.value;
      if !Filled(req.fullName) || !Filled(req.email) || !Filled(req.password) {
        return Rejected(RegisterMissingFields);
      }
      var email := NormaliseEmail(req.email.value);
      var existing := FindUser(email);
      if existing.Some? {
        return Rejected(EmailTaken);
      }
      var iban := Registration.GenerateIban(draw);
      var clash := IbanInUse(iban);
      if clash || (Filled(req.dateOfBirth) && !isDate(req.dateOfBirth.value)) {
        return Rejected(RegisterFailed);
      }
      var u := User(nextUserId, Trim(req.fullName.value), email, passwordHash, USER, UserStatus.ACTIVE,
                    if Filled(req.dateOfBirth) then req.dateOfBirth else None,
                    if Filled(req.profileImageUrl) then req.profileImageUrl else None);
      var a := Account(u.id, "Conto Genius", CURRENT, iban, 0, "EUR", AccountStatus.ACTIVE);
      Insert(u, a);
      r := Done(u, State());
      RegisterPreservesValid(old(State()), body, passwordHash, draw, isDate);
    }

    /** Creates the user row and its nested account row. */
    method Insert(u: User, a: Account)
      modifies this
      ensures State() == Enrol(old(State()), u, a)
    {
      users := users + [u];
      accounts := accounts[nextAccountId := a];
      nextUserId := nextUserId + 1;
      nextAccountId := nextAccountId + 1;
    }
  }

  /** FindTxn reports the first record with the id. */
  lemma {:induction false} FindTxnFirst(txns: seq<Txn>, i: nat)
    requires i < |txns|
    requires forall j :: 0 <= j < i ==> txns[j].id != txns[i].id
    ensures FindTxn(txns, txns[i].id) == Some(i)
  {
    if i > 0 {
      assert txns[1..][i - 1] == txns[i];
      FindTxnFirst(txns[1..], i - 1);
    }
  }
}
