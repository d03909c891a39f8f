/** What each server route does to the bank, as a pure function from the
    state before the request to either a typed rejection (nothing written)
    or the committed effect, together with the properties of each route. */
module LedgerOps {
  import opened Common
  import opened LedgerModel
  import Registration

  /** A route either commits (a value for the response plus the new state)
      or rejects with nothing written. */
  datatype Outcome<T, E> = Done(value: T, after: Bank) | Rejected(error: E)

  function Debit(accounts: map<int, Account>, id: int, amount: int): map<int, Account>
    requires id in accounts
  {
    accounts[id := accounts[id].(balance := accounts[id].balance - amount)]
  }

  function Credit(accounts: map<int, Account>, id: int, amount: int): map<int, Account>
    requires id in accounts
  {
    accounts[id := accounts[id].(balance := accounts[id].balance + amount)]
  }

  /** Appending a record with a fresh id. */
  function Append(b: Bank, t: Txn): Bank {
    b.(txns := b.txns + [t], nextTxnId := b.nextTxnId + 1)
  }

  // =====================================================================
  // User transfer (internal between own accounts, or external to an IBAN)
  // =====================================================================

  datatype TransferRequest = TransferRequest(
    mode: Option<string>,
    fromAccountId: Option<int>,
    toAccountId: Option<int>,
    externalName: Option<string>,
    externalIban: Option<string>,
    amount: Option<int>,
    description: Option<string>)

  datatype TransferError =
    | NotAuthenticated | UserNotFound | InvalidTransferData
    | SourceNotFound | SourceNotActive | NonPositiveAmount | InsufficientFunds
    | DestinationRequired | DestinationNotFound | SameAccount | DestinationNotActive
    | BeneficiaryRequired | UnknownMode | UnreadableBody

  /** The status each refusal is answered with; a body that cannot be read
      throws and reaches the route's generic handler. */
  function TransferHttpStatus(e: TransferError): (code: nat)
    ensures code == 401 <==> e == NotAuthenticated
    ensures code == 404 <==> e in {UserNotFound, SourceNotFound, DestinationNotFound}
    ensures code == 500 <==> e == UnreadableBody
    ensures code in {400, 401, 404, 500}
  {
    match e
    case NotAuthenticated => 401
    case UserNotFound | SourceNotFound | DestinationNotFound => 404
    case UnreadableBody => 500
    case _ => 400
  }

  function InternalDescription(from: Account, to: Account): string {
    "Trasferimento interno da " + from.name + " a " + to.name
  }

  function ExternalDescription(name: string, iban: string): string {
    "Bonifico a favore di " + name + " \U{2013} IBAN " + ToUpper(StripSpaces(iban))
  }

  /** The transfer route. `body` is None when the request body is not JSON
      or is JSON `null`: reading or destructuring it throws, which the
      route's handler answers with 500. The session and the caller are
      looked at before the body is read. */
  function Transfer(b: Bank, session: Option<SessionUser>, body: Option<TransferRequest>): (r: Outcome<Txn, TransferError>)
    ensures r.Done? ==> body.Some? && r.after.users == b.users && r.after.txns == b.txns + [r.value]
    ensures r.Done? ==> r.value.id == b.nextTxnId && r.value.status == COMPLETED
    ensures r.Done? ==> body.value.amount == Some(r.value.amount) && r.value.amount > 0
  {
    if session.None? || !Filled(session.value.email) then Rejected(NotAuthenticated)
    else match FindUserByEmail(b.users, session.value.email.value)
      case None => Rejected(UserNotFound)
      case Some(user) =>
        if body.None? then Rejected(UnreadableBody) else TransferBy(b, user, body.value)
  }

  /** The transfer once the caller is known. */
  function TransferBy(b: Bank, user: User, req: TransferRequest): (r: Outcome<Txn, TransferError>)
    ensures r.Done? ==> req.fromAccountId.Some? && r.value.fromAccountId == req.fromAccountId
    ensures r.Done? ==>
      && req.fromAccountId.value in b.accounts
      && b.accounts[req.fromAccountId.value].userId == user.id
      && b.accounts[req.fromAccountId.value].status == AccountStatus.ACTIVE
    ensures r.Done? ==> r.value.userId == Some(user.id) && r.after.users == b.users
  {
    if !Filled(req.mode) || !Truthy(req.fromAccountId) || !Truthy(req.amount) || req.amount.value <= 0 then
      Rejected(InvalidTransferData)
    else
      var fromId, amount := req.fromAccountId.value, req.amount.value;
      match OwnedAccount(b.accounts, fromId, user.id)
      case None => Rejected(SourceNotFound)
      case Some(from) =>
        if from.status != AccountStatus.ACTIVE then Rejected(SourceNotActive)
        else if amount <= 0 then Rejected(NonPositiveAmount)
        else if from.balance < amount then Rejected(InsufficientFunds)
        else if req.mode.value == "internal" then InternalTransfer(b, user, fromId, amount, req)
        else if req.mode.value == "external" then ExternalTransfer(b, user, fromId, amount, req)
        else Rejected(UnknownMode)
  }

  // ---------------------------------------------------------------------
  // The transfer amount as the route reads it
  // ---------------------------------------------------------------------

  /** The body's `amount` as JSON delivers it. */
  datatype RawAmount = RawNumber(x: real) | RawText(s: string) | RawBool(b: bool) | RawNull | RawObject

  /** JavaScript truthiness of the value: `!amount` is its negation. */
  predicate RawTruthy(a: RawAmount) {
    match a
    case RawNumber(x) => x != 0.0
    case RawText(s) => s != []
    case RawBool(b) => b
    case RawNull => false
    case RawObject => true
  }

  /** `Number(amount)`, the conversion `<=` and `<` also apply; None is NaN.
      Text is read by the decimal scanner: a sign, digits and one decimal
      point. An object is NaN. */
  function RawNumberOf(a: RawAmount): (r: Option<real>)
    ensures a.RawNumber? ==> r == Some(a.x)
    ensures a.RawBool? ==> r.Some?
    ensures a.RawObject? ==> r.None?
  {
    match a
    case RawNumber(x) => Some(x)
    case RawText(s) => JsNumber(s)
    case RawBool(b) => Some(if b then 1.0 else 0.0)
    case RawNull => Some(0.0)
    case RawObject => None
  }

  /** `n <= 0`, false for NaN like every comparison with NaN. */
  predicate AtMostZero(n: Option<real>) {
    n.Some? && n.value <= 0.0
  }

  /** The route's amount checks as written: `!amount || amount <= 0` first,
      then `numericAmount <= 0` and `currentBalance < numericAmount` on
      `Number(amount)`. None of them asks for a finite number. */
  predicate AmountPassesAsWritten(a: RawAmount, balance: real) {
    var n := RawNumberOf(a);
    && RawTruthy(a) && !AtMostZero(n)
    && !AtMostZero(n)
    && !(n.Some? && balance < n.value)
  }

  /** The same checks with the finiteness test the admin transfer route
      makes, applied to the number the writes use. */
  predicate AmountPassesIntended(a: RawAmount, balance: real) {
    AmountPassesAsWritten(a, balance) && RawNumberOf(a).Some?
  }

  /** Text none of JavaScript's other number forms can match: no exponent
      letter, no `Infinity`, and no `0x`, `0o` or `0b` prefix. On such text
      `Number` is NaN exactly when the decimal scanner fails. */
  predicate DecimalOrNaNText(s: string) {
    && (forall i :: 0 <= i < |s| ==> s[i] != 'e' && s[i] != 'E' && s[i] != 'I')
    && (forall i :: 0 < i < |s| && s[i - 1] == '0' ==> s[i] !in {'x', 'X', 'o', 'O', 'b', 'B'})
  }

  /** As written, any non-empty text that is not a number passes every check,
      whatever the balance, and reaches the writes as NaN; "abc" is one. */
  lemma NaNAmountPassesAsWritten(s: string, balance: real)
    requires s != [] && DecimalOrNaNText(s) && JsNumber(s).None?
    ensures AmountPassesAsWritten(RawText(s), balance)
    ensures RawNumberOf(RawText(s)).None? && !AmountPassesIntended(RawText(s), balance)
  {
  }

  /** "abc" is not a number, so `Number("abc")` is NaN. */
  lemma AbcIsNaN()
    ensures JsNumber("abc").None?
  {
    var t := "abc";
    assert NoSpaces(t) by {
      forall i | 0 <= i < |t| ensures !IsSpace(t[i]) {
        assert t[i] == 'a' || t[i] == 'b' || t[i] == 'c';
      }
    }
    assert Trim(t) == t;
    assert SignLength(t) == 0;
    assert t[0..] == t;
    assert LeadingDigits(t) == 0;
    assert ScanDecimal(t).digits == 0;
  }

  /** "abc" has no exponent letter, no `Infinity` and no prefix. */
  lemma AbcIsDecimalOrNaN()
    ensures DecimalOrNaNText("abc")
  {
    var t := "abc";
    assert |t| == 3 && t[0] == 'a' && t[1] == 'b' && t[2] == 'c';
  }

  /** The concrete case: the text "abc" passes every check as written and
      fails the intended one, whatever the balance. */
  lemma AbcPassesAsWritten(balance: real)
    ensures AmountPassesAsWritten(RawText("abc"), balance)
    ensures !AmountPassesIntended(RawText("abc"), balance)
  {
    AbcIsNaN();
    AbcIsDecimalOrNaN();
    NaNAmountPassesAsWritten("abc", balance);
  }

  /** The model's transfer reads the amount as the intended check does: a
      transfer commits only with a number that is positive and covered by
      the source's balance. */
  lemma TransferAmountChecked(b: Bank, user: User, req: TransferRequest)
    requires TransferBy(b, user, req).Done?
    ensures req.amount.Some? && req.fromAccountId.Some? && req.fromAccountId.value in b.accounts
    ensures 0 < req.amount.value <= b.accounts[req.fromAccountId.value].balance
  {
  }

  /** An object amount such as `{}` is truthy and NaN: it passes every check
      as written, whatever the balance, and fails the intended one. */
  lemma ObjectPassesAsWritten(balance: real)
    ensures AmountPassesAsWritten(RawObject, balance)
    ensures !AmountPassesIntended(RawObject, balance)
  {
  }

  /** With the finiteness test, exactly the finite positive amounts the
      balance covers pass; on a JSON number it agrees with the checks as
      written, so only values that are not numbers are affected. */
  lemma AmountIntendedIff(a: RawAmount, balance: real)
    ensures AmountPassesIntended(a, balance) <==>
      RawNumberOf(a).Some? && 0.0 < RawNumberOf(a).value <= balance
    ensures a.RawNumber? ==> (AmountPassesIntended(a, balance) <==> AmountPassesAsWritten(a, balance))
  {
  }

  /** The internal branch, once the source has passed its checks. */
  function InternalTransfer(b: Bank, user: User, fromId: int, amount: int, req: TransferRequest): (r: Outcome<Txn, TransferError>)
    requires fromId in b.accounts
    ensures r.Done? ==> req.toAccountId.Some? && r.value.toAccountId == req.toAccountId
    ensures r.Done? ==> var to := req.toAccountId.value;
      && to != fromId && to in b.accounts && b.accounts[to].userId == user.id
      && b.accounts[to].status == AccountStatus.ACTIVE
    ensures r.Done? ==> r.value.kind == TRANSFER_INTERNAL && r.after.accounts.Keys == b.accounts.Keys
  {
    if !Truthy(req.toAccountId) then Rejected(DestinationRequired)
    else
      var toId := req.toAccountId.value;
      match OwnedAccount(b.accounts, toId, user.id)
      case None => Rejected(DestinationNotFound)
      case Some(to) =>
        if toId == fromId then Rejected(SameAccount)
        else if to.status != AccountStatus.ACTIVE then Rejected(DestinationNotActive)
        else
          var t := Txn(b.nextTxnId, Some(fromId), Some(toId), Some(user.id), amount,
                       TRANSFER_INTERNAL, COMPLETED,
                       OrElse(req.description, InternalDescription(b.accounts[fromId], to)));
          Done(t, Append(b.(accounts := Credit(Debit(b.accounts, fromId, amount), toId, amount)), t))
  }

  /** The external branch, once the source has passed its checks. */
  function ExternalTransfer(b: Bank, user: User, fromId: int, amount: int, req: TransferRequest): (r: Outcome<Txn, TransferError>)
    requires fromId in b.accounts
    ensures r.Done? <==> Filled(req.externalName) && Filled(req.externalIban)
    ensures r.Done? ==> r.value.kind == PAYMENT_EXTERNAL && r.value.toAccountId.None?
    ensures r.Done? ==> r.after.accounts.Keys == b.accounts.Keys && r.after.accounts[fromId].balance == b.accounts[fromId].balance - amount
  {
    if !Filled(req.externalName) || !Filled(req.externalIban) then Rejected(BeneficiaryRequired)
    else
      var t := Txn(b.nextTxnId, Some(fromId), None, Some(user.id), amount,
                   PAYMENT_EXTERNAL, COMPLETED,
                   OrElse(req.description, ExternalDescription(req.externalName.value, req.externalIban.value)));
      Done(t, Append(b.(accounts := Debit(b.accounts, fromId, amount)), t))
  }

  /** The caller as the session names them: users[k] carries the session email. */
  predicate SessionIs(b: Bank, session: Option<SessionUser>, k: int) {
    && 0 <= k < |b.users|
    && session.Some? && session.value.email == Some(b.users[k].email)
    && b.users[k].email != ""
  }

  /** The conditions under which an internal transfer commits, stated without
      reference to the order in which the route checks them. */
  predicate InternalAllowed(b: Bank, owner: int, req: TransferRequest) {
    && req.mode == Some("internal")
    && req.fromAccountId.Some? && req.toAccountId.Some? && req.amount.Some?
    && var from, to, amount := req.fromAccountId.value, req.toAccountId.value, req.amount.value;
    && from != 0 && to != 0 && from != to && amount > 0
    && from in b.accounts && to in b.accounts
    && b.accounts[from].userId == owner && b.accounts[to].userId == owner
    && b.accounts[from].status == AccountStatus.ACTIVE
    && b.accounts[to].status == AccountStatus.ACTIVE
    && b.accounts[from].balance >= amount
  }

  predicate ExternalAllowed(b: Bank, owner: int, req: TransferRequest) {
    && req.mode == Some("external")
    && req.fromAccountId.Some? && req.amount.Some?
    && var from, amount := req.fromAccountId.value, req.amount.value;
    && from != 0 && amount > 0
    && from in b.accounts && b.accounts[from].userId == owner
    && b.accounts[from].status == AccountStatus.ACTIVE
    && b.accounts[from].balance >= amount
    && Filled(req.externalName) && Filled(req.externalIban)
  }

  /** A transfer by users[k] commits exactly when the request is an allowed
      internal or external transfer of theirs. */
  lemma TransferCommitsIff(b: Bank, session: Option<SessionUser>, body: Option<TransferRequest>, k: int)
    requires Valid(b) && SessionIs(b, session, k)
    ensures Transfer(b, session, body).Done? <==>
      body.Some? && (InternalAllowed(b, b.users[k].id, body.value) || ExternalAllowed(b, b.users[k].id, body.value))
  {
    FindUserByEmailUnique(b.users, k);
  }

  /** Without an e-mail in the session nothing else is looked at. */
  lemma TransferNeedsSession(b: Bank, session: Option<SessionUser>, body: Option<TransferRequest>)
    requires session.None? || session.value.email.None? || session.value.email == Some("")
    ensures Transfer(b, session, body) == Rejected(NotAuthenticated)
  {
  }

  /** A signed-in caller whose body cannot be read gets the generic 500. */
  lemma TransferUnreadableBody(b: Bank, session: Option<SessionUser>, k: int)
    requires Valid(b) && SessionIs(b, session, k)
    ensures Transfer(b, session, None) == Rejected(UnreadableBody)
    ensures TransferHttpStatus(Transfer(b, session, None).error) == 500
  {
    FindUserByEmailUnique(b.users, k);
  }

  /** The route's second "amount must be positive" check can never fire:
      the first validation already rejected every such amount. */
  lemma TransferNonPositiveUnreachable(b: Bank, session: Option<SessionUser>, body: Option<TransferRequest>)
    ensures Transfer(b, session, body) != Rejected(NonPositiveAmount)
  {
  }

  /** The balance check comes before every mode-specific check: an owned,
      active source with too little money reports insufficient funds whatever
      the mode, destination or beneficiary. */
  lemma TransferFundsCheckedBeforeMode(b: Bank, session: Option<SessionUser>, req: TransferRequest, k: int)
    requires Valid(b) && SessionIs(b, session, k)
    requires Filled(req.mode) && Truthy(req.fromAccountId) && Truthy(req.amount) && req.amount.value > 0
    requires req.fromAccountId.value in b.accounts
    requires b.accounts[req.fromAccountId.value].userId == b.users[k].id
    requires b.accounts[req.fromAccountId.value].status == AccountStatus.ACTIVE
    requires b.accounts[req.fromAccountId.value].balance < req.amount.value
    ensures Transfer(b, session, Some(req)) == Rejected(InsufficientFunds)
  {
    FindUserByEmailUnique(b.users, k);
  }

  /** Effect of a committed internal transfer: the source loses the amount,
      the destination gains it, every other account is as it was, and one
      TRANSFER_INTERNAL COMPLETED record naming both accounts is appended. */
  lemma InternalTransferEffect(b: Bank, session: Option<SessionUser>, req: TransferRequest)
    requires Transfer(b, session, Some(req)).Done? && req.mode == Some("internal")
    ensures var o := Transfer(b, session, Some(req));
      var from, to, amount := req.fromAccountId.value, req.toAccountId.value, req.amount.value;
      && from in b.accounts && to in b.accounts && from != to
      && o.after.accounts.Keys == b.accounts.Keys
      && o.after.accounts[from] == b.accounts[from].(balance := b.accounts[from].balance - amount)
      && o.after.accounts[to] == b.accounts[to].(balance := b.accounts[to].balance + amount)
      && (forall id :: id in b.accounts && id != from && id != to ==> o.after.accounts[id] == b.accounts[id])
      && o.after.txns == b.txns + [o.value]
      && o.value.fromAccountId == Some(from) && o.value.toAccountId == Some(to)
      && o.value.amount == amount && o.value.kind == TRANSFER_INTERNAL && o.value.status == COMPLETED
      && o.after.users == b.users
  {
  }

  /** Effect of a committed external payment: only the source is debited and
      the record has no destination. */
  lemma ExternalTransferEffect(b: Bank, session: Option<SessionUser>, req: TransferRequest)
    requires Transfer(b, session, Some(req)).Done? && req.mode == Some("external")
    ensures var o := Transfer(b, session, Some(req));
      var from, amount := req.fromAccountId.value, req.amount.value;
      && from in b.accounts
      && o.after.accounts == b.accounts[from := b.accounts[from].(balance := b.accounts[from].balance - amount)]
      && o.after.txns == b.txns + [o.value]
      && o.value.fromAccountId == Some(from) && o.value.toAccountId.None?
      && o.value.amount == amount && o.value.kind == PAYMENT_EXTERNAL && o.value.status == COMPLETED
      && (!Filled(req.description) ==>
            o.value.description == ExternalDescription(req.externalName.value, req.externalIban.value))
  {
  }

  /** The default description of an external payment names the IBAN with no
      whitespace and in upper case. */
  lemma ExternalDescriptionIban(name: string, iban: string)
    ensures var d := ExternalDescription(name, iban);
      var prefix := "Bonifico a favore di " + name + " \U{2013} IBAN ";
      && d[..|prefix|] == prefix
      && NoSpaces(d[|prefix|..])
      && (forall c :: c in d[|prefix|..] ==> !('a' <= c <= 'z'))
  {
    var prefix := "Bonifico a favore di " + name + " \U{2013} IBAN ";
    var tail := ToUpper(StripSpaces(iban));
    var d := ExternalDescription(name, iban);
    assert d == prefix + tail;
    assert d[|prefix|..] == tail;
    forall c | c in tail
      ensures !IsSpace(c) && !('a' <= c <= 'z')
    {
      var i :| 0 <= i < |tail| && tail[i] == c;
      assert c == UpperChar(StripSpaces(iban)[i]);
    }
  }

  lemma TotalBalanceDebit(accounts: map<int, Account>, id: int, amount: int)
    requires id in accounts
    ensures TotalBalance(Debit(accounts, id, amount)) == TotalBalance(accounts) - amount
  {
    TotalBalanceUpdate(accounts, id, accounts[id].(balance := accounts[id].balance - amount));
  }

  lemma TotalBalanceCredit(accounts: map<int, Account>, id: int, amount: int)
    requires id in accounts
    ensures TotalBalance(Credit(accounts, id, amount)) == TotalBalance(accounts) + amount
  {
    TotalBalanceUpdate(accounts, id, accounts[id].(balance := accounts[id].balance + amount));
  }

  /** Money is conserved by an internal transfer and leaves the bank by
      exactly the amount of an external payment. */
  lemma TransferConservation(b: Bank, session: Option<SessionUser>, req: TransferRequest)
    requires Transfer(b, session, Some(req)).Done?
    ensures var after := Transfer(b, session, Some(req)).after;
      if req.mode == Some("internal") then TotalBalance(after.accounts) == TotalBalance(b.accounts)
      else TotalBalance(after.accounts) == TotalBalance(b.accounts) - req.amount.value
  {
    var from, amount := req.fromAccountId.value, req.amount.value;
    TotalBalanceDebit(b.accounts, from, amount);
    if req.mode == Some("internal") {
      TotalBalanceCredit(Debit(b.accounts, from, amount), req.toAccountId.value, amount);
    }
  }

  /** Appending a positive-amount record with the next id between existing
      accounts keeps the record invariants. */
  lemma AppendKeepsTxns(b: Bank, accounts: map<int, Account>, t: Txn)
    requires TxnsWellFormed(b.txns, b.accounts, b.nextTxnId)
    requires b.accounts.Keys == accounts.Keys
    requires t.id == b.nextTxnId && t.amount > 0
    requires RefersToAccount(t.fromAccountId, accounts) && RefersToAccount(t.toAccountId, accounts)
    ensures TxnsWellFormed(b.txns + [t], accounts, b.nextTxnId + 1)
  {
    var s := b.txns + [t];
    forall i | 0 <= i < |s|
      ensures RefersToAccount(s[i].fromAccountId, accounts) && RefersToAccount(s[i].toAccountId, accounts)
    {
      if i < |b.txns| {
        assert s[i] == b.txns[i];
        assert RefersToAccount(b.txns[i].fromAccountId, b.accounts);
        assert RefersToAccount(b.txns[i].toAccountId, b.accounts);
      }
    }
  }

  /** A committed transfer keeps the bank valid; in particular no account is
      left overdrawn. */
  lemma TransferPreservesValid(b: Bank, session: Option<SessionUser>, req: TransferRequest)
    requires Valid(b) && Transfer(b, session, Some(req)).Done?
    ensures Valid(Transfer(b, session, Some(req)).after)
  {
    var o := Transfer(b, session, Some(req));
    var from, amount := req.fromAccountId.value, req.amount.value;
    var accounts := o.after.accounts;
    assert accounts.Keys == b.accounts.Keys;
    assert NoOverdraft(accounts) by {
      forall id | id in accounts ensures accounts[id].balance >= 0 {
        if id == from {
          assert accounts[id].balance == b.accounts[id].balance - amount;
        }
      }
    }
    forall x, y | x in accounts && y in accounts && x != y
      ensures accounts[x].iban != accounts[y].iban
    {
      assert accounts[x].iban == b.accounts[x].iban && accounts[y].iban == b.accounts[y].iban;
    }
    AppendKeepsTxns(b, accounts, o.value);
  }

  // =====================================================================
  // Admin routes: shared request parsing
  // =====================================================================

  /** An identifier as it arrives in the JSON body: a number, a string that
      is run through parseInt(…, 10), or absent. */
  datatype IdField = IdNumber(n: int) | IdText(text: string) | IdMissing

  /** The identifier when it is a finite number after parsing. */
  function ParseId(f: IdField): (r: Option<int>)
    ensures f.IdNumber? ==> r == Some(f.n)
    ensures f.IdMissing? ==> r.None?
  {
    match f
    case IdNumber(n) => Some(n)
    case IdText(s) => ParseInt(s)
    case IdMissing => None
  }

  /** Both spellings of an identifier reach the same record. */
  lemma ParseIdAgrees(n: int)
    ensures ParseId(IdText(IntToString(n))) == ParseId(IdNumber(n))
  {
    ParseIntOfInt(n);
  }

  datatype AdminError =
    | Unauthorized | InvalidJson | InvalidAccountId | InvalidAmount | SameAccounts
    | AccountNotFound | InvalidTransactionId | TransactionNotFound | NothingToUpdate
    | MissingFields | InternalError

  function AdminHttpStatus(e: AdminError): (code: nat)
    ensures code == 401 <==> e == Unauthorized
    ensures code == 404 <==> e in {AccountNotFound, TransactionNotFound}
    ensures code == 500 <==> e == InternalError
  {
    match e
    case Unauthorized => 401
    case AccountNotFound | TransactionNotFound => 404
    case InternalError => 500
    case _ => 400
  }

  predicate IsAdmin(session: Option<SessionUser>) {
    session.Some? && session.value.role == ADMIN
  }

  /** Some record carries this id. */
  predicate HasTxn(txns: seq<Txn>, id: int) {
    exists i :: 0 <= i < |txns| && txns[i].id == id
  }

  lemma FindTxnIff(txns: seq<Txn>, id: int)
    ensures FindTxn(txns, id).Some? <==> HasTxn(txns, id)
  {
    if FindTxn(txns, id).Some? {
      var k := FindTxn(txns, id).value;
      assert txns[k].id == id;
    }
  }

  // =====================================================================
  // Admin transfer between any two accounts
  // =====================================================================

  /** `amount` is the body's amount after parseFloat when it is a string;
      None when it is absent or not a finite number. */
  datatype AdminTransferBody = AdminTransferBody(
    fromAccountId: IdField,
    toAccountId: IdField,
    amount: Option<int>,
    description: Option<string>)

  /** The marker appended to every admin transfer's description. */
  const AdminMarker := " (operazione admin)"

  /** The description used when the body gives none. */
  const AdminDefaultDescription := "Trasferimento amministratore"

  function AdminTransferDescription(description: Option<string>): string {
    (if description.Some? && |Trim(description.value)| > 0 then Trim(description.value)
     else AdminDefaultDescription) + AdminMarker
  }

  /** The admin transfer route. `body` is None when the request body is not
      JSON. */
  function AdminTransfer(b: Bank, session: Option<SessionUser>, body: Option<AdminTransferBody>): (r: Outcome<Txn, AdminError>)
    ensures r.Done? ==> IsAdmin(session) && r.value.userId == session.value.id
    ensures r.Done? ==> r.after.users == b.users && r.after.txns == b.txns + [r.value] && r.value.id == b.nextTxnId
    ensures r.Done? ==> r.after.accounts.Keys == b.accounts.Keys
  {
    if !IsAdmin(session) then Rejected(Unauthorized)
    else if body.None? then Rejected(InvalidJson)
    else
      var req := body.value;
      var fromId, toId := ParseId(req.fromAccountId), ParseId(req.toAccountId);
      if fromId.None? || toId.None? then Rejected(InvalidAccountId)
      else if req.amount.None? || req.amount.value <= 0 then Rejected(InvalidAmount)
      else if fromId.value == toId.value then Rejected(SameAccounts)
      else if fromId.value !in b.accounts || toId.value !in b.accounts then Rejected(AccountNotFound)
      else
        AdminTransferUnit(b, session.value.id, fromId.value, toId.value, req.amount.value, req.description)
  }

  /** The database transaction of the admin transfer: the insufficient-funds
      error is thrown inside it and reported by the generic handler. */
  function AdminTransferUnit(b: Bank, adminId: Option<int>, from: int, to: int, amount: int,
                             description: Option<string>): (r: Outcome<Txn, AdminError>)
    requires from in b.accounts && to in b.accounts
    ensures r.Rejected? <==> b.accounts[from].balance < amount
    ensures r.Rejected? ==> r.error == InternalError
  {
    if b.accounts[from].balance < amount then Rejected(InternalError)
    else
      var t := Txn(b.nextTxnId, Some(from), Some(to), adminId, amount,
                   TRANSFER_INTERNAL, COMPLETED, AdminTransferDescription(description));
      Done(t, Append(b.(accounts := Credit(Debit(b.accounts, from, amount), to, amount)), t))
  }

  /** The conditions under which an admin transfer commits. Neither owner nor
      status is consulted: frozen and closed accounts can be used. */
  predicate AdminTransferAllowed(b: Bank, session: Option<SessionUser>, body: Option<AdminTransferBody>) {
    && IsAdmin(session) && body.Some?
    && var from, to := ParseId(body.value.fromAccountId), ParseId(body.value.toAccountId);
    && from.Some? && to.Some? && from.value != to.value
    && body.value.amount.Some? && body.value.amount.value > 0
    && from.value in b.accounts && to.value in b.accounts
    && b.accounts[from.value].balance >= body.value.amount.value
  }

  lemma AdminTransferCommitsIff(b: Bank, session: Option<SessionUser>, body: Option<AdminTransferBody>)
    ensures AdminTransfer(b, session, body).Done? <==> AdminTransferAllowed(b, session, body)
    ensures !IsAdmin(session) ==> AdminTransfer(b, session, body) == Rejected(Unauthorized)
  {
  }

  /** Decrement and increment use the same amount: the two balances keep
      their sum, and so does the whole bank. The record names the two
      accounts of the body, its amount and the marked description; every
      other account and every user is as it was. */
  lemma AdminTransferConservation(b: Bank, session: Option<SessionUser>, body: Option<AdminTransferBody>)
    requires AdminTransfer(b, session, body).Done?
    ensures var o := AdminTransfer(b, session, body);
      var from, to := o.value.fromAccountId.value, o.value.toAccountId.value;
      && o.value.fromAccountId == ParseId(body.value.fromAccountId)
      && o.value.toAccountId == ParseId(body.value.toAccountId)
      && body.value.amount == Some(o.value.amount)
      && o.value.description == AdminTransferDescription(body.value.description)
      && from in b.accounts && to in b.accounts && from != to
      && o.after.accounts[from].balance + o.after.accounts[to].balance
         == b.accounts[from].balance + b.accounts[to].balance
      && o.after.accounts[from] == b.accounts[from].(balance := b.accounts[from].balance - o.value.amount)
      && o.after.accounts[to] == b.accounts[to].(balance := b.accounts[to].balance + o.value.amount)
      && o.after.accounts.Keys == b.accounts.Keys
      && (forall id :: id in b.accounts && id != from && id != to ==> o.after.accounts[id] == b.accounts[id])
      && TotalBalance(o.after.accounts) == TotalBalance(b.accounts)
      && o.value.kind == TRANSFER_INTERNAL && o.value.status == COMPLETED
      && o.after.txns == b.txns + [o.value]
      && o.after.users == b.users
  {
    var o := AdminTransfer(b, session, body);
    var from, to, amount := o.value.fromAccountId.value, o.value.toAccountId.value, o.value.amount;
    TotalBalanceDebit(b.accounts, from, amount);
    TotalBalanceCredit(Debit(b.accounts, from, amount), to, amount);
  }

  /** A well-formed request whose source cannot cover the amount is refused
      inside the database transaction; the thrown error reaches the generic
      handler, so the caller sees 500 rather than a 400. */
  lemma AdminTransferUncovered(b: Bank, session: Option<SessionUser>, body: Option<AdminTransferBody>, from: int, to: int)
    requires IsAdmin(session) && body.Some?
    requires ParseId(body.value.fromAccountId) == Some(from) && ParseId(body.value.toAccountId) == Some(to)
    requires from != to && from in b.accounts && to in b.accounts
    requires body.value.amount.Some? && body.value.amount.value > 0
    requires b.accounts[from].balance < body.value.amount.value
    ensures AdminTransfer(b, session, body) == Rejected(InternalError)
    ensures AdminHttpStatus(AdminTransfer(b, session, body).error) == 500
  {
  }

  /** The record's description always ends with the admin marker. */
  lemma AdminTransferDescriptionMarked(description: Option<string>)
    ensures var d := AdminTransferDescription(description);
      var marker := AdminMarker;
      |d| > |marker| && d[|d| - |marker|..] == marker
  {
  }

  lemma AdminTransferPreservesValid(b: Bank, session: Option<SessionUser>, body: Option<AdminTransferBody>)
    requires Valid(b) && AdminTransfer(b, session, body).Done?
    ensures Valid(AdminTransfer(b, session, body).after)
  {
    var o := AdminTransfer(b, session, body);
    var from, amount := o.value.fromAccountId.value, o.value.amount;
    var accounts := o.after.accounts;
    assert accounts.Keys == b.accounts.Keys;
    assert NoOverdraft(accounts) by {
      forall id | id in accounts ensures accounts[id].balance >= 0 {
        if id == from {
          assert accounts[id].balance == b.accounts[id].balance - amount;
        }
      }
    }
    forall x, y | x in accounts && y in accounts && x != y
      ensures accounts[x].iban != accounts[y].iban
    {
      assert accounts[x].iban == b.accounts[x].iban && accounts[y].iban == b.accounts[y].iban;
    }
    AppendKeepsTxns(b, accounts, o.value);
  }

  // =====================================================================
  // Editing one transaction record
  // =====================================================================

  /** Only record k differs between the two banks, and no account, user or
      counter changed. */
  predicate OnlyRecordChanged(before: Bank, after: Bank, k: nat) {
    && k < |before.txns|
    && after == before.(txns := after.txns)
    && |after.txns| == |before.txns|
    && (forall i :: 0 <= i < |before.txns| && i != k ==> after.txns[i] == before.txns[i])
  }

  /** Replacing one record by another with the same id, sides and a positive
      amount keeps the bank valid. */
  lemma ReplaceRecordKeepsValid(b: Bank, k: nat, t: Txn)
    requires Valid(b) && k < |b.txns|
    requires t.id == b.txns[k].id && t.amount > 0
    requires t.fromAccountId == b.txns[k].fromAccountId && t.toAccountId == b.txns[k].toAccountId
    ensures Valid(b.(txns := b.txns[k := t]))
  {
    var s := b.txns[k := t];
    forall i, j | 0 <= i < j < |s| ensures s[i].id != s[j].id {
      assert s[i].id == b.txns[i].id && s[j].id == b.txns[j].id;
    }
    forall i | 0 <= i < |s|
      ensures RefersToAccount(s[i].fromAccountId, b.accounts) && RefersToAccount(s[i].toAccountId, b.accounts)
    {
      assert s[i].fromAccountId == b.txns[i].fromAccountId && s[i].toAccountId == b.txns[i].toAccountId;
    }
  }

  // ---------------------------------------------------------------------
  // Adjust: new amount, annotated description
  // ---------------------------------------------------------------------

  /** `newAmount` after parseFloat when it is a string; None when absent or
      not a finite number. */
  datatype AdjustBody = AdjustBody(transactionId: IdField, newAmount: Option<int>, note: Option<string>)

  function AdjustedDescription(description: string, note: Option<string>): string {
    if note.Some? && |Trim(note.value)| > 0 then
      description + " (rettifica admin: " + Trim(note.value) + ")"
    else description
  }

  /** The adjust route. `body` is None when the request body is not JSON. */
  function Adjust(b: Bank, session: Option<SessionUser>, body: Option<AdjustBody>): (r: Outcome<Txn, AdminError>)
    ensures r.Done? ==> IsAdmin(session) && r.after.accounts == b.accounts && r.after.users == b.users
    ensures r.Done? ==> |r.after.txns| == |b.txns| && r.after.nextTxnId == b.nextTxnId
    ensures r.Done? ==> body.Some? && body.value.newAmount == Some(r.value.amount) && r.value.amount > 0
  {
    if !IsAdmin(session) then Rejected(Unauthorized)
    else if body.None? then Rejected(InvalidJson)
    else
      var req := body.value;
      var id := ParseId(req.transactionId);
      if id.None? then Rejected(InvalidTransactionId)
      else if req.newAmount.None? || req.newAmount.value <= 0 then Rejected(InvalidAmount)
      else match FindTxn(b.txns, id.value)
        case None => Rejected(TransactionNotFound)
        case Some(k) =>
          var t := b.txns[k].(amount := req.newAmount.value,
                              description := AdjustedDescription(b.txns[k].description, req.note));
          Done(t, b.(txns := b.txns[k := t]))
  }

  /** The conditions under which an adjust commits. */
  predicate AdjustAllowed(b: Bank, session: Option<SessionUser>, body: Option<AdjustBody>) {
    && IsAdmin(session) && body.Some?
    && ParseId(body.value.transactionId).Some?
    && body.value.newAmount.Some? && body.value.newAmount.value > 0
    && HasTxn(b.txns, ParseId(body.value.transactionId).value)
  }

  /** An adjust commits exactly when an admin sends a readable body with a
      finite id, a positive finite amount and the id of an existing record;
      the guards fail in the route's order, each with its own error. */
  lemma AdjustCommitsIff(b: Bank, session: Option<SessionUser>, body: Option<AdjustBody>)
    ensures Adjust(b, session, body).Done? <==> AdjustAllowed(b, session, body)
    ensures !IsAdmin(session) ==> Adjust(b, session, body) == Rejected(Unauthorized)
    ensures IsAdmin(session) && body.None? ==> Adjust(b, session, body) == Rejected(InvalidJson)
    ensures IsAdmin(session) && body.Some? && ParseId(body.value.transactionId).None? ==>
      Adjust(b, session, body) == Rejected(InvalidTransactionId)
    ensures (&& IsAdmin(session) && body.Some? && ParseId(body.value.transactionId).Some?
             && (body.value.newAmount.None? || body.value.newAmount.value <= 0)) ==>
      Adjust(b, session, body) == Rejected(InvalidAmount)
  {
    if body.Some? && ParseId(body.value.transactionId).Some? {
      FindTxnIff(b.txns, ParseId(body.value.transactionId).value);
    }
  }

  /** The note is appended exactly when its trimmed form is non-empty, and
      what was there before is kept as a prefix. */
  lemma AdjustedDescriptionIff(description: string, note: Option<string>)
    ensures var d := AdjustedDescription(description, note);
      && d[..|description|] == description
      && (d != description <==> note.Some? && Trim(note.value) != "")
  {
    var d := AdjustedDescription(description, note);
    if note.Some? && |Trim(note.value)| > 0 {
      assert |d| > |description|;
    }
  }

  /** An adjust rewrites the amount and description of the one record with
      that id, and nothing else: no balance moves. */
  lemma AdjustTouchesOnlyTarget(b: Bank, session: Option<SessionUser>, body: Option<AdjustBody>)
    requires Adjust(b, session, body).Done?
    ensures var o := Adjust(b, session, body);
      var k := FindTxn(b.txns, o.value.id).value;
      && FindTxn(b.txns, o.value.id).Some?
      && OnlyRecordChanged(b, o.after, k)
      && o.after.txns[k] == o.value
      && o.value == b.txns[k].(amount := body.value.newAmount.value,
                               description := AdjustedDescription(b.txns[k].description, body.value.note))
      && o.after.accounts == b.accounts
  {
  }

  lemma AdjustPreservesValid(b: Bank, session: Option<SessionUser>, body: Option<AdjustBody>)
    requires Valid(b) && Adjust(b, session, body).Done?
    ensures Valid(Adjust(b, session, body).after)
  {
    var o := Adjust(b, session, body);
    var k := FindTxn(b.txns, ParseId(body.value.transactionId).value).value;
    ReplaceRecordKeepsValid(b, k, o.value);
  }

  /** An unknown id is reported as not found once the request is otherwise
      well formed. */
  lemma AdjustUnknownId(b: Bank, session: Option<SessionUser>, body: Option<AdjustBody>)
    requires IsAdmin(session) && body.Some?
    requires ParseId(body.value.transactionId).Some?
    requires body.value.newAmount.Some? && body.value.newAmount.value > 0
    requires forall i :: 0 <= i < |b.txns| ==> b.txns[i].id != ParseId(body.value.transactionId).value
    ensures Adjust(b, session, body) == Rejected(TransactionNotFound)
  {
  }

  // ---------------------------------------------------------------------
  // Update: patch description and/or status
  // ---------------------------------------------------------------------

  /** `description` is present only when the body carries a string;
      `status` is the raw status value. */
  datatype UpdateBody = UpdateBody(transactionId: IdField, description: Option<string>, status: Option<string>)

  function ParseTxnStatus(s: string): (r: Option<TxnStatus>)
    ensures r.Some? ==> s != ""
  {
    match s
    case "PENDING" => Some(PENDING)
    case "COMPLETED" => Some(COMPLETED)
    case "CANCELLED" => Some(CANCELLED)
    case "FAILED" => Some(FAILED)
    case _ => None
  }

  /** The update route. `body` is None when the request body is not JSON. */
  function Update(b: Bank, session: Option<SessionUser>, body: Option<UpdateBody>): (r: Outcome<Txn, AdminError>)
    ensures r.Done? ==> IsAdmin(session) && r.after.accounts == b.accounts && r.after.users == b.users
    ensures r.Done? ==> |r.after.txns| == |b.txns| && r.after.nextTxnId == b.nextTxnId
    ensures r.Done? ==>
      && FindTxn(b.txns, r.value.id).Some?
      && r.value.amount == b.txns[FindTxn(b.txns, r.value.id).value].amount
  {
    if !IsAdmin(session) then Rejected(Unauthorized)
    else if body.None? then Rejected(InvalidJson)
    else
      var req := body.value;
      var id := ParseId(req.transactionId);
      if id.None? then Rejected(InvalidTransactionId)
      else match FindTxn(b.txns, id.value)
        case None => Rejected(TransactionNotFound)
        case Some(k) =>
          if req.description.None? && !Filled(req.status) then Rejected(NothingToUpdate)
          // the store refuses a status outside the enumeration
          else if Filled(req.status) && ParseTxnStatus(req.status.value).None? then Rejected(InternalError)
          else
            var prev := b.txns[k];
            var t := prev.(description := if req.description.Some? then Trim(req.description.value) else prev.description,
                          status := if Filled(req.status) then ParseTxnStatus(req.status.value).value else prev.status);
            Done(t, b.(txns := b.txns[k := t]))
  }

  /** The conditions under which an update commits. */
  predicate UpdateAllowed(b: Bank, session: Option<SessionUser>, body: Option<UpdateBody>) {
    && IsAdmin(session) && body.Some?
    && ParseId(body.value.transactionId).Some?
    && HasTxn(b.txns, ParseId(body.value.transactionId).value)
    && (body.value.description.Some? || Filled(body.value.status))
    && (Filled(body.value.status) ==> ParseTxnStatus(body.value.status.value).Some?)
  }

  /** An update commits exactly when an admin sends a readable body naming an
      existing record and at least one field, with a known status if any;
      the guards fail in the route's order, each with its own error. */
  lemma UpdateCommitsIff(b: Bank, session: Option<SessionUser>, body: Option<UpdateBody>)
    ensures Update(b, session, body).Done? <==> UpdateAllowed(b, session, body)
    ensures !IsAdmin(session) ==> Update(b, session, body) == Rejected(Unauthorized)
    ensures IsAdmin(session) && body.None? ==> Update(b, session, body) == Rejected(InvalidJson)
    ensures IsAdmin(session) && body.Some? && ParseId(body.value.transactionId).None? ==>
      Update(b, session, body) == Rejected(InvalidTransactionId)
    ensures (&& IsAdmin(session) && body.Some? && ParseId(body.value.transactionId).Some?
             && HasTxn(b.txns, ParseId(body.value.transactionId).value)
             && Filled(body.value.status) && ParseTxnStatus(body.value.status.value).None?) ==>
      Update(b, session, body) == Rejected(InternalError)
  {
    if body.Some? && ParseId(body.value.transactionId).Some? {
      FindTxnIff(b.txns, ParseId(body.value.transactionId).value);
    }
  }

  /** An id no record carries is reported as not found (404), before the
      patch is looked at. */
  lemma UpdateUnknownId(b: Bank, session: Option<SessionUser>, body: Option<UpdateBody>)
    requires IsAdmin(session) && body.Some?
    requires ParseId(body.value.transactionId).Some?
    requires forall i :: 0 <= i < |b.txns| ==> b.txns[i].id != ParseId(body.value.transactionId).value
    ensures Update(b, session, body) == Rejected(TransactionNotFound)
    ensures AdminHttpStatus(Update(b, session, body).error) == 404
  {
  }

  /** A patch with neither a string description nor a truthy status is
      rejected once the record is found; an empty description string still
      counts as a field. */
  lemma UpdateEmptyPatch(b: Bank, session: Option<SessionUser>, body: Option<UpdateBody>)
    requires IsAdmin(session) && body.Some?
    requires ParseId(body.value.transactionId).Some?
    requires FindTxn(b.txns, ParseId(body.value.transactionId).value).Some?
    ensures Update(b, session, body) == Rejected(NothingToUpdate) <==>
      body.value.description.None? && (body.value.status.None? || body.value.status == Some(""))
  {
  }

  /** An update changes at most the description (stored trimmed) and the
      status of that one record; amount, accounts, type, owner and every
      balance stay as they were. */
  lemma UpdateTouchesOnlyTarget(b: Bank, session: Option<SessionUser>, body: Option<UpdateBody>)
    requires Update(b, session, body).Done?
    ensures var o := Update(b, session, body);
      var k := FindTxn(b.txns, o.value.id).value;
      var req := body.value;
      && FindTxn(b.txns, o.value.id).Some?
      && OnlyRecordChanged(b, o.after, k)
      && o.after.txns[k] == o.value
      && o.value == b.txns[k].(description := o.value.description, status := o.value.status)
      && (req.description.Some? ==> o.value.description == Trim(req.description.value))
      && (req.description.None? ==> o.value.description == b.txns[k].description)
      && (!Filled(req.status) ==> o.value.status == b.txns[k].status)
      && (Filled(req.status) ==> Some(o.value.status) == ParseTxnStatus(req.status.value))
  {
  }

  lemma UpdatePreservesValid(b: Bank, session: Option<SessionUser>, body: Option<UpdateBody>)
    requires Valid(b) && Update(b, session, body).Done?
    ensures Valid(Update(b, session, body).after)
  {
    var o := Update(b, session, body);
    var k := FindTxn(b.txns, ParseId(body.value.transactionId).value).value;
    ReplaceRecordKeepsValid(b, k, o.value);
  }

  // ---------------------------------------------------------------------
  // Delete: a soft cancellation
  // ---------------------------------------------------------------------

  datatype DeleteBody = DeleteBody(transactionId: IdField)

  const CancelSuffix := " [annullata dall\U{2019}amministratore]"

  /** The delete route. `body` is None when the request body is not JSON. */
  function Delete(b: Bank, session: Option<SessionUser>, body: Option<DeleteBody>): (r: Outcome<Txn, AdminError>)
    ensures r.Done? ==> IsAdmin(session) && r.after.accounts == b.accounts && r.after.users == b.users
    ensures r.Done? ==> |r.after.txns| == |b.txns| && r.after.nextTxnId == b.nextTxnId
    ensures r.Done? ==> r.value.status == CANCELLED && FindTxn(b.txns, r.value.id).Some?
  {
    if !IsAdmin(session) then Rejected(Unauthorized)
    else if body.None? then Rejected(InvalidJson)
    else
      var id := ParseId(body.value.transactionId);
      if id.None? then Rejected(InvalidTransactionId)
      else match FindTxn(b.txns, id.value)
        case None => Rejected(TransactionNotFound)
        case Some(k) =>
          var t := b.txns[k].(status := CANCELLED, description := b.txns[k].description + CancelSuffix);
          Done(t, b.(txns := b.txns[k := t]))
  }

  /** The conditions under which a delete commits. */
  predicate DeleteAllowed(b: Bank, session: Option<SessionUser>, body: Option<DeleteBody>) {
    && IsAdmin(session) && body.Some?
    && ParseId(body.value.transactionId).Some?
    && HasTxn(b.txns, ParseId(body.value.transactionId).value)
  }

  /** A delete commits exactly when an admin sends a readable body naming an
      existing record; the guards fail in the route's order. */
  lemma DeleteCommitsIff(b: Bank, session: Option<SessionUser>, body: Option<DeleteBody>)
    ensures Delete(b, session, body).Done? <==> DeleteAllowed(b, session, body)
    ensures !IsAdmin(session) ==> Delete(b, session, body) == Rejected(Unauthorized)
    ensures IsAdmin(session) && body.None? ==> Delete(b, session, body) == Rejected(InvalidJson)
    ensures IsAdmin(session) && body.Some? && ParseId(body.value.transactionId).None? ==>
      Delete(b, session, body) == Rejected(InvalidTransactionId)
  {
    if body.Some? && ParseId(body.value.transactionId).Some? {
      FindTxnIff(b.txns, ParseId(body.value.transactionId).value);
    }
  }

  /** An id no record carries is reported as not found (404). */
  lemma DeleteUnknownId(b: Bank, session: Option<SessionUser>, body: Option<DeleteBody>)
    requires IsAdmin(session) && body.Some?
    requires ParseId(body.value.transactionId).Some?
    requires forall i :: 0 <= i < |b.txns| ==> b.txns[i].id != ParseId(body.value.transactionId).value
    ensures Delete(b, session, body) == Rejected(TransactionNotFound)
    ensures AdminHttpStatus(Delete(b, session, body).error) == 404
  {
  }

  /** The record stays in place, marked CANCELLED with the suffix appended;
      nothing else changes and no balance is reversed. */
  lemma DeleteKeepsRecord(b: Bank, session: Option<SessionUser>, body: Option<DeleteBody>)
    requires Delete(b, session, body).Done?
    ensures var o := Delete(b, session, body);
      var k := FindTxn(b.txns, o.value.id).value;
      && FindTxn(b.txns, o.value.id).Some?
      && OnlyRecordChanged(b, o.after, k)
      && o.after.txns[k] == o.value
      && o.value.status == CANCELLED
      && o.value.description == b.txns[k].description + CancelSuffix
      && o.value == b.txns[k].(status := CANCELLED, description := o.value.description)
  {
  }

  lemma DeletePreservesValid(b: Bank, session: Option<SessionUser>, body: Option<DeleteBody>)
    requires Valid(b) && Delete(b, session, body).Done?
    ensures Valid(Delete(b, session, body).after)
  {
    var o := Delete(b, session, body);
    var k := FindTxn(b.txns, ParseId(body.value.transactionId).value).value;
    ReplaceRecordKeepsValid(b, k, o.value);
  }

  /** Cancelling twice is not the same as cancelling once: the status is
      CANCELLED either way but the suffix is appended a second time. */
  lemma DeleteNotIdempotent(b: Bank, session: Option<SessionUser>, body: Option<DeleteBody>)
    requires Valid(b) && Delete(b, session, body).Done?
    ensures var once := Delete(b, session, body);
      var twice := Delete(once.after, session, body);
      && twice.Done?
      && twice.value.status == once.value.status == CANCELLED
      && twice.value.description == once.value.description + CancelSuffix
      && twice.after != once.after
  {
    var once := Delete(b, session, body);
    var id := ParseId(body.value.transactionId).value;
    var k := FindTxn(b.txns, id).value;
    var s := once.after.txns;
    assert s[k].id == id;
    var k2 := FindTxn(s, id).value;
    assert k2 == k;
    var twice := Delete(once.after, session, body);
    assert twice.after.txns[k] != once.after.txns[k] by {
      assert |twice.after.txns[k].description| > |once.after.txns[k].description|;
    }
  }

  // =====================================================================
  // Account status change
  // =====================================================================

  datatype AccountUpdateBody = AccountUpdateBody(accountId: Option<int>, newStatus: Option<string>)

  function ParseAccountStatus(s: string): (r: Option<AccountStatus>)
    ensures r.Some? ==> s != ""
  {
    match s
    case "ACTIVE" => Some(AccountStatus.ACTIVE)
    case "FROZEN" => Some(FROZEN)
    case "CLOSED" => Some(CLOSED)
    case _ => None
  }

  function StatusName(s: AccountStatus): string {
    match s
    case ACTIVE => "ACTIVE"
    case FROZEN => "FROZEN"
    case CLOSED => "CLOSED"
  }

  /** An unreadable body, an unknown status name and an unknown account all
      surface as the generic 500. */
  function SetAccountStatus(b: Bank, session: Option<SessionUser>, body: Option<AccountUpdateBody>): (r: Outcome<Account, AdminError>)
    ensures r.Done? ==> IsAdmin(session) && r.after.txns == b.txns && r.after.users == b.users
    ensures r.Done? ==> r.after.accounts.Keys == b.accounts.Keys
    ensures r.Done? ==>
      && body.Some? && body.value.accountId.Some? && body.value.accountId.value in b.accounts
      && r.value.balance == b.accounts[body.value.accountId.value].balance
  {
    if !IsAdmin(session) then Rejected(Unauthorized)
    else if body.None? then Rejected(InternalError)
    else
      var req := body.value;
      if !Truthy(req.accountId) || !Filled(req.newStatus) then Rejected(MissingFields)
      else match ParseAccountStatus(req.newStatus.value)
        case None => Rejected(InternalError)
        case Some(s) =>
          var id := req.accountId.value;
          if id !in b.accounts then Rejected(InternalError)
          else
            var a := b.accounts[id].(status := s);
            Done(a, b.(accounts := b.accounts[id := a]))
  }

  /** Only the status of that account changes: owner, balance, IBAN and every
      other account, user and record are as they were. */
  lemma SetAccountStatusTouchesOnlyStatus(b: Bank, session: Option<SessionUser>, body: Option<AccountUpdateBody>)
    requires SetAccountStatus(b, session, body).Done?
    ensures var o := SetAccountStatus(b, session, body);
      var id := body.value.accountId.value;
      && id in b.accounts
      && o.after == b.(accounts := b.accounts[id := o.value])
      && o.value == b.accounts[id].(status := o.value.status)
      && Some(o.value.status) == ParseAccountStatus(body.value.newStatus.value)
      && TotalBalance(o.after.accounts) == TotalBalance(b.accounts)
  {
    var o := SetAccountStatus(b, session, body);
    TotalBalanceUpdate(b.accounts, body.value.accountId.value, o.value);
  }

  /** There is no transition rule: an admin can move any existing non-zero
      account from any status to any other, CLOSED back to ACTIVE included. */
  lemma SetAccountStatusAnyTransition(b: Bank, session: Option<SessionUser>, id: int, target: AccountStatus)
    requires IsAdmin(session) && id != 0 && id in b.accounts
    ensures var o := SetAccountStatus(b, session, Some(AccountUpdateBody(Some(id), Some(StatusName(target)))));
      o.Done? && o.after.accounts[id].status == target
  {
  }

  /** The conditions under which a status change commits. */
  predicate SetAccountStatusAllowed(b: Bank, session: Option<SessionUser>, body: Option<AccountUpdateBody>) {
    && IsAdmin(session) && body.Some?
    && Truthy(body.value.accountId) && Filled(body.value.newStatus)
    && ParseAccountStatus(body.value.newStatus.value).Some?
    && body.value.accountId.value in b.accounts
  }

  /** A status change commits exactly when an admin names an existing
      account and a known status; a non-admin is refused first, and a body
      that cannot be read ends in the generic 500. */
  lemma SetAccountStatusCommitsIff(b: Bank, session: Option<SessionUser>, body: Option<AccountUpdateBody>)
    ensures SetAccountStatus(b, session, body).Done? <==> SetAccountStatusAllowed(b, session, body)
    ensures !IsAdmin(session) ==> SetAccountStatus(b, session, body) == Rejected(Unauthorized)
    ensures IsAdmin(session) && body.None? ==> SetAccountStatus(b, session, body) == Rejected(InternalError)
  {
  }

  /** The store's update of an account that does not exist throws; the
      route answers with the generic 500, not with 404. */
  lemma SetAccountStatusUnknownAccount(b: Bank, session: Option<SessionUser>, body: Option<AccountUpdateBody>)
    requires IsAdmin(session) && body.Some?
    requires Truthy(body.value.accountId) && Filled(body.value.newStatus)
    requires ParseAccountStatus(body.value.newStatus.value).Some?
    requires body.value.accountId.value !in b.accounts
    ensures SetAccountStatus(b, session, body) == Rejected(InternalError)
    ensures AdminHttpStatus(SetAccountStatus(b, session, body).error) == 500
  {
  }

  lemma SetAccountStatusMissingFields(b: Bank, session: Option<SessionUser>, body: Option<AccountUpdateBody>)
    requires IsAdmin(session) && body.Some?
    requires body.value.accountId.None? || body.value.accountId == Some(0) || !Filled(body.value.newStatus)
    ensures SetAccountStatus(b, session, body) == Rejected(MissingFields)
  {
  }

  lemma SetAccountStatusPreservesValid(b: Bank, session: Option<SessionUser>, body: Option<AccountUpdateBody>)
    requires Valid(b) && SetAccountStatus(b, session, body).Done?
    ensures Valid(SetAccountStatus(b, session, body).after)
  {
    var o := SetAccountStatus(b, session, body);
    var accounts := o.after.accounts;
    forall x, y | x in accounts && y in accounts && x != y
      ensures accounts[x].iban != accounts[y].iban
    {
      assert accounts[x].iban == b.accounts[x].iban && accounts[y].iban == b.accounts[y].iban;
    }
    assert o.after.accounts.Keys == b.accounts.Keys;
  }

  // =====================================================================
  // Registration
  // =====================================================================

  /** The fields read from the body; null and absent fields are None. */
  datatype RegisterBody = RegisterBody(
    fullName: Option<string>,
    email: Option<string>,
    password: Option<string>,
    dateOfBirth: Option<string>,
    profileImageUrl: Option<string>)

  datatype RegisterError = RegisterMissingFields | EmailTaken | RegisterFailed

  function RegisterHttpStatus(e: RegisterError): (code: nat)
    ensures code == 500 <==> e == RegisterFailed
    ensures code == 400 <==> e != RegisterFailed
  {
    if e == RegisterFailed then 500 else 400
  }

  function NormaliseEmail(email: string): string {
    Trim(ToLower(email))
  }

  /** Registration of a new customer. `passwordHash` stands for the bcrypt
      hash of the password, `draw` for Math.random() and `isDate` for whether
      `new Date(text)` is a valid date. An unreadable body is None and ends in
      the generic 500; so do a clashing IBAN and a date of birth that is not a
      valid date, both refused by the store when the rows are created. */
  function Register(b: Bank, body: Option<RegisterBody>, passwordHash: string, draw: real,
                    isDate: string -> bool): (r: Outcome<User, RegisterError>)
    requires 0.0 <= draw < 1.0
    ensures r.Done? ==> r.after.txns == b.txns && r.after.users == b.users + [r.value]
    ensures r.Done? ==> r.value.role == USER && r.value.id == b.nextUserId
    ensures r.Done? ==> body.Some? && (Filled(body.value.dateOfBirth) ==> isDate(body.value.dateOfBirth.value))
  {
    if body.None? then Rejected(RegisterFailed)
    else
      var req := body.value;
      if !Filled(req.fullName) || !Filled(req.email) || !Filled(req.password) then Rejected(RegisterMissingFields)
      else
        var email := NormaliseEmail(req.email.value);
        if FindUserByEmail(b.users, email).Some? then Rejected(EmailTaken)
        else
          var iban := Registration.GenerateIban(draw);
          if IbanTaken(b.accounts, iban) then Rejected(RegisterFailed)
          else if Filled(req.dateOfBirth) && !isDate(req.dateOfBirth.value) then Rejected(RegisterFailed)
          else
            var u := User(b.nextUserId, Trim(req.fullName.value), email, passwordHash, USER, UserStatus.ACTIVE,
                          if Filled(req.dateOfBirth) then req.dateOfBirth else None,
                          if Filled(req.profileImageUrl) then req.profileImageUrl else None);
            var a := Account(u.id, "Conto Genius", CURRENT, iban, 0, "EUR", AccountStatus.ACTIVE);
            Done(u, Enrol(b, u, a))
  }

  /** The conditions under which a registration commits. */
  predicate RegisterAllowed(b: Bank, body: Option<RegisterBody>, draw: real, isDate: string -> bool)
    requires 0.0 <= draw < 1.0
  {
    && body.Some?
    && Filled(body.value.fullName) && Filled(body.value.email) && Filled(body.value.password)
    && FindUserByEmail(b.users, NormaliseEmail(body.value.email.value)).None?
    && !IbanTaken(b.accounts, Registration.GenerateIban(draw))
    && (Filled(body.value.dateOfBirth) ==> isDate(body.value.dateOfBirth.value))
  }

  /** A registration commits exactly when it is allowed. A missing name,
      address or password is refused first, with 400; with the three fields
      present, an address some user already holds after normalising is
      refused next, also with 400. */
  lemma RegisterCommitsIff(b: Bank, body: Option<RegisterBody>, passwordHash: string, draw: real,
                           isDate: string -> bool)
    requires 0.0 <= draw < 1.0
    ensures Register(b, body, passwordHash, draw, isDate).Done? <==> RegisterAllowed(b, body, draw, isDate)
    ensures (&& body.Some?
             && (!Filled(body.value.fullName) || !Filled(body.value.email) || !Filled(body.value.password))) ==>
      Register(b, body, passwordHash, draw, isDate) == Rejected(RegisterMissingFields)
    ensures (&& body.Some?
             && Filled(body.value.fullName) && Filled(body.value.email) && Filled(body.value.password)
             && FindUserByEmail(b.users, NormaliseEmail(body.value.email.value)).Some?) ==>
      Register(b, body, passwordHash, draw, isDate) == Rejected(EmailTaken)
  {
  }

  /** A date of birth that is not a valid date makes a registration fail
      with the generic 500 once the fields are there and the address is
      free. */
  lemma RegisterInvalidDate(b: Bank, body: Option<RegisterBody>, passwordHash: string, draw: real,
                            isDate: string -> bool)
    requires 0.0 <= draw < 1.0
    requires body.Some? && Filled(body.value.dateOfBirth) && !isDate(body.value.dateOfBirth.value)
    ensures Register(b, body, passwordHash, draw, isDate).Rejected?
    ensures (&& Filled(body.value.fullName) && Filled(body.value.email) && Filled(body.value.password)
             && FindUserByEmail(b.users, NormaliseEmail(body.value.email.value)).None?) ==>
      Register(b, body, passwordHash, draw, isDate) == Rejected(RegisterFailed)
  {
  }

  /** Inserting a user together with their first account. */
  function Enrol(b: Bank, u: User, a: Account): Bank {
    b.(users := b.users + [u], accounts := b.accounts[b.nextAccountId := a],
       nextUserId := b.nextUserId + 1, nextAccountId := b.nextAccountId + 1)
  }

  /** The shape of a committed registration. */
  lemma RegisterCommit(b: Bank, body: Option<RegisterBody>, passwordHash: string, draw: real, isDate: string -> bool)
    requires 0.0 <= draw < 1.0
    requires Register(b, body, passwordHash, draw, isDate).Done?
    ensures var o := Register(b, body, passwordHash, draw, isDate);
      var req := body.value;
      && body.Some? && Filled(req.fullName) && Filled(req.email) && Filled(req.password)
      && FindUserByEmail(b.users, NormaliseEmail(req.email.value)).None?
      && !IbanTaken(b.accounts, Registration.GenerateIban(draw))
      && (Filled(req.dateOfBirth) ==> isDate(req.dateOfBirth.value))
      && o.value == User(b.nextUserId, Trim(req.fullName.value), NormaliseEmail(req.email.value), passwordHash,
                         USER, UserStatus.ACTIVE,
                         if Filled(req.dateOfBirth) then req.dateOfBirth else None,
                         if Filled(req.profileImageUrl) then req.profileImageUrl else None)
      && o.after == Enrol(b, o.value, Account(o.value.id, "Conto Genius", CURRENT,
                                              Registration.GenerateIban(draw), 0, "EUR", AccountStatus.ACTIVE))
  {
  }

  /** A registration creates exactly one user (role USER, status ACTIVE,
      trimmed name, normalised e-mail) and exactly one empty EUR current
      account of theirs; nothing else changes and no money appears. */
  lemma RegisterEffect(b: Bank, body: Option<RegisterBody>, passwordHash: string, draw: real, isDate: string -> bool)
    requires 0.0 <= draw < 1.0
    requires Valid(b) && Register(b, body, passwordHash, draw, isDate).Done?
    ensures var o := Register(b, body, passwordHash, draw, isDate);
      var u := o.value;
      && o.after.users == b.users + [u]
      && u.role == USER && u.status == UserStatus.ACTIVE
      && u.fullName == Trim(body.value.fullName.value)
      && u.email == NormaliseEmail(body.value.email.value)
      && b.nextAccountId !in b.accounts
      && o.after.accounts == b.accounts[b.nextAccountId := o.after.accounts[b.nextAccountId]]
      && o.after.accounts[b.nextAccountId] ==
           Account(u.id, "Conto Genius", CURRENT, Registration.GenerateIban(draw), 0, "EUR", AccountStatus.ACTIVE)
      && o.after.txns == b.txns
      && TotalBalance(o.after.accounts) == TotalBalance(b.accounts)
  {
    var o := Register(b, body, passwordHash, draw, isDate);
    RegisterCommit(b, body, passwordHash, draw, isDate);
    assert b.nextAccountId !in b.accounts;
    TotalBalanceInsert(b.accounts, b.nextAccountId, o.after.accounts[b.nextAccountId]);
  }

  /** An empty or absent date of birth and profile picture are stored as null. */
  lemma RegisterOptionalFields(b: Bank, body: Option<RegisterBody>, passwordHash: string, draw: real, isDate: string -> bool)
    requires 0.0 <= draw < 1.0
    requires Register(b, body, passwordHash, draw, isDate).Done?
    ensures var u := Register(b, body, passwordHash, draw, isDate).value;
      && (u.dateOfBirth.None? <==> !Filled(body.value.dateOfBirth))
      && (u.profileImageUrl.None? <==> !Filled(body.value.profileImageUrl))
      && (u.dateOfBirth.Some? ==> u.dateOfBirth.value != "")
  {
  }

  /** Inserting a fresh user with an unused e-mail and a first account with
      an unused IBAN and no debt keeps the bank valid. */
  lemma EnrolKeepsValid(b: Bank, u: User, a: Account)
    requires Valid(b)
    requires u.id == b.nextUserId && a.balance >= 0
    requires forall i :: 0 <= i < |b.users| ==> b.users[i].email != u.email
    requires !IbanTaken(b.accounts, a.iban)
    ensures Valid(Enrol(b, u, a))
  {
    var after := Enrol(b, u, a);
    var users := after.users;
    forall i, j | 0 <= i < j < |users| ensures users[i].email != users[j].email && users[i].id != users[j].id {
      assert users[i] == b.users[i];
      if j == |b.users| {
        assert users[j] == u;
      } else {
        assert users[j] == b.users[j];
      }
    }
    var accounts := after.accounts;
    forall x, y | x in accounts && y in accounts && x != y
      ensures accounts[x].iban != accounts[y].iban
    {
      if x == b.nextAccountId {
        assert accounts[y] == b.accounts[y];
      } else if y == b.nextAccountId {
        assert accounts[x] == b.accounts[x];
      }
    }
    forall i | 0 <= i < |b.txns|
      ensures RefersToAccount(b.txns[i].fromAccountId, accounts) && RefersToAccount(b.txns[i].toAccountId, accounts)
    {
      assert RefersToAccount(b.txns[i].fromAccountId, b.accounts);
      assert RefersToAccount(b.txns[i].toAccountId, b.accounts);
    }
  }

  lemma RegisterPreservesValid(b: Bank, body: Option<RegisterBody>, passwordHash: string, draw: real, isDate: string -> bool)
    requires 0.0 <= draw < 1.0
    requires Valid(b) && Register(b, body, passwordHash, draw, isDate).Done?
    ensures Valid(Register(b, body, passwordHash, draw, isDate).after)
  {
    var o := Register(b, body, passwordHash, draw, isDate);
    RegisterCommit(b, body, passwordHash, draw, isDate);
    EnrolKeepsValid(b, o.value, Account(o.value.id, "Conto Genius", CURRENT,
                                        Registration.GenerateIban(draw), 0, "EUR", AccountStatus.ACTIVE));
  }

  /** Once an address is registered, any spelling of it that normalises to
      the same address is refused. */
  lemma RegisterTwiceRejected(b: Bank, body: Option<RegisterBody>, body2: Option<RegisterBody>,
                              hash: string, hash2: string, draw: real, draw2: real,
                              isDate: string -> bool, isDate2: string -> bool)
    requires 0.0 <= draw < 1.0 && 0.0 <= draw2 < 1.0
    requires Register(b, body, hash, draw, isDate).Done?
    requires body2.Some? && Filled(body2.value.fullName) && Filled(body2.value.email) && Filled(body2.value.password)
    requires NormaliseEmail(body2.value.email.value) == NormaliseEmail(body.value.email.value)
    ensures Register(Register(b, body, hash, draw, isDate).after, body2, hash2, draw2, isDate2) == Rejected(EmailTaken)
  {
    var o := Register(b, body, hash, draw, isDate);
    RegisterCommit(b, body, hash, draw, isDate);
    var u := o.value;
    assert o.after.users[|o.after.users| - 1] == u;
    assert FindUserByEmail(o.after.users, NormaliseEmail(body2.value.email.value)).Some?;
  }
}
