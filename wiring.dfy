/** The admin table's edit and delete requests as the update and delete
    routes read them, and the update route's answer as the table reads it.
    The table names the record `id` in both bodies; both routes look for
    `transactionId`. The update route answers `{ transaction: record }`, and
    the table maps that object as if it were the record. What is sent and
    read is modelled next to what the other side expects. */
module TableWiring {
  import opened Common
  import opened LedgerModel
  import opened LedgerOps
  import AdminTable

  /** A status as its JSON string. */
  function TxnStatusName(s: TxnStatus): (r: string)
    ensures ParseTxnStatus(r) == Some(s)
  {
    match s
    case PENDING => "PENDING"
    case COMPLETED => "COMPLETED"
    case CANCELLED => "CANCELLED"
    case FAILED => "FAILED"
  }

  // ---------------------------------------------------------------------
  // Delete
  // ---------------------------------------------------------------------

  /** The delete body as the table sends it, `{ id }`: the route finds no
      `transactionId` in it. */
  function DeleteAsSent(id: int): DeleteBody {
    DeleteBody(IdMissing)
  }

  /** The body the delete route expects for the record with this id. */
  function DeleteIntended(id: int): DeleteBody {
    DeleteBody(IdNumber(id))
  }

  /** Every delete from the table is refused with 400, whatever the record. */
  lemma DeleteAsSentRefused(b: Bank, session: Option<SessionUser>, id: int)
    requires IsAdmin(session)
    ensures Delete(b, session, Some(DeleteAsSent(id))) == Rejected(InvalidTransactionId)
    ensures AdminHttpStatus(InvalidTransactionId) == 400
  {
  }

  /** With the field the route reads, a delete of an existing record cancels
      exactly that record. */
  lemma DeleteIntendedCancels(b: Bank, session: Option<SessionUser>, id: int)
    requires IsAdmin(session) && FindTxn(b.txns, id).Some?
    ensures var o := Delete(b, session, Some(DeleteIntended(id)));
      var k := FindTxn(b.txns, id).value;
      && o.Done? && o.value.id == id && o.value.status == CANCELLED
      && o.after.txns == b.txns[k := o.value]
      && o.after.accounts == b.accounts
  {
  }

  // ---------------------------------------------------------------------
  // Edit
  // ---------------------------------------------------------------------

  /** The fields of the edit body the update route reads, as the table sends
      it: no `transactionId`, a description and a status. */
  function EditAsSent(req: AdminTable.EditRequest): UpdateBody {
    UpdateBody(IdMissing, Some(req.description), Some(TxnStatusName(req.status)))
  }

  /** The same body with the field the update route reads. */
  function EditIntended(req: AdminTable.EditRequest): UpdateBody {
    UpdateBody(IdNumber(req.id), Some(req.description), Some(TxnStatusName(req.status)))
  }

  /** Every edit from the table is refused with 400, whatever the record. */
  lemma EditAsSentRefused(b: Bank, session: Option<SessionUser>, req: AdminTable.EditRequest)
    requires IsAdmin(session)
    ensures Update(b, session, Some(EditAsSent(req))) == Rejected(InvalidTransactionId)
  {
  }

  /** With the field the route reads, an edit of an existing record stores
      its trimmed description and its status. The amount, the accounts, the
      type and the date typed in the dialog are still not applied: the
      route changes only description and status. The row the table then
      shows is the subject of EditReplyAsWritten and EditReplyUnwrapped. */
  lemma EditIntendedApplies(b: Bank, session: Option<SessionUser>, req: AdminTable.EditRequest)
    requires IsAdmin(session) && FindTxn(b.txns, req.id).Some?
    ensures var o := Update(b, session, Some(EditIntended(req)));
      var k := FindTxn(b.txns, req.id).value;
      && o.Done? && o.value.id == req.id
      && o.value == b.txns[k].(description := Trim(req.description), status := req.status)
      && o.after.txns == b.txns[k := o.value]
      && o.after.accounts == b.accounts
  {
  }

  // ---------------------------------------------------------------------
  // Row colour of the records the transfer route writes
  // ---------------------------------------------------------------------

  /** Money leaving the bank is red and money moving between two accounts
      cyan: a committed external payment shows in red, a committed internal
      transfer in cyan. */
  lemma TransferTone(b: Bank, session: Option<SessionUser>, req: TransferRequest)
    requires Transfer(b, session, Some(req)).Done?
    ensures var t := Transfer(b, session, Some(req)).value;
      && (req.mode == Some("external") ==> AdminTable.AmountTone(t.fromAccountId, t.toAccountId) == AdminTable.Red)
      && (req.mode == Some("internal") ==> AdminTable.AmountTone(t.fromAccountId, t.toAccountId) == AdminTable.Cyan)
  {
  }

  // ---------------------------------------------------------------------
  // The update route's answer, as the table reads it
  // ---------------------------------------------------------------------

  /** The property names that occur in the answer and in the code reading it. */
  datatype Key =
    | KId | KFromAccountId | KToAccountId | KAmount | KType | KStatus
    | KDescription | KCreatedAt | KTransaction

  /** A JSON value as the browser parses it. */
  datatype Json = JNull | JNum(n: real) | JStr(s: string) | JObj(fields: map<Key, Json>)

  /** A property read in JavaScript: undefined when the object lacks the key. */
  datatype JsValue = Undefined | Defined(json: Json)

  function Prop(v: Json, key: Key): (r: JsValue)
    ensures r.Defined? <==> v.JObj? && key in v.fields
  {
    if v.JObj? && key in v.fields then Defined(v.fields[key]) else Undefined
  }

  /** `v ?? null`. */
  function OrNull(v: JsValue): Json {
    if v.Undefined? then JNull else v.json
  }

  /** `Number(v)`; None stands for NaN. */
  function NumberOf(v: JsValue): Option<real> {
    match v
    case Undefined => None
    case Defined(JNull) => Some(0.0)
    case Defined(JNum(n)) => Some(n)
    case Defined(JStr(s)) => JsNumber(s)
    case Defined(JObj(_)) => None
  }

  function TxnTypeName(k: TxnType): string {
    match k
    case DEPOSIT => "DEPOSIT"
    case WITHDRAWAL => "WITHDRAWAL"
    case TRANSFER_OUT => "TRANSFER_OUT"
    case TRANSFER_IN => "TRANSFER_IN"
    case TRANSFER_INTERNAL => "TRANSFER_INTERNAL"
    case PAYMENT_EXTERNAL => "PAYMENT_EXTERNAL"
    case CARD_PAYMENT => "CARD_PAYMENT"
    case FEE => "FEE"
  }

  function IdJson(id: Option<int>): Json {
    if id.Some? then JNum(id.value as real) else JNull
  }

  /** A record as the route serialises it; the decimal amount travels as
      its text. */
  function RecordJson(t: AdminTable.TxnData, amountText: string): Json {
    JObj(map[KId := JNum(t.id as real),
             KFromAccountId := IdJson(t.fromAccountId),
             KToAccountId := IdJson(t.toAccountId),
             KAmount := JStr(amountText),
             KType := JStr(TxnTypeName(t.kind)),
             KStatus := JStr(TxnStatusName(t.status)),
             KDescription := JStr(t.description),
             KCreatedAt := JStr(t.createdAt)])
  }

  /** The update route's success body: the record under `transaction`. */
  function UpdateReplyJson(t: AdminTable.TxnData, amountText: string): Json {
    JObj(map[KTransaction := RecordJson(t, amountText)])
  }

  /** A row as mapUpdatedTx builds it from whatever object it is given. */
  datatype MappedRow = MappedRow(
    id: int,
    fromAccountId: Json,
    toAccountId: Json,
    amount: Option<real>,
    kind: JsValue,
    status: JsValue,
    description: JsValue,
    createdAt: JsValue,
    fromAccount: Option<AdminTable.AccountRef>,
    toAccount: Option<AdminTable.AccountRef>)

  /** mapUpdatedTx on an untyped object: the row keeps its id and displayed
      accounts and reads every other field at the object's top level. */
  function MapUpdated(tx: AdminTable.Row, updated: Json): MappedRow {
    MappedRow(tx.id, OrNull(Prop(updated, KFromAccountId)), OrNull(Prop(updated, KToAccountId)),
              NumberOf(Prop(updated, KAmount)), Prop(updated, KType), Prop(updated, KStatus),
              Prop(updated, KDescription), Prop(updated, KCreatedAt), tx.fromAccount, tx.toAccount)
  }

  /** How a typed row looks as the untyped values above. */
  function Shown(r: AdminTable.Row): MappedRow {
    MappedRow(r.id, IdJson(r.fromAccountId), IdJson(r.toAccountId), Some(r.amount),
              Defined(JStr(TxnTypeName(r.kind))), Defined(JStr(TxnStatusName(r.status))),
              Defined(JStr(r.description)), Defined(JStr(r.createdAt)), r.fromAccount, r.toAccount)
  }

  /** As written, the table maps the whole answer: the accounts become null,
      the amount NaN, and type, status, description and date undefined,
      whatever the record; the row never equals the edited record. */
  lemma EditReplyAsWritten(tx: AdminTable.Row, t: AdminTable.TxnData, amountText: string)
    ensures var m := MapUpdated(tx, UpdateReplyJson(t, amountText));
      && m.id == tx.id
      && m.fromAccountId == JNull && m.toAccountId == JNull
      && m.amount.None?
      && m.kind.Undefined? && m.status.Undefined?
      && m.description.Undefined? && m.createdAt.Undefined?
      && m != Shown(AdminTable.MapUpdatedTx(tx, t))
  {
    var fields := UpdateReplyJson(t, amountText).fields;
    assert fields.Keys == {KTransaction};
  }

  /** Reading the record under `transaction`, as the adjust and admin
      transfer handlers do, gives exactly the row AdminTable.MapUpdatedTx
      builds, the one AdminTable.Table.SaveEdit puts in the list. */
  lemma EditReplyUnwrapped(tx: AdminTable.Row, t: AdminTable.TxnData, amountText: string)
    requires JsNumber(amountText) == Some(t.amount)
    ensures Prop(UpdateReplyJson(t, amountText), KTransaction) == Defined(RecordJson(t, amountText))
    ensures MapUpdated(tx, RecordJson(t, amountText)) == Shown(AdminTable.MapUpdatedTx(tx, t))
  {
    var r := RecordJson(t, amountText);
    assert Prop(UpdateReplyJson(t, amountText), KTransaction) == Defined(r);
    assert Prop(r, KFromAccountId) == Defined(IdJson(t.fromAccountId));
    assert Prop(r, KToAccountId) == Defined(IdJson(t.toAccountId));
    assert Prop(r, KAmount) == Defined(JStr(amountText));
    assert Prop(r, KType) == Defined(JStr(TxnTypeName(t.kind)));
    assert Prop(r, KStatus) == Defined(JStr(TxnStatusName(t.status)));
    assert Prop(r, KDescription) == Defined(JStr(t.description));
    assert Prop(r, KCreatedAt) == Defined(JStr(t.createdAt));
    assert OrNull(Defined(IdJson(t.fromAccountId))) == IdJson(t.fromAccountId);
    assert OrNull(Defined(IdJson(t.toAccountId))) == IdJson(t.toAccountId);
    assert NumberOf(Defined(JStr(amountText))) == Some(t.amount);
    var m := MapUpdated(tx, r);
    assert m == MappedRow(tx.id, IdJson(t.fromAccountId), IdJson(t.toAccountId), Some(t.amount),
                          Defined(JStr(TxnTypeName(t.kind))), Defined(JStr(TxnStatusName(t.status))),
                          Defined(JStr(t.description)), Defined(JStr(t.createdAt)), tx.fromAccount, tx.toAccount);
  }
}
