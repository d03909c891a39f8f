/** The administrator's transaction table: the IBAN mask, the Italian amount
    strings of the quick tools and the edit dialog, the client-side checks,
    the row colour, and the table component whose handlers update the row
    list after the server answers. The server's answer is a parameter. */
module AdminTable {
  import opened Common
  import opened LedgerModel

  // ---------------------------------------------------------------------
  // IBAN mask
  // ---------------------------------------------------------------------

  const MaskMiddle := " **** **** "

  /** maskIban: whitespace removed; a short result is shown whole, a longer
      one only by its first and last four characters. */
  function MaskIban(iban: string): (r: string)
    ensures |r| <= |StripSpaces(iban)| + 11
  {
    if iban == "" then ""
    else
      var clean := StripSpaces(iban);
      if |clean| <= 8 then clean
      else clean[..4] + MaskMiddle + clean[|clean| - 4..]
  }

  /** Empty input gives "", a short IBAN comes back without its spaces, and
      a longer one is always 19 characters that keep only its first and
      last four characters. */
  lemma MaskIbanShape(iban: string)
    ensures iban == "" ==> MaskIban(iban) == ""
    ensures var clean := StripSpaces(iban); var r := MaskIban(iban);
      && NoSpaces(clean)
      && (iban != "" && |clean| <= 8 ==> r == clean)
      && (|clean| > 8 ==>
            && |r| == 19
            && r[..4] == clean[..4]
            && r[4..15] == MaskMiddle
            && r[15..] == clean[|clean| - 4..])
  {
    var clean := StripSpaces(iban);
    if |clean| > 8 {
      var r := MaskIban(iban);
      assert r == clean[..4] + MaskMiddle + clean[|clean| - 4..];
    }
  }

  // ---------------------------------------------------------------------
  // Amount strings
  // ---------------------------------------------------------------------

  /** How the edit dialog shows a stored amount: its decimal text with the
      first "." turned into ",". */
  function FormatForEdit(text: string): string {
    ReplaceFirst(text, '.', ",")
  }

  /** The Italian reading of a typed amount: the first "." is dropped as a
      thousands separator, then the first "," becomes the decimal point. */
  function Normalise(text: string): string {
    ReplaceFirst(ReplaceFirst(text, '.', ""), ',', ".")
  }

  /** The amount a handler accepts: parseFloat of the normalised text,
      provided it is a number above zero. */
  function ParsedAmount(text: string): (r: Option<real>)
    ensures r.Some? ==> r.value > 0.0
    ensures r.None? <==> ParseFloat(Normalise(text)).None? || ParseFloat(Normalise(text)).value <= 0.0
  {
    var x := ParseFloat(Normalise(text));
    if x.None? || x.value <= 0.0 then None else x
  }

  /** At most one "." in s. */
  predicate AtMostOneDot(s: string) {
    forall i, j :: 0 <= i < j < |s| && s[i] == '.' ==> s[j] != '.'
  }

  /** Replacing the first c, when it stands at k. */
  lemma ReplaceFirstAt(s: string, c: char, t: string, k: nat)
    requires k < |s| && s[k] == c && c !in s[..k]
    ensures ReplaceFirst(s, c, t) == s[..k] + t + s[k + 1..]
  {
    IndexOfAt(s, c, k);
  }

  /** An amount whose text has at most one "." and no "," reads back as
      itself after the edit dialog has shown it with a decimal comma. */
  lemma EditAmountRoundTrip(s: string)
    requires ',' !in s && AtMostOneDot(s)
    ensures Normalise(FormatForEdit(s)) == s
  {
    if '.' in s {
      var k := IndexOf(s, '.').value;
      var f := s[..k] + "," + s[k + 1..];
      ReplaceFirstAt(s, '.', ",", k);
      assert FormatForEdit(s) == f;
      SwappedDot(s, k);
      assert ReplaceFirst(f, '.', "") == f;
      assert f[..k] == s[..k] && f[k] == ',';
      ReplaceFirstAt(f, ',', ".", k);
      assert f[k + 1..] == s[k + 1..];
      assert s == s[..k] + "." + s[k + 1..];
    }
  }

  /** Turning the only "." into "," leaves no "." at all. */
  lemma SwappedDot(s: string, k: nat)
    requires k < |s| && s[k] == '.' && AtMostOneDot(s) && '.' !in s[..k]
    ensures '.' !in s[..k] + "," + s[k + 1..]
  {
    var f := s[..k] + "," + s[k + 1..];
    forall i | 0 <= i < |f| ensures f[i] != '.' {
      if i < k { assert f[i] == s[..k][i]; }
      else if i > k { assert f[i] == s[i]; }
    }
  }

  /** A decimal comma is the decimal point: "a,b" reads as "a.b". */
  lemma DecimalComma(a: string, b: string)
    requires AllDigits(a) && AllDigits(b)
    ensures Normalise(a + "," + b) == a + "." + b
  {
    var s := a + "," + b;
    assert '.' !in s by {
      forall i | 0 <= i < |s| ensures s[i] != '.' {
        if i < |a| { assert s[i] == a[i]; } else if i > |a| { assert s[i] == b[i - |a| - 1]; }
      }
    }
    assert ',' !in s[..|a|] by {
      assert s[..|a|] == a;
      forall i | 0 <= i < |a| ensures a[i] != ',' { assert IsDigit(a[i]); }
    }
    ReplaceFirstAt(s, ',', ".", |a|);
    assert s[..|a|] == a && s[|a| + 1..] == b;
  }

  /** A "." is a thousands separator: "a.b" with digits on both sides reads
      as the digits of a followed by those of b, so "12.50" is 1250. */
  lemma DotIsThousandsSeparator(a: string, b: string)
    requires a != [] && AllDigits(a) && AllDigits(b)
    ensures Normalise(a + "." + b) == a + b
    ensures ParsedAmount(a + "." + b) == if DigitsValue(a + b) == 0 then None else Some(DigitsValue(a + b) as real)
  {
    var s := a + "." + b;
    assert '.' !in s[..|a|] by {
      assert s[..|a|] == a;
      forall i | 0 <= i < |a| ensures a[i] != '.' { assert IsDigit(a[i]); }
    }
    ReplaceFirstAt(s, '.', "", |a|);
    assert ReplaceFirst(s, '.', "") == a + b by {
      assert s[..|a|] == a && s[|a| + 1..] == b;
    }
    assert AllDigits(a + b) by {
      forall i | 0 <= i < |a + b| ensures IsDigit((a + b)[i]) {
        if i < |a| { assert (a + b)[i] == a[i]; } else { assert (a + b)[i] == b[i - |a|]; }
      }
    }
    assert ',' !in a + b by {
      forall i | 0 <= i < |a + b| ensures (a + b)[i] != ',' { assert IsDigit((a + b)[i]); }
    }
    DigitStringParses(a + b);
  }

  // ---------------------------------------------------------------------
  // Client-side checks
  // ---------------------------------------------------------------------

  const AdjustNoAccount := "Seleziona un conto per la rettifica."
  const AdjustBadAmount := "Importo non valido per la rettifica."
  const AdminNoAccounts := "Seleziona conti di origine e destinazione."
  const AdminSameAccount := "Origine e destinazione devono essere diversi."
  const AdminBadAmount := "Importo non valido per il trasferimento admin."
  const EditBadAmount := "Importo non valido nella modifica."

  /** The checks of the credit/debit tool, in order: an account, then an amount. */
  function AdjustCheck(accountId: Option<int>, amount: string): Result<real, string> {
    if !Truthy(accountId) then Err(AdjustNoAccount)
    else match ParsedAmount(amount)
      case None => Err(AdjustBadAmount)
      case Some(x) => Ok(x)
  }

  /** The checks of the admin transfer tool, in order: both accounts, two
      different accounts, then an amount. */
  function AdminTransferCheck(fromId: Option<int>, toId: Option<int>, amount: string): Result<real, string> {
    if !Truthy(fromId) || !Truthy(toId) then Err(AdminNoAccounts)
    else if fromId == toId then Err(AdminSameAccount)
    else match ParsedAmount(amount)
      case None => Err(AdminBadAmount)
      case Some(x) => Ok(x)
  }

  /** An admin transfer leaves the browser exactly when two different
      accounts are chosen and the amount reads as a positive number; the
      first failing check names the message. */
  lemma AdminTransferCheckIff(fromId: Option<int>, toId: Option<int>, amount: string)
    ensures var c := AdminTransferCheck(fromId, toId, amount);
      && (c.Ok? <==> Truthy(fromId) && Truthy(toId) && fromId.value != toId.value
                     && ParsedAmount(amount).Some?)
      && (c.Ok? ==> Some(c.value) == ParsedAmount(amount) && c.value > 0.0)
      && (!Truthy(fromId) || !Truthy(toId) ==> c == Err(AdminNoAccounts))
      && (Truthy(fromId) && fromId == toId ==> c == Err(AdminSameAccount))
  {
  }

  /** A credit or debit leaves the browser exactly when an account is chosen
      and the amount reads as a positive number. */
  lemma AdjustCheckIff(accountId: Option<int>, amount: string)
    ensures var c := AdjustCheck(accountId, amount);
      && (c.Ok? <==> Truthy(accountId) && ParsedAmount(amount).Some?)
      && (c.Ok? ==> Some(c.value) == ParsedAmount(amount) && c.value > 0.0)
      && (!Truthy(accountId) ==> c == Err(AdjustNoAccount))
  {
  }

  // ---------------------------------------------------------------------
  // Rows
  // ---------------------------------------------------------------------

  /** The account shown beside a record. */
  datatype AccountRef = AccountRef(id: int, name: string, iban: string, userName: string)

  /** One row of the table. */
  datatype Row = Row(
    id: int,
    fromAccountId: Option<int>,
    toAccountId: Option<int>,
    amount: real,
    kind: TxnType,
    status: TxnStatus,
    description: string,
    createdAt: string,
    fromAccount: Option<AccountRef>,
    toAccount: Option<AccountRef>)

  /** A record as the server sends it back, the amount already a number. */
  datatype TxnData = TxnData(
    id: int,
    fromAccountId: Option<int>,
    toAccountId: Option<int>,
    amount: real,
    kind: TxnType,
    status: TxnStatus,
    description: string,
    createdAt: string)

  /** mapUpdatedTx: the row takes the record's data from the server and keeps
      its own id and the accounts it displays. */
  function MapUpdatedTx(tx: Row, u: TxnData): Row {
    tx.(fromAccountId := u.fromAccountId, toAccountId := u.toAccountId, amount := u.amount,
        kind := u.kind, status := u.status, description := u.description, createdAt := u.createdAt)
  }

  /** The row list after a successful edit of the row with this id. */
  function ReplaceRow(rows: seq<Row>, id: int, u: TxnData): (r: seq<Row>)
    ensures |r| == |rows|
  {
    if rows == [] then []
    else [if rows[0].id == id then MapUpdatedTx(rows[0], u) else rows[0]] + ReplaceRow(rows[1..], id, u)
  }

  /** An edit changes only the rows with the edited id, in place: each takes
      the server's data and keeps its id and displayed accounts. */
  lemma {:induction false} ReplaceRowEffect(rows: seq<Row>, id: int, u: TxnData, i: int)
    requires 0 <= i < |rows|
    ensures var r := ReplaceRow(rows, id, u)[i];
      && r.id == rows[i].id
      && r.fromAccount == rows[i].fromAccount && r.toAccount == rows[i].toAccount
      && (rows[i].id != id ==> r == rows[i])
      && (rows[i].id == id ==>
            && r.fromAccountId == u.fromAccountId && r.toAccountId == u.toAccountId
            && r.amount == u.amount && r.kind == u.kind && r.status == u.status
            && r.description == u.description && r.createdAt == u.createdAt)
  {
    if i > 0 {
      ReplaceRowEffect(rows[1..], id, u, i - 1);
    }
  }

  /** The row list after a successful delete of the record with this id. */
  function RemoveRow(rows: seq<Row>, id: int): (r: seq<Row>)
    ensures |r| <= |rows|
    ensures forall t :: t in r <==> t in rows && t.id != id
  {
    if rows == [] then []
    else if rows[0].id == id then RemoveRow(rows[1..], id)
    else [rows[0]] + RemoveRow(rows[1..], id)
  }

  /** Deleting keeps the surviving rows in their order: removing from a
      joined list is removing from each part. */
  lemma {:induction false} RemoveRowAppend(a: seq<Row>, b: seq<Row>, id: int)
    ensures RemoveRow(a + b, id) == RemoveRow(a, id) + RemoveRow(b, id)
  {
    if a == [] {
      assert a + b == b;
    } else {
      assert (a + b)[1..] == a[1..] + b;
      RemoveRowAppend(a[1..], b, id);
    }
  }

  /** Deleting an id no row has changes nothing. */
  lemma {:induction false} RemoveRowAbsent(rows: seq<Row>, id: int)
    requires forall i :: 0 <= i < |rows| ==> rows[i].id != id
    ensures RemoveRow(rows, id) == rows
  {
    if rows != [] {
      RemoveRowAbsent(rows[1..], id);
    }
  }

  /** The row put at the top after a credit, a debit or an admin transfer;
      it shows no accounts until the page is reloaded. */
  function NewRow(t: TxnData): (r: Row)
    ensures r.fromAccount.None? && r.toAccount.None?
  {
    Row(t.id, t.fromAccountId, t.toAccountId, t.amount, t.kind, t.status, t.description, t.createdAt, None, None)
  }

  // ---------------------------------------------------------------------
  // Row colour
  // ---------------------------------------------------------------------

  /** Red for money leaving, green for money arriving, cyan otherwise. */
  datatype Tone = Red | Green | Cyan

  function AmountTone(fromId: Option<int>, toId: Option<int>): Tone {
    if Truthy(fromId) && !Truthy(toId) then Red
    else if Truthy(toId) && !Truthy(fromId) then Green
    else Cyan
  }


  // ---------------------------------------------------------------------
  // Requests and replies
  // ---------------------------------------------------------------------

  /** How a request ended: a success body, an error status with the body's
      `error` field, or an exception (network failure, unreadable body). */
  datatype Reply<T> = Success(body: T) | ErrorStatus(error: Option<string>) | FetchFailed(message: string)

  const NetworkText := "Errore di rete"

  /** The message shown for a failed request: the server's error, "Errore di
      rete" when it gave none, or the handler's own text when the exception
      carries no message. */
  function FailureMessage<T>(reply: Reply<T>, fallback: string): (m: string)
    requires !reply.Success?
    ensures reply.ErrorStatus? && Filled(reply.error) ==> m == reply.error.value
    ensures reply.ErrorStatus? && !Filled(reply.error) ==> m == NetworkText
    ensures reply.FetchFailed? ==> m == OrElse(Some(reply.message), fallback)
    ensures fallback != "" ==> m != ""
  {
    match reply
    case ErrorStatus(e) => OrElse(e, NetworkText)
    case FetchFailed(msg) => OrElse(Some(msg), fallback)
  }

  datatype Direction = CREDIT | DEBIT

  /** The body of the edit request; it names the record `id`. */
  datatype EditRequest = EditRequest(
    id: int,
    fromAccountId: Option<int>,
    toAccountId: Option<int>,
    amount: real,
    kind: TxnType,
    status: TxnStatus,
    description: string,
    createdAt: string)

  /** The body of the credit/debit request; an empty description is left out. */
  datatype AdjustRequest = AdjustRequest(accountId: int, amount: real, direction: Direction, description: Option<string>)

  /** The body of the admin transfer request. */
  datatype AdminTransferRequest = AdminTransferRequest(fromAccountId: int, toAccountId: int, amount: real,
                                                       description: Option<string>)

  function Unless(s: string): Option<string> {
    if s == "" then None else Some(s)
  }

  /** The edit dialog's fields. */
  datatype EditData = EditData(
    fromAccountId: Option<int>,
    toAccountId: Option<int>,
    amount: string,
    kind: TxnType,
    status: TxnStatus,
    description: string,
    createdAt: string)

  const AdjustFailed := "Errore durante la rettifica."
  const AdminFailed := "Errore durante il trasferimento admin."
  const EditFailed := "Errore durante la modifica."
  const DeleteFailed := "Errore durante l'eliminazione."

  // ---------------------------------------------------------------------
  // The table component
  // ---------------------------------------------------------------------

  /** The credit/debit tool's fields; no account chosen is None. */
  datatype AdjustTool = AdjustTool(accountId: Option<int>, direction: Direction, amount: string, description: string)

  /** The admin transfer tool's fields. */
  datatype AdminTool = AdminTool(fromId: Option<int>, toId: Option<int>, amount: string, description: string)

  class Table {
    var rows: seq<Row>
    var loadingId: Option<int>
    var globalError: Option<string>
    var adjust: AdjustTool
    var admin: AdminTool
    var editing: Option<Row>
    var editData: Option<EditData>
    var editSaving: bool

    /** The table as first rendered: the server's rows, empty tools, no dialog. */
    constructor(transactions: seq<Row>)
      ensures rows == transactions && loadingId.None? && globalError.None?
      ensures adjust == AdjustTool(None, CREDIT, "", "") && admin == AdminTool(None, None, "", "")
      ensures editing.None? && editData.None? && !editSaving
    {
      rows, loadingId, globalError := transactions, None, None;
      adjust, admin := AdjustTool(None, CREDIT, "", ""), AdminTool(None, None, "", "");
      editing, editData, editSaving := None, None, false;
    }

    /** openEdit; `amountText` is the amount's decimal text. */
    method OpenEdit(tx: Row, amountText: string)
      modifies this
      ensures editing == Some(tx)
      ensures editData == Some(EditData(tx.fromAccountId, tx.toAccountId, FormatForEdit(amountText),
                                        tx.kind, tx.status, tx.description, Prefix(tx.createdAt, 16)))
      ensures rows == old(rows) && globalError == old(globalError) && editSaving == old(editSaving)
      ensures loadingId == old(loadingId) && adjust == old(adjust) && admin == old(admin)
    {
      editing := Some(tx);
      editData := Some(EditData(tx.fromAccountId, tx.toAccountId, FormatForEdit(amountText),
                                tx.kind, tx.status, tx.description, Prefix(tx.createdAt, 16)));
    }

    /** closeEdit. */
    method CloseEdit()
      modifies this
      ensures editing.None? && editData.None? && !editSaving
      ensures rows == old(rows) && globalError == old(globalError) && loadingId == old(loadingId)
      ensures adjust == old(adjust) && admin == old(admin)
    {
      editing, editData, editSaving := None, None, false;
    }

    /** handleSaveEdit: `reply` is how the update request ended; `sent` is
        the body posted, if any. */
    method SaveEdit(reply: Reply<TxnData>) returns (sent: Option<EditRequest>)
      modifies this
      ensures old(editing).None? || old(editData).None? ==>
        sent.None? && globalError == old(globalError) && rows == old(rows)
        && editing == old(editing) && editData == old(editData) && editSaving == old(editSaving)
      ensures old(editing).Some? && old(editData).Some? ==>
        var tx, d := old(editing).value, old(editData).value;
        var parsed := ParsedAmount(d.amount);
        && (parsed.None? ==>
              sent.None? && globalError == Some(EditBadAmount) && rows == old(rows)
              && editing == old(editing) && editData == old(editData) && editSaving == old(editSaving))
        && (parsed.Some? ==>
              && sent == Some(EditRequest(tx.id, d.fromAccountId, d.toAccountId, parsed.value,
                                          d.kind, d.status, d.description, d.createdAt))
              && (reply.Success? ==>
                    rows == ReplaceRow(old(rows), tx.id, reply.body)
                    && globalError.None? && editing.None? && editData.None? && !editSaving)
              && (!reply.Success? ==>
                    rows == old(rows) && globalError == Some(FailureMessage(reply, EditFailed))
                    && editing == old(editing) && editData == old(editData) && !editSaving))
      ensures loadingId == old(loadingId) && adjust == old(adjust) && admin == old(admin)
    {
      if editing.None? || editData.None? {
        return None;
      }
      var parsed := ParsedAmount(editData.value.amount);
      sent := FinishEdit(parsed, reply);
    }

    /** The rest of handleSaveEdit once the amount read as `parsed`. */
    method FinishEdit(parsed: Option<real>, reply: Reply<TxnData>) returns (sent: Option<EditRequest>)
      requires editing.Some? && editData.Some?
      modifies this
      ensures var tx, d := old(editing).value, old(editData).value;
        && (parsed.None? ==>
              sent.None? && globalError == Some(EditBadAmount) && rows == old(rows)
              && editing == old(editing) && editData == old(editData) && editSaving == old(editSaving))
        && (parsed.Some? ==>
              && sent == Some(EditRequest(tx.id, d.fromAccountId, d.toAccountId, parsed.value,
                                          d.kind, d.status, d.description, d.createdAt))
              && (reply.Success? ==>
                    rows == ReplaceRow(old(rows), tx.id, reply.body)
                    && globalError.None? && editing.None? && editData.None? && !editSaving)
              && (!reply.Success? ==>
                    rows == old(rows) && globalError == Some(FailureMessage(reply, EditFailed))
                    && editing == old(editing) && editData == old(editData) && !editSaving))
      ensures loadingId == old(loadingId) && adjust == old(adjust) && admin == old(admin)
    {
      var tx, d := editing.value, editData.value;
      if parsed.None? {
        globalError := Some(EditBadAmount);
        return None;
      }
      editSaving := true;
      globalError := None;
      sent := Some(EditRequest(tx.id, d.fromAccountId, d.toAccountId, parsed.value,
                               d.kind, d.status, d.description, d.createdAt));
      if reply.Success? {
        rows := ReplaceRow(rows, tx.id, reply.body);
        editing, editData, editSaving := None, None, false;
      } else {
        globalError := Some(FailureMessage(reply, EditFailed));
        editSaving := false;
      }
    }

    /** handleDelete: `confirmed` is the user's answer to the confirmation
        prompt and `reply` how the delete request ended; `sent` is the id
        posted, if any. */
    method Delete(tx: Row, confirmed: bool, reply: Reply<()>) returns (sent: Option<int>)
      modifies this
      ensures !confirmed ==> sent.None? && rows == old(rows) && globalError == old(globalError)
                             && loadingId == old(loadingId)
      ensures confirmed ==> sent == Some(tx.id) && loadingId.None?
      ensures confirmed && reply.Success? ==> rows == RemoveRow(old(rows), tx.id) && globalError.None?
      ensures confirmed && !reply.Success? ==>
        rows == old(rows) && globalError == Some(FailureMessage(reply, DeleteFailed))
      ensures editing == old(editing) && editData == old(editData) && editSaving == old(editSaving)
      ensures adjust == old(adjust) && admin == old(admin)
    {
      if !confirmed {
        return None;
      }
      loadingId := Some(tx.id);
      globalError := None;
      sent := Some(tx.id);
      if reply.Success? {
        rows := RemoveRow(rows, tx.id);
      } else {
        globalError := Some(FailureMessage(reply, DeleteFailed));
      }
      loadingId := None;
    }

    /** handleAdjust: `reply` is how the credit/debit request ended. */
    method Adjust(reply: Reply<TxnData>) returns (sent: Option<AdjustRequest>)
      modifies this
      ensures var t := old(adjust); var c := AdjustCheck(t.accountId, t.amount);
        && (c.Err? ==> sent.None? && globalError == Some(c.error) && rows == old(rows) && adjust == t)
        && (c.Ok? ==>
              && sent == Some(AdjustRequest(t.accountId.value, c.value, t.direction, Unless(t.description)))
              && (reply.Success? ==> rows == [NewRow(reply.body)] + old(rows) && globalError.None?
                                     && adjust == t.(amount := "", description := ""))
              && (!reply.Success? ==> rows == old(rows) && globalError == Some(FailureMessage(reply, AdjustFailed))
                                      && adjust == t))
      ensures loadingId == old(loadingId) && admin == old(admin)
      ensures editing == old(editing) && editData == old(editData) && editSaving == old(editSaving)
    {
      var c := AdjustCheck(adjust.accountId, adjust.amount);
      sent := FinishAdjust(c, reply);
    }

    /** The rest of handleAdjust once its checks gave `c`. */
    method FinishAdjust(c: Result<real, string>, reply: Reply<TxnData>) returns (sent: Option<AdjustRequest>)
      requires c.Ok? ==> adjust.accountId.Some?
      modifies this
      ensures var t := old(adjust);
        && (c.Err? ==> sent.None? && globalError == Some(c.error) && rows == old(rows) && adjust == t)
        && (c.Ok? ==>
              && sent == Some(AdjustRequest(t.accountId.value, c.value, t.direction, Unless(t.description)))
              && (reply.Success? ==> rows == [NewRow(reply.body)] + old(rows) && globalError.None?
                                     && adjust == t.(amount := "", description := ""))
              && (!reply.Success? ==> rows == old(rows) && globalError == Some(FailureMessage(reply, AdjustFailed))
                                      && adjust == t))
      ensures loadingId == old(loadingId) && admin == old(admin)
      ensures editing == old(editing) && editData == old(editData) && editSaving == old(editSaving)
    {
      if c.Err? {
        globalError := Some(c.error);
        return None;
      }
      globalError := None;
      sent := Some(AdjustRequest(adjust.accountId.value, c.value, adjust.direction, Unless(adjust.description)));
      if reply.Success? {
        rows := [NewRow(reply.body)] + rows;
        adjust := adjust.(amount := "", description := "");
      } else {
        globalError := Some(FailureMessage(reply, AdjustFailed));
      }
    }

    /** handleAdminTransfer: `reply` is how the admin transfer request ended. */
    method AdminTransfer(reply: Reply<TxnData>) returns (sent: Option<AdminTransferRequest>)
      modifies this
      ensures var t := old(admin); var c := AdminTransferCheck(t.fromId, t.toId, t.amount);
        && (c.Err? ==> sent.None? && globalError == Some(c.error) && rows == old(rows) && admin == t)
        && (c.Ok? ==>
              && sent == Some(AdminTransferRequest(t.fromId.value, t.toId.value, c.value, Unless(t.description)))
              && (reply.Success? ==> rows == [NewRow(reply.body)] + old(rows) && globalError.None?
                                     && admin == t.(amount := "", description := ""))
              && (!reply.Success? ==> rows == old(rows) && globalError == Some(FailureMessage(reply, AdminFailed))
                                      && admin == t))
      ensures loadingId == old(loadingId) && adjust == old(adjust)
      ensures editing == old(editing) && editData == old(editData) && editSaving == old(editSaving)
    {
      var c := AdminTransferCheck(admin.fromId, admin.toId, admin.amount);
      sent := FinishAdminTransfer(c, reply);
    }

    /** The rest of handleAdminTransfer once its checks gave `c`. */
    method FinishAdminTransfer(c: Result<real, string>, reply: Reply<TxnData>)
      returns (sent: Option<AdminTransferRequest>)
      requires c.Ok? ==> admin.fromId.Some? && admin.toId.Some?
      modifies this
      ensures var t := old(admin);
        && (c.Err? ==> sent.None? && globalError == Some(c.error) && rows == old(rows) && admin == t)
        && (c.Ok? ==>
              && sent == Some(AdminTransferRequest(t.fromId.value, t.toId.value, c.value, Unless(t.description)))
              && (reply.Success? ==> rows == [NewRow(reply.body)] + old(rows) && globalError.None?
                                     && admin == t.(amount := "", description := ""))
              && (!reply.Success? ==> rows == old(rows) && globalError == Some(FailureMessage(reply, AdminFailed))
                                      && admin == t))
      ensures loadingId == old(loadingId) && adjust == old(adjust)
      ensures editing == old(editing) && editData == old(editData) && editSaving == old(editSaving)
    {
      if c.Err? {
        globalError := Some(c.error);
        return None;
      }
      globalError := None;
      sent := Some(AdminTransferRequest(admin.fromId.value, admin.toId.value, c.value, Unless(admin.description)));
      if reply.Success? {
        rows := [NewRow(reply.body)] + rows;
        admin := admin.(amount := "", description := "");
      } else {
        globalError := Some(FailureMessage(reply, AdminFailed));
      }
    }
  }
}
