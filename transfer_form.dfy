/** The customer's transfer form: validation of what was typed, the request
    it builds, the state after the server's reply, and the list of
    destination accounts offered. The request itself is a parameter: the
    server's reply comes in as a value. */
module TransferFormModel {
  import opened Common

  datatype Mode = Internal | External

  function ModeName(m: Mode): string {
    match m
    case Internal => "internal"
    case External => "external"
  }

  /** Everything the form holds; an unselected account is None. */
  datatype FormState = FormState(
    mode: Mode,
    fromAccountId: Option<int>,
    toAccountId: Option<int>,
    externalName: string,
    externalIban: string,
    amount: string,
    description: string,
    loading: bool,
    error: Option<string>,
    feedback: Option<string>)

  /** The JSON body posted to the transfer route. */
  datatype Payload = Payload(
    mode: string,
    fromAccountId: int,
    amount: real,
    description: Option<string>,
    toAccountId: Option<int>,
    externalName: Option<string>,
    externalIban: Option<string>)

  datatype FormError = MissingSourceOrAmount | InvalidAmount | MissingDestination | MissingBeneficiary

  function ErrorText(e: FormError): string {
    match e
    case MissingSourceOrAmount => "Seleziona il conto di origine e l'importo."
    case InvalidAmount => "Inserisci un importo valido."
    case MissingDestination => "Seleziona il conto di destinazione."
    case MissingBeneficiary => "Nome beneficiario e IBAN sono obbligatori."
  }

  /** The checks of the submit handler, in its order, and the body it builds. */
  function Validate(s: FormState): Result<Payload, FormError> {
    if !Truthy(s.fromAccountId) || s.amount == "" then Err(MissingSourceOrAmount)
    else
      var n := JsNumber(s.amount);
      if n.None? || n.value == 0.0 || n.value <= 0.0 then Err(InvalidAmount)
      else
        var base := Payload(ModeName(s.mode), s.fromAccountId.value, n.value,
                            if s.description != "" then Some(s.description) else None,
                            None, None, None);
        match s.mode
        case Internal =>
          if !Truthy(s.toAccountId) then Err(MissingDestination)
          else Ok(base.(toAccountId := s.toAccountId))
        case External =>
          if s.externalName == "" || s.externalIban == "" then Err(MissingBeneficiary)
          else Ok(base.(externalName := Some(s.externalName), externalIban := Some(s.externalIban)))
  }

  /** The form sends a request exactly when a source is chosen, the amount
      reads as a positive number and the mode's own fields are filled. The
      source balance plays no part: that check is the server's. */
  lemma ValidateIff(s: FormState)
    ensures Validate(s).Ok? <==>
      && Truthy(s.fromAccountId)
      && JsNumber(s.amount).Some? && JsNumber(s.amount).value > 0.0
      && (s.mode == Internal ==> Truthy(s.toAccountId))
      && (s.mode == External ==> s.externalName != "" && s.externalIban != "")
  {
    if s.amount == "" {
      assert JsNumber(s.amount) == Some(0.0);
    }
  }

  /** The first failing check is the one reported: a missing source or
      amount hides a bad amount, and a bad amount hides missing mode fields. */
  lemma ValidateOrder(s: FormState)
    ensures !Truthy(s.fromAccountId) || s.amount == "" ==> Validate(s) == Err(MissingSourceOrAmount)
    ensures Truthy(s.fromAccountId) && s.amount != "" && (JsNumber(s.amount).None? || JsNumber(s.amount).value <= 0.0)
            ==> Validate(s) == Err(InvalidAmount)
  {
  }

  /** An internal body names a destination and no beneficiary; an external
      one names a beneficiary and no destination; an empty description is
      left out. */
  lemma PayloadShape(s: FormState)
    requires Validate(s).Ok?
    ensures var p := Validate(s).value;
      && p.mode == ModeName(s.mode)
      && p.fromAccountId == s.fromAccountId.value && p.fromAccountId != 0
      && p.amount > 0.0 && Some(p.amount) == JsNumber(s.amount)
      && (p.description.None? <==> s.description == "")
      && (s.mode == Internal ==> p.toAccountId == s.toAccountId && p.externalName.None? && p.externalIban.None?)
      && (s.mode == External ==> p.toAccountId.None? && p.externalName == Some(s.externalName)
                                 && p.externalIban == Some(s.externalIban))
  {
    var n := JsNumber(s.amount);
    assert n.Some? && n.value > 0.0;
    var base := Payload(ModeName(s.mode), s.fromAccountId.value, n.value,
                        if s.description != "" then Some(s.description) else None,
                        None, None, None);
    match s.mode {
      case Internal => assert Validate(s) == Ok(base.(toAccountId := s.toAccountId));
      case External =>
        assert Validate(s) == Ok(base.(externalName := Some(s.externalName), externalIban := Some(s.externalIban)));
    }
  }

  /** How the request ended. */
  datatype Reply = Accepted | Refused(error: Option<string>) | NetworkFailure

  const SuccessText := "Operazione completata con successo."
  const RefusedText := "Errore durante il trasferimento."
  const UnexpectedText := "Errore imprevisto. Riprova più tardi."

  /** The state after a submit and the body sent, if any. */
  function SubmitSpec(s: FormState, reply: Reply): (FormState, Option<Payload>) {
    Settle(s, Validate(s), reply)
  }

  /** The state after a submit whose checks gave `checked`. */
  function Settle(s: FormState, checked: Result<Payload, FormError>, reply: Reply): (FormState, Option<Payload>) {
    var cleared := s.(error := None, feedback := None);
    match checked
    case Err(e) => (cleared.(error := Some(ErrorText(e))), None)
    case Ok(p) =>
      var after :=
        match reply
        case Accepted =>
          var reset := cleared.(feedback := Some(SuccessText), amount := "", description := "");
          if s.mode == Internal then reset.(toAccountId := None)
          else reset.(externalName := "", externalIban := "")
        case Refused(msg) => cleared.(error := Some(OrElse(msg, RefusedText)))
        case NetworkFailure => cleared.(error := Some(UnexpectedText));
      (after.(loading := false), Some(p))
  }

  /** A failed check reports its message and sends nothing; everything the
      user typed stays. */
  lemma SubmitInvalid(s: FormState, reply: Reply)
    requires Validate(s).Err?
    ensures var (after, sent) := SubmitSpec(s, reply);
      && sent.None?
      && after == s.(error := Some(ErrorText(Validate(s).error)), feedback := None)
  {
  }

  /** After a successful transfer the amount, the description and the
      mode's own fields are cleared; source, mode and the other mode's
      fields are kept. */
  lemma SubmitAcceptedResets(s: FormState)
    requires Validate(s).Ok?
    ensures var (after, sent) := SubmitSpec(s, Accepted);
      && sent == Some(Validate(s).value)
      && after.amount == "" && after.description == ""
      && after.mode == s.mode && after.fromAccountId == s.fromAccountId
      && (s.mode == Internal ==> after.toAccountId.None?
                                 && after.externalName == s.externalName && after.externalIban == s.externalIban)
      && (s.mode == External ==> after.externalName == "" && after.externalIban == ""
                                 && after.toAccountId == s.toAccountId)
      && after.feedback == Some(SuccessText) && after.error.None? && !after.loading
  {
  }

  /** A refused or failed request keeps every field the user typed. */
  lemma SubmitFailureKeepsInput(s: FormState, reply: Reply)
    requires Validate(s).Ok? && reply != Accepted
    ensures var after := SubmitSpec(s, reply).0;
      && after == s.(error := after.error, feedback := None, loading := false)
      && after.error.Some? && after.error.value != ""
  {
  }

  /** The form component with its state variables. */
  class TransferForm {
    var mode: Mode
    var fromAccountId: Option<int>
    var toAccountId: Option<int>
    var externalName: string
    var externalIban: string
    var amount: string
    var description: string
    var loading: bool
    var error: Option<string>
    var feedback: Option<string>

    function Value(): FormState
      reads this
    {
      FormState(mode, fromAccountId, toAccountId, externalName, externalIban, amount, description,
                loading, error, feedback)
    }

    /** The initial state: internal mode, nothing selected or typed. */
    constructor()
      ensures Value() == FormState(Internal, None, None, "", "", "", "", false, None, None)
    {
      mode, fromAccountId, toAccountId := Internal, None, None;
      externalName, externalIban, amount, description := "", "", "", "";
      loading, error, feedback := false, None, None;
    }

    /** The submit handler; `reply` is how the request ended. */
    method Submit(reply: Reply) returns (sent: Option<Payload>)
      modifies this
      ensures (Value(), sent) == SubmitSpec(old(Value()), reply)
    {
      // the checks read only what was typed, not the messages cleared next
      var checked := Validate(Value());
      sent := Finish(checked, reply);
    }

    /** The rest of the submit handler, given the outcome of its checks. */
    method Finish(checked: Result<Payload, FormError>, reply: Reply) returns (sent: Option<Payload>)
      modifies this
      ensures (Value(), sent) == Settle(old(Value()), checked, reply)
    {
      error := None;
      feedback := None;
      if checked.Err? {
        error := Some(ErrorText(checked.error));
        return None;
      }
      sent := Some(checked.value);
      loading := true;
      match reply {
        case Refused(msg) =>
          error := Some(OrElse(msg, RefusedText));
        case NetworkFailure =>
          error := Some(UnexpectedText);
        case Accepted =>
          feedback := Some(SuccessText);
          amount := "";
          description := "";
          if mode == Internal {
            toAccountId := None;
          } else {
            externalName := "";
            externalIban := "";
          }
      }
      loading := false;
    }
  }

  // ---------------------------------------------------------------------
  // Destination choices
  // ---------------------------------------------------------------------

  datatype AccountChoice = AccountChoice(id: int, name: string, iban: string, balance: real)

  /** The accounts offered as destination: every account whose id differs
      from the selected source (an unselected source reads as 0), in order
      (DestinationChoicesAppend). */
  function DestinationChoices(accounts: seq<AccountChoice>, from: Option<int>): (r: seq<AccountChoice>)
    ensures |r| <= |accounts|
    ensures forall a :: a in r <==> a in accounts && a.id != OrDefault(from, 0)
  {
    if accounts == [] then []
    else
      var rest := DestinationChoices(accounts[1..], from);
      if accounts[0].id != OrDefault(from, 0) then [accounts[0]] + rest else rest
  }

  /** The filter keeps the accounts' order: filtering a joined list is
      filtering each part. */
  lemma {:induction false} DestinationChoicesAppend(a: seq<AccountChoice>, b: seq<AccountChoice>, from: Option<int>)
    ensures DestinationChoices(a + b, from) == DestinationChoices(a, from) + DestinationChoices(b, from)
  {
    if a == [] {
      assert a + b == b;
    } else {
      assert (a + b)[1..] == a[1..] + b;
      DestinationChoicesAppend(a[1..], b, from);
    }
  }

  function OrDefault(x: Option<int>, d: int): int {
    if x.Some? then x.value else d
  }

  /** The selected source is never offered as its own destination. */
  lemma SourceNotADestination(accounts: seq<AccountChoice>, from: int)
    ensures forall a :: a in DestinationChoices(accounts, Some(from)) ==> a.id != from
  {
  }
}
