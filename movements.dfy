/** The customer's movements page: which records it lists, in which order,
    and how each row presents its direction, account and amount. */
module Movements {
  import opened Common
  import opened LedgerModel
  import AdminTable

  /** The account on one side of a record, loaded with the record; an
      absent side, or one naming no account, is None. */
  function Side(accounts: map<int, Account>, id: Option<int>): (r: Option<Account>)
    ensures r.Some? <==> id.Some? && id.value in accounts
    ensures r.Some? ==> r.value == accounts[id.value]
  {
    if id.Some? && id.value in accounts then Some(accounts[id.value]) else None
  }

  predicate OwnedBy(side: Option<Account>, viewer: int) {
    side.Some? && side.value.userId == viewer
  }

  /** The record's source or destination belongs to the viewer. */
  predicate Involves(accounts: map<int, Account>, viewer: int, t: Txn) {
    OwnedBy(Side(accounts, t.fromAccountId), viewer) || OwnedBy(Side(accounts, t.toAccountId), viewer)
  }

  /** The viewer's records, newest first. Records are kept in the order they
      were created, so the newest is the last one. */
  function Listed(accounts: map<int, Account>, viewer: int, txns: seq<Txn>): (r: seq<Txn>)
    ensures |r| <= |txns|
  {
    if txns == [] then []
    else
      var last := txns[|txns| - 1];
      (if Involves(accounts, viewer, last) then [last] else []) + Listed(accounts, viewer, txns[..|txns| - 1])
  }

  /** The list holds exactly the records whose source or destination
      belongs to the viewer. */
  lemma {:induction false} ListedMembers(accounts: map<int, Account>, viewer: int, txns: seq<Txn>)
    ensures forall t :: t in Listed(accounts, viewer, txns) <==> t in txns && Involves(accounts, viewer, t)
  {
    if txns != [] {
      var front := txns[..|txns| - 1];
      ListedMembers(accounts, viewer, front);
      assert txns == front + [txns[|txns| - 1]];
    }
  }

  /** Newest first: every record created after another is listed before it. */
  lemma {:induction false} ListedNewestFirst(accounts: map<int, Account>, viewer: int, older: seq<Txn>, newer: seq<Txn>)
    ensures Listed(accounts, viewer, older + newer) == Listed(accounts, viewer, newer) + Listed(accounts, viewer, older)
    decreases |newer|
  {
    if newer == [] {
      assert older + newer == older;
    } else {
      var all := older + newer;
      var front := newer[..|newer| - 1];
      var last := newer[|newer| - 1];
      var head := if Involves(accounts, viewer, last) then [last] else [];
      assert all[..|all| - 1] == older + front;
      assert all[|all| - 1] == last;
      calc {
        Listed(accounts, viewer, all);
        head + Listed(accounts, viewer, older + front);
        { ListedNewestFirst(accounts, viewer, older, front); }
        head + (Listed(accounts, viewer, front) + Listed(accounts, viewer, older));
        (head + Listed(accounts, viewer, front)) + Listed(accounts, viewer, older);
        Listed(accounts, viewer, newer) + Listed(accounts, viewer, older);
      }
    }
  }

  // ---------------------------------------------------------------------
  // One row
  // ---------------------------------------------------------------------

  /** The account a row shows: its name and masked IBAN. */
  datatype Shown = Shown(name: string, maskedIban: string)

  /** A row as displayed; `account` None is the "-" placeholder and `route`
      the "Da X a Y" line. */
  datatype Movement = Movement(
    id: int,
    description: string,
    outgoing: bool,
    account: Option<Shown>,
    route: Option<string>,
    sign: string,
    amount: int)

  function ShowAccount(a: Option<Account>): Option<Shown> {
    if a.None? then None else Some(Shown(a.value.name, AdminTable.MaskIban(a.value.iban)))
  }

  function View(accounts: map<int, Account>, viewer: int, t: Txn): Movement {
    var from := Side(accounts, t.fromAccountId);
    var to := Side(accounts, t.toAccountId);
    var outgoing := OwnedBy(from, viewer);
    var main := if outgoing then from else to;
    Movement(t.id, t.description, outgoing, ShowAccount(main),
             if main.Some? && from.Some? && to.Some? then Some("Da " + from.value.name + " a " + to.value.name)
             else None,
             if outgoing then "-" else "+", t.amount)
  }

  /** A row is outgoing exactly when its source account belongs to the
      viewer, so a transfer between two of the viewer's own accounts is
      outgoing; the sign is "-" for outgoing rows and "+" for the others. */
  lemma OutgoingIff(accounts: map<int, Account>, viewer: int, t: Txn)
    ensures var m := View(accounts, viewer, t);
      && (m.outgoing <==> t.fromAccountId.Some? && t.fromAccountId.value in accounts
                          && accounts[t.fromAccountId.value].userId == viewer)
      && (m.sign == "-" <==> m.outgoing)
      && (m.sign == "+" <==> !m.outgoing)
      && m.amount == t.amount
  {
  }

  /** The row shows the source when outgoing and the destination otherwise,
      and "-" when that side is absent. */
  lemma ShownSide(accounts: map<int, Account>, viewer: int, t: Txn)
    ensures var m := View(accounts, viewer, t);
      var side := if m.outgoing then t.fromAccountId else t.toAccountId;
      && (m.account.None? <==> side.None? || side.value !in accounts)
      && (m.account.Some? ==> m.account == Some(Shown(accounts[side.value].name,
                                                      AdminTable.MaskIban(accounts[side.value].iban))))
  {
  }

  /** The "Da X a Y" line appears exactly when both accounts are known, and
      reads the same whoever is looking. */
  lemma RouteLine(accounts: map<int, Account>, viewer: int, other: int, t: Txn)
    ensures var m := View(accounts, viewer, t);
      && (m.route.Some? <==> Side(accounts, t.fromAccountId).Some? && Side(accounts, t.toAccountId).Some?)
      && m.route == View(accounts, other, t).route
      && (m.route.Some? ==>
            m.route.value == "Da " + accounts[t.fromAccountId.value].name + " a " + accounts[t.toAccountId.value].name)
  {
  }

  /** Every listed row shows one of the viewer's own accounts: never the
      placeholder, never someone else's account. */
  lemma ListedRowShowsOwnAccount(accounts: map<int, Account>, viewer: int, t: Txn)
    requires Involves(accounts, viewer, t)
    ensures var m := View(accounts, viewer, t);
      var side := if m.outgoing then t.fromAccountId else t.toAccountId;
      && m.account.Some?
      && side.Some? && side.value in accounts && accounts[side.value].userId == viewer
  {
  }

  // ---------------------------------------------------------------------
  // The page
  // ---------------------------------------------------------------------

  function Views(accounts: map<int, Account>, viewer: int, ts: seq<Txn>): seq<Movement> {
    seq(|ts|, i requires 0 <= i < |ts| => View(accounts, viewer, ts[i]))
  }

  /** The page for the session's e-mail: nothing without an e-mail or a
      matching user, otherwise the viewer's rows. */
  function Page(b: Bank, email: Option<string>): Option<seq<Movement>> {
    if !Filled(email) then None
    else match FindUserByEmail(b.users, email.value)
      case None => None
      case Some(u) => Some(Views(b.accounts, u.id, Listed(b.accounts, u.id, b.txns)))
  }

  /** The page renders exactly for a signed-in, registered user, and then
      holds one row per record touching one of their accounts, each showing
      an account of theirs. */
  lemma PageContents(b: Bank, email: Option<string>)
    ensures Page(b, email).Some? <==> Filled(email) && FindUserByEmail(b.users, email.value).Some?
    ensures Page(b, email).Some? ==>
      var u := FindUserByEmail(b.users, email.value).value;
      var rows := Page(b, email).value;
      var listed := Listed(b.accounts, u.id, b.txns);
      && |rows| == |listed|
      && (forall t :: t in listed <==> t in b.txns && Involves(b.accounts, u.id, t))
      && (forall i :: 0 <= i < |rows| ==> rows[i].id == listed[i].id && rows[i].account.Some?)
  {
    if Page(b, email).Some? {
      var u := FindUserByEmail(b.users, email.value).value;
      var listed := Listed(b.accounts, u.id, b.txns);
      ListedMembers(b.accounts, u.id, b.txns);
      forall i | 0 <= i < |listed| ensures View(b.accounts, u.id, listed[i]).account.Some? {
        assert listed[i] in listed;
        ListedRowShowsOwnAccount(b.accounts, u.id, listed[i]);
      }
    }
  }
}
