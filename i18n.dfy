/** Interface text by language and dotted key path: the constant table and
    the lookup that walks it one path segment at a time. */
module I18n {
  import opened Common

  datatype Lang = It | En

  /** A table node: a text, or a section of named children. */
  datatype Node = Text(text: string) | Section(children: seq<(string, Node)>)

  /** The child with this name, if any. */
  function Child(children: seq<(string, Node)>, name: string): Option<Node> {
    if children == [] then None
    else if children[0].0 == name then Some(children[0].1)
    else Child(children[1..], name)
  }

  /** A child is found exactly when some entry carries the name. */
  lemma {:induction false} ChildFound(children: seq<(string, Node)>, name: string)
    ensures Child(children, name).None? <==> forall i :: 0 <= i < |children| ==> children[i].0 != name
  {
    if children != [] {
      ChildFound(children[1..], name);
      assert forall i :: 1 <= i < |children| ==> children[i] == children[1..][i - 1];
    }
  }

  /** The sections whose entries are the declared key paths. */
  datatype Declared = Header | UserNav | Admin

  function SectionKey(d: Declared): string {
    match d
    case Header => "header"
    case UserNav => "userNav"
    case Admin => "admin"
  }

  /** The translation table: four sections per language. Both languages
      declare the same keys in the same order, so each section is kept as
      its key list and, at the same positions, each key's Italian and
      English text. */
  function Root(lang: Lang): Node {
    Tree(Entries(lang, Header), Entries(lang, UserNav), Entries(lang, Admin))
  }

  /** The table's shape, around the entries of its three declared sections. */
  function Tree(header: seq<(string, Node)>, userNav: seq<(string, Node)>, admin: seq<(string, Node)>): Node {
    Section([
      ("common", Section([("appName", Text("UniCredit"))])),
      ("header", Section(header)),
      ("userNav", Section(userNav)),
      ("admin", Section(admin))])
  }

  /** A section's entries: each key with its text in this language. */
  function Entries(lang: Lang, d: Declared): seq<(string, Node)> {
    Pairs(lang, Keys(d), Texts(d))
  }

  /** A text in both languages: Italian first, then English. */
  type Bilingual = (string, string)

  function In(lang: Lang, t: Bilingual): string {
    match lang
    case It => t.0
    case En => t.1
  }

  /** Each key with the text at the same position, in this language. */
  function Pairs(lang: Lang, keys: seq<string>, texts: seq<Bilingual>): seq<(string, Node)>
    requires |keys| == |texts|
  {
    seq(|keys|, i requires 0 <= i < |keys| => (keys[i], Text(In(lang, texts[i]))))
  }

  function Keys(d: Declared): seq<string> {
    match d
    case Header => HeaderKeys
    case UserNav => UserNavKeys
    case Admin => AdminKeys
  }

  /** The texts of a section, one per key. */
  function Texts(d: Declared): (r: seq<Bilingual>)
    ensures |r| == |Keys(d)|
  {
    match d
    case Header => HeaderTexts
    case UserNav => UserNavTexts
    case Admin => AdminTexts
  }

  const HeaderKeys: seq<string> :=
    ["privati", "imprese", "chiSiamo", "contatti", "cerca", "numeroVerde", "apriConto",
     "accessoClienti", "languageLabel"]

  const HeaderTexts: seq<Bilingual> := [
    ("PRIVATI", "PERSONAL"),
    ("IMPRESE", "BUSINESS"),
    ("CHI SIAMO", "ABOUT US"),
    ("CONTATTI E FILIALI", "CONTACTS & BRANCHES"),
    ("CERCA", "SEARCH"),
    ("NUMERO VERDE", "TOLL-FREE NUMBER"),
    ("APRI IL CONTO", "OPEN ACCOUNT"),
    ("Accesso Area Clienti", "Client Login"),
    ("ITA", "EN")]

  const UserNavKeys: seq<string> :=
    ["overview", "accounts", "transfers", "movements", "profile", "admin", "logout"]

  const UserNavTexts: seq<Bilingual> := [
    ("Panoramica", "Overview"),
    ("Conti e carte", "Accounts & Cards"),
    ("Trasferimenti", "Transfers"),
    ("Movimenti", "Transactions"),
    ("Profilo", "Profile"),
    ("Console Admin", "Admin Console"),
    ("Esci", "Logout")]

  const AdminKeys: seq<string> :=
    ["dashboardTitle", "transactionsTitle", "adjustTitle", "adjustDescription", "transferTitle",
     "transferDescription"]

  const AdminTexts: seq<Bilingual> := [
    ("Panoramica amministratore", "Admin overview"),
    ("Movimenti (super amministratore)", "Transactions (super admin)"),
    ("Rettifica saldo conto (admin)", "Account balance adjustment (admin)"),
    ("Aggiungi o rimuovi fondi da un conto creando una movimentazione di rettifica.",
     "Add or remove funds on an account by creating an adjustment transaction."),
    ("Trasferimento tra conti (admin)", "Admin transfer between accounts"),
    ("Sposta denaro tra due conti qualsiasi, indipendentemente dall'intestatario.",
     "Move money between any two accounts, regardless of owner.")]

  /** One step of the walk: a section's child, or nothing. */
  function Step(current: Option<Node>, part: string): Option<Node> {
    match current
    case Some(Section(children)) => Child(children, part)
    case _ => None
  }

  /** The node reached by following the segments from `current`. */
  function Walk(current: Option<Node>, parts: seq<string>): Option<Node>
    decreases |parts|
  {
    if parts == [] then current else Walk(Step(current, parts[0]), parts[1..])
  }

  /** The text at the path below root, or the path itself when the walk
      does not end on a text. */
  function Lookup(root: Node, path: string): string {
    var reached := Walk(Some(root), Split(path, '.'));
    if reached.Some? && reached.value.Text? then reached.value.text else path
  }

  function Translate(lang: Lang, path: string): string {
    Lookup(Root(lang), path)
  }

  lemma {:induction false} WalkFromNothing(parts: seq<string>)
    ensures Walk(None, parts) == None
  {
    if parts != [] {
      WalkFromNothing(parts[1..]);
    }
  }

  /** getNestedTranslation: the loop over the path's segments, stopping at
      the first one that is missing. */
  method GetNestedTranslation(lang: Lang, path: string) returns (r: string)
    ensures r == Translate(lang, path)
  {
    r := Resolve(Root(lang), path);
  }

  /** The same loop below any root. */
  method Resolve(root: Node, path: string) returns (r: string)
    ensures r == Lookup(root, path)
  {
    var parts := Split(path, '.');
    var current := Some(root);
    var i := 0;
    while i < |parts|
      invariant 0 <= i <= |parts|
      invariant Walk(current, parts[i..]) == Walk(Some(root), parts)
    {
      assert parts[i..][1..] == parts[i + 1..];
      current := Step(current, parts[i]);
      i := i + 1;
      if current.None? {
        WalkFromNothing(parts[i..]);
        break;
      }
    }
    if i == |parts| {
      assert parts[i..] == [];
    }
    r := if current.Some? && current.value.Text? then current.value.text else path;
  }

  /** A path of two segments reaches the text stored under them. */
  lemma TwoSegments(root: Node, section: string, key: string, text: string)
    requires '.' !in section && '.' !in key
    requires root.Section? && Child(root.children, section).Some?
    requires Child(root.children, section).value.Section?
    requires Child(Child(root.children, section).value.children, key) == Some(Text(text))
    ensures Lookup(root, section + "." + key) == text
  {
    var path := section + "." + key;
    assert Join([section, key], '.') == path by {
      assert [section, key][1..] == [key];
    }
    SplitJoin([section, key], '.');
    var parts := Split(path, '.');
    assert parts == [section, key];
    var inner := Step(Some(root), section);
    assert inner == Child(root.children, section);
    assert parts[1..] == [key];
    assert Walk(Some(root), parts) == Walk(inner, [key]);
    assert Walk(inner, [key]) == Walk(Step(inner, key), [key][1..]);
    assert [key][1..] == [];
    assert Walk(Some(root), parts) == Some(Text(text));
  }

  /** Walking a path in two pieces is walking it whole. */
  lemma {:induction false} WalkAppend(current: Option<Node>, a: seq<string>, b: seq<string>)
    ensures Walk(current, a + b) == Walk(Walk(current, a), b)
    decreases |a|
  {
    if a == [] {
      assert a + b == b;
    } else {
      assert (a + b)[1..] == a[1..] + b;
      WalkAppend(Step(current, a[0]), a[1..], b);
    }
  }

  /** Once a segment is missing the walk is over and the path itself is
      the answer, whatever follows. */
  lemma MissingSegment(root: Node, path: string, j: nat)
    requires j <= |Split(path, '.')|
    requires Walk(Some(root), Split(path, '.')[..j]) == None
    ensures Lookup(root, path) == path
  {
    var parts := Split(path, '.');
    assert parts == parts[..j] + parts[j..];
    WalkAppend(Some(root), parts[..j], parts[j..]);
    WalkFromNothing(parts[j..]);
  }

  /** A path without a dot names a top-level entry; a section there gives
      the name back rather than an object. */
  lemma SectionName(root: Node, name: string)
    requires '.' !in name && root.Section?
    requires Child(root.children, name).Some? && Child(root.children, name).value.Section?
    ensures Lookup(root, name) == name
  {
    assert Join([name], '.') == name;
    SplitJoin([name], '.');
    var parts := Split(name, '.');
    assert parts == [name];
    assert Walk(Some(root), parts) == Walk(Step(Some(root), name), parts[1..]);
    assert parts[1..] == [];
  }

  /** The child at position i, when no earlier child has its name. */
  lemma {:induction false} ChildAt(cs: seq<(string, Node)>, i: int)
    requires 0 <= i < |cs|
    requires forall j :: 0 <= j < i ==> cs[j].0 != cs[i].0
    ensures Child(cs, cs[i].0) == Some(cs[i].1)
  {
    if i > 0 {
      ChildAt(cs[1..], i - 1);
    }
  }

  /** No "." in s: the key is a single path segment. */
  predicate NoDot(s: string) {
    forall k :: 0 <= k < |s| ==> s[k] != '.'
  }

  /** Keys without dots, none declared twice. */
  predicate WellFormedKeys(keys: seq<string>) {
    && (forall i :: 0 <= i < |keys| ==> NoDot(keys[i]))
    && (forall i, j :: 0 <= j < i < |keys| ==> keys[j] != keys[i])
  }

  /** Every section's keys are well formed. */
  lemma KeysWellFormed(d: Declared)
    ensures WellFormedKeys(Keys(d))
  {
    match d
    case Header => HeaderKeysWellFormed();
    case UserNav => UserNavKeysWellFormed();
    case Admin => AdminKeysWellFormed();
  }

  lemma HeaderKeysWellFormed()
    ensures WellFormedKeys(HeaderKeys)
  {
    assert forall i :: 0 <= i < |HeaderKeys| ==> NoDot(HeaderKeys[i]);
  }

  lemma UserNavKeysWellFormed()
    ensures WellFormedKeys(UserNavKeys)
  {
    assert forall i :: 0 <= i < |UserNavKeys| ==> NoDot(UserNavKeys[i]);
  }

  lemma AdminKeysWellFormed()
    ensures WellFormedKeys(AdminKeys)
  {
    assert forall i :: 0 <= i < |AdminKeys| ==> NoDot(AdminKeys[i]);
  }

  /** The root finds each declared section under its name. */
  lemma RootSections(lang: Lang, d: Declared)
    ensures Child(Root(lang).children, SectionKey(d)) == Some(Section(Entries(lang, d)))
  {
    TreeSections(Entries(lang, Header), Entries(lang, UserNav), Entries(lang, Admin), d);
  }

  lemma SectionKeyNoDot(d: Declared)
    ensures '.' !in SectionKey(d)
  {
  }

  lemma TreeSections(header: seq<(string, Node)>, userNav: seq<(string, Node)>, admin: seq<(string, Node)>, d: Declared)
    ensures Child(Tree(header, userNav, admin).children, SectionKey(d))
            == Some(Section(match d case Header => header case UserNav => userNav case Admin => admin))
  {
    var cs := Tree(header, userNav, admin).children;
    assert cs[0].0 != cs[1].0 by { assert cs[0].0[0] != cs[1].0[0]; }
    assert |cs[0].0| == |cs[1].0| < |cs[2].0| && |cs[3].0| < |cs[0].0|;
    match d {
      case Header => ChildAt(cs, 1);
      case UserNav => ChildAt(cs, 2);
      case Admin => ChildAt(cs, 3);
    }
  }

  /** An entry of a top-level section, found by its section and key. */
  lemma SectionPath(root: Node, name: string, cs: seq<(string, Node)>, i: int)
    requires root.Section? && '.' !in name
    requires Child(root.children, name) == Some(Section(cs))
    requires 0 <= i < |cs| && cs[i].1.Text? && '.' !in cs[i].0
    requires forall j :: 0 <= j < i ==> cs[j].0 != cs[i].0
    ensures Lookup(root, name + "." + cs[i].0) == cs[i].1.text
  {
    ChildAt(cs, i);
    TwoSegments(root, name, cs[i].0, cs[i].1.text);
  }

  /** Every declared key path, in either language, gives the text stored
      under it, never the path itself. */
  lemma DeclaredPaths(lang: Lang, d: Declared, i: int)
    requires 0 <= i < |Keys(d)|
    ensures Translate(lang, SectionKey(d) + "." + Keys(d)[i]) == In(lang, Texts(d)[i])
  {
    KeysWellFormed(d);
    RootSections(lang, d);
    SectionKeyNoDot(d);
    PairsPath(Root(lang), SectionKey(d), lang, Keys(d), Texts(d), i);
  }

  /** A key of a well-formed section below the root gives its text. */
  lemma PairsPath(root: Node, name: string, lang: Lang, keys: seq<string>, texts: seq<Bilingual>, i: int)
    requires root.Section? && '.' !in name && |keys| == |texts|
    requires Child(root.children, name) == Some(Section(Pairs(lang, keys, texts)))
    requires WellFormedKeys(keys) && 0 <= i < |keys|
    ensures Lookup(root, name + "." + keys[i]) == In(lang, texts[i])
  {
    var cs := Pairs(lang, keys, texts);
    assert cs[i] == (keys[i], Text(In(lang, texts[i])));
    assert forall j :: 0 <= j < i ==> cs[j].0 == keys[j];
    assert '.' !in keys[i] by {
      assert NoDot(keys[i]);
    }
    SectionPath(root, name, cs, i);
  }

  /** A path naming a whole section gives the path back. */
  lemma SectionPathGivesName(lang: Lang, d: Declared)
    ensures Translate(lang, SectionKey(d)) == SectionKey(d)
  {
    RootSections(lang, d);
    SectionKeyNoDot(d);
    SectionName(Root(lang), SectionKey(d));
  }

  /** A name that is none of the four sections finds nothing at the top. */
  lemma TreeMissing(header: seq<(string, Node)>, userNav: seq<(string, Node)>, admin: seq<(string, Node)>, name: string)
    requires name != "common" && name != "header" && name != "userNav" && name != "admin"
    ensures Child(Tree(header, userNav, admin).children, name).None?
  {
    ChildFound(Tree(header, userNav, admin).children, name);
  }

  /** A path whose first segment names no section gives the path back. */
  lemma UnknownSection(lang: Lang, path: string)
    requires var first := Split(path, '.')[0];
      first != "common" && first != "header" && first != "userNav" && first != "admin"
    ensures Translate(lang, path) == path
  {
    TreeUnknown(Entries(lang, Header), Entries(lang, UserNav), Entries(lang, Admin), path);
  }

  lemma TreeUnknown(header: seq<(string, Node)>, userNav: seq<(string, Node)>, admin: seq<(string, Node)>, path: string)
    requires var first := Split(path, '.')[0];
      first != "common" && first != "header" && first != "userNav" && first != "admin"
    ensures Lookup(Tree(header, userNav, admin), path) == path
  {
    var root := Tree(header, userNav, admin);
    var parts := Split(path, '.');
    TreeMissing(header, userNav, admin, parts[0]);
    assert parts[..1] == [parts[0]];
    assert Walk(Some(root), parts[..1]) == Walk(Step(Some(root), parts[0]), []);
    MissingSegment(root, path, 1);
  }
}
