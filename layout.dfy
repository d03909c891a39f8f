/** The signed-in area's frame: the name, role and avatar shown in its
    header, the navigation tabs, and the initials that stand in for a
    missing picture. */
module Layout {
  import opened Common

  // ---------------------------------------------------------------------
  // Initials
  // ---------------------------------------------------------------------

  /** The position of the first whitespace character, if any. */
  function FirstSpace(s: string): (r: Option<nat>)
    ensures r.None? <==> NoSpaces(s)
    ensures r.Some? ==> r.value < |s| && IsSpace(s[r.value]) && NoSpaces(s[..r.value])
  {
    if s == [] then None
    else if IsSpace(s[0]) then Some(0)
    else match FirstSpace(s[1..])
      case None => None
      case Some(k) =>
        assert s[..k + 1] == [s[0]] + s[1..][..k];
        Some(k + 1)
  }

  /** The pieces between runs of whitespace, as splitting on one or more
      whitespace characters gives them: leading whitespace leaves an empty
      first piece and trailing whitespace an empty last one. */
  function Words(s: string): (r: seq<string>)
    ensures |r| >= 1
  {
    if s == [] then [""]
    else
      var w := Words(s[1..]);
      if !IsSpace(s[0]) then [[s[0]] + w[0]] + w[1..]
      else if |s| > 1 && IsSpace(s[1]) then w
      else [""] + w
  }

  /** A single piece exactly when there is no whitespace, and then it is
      the whole text. */
  lemma {:induction false} WordsSingle(s: string)
    ensures |Words(s)| == 1 <==> NoSpaces(s)
    ensures NoSpaces(s) ==> Words(s) == [s]
  {
    if s != [] {
      WordsSingle(s[1..]);
      if NoSpaces(s) {
        assert NoSpaces(s[1..]);
        assert s == [s[0]] + s[1..];
      } else if !IsSpace(s[0]) {
        assert !NoSpaces(s[1..]);
      }
    }
  }

  /** Every piece is free of whitespace. */
  lemma {:induction false} WordsNoSpaces(s: string)
    ensures forall i :: 0 <= i < |Words(s)| ==> NoSpaces(Words(s)[i])
  {
    if s != [] {
      WordsNoSpaces(s[1..]);
      var w := Words(s[1..]);
      var r := Words(s);
      if !IsSpace(s[0]) {
        forall i | 0 <= i < |r| ensures NoSpaces(r[i]) {
          if i == 0 {
            assert NoSpaces(w[0]);
          } else {
            assert r[i] == w[i];
          }
        }
      }
    }
  }

  /** Text that starts with a non-whitespace character has a non-empty
      first piece starting with it. */
  lemma WordsFirst(s: string)
    requires s != [] && !IsSpace(s[0])
    ensures Words(s)[0] != [] && Words(s)[0][0] == s[0]
  {
  }

  /** Text that ends with a non-whitespace character has no empty piece
      after the first. */
  lemma {:induction false} WordsNoEmptyTail(s: string)
    requires s != [] && !IsSpace(s[|s| - 1])
    ensures forall i :: 1 <= i < |Words(s)| ==> Words(s)[i] != []
  {
    var r := Words(s);
    if |s| > 1 {
      var w := Words(s[1..]);
      assert s[1..][|s| - 2] == s[|s| - 1];
      WordsNoEmptyTail(s[1..]);
      if !IsSpace(s[0]) {
        forall i | 1 <= i < |r| ensures r[i] != [] {
          assert r[i] == w[i];
        }
      } else if !IsSpace(s[1]) {
        WordsFirst(s[1..]);
        forall i | 1 <= i < |r| ensures r[i] != [] {
          assert r[i] == w[i - 1];
        }
      }
    }
  }

  /** Text that opens with a run of whitespace ending before position j
      splits into an empty piece and then a piece starting at j. */
  lemma {:induction false} WordsAfterRun(s: string, j: nat)
    requires 0 < j < |s| && AllSpaces(s[..j]) && !IsSpace(s[j])
    ensures |Words(s)| >= 2 && Words(s)[0] == "" && Words(s)[1] != [] && Words(s)[1][0] == s[j]
  {
    assert IsSpace(s[..j][0]);
    if j == 1 {
      WordsFirst(s[1..]);
    } else {
      assert IsSpace(s[..j][1]);
      assert s[1..][..j - 1] == s[1..j];
      WordsAfterRun(s[1..], j - 1);
    }
  }

  /** Text made of a first word of k characters, a run of whitespace, and a
      character at j that is not whitespace has that character opening its
      second piece. */
  lemma {:induction false} WordsSecond(s: string, k: nat, j: nat)
    requires 0 < k < j < |s| && NoSpaces(s[..k]) && AllSpaces(s[k..j]) && !IsSpace(s[j])
    ensures |Words(s)| >= 2 && Words(s)[1] != [] && Words(s)[1][0] == s[j]
  {
    assert !IsSpace(s[..k][0]);
    var w := Words(s[1..]);
    if k == 1 {
      assert s[1..][..j - 1] == s[1..j];
      WordsAfterRun(s[1..], j - 1);
    } else {
      assert s[1..][..k - 1] == s[1..k];
      assert s[1..][k - 1..j - 1] == s[k..j];
      WordsSecond(s[1..], k - 1, j - 1);
    }
    assert Words(s)[1] == w[1];
  }

  /** The end of the whitespace run starting at k. */
  function SkipRun(s: string, k: nat): (j: nat)
    requires k <= |s|
    ensures k <= j <= |s| && AllSpaces(s[k..j]) && (j < |s| ==> !IsSpace(s[j]))
    decreases |s| - k
  {
    if k < |s| && IsSpace(s[k]) then SkipRun(s, k + 1) else k
  }

  /** getInitials: "UC" without a name; otherwise the first two characters
      of a single word, or the first letters of the first two words, upper
      case. */
  function GetInitials(name: Option<string>): (r: string)
    ensures |r| <= 2
  {
    if !Filled(name) then "UC"
    else
      var t := Trim(name.value);
      var parts := Words(t);
      if |parts| == 1 then ToUpper(Prefix(parts[0], 2))
      else FirstLetters(t)
  }

  /** The first letters of the first two pieces, upper case. */
  function FirstLetters(t: string): (r: string)
    requires t != [] && !IsSpace(t[0]) && !IsSpace(t[|t| - 1]) && |Words(t)| >= 2
    ensures |r| == 2
  {
    WordsFirst(t);
    WordsNoEmptyTail(t);
    var parts := Words(t);
    ToUpper([parts[0][0], parts[1][0]])
  }

  /** No name gives "UC"; a name of whitespace only is present, so it gives
      the empty string; a single word gives its first two characters. */
  lemma InitialsOneWord(name: Option<string>)
    ensures !Filled(name) ==> GetInitials(name) == "UC"
    ensures Filled(name) && AllSpaces(name.value) ==> GetInitials(name) == ""
    ensures Filled(name) && NoSpaces(Trim(name.value)) ==>
      GetInitials(name) == ToUpper(Prefix(Trim(name.value), 2))
  {
    if Filled(name) {
      var t := Trim(name.value);
      WordsSingle(t);
      if AllSpaces(name.value) {
        assert t == [];
      }
    }
  }

  /** A name of two or more words gives exactly two letters: the first
      character of the trimmed name and the first character after its first
      run of whitespace. */
  lemma InitialsTwoWords(name: string)
    requires !NoSpaces(Trim(name))
    ensures var t := Trim(name);
      var k := FirstSpace(t).value;
      var j := SkipRun(t, k);
      && 0 < k < j < |t| && !IsSpace(t[j])
      && GetInitials(Some(name)) == [UpperChar(t[0]), UpperChar(t[j])]
  {
    var t := Trim(name);
    assert t != [];
    WordsSingle(t);
    assert |Words(t)| != 1;
    assert Filled(Some(name));
    FirstLettersAt(t);
  }

  /** The two letters, located in the text. */
  lemma FirstLettersAt(t: string)
    requires t != [] && !IsSpace(t[0]) && !IsSpace(t[|t| - 1]) && !NoSpaces(t)
    ensures var k := FirstSpace(t).value;
      var j := SkipRun(t, k);
      && 0 < k < j < |t| && !IsSpace(t[j]) && |Words(t)| >= 2
      && FirstLetters(t) == [UpperChar(t[0]), UpperChar(t[j])]
  {
    var k := FirstSpace(t).value;
    var j := SkipRun(t, k);
    WordInitials(t);
    UpperPair(t[0], t[j]);
  }

  /** The first letters of the first two pieces of text that starts and
      ends with a non-whitespace character and has whitespace inside. */
  lemma WordInitials(t: string)
    requires t != [] && !IsSpace(t[0]) && !IsSpace(t[|t| - 1]) && !NoSpaces(t)
    ensures var k := FirstSpace(t).value;
      var j := SkipRun(t, k);
      && 0 < k < j < |t|
      && |Words(t)| >= 2 && Words(t)[0] != [] && Words(t)[0][0] == t[0]
      && Words(t)[1] != [] && Words(t)[1][0] == t[j]
  {
    var k := FirstSpace(t).value;
    var j := SkipRun(t, k);
    RunStopsBeforeEnd(t, k);
    WordsFirst(t);
    WordsSecond(t, k, j);
  }

  /** A whitespace run ends before a last character that is not whitespace. */
  lemma RunStopsBeforeEnd(t: string, k: nat)
    requires k < |t| && !IsSpace(t[|t| - 1])
    ensures SkipRun(t, k) < |t|
  {
  }

  lemma UpperPair(a: char, b: char)
    ensures ToUpper([a, b]) == [UpperChar(a), UpperChar(b)]
  {
  }

  // ---------------------------------------------------------------------
  // The header
  // ---------------------------------------------------------------------

  /** What the session says about the signed-in user. */
  datatype SessionUser = SessionUser(
    name: Option<string>,
    fullName: Option<string>,
    role: Option<string>,
    profileImageUrl: Option<string>)

  const DefaultName := "Cliente UniCredit"
  const DefaultRole := "USER"
  const DefaultAvatar := "/images/profile/default-avatar.png"

  /** The name shown: the session's name, else its full name, else the
      generic customer label. */
  function UserName(u: SessionUser): (r: string)
    ensures r != []
    ensures Filled(u.name) ==> r == u.name.value
    ensures !Filled(u.name) && Filled(u.fullName) ==> r == u.fullName.value
    ensures !Filled(u.name) && !Filled(u.fullName) ==> r == DefaultName
  {
    OrElse(u.name, OrElse(u.fullName, DefaultName))
  }

  /** The role as the page reads it; a missing role reads as a customer. */
  function Role(u: SessionUser): (r: string)
    ensures !Filled(u.role) ==> r == DefaultRole
  {
    OrElse(u.role, DefaultRole)
  }

  predicate IsAdmin(u: SessionUser) {
    Role(u) == "ADMIN"
  }

  /** The picture's address: the session's, else the default picture. */
  function ProfileImage(u: SessionUser): (r: string)
    ensures r != []
  {
    OrElse(u.profileImageUrl, DefaultAvatar)
  }

  /** The avatar: a picture when there is an address, else the initials. */
  datatype Avatar = Picture(src: string, alt: string) | Initials(text: string)

  function AvatarOf(u: SessionUser): Avatar {
    var src := ProfileImage(u);
    if src != [] then Picture(src, UserName(u)) else Initials(GetInitials(Some(UserName(u))))
  }

  /** The default picture always fills in, so the initials are never shown. */
  lemma AvatarIsPicture(u: SessionUser)
    ensures AvatarOf(u).Picture?
    ensures AvatarOf(u).src == (if Filled(u.profileImageUrl) then u.profileImageUrl.value else DefaultAvatar)
    ensures AvatarOf(u).alt == UserName(u)
  {
  }

  /** A navigation link: where it goes and its label. */
  datatype Tab = Tab(href: string, caption: string, accent: bool)

  function DesktopTabs(u: SessionUser): seq<Tab> {
    [Tab("/app", "Panoramica", false), Tab("/app/accounts", "Conti e carte", false),
     Tab("/app/transfer", "Trasferimenti", false), Tab("/app/movements", "Movimenti", false),
     Tab("/app/profile", "Profilo", false)]
    + (if IsAdmin(u) then [Tab("/admin", "Admin Console", true)] else [])
  }

  function MobileTabs(u: SessionUser): seq<Tab> {
    [Tab("/app", "Panoramica", false), Tab("/app/accounts", "Conti", false),
     Tab("/app/transfer", "Trasferimenti", false), Tab("/app/movements", "Movimenti", false),
     Tab("/app/profile", "Profilo", false)]
    + (if IsAdmin(u) then [Tab("/admin", "Admin", true)] else [])
  }

  /** The line under the name. */
  function Subtitle(u: SessionUser): string {
    (if IsAdmin(u) then "Amministratore · " else "") + "Internet Banking"
  }

  /** A row of tabs: the five customer tabs, then the accented admin link
      exactly when `admin` holds. */
  predicate AdminRow(tabs: seq<Tab>, admin: bool) {
    && |tabs| == (if admin then 6 else 5)
    && (forall i :: 0 <= i < |tabs| ==> (tabs[i].accent <==> i == 5))
    && ((exists i :: 0 <= i < |tabs| && tabs[i].href == "/admin") <==> admin)
  }

  /** Both navigation rows link to the admin area exactly when the role is
      "ADMIN", a missing role counting as a customer; that link is the only
      accented one and comes last. */
  lemma AdminTab(u: SessionUser)
    ensures IsAdmin(u) <==> u.role == Some("ADMIN")
    ensures AdminRow(DesktopTabs(u), IsAdmin(u))
    ensures AdminRow(MobileTabs(u), IsAdmin(u))
    ensures Subtitle(u) == (if IsAdmin(u) then "Amministratore · Internet Banking" else "Internet Banking")
  {
    DesktopRow(u);
    MobileRow(u);
  }

  lemma DesktopRow(u: SessionUser)
    ensures AdminRow(DesktopTabs(u), IsAdmin(u))
  {
    CustomerTabs(DesktopTabs(u), IsAdmin(u));
  }

  lemma MobileRow(u: SessionUser)
    ensures AdminRow(MobileTabs(u), IsAdmin(u))
  {
    CustomerTabs(MobileTabs(u), IsAdmin(u));
  }

  lemma CustomerTabs(tabs: seq<Tab>, admin: bool)
    requires |tabs| == (if admin then 6 else 5)
    requires forall i :: 0 <= i < 5 ==> |tabs[i].href| >= 3 && tabs[i].href[2] == 'p' && !tabs[i].accent
    requires admin ==> tabs[5] == Tab("/admin", tabs[5].caption, true)
    ensures AdminRow(tabs, admin)
  {
    if admin {
      assert tabs[5].href == "/admin";
    }
    forall i | 0 <= i < 5
      ensures tabs[i].href != "/admin"
    {
      assert "/admin"[2] == 'd';
    }
  }

  /** The frame: without a session the visitor is sent to the login page. */
  datatype Frame = RedirectTo(location: string) | Shell(userName: string, subtitle: string, avatar: Avatar,
                                                         desktop: seq<Tab>, mobile: seq<Tab>)

  function AppLayout(session: Option<SessionUser>): (r: Frame)
    ensures session.None? <==> r == RedirectTo("/login")
  {
    match session
    case None => RedirectTo("/login")
    case Some(u) => Shell(UserName(u), Subtitle(u), AvatarOf(u), DesktopTabs(u), MobileTabs(u))
  }
}
