/** Sign-in: the credentials check, and the two callbacks that carry the
    signed-in user into the token and from the token into the session.
    Password hashing is an abstract predicate `verify(password, hash)`. */
module Auth {
  import opened Common
  import opened LedgerModel

  datatype Credentials = Credentials(email: Option<string>, password: Option<string>)

  /** The user object handed to the token callback on first sign-in. The
      optional fields are those the callback supplies defaults for. */
  datatype SignInUser = SignInUser(
    id: string,
    email: Option<string>,
    name: Option<string>,
    fullName: Option<string>,
    role: Option<Role>,
    otpVerified: Option<bool>,
    profileImageUrl: Option<string>,
    dateOfBirth: Option<string>)

  /** The credentials check. Every failure gives null (None). */
  function Authorize(users: seq<User>, credentials: Option<Credentials>,
                     verify: (string, string) -> bool): Option<SignInUser>
  {
    if credentials.None? || !Filled(credentials.value.email) || !Filled(credentials.value.password) then None
    else match FindUserByEmail(users, credentials.value.email.value)
      case None => None
      case Some(u) =>
        if !verify(credentials.value.password.value, u.passwordHash) then None
        else if u.status != UserStatus.ACTIVE then None
        else Some(SignInUser(IntToString(u.id), Some(u.email), Some(u.fullName), Some(u.fullName),
                             Some(u.role), Some(false), u.profileImageUrl, u.dateOfBirth))
  }

  /** Sign-in succeeds exactly for a registered, active user whose password
      verifies; the outcome then carries their id as a decimal string, their
      role, and a second factor not yet passed. */
  lemma AuthorizeIff(users: seq<User>, credentials: Option<Credentials>,
                     verify: (string, string) -> bool, k: int)
    requires forall i, j :: 0 <= i < j < |users| ==> users[i].email != users[j].email
    requires 0 <= k < |users|
    requires credentials.Some? && credentials.value.email == Some(users[k].email)
    ensures var r := Authorize(users, credentials, verify);
      && (r.Some? <==>
            users[k].email != "" && Filled(credentials.value.password)
            && verify(credentials.value.password.value, users[k].passwordHash)
            && users[k].status == UserStatus.ACTIVE)
      && (r.Some? ==>
            && ParseInt(r.value.id) == Some(users[k].id)
            && r.value.role == Some(users[k].role)
            && r.value.otpVerified == Some(false))
  {
    FindUserByEmailUnique(users, k);
    ParseIntOfInt(users[k].id);
  }

  /** Nobody can sign in under an address no user has. */
  lemma AuthorizeUnknownEmail(users: seq<User>, credentials: Option<Credentials>,
                              verify: (string, string) -> bool)
    requires credentials.Some? && credentials.value.email.Some?
    requires forall i :: 0 <= i < |users| ==> users[i].email != credentials.value.email.value
    ensures Authorize(users, credentials, verify).None?
  {
  }

  // ---------------------------------------------------------------------
  // Token callback
  // ---------------------------------------------------------------------

  /** The token's fields as one value; None is null or absent. */
  datatype Claims = Claims(
    id: Option<string>,
    email: Option<string>,
    name: Option<string>,
    role: Option<Role>,
    otpVerified: Option<bool>,
    profileImageUrl: Option<string>,
    dateOfBirth: Option<string>)

  /** The payload of a client-side session update. The outer Option says
      whether the property is present at all; the inner one is its value,
      which may be null. */
  datatype UpdatePayload = UpdatePayload(
    otpVerified: Option<Option<bool>>,
    profileImageUrl: Option<Option<string>>)

  function OrDefault<T>(x: Option<T>, d: T): T {
    if x.Some? then x.value else d
  }

  /** The token after the callback, as a function of the token before it. */
  function JwtSpec(c: Claims, user: Option<SignInUser>, trigger: Option<string>,
                   payload: Option<UpdatePayload>): (r: Claims)
  {
    var c1 :=
      if user.None? then c
      else
        var u := user.value;
        Claims(Some(u.id), u.email,
               if Filled(u.fullName) then u.fullName else u.name,
               Some(OrDefault(u.role, USER)),
               Some(OrDefault(u.otpVerified, false)),
               u.profileImageUrl, u.dateOfBirth);
    if trigger == Some("update") && payload.Some? then
      var p := payload.value;
      c1.(otpVerified := if p.otpVerified.Some? then p.otpVerified.value else c1.otpVerified,
          profileImageUrl := if p.profileImageUrl.Some? then p.profileImageUrl.value else c1.profileImageUrl)
    else c1
  }

  /** An update leaves identity, e-mail, name, role and birth date alone and
      changes the second-factor flag and the picture only when the payload
      carries them. */
  lemma JwtUpdateOnlyTouchesFlags(c: Claims, trigger: Option<string>, payload: Option<UpdatePayload>)
    ensures var r := JwtSpec(c, None, trigger, payload);
      && r == c.(otpVerified := r.otpVerified, profileImageUrl := r.profileImageUrl)
      && (r.otpVerified != c.otpVerified ==>
            trigger == Some("update") && payload.Some? && payload.value.otpVerified == Some(r.otpVerified))
      && (r.profileImageUrl != c.profileImageUrl ==>
            trigger == Some("update") && payload.Some? && payload.value.profileImageUrl == Some(r.profileImageUrl))
  {
  }

  /** On first sign-in the token takes over the user's fields; the role
      falls back to USER and the second factor to not passed. */
  lemma JwtFirstSignIn(c: Claims, u: SignInUser, trigger: Option<string>)
    requires trigger != Some("update")
    ensures var r := JwtSpec(c, Some(u), trigger, None);
      && r.id == Some(u.id) && r.email == u.email
      && r.role == Some(if u.role.Some? then u.role.value else USER)
      && r.otpVerified == Some(u.otpVerified.Some? && u.otpVerified.value)
      && (Filled(u.fullName) ==> r.name == u.fullName)
      && (!Filled(u.fullName) ==> r.name == u.name)
      && r.profileImageUrl == u.profileImageUrl && r.dateOfBirth == u.dateOfBirth
  {
  }

  /** The token object the callback mutates. */
  class Token {
    var id: Option<string>
    var email: Option<string>
    var name: Option<string>
    var role: Option<Role>
    var otpVerified: Option<bool>
    var profileImageUrl: Option<string>
    var dateOfBirth: Option<string>

    function Value(): Claims
      reads this
    {
      Claims(id, email, name, role, otpVerified, profileImageUrl, dateOfBirth)
    }

    constructor(c: Claims)
      ensures Value() == c
    {
      id, email, name, role := c.id, c.email, c.name, c.role;
      otpVerified, profileImageUrl, dateOfBirth := c.otpVerified, c.profileImageUrl, c.dateOfBirth;
    }

    /** The jwt callback. */
    method Jwt(user: Option<SignInUser>, trigger: Option<string>, payload: Option<UpdatePayload>)
      modifies this
      ensures Value() == JwtSpec(old(Value()), user, trigger, payload)
    {
      if user.Some? {
        var u := user.value;
        id := Some(u.id);
        email := u.email;
        name := if Filled(u.fullName) then u.fullName else u.name;
        role := Some(if u.role.Some? then u.role.value else USER);
        otpVerified := Some(if u.otpVerified.Some? then u.otpVerified.value else false);
        profileImageUrl := u.profileImageUrl;
        dateOfBirth := u.dateOfBirth;
      }
      if trigger == Some("update") && payload.Some? {
        if payload.value.otpVerified.Some? {
          otpVerified := payload.value.otpVerified.value;
        }
        if payload.value.profileImageUrl.Some? {
          profileImageUrl := payload.value.profileImageUrl.value;
        }
      }
    }
  }

  // ---------------------------------------------------------------------
  // Session callback
  // ---------------------------------------------------------------------

  /** What the client sees as session.user. */
  datatype SessionView = SessionView(
    id: Option<string>,
    email: Option<string>,
    name: Option<string>,
    role: Role,
    otpVerified: bool,
    profileImageUrl: Option<string>,
    dateOfBirth: Option<string>)

  function SessionSpec(v: SessionView, c: Claims): (r: SessionView) {
    SessionView(c.id,
                if Filled(c.email) then c.email else v.email,
                if Filled(c.name) then c.name else v.name,
                OrDefault(c.role, USER),
                OrDefault(c.otpVerified, false),
                c.profileImageUrl, c.dateOfBirth)
  }

  /** The session mirrors the token: identity and picture always, e-mail and
      name when the token has non-empty ones, and the defaults USER, not
      passed and null otherwise. */
  lemma SessionMirrorsToken(v: SessionView, c: Claims)
    ensures var r := SessionSpec(v, c);
      && r.id == c.id && r.profileImageUrl == c.profileImageUrl && r.dateOfBirth == c.dateOfBirth
      && (c.role.Some? ==> r.role == c.role.value) && (c.role.None? ==> r.role == USER)
      && (r.otpVerified <==> c.otpVerified == Some(true))
      && (Filled(c.email) ==> r.email == c.email) && (!Filled(c.email) ==> r.email == v.email)
      && (Filled(c.name) ==> r.name == c.name) && (!Filled(c.name) ==> r.name == v.name)
  {
  }

  /** session.user as an object the callback fills in. */
  class SessionUserObject {
    var id: Option<string>
    var email: Option<string>
    var name: Option<string>
    var role: Role
    var otpVerified: bool
    var profileImageUrl: Option<string>
    var dateOfBirth: Option<string>

    function Value(): SessionView
      reads this
    {
      SessionView(id, email, name, role, otpVerified, profileImageUrl, dateOfBirth)
    }

    constructor(v: SessionView)
      ensures Value() == v
    {
      id, email, name, role := v.id, v.email, v.name, v.role;
      otpVerified, profileImageUrl, dateOfBirth := v.otpVerified, v.profileImageUrl, v.dateOfBirth;
    }
  }

  /** The session callback; a session without a user object is returned as is. */
  method Session(user: SessionUserObject?, token: Token)
    modifies user
    ensures user != null ==> user.Value() == SessionSpec(old(user.Value()), token.Value())
  {
    if user != null {
      user.id := token.id;
      user.email := if Filled(token.email) then token.email else user.email;
      user.name := if Filled(token.name) then token.name else user.name;
      user.role := if token.role.Some? then token.role.value else USER;
      user.otpVerified := if token.otpVerified.Some? then token.otpVerified.value else false;
      user.profileImageUrl := token.profileImageUrl;
      user.dateOfBirth := token.dateOfBirth;
    }
  }

  // ---------------------------------------------------------------------
  // The whole sign-in
  // ---------------------------------------------------------------------

  /** Right after a sign-in the session shows the second factor as not
      passed, whatever the token held before; only the one-time-code update
      turns it on, and it changes nothing else the session shows. */
  lemma SignInThenOtp(users: seq<User>, credentials: Option<Credentials>, verify: (string, string) -> bool,
                      c: Claims, v: SessionView)
    requires Authorize(users, credentials, verify).Some?
    ensures var u := Authorize(users, credentials, verify);
      var signedIn := JwtSpec(c, u, None, None);
      var verified := JwtSpec(signedIn, None, Some("update"), Some(UpdatePayload(Some(Some(true)), None)));
      && !SessionSpec(v, signedIn).otpVerified
      && SessionSpec(v, verified).otpVerified
      && SessionSpec(v, verified) == SessionSpec(v, signedIn).(otpVerified := true)
      && SessionSpec(v, signedIn).id == Some(u.value.id)
  {
  }
}
