/** The one-time-code page: which codes are accepted, what a submit does to
    the page and to the session, the digits-only input, and the masked
    e-mail address shown to the user. */
module Otp {
  import opened Common
  import Auth

  /** The fixed demonstration codes. */
  const ValidCodes: seq<string> := ["482719", "930154", "671203", "118944", "549082"]

  predicate Accepted(code: string) {
    Trim(code) in ValidCodes
  }

  /** A code is accepted exactly when, without its surrounding whitespace,
      it is one of the five fixed codes; each of them is six digits. */
  lemma AcceptedCodes(code: string)
    ensures Accepted(code) <==> Trim(code) == "482719" || Trim(code) == "930154" || Trim(code) == "671203"
                                || Trim(code) == "118944" || Trim(code) == "549082"
    ensures Accepted(code) ==> |Trim(code)| == 6 && AllDigits(Trim(code))
  {
    var t := Trim(code);
    ValidCodesShape();
    if t in ValidCodes {
      var i :| 0 <= i < |ValidCodes| && ValidCodes[i] == t;
    }
  }

  lemma ValidCodesShape()
    ensures forall i :: 0 <= i < |ValidCodes| ==> |ValidCodes[i]| == 6 && AllDigits(ValidCodes[i])
  {
  }

  // ---------------------------------------------------------------------
  // The code input
  // ---------------------------------------------------------------------

  /** The digits of s, in order. */
  function KeepDigits(s: string): (r: string)
    ensures AllDigits(r) && |r| <= |s|
    ensures forall c :: c in r <==> c in s && IsDigit(c)
  {
    if s == [] then []
    else if IsDigit(s[0]) then [s[0]] + KeepDigits(s[1..])
    else KeepDigits(s[1..])
  }

  /** The input's new value: the field holds at most six characters, and
      every non-digit is removed from them. */
  function CodeInput(value: string): (r: string)
    ensures |r| <= 6 && AllDigits(r)
  {
    KeepDigits(if |value| <= 6 then value else value[..6])
  }

  lemma {:induction false} KeepDigitsOfDigits(s: string)
    requires AllDigits(s)
    ensures KeepDigits(s) == s
  {
    if s != [] {
      KeepDigitsOfDigits(s[1..]);
    }
  }

  /** Typing into the field twice changes nothing more, and every accepted
      code can be typed in full. */
  lemma CodeInputProperties(value: string)
    ensures CodeInput(CodeInput(value)) == CodeInput(value)
    ensures forall i :: 0 <= i < |ValidCodes| ==> CodeInput(ValidCodes[i]) == ValidCodes[i]
  {
    KeepDigitsOfDigits(CodeInput(value));
    forall i | 0 <= i < |ValidCodes| ensures CodeInput(ValidCodes[i]) == ValidCodes[i] {
      KeepDigitsOfDigits(ValidCodes[i]);
    }
  }

  // ---------------------------------------------------------------------
  // Submit
  // ---------------------------------------------------------------------

  const InvalidText := "Il codice inserito non è valido. Riprova."
  const VerifiedText := "Codice verificato, accesso in corso…"
  const UpdateFailedText := "Si è verificato un errore durante la verifica. Riprova."

  /** The session update the page requests: the second factor passed, nothing else. */
  const VerifiedUpdate := Auth.UpdatePayload(Some(Some(true)), None)

  /** The page's state. */
  datatype OtpState = OtpState(code: string, submitting: bool, error: Option<string>, success: Option<string>)

  /** The state after a submit and the session update requested, if any;
      `updateOk` says whether the session update succeeded. */
  function SubmitSpec(s: OtpState, updateOk: bool): (OtpState, Option<Auth.UpdatePayload>) {
    Settle(s, Trim(s.code), updateOk)
  }

  /** The state after a submit whose trimmed code is `trimmed`. */
  function Settle(s: OtpState, trimmed: string, updateOk: bool): (OtpState, Option<Auth.UpdatePayload>) {
    if trimmed == "" || s.submitting then (s, None)
    else if trimmed !in ValidCodes then (s.(submitting := false, error := Some(InvalidText), success := None), None)
    else if updateOk then (s.(submitting := true, error := None, success := Some(VerifiedText)), Some(VerifiedUpdate))
    else (s.(submitting := false, error := Some(UpdateFailedText), success := None), Some(VerifiedUpdate))
  }

  /** A blank code, or a submit while one is in flight, does nothing; the
      session update is requested exactly for an accepted code, and it asks
      only for the second-factor flag. */
  lemma SubmitProperties(s: OtpState, updateOk: bool)
    ensures var (after, request) := SubmitSpec(s, updateOk);
      && (AllSpaces(s.code) || s.submitting ==> after == s && request.None?)
      && (request.Some? <==> !AllSpaces(s.code) && !s.submitting && Accepted(s.code))
      && (request.Some? ==> request.value.otpVerified == Some(Some(true)) && request.value.profileImageUrl.None?)
      && after.code == s.code
      && (!AllSpaces(s.code) && !s.submitting && !Accepted(s.code) ==> after.error == Some(InvalidText) && !after.submitting)
  {
  }

  /** After an accepted code the page stays busy, so it cannot be submitted
      again; after a refused one it can. */
  lemma SubmitOnceAccepted(s: OtpState, first: bool, second: bool)
    requires !s.submitting && Accepted(s.code)
    ensures var (after, _) := SubmitSpec(s, first);
      (first ==> SubmitSpec(after, second) == (after, None))
      && (!first ==> SubmitSpec(after, second).1.Some?)
  {
  }

  /** The requested update turns the token's flag on and changes nothing else
      in it. */
  lemma VerifiedUpdateEffect(c: Auth.Claims)
    ensures Auth.JwtSpec(c, None, Some("update"), Some(VerifiedUpdate)) == c.(otpVerified := Some(true))
  {
  }

  /** The page component. */
  class OtpForm {
    var code: string
    var submitting: bool
    var error: Option<string>
    var success: Option<string>

    function Value(): OtpState
      reads this
    {
      OtpState(code, submitting, error, success)
    }

    constructor()
      ensures Value() == OtpState("", false, None, None)
    {
      code, submitting, error, success := "", false, None, None;
    }

    /** onChange of the code field. */
    method Type(value: string)
      modifies this
      ensures Value() == old(Value()).(code := CodeInput(value))
    {
      code := CodeInput(value);
    }

    /** handleSubmit; `updateOk` says whether the session update succeeded. */
    method Submit(updateOk: bool) returns (request: Option<Auth.UpdatePayload>)
      modifies this
      ensures (Value(), request) == SubmitSpec(old(Value()), updateOk)
    {
      request := Finish(Trim(code), updateOk);
    }

    /** The rest of handleSubmit, given the trimmed code. */
    method Finish(trimmed: string, updateOk: bool) returns (request: Option<Auth.UpdatePayload>)
      modifies this
      ensures (Value(), request) == Settle(old(Value()), trimmed, updateOk)
    {
      if trimmed == "" || submitting {
        return None;
      }
      submitting := true;
      error := None;
      success := None;
      if trimmed !in ValidCodes {
        error := Some(InvalidText);
        submitting := false;
        return None;
      }
      request := Some(VerifiedUpdate);
      if updateOk {
        success := Some(VerifiedText);
      } else {
        error := Some(UpdateFailedText);
        submitting := false;
      }
    }
  }

  // ---------------------------------------------------------------------
  // Masked e-mail
  // ---------------------------------------------------------------------

  /** The "@" the mask keeps from: the last one with at least three
      characters before it and one after it, searched from position hi down. */
  function MaskAt(s: string, hi: int): (r: Option<nat>)
    requires hi < |s|
    ensures r.Some? ==> 3 <= r.value <= hi && s[r.value] == '@'
    ensures r.Some? ==> forall j :: r.value < j <= hi ==> s[j] != '@'
    ensures r.None? ==> forall j :: 3 <= j <= hi ==> s[j] != '@'
    decreases hi
  {
    if hi < 3 then None
    else if s[hi] == '@' then Some(hi)
    else MaskAt(s, hi - 1)
  }

  /** The address with everything between its first two characters and the
      chosen "@" replaced by "***"; unchanged when there is no such "@". */
  function MaskEmail(s: string): string {
    if |s| < 2 then s
    else match MaskAt(s, |s| - 2)
      case None => s
      case Some(k) => s[..2] + "***" + s[k..]
  }

  /** The mask applies exactly when some "@" has three characters before it
      and one after; it then keeps the first two characters and everything
      from the last such "@" on, and the result is never empty unless the
      address is. */
  lemma MaskEmailShape(s: string)
    ensures (exists k :: 3 <= k < |s| - 1 && s[k] == '@') ==>
      exists k :: 3 <= k < |s| - 1 && s[k] == '@'
        && (forall j :: k < j < |s| - 1 ==> s[j] != '@')
        && MaskEmail(s) == s[..2] + "***" + s[k..]
    ensures (forall k :: 3 <= k < |s| - 1 ==> s[k] != '@') ==> MaskEmail(s) == s
    ensures MaskEmail(s) == "" <==> s == ""
  {
    if |s| >= 2 {
      var m := MaskAt(s, |s| - 2);
      if m.Some? {
        assert MaskEmail(s) == s[..2] + "***" + s[m.value..];
      }
    }
  }

  const EmailFallback := "il tuo indirizzo email"

  /** The address as the page shows it: masked, or the fallback text when the
      session has no address. */
  function ShownEmail(email: Option<string>): (r: string)
    ensures !Filled(email) ==> r == EmailFallback
    ensures Filled(email) ==> r == MaskEmail(email.value)
  {
    if email.None? then EmailFallback
    else
      MaskEmailShape(email.value);
      OrElse(Some(MaskEmail(email.value)), EmailFallback)
  }
}
