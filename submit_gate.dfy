/** The contact form's submit handler up to the point where it hands a
    payload to the sender (js/main.js:142-224): a pipeline of checks that
    stops at the first one that fails.  The order is: the CSRF token, then
    the presence of the form's elements, then the required fields, then the
    phone format, then the email format, then the CAPTCHA answer. */
module SubmitGate {
  import opened Options
  import opened JsText
  import opened FormRules

  /** The inputs as the handler reads them: `None` when no element with
      that id exists on the page, otherwise the element's value. */
  datatype Form = Form(
    csrf: Option<string>,
    name: Option<string>,
    phone: Option<string>,
    email: Option<string>,
    situation: Option<string>,
    message: Option<string>)

  /** Why the handler returned without sending. */
  datatype Rejection =
    | SecurityError     // alert, then the page reloads
    | MissingElement    // logged to the console only
    | RequiredMissing
    | InvalidPhone
    | InvalidEmail
    | CaptchaUnchecked

  /** The object passed to `sendToGoogleAppsScript`. */
  datatype Payload = Payload(
    name: string,
    phone: string,
    email: string,
    situation: string,
    message: string,
    recaptchaToken: string)

  /** `Aborted`: reading the value of a missing CSRF field throws, after the
      default submission was already prevented, so nothing is sent. */
  datatype Verdict = Aborted | Rejected(reason: Rejection) | Accepted(payload: Payload)

  /** The sanitised, trimmed value kept for name, phone, email and message. */
  function CleanTrimmed(v: string): (r: string)
    ensures r == [] <==> AllSpace(v)
  {
    TrimEmptyIff(v);
    if v == "" then "" else Escape(Trim(v))
  }

  /** The sanitised value kept for the situation, which is not trimmed. */
  function CleanUntrimmed(v: string): (r: string)
    ensures r == [] <==> v == []
  {
    if v == "" then "" else Escape(v)
  }

  /** Line 149: the form's token must be non-empty and equal to the one in
      session storage, where `None` is an unset key. */
  predicate TokenAccepted(formToken: string, session: Option<string>) {
    formToken != "" && session == Some(formToken)
  }

  predicate CsrfPasses(f: Form, session: Option<string>) {
    f.csrf.Some? && TokenAccepted(f.csrf.value, session)
  }

  /** Line 162: every element except the email input must exist. */
  predicate ElementsPresent(f: Form) {
    f.name.Some? && f.phone.Some? && f.situation.Some? && f.message.Some?
  }

  function RawEmail(f: Form): string {
    if f.email.Some? then f.email.value else ""
  }

  /** `typeof grecaptcha` defined: `Some(getResponse())`. */
  predicate CaptchaAnswered(captcha: Option<string>) {
    captcha.None? || captcha.value != ""
  }

  function CaptchaToken(captcha: Option<string>): string {
    if captcha.Some? then captcha.value else ""
  }

  function Gate(f: Form, session: Option<string>, captcha: Option<string>): (v: Verdict)
    ensures v == Aborted <==> f.csrf.None?
    ensures v.Accepted? ==> CsrfPasses(f, session) && ElementsPresent(f) && CaptchaAnswered(captcha)
    ensures v.Accepted? ==> v.payload.recaptchaToken == CaptchaToken(captcha)
  {
    if f.csrf.None? then Aborted
    else if !TokenAccepted(f.csrf.value, session) then Rejected(SecurityError)
    else if !ElementsPresent(f) then Rejected(MissingElement)
    else
      var name := CleanTrimmed(f.name.value);
      var phone := CleanTrimmed(f.phone.value);
      var email := CleanTrimmed(RawEmail(f));
      var situation := CleanUntrimmed(f.situation.value);
      var message := CleanTrimmed(f.message.value);
      if name == "" || phone == "" || situation == "" || message == "" then Rejected(RequiredMissing)
      else if !PhoneValid(phone) then Rejected(InvalidPhone)
      else if email != "" && !EmailValid(email) then Rejected(InvalidEmail)
      else if !CaptchaAnswered(captcha) then Rejected(CaptchaUnchecked)
      else Accepted(Payload(name, phone, email, situation, message, CaptchaToken(captcha)))
  }

  // The checks in terms of what the user typed, before trimming and sanitising.

  /** Line 181 on typed values: each required field holds something other
      than whitespace, except the situation, which only has to be non-empty. */
  predicate RequiredTyped(f: Form)
    requires ElementsPresent(f)
  {
    !AllSpace(f.name.value) && !AllSpace(f.phone.value)
    && f.situation.value != "" && !AllSpace(f.message.value)
  }

  /** Lines 187-188 on the typed phone: the trimmed value matches the phone
      pattern and holds no no-break space, which sanitising would turn into
      an entity the pattern rejects. */
  predicate PhoneTyped(f: Form)
    requires ElementsPresent(f)
  {
    PhoneValid(Trim(f.phone.value)) && NBSP !in Trim(f.phone.value)
  }

  /** Lines 193-199 on the typed email: it is blank, or its trimmed value
      matches the email pattern. */
  ghost predicate EmailTyped(f: Form) {
    AllSpace(RawEmail(f)) || EmailShaped(Trim(RawEmail(f)))
  }

  lemma CleanTrimmedNonEmpty(v: string)
    requires !AllSpace(v)
    ensures v != "" && CleanTrimmed(v) == Escape(Trim(v))
  {
  }

  /** The outcome of a submission, stated check by check: each rejection
      happens exactly when every earlier check passed and its own failed,
      and the payload is sent exactly when all of them passed. */
  lemma GateDecides(f: Form, session: Option<string>, captcha: Option<string>)
    ensures Gate(f, session, captcha) == Rejected(SecurityError)
            <==> f.csrf.Some? && !CsrfPasses(f, session)
    ensures Gate(f, session, captcha) == Rejected(MissingElement)
            <==> CsrfPasses(f, session) && !ElementsPresent(f)
    ensures Gate(f, session, captcha) == Rejected(RequiredMissing)
            <==> CsrfPasses(f, session) && ElementsPresent(f) && !RequiredTyped(f)
    ensures Gate(f, session, captcha) == Rejected(InvalidPhone)
            <==> CsrfPasses(f, session) && ElementsPresent(f) && RequiredTyped(f) && !PhoneTyped(f)
    ensures Gate(f, session, captcha) == Rejected(InvalidEmail)
            <==> CsrfPasses(f, session) && ElementsPresent(f) && RequiredTyped(f) && PhoneTyped(f)
                 && !EmailTyped(f)
    ensures Gate(f, session, captcha) == Rejected(CaptchaUnchecked)
            <==> CsrfPasses(f, session) && ElementsPresent(f) && RequiredTyped(f) && PhoneTyped(f)
                 && EmailTyped(f) && !CaptchaAnswered(captcha)
    ensures Gate(f, session, captcha).Accepted?
            <==> CsrfPasses(f, session) && ElementsPresent(f) && RequiredTyped(f) && PhoneTyped(f)
                 && EmailTyped(f) && CaptchaAnswered(captcha)
  {
    if CsrfPasses(f, session) && ElementsPresent(f) && RequiredTyped(f) {
      var phone := f.phone.value;
      CleanTrimmedNonEmpty(phone);
      PhoneAfterEscape(Trim(phone));
      var email := RawEmail(f);
      if !AllSpace(email) {
        CleanTrimmedNonEmpty(email);
        EmailValidIff(Escape(Trim(email)));
        EmailAfterEscape(Trim(email));
      }
    }
  }

  /** An accepted payload carries the trimmed and sanitised values, except
      the situation, which is sanitised only. */
  lemma AcceptedPayload(f: Form, session: Option<string>, captcha: Option<string>)
    ensures var v := Gate(f, session, captcha);
            v.Accepted? ==>
              && ElementsPresent(f)
              && v.payload.name == Escape(Trim(f.name.value))
              && v.payload.phone == Escape(Trim(f.phone.value))
              && v.payload.email == (if AllSpace(RawEmail(f)) then "" else Escape(Trim(RawEmail(f))))
              && v.payload.situation == Escape(f.situation.value)
              && v.payload.message == Escape(Trim(f.message.value))
  {
    if Gate(f, session, captcha).Accepted? {
      CleanTrimmedNonEmpty(f.name.value);
      CleanTrimmedNonEmpty(f.phone.value);
      CleanTrimmedNonEmpty(f.message.value);
    }
  }

  /** The situation is not trimmed: a situation of only whitespace passes
      the required check, while a name of only whitespace fails it. */
  lemma SituationNotTrimmed(f: Form, session: Option<string>, captcha: Option<string>)
    requires CsrfPasses(f, session) && ElementsPresent(f)
    requires f.situation.value != "" && AllSpace(f.situation.value)
    ensures !AllSpace(f.name.value) && !AllSpace(f.phone.value) && !AllSpace(f.message.value)
            ==> Gate(f, session, captcha) != Rejected(RequiredMissing)
    ensures AllSpace(f.name.value) ==> Gate(f, session, captcha) == Rejected(RequiredMissing)
  {
    GateDecides(f, session, captcha);
  }

  /** An email left empty, or of whitespace only, is never checked. */
  lemma BlankEmailSkipped(f: Form, session: Option<string>, captcha: Option<string>)
    requires AllSpace(RawEmail(f))
    ensures Gate(f, session, captcha) != Rejected(InvalidEmail)
    ensures Gate(f, session, captcha).Accepted? ==> Gate(f, session, captcha).payload.email == ""
  {
    GateDecides(f, session, captcha);
  }

  /** Without the CAPTCHA library the check is skipped and the payload
      carries an empty token. */
  lemma NoCaptchaLibrary(f: Form, session: Option<string>)
    ensures Gate(f, session, None) != Rejected(CaptchaUnchecked)
    ensures Gate(f, session, None).Accepted? ==> Gate(f, session, None).payload.recaptchaToken == ""
  {
  }
}
