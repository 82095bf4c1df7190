/** The state the contact page changes around a submission (js/main.js):
    the submit button's disabled flag and label, the hidden CSRF field, the
    token kept in session storage, and the requests handed to `fetch` whose
    promise has not settled yet.  The page is modelled with its hidden CSRF
    field present. */
module ContactPage {
  import opened Options
  import opened SubmitGate

  /** The submit button's two labels. */
  datatype Label = IdleLabel | SendingLabel {
    /** The text set as the button's `textContent` (lines 213 and 267). */
    function Text(): string {
      match this
      case IdleLabel => "無料相談を申し込む"
      case SendingLabel => "送信中..."
    }
  }

  /** The alert shown once the send settles.  `ThankYou` is shown whenever
      `fetch` resolves: in no-cors mode the response is opaque, so it says
      nothing about what the server did with the submission. */
  datatype Notice = ThankYou | SendFailed

  class Page {
    var buttonDisabled: bool
    var buttonLabel: Label
    var csrfField: string
    var sessionToken: Option<string>
    var inFlight: seq<Payload>

    /** The button is disabled only while some send is pending, and its
        label always says which of the two states it is in. */
    ghost predicate Valid()
      reads this
    {
      && (buttonDisabled ==> inFlight != [])
      && buttonLabel == (if buttonDisabled then SendingLabel else IdleLabel)
    }

    /** Page load (lines 123-130): one token is written both to the hidden
        field and to session storage. */
    constructor (token: string)
      ensures Valid() && !buttonDisabled && inFlight == []
      ensures csrfField == token && sessionToken == Some(token)
    {
      buttonDisabled := false;
      buttonLabel := IdleLabel;
      csrfField := token;
      sessionToken := Some(token);
      inFlight := [];
    }

    /** The submit handler (lines 142-224) given the values of the other
        form elements and, when the CAPTCHA library is loaded, its response.
        A `SecurityError` is followed by a page reload, which is outside
        this model. */
    method Submit(name: Option<string>, phone: Option<string>, email: Option<string>,
                  situation: Option<string>, message: Option<string>,
                  captcha: Option<string>) returns (v: Verdict)
      requires Valid()
      modifies this
      ensures Valid()
      ensures v == Gate(Form(Some(old(csrfField)), name, phone, email, situation, message),
                        old(sessionToken), captcha)
      ensures csrfField == old(csrfField) && sessionToken == old(sessionToken)
      ensures v.Accepted? ==> buttonDisabled && inFlight == old(inFlight) + [v.payload]
      ensures !v.Accepted? ==> buttonDisabled == old(buttonDisabled)
                               && buttonLabel == old(buttonLabel) && inFlight == old(inFlight)
    {
      var form := Form(Some(csrfField), name, phone, email, situation, message);
      v := Gate(form, sessionToken, captcha);
      Dispatch(v);
    }

    /** Lines 210-223: only an accepted submission touches the page; the
        button is disabled and the payload is handed to the sender. */
    method Dispatch(v: Verdict)
      requires Valid()
      modifies this
      ensures Valid()
      ensures csrfField == old(csrfField) && sessionToken == old(sessionToken)
      ensures v.Accepted? ==> buttonDisabled && buttonLabel == SendingLabel
                              && inFlight == old(inFlight) + [v.payload]
      ensures v.Accepted? ==> buttonLabel.Text() == "送信中..."
      ensures !v.Accepted? ==> buttonDisabled == old(buttonDisabled)
                               && buttonLabel == old(buttonLabel) && inFlight == old(inFlight)
    {
      if v.Accepted? {
        buttonDisabled := true;
        buttonLabel := SendingLabel;
        inFlight := inFlight + [v.payload];
      }
    }

    /** The end of `sendToGoogleAppsScript` (lines 234-268) for the pending
        request at index `k`: `resolved` tells whether `fetch` resolved or
        threw, `newToken` is what `generateCSRFToken` returns.  Tokens rotate
        only after a resolved fetch; the button is re-enabled either way. */
    method Complete(k: nat, resolved: bool, newToken: string) returns (n: Notice)
      requires Valid() && k < |inFlight|
      modifies this
      ensures Valid() && !buttonDisabled && buttonLabel == IdleLabel
      ensures buttonLabel.Text() == "無料相談を申し込む"
      ensures inFlight == old(inFlight[..k] + inFlight[k + 1..])
      ensures resolved ==> csrfField == newToken && sessionToken == Some(newToken)
      ensures !resolved ==> csrfField == old(csrfField) && sessionToken == old(sessionToken)
      ensures n == (if resolved then ThankYou else SendFailed)
      ensures resolved ==> (TokenAccepted(csrfField, sessionToken) <==> newToken != "")
    {
      inFlight := inFlight[..k] + inFlight[k + 1..];
      if resolved {
        n := ThankYou;
        csrfField := newToken;
        sessionToken := Some(newToken);
      } else {
        n := SendFailed;
      }
      buttonDisabled := false;
      buttonLabel := IdleLabel;
    }
  }
}
