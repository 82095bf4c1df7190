# Contact-form logic of the HAC landing page, in Dafny

This project models the two pieces of the landing page's contact form that
carry real decisions, and proves properties of them.

**The browser-side submission gate (`js/main.js`).** The submit handler runs
its checks in a fixed order and stops at the first one that fails:

1. the CSRF token in the hidden field must be non-empty and equal to the
   copy in session storage;
2. the form's elements must exist;
3. name, phone, situation and message must be filled in;
4. the phone must match the phone pattern;
5. a non-empty email must match the email pattern;
6. the CAPTCHA must be answered when the CAPTCHA library is loaded.

Values are trimmed and then sanitised. The situation is sanitised but not
trimmed. The sanitiser writes the value into a detached element's
`textContent` and reads back its `innerHTML`. That is HTML text escaping:
`&`, `<`, `>` and U+00A0 become entities ("escaping a string", section 13.3 of
the HTML Living Standard). Whitespace is ECMAScript's WhiteSpace and
LineTerminator set, which `trim` and the regular-expression class `\s` share.
Around the send, the page keeps some mutable state:

- the submit button's disabled flag and label;
- the hidden CSRF field and the session-storage token;
- the requests handed to `fetch` that have not settled.

**The Apps Script notifier (`gas-form-handler.js`).** `onFormSubmit` reads the
answers of a Google Forms submission. It mails a fixed-format notification to
the operator inbox, and an auto-reply to the submitter when one gave an
address. If anything in that throws, it mails an error notice to the operator.
`setupTrigger` deletes every trigger that `ScriptApp.getProjectTriggers()`
lists, which are the current user's installable triggers of the project. It
then creates one form-submit trigger for `onFormSubmit`. The mail service is an outbox of
`(to, subject, body, noReply)` records that each successful send appends to.
Any send may throw instead.

Modules: `Options`, `JsText` (whitespace, trim, sanitiser), `FormRules` (the
two patterns), `SubmitGate` (the check pipeline), `ContactPage` (the page
state, a class), `TextJoin` (concatenating fragments), `MailTemplates` (answer
extraction and mail texts), `Triggers`, `FormNotifier` (the run specification
and the `AppsScript` class with the outbox and trigger list).

Some consequences proved here:

- Sanitising before validating rejects a phone number with an inner no-break
  space, although `\s` admits that character (`FormRules.PhoneAfterEscape`).
- For the email check, sanitising never changes the verdict
  (`FormRules.EmailAfterEscape`).
- The email pattern forces exactly one `@`, and its top-level label is the
  text after the last dot (`FormRules.EmailSplitForced`).

## Model

| member | source | states |
|---|---|---|
| `JsText.IsJsSpace` | js/main.js:174-188 | definition: ECMAScript's WhiteSpace and LineTerminator code points (tab, LF, VT, FF, CR, space, U+00A0, U+1680, U+2000-U+200A, U+2028, U+2029, U+202F, U+205F, U+3000, U+FEFF), the set both `trim` and `\s` use; `Trim` and `PhoneValid` are stated against it |
| `JsText.Trim` | js/main.js:174-178 | the trimmed value is an infix of the input, only whitespace is removed on each side, and it neither starts nor ends with whitespace |
| `JsText.TrimEmptyIff` | js/main.js:174-181 | a value trims to the empty string exactly when it is all whitespace |
| `JsText.TrimIdempotent` | js/main.js:174-178 | trimming an already trimmed value changes nothing |
| `JsText.EscapeChar` | js/main.js:133-137 | `&`, U+00A0, `<`, `>` become `&amp;`, `&nbsp;`, `&lt;`, `&gt;`, each starting with `&`; any other character stays as it is; no entity holds `<`, `>` or U+00A0 |
| `JsText.Escape` | js/main.js:133-137 | no `<`, `>` or U+00A0 survives sanitising; it is empty only for empty input and never shortens; text without `&`, `<`, `>`, U+00A0 is unchanged, and otherwise the result holds `&` |
| `JsText.EscapeAppend` | js/main.js:133-137 | sanitising works character by character: the sanitised concatenation is the concatenation of the sanitised parts |
| `JsText.UnescapeChar` | js/main.js:133-137 | decoding the entity written for a character, followed by any text, gives back that character followed by the decoded text |
| `JsText.UnescapeEscape` | js/main.js:133-137 | sanitising loses nothing: decoding the four entities of the sanitised text gives back exactly the input, so sanitising is injective |
| `FormRules.PhoneValid` | js/main.js:187-188 | definition of the phone pattern `/^[0-9\-\+\(\)\s]+$/`: non-empty, and every character a digit, `-`, `+`, `(`, `)` or JavaScript whitespace; `PhoneAfterEscape` and `GateDecides` are stated against it |
| `FormRules.EmailSplit` | js/main.js:194 | definition: the email pattern matched with its `@` and its literal dot at two given positions: a non-empty local part of `[a-zA-Z0-9._%+-]`, a non-empty domain of `[a-zA-Z0-9.-]`, and at least two ASCII letters after the dot, up to the end |
| `FormRules.EmailShaped` | js/main.js:194-195 | definition: `emailRegex.test(s)` holds, i.e. some choice of the two split points matches; `EmailValidIff`, `EmailAfterEscape` and, through the typed email, `GateDecides` are stated against it |
| `FormRules.EmailValid` | js/main.js:194-195 | a string the split-at-first-`@`, split-at-last-dot check accepts matches the email pattern |
| `FormRules.EmailValidIff` | js/main.js:194-195 | that check accepts exactly the strings the pattern matches, for some choice of split points |
| `FormRules.EmailSplitForced` | js/main.js:194 | in a match, the `@` is the only one in the string and no dot follows the split dot |
| `FormRules.EmailSplitUnique` | js/main.js:194 | a matching string has one way to match |
| `FormRules.PhoneAfterEscape` | js/main.js:175-191 | the sanitised phone passes the phone pattern exactly when the trimmed phone does and holds no U+00A0 |
| `FormRules.EmailAfterEscape` | js/main.js:176-199 | the sanitised email matches the email pattern exactly when the trimmed email does |
| `SubmitGate.CleanTrimmed` | js/main.js:174-178 | the trimmed, sanitised field is empty exactly when the typed value is all whitespace |
| `SubmitGate.CleanUntrimmed` | js/main.js:177 | the sanitised situation is empty exactly when the selected value is empty |
| `SubmitGate.TokenAccepted` | js/main.js:145-149 | definition of the CSRF check: the hidden field's token is non-empty and session storage holds the same string (`None` for an unset key); `GateDecides` and `Page.Complete` are stated against it |
| `SubmitGate.ElementsPresent` | js/main.js:157-171 | definition: the name, phone, situation and message elements all exist; a missing email element is allowed |
| `SubmitGate.CaptchaAnswered` | js/main.js:202-208 | definition: the CAPTCHA check passes when the library is not loaded or its response is non-empty |
| `SubmitGate.CaptchaToken` | js/main.js:222 | definition: the payload's token is the CAPTCHA response when the library is loaded, `''` otherwise |
| `SubmitGate.CsrfPasses` | js/main.js:146-149 | definition: the hidden CSRF field exists and its token passes `TokenAccepted` against session storage |
| `SubmitGate.RawEmail` | js/main.js:176 | definition: the typed email, `''` when the email element is missing, as `emailEl && emailEl.value` reads it |
| `SubmitGate.RequiredTyped` | js/main.js:174-184 | definition: the required check on typed values: name, phone and message hold something other than whitespace, and the situation is non-empty; `GateDecides` is stated against it |
| `SubmitGate.PhoneTyped` | js/main.js:174-191 | definition: the phone check on the typed value: the trimmed phone matches the phone pattern and holds no U+00A0, because sanitising turns U+00A0 into `&nbsp;`, which the pattern rejects; `GateDecides` is stated against it |
| `SubmitGate.EmailTyped` | js/main.js:176-199 | definition: the email check on the typed value: the email is blank, or its trimmed value matches the email pattern; `GateDecides` is stated against it |
| `SubmitGate.Gate` | js/main.js:142-224 | a missing CSRF field aborts the handler; an accepted submission passed the token, element and CAPTCHA checks, and its payload's token is the CAPTCHA response or `''` without the library |
| `SubmitGate.GateDecides` | js/main.js:146-208 | each rejection happens exactly when every earlier check passes and its own fails, in the order token, elements, required, phone, email, CAPTCHA; the payload is sent exactly when all pass |
| `SubmitGate.AcceptedPayload` | js/main.js:173-178 | the payload carries the trimmed, sanitised name, phone, email and message and the untrimmed, sanitised situation |
| `SubmitGate.SituationNotTrimmed` | js/main.js:174-184 | a whitespace-only situation passes the required check while a whitespace-only name fails it |
| `SubmitGate.BlankEmailSkipped` | js/main.js:193-199 | an empty or whitespace-only email is never format-checked and is sent as `''` |
| `SubmitGate.NoCaptchaLibrary` | js/main.js:202-222 | without the CAPTCHA library the CAPTCHA check never rejects and the payload token is `''` |
| `ContactPage.Page.constructor` | js/main.js:123-130 | on load the hidden field and session storage hold the same new token, and the button is enabled |
| `ContactPage.Page.Submit` | js/main.js:142-224 | the verdict is the gate's on the current token pair; tokens never change; only an accepted submission disables the button and starts a send |
| `ContactPage.Page.Dispatch` | js/main.js:210-223 | an accepted payload disables the button, sets the sending label and is handed to the sender; any other verdict leaves the page as it was |
| `ContactPage.Page.Complete` | js/main.js:228-268 | the settled request leaves the pending list; the button is re-enabled either way; both tokens become the new token only after a resolved fetch and are otherwise unchanged, so the next token check passes exactly when the new token is non-empty |
| `MailTemplates.Answer` | gas-form-handler.js:36-40 | a question missing from `namedValues` reads as `''`; a present one yields its first answer |
| `MailTemplates.ReadSubmission` | gas-form-handler.js:34-40 | the email is empty exactly when its question is missing or its first answer is empty |
| `MailTemplates.EmailShown` | gas-form-handler.js:57 | the operator mail shows the address when there is one and exactly `未入力` otherwise |
| `MailTemplates.OperatorParts` | gas-form-handler.js:44-65 | definition: the fragments of the operator body in source order, the six values each inside an `Entry` under its label |
| `MailTemplates.OperatorBody` | gas-form-handler.js:44-65 | definition: the operator body is the concatenation of those fragments; `OperatorBodyShows` is stated against it |
| `MailTemplates.ReplyParts` | gas-form-handler.js:75-109 | definition: the fragments of the auto-reply in source order, opening with the name and ` 様`, with no email-address entry |
| `MailTemplates.ReplyBody` | gas-form-handler.js:75-109 | definition: the auto-reply body is the concatenation of those fragments; `ReplyBeginsWithName` and `ReplyBodyShows` are stated against it |
| `MailTemplates.OperatorMail` | gas-form-handler.js:67-71 | definition: the notification goes to `TO_EMAIL` with `EMAIL_SUBJECT` and the operator body, without `noReply` |
| `MailTemplates.ReplyMail` | gas-form-handler.js:111-116 | definition: the auto-reply goes to the submitter's address with the fixed subject, the reply body and `noReply` set |
| `MailTemplates.ErrorMail` | gas-form-handler.js:121-128 | the error notice goes to `TO_EMAIL` without `noReply`, under a subject distinct from the notification's and the auto-reply's, and its body ends with the error text |
| `MailTemplates.OperatorBodyShows` | gas-form-handler.js:44-65 | the operator body holds the timestamp, name, phone, situation and message verbatim under their labels, and the address or `未入力` |
| `MailTemplates.ReplyBeginsWithName` | gas-form-handler.js:75-76 | the auto-reply body begins with the name followed by ` 様` |
| `MailTemplates.ReplyBodyShows` | gas-form-handler.js:75-91 | the auto-reply repeats name, phone, situation and message under their labels |
| `FormNotifier.Recover` | gas-form-handler.js:121-128 | the catch block keeps the mails already sent and appends exactly the error notice, unless that send throws, in which case nothing is appended and the exception escapes |
| `FormNotifier.SubmitRun` | gas-form-handler.js:32-130 | the mails of one run of `onFormSubmit`: at most two are sent, an exception escapes only when the error notice throws, and no auto-reply is sent when its send throws; with `CleanRun`, `ReplyIff` and `ErrorPath` it is fixed for every choice of failing sends |
| `FormNotifier.CleanRun` | gas-form-handler.js:67-117 | without failures the operator notification to `TO_EMAIL` with `EMAIL_SUBJECT` is sent first, and exactly two mails are sent when there is an address, one otherwise |
| `FormNotifier.FirstMailToOperator` | gas-form-handler.js:67-71 | the first mail of any run goes to `TO_EMAIL`, and it has the notification subject whenever the operator send succeeds |
| `FormNotifier.ReplyIff` | gas-form-handler.js:73-117 | an auto-reply is sent exactly when there is an address and no earlier send threw; it goes to that address with the fixed subject and `noReply` set |
| `FormNotifier.ErrorPath` | gas-form-handler.js:121-128 | when a send in the `try` block throws, exactly one error notice to `TO_EMAIL` follows the mails already sent, and an operator mail already sent stays; with no throw no error notice is sent, and the run equals the run in which no send fails, so sends that are never attempted make no difference |
| `FormNotifier.ReplyIgnoresAddress` | gas-form-handler.js:74-116 | the auto-reply's body does not depend on the address: changing it changes only the recipient |
| `FormNotifier.AppsScript.SendEmail` | gas-form-handler.js:67-71 | a send appends exactly its mail to the outbox, or throws and appends nothing |
| `FormNotifier.AppsScript.OnFormSubmit` | gas-form-handler.js:32-130 | the outbox grows by exactly the mails of the run specification, and an exception escapes exactly when the error notice fails too |
| `FormNotifier.AppsScript.DeleteTrigger` | gas-form-handler.js:21 | deleting a trigger removes it and keeps the others and their distinct ids |
| `FormNotifier.AppsScript.SetupTrigger` | gas-form-handler.js:17-29 | whatever the current user's trigger list held, afterwards it holds exactly one trigger, bound to `onFormSubmit` on form submit, with a fresh id; a second run leaves the same binding |
| `Triggers.Without` | gas-form-handler.js:21 | deleting by id keeps exactly the other triggers, and their ids stay distinct |
| `Triggers.WithoutAppend` | gas-form-handler.js:19-22 | deleting from a concatenation concatenates what remains of each part, so the remaining triggers keep their order |
| `Triggers.WithoutFirst` | gas-form-handler.js:19-22 | with distinct ids, deleting the first trigger of the list leaves the rest |

## Left out

- Presentational page code is not modelled: smooth scrolling, fade-in, the seminar modal, the menu, back-to-top (js/main.js:1-115, 314-367), and the responsive video (271-312, floating point).
- The `fetch` call itself is reduced to "resolved" or "threw" (`Complete`'s `resolved`). In no-cors mode the response is opaque, so the thank-you notice after a resolved fetch does not mean the submission was delivered or accepted.
- The receiver of the JSON payload (a web-app `doPost`) is not part of this model. `gas-form-handler.js` only handles Google Forms submissions.
- `generateCSRFToken` uses `Math.random`, and the Apps Script timestamp uses the clock. Both values are parameters.
- `alert`, `console`, `Logger`, and the reload after a security error are reduced to the returned verdict or notice.
- `formElement.reset()` and `grecaptcha.reset()` (js/main.js:249-254) are not modelled. Field values are parameters of `Submit`, not page state, and the CAPTCHA widget is external.
- The page is modelled with its hidden CSRF field and its submit button present. `Gate` alone covers a missing CSRF field. A missing submit button, which would throw at line 212, is not modelled.
- `Page.Submit` does not require the button to be enabled. The browser does not submit through a disabled button, but the model allows a second submission while one is pending.
- Triggers that other editors of the project installed are not modelled. `getProjectTriggers()` lists only the current user's, so `setupTrigger` leaves theirs in place and prevents duplicates per user only.
- The internals of `ScriptApp`, `SpreadsheetApp` and `MailApp` are reduced to an outbox and a trigger list. Which spreadsheet a trigger is bound to is not modelled.
- The text of a caught error (`error.toString()`) is a parameter.
- JavaScript strings are UTF-16. Here a character is a Unicode scalar value, and surrogate pairs are not modelled.
- Server-side CAPTCHA verification and spreadsheet logging do not exist in these files, so they are not modelled.
- `MailTemplates.Answer`: the forms service always gives each present question at least one answer. The type `Answers` assumes this. The script would print `undefined` for a present question with no answers, and this model cannot express that input.
