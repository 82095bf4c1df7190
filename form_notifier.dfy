/** The Apps Script side of the contact form (gas-form-handler.js):
    `onFormSubmit`, which mails the operator and, when the submitter gave an
    address, the submitter, and mails an error notice if any of that throws;
    and `setupTrigger`, which replaces the project's triggers by a single
    form-submit trigger.  The mail service is an outbox that every sent mail
    is appended to; any call to it may throw instead, as a parameter says. */
module FormNotifier {
  import opened Options
  import opened MailTemplates
  import opened Triggers

  /** The handler function the trigger is bound to. */
  const HANDLER: string := "onFormSubmit"

  /** The three places where `MailApp.sendEmail` is called. */
  datatype Send = OperatorSend | ReplySend | ErrorSend

  /** What one run of `onFormSubmit` leaves behind: the mails sent, in
      order, and whether an exception escaped the handler (the error notice
      itself failed). */
  datatype Run = Run(sent: seq<Mail>, escaped: bool)

  /** The catch block: one error notice after what was already sent. */
  function Recover(sent: seq<Mail>, failing: set<Send>, errorText: string): (r: Run)
    ensures r.escaped <==> ErrorSend in failing
    ensures |r.sent| == |sent| + (if r.escaped then 0 else 1) && r.sent[..|sent|] == sent
    ensures !r.escaped ==> r.sent[|sent|] == ErrorMail(errorText)
  {
    if ErrorSend in failing then Run(sent, true)
    else Run(sent + [ErrorMail(errorText)], false)
  }

  /** The mails of one run.  `event` is `None` when the event object or its
      `namedValues` is missing (a run started by hand), which throws on the
      first read; `failing` names the sends that throw. */
  function SubmitRun(event: Option<NamedValues>, timestamp: string,
                     failing: set<Send>, errorText: string): (r: Run)
    ensures |r.sent| <= 2
    ensures r.escaped ==> ErrorSend in failing
    ensures ReplySend in failing ==> forall k :: 0 <= k < |r.sent| ==> r.sent[k].subject != REPLY_SUBJECT
  {
    match event
    case None => Recover([], failing, errorText)
    case Some(responses) =>
      var s := ReadSubmission(responses);
      if OperatorSend in failing then Recover([], failing, errorText)
      else if s.email == "" then Run([OperatorMail(s, timestamp)], false)
      else if ReplySend in failing then Recover([OperatorMail(s, timestamp)], failing, errorText)
      else Run([OperatorMail(s, timestamp), ReplyMail(s)], false)
  }

  /** Whether some send inside the `try` block threw. */
  predicate Threw(event: Option<NamedValues>, failing: set<Send>) {
    event.None? || OperatorSend in failing
    || (ReplySend in failing && ReadSubmission(event.value).email != "")
  }

  /** Without failures, the operator mail is sent first, and the auto-reply
      second if and only if the submitter gave an email address. */
  lemma CleanRun(responses: NamedValues, timestamp: string, errorText: string)
    ensures var r := SubmitRun(Some(responses), timestamp, {}, errorText);
            var s := ReadSubmission(responses);
            && !r.escaped
            && |r.sent| == (if s.email != "" then 2 else 1)
            && r.sent[0] == Mail(TO_EMAIL, EMAIL_SUBJECT, OperatorBody(s, timestamp), false)
            && (s.email != "" ==> r.sent[1] == Mail(s.email, REPLY_SUBJECT, ReplyBody(s), true))
  {
  }

  /** Every run that sends anything sends its first mail to the operator
      inbox, and it is the notification whenever that send succeeds. */
  lemma FirstMailToOperator(event: Option<NamedValues>, timestamp: string,
                            failing: set<Send>, errorText: string)
    ensures var r := SubmitRun(event, timestamp, failing, errorText);
            && (r.sent != [] ==> r.sent[0].to == TO_EMAIL)
            && (event.Some? && OperatorSend !in failing ==>
                  r.sent != [] && r.sent[0].subject == EMAIL_SUBJECT)
  {
  }

  /** An auto-reply is sent if and only if the submitter gave an address
      and neither send before it threw; it goes to that address, marked
      no-reply. */
  lemma ReplyIff(responses: NamedValues, timestamp: string, failing: set<Send>, errorText: string)
    ensures var r := SubmitRun(Some(responses), timestamp, failing, errorText);
            var s := ReadSubmission(responses);
            && ((exists k :: 0 <= k < |r.sent| && r.sent[k].subject == REPLY_SUBJECT)
                <==> s.email != "" && OperatorSend !in failing && ReplySend !in failing)
            && (forall k :: 0 <= k < |r.sent| && r.sent[k].subject == REPLY_SUBJECT ==>
                  r.sent[k] == Mail(s.email, REPLY_SUBJECT, ReplyBody(s), true))
  {
    var r := SubmitRun(Some(responses), timestamp, failing, errorText);
    var s := ReadSubmission(responses);
    var operator := OperatorMail(s, timestamp);
    assert operator.subject != REPLY_SUBJECT by { assert EMAIL_SUBJECT[5] != REPLY_SUBJECT[5]; }
    assert ErrorMail(errorText).subject != REPLY_SUBJECT by { assert ERROR_SUBJECT[5] != REPLY_SUBJECT[5]; }
    if OperatorSend in failing {
      assert r.sent == [] || r.sent == [ErrorMail(errorText)];
    } else if s.email == "" {
      assert r.sent == [operator];
    } else if ReplySend in failing {
      assert r.sent == [operator] || r.sent == [operator, ErrorMail(errorText)];
    } else {
      assert r.sent == [operator, ReplyMail(s)];
      assert r.sent[1].subject == REPLY_SUBJECT;
    }
  }

  /** If a send in the `try` block throws, exactly one error notice to the
      operator inbox follows what was already sent (unless the notice itself
      throws); an operator mail sent before the failure stays sent.  If
      nothing throws, no error notice is sent, and the run is the one in
      which no send can fail: a send named in `failing` that is never
      attempted makes no difference. */
  lemma ErrorPath(event: Option<NamedValues>, timestamp: string,
                  failing: set<Send>, errorText: string)
    ensures var r := SubmitRun(event, timestamp, failing, errorText);
            var before := if event.Some? && OperatorSend !in failing
                          then [OperatorMail(ReadSubmission(event.value), timestamp)] else [];
            && (Threw(event, failing) ==>
                  r.sent == before + (if ErrorSend in failing then [] else [ErrorMail(errorText)])
                  && r.escaped == (ErrorSend in failing))
            && (!Threw(event, failing) ==>
                  !r.escaped && forall k :: 0 <= k < |r.sent| ==> r.sent[k].subject != ERROR_SUBJECT)
    ensures !Threw(event, failing) ==>
              SubmitRun(event, timestamp, failing, errorText) == SubmitRun(event, timestamp, {}, errorText)
  {
    assert EMAIL_SUBJECT != ERROR_SUBJECT by { assert EMAIL_SUBJECT[5] != ERROR_SUBJECT[5]; }
    assert REPLY_SUBJECT != ERROR_SUBJECT by { assert REPLY_SUBJECT[5] != ERROR_SUBJECT[5]; }
  }

  /** The auto-reply does not depend on the submitter's address, so it
      carries no email-address line: changing the address changes only the
      recipient. */
  lemma ReplyIgnoresAddress(s: Submission, other: string)
    ensures ReplyMail(s.(email := other)) == ReplyMail(s).(to := other)
  {
  }

  class AppsScript {
    var outbox: seq<Mail>
    /** The current user's installable triggers of this project. */
    var triggers: seq<Trigger>
    var nextTriggerId: nat

    /** Trigger ids are distinct and below the next one to be issued. */
    ghost predicate Valid()
      reads this
    {
      DistinctIds(triggers) && forall k :: 0 <= k < |triggers| ==> triggers[k].id < nextTriggerId
    }

    constructor (existing: seq<Trigger>, nextId: nat)
      requires DistinctIds(existing) && forall k :: 0 <= k < |existing| ==> existing[k].id < nextId
      ensures Valid() && outbox == [] && triggers == existing && nextTriggerId == nextId
    {
      outbox := [];
      triggers := existing;
      nextTriggerId := nextId;
    }

    /** `MailApp.sendEmail`: appends the mail, or throws and sends nothing. */
    method SendEmail(m: Mail, fails: bool) returns (thrown: bool)
      modifies this`outbox
      ensures thrown == fails
      ensures outbox == old(outbox) + (if fails then [] else [m])
    {
      thrown := fails;
      if !fails {
        outbox := outbox + [m];
      }
    }

    /** `onFormSubmit(e)` (lines 32-130). */
    method OnFormSubmit(event: Option<NamedValues>, timestamp: string,
                        failing: set<Send>, errorText: string) returns (escaped: bool)
      modifies this`outbox
      ensures outbox == old(outbox) + SubmitRun(event, timestamp, failing, errorText).sent
      ensures escaped == SubmitRun(event, timestamp, failing, errorText).escaped
    {
      var thrown := false;
      if event.None? {
        thrown := true;
      } else {
        var s := ReadSubmission(event.value);
        var body := OperatorBody(s, timestamp);
        thrown := SendEmail(Mail(TO_EMAIL, EMAIL_SUBJECT, body, false), OperatorSend in failing);
        if !thrown && s.email != "" {
          var replyBody := ReplyBody(s);
          thrown := SendEmail(Mail(s.email, REPLY_SUBJECT, replyBody, true), ReplySend in failing);
        }
      }
      escaped := false;
      if thrown {
        escaped := SendEmail(ErrorMail(errorText), ErrorSend in failing);
      }
    }

    /** `ScriptApp.deleteTrigger`. */
    method DeleteTrigger(id: nat)
      requires Valid()
      modifies this`triggers
      ensures Valid()
      ensures triggers == Without(old(triggers), id)
    {
      triggers := Without(triggers, id);
    }

    /** `setupTrigger()` (lines 17-29): delete every trigger of the current
        user's list, then create one form-submit trigger for `onFormSubmit`.
        Whatever that list held before, one trigger remains in it, so running
        it again does not add a duplicate for this user. */
    method SetupTrigger()
      requires Valid()
      modifies this`triggers, this`nextTriggerId
      ensures Valid()
      ensures triggers == [Trigger(old(nextTriggerId), HANDLER, SpreadsheetFormSubmit)]
      ensures nextTriggerId == old(nextTriggerId) + 1
      ensures Bindings(triggers) == [(HANDLER, SpreadsheetFormSubmit)]
    {
      var existing := triggers;
      var i := 0;
      while i < |existing|
        invariant 0 <= i <= |existing|
        invariant triggers == existing[i..]
        invariant nextTriggerId == old(nextTriggerId)
        invariant Valid()
      {
        WithoutFirst(existing[i..]);
        DeleteTrigger(existing[i].id);
        i := i + 1;
      }
      assert triggers == [];
      triggers := triggers + [Trigger(nextTriggerId, HANDLER, SpreadsheetFormSubmit)];
      nextTriggerId := nextTriggerId + 1;
      assert |triggers| == 1 && triggers[0].id < nextTriggerId;
    }
  }
}
