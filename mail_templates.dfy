/** The mails the form-submit handler of gas-form-handler.js sends: how it
    reads the answers out of the form event, and the fixed texts of the
    operator notification, the auto-reply and the error notice. */
module MailTemplates {
  import opened TextJoin

  /** Settings at the top of the script (lines 13-14). */
  const TO_EMAIL: string := "support@hac-kg.co.jp"
  const EMAIL_SUBJECT: string := "【HAC】LPお問い合わせフォームから新着メッセージ"

  const REPLY_SUBJECT: string := "【HAC】お問い合わせありがとうございます（自動返信）"
  const ERROR_SUBJECT: string := "【HAC】フォーム通知エラー"
  /** Shown in the operator mail in place of an empty email address. */
  const EMAIL_PLACEHOLDER: string := "未入力"

  // The form's questions, as they appear as keys of `namedValues`.
  const Q_NAME: string := "お名前"
  const Q_PHONE: string := "電話番号"
  const Q_EMAIL: string := "メールアドレス"
  const Q_SITUATION: string := "現在の状況"
  const Q_MESSAGE: string := "ご相談内容・ご質問"
  const L_RECEIVED: string := "受信日時"

  /** The answers to one question.  The forms service always supplies at
      least one (an empty string for a question left blank). */
  type Answers = s: seq<string> | |s| > 0 witness [""]

  /** `e.namedValues`: question title to answers. */
  type NamedValues = map<string, Answers>

  /** One question's answer (lines 36-40): its first answer when the
      question is present, the empty string when it is not. */
  function Answer(responses: NamedValues, question: string): (r: string)
    ensures question in responses ==> r == responses[question][0]
    ensures question !in responses ==> r == ""
  {
    if question in responses then responses[question][0] else ""
  }

  datatype Submission = Submission(
    name: string,
    phone: string,
    email: string,
    situation: string,
    message: string)

  function ReadSubmission(responses: NamedValues): (s: Submission)
    ensures s.email == "" <==> Q_EMAIL !in responses || responses[Q_EMAIL][0] == ""
  {
    Submission(Answer(responses, Q_NAME), Answer(responses, Q_PHONE), Answer(responses, Q_EMAIL),
               Answer(responses, Q_SITUATION), Answer(responses, Q_MESSAGE))
  }

  /** A sent mail, as the options object given to `MailApp.sendEmail`;
      `noReply` is false where the script does not set it. */
  datatype Mail = Mail(to: string, subject: string, body: string, noReply: bool)

  const RULE: string := "━━━━━━━━━━━━━━━━━━━━━━━━━━━━━━\n"
  const HEADING: string := "■ お問い合わせ内容\n"
  const OPERATOR_INTRO: string := "就労支援センターHACのLPお問い合わせフォームから新しいメッセージが届きました。\n"
  const OPERATOR_FOOTER: string := "※このメールはLPフォームから自動送信されています。\n"
  const REPLY_THANKS: string :=
    "この度は就労支援センターHACへお問い合わせいただき、誠にありがとうございます。\n"
    + "以下の内容でお問い合わせを受け付けました。\n"
  const REPLY_FOLLOW_UP: string :=
    "担当者より2営業日以内にご連絡させていただきます。\n"
    + "今しばらくお待ちください。\n"
    + "\n"
    + "なお、お急ぎの場合は下記までお電話ください。\n"
    + "TEL：099-298-9689\n"
  const SIGNATURE: string :=
    "就労支援センターHAC\n"
    + "〒892-0838\n"
    + "鹿児島市新屋敷町16番 公社ビル420号\n"
    + "TEL：099-298-9689\n"
  const NO_REPLY_NOTICE: string :=
    "※このメールは自動送信されています。\n"
    + "このメールに返信いただいても確認できませんのでご了承ください。\n"
  const ERROR_PREAMBLE: string :=
    "フォーム送信時にエラーが発生しました。\nスプレッドシートを直接確認してください。\n\nエラー: "

  /** One labelled item of a body: the label in brackets on its own line,
      then the value and a line break. */
  function Entry(title: string, value: string): (r: string)
    ensures |r| == |title| + |value| + 4
  {
    "【" + title + "】\n" + value + "\n"
  }

  /** `email || '未入力'` */
  function EmailShown(email: string): (r: string)
    ensures email == "" ==> r == EMAIL_PLACEHOLDER && r != ""
    ensures email != "" ==> r == email
  {
    if email == "" then EMAIL_PLACEHOLDER else email
  }

  /** The fragments of the operator notification (lines 44-65), in order. */
  function OperatorParts(s: Submission, timestamp: string): seq<string> {
    [ OPERATOR_INTRO, "\n", RULE, HEADING, RULE, "\n",
      Entry(L_RECEIVED, timestamp), "\n",
      Entry(Q_NAME, s.name), "\n",
      Entry(Q_PHONE, s.phone), "\n",
      Entry(Q_EMAIL, EmailShown(s.email)), "\n",
      Entry(Q_SITUATION, s.situation), "\n",
      Entry(Q_MESSAGE, s.message), "\n",
      RULE, OPERATOR_FOOTER, RULE ]
  }

  function OperatorBody(s: Submission, timestamp: string): string {
    Concat(OperatorParts(s, timestamp))
  }

  /** The fragments of the auto-reply (lines 75-109), in order.  The
      submitter's email address is not among them. */
  function ReplyParts(name: string, phone: string, situation: string, message: string): seq<string> {
    [ name + " 様\n", "\n", REPLY_THANKS, "\n", RULE, HEADING, RULE, "\n",
      Entry(Q_NAME, name), "\n",
      Entry(Q_PHONE, phone), "\n",
      Entry(Q_SITUATION, situation), "\n",
      Entry(Q_MESSAGE, message), "\n",
      RULE, "\n", REPLY_FOLLOW_UP, "\n", RULE, SIGNATURE, RULE, "\n", NO_REPLY_NOTICE ]
  }

  function ReplyBody(s: Submission): string {
    Concat(ReplyParts(s.name, s.phone, s.situation, s.message))
  }

  /** The notification to the operator inbox (lines 67-71). */
  function OperatorMail(s: Submission, timestamp: string): Mail {
    Mail(TO_EMAIL, EMAIL_SUBJECT, OperatorBody(s, timestamp), false)
  }

  /** The auto-reply to the submitter (lines 111-116). */
  function ReplyMail(s: Submission): Mail {
    Mail(s.email, REPLY_SUBJECT, ReplyBody(s), true)
  }

  /** The notice sent from the catch block (lines 124-128); `errorText` is
      the caught error's `toString()`. */
  function ErrorMail(errorText: string): (m: Mail)
    ensures m.to == TO_EMAIL && !m.noReply
    ensures m.subject != EMAIL_SUBJECT && m.subject != REPLY_SUBJECT
    ensures |m.body| >= |errorText| && m.body[|m.body| - |errorText|..] == errorText
  {
    assert EMAIL_SUBJECT[5] != ERROR_SUBJECT[5] && REPLY_SUBJECT[5] != ERROR_SUBJECT[5];
    Mail(TO_EMAIL, ERROR_SUBJECT, ERROR_PREAMBLE + errorText, false)
  }

  /** The operator body shows the timestamp and every answer verbatim, each
      under its label, and the email address or the placeholder. */
  lemma OperatorBodyShows(s: Submission, timestamp: string)
    ensures Contains(OperatorBody(s, timestamp), Entry(L_RECEIVED, timestamp))
    ensures Contains(OperatorBody(s, timestamp), Entry(Q_NAME, s.name))
    ensures Contains(OperatorBody(s, timestamp), Entry(Q_PHONE, s.phone))
    ensures Contains(OperatorBody(s, timestamp),
                     Entry(Q_EMAIL, if s.email == "" then EMAIL_PLACEHOLDER else s.email))
    ensures Contains(OperatorBody(s, timestamp), Entry(Q_SITUATION, s.situation))
    ensures Contains(OperatorBody(s, timestamp), Entry(Q_MESSAGE, s.message))
  {
    var parts := OperatorParts(s, timestamp);
    ConcatContains(parts, 6);
    ConcatContains(parts, 8);
    ConcatContains(parts, 10);
    ConcatContains(parts, 12);
    ConcatContains(parts, 14);
    ConcatContains(parts, 16);
  }

  /** The auto-reply opens with the submitter's name and the honorific. */
  lemma ReplyBeginsWithName(s: Submission)
    ensures |ReplyBody(s)| >= |s.name| + 2
    ensures ReplyBody(s)[..|s.name| + 2] == s.name + " 様"
  {
    var parts := ReplyParts(s.name, s.phone, s.situation, s.message);
    ConcatContains(parts, 0);
    assert parts[..0] == [];
    var b := ReplyBody(s);
    assert b[0..|s.name| + 3] == s.name + " 様\n";
    assert b[..|s.name| + 2] == b[0..|s.name| + 3][..|s.name| + 2];
  }

  /** The auto-reply repeats name, phone, situation and message, each under
      its label. */
  lemma ReplyBodyShows(s: Submission)
    ensures Contains(ReplyBody(s), Entry(Q_NAME, s.name))
    ensures Contains(ReplyBody(s), Entry(Q_PHONE, s.phone))
    ensures Contains(ReplyBody(s), Entry(Q_SITUATION, s.situation))
    ensures Contains(ReplyBody(s), Entry(Q_MESSAGE, s.message))
  {
    var parts := ReplyParts(s.name, s.phone, s.situation, s.message);
    ConcatContains(parts, 8);
    ConcatContains(parts, 10);
    ConcatContains(parts, 12);
    ConcatContains(parts, 14);
  }
}
