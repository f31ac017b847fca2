/** The choices the offline-message mail makes before anything is sent: who
    it greets, how much of the message it previews, and which subject, title
    and colours the sender's role selects. The transport is not modelled; its
    outcome is a parameter. */
module EmailService {
  import opened Common
  import opened UserSchema

  /** `name || partner_1 || partner_2 || "User"`. */
  function RecipientName(u: User): (n: string)
    ensures n != ""
    ensures Truthy(Attr(u, "name")) ==> n == Attr(u, "name").value
    ensures !Truthy(Attr(u, "name")) && Truthy(Attr(u, "partner_1")) ==> n == Attr(u, "partner_1").value
    ensures !Truthy(Attr(u, "name")) && !Truthy(Attr(u, "partner_1")) && Truthy(Attr(u, "partner_2")) ==>
              n == Attr(u, "partner_2").value
    ensures !Truthy(Attr(u, "name")) && !Truthy(Attr(u, "partner_1")) && !Truthy(Attr(u, "partner_2")) ==>
              n == "User"
  {
    OrElse(OrElse(OrElse(Attr(u, "name"), Attr(u, "partner_1")), Attr(u, "partner_2")), Some("User")).value
  }

  const PreviewLength: nat := 100

  /** The first hundred characters and an ellipsis when the message is longer. */
  function Preview(content: string): (p: string)
    ensures |p| <= PreviewLength + 3
    ensures |content| <= PreviewLength ==> p == content
    ensures |content| > PreviewLength ==>
      |p| == PreviewLength + 3 && p[..PreviewLength] == content[..PreviewLength] && p[PreviewLength..] == "..."
  {
    if |content| > PreviewLength then content[..PreviewLength] + "..." else content
  }

  /** A message longer than a full preview is shortened. */
  lemma LongPreviewShortens(content: string)
    requires |content| > PreviewLength + 3
    ensures |Preview(content)| < |content|
  {
  }

  /** Previewing a preview gives it back unchanged, whatever the message. */
  lemma PreviewIdempotent(content: string)
    ensures Preview(Preview(content)) == Preview(content)
  {
  }

  predicate IsOfficiantMessage(senderRole: string)
  {
    senderRole == "officiant"
  }

  const SubjectSuffix: string := " - Erie Wedding Officiants"

  function Subject(senderName: string, officiant: bool): (s: string)
  {
    "New message from " + senderName + (if officiant then " (Officiant)" else "") + SubjectSuffix
  }

  /** The two subjects agree except for the officiant marker after the
      sender's name, so the flag can be read back from the subject. */
  lemma SubjectMarksOfficiant(senderName: string)
    ensures var client := Subject(senderName, false);
      var officiant := Subject(senderName, true);
      && |officiant| == |client| + |" (Officiant)"|
      && officiant[..17 + |senderName|] == client[..17 + |senderName|]
      && officiant[17 + |senderName|..17 + |senderName| + 12] == " (Officiant)"
      && officiant[17 + |senderName| + 12..] == client[17 + |senderName|..] == SubjectSuffix
  {
    var head := "New message from " + senderName;
    assert |head| == 17 + |senderName|;
    assert Subject(senderName, false) == head + "" + SubjectSuffix;
    assert Subject(senderName, true) == head + " (Officiant)" + SubjectSuffix;
    assert (head + "" + SubjectSuffix)[..|head|] == head;
    assert (head + " (Officiant)" + SubjectSuffix)[..|head|] == head;
  }

  /** The template's role-dependent parts. */
  datatype Style = Style(senderTitle: string, iconColor: string, gradient: string)

  function StyleFor(officiant: bool): (st: Style)
    ensures st.gradient == "linear-gradient(90deg, " + st.iconColor + ", " + (if officiant then "#45a049" else "#1976D2") + ")"
  {
    if officiant then Style("Wedding Officiant", "#4CAF50", "linear-gradient(90deg, #4CAF50, #45a049)")
    else Style("Client", "#2196F3", "linear-gradient(90deg, #2196F3, #1976D2)")
  }

  /** One flag drives all three: the title, the icon colour and the button
      gradient always change together. */
  lemma StyleConsistent(officiant: bool)
    ensures StyleFor(officiant).senderTitle == "Wedding Officiant" <==> officiant
    ensures StyleFor(officiant).iconColor == "#4CAF50" <==> officiant
    ensures StyleFor(true).senderTitle != StyleFor(false).senderTitle
    ensures StyleFor(true).iconColor != StyleFor(false).iconColor
    ensures StyleFor(true).gradient != StyleFor(false).gradient
  {
    assert StyleFor(true).iconColor[1] != StyleFor(false).iconColor[1];
    assert StyleFor(true).gradient[24] != StyleFor(false).gradient[24];
  }

  /** The mail sendOfflineMessageNotification composes. */
  datatype Mail = Mail(to: string, subject: string, greeting: string, preview: string, style: Style)

  datatype Outcome = Outcome(result: bool, mail: Option<Mail>)

  /** sendOfflineMessageNotification: no mail and false for an unknown
      recipient or one without an email, and for absent content (reading its
      length throws and the catch answers false); otherwise the composed
      mail, and the result is whether the transport accepted it (a thrown
      error is false). */
  function OfflineNotification(users: map<Id, User>, recipientId: Id, senderName: string,
                               senderRole: string, content: Option<string>, delivered: bool): (o: Outcome)
    ensures o.mail.None? <==> recipientId !in users || users[recipientId].email == "" || content.None?
    ensures o.result ==> o.mail.Some? && delivered
    ensures o.mail.Some? ==>
      && o.result == delivered
      && o.mail.value.to == users[recipientId].email
      && o.mail.value.greeting == RecipientName(users[recipientId])
      && o.mail.value.preview == Preview(content.value)
      && o.mail.value.subject == Subject(senderName, IsOfficiantMessage(senderRole))
      && o.mail.value.style == StyleFor(IsOfficiantMessage(senderRole))
  {
    if recipientId !in users || users[recipientId].email == "" then Outcome(false, None)
    else if content.None? then Outcome(false, None)
    else
      var u := users[recipientId];
      var officiant := IsOfficiantMessage(senderRole);
      Outcome(delivered, Some(Mail(u.email, Subject(senderName, officiant), RecipientName(u),
                                   Preview(content.value), StyleFor(officiant))))
  }
}
