/** The update notification of mail/mail.go: a fixed message template and
    one hand-off to an SMTP client, which is an oracle here. */
module Mail {
  import opened Wrappers
  import opened Seqs
  import opened Text
  import opened Settings

  const Subject: string := "Subject: [ nyfiken ] "
  const MimeVersion: string := "MIME-Version: 1.0"
  const TransferEncoding: string := "Content-Transfer-Encoding: 8bit"
  const ContentType: string := "Content-Type: text/html; charset=\"UTF-8\""
  const Trailer: string := "</body><html>"

  /** The line that links to the updated page. */
  function Anchor(pageUrl: Url): string
  {
    "<a href=\"" + pageUrl.text + "\">" + pageUrl.text + "</a> has been updated :) <hr>"
  }

  /** The lines before the body: the From, To and Subject headers, the
      content headers, a blank line and the link. */
  function HeadLines(from: string, receivingMail: string, pageUrl: Url): seq<string>
  {
    ["From: " + from,
     "To: " + receivingMail,
     Subject + pageUrl.host + ": update",
     MimeVersion, TransferEncoding, ContentType,
     "",
     Anchor(pageUrl)]
  }

  /** Each line followed by a newline, then `rest`. */
  function Lines(ls: seq<string>, rest: string): string
  {
    if ls == [] then rest else ls[0] + "\n" + Lines(ls[1..], rest)
  }

  /** The text handed to the SMTP client: the head lines, then the body, the
      trailer and settings.Newline. */
  function Message(from: string, receivingMail: string, pageUrl: Url, body: string): string
  {
    Lines(HeadLines(from, receivingMail, pageUrl), body + Trailer + Newline)
  }

  datatype Auth = PlainAuth(identity: string, username: string, password: string, host: string)

  /** The arguments of smtp.SendMail. */
  datatype Envelope = Envelope(server: string, auth: Auth, from: string, to: seq<string>, msg: seq<char>)

  /** What Send hands to the SMTP client. */
  function Compose(sender: SenderMail, pageUrl: Url, receivingMail: string, body: string): (e: Envelope)
    ensures e.server == sender.outServer
    ensures e.auth == PlainAuth("", sender.address, sender.password, sender.authServer)
    ensures e.from == sender.address && e.to == [receivingMail]
    ensures e.msg == Message(sender.address, receivingMail, pageUrl, body)
  {
    Envelope(sender.outServer, PlainAuth("", sender.address, sender.password, sender.authServer),
             sender.address, [receivingMail], Message(sender.address, receivingMail, pageUrl, body))
  }

  datatype MailError = SendFailed(cause: string)

  /** mail.Send: the client's error comes back wrapped, success as None. */
  function Send(sender: SenderMail, pageUrl: Url, receivingMail: string, body: string,
                smtp: Envelope -> Option<string>): (err: Option<MailError>)
    ensures err.None? <==> smtp(Compose(sender, pageUrl, receivingMail, body)).None?
    ensures err.Some? ==> err.value.cause == smtp(Compose(sender, pageUrl, receivingMail, body)).value
  {
    match smtp(Compose(sender, pageUrl, receivingMail, body))
    case None => None
    case Some(cause) => Some(SendFailed(cause))
  }

  /** Lines free of newlines come back out of Split one by one. */
  lemma {:induction false} SplitLines(ls: seq<string>, rest: string)
    requires forall i :: 0 <= i < |ls| ==> '\n' !in ls[i]
    ensures Split(Lines(ls, rest), '\n') == ls + Split(rest, '\n')
  {
    if ls != [] {
      var r := Lines(ls[1..], rest);
      assert Lines(ls, rest) == ls[0] + ['\n'] + r;
      SplitAfter(ls[0], r, '\n');
      SplitLines(ls[1..], rest);
      ConsAppend(ls, Split(rest, '\n'));
    }
  }

  lemma SubjectHasNoNewline()
    ensures '\n' !in Subject && '\n' !in MimeVersion
  {
  }

  lemma ContentHeadersHaveNoNewline()
    ensures '\n' !in TransferEncoding && '\n' !in ContentType
  {
  }

  /** Read back line by line, the message is its head lines, as long as the
      sender address, the recipient, the host and the URL hold no newline. */
  lemma MessageLines(from: string, receivingMail: string, pageUrl: Url, body: string)
    requires '\n' !in from && '\n' !in receivingMail
    requires '\n' !in pageUrl.host && '\n' !in pageUrl.text
    ensures |Split(Message(from, receivingMail, pageUrl, body), '\n')| >= 9
    ensures Split(Message(from, receivingMail, pageUrl, body), '\n')[..8]
         == HeadLines(from, receivingMail, pageUrl)
    ensures Split(Message(from, receivingMail, pageUrl, body), '\n')[0] == "From: " + from
    ensures Split(Message(from, receivingMail, pageUrl, body), '\n')[1] == "To: " + receivingMail
    ensures Split(Message(from, receivingMail, pageUrl, body), '\n')[2]
         == "Subject: [ nyfiken ] " + pageUrl.host + ": update"
    ensures Split(Message(from, receivingMail, pageUrl, body), '\n')[3..6]
         == ["MIME-Version: 1.0", "Content-Transfer-Encoding: 8bit",
             "Content-Type: text/html; charset=\"UTF-8\""]
    ensures Split(Message(from, receivingMail, pageUrl, body), '\n')[6] == ""
  {
    var ls := HeadLines(from, receivingMail, pageUrl);
    SubjectHasNoNewline();
    ContentHeadersHaveNoNewline();
    assert '\n' !in "From: " && '\n' !in "To: " && '\n' !in ": update";
    assert '\n' !in Anchor(pageUrl);
    SplitLines(ls, body + Trailer + Newline);
  }

  /** The message closes with the body, the trailer and a newline. */
  lemma MessageEndsWithBody(ls: seq<string>, body: string)
    ensures var msg := Lines(ls, body + Trailer + Newline);
      var n := |Trailer + Newline|;
      && |msg| >= |body| + n
      && msg[|msg| - n..] == Trailer + Newline
      && msg[|msg| - n - |body|..|msg| - n] == body
  {
    var rest := body + Trailer + Newline;
    var msg := Lines(ls, rest);
    LinesEndWithRest(ls, rest);
    var k := |msg| - |rest|;
    assert msg[k..] == rest;
    assert msg[k + |body|..] == rest[|body|..];
    assert msg[k..k + |body|] == rest[..|body|];
  }

  /** What Lines builds ends with `rest`. */
  lemma {:induction false} LinesEndWithRest(ls: seq<string>, rest: string)
    ensures |Lines(ls, rest)| >= |rest| && Lines(ls, rest)[|Lines(ls, rest)| - |rest|..] == rest
  {
    if ls != [] {
      var tail := Lines(ls[1..], rest);
      LinesEndWithRest(ls[1..], rest);
      var head := ls[0] + "\n";
      assert Lines(ls, rest) == head + tail;
      assert (head + tail)[|head + tail| - |rest|..] == tail[|tail| - |rest|..];
    }
  }

  /** The newline check above cannot be dropped: a recipient `a`, a newline
      and `b` puts `b` on a line of its own right after the To line, where a
      reader takes it for one more header. */
  lemma RecipientCanAddHeader(from: string, a: string, b: string, pageUrl: Url, body: string)
    requires '\n' !in from && '\n' !in a && '\n' !in b
    ensures |Split(Message(from, a + "\n" + b, pageUrl, body), '\n')| > 2
    ensures Split(Message(from, a + "\n" + b, pageUrl, body), '\n')[1] == "To: " + a
    ensures Split(Message(from, a + "\n" + b, pageUrl, body), '\n')[2] == b
  {
    var ls := HeadLines(from, a + "\n" + b, pageUrl);
    var rest := Lines(ls[2..], body + Trailer + Newline);
    assert Lines(ls[1..], body + Trailer + Newline) == ls[1] + "\n" + rest;
    assert ls[1] + "\n" + rest == ("To: " + a) + ['\n'] + (b + ['\n'] + rest);
    assert Message(from, a + "\n" + b, pageUrl, body) == ls[0] + ['\n'] + (ls[1] + "\n" + rest);
    assert '\n' !in "From: " && '\n' !in "To: ";
    SplitAfter(b, rest, '\n');
    SplitAfter("To: " + a, b + ['\n'] + rest, '\n');
    SplitAfter(ls[0], ls[1] + "\n" + rest, '\n');
  }
}
