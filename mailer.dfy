/**
 * The mailer object (index.js:9-115): its configuration and the `sendMail`
 * entry point that composes one entry per recipient and delivers them in order.
 */
module Mailing {
  import opened Wrappers
  import opened Chapters
  import opened Compose
  import opened Dispatch
  import Decimal

  /** The configured chapters in `Object.values` order, which is `Object.keys` order. */
  function ChapterObjects(chapters: seq<(string, Chapter)>): (cs: seq<Chapter>)
    ensures |cs| == |chapters|
    ensures forall i :: 0 <= i < |chapters| ==> cs[i] == chapters[i].1
  {
    seq(|chapters|, i requires 0 <= i < |chapters| => chapters[i].1)
  }

  class Mailer {
    var appName: string
    var mailAlias: string
    var recipients: seq<Recipient>
    /** The chapter mapping, key by key in `Object.keys` order. */
    var chapters: seq<(string, Chapter)>

    /** A new mailer for the process `pid`: app name `App-<pid>`, mail alias
        `logmailer-<pid>`, no recipients and no chapters. */
    constructor (pid: nat)
      ensures appName == "App-" + Decimal.DecimalString(pid)
      ensures mailAlias == "logmailer-" + Decimal.DecimalString(pid)
      ensures recipients == [] && chapters == []
    {
      appName := "App-" + Decimal.DecimalString(pid);
      mailAlias := "logmailer-" + Decimal.DecimalString(pid);
      recipients := [];
      chapters := [];
    }

    /** `create(options)`: overwrites the whole configuration. The transport
        handle is not stored: `SendMail` receives it. */
    method Create(appName: string, mailAlias: string, recipients: seq<Recipient>, chapters: seq<(string, Chapter)>)
      modifies this
      ensures this.appName == appName && this.mailAlias == mailAlias
      ensures this.recipients == recipients && this.chapters == chapters
    {
      this.appName := appName;
      this.mailAlias := mailAlias;
      this.recipients := recipients;
      this.chapters := chapters;
    }

    /** The entries `sendMail` composes from the chapters' current state. */
    function Queue(stamp: string): seq<Composed>
      reads this, ChapterObjects(chapters), AllRefs(recipients)
    {
      ComposeAll(appName, stamp, Views(ChapterObjects(chapters)), Snapshots(recipients))
    }

    /** `sendMail(callback)`: composes every entry first, then delivers them one
        at a time. Returns the messages handed to the transport, in order, and
        what the callback receives, both as determined by the chapters' state when
        the call starts. */
    method SendMail(stamp: string, transport: Transport) returns (attempts: seq<Message>, callback: Option<map<string, string>>)
      ensures attempts == Attempts(mailAlias, old(Queue(stamp)))
      ensures callback == CallbackArgument(MailSender(mailAlias, transport, old(Queue(stamp)), map[]))
    {
      var all := Views(ChapterObjects(chapters));
      var views := Snapshots(recipients);
      var queue := ComposeMessages(appName, stamp, all, views);
      var errors;
      attempts, errors := SendQueue(mailAlias, transport, queue);
      callback := CallbackArgument(errors);
    }
  }

  /** A recipient gated on chapters that are all empty is never handed to the
      transport: no message is addressed to it unless another entry shares its
      address. */
  lemma GatedOnEmptyIsSkipped(appName: string, stamp: string, all: seq<ChapterView>, rs: seq<RecipientView>, mailAlias: string, j: nat)
    requires j < |rs| && rs[j].gate.Some?
    requires forall c :: c in rs[j].gate.value ==> c.html == ""
    requires forall i :: 0 <= i < |rs| && i != j ==> rs[i].address != rs[j].address
    ensures forall m :: m in Attempts(mailAlias, ComposeAll(appName, stamp, all, rs)) ==> m.to != rs[j].address
  {
    var queue := ComposeAll(appName, stamp, all, rs);
    SendEmailIff(appName, stamp, all, rs[j]);
    AttemptsExactlySent(mailAlias, queue);
    forall m | m in Attempts(mailAlias, queue)
      ensures m.to != rs[j].address
    {
      var i :| 0 <= i < |queue| && queue[i].sendEmail && m == MessageFor(mailAlias, queue[i]);
      ComposeForShape(appName, stamp, all, rs[i]);
    }
  }

  /** With three entries that are all sent, to distinct addresses, and a
      transport that rejects only the second, the error map has exactly the
      second address as key. */
  lemma SecondOfThreeFails(mailAlias: string, transport: Transport, queue: seq<Composed>)
    requires |queue| == 3 && queue[0].sendEmail && queue[1].sendEmail && queue[2].sendEmail
    requires queue[0].address != queue[1].address && queue[2].address != queue[1].address
    requires transport(MessageFor(mailAlias, queue[0])).Delivered?
    requires transport(MessageFor(mailAlias, queue[1])).Rejected?
    requires transport(MessageFor(mailAlias, queue[2])).Delivered?
    ensures MailSender(mailAlias, transport, queue, map[]).Keys == {queue[1].address}
  {
    ErrorKeysAreFailures(mailAlias, transport, queue);
    var failed := set i | 0 <= i < |queue| && Fails(mailAlias, transport, queue[i]) :: queue[i].address;
    assert queue[1].address in failed;
    forall k | k in failed
      ensures k == queue[1].address
    {
      var i :| 0 <= i < |queue| && Fails(mailAlias, transport, queue[i]) && queue[i].address == k;
      assert i == 1;
    }
  }
}
