/**
 * Sequential delivery, `Mailer._mailSender` (index.js:120-181): the composed
 * entries are taken from the front of the queue one at a time; an entry with
 * `sendEmail` is handed to the mail transport, a rejection is recorded under
 * the entry's address, and when the queue is empty the callback receives the
 * error map if it is non-empty and nothing otherwise.
 */
module Dispatch {
  import opened Wrappers
  import opened Compose
  import opened Seqs

  /** The message record given to the transport. */
  datatype Message = Message(to: string, from: string, subject: string, html: string)

  /** How the transport settles one message. */
  datatype Delivery = Delivered | Rejected(error: string)

  /** The transport as an oracle: how it settles each message it is given. */
  type Transport = Message -> Delivery

  /** The message sent for an entry: the subject is echoed as a top heading. */
  function MessageFor(mailAlias: string, e: Composed): (m: Message)
    ensures m.to == e.address && m.from == mailAlias && m.subject == e.subject
  {
    Message(e.address, mailAlias, e.subject, "<html><h2>" + e.subject + "</h2><div>" + e.html + "</div></html>")
  }

  /** Whether the transport rejects the entry's message (only entries that are
      sent can fail). */
  predicate Fails(mailAlias: string, transport: Transport, e: Composed) {
    e.sendEmail && transport(MessageFor(mailAlias, e)).Rejected?
  }

  /** The messages handed to the transport for a queue, in the order sent. */
  function Attempts(mailAlias: string, queue: seq<Composed>): seq<Message> {
    if queue == [] then []
    else (if queue[0].sendEmail then [MessageFor(mailAlias, queue[0])] else []) + Attempts(mailAlias, queue[1..])
  }

  /** The error map `_mailSender` ends with, given the entries still queued and
      the errors recorded so far. A later failure for the same address
      overwrites an earlier one. */
  function MailSender(mailAlias: string, transport: Transport, queue: seq<Composed>, errors: map<string, string>): map<string, string> {
    if queue == [] then errors
    else
      var e := queue[0];
      var next := if Fails(mailAlias, transport, e) then errors[e.address := transport(MessageFor(mailAlias, e)).error] else errors;
      MailSender(mailAlias, transport, queue[1..], next)
  }

  /** What the completion callback receives: the error map if it is non-empty,
      no argument otherwise. */
  function CallbackArgument(errors: map<string, string>): (r: Option<map<string, string>>)
    ensures r.None? <==> errors == map[]
    ensures r.Some? ==> r.value == errors
  {
    if |errors| > 0 then Some(errors) else None
  }

  // ---------------------------------------------------------------------------
  // The delivery loop

  /** Processes the queue front to back, one message in flight at a time. */
  method SendQueue(mailAlias: string, transport: Transport, recipientHTMLs: seq<Composed>)
    returns (attempts: seq<Message>, errors: map<string, string>)
    ensures attempts == Attempts(mailAlias, recipientHTMLs)
    ensures errors == MailSender(mailAlias, transport, recipientHTMLs, map[])
  {
    var pending := recipientHTMLs;
    errors := map[];
    attempts := [];
    while |pending| > 0
      invariant attempts + Attempts(mailAlias, pending) == Attempts(mailAlias, recipientHTMLs)
      invariant MailSender(mailAlias, transport, pending, errors) == MailSender(mailAlias, transport, recipientHTMLs, map[])
      decreases |pending|
    {
      var head := pending[0];
      if head.sendEmail {
        var message := MessageFor(mailAlias, head);
        AppendAssoc(attempts, [message], Attempts(mailAlias, pending[1..]));
        attempts := attempts + [message];
        var outcome := transport(message);
        if outcome.Rejected? {
          errors := errors[head.address := outcome.error];
        }
      }
      pending := pending[1..];
    }
  }

  // ---------------------------------------------------------------------------
  // Properties of delivery

  /** The transport is given exactly the messages of the entries with
      `sendEmail`; skipped entries never reach it. */
  lemma {:induction false} AttemptsExactlySent(mailAlias: string, queue: seq<Composed>)
    ensures forall m :: (m in Attempts(mailAlias, queue)
      <==> exists i :: 0 <= i < |queue| && queue[i].sendEmail && m == MessageFor(mailAlias, queue[i]))
  {
    if queue != [] {
      AttemptsExactlySent(mailAlias, queue[1..]);
      forall m | m in Attempts(mailAlias, queue)
        ensures exists i :: 0 <= i < |queue| && queue[i].sendEmail && m == MessageFor(mailAlias, queue[i])
      {
        if !(queue[0].sendEmail && m == MessageFor(mailAlias, queue[0])) {
          assert m in Attempts(mailAlias, queue[1..]);
          var i :| 0 <= i < |queue[1..]| && queue[1..][i].sendEmail && m == MessageFor(mailAlias, queue[1..][i]);
          assert queue[i + 1] == queue[1..][i];
        }
      }
      forall m | exists i :: 0 <= i < |queue| && queue[i].sendEmail && m == MessageFor(mailAlias, queue[i])
        ensures m in Attempts(mailAlias, queue)
      {
        var i :| 0 <= i < |queue| && queue[i].sendEmail && m == MessageFor(mailAlias, queue[i]);
        if i > 0 {
          assert queue[1..][i - 1] == queue[i];
        }
      }
    }
  }

  /** Sending a queue in two parts sends the parts' messages in order. */
  lemma {:induction false} AttemptsAppend(mailAlias: string, a: seq<Composed>, b: seq<Composed>)
    ensures Attempts(mailAlias, a + b) == Attempts(mailAlias, a) + Attempts(mailAlias, b)
  {
    if a == [] {
      assert a + b == b;
    } else {
      assert (a + b)[1..] == a[1..] + b;
      AttemptsAppend(mailAlias, a[1..], b);
      var first := if a[0].sendEmail then [MessageFor(mailAlias, a[0])] else [];
      AppendAssoc(first, Attempts(mailAlias, a[1..]), Attempts(mailAlias, b));
    }
  }

  /** An address is a key of the final error map exactly when it was already
      recorded or some queued entry for it was sent and rejected. */
  lemma {:induction false} FailedKeys(mailAlias: string, transport: Transport, queue: seq<Composed>, errors: map<string, string>, k: string)
    ensures k in MailSender(mailAlias, transport, queue, errors)
      <==> k in errors || exists i :: 0 <= i < |queue| && Fails(mailAlias, transport, queue[i]) && queue[i].address == k
  {
    if queue != [] {
      var e := queue[0];
      var next := if Fails(mailAlias, transport, e) then errors[e.address := transport(MessageFor(mailAlias, e)).error] else errors;
      FailedKeys(mailAlias, transport, queue[1..], next, k);
      if exists i :: 0 <= i < |queue[1..]| && Fails(mailAlias, transport, queue[1..][i]) && queue[1..][i].address == k {
        var i :| 0 <= i < |queue[1..]| && Fails(mailAlias, transport, queue[1..][i]) && queue[1..][i].address == k;
        assert queue[i + 1] == queue[1..][i];
      }
      if exists i :: 0 <= i < |queue| && Fails(mailAlias, transport, queue[i]) && queue[i].address == k {
        var i :| 0 <= i < |queue| && Fails(mailAlias, transport, queue[i]) && queue[i].address == k;
        if i > 0 {
          assert queue[1..][i - 1] == queue[i];
        }
      }
    }
  }

  /** Every recorded error is the transport's error for a rejected entry of
      that address. */
  lemma {:induction false} ErrorsComeFromFailures(mailAlias: string, transport: Transport, queue: seq<Composed>, errors: map<string, string>, k: string)
    requires k in MailSender(mailAlias, transport, queue, errors)
    ensures (k in errors && MailSender(mailAlias, transport, queue, errors)[k] == errors[k])
      || exists i :: 0 <= i < |queue| && Fails(mailAlias, transport, queue[i]) && queue[i].address == k
           && MailSender(mailAlias, transport, queue, errors)[k] == transport(MessageFor(mailAlias, queue[i])).error
  {
    if queue != [] {
      var e := queue[0];
      var next := if Fails(mailAlias, transport, e) then errors[e.address := transport(MessageFor(mailAlias, e)).error] else errors;
      ErrorsComeFromFailures(mailAlias, transport, queue[1..], next, k);
      var result := MailSender(mailAlias, transport, queue, errors);
      if exists i :: 0 <= i < |queue[1..]| && Fails(mailAlias, transport, queue[1..][i]) && queue[1..][i].address == k
                     && result[k] == transport(MessageFor(mailAlias, queue[1..][i])).error {
        var i :| 0 <= i < |queue[1..]| && Fails(mailAlias, transport, queue[1..][i]) && queue[1..][i].address == k
                 && result[k] == transport(MessageFor(mailAlias, queue[1..][i])).error;
        assert queue[i + 1] == queue[1..][i];
      }
    }
  }

  /** Starting from no errors, the final map's keys are exactly the addresses
      whose delivery was rejected. */
  lemma ErrorKeysAreFailures(mailAlias: string, transport: Transport, queue: seq<Composed>)
    ensures MailSender(mailAlias, transport, queue, map[]).Keys
      == set i | 0 <= i < |queue| && Fails(mailAlias, transport, queue[i]) :: queue[i].address
  {
    var result := MailSender(mailAlias, transport, queue, map[]);
    forall k
      ensures k in result <==> exists i :: 0 <= i < |queue| && Fails(mailAlias, transport, queue[i]) && queue[i].address == k
    {
      FailedKeys(mailAlias, transport, queue, map[], k);
    }
  }

  /** The callback gets no argument exactly when every message handed to the
      transport was delivered. */
  lemma CallbackEmptyIffAllDelivered(mailAlias: string, transport: Transport, queue: seq<Composed>)
    ensures CallbackArgument(MailSender(mailAlias, transport, queue, map[])).None?
      <==> forall i :: 0 <= i < |queue| && queue[i].sendEmail ==> transport(MessageFor(mailAlias, queue[i])).Delivered?
  {
    var result := MailSender(mailAlias, transport, queue, map[]);
    if exists i :: 0 <= i < |queue| && Fails(mailAlias, transport, queue[i]) {
      var i :| 0 <= i < |queue| && Fails(mailAlias, transport, queue[i]);
      FailedKeys(mailAlias, transport, queue, map[], queue[i].address);
    } else if result != map[] {
      var k :| k in result;
      FailedKeys(mailAlias, transport, queue, map[], k);
    }
  }
}
