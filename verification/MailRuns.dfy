/** What the mailboxes of a live session guarantee over whole runs. */
module MailRuns {
  import opened ControlTypes
  import opened Mailboxes

  datatype Op =
    | Submit(m: Submission, at: int)
    | Read(key: Key, controlOnly: bool, at: int)
    | Ack(key: Key, cursor: nat, controlOnly: bool)

  function Step(ttl: Ttl, mail: Mail, op: Op): Mail {
    match op
    case Submit(m, at) => Enqueue(mail, m, at).0
    case Read(key, controlOnly, at) => Take(mail, key, controlOnly, at, ttl).0
    case Ack(key, cursor, controlOnly) => Acknowledge(mail, key, cursor, controlOnly).0
  }

  function Run(ttl: Ttl, ops: seq<Op>): Mail {
    if ops == [] then NO_MAIL else Step(ttl, Run(ttl, ops[..|ops| - 1]), ops[|ops| - 1])
  }

  /** The receipt of the i-th operation, a submission. */
  function ReceiptAt(ttl: Ttl, ops: seq<Op>, i: nat): Receipt
    requires i < |ops| && ops[i].Submit?
  {
    Enqueue(Run(ttl, ops[..i]), ops[i].m, ops[i].at).1
  }

  /** The i-th operation put a new message in a queue or mailbox. */
  predicate Queued(ttl: Ttl, ops: seq<Op>, i: nat) {
    && i < |ops| && ops[i].Submit?
    && ReceiptAt(ttl, ops, i).Acknowledged? && !ReceiptAt(ttl, ops, i).duplicate
  }

  lemma QueuedInPrefix(ttl: Ttl, ops: seq<Op>, n: nat, i: nat)
    requires i < n <= |ops|
    ensures Queued(ttl, ops[..n], i) <==> Queued(ttl, ops, i)
    ensures ops[i].Submit? ==> ReceiptAt(ttl, ops[..n], i) == ReceiptAt(ttl, ops, i)
  {
    assert ops[..n][..i] == ops[..i];
  }

  /** A step changes a stream's record only by queueing a message on it, with a
      larger number; delivery counters never go back. */
  lemma StepKeepsRecord(ttl: Ttl, mail: Mail, op: Op, source: Stream, key: Key)
    ensures mail.Cursor(key) <= Step(ttl, mail, op).Cursor(key)
    ensures source in mail.accepted ==>
      var after := Step(ttl, mail, op).accepted;
      && source in after
      && mail.accepted[source].content.number <= after[source].content.number
      && (after[source] == mail.accepted[source]
          || (op.Submit? && op.m.Source() == source && !Enqueue(mail, op.m, op.at).1.SequenceOlder?
              && Enqueue(mail, op.m, op.at).1 == Acknowledged(mail.Cursor(op.m.Target()) + 1, false)))
  {
  }

  lemma {:induction false} QueuedIsRemembered(ttl: Ttl, ops: seq<Op>, i: nat)
    requires Queued(ttl, ops, i)
    ensures var mail := Run(ttl, ops);
      && ops[i].m.Source() in mail.accepted
      && ops[i].m.number <= mail.accepted[ops[i].m.Source()].content.number
      && ReceiptAt(ttl, ops, i).cursor <= mail.Cursor(ops[i].m.Target())
  {
    var n := |ops| - 1;
    if i < n {
      QueuedInPrefix(ttl, ops, n, i);
      QueuedIsRemembered(ttl, ops[..n], i);
      StepKeepsRecord(ttl, Run(ttl, ops[..n]), ops[n], ops[i].m.Source(), ops[i].m.Target());
    }
  }

  /** Main result: on every sender stream the numbers of the queued messages
      strictly increase, and so do the cursors of every recipient. Hence no
      content is ever queued twice. */
  lemma QueuedInOrder(ttl: Ttl, ops: seq<Op>, i: nat, j: nat)
    requires i < j && Queued(ttl, ops, i) && Queued(ttl, ops, j)
    ensures ops[i].m.Source() == ops[j].m.Source() ==> ops[i].m.number < ops[j].m.number
    ensures ops[i].m.Target() == ops[j].m.Target() ==>
      ReceiptAt(ttl, ops, i).cursor < ReceiptAt(ttl, ops, j).cursor
  {
    QueuedInPrefix(ttl, ops, j, i);
    QueuedIsRemembered(ttl, ops[..j], i);
  }

  lemma {:induction false} LastQueuedIsKept(ttl: Ttl, ops: seq<Op>, i: nat)
    requires Queued(ttl, ops, i)
    requires forall j | i < j < |ops| && Queued(ttl, ops, j) :: ops[j].m.Source() != ops[i].m.Source()
    ensures var source := ops[i].m.Source();
      && source in Run(ttl, ops).accepted
      && Run(ttl, ops).accepted[source] == Accepted(ops[i].m, ReceiptAt(ttl, ops, i).cursor)
  {
    var n := |ops| - 1;
    if i < n {
      QueuedInPrefix(ttl, ops, n, i);
      forall j | i < j < n && Queued(ttl, ops[..n], j) ensures ops[..n][j].m.Source() != ops[i].m.Source() {
        QueuedInPrefix(ttl, ops, n, j);
      }
      LastQueuedIsKept(ttl, ops[..n], i);
      StepKeepsRecord(ttl, Run(ttl, ops[..n]), ops[n], ops[i].m.Source(), ops[i].m.Target());
      if ops[n].Submit? && ops[n].m.Source() == ops[i].m.Source() {
        assert !Queued(ttl, ops, n);
      }
    }
  }

  /** Main result: re-sending the last message queued on a stream, any number of
      times and whatever happened to the queues in between, returns its original
      cursor and changes nothing. A retry after a lost receipt enqueues once. */
  lemma {:induction false} RetryChangesNothing(ttl: Ttl, ops: seq<Op>, i: nat, at: int)
    requires Queued(ttl, ops, i)
    requires forall j | i < j < |ops| && Queued(ttl, ops, j) :: ops[j].m.Source() != ops[i].m.Source()
    ensures Enqueue(Run(ttl, ops), ops[i].m, at)
      == (Run(ttl, ops), Acknowledged(ReceiptAt(ttl, ops, i).cursor, true))
  {
    LastQueuedIsKept(ttl, ops, i);
  }

  /** Every native command of a sender goes to one recipient. */
  ghost predicate Routed(ops: seq<Op>) {
    forall i, j | 0 <= i < |ops| && 0 <= j < |ops| && ops[i].Submit? && ops[j].Submit?
      && ops[i].m.kind == ControlCommand && ops[j].m.kind == ControlCommand
      && ops[i].m.Source() == ops[j].m.Source() ::
      ops[i].m.recipient == ops[j].m.recipient
  }

  /** Whatever sits in a control mailbox was submitted. */
  lemma {:induction false} MailboxWasSubmitted(ttl: Ttl, ops: seq<Op>, key: Key) returns (i: nat)
    requires key in Run(ttl, ops).control
    ensures i < |ops| && ops[i].Submit? && ops[i].m == Run(ttl, ops).control[key].content
  {
    var n := |ops| - 1;
    var mail := Run(ttl, ops[..n]);
    if key in mail.control && mail.control[key] == Run(ttl, ops).control[key] {
      i := MailboxWasSubmitted(ttl, ops[..n], key);
    } else {
      i := n;
    }
  }

  lemma RoutedSubmission(ttl: Ttl, ops: seq<Op>, n: nat)
    requires Routed(ops) && n < |ops| && ops[n].Submit? && MailInv(Run(ttl, ops[..n]))
    ensures OneControlRoute(Run(ttl, ops[..n]), ops[n].m)
  {
    var mail := Run(ttl, ops[..n]);
    if ops[n].m.kind == ControlCommand {
      forall key | key in mail.control && mail.control[key].content.Source() == ops[n].m.Source()
        ensures key == ops[n].m.Target()
      {
        assert ControlFits(mail, key);
        var i := MailboxWasSubmitted(ttl, ops[..n], key);
        assert ops[i].Submit?;
      }
    }
  }

  lemma {:induction false} RunKeepsInv(ttl: Ttl, ops: seq<Op>)
    requires Routed(ops)
    ensures MailInv(Run(ttl, ops))
  {
    if ops != [] {
      var n := |ops| - 1;
      var mail := Run(ttl, ops[..n]);
      RunKeepsInv(ttl, ops[..n]);
      match ops[n]
      case Submit(m, at) =>
        RoutedSubmission(ttl, ops, n);
        EnqueueKeepsInv(mail, m, at);
      case Read(key, controlOnly, at) => TakeKeepsInv(mail, key, controlOnly, at, ttl);
      case Ack(key, cursor, controlOnly) => AcknowledgeKeepsInv(mail, key, cursor, controlOnly);
    }
  }

  /** Main result: a control mailbox that is not empty holds the newest native
      command its sender ever got accepted. */
  lemma MailboxHoldsNewest(ttl: Ttl, ops: seq<Op>, key: Key, i: nat)
    requires Routed(ops) && key in Run(ttl, ops).control
    requires Queued(ttl, ops, i)
    requires ops[i].m.Source() == Run(ttl, ops).control[key].content.Source()
    ensures ops[i].m.number <= Run(ttl, ops).control[key].content.number
  {
    RunKeepsInv(ttl, ops);
    assert ControlFits(Run(ttl, ops), key);
    QueuedIsRemembered(ttl, ops, i);
  }
}
