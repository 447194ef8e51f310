/** The signaling service's queues: one per recipient of a session, one
    latest-command mailbox per vehicle, a delivery counter per recipient and the
    record of the last accepted message of every sender stream. */
module Mailboxes {
  import opened ControlTypes

  datatype Kind =
    | WebrtcOffer | WebrtcAnswer | IceCandidate | MediaCapabilities | MediaFallback
    | ConnectionStatus | Telemetry | MediaStatus | SessionEvent | ControlCommand

  /** A recipient of a session. */
  datatype Key = Key(session: nat, who: string)

  /** A sender of a session; native control commands are a stream of their own. */
  datatype Stream = Stream(session: nat, sender: string, native: bool)

  /** What a sender submits. Sending the same submission again is a retry. */
  datatype Submission = Submission(
    session: nat, sender: string, recipient: string, kind: Kind, number: nat, sentAt: int, payload: string)
  {
    function Target(): Key {
      Key(session, recipient)
    }

    function Source(): Stream {
      Stream(session, sender, kind == ControlCommand)
    }
  }

  datatype Message = Message(content: Submission, queuedAt: int, cursor: nat)

  /** The fingerprint is the content itself. */
  datatype Accepted = Accepted(content: Submission, cursor: nat)

  datatype Mail = Mail(
    queues: map<Key, seq<Message>>, control: map<Key, Message>,
    accepted: map<Stream, Accepted>, cursors: map<Key, nat>)
  {
    function Queue(key: Key): seq<Message> {
      if key in queues then queues[key] else []
    }

    function Cursor(key: Key): nat {
      if key in cursors then cursors[key] else 0
    }
  }

  const NO_MAIL: Mail := Mail(map[], map[], map[], map[])

  datatype Receipt = Acknowledged(cursor: nat, duplicate: bool) | SequenceOlder | SequenceReused

  /** The lifetimes of queued messages and of a command in the mailbox. */
  datatype Ttl = Ttl(messageMs: int, controlMs: int)

  // ---------------------------------------------------------------------
  // The operations as functions
  // ---------------------------------------------------------------------

  function Enqueue(mail: Mail, m: Submission, now: int): (Mail, Receipt) {
    var source := m.Source();
    if source in mail.accepted && m.number < mail.accepted[source].content.number then (mail, SequenceOlder)
    else if source in mail.accepted && m.number == mail.accepted[source].content.number then
      if m != mail.accepted[source].content then (mail, SequenceReused)
      else (mail, Acknowledged(mail.accepted[source].cursor, true))
    else
      var key := m.Target();
      var cursor := mail.Cursor(key) + 1;
      var message := Message(m, now, cursor);
      var counted := mail.(
        cursors := mail.cursors[key := cursor],
        accepted := mail.accepted[source := Accepted(m, cursor)]);
      (if m.kind == ControlCommand
       then counted.(control := mail.control[key := message])
       else counted.(queues := mail.queues[key := mail.Queue(key) + [message]]),
       Acknowledged(cursor, false))
  }

  /** The messages queued less than `ttl` ago, in order. */
  function Live(queue: seq<Message>, now: int, ttl: int): seq<Message> {
    if queue == [] then []
    else
      var rest := Live(queue[..|queue| - 1], now, ttl);
      if now - queue[|queue| - 1].queuedAt >= ttl then rest else rest + [queue[|queue| - 1]]
  }

  /** The messages after the acknowledged cursor, in order. */
  function Unacknowledged(queue: seq<Message>, cursor: nat): seq<Message> {
    if queue == [] then []
    else
      var rest := Unacknowledged(queue[..|queue| - 1], cursor);
      if queue[|queue| - 1].cursor <= cursor then rest else rest + [queue[|queue| - 1]]
  }

  function SetQueue(queues: map<Key, seq<Message>>, key: Key, queue: seq<Message>): map<Key, seq<Message>> {
    if queue == [] then queues - {key} else queues[key := queue]
  }

  function Insert(sorted: seq<Message>, m: Message): seq<Message> {
    if sorted == [] || sorted[|sorted| - 1].cursor <= m.cursor then sorted + [m]
    else Insert(sorted[..|sorted| - 1], m) + [sorted[|sorted| - 1]]
  }

  function SortByCursor(values: seq<Message>): seq<Message> {
    if values == [] then [] else Insert(SortByCursor(values[..|values| - 1]), values[|values| - 1])
  }

  function DropExpiredControl(control: map<Key, Message>, key: Key, now: int, ttl: int): map<Key, Message> {
    if key in control && now - control[key].queuedAt >= ttl then control - {key} else control
  }

  /** What a push connection reads without consuming: everything for the
      recipient, or only the control mailbox, in delivery order. Expired entries
      are dropped on the way. */
  function Take(mail: Mail, key: Key, controlOnly: bool, now: int, ttl: Ttl): (Mail, seq<Message>) {
    var control := DropExpiredControl(mail.control, key, now, ttl.controlMs);
    var queue := Live(mail.Queue(key), now, ttl.messageMs);
    var taken := mail.(control := control, queues := SetQueue(mail.queues, key, queue));
    (taken,
     SortByCursor((if key in control then [control[key]] else []) + (if controlOnly then [] else queue)))
  }

  function Acknowledge(mail: Mail, key: Key, cursor: nat, controlOnly: bool): (Mail, nat) {
    var queue := mail.Queue(key);
    var kept := if controlOnly then queue else Unacknowledged(queue, cursor);
    var read := key in mail.control && mail.control[key].cursor <= cursor;
    UnacknowledgedShrinks(queue, cursor);
    (mail.(
       queues := SetQueue(mail.queues, key, kept),
       control := if read then mail.control - {key} else mail.control),
     |queue| - |kept| + (if read then 1 else 0))
  }

  lemma UnacknowledgedShrinks(queue: seq<Message>, cursor: nat)
    ensures |Unacknowledged(queue, cursor)| <= |queue|
  {
  }

  /** Everything a closed session leaves behind is dropped. */
  function Erase(mail: Mail, session: nat, driver: string, vehicle: string): Mail {
    var keys := {Key(session, driver), Key(session, vehicle)};
    var streams := {
      Stream(session, driver, false), Stream(session, vehicle, false), Stream(session, driver, true)};
    Mail(mail.queues - keys, mail.control - keys, mail.accepted - streams, mail.cursors - keys)
  }

  // ---------------------------------------------------------------------
  // The object behind the service's lock
  // ---------------------------------------------------------------------

  class SignalingMailboxes {
    const ttl: Ttl
    var queues: map<Key, seq<Message>>
    var control: map<Key, Message>
    var accepted: map<Stream, Accepted>
    var cursors: map<Key, nat>

    ghost function View(): Mail
      reads this
    {
      Mail(queues, control, accepted, cursors)
    }

    /** No stored queue is empty: the source erases a key with its last message. */
    ghost predicate Tidy()
      reads this
    {
      forall key | key in queues :: queues[key] != []
    }

    constructor (ttl: Ttl)
      ensures this.ttl == ttl && View() == NO_MAIL && Tidy()
    {
      this.ttl := ttl;
      queues, control, accepted, cursors := map[], map[], map[], map[];
    }

    method Submit(m: Submission, now: int) returns (receipt: Receipt)
      requires Tidy()
      modifies this
      ensures Tidy()
      ensures (View(), receipt) == Enqueue(old(View()), m, now)
    {
      var source := m.Source();
      if source in accepted {
        var last := accepted[source];
        if m.number < last.content.number {
          return SequenceOlder;
        }
        if m.number == last.content.number {
          if m != last.content {
            return SequenceReused;
          }
          return Acknowledged(last.cursor, true);
        }
      }
      var key := m.Target();
      var cursor := (if key in cursors then cursors[key] else 0) + 1;
      cursors := cursors[key := cursor];
      var message := Message(m, now, cursor);
      if m.kind == ControlCommand {
        control := control[key := message];
      } else {
        var queue := if key in queues then queues[key] else [];
        queues := queues[key := queue + [message]];
      }
      accepted := accepted[source := Accepted(m, cursor)];
      return Acknowledged(cursor, false);
    }

    method DropExpired(key: Key, now: int)
      requires Tidy()
      modifies this`queues, this`control
      ensures Tidy()
      ensures View() == Take(old(View()), key, true, now, ttl).0
    {
      if key in control && now - control[key].queuedAt >= ttl.controlMs {
        control := control - {key};
      }
      if key in queues {
        var queue := queues[key];
        var live := [];
        for i := 0 to |queue|
          invariant live == Live(queue[..i], now, ttl.messageMs)
        {
          assert queue[..i + 1][..i] == queue[..i];
          if !(now - queue[i].queuedAt >= ttl.messageMs) {
            live := live + [queue[i]];
          }
        }
        assert queue[..|queue|] == queue;
        if live == [] {
          queues := queues - {key};
        } else {
          queues := queues[key := live];
        }
      } else {
        assert queues - {key} == queues;
      }
    }

    method ReadForPush(key: Key, controlOnly: bool, now: int) returns (values: seq<Message>)
      requires Tidy()
      modifies this`queues, this`control
      ensures Tidy()
      ensures (View(), values) == Take(old(View()), key, controlOnly, now, ttl)
    {
      ghost var live := Live(View().Queue(key), now, ttl.messageMs);
      DropExpired(key, now);
      assert live == if key in queues then queues[key] else [];
      values := [];
      if key in control {
        values := values + [control[key]];
      }
      if !controlOnly && key in queues {
        values := values + queues[key];
      }
      ghost var first := if key in control then [control[key]] else [];
      assert values == first + (if controlOnly then [] else live);
      values := Sorted(values);
    }

    static method Sorted(values: seq<Message>) returns (sorted: seq<Message>)
      ensures sorted == SortByCursor(values)
    {
      sorted := [];
      for i := 0 to |values|
        invariant sorted == SortByCursor(values[..i])
      {
        assert values[..i + 1][..i] == values[..i];
        var j := |sorted|;
        assert sorted[..j] == sorted && sorted[j..] == [];
        while j > 0 && !(sorted[j - 1].cursor <= values[i].cursor)
          invariant 0 <= j <= |sorted|
          invariant Insert(sorted, values[i]) == Insert(sorted[..j], values[i]) + sorted[j..]
        {
          assert sorted[..j][..j - 1] == sorted[..j - 1];
          assert [sorted[j - 1]] + sorted[j..] == sorted[j - 1..];
          j := j - 1;
        }
        sorted := sorted[..j] + [values[i]] + sorted[j..];
      }
      assert values[..|values|] == values;
    }

    method AcknowledgeDelivery(key: Key, cursor: nat, controlOnly: bool) returns (count: nat)
      requires Tidy()
      modifies this`queues, this`control
      ensures Tidy()
      ensures (View(), count) == Acknowledge(old(View()), key, cursor, controlOnly)
    {
      count := 0;
      if !controlOnly && key in queues {
        var queue := queues[key];
        var kept := [];
        for i := 0 to |queue|
          invariant kept == Unacknowledged(queue[..i], cursor)
          invariant count + |kept| == i
        {
          assert queue[..i + 1][..i] == queue[..i];
          if queue[i].cursor <= cursor {
            count := count + 1;
          } else {
            kept := kept + [queue[i]];
          }
        }
        assert queue[..|queue|] == queue;
        if kept == [] {
          queues := queues - {key};
        } else {
          queues := queues[key := kept];
        }
      } else {
        assert key !in queues ==> queues - {key} == queues;
        assert key in queues ==> queues[key := queues[key]] == queues;
      }
      if key in control && control[key].cursor <= cursor {
        control := control - {key};
        count := count + 1;
      }
    }

    method EraseSession(session: nat, driver: string, vehicle: string)
      requires Tidy()
      modifies this
      ensures Tidy()
      ensures View() == Erase(old(View()), session, driver, vehicle)
    {
      var keys := {Key(session, driver), Key(session, vehicle)};
      queues := queues - keys;
      control := control - keys;
      accepted := accepted - {
        Stream(session, driver, false), Stream(session, vehicle, false), Stream(session, driver, true)};
      cursors := cursors - keys;
    }
  }

  // ---------------------------------------------------------------------
  // What every sequence of operations keeps
  // ---------------------------------------------------------------------

  ghost predicate Ascending(queue: seq<Message>) {
    forall i, j | 0 <= i < j < |queue| :: queue[i].cursor < queue[j].cursor
  }

  ghost predicate QueueFits(mail: Mail, key: Key) {
    && Ascending(mail.Queue(key))
    && (forall i | 0 <= i < |mail.Queue(key)| ::
          var m := mail.Queue(key)[i];
          0 < m.cursor <= mail.Cursor(key) && m.content.Target() == key && m.content.kind != ControlCommand)
  }

  /** The mailbox holds the last accepted native command of its sender. */
  ghost predicate ControlFits(mail: Mail, key: Key)
    requires key in mail.control
  {
    var m := mail.control[key];
    && m.content.Target() == key && m.content.kind == ControlCommand
    && 0 < m.cursor <= mail.Cursor(key)
    && (forall i | 0 <= i < |mail.Queue(key)| :: mail.Queue(key)[i].cursor != m.cursor)
    && m.content.Source() in mail.accepted
    && mail.accepted[m.content.Source()] == Accepted(m.content, m.cursor)
  }

  ghost predicate AcceptedFits(mail: Mail, source: Stream)
    requires source in mail.accepted
  {
    var a := mail.accepted[source];
    a.content.Source() == source && 0 < a.cursor <= mail.Cursor(a.content.Target())
  }

  /** A sender's native commands all go to one recipient; the routing check of
      the service guarantees it. */
  ghost predicate OneControlRoute(mail: Mail, m: Submission) {
    m.kind == ControlCommand ==>
      forall key | key in mail.control && mail.control[key].content.Source() == m.Source() :: key == m.Target()
  }

  ghost predicate MailInv(mail: Mail) {
    && (forall key :: QueueFits(mail, key))
    && (forall key | key in mail.control :: ControlFits(mail, key))
    && (forall source | source in mail.accepted :: AcceptedFits(mail, source))
  }

  lemma EnqueueKeepsQueues(mail: Mail, m: Submission, now: int, key: Key)
    requires MailInv(mail)
    ensures QueueFits(Enqueue(mail, m, now).0, key)
  {
    assert QueueFits(mail, key);
  }

  lemma EnqueueKeepsControl(mail: Mail, m: Submission, now: int, key: Key)
    requires MailInv(mail) && OneControlRoute(mail, m)
    requires key in Enqueue(mail, m, now).0.control
    ensures ControlFits(Enqueue(mail, m, now).0, key)
  {
    assert QueueFits(mail, key);
    if key in mail.control {
      assert ControlFits(mail, key);
    }
  }

  lemma EnqueueKeepsInv(mail: Mail, m: Submission, now: int)
    requires MailInv(mail) && OneControlRoute(mail, m)
    ensures MailInv(Enqueue(mail, m, now).0)
  {
    var after := Enqueue(mail, m, now).0;
    forall key ensures QueueFits(after, key) {
      EnqueueKeepsQueues(mail, m, now, key);
    }
    forall key | key in after.control ensures ControlFits(after, key) {
      EnqueueKeepsControl(mail, m, now, key);
    }
    forall source | source in after.accepted ensures AcceptedFits(after, source) {
      assert source in mail.accepted ==> AcceptedFits(mail, source);
    }
  }

  lemma {:induction false} LiveIsKept(queue: seq<Message>, now: int, ttl: int)
    ensures forall m :: m in Live(queue, now, ttl) <==> m in queue && now - m.queuedAt < ttl
    ensures Ascending(queue) ==> Ascending(Live(queue, now, ttl))
  {
    if queue != [] {
      LiveIsKept(queue[..|queue| - 1], now, ttl);
      assert queue == queue[..|queue| - 1] + [queue[|queue| - 1]];
    }
  }

  lemma {:induction false} UnacknowledgedIsKept(queue: seq<Message>, cursor: nat)
    ensures forall m :: m in Unacknowledged(queue, cursor) <==> m in queue && m.cursor > cursor
    ensures Ascending(queue) ==> Ascending(Unacknowledged(queue, cursor))
  {
    if queue != [] {
      UnacknowledgedIsKept(queue[..|queue| - 1], cursor);
      assert queue == queue[..|queue| - 1] + [queue[|queue| - 1]];
    }
  }

  /** Dropping messages of one recipient, in place, keeps the invariant. */
  lemma ShrinkKeepsInv(mail: Mail, key: Key, queue: seq<Message>, control: map<Key, Message>)
    requires MailInv(mail)
    requires Ascending(queue) && forall m | m in queue :: m in mail.Queue(key)
    requires control == mail.control || control == mail.control - {key}
    ensures MailInv(mail.(queues := SetQueue(mail.queues, key, queue), control := control))
  {
    var after := mail.(queues := SetQueue(mail.queues, key, queue), control := control);
    assert after.Queue(key) == queue;
    forall k ensures QueueFits(after, k) {
      assert QueueFits(mail, k);
      assert forall i | 0 <= i < |after.Queue(k)| :: after.Queue(k)[i] in mail.Queue(k);
    }
    forall k | k in after.control ensures ControlFits(after, k) {
      assert ControlFits(mail, k);
      assert forall i | 0 <= i < |after.Queue(k)| :: after.Queue(k)[i] in mail.Queue(k);
    }
    forall source | source in after.accepted ensures AcceptedFits(after, source) {
      assert AcceptedFits(mail, source);
    }
  }

  lemma TakeKeepsInv(mail: Mail, key: Key, controlOnly: bool, now: int, ttl: Ttl)
    requires MailInv(mail)
    ensures MailInv(Take(mail, key, controlOnly, now, ttl).0)
  {
    LiveIsKept(mail.Queue(key), now, ttl.messageMs);
    assert QueueFits(mail, key);
    ShrinkKeepsInv(
      mail, key, Live(mail.Queue(key), now, ttl.messageMs),
      DropExpiredControl(mail.control, key, now, ttl.controlMs));
  }

  lemma AcknowledgeKeepsInv(mail: Mail, key: Key, cursor: nat, controlOnly: bool)
    requires MailInv(mail)
    ensures MailInv(Acknowledge(mail, key, cursor, controlOnly).0)
  {
    var queue := mail.Queue(key);
    UnacknowledgedIsKept(queue, cursor);
    assert QueueFits(mail, key);
    ShrinkKeepsInv(
      mail, key, if controlOnly then queue else Unacknowledged(queue, cursor),
      if key in mail.control && mail.control[key].cursor <= cursor then mail.control - {key} else mail.control);
  }

  /** Erasing a session keeps the invariant when the session's streams are those
      of its driver and vehicle, and its vehicle has sent no native commands. */
  lemma EraseKeepsInv(mail: Mail, session: nat, driver: string, vehicle: string)
    requires MailInv(mail)
    requires forall source | source in mail.accepted && source.session == session ::
      source in {
        Stream(session, driver, false), Stream(session, vehicle, false), Stream(session, driver, true)}
    requires forall key | key in mail.control && key.session == session :: key.who in {driver, vehicle}
    ensures MailInv(Erase(mail, session, driver, vehicle))
  {
    var after := Erase(mail, session, driver, vehicle);
    forall key ensures QueueFits(after, key) {
      assert QueueFits(mail, key);
    }
    forall key | key in after.control ensures ControlFits(after, key) {
      assert ControlFits(mail, key);
      assert key.session != session;
      assert after.Queue(key) == mail.Queue(key);
    }
    forall source | source in after.accepted ensures AcceptedFits(after, source) {
      assert AcceptedFits(mail, source);
      assert source.session != session;
    }
  }

  // ---------------------------------------------------------------------
  // Delivery order
  // ---------------------------------------------------------------------

  ghost predicate InOrder(values: seq<Message>) {
    forall i, j | 0 <= i < j < |values| :: values[i].cursor <= values[j].cursor
  }

  lemma {:induction false} InsertOrders(sorted: seq<Message>, m: Message)
    requires InOrder(sorted)
    ensures InOrder(Insert(sorted, m))
    ensures multiset(Insert(sorted, m)) == multiset(sorted) + multiset{m}
  {
    if sorted != [] {
      var n := |sorted| - 1;
      assert sorted == sorted[..n] + [sorted[n]];
      if sorted[n].cursor > m.cursor {
        InsertOrders(sorted[..n], m);
        var inner := Insert(sorted[..n], m);
        forall i | 0 <= i < |inner| ensures inner[i].cursor <= sorted[n].cursor {
          assert inner[i] in multiset(sorted[..n]) + multiset{m};
        }
      }
    }
  }

  /** Whatever order the sort is given, the values come out in cursor order and
      none is lost or repeated. */
  lemma {:induction false} SortOrders(values: seq<Message>)
    ensures InOrder(SortByCursor(values))
    ensures multiset(SortByCursor(values)) == multiset(values)
  {
    if values != [] {
      var n := |values| - 1;
      SortOrders(values[..n]);
      InsertOrders(SortByCursor(values[..n]), values[n]);
      assert values == values[..n] + [values[n]];
    }
  }

  lemma {:induction false} SortOfAscending(queue: seq<Message>)
    requires Ascending(queue)
    ensures SortByCursor(queue) == queue
  {
    if queue != [] {
      var n := |queue| - 1;
      SortOfAscending(queue[..n]);
      assert queue == queue[..n] + [queue[n]];
    }
  }
}
