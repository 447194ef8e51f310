/** Delivery to the driver of one session: pushes that are repeated until they are
    acknowledged, over connections that may break and be replaced at any moment.
    The driver's console turns this into exactly-once, in-order delivery. */
module Delivery {
  import opened ControlTypes
  import opened Mailboxes

  // ---------------------------------------------------------------------
  // The driver's inbox
  // ---------------------------------------------------------------------

  datatype Envelope = Envelope(cursor: nat, messages: seq<Message>)

  datatype Inbox = Inbox(appended: seq<Message>, cursor: nat)

  datatype AppendError = ExceedsCursor | MissingCursor

  /** Reads the messages from the left; stops at one that exceeds the envelope. */
  function AppendMessages(inbox: Inbox, limit: nat, messages: seq<Message>): (Inbox, bool) {
    if messages == [] then (inbox, true)
    else
      var (before, good) := AppendMessages(inbox, limit, messages[..|messages| - 1]);
      var m := messages[|messages| - 1];
      if !good || m.cursor > limit then (before, false)
      else if m.cursor <= before.cursor then (before, true)
      else (Inbox(before.appended + [m], m.cursor), true)
  }

  function AppendEnvelope(inbox: Inbox, envelope: Envelope): (Inbox, Option<AppendError>) {
    var (after, good) := AppendMessages(inbox, envelope.cursor, envelope.messages);
    (after, if !good then Some(ExceedsCursor)
            else if after.cursor < envelope.cursor then Some(MissingCursor)
            else None)
  }

  class DriverInbox {
    var appended: seq<Message>
    var cursor: nat

    ghost function View(): Inbox
      reads this
    {
      Inbox(appended, cursor)
    }

    constructor ()
      ensures View() == Inbox([], 0)
    {
      appended, cursor := [], 0;
    }

    method AppendWebsocketMessages(envelope: Envelope) returns (error: Option<AppendError>)
      modifies this
      ensures (View(), error) == AppendEnvelope(old(View()), envelope)
    {
      ghost var start := View();
      var i := 0;
      while i < |envelope.messages|
        invariant 0 <= i <= |envelope.messages|
        invariant (View(), true) == AppendMessages(start, envelope.cursor, envelope.messages[..i])
      {
        var m := envelope.messages[i];
        assert envelope.messages[..i + 1][..i] == envelope.messages[..i];
        if m.cursor > envelope.cursor {
          StopsForGood(start, envelope.cursor, envelope.messages, i + 1);
          return Some(ExceedsCursor);
        }
        if m.cursor > cursor {
          appended := appended + [m];
          cursor := m.cursor;
        }
        i := i + 1;
      }
      assert envelope.messages[..i] == envelope.messages;
      if cursor < envelope.cursor {
        return Some(MissingCursor);
      }
      return None;
    }
  }

  /** Nothing after the offending message is looked at. */
  lemma {:induction false} StopsForGood(inbox: Inbox, limit: nat, messages: seq<Message>, n: nat)
    requires n <= |messages| && !AppendMessages(inbox, limit, messages[..n]).1
    ensures AppendMessages(inbox, limit, messages) == AppendMessages(inbox, limit, messages[..n])
  {
    if n == |messages| {
      assert messages[..n] == messages;
    } else {
      assert messages[..|messages| - 1][..n] == messages[..n];
      StopsForGood(inbox, limit, messages[..|messages| - 1], n);
    }
  }

  // ---------------------------------------------------------------------
  // The protocol
  // ---------------------------------------------------------------------

  /** One WebSocket connection: what the server side remembers about it and the
      frames under way. Frames of one connection keep their order. */
  datatype Connection = Connection(
    lastSent: nat, sent: set<nat>, toDriver: seq<Envelope>, toServer: seq<nat>)
  {
    /** The envelope's cursor is the last message's. */
    function Pushed(pending: seq<Message>): Connection
      requires pending != []
    {
      var cursor := pending[|pending| - 1].cursor;
      Connection(
        if cursor > lastSent then cursor else lastSent,
        sent + (set m | m in pending :: m.cursor),
        toDriver + [Envelope(cursor, pending)],
        toServer)
    }
  }

  /** The whole session. `history` and `expired` only record: every message ever
      accepted for the driver, and the cursors dropped by age. */
  datatype Session = Session(
    mail: Mail, connections: seq<Connection>, inbox: Inbox,
    history: seq<Message>, expired: set<nat>, failed: bool)

  datatype Op =
    | Accept(m: Submission, at: int)
    | Push(c: nat, again: bool, at: int)
    | HandleAck(c: nat)
    | DriverReads(acknowledges: bool)
    | Reconnect

  /** The session after a push connection has read the queue. */
  function AfterTake(key: Key, ttl: Ttl, s: Session, at: int): Session {
    var mail := Take(s.mail, key, false, at, ttl).0;
    s.(mail := mail, expired := s.expired + Dropped(s.mail.Queue(key), mail.Queue(key)))
  }

  function Dropped(before: seq<Message>, after: seq<Message>): set<nat> {
    set m | m in before && m !in after :: m.cursor
  }

  /** Old connections stay in the list: their server threads may still push or
      handle buffered acknowledgements, but the driver only reads the newest. A
      lost frame is one that is never read. */
  function Step(key: Key, ttl: Ttl, s: Session, op: Op): Session {
    match op
    case Accept(m, at) =>
      var (mail, receipt) := Enqueue(s.mail, m, at);
      s.(mail := mail,
         history :=
           if m.Target() == key && receipt.Acknowledged? && !receipt.duplicate
           then s.history + [Message(m, at, receipt.cursor)] else s.history)
    case Push(c, again, at) =>
      if c >= |s.connections| then s
      else
        var pending := Take(s.mail, key, false, at, ttl).1;
        var s1 := AfterTake(key, ttl, s, at);
        if pending == [] || (pending[|pending| - 1].cursor <= s.connections[c].lastSent && !again) then s1
        else s1.(connections := s.connections[c := s.connections[c].Pushed(pending)])
    case HandleAck(c) =>
      if c >= |s.connections| || s.connections[c].toServer == [] then s
      else
        var conn := s.connections[c];
        var ack := conn.toServer[0];
        var s1 := s.(connections := s.connections[c := conn.(toServer := conn.toServer[1..])]);
        if ack > conn.lastSent then s1.(failed := true)
        else s1.(mail := Acknowledge(s.mail, key, ack, false).0)
    case DriverReads(acknowledges) =>
      if s.connections == [] || s.connections[|s.connections| - 1].toDriver == [] then s
      else
        var newest := |s.connections| - 1;
        var conn := s.connections[newest];
        var (inbox, error) := AppendEnvelope(s.inbox, conn.toDriver[0]);
        var read := conn.(
          toDriver := conn.toDriver[1..],
          toServer :=
            if error.None? && acknowledges then conn.toServer + [conn.toDriver[0].cursor] else conn.toServer);
        s.(inbox := inbox, connections := s.connections[newest := read], failed := s.failed || error.Some?)
    case Reconnect =>
      s.(connections := s.connections + [Connection(0, {}, [], [])])
  }

  function Run(key: Key, ttl: Ttl, ops: seq<Op>): Session {
    if ops == [] then Session(NO_MAIL, [], Inbox([], 0), [], {}, false)
    else Step(key, ttl, Run(key, ttl, ops[..|ops| - 1]), ops[|ops| - 1])
  }

  /** Native commands only go to the vehicle, so none goes to this recipient. */
  predicate Admissible(key: Key, op: Op) {
    op.Accept? && op.m.Target() == key ==> op.m.kind != ControlCommand
  }

  // ---------------------------------------------------------------------
  // The invariant
  // ---------------------------------------------------------------------

  /** The queue holds accepted messages in order; cursors number the history. */
  ghost predicate QueueGenuine(key: Key, s: Session) {
    && key !in s.mail.control
    && s.mail.Cursor(key) == |s.history|
    && (forall i | 0 <= i < |s.history| :: s.history[i].cursor == i + 1)
    && Ascending(s.mail.Queue(key))
    && (forall m | m in s.mail.Queue(key) :: InHistory(s, m))
  }

  predicate InHistory(s: Session, m: Message) {
    0 < m.cursor <= |s.history| && s.history[m.cursor - 1] == m
  }

  /** The driver's stream is strictly ordered and genuine, it ends at the driver's
      cursor, and it misses nothing that is still queued at or below it. */
  ghost predicate InboxGenuine(key: Key, s: Session) {
    && Ascending(s.inbox.appended)
    && s.inbox.cursor ==
         (if s.inbox.appended == [] then 0 else s.inbox.appended[|s.inbox.appended| - 1].cursor)
    && (forall m | m in s.inbox.appended :: InHistory(s, m))
    && (forall m | m in s.mail.Queue(key) && m.cursor <= s.inbox.cursor :: m in s.inbox.appended)
  }

  /** An envelope carries genuine messages in order, up to its own cursor, and
      misses nothing that is still queued at or below it. */
  ghost predicate EnvelopeGenuine(key: Key, s: Session, e: Envelope) {
    && e.messages != [] && Ascending(e.messages)
    && e.messages[|e.messages| - 1].cursor == e.cursor
    && (forall m | m in e.messages :: InHistory(s, m))
    && (forall m | m in s.mail.Queue(key) && m.cursor <= e.cursor :: m in e.messages)
  }

  ghost predicate ConnectionGenuine(key: Key, s: Session, conn: Connection) {
    && conn.lastSent <= |s.history|
    && (forall e | e in conn.toDriver :: EnvelopeGenuine(key, s, e) && e.cursor <= conn.lastSent)
    && (forall a | a in conn.toServer :: a <= conn.lastSent && a <= s.inbox.cursor)
    && (forall m | m in s.mail.Queue(key) && m.cursor <= conn.lastSent :: m.cursor in conn.sent)
  }

  /** Every accepted message is delivered, still queued, or was dropped by age. */
  ghost predicate NothingLost(key: Key, s: Session) {
    forall i | 0 <= i < |s.history| ::
      || s.history[i] in s.inbox.appended
      || s.history[i] in s.mail.Queue(key)
      || i + 1 in s.expired
  }

  ghost predicate Inv(key: Key, s: Session) {
    && QueueGenuine(key, s)
    && InboxGenuine(key, s)
    && (forall conn | conn in s.connections :: ConnectionGenuine(key, s, conn))
    && NothingLost(key, s)
    && !s.failed
  }

  lemma LastIsLargest(queue: seq<Message>, m: Message)
    requires Ascending(queue) && m in queue
    ensures m.cursor <= queue[|queue| - 1].cursor
    ensures m.cursor == queue[|queue| - 1].cursor ==> m == queue[|queue| - 1]
  {
  }

  /** The stream ends at the cursor. */
  ghost predicate CursorEnds(inbox: Inbox) {
    inbox.cursor == if inbox.appended == [] then 0 else inbox.appended[|inbox.appended| - 1].cursor
  }

  lemma AppendOne(appended: seq<Message>, m: Message)
    requires Ascending(appended)
    requires appended == [] || appended[|appended| - 1].cursor < m.cursor
    ensures Ascending(appended + [m])
  {
    forall i | 0 <= i < |appended| ensures appended[i].cursor < m.cursor {
      LastIsLargest(appended, appended[i]);
    }
  }

  /** Reading an ordered envelope appends exactly the messages beyond the cursor. */
  lemma {:induction false} AppendInOrder(inbox: Inbox, limit: nat, messages: seq<Message>)
    requires Ascending(messages) && forall m | m in messages :: 0 < m.cursor <= limit
    requires Ascending(inbox.appended) && CursorEnds(inbox)
    ensures var (after, good) := AppendMessages(inbox, limit, messages);
      && good && Ascending(after.appended) && CursorEnds(after)
      && after.cursor ==
           (if messages != [] && messages[|messages| - 1].cursor > inbox.cursor
            then messages[|messages| - 1].cursor else inbox.cursor)
      && (forall m :: m in after.appended <==> m in inbox.appended || (m in messages && m.cursor > inbox.cursor))
  {
    if messages != [] {
      var n := |messages| - 1;
      assert messages == messages[..n] + [messages[n]];
      AppendInOrder(inbox, limit, messages[..n]);
      var before := AppendMessages(inbox, limit, messages[..n]).0;
      assert messages[n] in messages;
      assert n > 0 ==> messages[..n][n - 1].cursor < messages[n].cursor;
      if messages[n].cursor > before.cursor {
        AppendOne(before.appended, messages[n]);
      }
    }
  }

  // ---------------------------------------------------------------------
  // Every step keeps the invariant
  // ---------------------------------------------------------------------

  lemma CursorBounded(key: Key, s: Session)
    requires Inv(key, s)
    ensures s.inbox.cursor <= |s.history|
  {
    if s.inbox.appended != [] {
      assert s.inbox.appended[|s.inbox.appended| - 1] in s.inbox.appended;
    }
  }

  /** One more accepted message at the end of the queue. */
  lemma AppendedKeepsInv(key: Key, s: Session, u: Session, m: Message)
    requires Inv(key, s)
    requires u == s.(mail := u.mail, history := s.history + [m])
    requires m.cursor == |s.history| + 1 && u.mail.Cursor(key) == |s.history| + 1
    requires u.mail.Queue(key) == s.mail.Queue(key) + [m] && key !in u.mail.control
    ensures Inv(key, u)
  {
    CursorBounded(key, s);
    var queue := s.mail.Queue(key);
    assert queue != [] ==> queue[|queue| - 1] in queue;
    AppendOne(queue, m);
    assert forall x | InHistory(s, x) :: InHistory(u, x);
    forall conn | conn in u.connections ensures ConnectionGenuine(key, u, conn) {
      assert ConnectionGenuine(key, s, conn);
      forall e | e in conn.toDriver ensures EnvelopeGenuine(key, u, e) {
        assert EnvelopeGenuine(key, s, e);
      }
    }
    forall i | 0 <= i < |u.history|
      ensures u.history[i] in u.inbox.appended || u.history[i] in u.mail.Queue(key) || i + 1 in u.expired
    {
      assert i < |s.history| ==> u.history[i] == s.history[i];
    }
  }

  lemma AcceptKeepsInv(key: Key, ttl: Ttl, s: Session, m: Submission, at: int)
    requires Inv(key, s) && Admissible(key, Accept(m, at))
    ensures Inv(key, Step(key, ttl, s, Accept(m, at)))
  {
    var u := Step(key, ttl, s, Accept(m, at));
    var receipt := Enqueue(s.mail, m, at).1;
    if m.Target() == key && receipt.Acknowledged? && !receipt.duplicate {
      AppendedKeepsInv(key, s, u, Message(m, at, receipt.cursor));
    } else {
      assert u.mail.Queue(key) == s.mail.Queue(key);
      ShrinkKeepsOrder(key, s, u);
    }
  }

  /** Dropping messages from the queue breaks nothing but the accounting. */
  lemma ShrinkKeepsOrder(key: Key, s: Session, u: Session)
    requires Inv(key, s)
    requires u == s.(mail := u.mail, expired := u.expired)
    requires key !in u.mail.control && u.mail.Cursor(key) == s.mail.Cursor(key)
    requires Ascending(u.mail.Queue(key))
    requires forall m | m in u.mail.Queue(key) :: m in s.mail.Queue(key)
    requires NothingLost(key, u)
    ensures Inv(key, u)
  {
    forall conn | conn in u.connections ensures ConnectionGenuine(key, u, conn) {
      assert ConnectionGenuine(key, s, conn);
      forall e | e in conn.toDriver ensures EnvelopeGenuine(key, u, e) {
        assert EnvelopeGenuine(key, s, e);
      }
    }
  }

  lemma AckKeepsInv(key: Key, ttl: Ttl, s: Session, c: nat)
    requires Inv(key, s)
    ensures Inv(key, Step(key, ttl, s, HandleAck(c)))
  {
    if c < |s.connections| && s.connections[c].toServer != [] {
      var conn := s.connections[c];
      assert conn in s.connections;
      assert ConnectionGenuine(key, s, conn);
      var ack := conn.toServer[0];
      assert ack in conn.toServer;
      UnacknowledgedIsKept(s.mail.Queue(key), ack);
      var s1 := s.(mail := Acknowledge(s.mail, key, ack, false).0);
      assert s1.mail.Queue(key) == Unacknowledged(s.mail.Queue(key), ack);
      ShrinkKeepsOrder(key, s, s1);
      assert ConnectionGenuine(key, s1, conn);
      assert forall a | a in conn.toServer[1..] :: a in conn.toServer;
      ReplaceConnection(key, s1, c, conn.(toServer := conn.toServer[1..]));
    }
  }

  lemma ReplaceConnection(key: Key, s: Session, c: nat, conn: Connection)
    requires Inv(key, s) && c < |s.connections| && ConnectionGenuine(key, s, conn)
    ensures Inv(key, s.(connections := s.connections[c := conn]))
  {
    var u := s.(connections := s.connections[c := conn]);
    forall other | other in u.connections ensures ConnectionGenuine(key, u, other) {
      assert other == conn || other in s.connections;
      assert ConnectionGenuine(key, s, other);
      forall e | e in other.toDriver ensures EnvelopeGenuine(key, u, e) {
        assert EnvelopeGenuine(key, s, e);
      }
    }
  }

  lemma TakeForDriver(key: Key, s: Session, at: int, ttl: Ttl)
    requires Inv(key, s)
    ensures var (mail, pending) := Take(s.mail, key, false, at, ttl);
      && pending == mail.Queue(key) == Live(s.mail.Queue(key), at, ttl.messageMs)
      && key !in mail.control && mail.Cursor(key) == s.mail.Cursor(key)
      && Ascending(pending) && (forall m | m in pending :: m in s.mail.Queue(key))
  {
    var queue := Live(s.mail.Queue(key), at, ttl.messageMs);
    LiveIsKept(s.mail.Queue(key), at, ttl.messageMs);
    SortOfAscending(queue);
    assert [] + queue == queue;
  }

  lemma TakeKeepsInv(key: Key, ttl: Ttl, s: Session, at: int)
    requires Inv(key, s)
    ensures Inv(key, AfterTake(key, ttl, s, at))
  {
    var s1 := AfterTake(key, ttl, s, at);
    TakeForDriver(key, s, at, ttl);
    TakeLosesNothing(key, s, s1);
    ShrinkKeepsOrder(key, s, s1);
  }

  lemma TakeLosesNothing(key: Key, s: Session, u: Session)
    requires Inv(key, s)
    requires u == s.(mail := u.mail, expired := s.expired + Dropped(s.mail.Queue(key), u.mail.Queue(key)))
    ensures NothingLost(key, u)
  {
    forall i | 0 <= i < |u.history|
      ensures u.history[i] in u.inbox.appended || u.history[i] in u.mail.Queue(key) || i + 1 in u.expired
    {
      var m := s.history[i];
      assert m.cursor == i + 1;
      if m in s.mail.Queue(key) && m !in u.mail.Queue(key) {
        assert m.cursor in Dropped(s.mail.Queue(key), u.mail.Queue(key));
      }
    }
  }

  lemma PushKeepsInv(key: Key, ttl: Ttl, s: Session, c: nat, again: bool, at: int)
    requires Inv(key, s)
    ensures Inv(key, Step(key, ttl, s, Push(c, again, at)))
  {
    if c < |s.connections| {
      var s1 := AfterTake(key, ttl, s, at);
      TakeForDriver(key, s, at, ttl);
      TakeKeepsInv(key, ttl, s, at);
      var pending := Take(s.mail, key, false, at, ttl).1;
      if pending != [] {
        PushedConnection(key, s1, s1.connections[c], pending);
        ReplaceConnection(key, s1, c, s1.connections[c].Pushed(pending));
      }
    }
  }

  lemma PushedConnection(key: Key, s: Session, conn: Connection, pending: seq<Message>)
    requires Inv(key, s) && conn in s.connections
    requires pending == s.mail.Queue(key) != []
    ensures ConnectionGenuine(key, s, conn.Pushed(pending))
  {
    var last := pending[|pending| - 1].cursor;
    assert ConnectionGenuine(key, s, conn);
    assert pending[|pending| - 1] in pending;
    assert EnvelopeGenuine(key, s, Envelope(last, pending));
  }

  lemma ReadKeepsInv(key: Key, ttl: Ttl, s: Session, acknowledges: bool)
    requires Inv(key, s)
    ensures Inv(key, Step(key, ttl, s, DriverReads(acknowledges)))
  {
    if s.connections != [] && s.connections[|s.connections| - 1].toDriver != [] {
      var newest := |s.connections| - 1;
      var conn := s.connections[newest];
      assert ConnectionGenuine(key, s, conn);
      var e := conn.toDriver[0];
      assert e in conn.toDriver;
      assert EnvelopeGenuine(key, s, e);
      forall m | m in e.messages ensures 0 < m.cursor <= e.cursor {
        LastIsLargest(e.messages, m);
      }
      InboxAdvances(key, s, e);
      var s1 := s.(inbox := AppendEnvelope(s.inbox, e).0);
      assert ConnectionGenuine(key, s1, conn);
      assert forall f | f in conn.toDriver[1..] :: f in conn.toDriver;
      ReplaceConnection(key, s1, newest, conn.(
        toDriver := conn.toDriver[1..],
        toServer := if acknowledges then conn.toServer + [e.cursor] else conn.toServer));
    }
  }

  lemma InboxAdvances(key: Key, s: Session, e: Envelope)
    requires Inv(key, s) && EnvelopeGenuine(key, s, e)
    requires forall m | m in e.messages :: 0 < m.cursor <= e.cursor
    ensures var (inbox, error) := AppendEnvelope(s.inbox, e);
      error.None? && inbox.cursor >= s.inbox.cursor && inbox.cursor >= e.cursor && Inv(key, s.(inbox := inbox))
  {
    AppendInOrder(s.inbox, e.cursor, e.messages);
    var s1 := s.(inbox := AppendEnvelope(s.inbox, e).0);
    assert InboxGenuine(key, s1);
    forall other | other in s1.connections ensures ConnectionGenuine(key, s1, other) {
      assert ConnectionGenuine(key, s, other);
      forall f | f in other.toDriver ensures EnvelopeGenuine(key, s1, f) {
        assert EnvelopeGenuine(key, s, f);
      }
    }
    assert NothingLost(key, s1);
  }

  lemma ReconnectKeepsInv(key: Key, ttl: Ttl, s: Session)
    requires Inv(key, s)
    ensures Inv(key, Step(key, ttl, s, Reconnect))
  {
    var u := Step(key, ttl, s, Reconnect);
    forall conn | conn in u.connections ensures ConnectionGenuine(key, u, conn) {
      if conn in s.connections {
        assert ConnectionGenuine(key, s, conn);
        forall e | e in conn.toDriver ensures EnvelopeGenuine(key, u, e) {
          assert EnvelopeGenuine(key, s, e);
        }
      }
    }
  }

  lemma {:induction false} RunKeepsInv(key: Key, ttl: Ttl, ops: seq<Op>)
    requires forall op | op in ops :: Admissible(key, op)
    ensures Inv(key, Run(key, ttl, ops))
  {
    if ops != [] {
      var n := |ops| - 1;
      var s := Run(key, ttl, ops[..n]);
      RunKeepsInv(key, ttl, ops[..n]);
      match ops[n]
      case Accept(m, at) => AcceptKeepsInv(key, ttl, s, m, at);
      case Push(c, again, at) => PushKeepsInv(key, ttl, s, c, again, at);
      case HandleAck(c) => AckKeepsInv(key, ttl, s, c);
      case DriverReads(acknowledges) => ReadKeepsInv(key, ttl, s, acknowledges);
      case Reconnect => ReconnectKeepsInv(key, ttl, s);
    }
  }

  // ---------------------------------------------------------------------
  // What the driver gets
  // ---------------------------------------------------------------------

  /** Main result: over every interleaving of accepted messages, pushes, repeated
      pushes, broken connections, reconnects and acknowledgements, the driver's
      stream has no duplicate, is in cursor order and only holds accepted
      messages; every accepted message is delivered, still queued or dropped by
      age; and neither side ever reports a protocol error. */
  lemma DeliveredOnceInOrder(key: Key, ttl: Ttl, ops: seq<Op>)
    requires forall op | op in ops :: Admissible(key, op)
    ensures var s := Run(key, ttl, ops);
      && Ascending(s.inbox.appended)
      && (forall m | m in s.inbox.appended :: InHistory(s, m))
      && NothingLost(key, s)
      && !s.failed
  {
    RunKeepsInv(key, ttl, ops);
  }

  /** Main result: while no message has been dropped by age, the driver's stream
      is exactly the accepted messages up to the driver's cursor. */
  lemma DeliveredIsPrefix(key: Key, ttl: Ttl, ops: seq<Op>)
    requires forall op | op in ops :: Admissible(key, op)
    requires Run(key, ttl, ops).expired == {}
    ensures var s := Run(key, ttl, ops);
      s.inbox.cursor <= |s.history| && s.inbox.appended == s.history[..s.inbox.cursor]
  {
    RunKeepsInv(key, ttl, ops);
    var s := Run(key, ttl, ops);
    CursorBounded(key, s);
    UpToCursorDelivered(key, s);
    IsPrefix(s.history, s.inbox.cursor, s.inbox.appended);
  }

  lemma IsPrefix(history: seq<Message>, n: nat, appended: seq<Message>)
    requires n <= |history| && forall k | 0 <= k < |history| :: history[k].cursor == k + 1
    requires Ascending(appended)
    requires forall m | m in appended :: 0 < m.cursor <= n && history[m.cursor - 1] == m
    requires forall k | 0 <= k < n :: history[k] in appended
    ensures appended == history[..n]
  {
    forall i | 0 <= i < n ensures i < |appended| && appended[i] == history[i] {
      PrefixByCursor(history, n, appended, i);
    }
    AtMost(appended, n);
    if n > 0 {
      PrefixByCursor(history, n, appended, n - 1);
    }
  }

  lemma AtMost(appended: seq<Message>, n: nat)
    requires Ascending(appended) && forall m | m in appended :: 0 < m.cursor <= n
    ensures |appended| <= n
  {
    if appended != [] {
      assert appended[0] in appended && appended[|appended| - 1] in appended;
      CursorsAtLeast(appended, |appended| - 1);
      assert appended[|appended| - 1].cursor <= n;
    }
  }

  lemma UpToCursorDelivered(key: Key, s: Session)
    requires Inv(key, s) && s.expired == {} && s.inbox.cursor <= |s.history|
    ensures forall i | 0 <= i < s.inbox.cursor :: s.history[i] in s.inbox.appended
    ensures forall m | m in s.inbox.appended :: 0 < m.cursor <= s.inbox.cursor && s.history[m.cursor - 1] == m
  {
    forall i | 0 <= i < s.inbox.cursor ensures s.history[i] in s.inbox.appended {
      assert s.history[i].cursor == i + 1;
    }
    forall m | m in s.inbox.appended ensures m.cursor <= s.inbox.cursor {
      LastIsLargest(s.inbox.appended, m);
    }
  }

  lemma {:induction false} CursorsAtLeast(appended: seq<Message>, i: nat)
    requires Ascending(appended) && i < |appended| && appended[0].cursor > 0
    ensures appended[i].cursor > i
  {
    if i > 0 {
      CursorsAtLeast(appended, i - 1);
    }
  }

  /** An ordered stream that holds all of the first `n` messages has each of them
      at its own place. */
  lemma {:induction false} PrefixByCursor(history: seq<Message>, n: nat, appended: seq<Message>, i: nat)
    requires i < n <= |history| && forall k | 0 <= k < |history| :: history[k].cursor == k + 1
    requires Ascending(appended)
    requires forall m | m in appended :: 0 < m.cursor <= n && history[m.cursor - 1] == m
    requires forall k | 0 <= k < n :: history[k] in appended
    ensures i < |appended| && appended[i] == history[i]
  {
    assert history[i] in appended;
    var j :| 0 <= j < |appended| && appended[j] == history[i];
    assert appended[0] in appended;
    CursorsAtLeast(appended, j);
    if j < i {
      PrefixByCursor(history, n, appended, j);
    }
  }

  /** Main result: handling an acknowledgement removes a message only if it was
      sent on that very connection and the driver has already appended it. */
  lemma AckRemovesOnlyDelivered(key: Key, ttl: Ttl, ops: seq<Op>, c: nat, m: Message)
    requires forall op | op in ops :: Admissible(key, op)
    requires m in Run(key, ttl, ops).mail.Queue(key)
    requires m !in Step(key, ttl, Run(key, ttl, ops), HandleAck(c)).mail.Queue(key)
    ensures var s := Run(key, ttl, ops);
      c < |s.connections| && m.cursor in s.connections[c].sent && m in s.inbox.appended
  {
    RunKeepsInv(key, ttl, ops);
    var s := Run(key, ttl, ops);
    var conn := s.connections[c];
    assert conn in s.connections;
    assert ConnectionGenuine(key, s, conn);
    var ack := conn.toServer[0];
    assert ack in conn.toServer;
    UnacknowledgedIsKept(s.mail.Queue(key), ack);
    assert Acknowledge(s.mail, key, ack, false).0.Queue(key) == Unacknowledged(s.mail.Queue(key), ack);
  }

  lemma {:induction false} AllLive(queue: seq<Message>, now: int, ttl: int)
    requires forall m | m in queue :: now - m.queuedAt < ttl
    ensures Live(queue, now, ttl) == queue
  {
    if queue != [] {
      AllLive(queue[..|queue| - 1], now, ttl);
    }
  }

  lemma {:induction false} NoneLeft(queue: seq<Message>, cursor: nat)
    requires forall m | m in queue :: m.cursor <= cursor
    ensures Unacknowledged(queue, cursor) == []
  {
    if queue != [] {
      NoneLeft(queue[..|queue| - 1], cursor);
    }
  }

  /** One undisturbed round: a new connection, a push, a read and its
      acknowledgement. */
  function Round(c: nat, at: int): seq<Op> {
    [Reconnect, Push(c, false, at), DriverReads(true), HandleAck(c)]
  }

  lemma RunOneMore(key: Key, ttl: Ttl, ops: seq<Op>, op: Op)
    ensures Run(key, ttl, ops + [op]) == Step(key, ttl, Run(key, ttl, ops), op)
  {
    assert (ops + [op])[..|ops|] == ops;
  }

  lemma RunTwoMore(key: Key, ttl: Ttl, ops: seq<Op>, a: Op, b: Op)
    ensures Run(key, ttl, ops + [a, b]) == Step(key, ttl, Step(key, ttl, Run(key, ttl, ops), a), b)
  {
    RunOneMore(key, ttl, ops, a);
    RunOneMore(key, ttl, ops + [a], b);
    assert ops + [a, b] == ops + [a] + [b];
  }

  /** The session after one such round. */
  function AfterRound(key: Key, ttl: Ttl, s: Session, at: int): Session {
    var c := |s.connections|;
    var pushed := Step(key, ttl, Step(key, ttl, s, Reconnect), Push(c, false, at));
    Step(key, ttl, Step(key, ttl, pushed, DriverReads(true)), HandleAck(c))
  }

  lemma RunRound(key: Key, ttl: Ttl, ops: seq<Op>, at: int)
    ensures var s := Run(key, ttl, ops);
      Run(key, ttl, ops + Round(|s.connections|, at)) == AfterRound(key, ttl, s, at)
  {
    var c := |Run(key, ttl, ops).connections|;
    var half := ops + [Reconnect, Push(c, false, at)];
    RunTwoMore(key, ttl, ops, Reconnect, Push(c, false, at));
    RunTwoMore(key, ttl, half, DriverReads(true), HandleAck(c));
    assert ops + Round(c, at) == half + [DriverReads(true), HandleAck(c)];
  }

  /** A push on a new connection sends the whole queue. */
  lemma FirstPush(key: Key, ttl: Ttl, s: Session, at: int, queue: seq<Message>)
    requires queue != [] && queue == s.mail.Queue(key) && queue[|queue| - 1].cursor > 0
    requires var (mail, pending) := Take(s.mail, key, false, at, ttl);
      mail.Queue(key) == queue == pending
    ensures var c := |s.connections|;
      var u := Step(key, ttl, Step(key, ttl, s, Reconnect), Push(c, false, at));
      && u.mail.Queue(key) == queue && u.expired == s.expired && u.history == s.history
      && |u.connections| == c + 1
      && u.connections[c].toServer == [] && u.connections[c].lastSent == queue[|queue| - 1].cursor
      && u.connections[c].toDriver == [Envelope(queue[|queue| - 1].cursor, queue)]
  {
  }

  /** The only frame under way is read and acknowledged. */
  lemma OnlyRead(key: Key, ttl: Ttl, s: Session, e: Envelope)
    requires s.connections != []
    requires var conn := s.connections[|s.connections| - 1]; conn.toDriver == [e] && conn.toServer == []
    requires !Step(key, ttl, s, DriverReads(true)).failed
    ensures var u := Step(key, ttl, s, DriverReads(true));
      && u.mail == s.mail && u.expired == s.expired && u.history == s.history
      && |u.connections| == |s.connections| && u.connections[|s.connections| - 1].toServer == [e.cursor]
      && u.connections[|s.connections| - 1].lastSent == s.connections[|s.connections| - 1].lastSent
  {
  }

  lemma LastAckEmptiesQueue(key: Key, ttl: Ttl, s: Session, c: nat)
    requires c < |s.connections| && s.mail.Queue(key) != [] && Ascending(s.mail.Queue(key))
    requires var queue := s.mail.Queue(key);
      s.connections[c].toServer == [queue[|queue| - 1].cursor]
      && s.connections[c].lastSent == queue[|queue| - 1].cursor
    ensures var u := Step(key, ttl, s, HandleAck(c));
      u.mail.Queue(key) == [] && u.expired == s.expired && u.history == s.history
  {
    var queue := s.mail.Queue(key);
    var last := queue[|queue| - 1];
    forall m | m in queue ensures m.cursor <= last.cursor {
      LastIsLargest(queue, m);
    }
    NoneLeft(queue, last.cursor);
  }

  lemma TakeAll(key: Key, ttl: Ttl, s: Session, at: int)
    requires Inv(key, s) && forall m | m in s.mail.Queue(key) :: at - m.queuedAt < ttl.messageMs
    ensures var queue := s.mail.Queue(key);
      && Take(s.mail, key, false, at, ttl).0.Queue(key) == queue == Take(s.mail, key, false, at, ttl).1
      && Ascending(queue) && (queue != [] ==> queue[|queue| - 1].cursor > 0)
  {
    var queue := s.mail.Queue(key);
    AllLive(queue, at, ttl.messageMs);
    TakeForDriver(key, s, at, ttl);
    assert queue != [] ==> queue[|queue| - 1] in queue;
  }

  lemma ReadDoesNotFail(key: Key, ttl: Ttl, s: Session, at: int)
    requires Inv(key, s)
    ensures var pushed := Step(key, ttl, Step(key, ttl, s, Reconnect), Push(|s.connections|, false, at));
      !Step(key, ttl, pushed, DriverReads(true)).failed
  {
    var s1 := Step(key, ttl, s, Reconnect);
    ReconnectKeepsInv(key, ttl, s);
    PushKeepsInv(key, ttl, s1, |s.connections|, false, at);
    ReadKeepsInv(key, ttl, Step(key, ttl, s1, Push(|s.connections|, false, at)), true);
  }

  /** After an undisturbed round nothing waits and nothing was dropped. */
  lemma RoundEmptiesQueue(key: Key, ttl: Ttl, s: Session, at: int)
    requires Inv(key, s) && forall m | m in s.mail.Queue(key) :: at - m.queuedAt < ttl.messageMs
    ensures var u := AfterRound(key, ttl, s, at);
      u.mail.Queue(key) == [] && u.expired == s.expired && u.history == s.history
  {
    TakeAll(key, ttl, s, at);
    ReadDoesNotFail(key, ttl, s, at);
    if s.mail.Queue(key) != [] {
      FullRound(key, ttl, s, at);
    } else {
      EmptyRound(key, ttl, s, at);
    }
  }

  lemma FullRound(key: Key, ttl: Ttl, s: Session, at: int)
    requires var queue := s.mail.Queue(key);
      && queue != [] && Ascending(queue) && queue[|queue| - 1].cursor > 0
      && Take(s.mail, key, false, at, ttl).0.Queue(key) == queue == Take(s.mail, key, false, at, ttl).1
    requires var pushed := Step(key, ttl, Step(key, ttl, s, Reconnect), Push(|s.connections|, false, at));
      !Step(key, ttl, pushed, DriverReads(true)).failed
    ensures var u := AfterRound(key, ttl, s, at);
      u.mail.Queue(key) == [] && u.expired == s.expired && u.history == s.history
  {
    var c, queue := |s.connections|, s.mail.Queue(key);
    var s2 := Step(key, ttl, Step(key, ttl, s, Reconnect), Push(c, false, at));
    FirstPush(key, ttl, s, at, queue);
    OnlyRead(key, ttl, s2, Envelope(queue[|queue| - 1].cursor, queue));
    LastAckEmptiesQueue(key, ttl, Step(key, ttl, s2, DriverReads(true)), c);
  }

  lemma EmptyRound(key: Key, ttl: Ttl, s: Session, at: int)
    requires s.mail.Queue(key) == [] && Take(s.mail, key, false, at, ttl).0.Queue(key) == []
    requires Take(s.mail, key, false, at, ttl).1 == []
    ensures var u := AfterRound(key, ttl, s, at);
      u.mail.Queue(key) == [] && u.expired == s.expired && u.history == s.history
  {
  }

  /** Main result: from every state in which nothing has been dropped by age, one
      undisturbed round brings the driver everything ever accepted, and the
      server has nothing left to send. */
  lemma OneRoundDeliversEverything(key: Key, ttl: Ttl, ops: seq<Op>, at: int)
    requires forall op | op in ops :: Admissible(key, op)
    requires var s := Run(key, ttl, ops);
      s.expired == {} && forall m | m in s.mail.Queue(key) :: at - m.queuedAt < ttl.messageMs
    ensures var s := Run(key, ttl, ops);
      var u := Run(key, ttl, ops + Round(|s.connections|, at));
      u.inbox.appended == s.history && u.mail.Queue(key) == []
  {
    var s := Run(key, ttl, ops);
    var c := |s.connections|;
    var all := ops + Round(c, at);
    RunKeepsInv(key, ttl, ops);
    RunRound(key, ttl, ops, at);
    RoundEmptiesQueue(key, ttl, s, at);
    RunKeepsInv(key, ttl, all);
    DeliveredIsPrefix(key, ttl, all);
    var u := Run(key, ttl, all);
    if |s.history| > 0 {
      assert u.history[|s.history| - 1] in u.inbox.appended;
    }
  }
}
