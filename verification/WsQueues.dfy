/** The queues between the goroutines of the websocket server (rpcwebsocket.go). */
module WsQueues {
  import opened Primitives

  // --- queueHandler

  /**
   * What the select of queueHandler can see next: an item to receive while the reader is ready or not, a
   * reader that takes an item, or the end.  A reader can only take an item that is offered to it.
   */
  datatype Event<T> = In(item: T, readerReady: bool) | Out | End

  /** The items received before the end. */
  function Received<T>(events: seq<Event<T>>): seq<T> {
    if events == [] || events[0].End? then []
    else (if events[0].In? then [events[0].item] else []) + Received(events[1..])
  }

  /**
   * queueHandler over any interleaving of events: whatever was received is sent in the same order or still
   * queued, and an item may only overtake the queue when there is none.
   */
  method QueueHandler<T>(events: seq<Event<T>>) returns (sent: seq<T>, q: seq<T>, skipQueue: bool)
    ensures sent + q == Received(events)
    ensures skipQueue <==> q == []
  {
    sent, q, skipQueue := [], [], true;
    var dequeue, i := false, 0;
    var next := q;
    ghost var got: seq<T> := [];
    SliceAll(events);
    while i < |events|
      invariant 0 <= i <= |events| && sent + q == got && got + Received(events[i..]) == Received(events)
      invariant (skipQueue <==> q == []) && (dequeue <==> q != []) && (dequeue ==> next == [q[0]])
    {
      var e := events[i];
      SliceStep(events, i);
      match e {
        case In(n, readerReady) =>
          MoveAcross(got, n, Received(events[i + 1..]));
          got := got + [n];
          if skipQueue && readerReady {
            sent := sent + [n];
          } else {
            q := q + [n];
            dequeue, skipQueue := true, false;
            next := [q[0]];
          }
        case Out =>
          if dequeue {
            sent := sent + next;
            q := q[1..];
            if |q| == 0 {
              dequeue, skipQueue := false, true;
            } else {
              next := [q[0]];
            }
          }
        case End =>
          return;
      }
      i := i + 1;
    }
  }

  // --- notificationQueueHandler, SendMessage and outHandler

  const SEND_BUFFER_SIZE := 50

  /** A message on its way to the socket; only notifications ask to be told when they are done. */
  datatype Response<T> = Response(msg: T, ntfn: bool)

  /**
   * Where the queue handler is in SendMessage: not there, about to ask whether the client is disconnected,
   * told that it is not and about to send, or told that it is and about to report failure.
   */
  datatype Handing<T> = Free | Asking(msg: T) | Sending(msg: T) | Refused

  /**
   * One client: the queue of notificationQueueHandler and its waiting flag, the message it is handing over,
   * the replies other goroutines are about to send, the send channel, the message outHandler is writing, and
   * the tokens in the completion channel.  `received` and `handed` record what came in and what was passed
   * to SendMessage, `entered` and `taken` what went into the send channel and what came out of it.
   */
  datatype Client<T> = Client(
    pending: seq<T>,
    waiting: bool,
    handing: Handing<T>,
    replies: seq<T>,
    sendChan: seq<Response<T>>,
    writing: seq<Response<T>>,
    tokens: nat,
    disconnected: bool,
    outDone: bool,
    drained: bool,
    queueDone: bool,
    received: seq<T>,
    handed: seq<T>,
    entered: seq<Response<T>>,
    taken: seq<Response<T>>)

  datatype Step<T> =
    | Notify(msg: T)
    | Ask
    | HandOver
    | Refuse
    | Sent
    | AskReply(msg: T)
    | Reply(i: nat)
    | Take
    | Write
    | Fail
    | Disconnect
    | OutQuit
    | Drain
    | DrainEnd
    | QueueQuit
    | Discard

  function Start<T>(): Client<T> {
    Client([], false, Free, [], [], [], 0, false, false, false, false, [], [], [], [])
  }

  /** A message goes into the send channel. */
  function Enter<T>(c: Client<T>, r: Response<T>): Client<T> {
    c.(sendChan := c.sendChan + [r], entered := c.entered + [r])
  }

  /** The first message comes out of the send channel. */
  function Leave<T>(c: Client<T>): Client<T>
    requires c.sendChan != []
  {
    c.(sendChan := c.sendChan[1..], taken := c.taken + [c.sendChan[0]])
  }

  /** The queue handler is in its main loop, free for the next event. */
  predicate Listening<T>(c: Client<T>) {
    c.handing.Free? && !c.queueDone
  }

  /** The send channel has room. */
  predicate HasRoom<T>(c: Client<T>) {
    |c.sendChan| < SEND_BUFFER_SIZE
  }

  /** The completion channel holds one token. */
  predicate TokenFits<T>(c: Client<T>) {
    c.tokens < 1
  }

  /** A new notification: pass it on when none is on its way, else queue it. */
  function Notified<T>(c: Client<T>, msg: T): Client<T> {
    if !c.waiting then
      c.(handing := Asking(msg), waiting := true, received := c.received + [msg], handed := c.handed + [msg])
    else
      c.(pending := c.pending + [msg], waiting := true, received := c.received + [msg])
  }

  /** A notification is done: pass on the next one, if there is one. */
  function Completed<T>(c: Client<T>): Client<T>
    requires c.tokens > 0
  {
    if c.pending == [] then c.(tokens := c.tokens - 1, waiting := false)
    else
      var msg := c.pending[0];
      c.(tokens := c.tokens - 1, handing := Asking(msg), pending := c.pending[1..], handed := c.handed + [msg])
  }

  /**
   * Each step is one communication or one look at the disconnected flag; a step whose communication is not
   * possible changes nothing.
   */
  function Next<T>(c: Client<T>, s: Step<T>): Client<T> {
    match s
    case Notify(msg) => if Listening(c) then Notified(c, msg) else c
    case Ask =>
      if !c.handing.Asking? then c
      else c.(handing := if c.disconnected then Refused else Sending(c.handing.msg))
    case HandOver =>
      if !c.handing.Sending? || !HasRoom(c) then c
      else Enter(c.(handing := Free), Response(c.handing.msg, true))
    case Refuse =>
      if !c.handing.Refused? || !TokenFits(c) then c else c.(handing := Free, tokens := c.tokens + 1)
    case Sent => if Listening(c) && c.tokens > 0 then Completed(c) else c
    case AskReply(msg) => if c.disconnected then c else c.(replies := c.replies + [msg])
    case Reply(i) =>
      if i >= |c.replies| || !HasRoom(c) then c
      else Enter(c.(replies := c.replies[..i] + c.replies[i + 1..]), Response(c.replies[i], false))
    case Take =>
      if c.outDone || c.writing != [] || c.sendChan == [] then c
      else Leave(c).(writing := [c.sendChan[0]])
    case Write =>
      if c.outDone || c.writing == [] then c
      else if !c.writing[0].ntfn then c.(writing := [])
      else if TokenFits(c) then c.(writing := [], tokens := c.tokens + 1)
      else c
    case Fail =>
      if c.outDone || c.writing == [] then c else c.(writing := [], disconnected := true, outDone := true)
    case Disconnect => c.(disconnected := true)
    case OutQuit =>
      if !c.disconnected || c.writing != [] then c else c.(outDone := true)
    case Drain =>
      if !c.outDone || c.drained || c.sendChan == [] then c
      else if !c.sendChan[0].ntfn then Leave(c)
      else if TokenFits(c) then Leave(c).(tokens := c.tokens + 1)
      else c
    case DrainEnd => if c.outDone && c.sendChan == [] then c.(drained := true) else c
    case QueueQuit =>
      if !c.disconnected || !c.handing.Free? then c else c.(queueDone := true)
    case Discard =>
      if !c.queueDone || c.tokens == 0 then c else c.(tokens := c.tokens - 1)
  }

  /** Somebody is at the point of putting a token into the completion channel. */
  predicate Completing<T>(c: Client<T>) {
    || c.handing.Refused?
    || (!c.outDone && c.writing != [] && c.writing[0].ntfn)
    || (c.outDone && !c.drained && c.sendChan != [] && c.sendChan[0].ntfn)
  }

  function CountNtfns<T>(s: seq<Response<T>>): nat {
    if s == [] then 0 else (if s[0].ntfn then 1 else 0) + CountNtfns(s[1..])
  }

  lemma {:induction false} CountAppend<T>(s: seq<Response<T>>, r: Response<T>)
    ensures CountNtfns(s + [r]) == CountNtfns(s) + if r.ntfn then 1 else 0
  {
    if s != [] {
      CountAppend(s[1..], r);
      assert (s + [r])[1..] == s[1..] + [r];
    } else {
      assert (s + [r])[1..] == [];
    }
  }

  /** Notifications between the queue handler and their token. */
  function InFlight<T>(c: Client<T>): nat {
    (if c.handing.Free? then 0 else 1) + CountNtfns(c.sendChan) + CountNtfns(c.writing) + c.tokens
  }

  /**
   * At most one notification is in flight, the queue handler waits while there is one or while others are
   * pending, and what it received is what it handed over followed by what is pending.
   */
  ghost predicate Inv<T>(c: Client<T>) {
    && |c.writing| <= 1 && InFlight(c) <= 1 && (InFlight(c) == 1 ==> c.waiting) && (c.pending != [] ==> c.waiting)
    && c.handed + c.pending == c.received
  }

  /** Steps that move the notification in flight along, or none. */
  predicate Moves<T>(s: Step<T>) {
    s.Ask? || s.HandOver? || s.Refuse? || s.AskReply? || s.Reply? || s.Take? || s.Write? || s.Drain?
  }

  /** Only what is in flight has moved. */
  ghost predicate Moved<T>(c: Client<T>, d: Client<T>) {
    && InFlight(d) == InFlight(c) && |d.writing| <= 1
    && d.waiting == c.waiting && d.pending == c.pending && d.handed == c.handed && d.received == c.received
  }

  lemma CountOne<T>(s: seq<Response<T>>)
    requires |s| <= 1
    ensures CountNtfns(s) == if s != [] && s[0].ntfn then 1 else 0
  {
  }

  lemma AskMoves<T>(c: Client<T>, s: Step<T>)
    requires |c.writing| <= 1 && (s.Ask? || s.Refuse? || s.AskReply?)
    ensures Moved(c, Next(c, s))
  {
  }

  lemma HandOverMoves<T>(c: Client<T>)
    requires |c.writing| <= 1
    ensures Moved(c, Next(c, HandOver))
  {
    if c.handing.Sending? {
      CountAppend(c.sendChan, Response(c.handing.msg, true));
    }
  }

  lemma ReplyMoves<T>(c: Client<T>, i: nat)
    requires |c.writing| <= 1
    ensures Moved(c, Next(c, Reply(i)))
  {
    if i < |c.replies| {
      CountAppend(c.sendChan, Response(c.replies[i], false));
    }
  }

  lemma WriteMoves<T>(c: Client<T>, s: Step<T>)
    requires |c.writing| <= 1 && (s.Take? || s.Write? || s.Drain?)
    ensures Moved(c, Next(c, s))
  {
    CountOne(c.writing);
    CountOne(Next(c, s).writing);
  }

  /** A new notification starts only when none is in flight. */
  lemma NotifyKeeps<T>(c: Client<T>, msg: T)
    requires Inv(c) && Listening(c)
    ensures Inv(Notified(c, msg))
  {
    var d := Notified(c, msg);
    if c.waiting {
      assert d.handed + d.pending == c.handed + c.pending + [msg];
    } else {
      assert c.pending == [] && d.handed + d.pending == c.handed + [msg];
    }
  }

  /** When one is done, the next one starts. */
  lemma SentKeeps<T>(c: Client<T>)
    requires Inv(c) && Listening(c) && c.tokens > 0
    ensures Inv(Completed(c))
  {
    if c.pending != [] {
      assert c.handed + [c.pending[0]] + c.pending[1..] == c.handed + c.pending;
    }
  }

  /** The remaining steps start nothing; some of them end what is in flight. */
  lemma QuitKeeps<T>(c: Client<T>, s: Step<T>)
    requires Inv(c) && !Moves(s) && !s.Notify? && !s.Sent?
    ensures Inv(Next(c, s))
  {
  }

  lemma StepMoves<T>(c: Client<T>, s: Step<T>)
    requires |c.writing| <= 1 && Moves(s)
    ensures Moved(c, Next(c, s))
  {
    match s
    case HandOver => HandOverMoves(c);
    case Reply(i) => ReplyMoves(c, i);
    case Take | Write | Drain => WriteMoves(c, s);
    case _ => AskMoves(c, s);
  }

  lemma NextKeeps<T>(c: Client<T>, s: Step<T>)
    requires Inv(c)
    ensures Inv(Next(c, s))
  {
    if Moves(s) {
      StepMoves(c, s);
    } else if s.Notify? {
      if Listening(c) {
        NotifyKeeps(c, s.msg);
      }
    } else if s.Sent? {
      if Listening(c) && c.tokens > 0 {
        SentKeeps(c);
      }
    } else {
      QuitKeeps(c, s);
    }
  }

  function Run<T>(c: Client<T>, steps: seq<Step<T>>): Client<T> {
    if steps == [] then c else Next(Run(c, steps[..|steps| - 1]), steps[|steps| - 1])
  }

  /**
   * In every interleaving, also when the client disconnects between the question and the send in SendMessage:
   * notifications are handed over in the order they came, at most one of them is in flight, and whoever
   * completes one finds the completion channel empty, so nobody ever blocks on it.
   */
  lemma {:induction false} NeverBlocks<T>(steps: seq<Step<T>>)
    ensures var c := Run(Start<T>(), steps);
      Inv(c) && (Completing(c) ==> TokenFits(c))
  {
    if steps != [] {
      NeverBlocks(steps[..|steps| - 1]);
      NextKeeps(Run(Start<T>(), steps[..|steps| - 1]), steps[|steps| - 1]);
    }
    if Completing(Run(Start<T>(), steps)) {
      CompletingIsInFlight(Run(Start<T>(), steps));
    }
  }

  lemma CompletingIsInFlight<T>(c: Client<T>)
    requires |c.writing| <= 1 && Completing(c)
    ensures InFlight(c) >= 1 + c.tokens
  {
  }

  // --- What reaches the socket

  /** The notifications among some messages. */
  function Ntfns<T>(s: seq<Response<T>>): seq<T> {
    if s == [] then [] else Ntfns(s[..|s| - 1]) + if s[|s| - 1].ntfn then [s[|s| - 1].msg] else []
  }

  lemma {:induction false} NtfnsJoin<T>(s: seq<Response<T>>, t: seq<Response<T>>)
    ensures Ntfns(s + t) == Ntfns(s) + Ntfns(t)
  {
    if t == [] {
      assert s + t == s;
    } else {
      NtfnsJoin(s, t[..|t| - 1]);
      assert (s + t)[..|s + t| - 1] == s + t[..|t| - 1];
    }
  }

  lemma NtfnsSnoc<T>(s: seq<Response<T>>, r: Response<T>)
    ensures Ntfns(s + [r]) == Ntfns(s) + if r.ntfn then [r.msg] else []
  {
    assert (s + [r])[..|s|] == s;
  }

  /** The notification that is being handed over. */
  function InHand<T>(c: Client<T>): seq<T> {
    if c.handing.Asking? || c.handing.Sending? then [c.handing.msg] else []
  }

  /**
   * The send channel loses and reorders nothing.  As long as the client is connected, every notification that
   * was handed over is in it or came out of it; a message that is being sent is the next one even when the
   * client is not connected any more.
   */
  ghost predicate Orderly<T>(c: Client<T>) {
    && c.taken + c.sendChan == c.entered && Ntfns(c.entered) <= c.handed
    && (c.handing.Sending? ==> Ntfns(c.entered) + [c.handing.msg] == c.handed)
    && (!c.disconnected ==> Ntfns(c.entered) + InHand(c) == c.handed && !c.handing.Refused?)
  }

  /** As long as the client is connected, the handler only waits for a notification that is in flight. */
  ghost predicate Attentive<T>(c: Client<T>) {
    !c.disconnected ==> !c.outDone && !c.queueDone && (c.waiting ==> InFlight(c) == 1)
  }

  /** A reply enters the channel. */
  lemma ReplyEnters<T>(c: Client<T>, d: Client<T>, r: Response<T>)
    requires Orderly(c) && !r.ntfn && d.handing == c.handing && d.handed == c.handed && d.disconnected == c.disconnected
    requires d.taken == c.taken && d.sendChan == c.sendChan + [r] && d.entered == c.entered + [r]
    ensures Orderly(d)
  {
    NtfnsSnoc(c.entered, r);
    assert Ntfns(d.entered) == Ntfns(c.entered);
    assert d.taken + d.sendChan == c.taken + c.sendChan + [r];
  }

  /** The notification that is being sent enters the channel. */
  lemma NtfnEnters<T>(c: Client<T>, d: Client<T>, r: Response<T>)
    requires Orderly(c) && c.handing == Sending(r.msg) && r.ntfn && d.handing == Free && d.handed == c.handed
    requires d.taken == c.taken && d.sendChan == c.sendChan + [r] && d.entered == c.entered + [r]
    ensures Orderly(d)
  {
    NtfnsSnoc(c.entered, r);
    assert Ntfns(d.entered) == d.handed;
    assert d.taken + d.sendChan == c.taken + c.sendChan + [r];
  }

  /** The next notification is handed over. */
  lemma NtfnHanded<T>(c: Client<T>, d: Client<T>, msg: T)
    requires Orderly(c) && c.handing == Free && d.handing == Asking(msg) && d.handed == c.handed + [msg]
    requires d.disconnected == c.disconnected
    requires d.taken == c.taken && d.sendChan == c.sendChan && d.entered == c.entered
    ensures Orderly(d)
  {
    assert Ntfns(d.entered) <= c.handed <= d.handed;
  }

  lemma HandOverOrderly<T>(c: Client<T>)
    requires Orderly(c)
    ensures Orderly(Next(c, HandOver))
  {
    if c.handing.Sending? && HasRoom(c) {
      NtfnEnters(c, Next(c, HandOver), Response(c.handing.msg, true));
    }
  }

  lemma ReplyOrderly<T>(c: Client<T>, i: nat)
    requires Orderly(c)
    ensures Orderly(Next(c, Reply(i)))
  {
    if i < |c.replies| && HasRoom(c) {
      ReplyEnters(c, Next(c, Reply(i)), Response(c.replies[i], false));
    }
  }

  lemma LeaveOrderly<T>(c: Client<T>, s: Step<T>)
    requires Orderly(c) && (s.Take? || s.Drain?)
    ensures Orderly(Next(c, s))
  {
    if c.sendChan != [] {
      assert c.taken + [c.sendChan[0]] + c.sendChan[1..] == c.taken + c.sendChan;
    }
  }

  lemma NotifyOrderly<T>(c: Client<T>, msg: T)
    requires Orderly(c)
    ensures Orderly(Next(c, Notify(msg)))
  {
    if Listening(c) && !c.waiting {
      NtfnHanded(c, Next(c, Notify(msg)), msg);
    }
  }

  lemma SentOrderly<T>(c: Client<T>)
    requires Orderly(c)
    ensures Orderly(Next(c, Sent))
  {
    if Listening(c) && c.tokens > 0 && c.pending != [] {
      NtfnHanded(c, Next(c, Sent), c.pending[0]);
    }
  }

  lemma AskOrderly<T>(c: Client<T>, s: Step<T>)
    requires Orderly(c) && (s.Ask? || s.Refuse?)
    ensures Orderly(Next(c, s))
  {
  }

  /** Nothing that was handed over or went through the channel has changed. */
  ghost predicate SameTraffic<T>(c: Client<T>, d: Client<T>) {
    && d.taken == c.taken && d.sendChan == c.sendChan && d.entered == c.entered && d.handed == c.handed
    && d.handing == c.handing && (c.disconnected ==> d.disconnected)
  }

  lemma OtherSame<T>(c: Client<T>, s: Step<T>)
    requires !s.HandOver? && !s.Reply? && !s.Take? && !s.Drain? && !s.Notify? && !s.Sent? && !s.Ask? && !s.Refuse?
    ensures SameTraffic(c, Next(c, s))
  {
  }

  lemma SameOrderly<T>(c: Client<T>, d: Client<T>)
    requires Orderly(c) && SameTraffic(c, d)
    ensures Orderly(d)
  {
  }

  lemma StaysAttentive<T>(c: Client<T>, s: Step<T>)
    requires Inv(c) && Attentive(c)
    ensures Attentive(Next(c, s))
  {
    if Moves(s) {
      StepMoves(c, s);
    }
  }

  lemma {:induction false} OrderlyAlways<T>(steps: seq<Step<T>>)
    ensures Orderly(Run(Start<T>(), steps)) && Attentive(Run(Start<T>(), steps))
  {
    if steps != [] {
      var init, s := steps[..|steps| - 1], steps[|steps| - 1];
      NeverBlocks(init);
      OrderlyAlways(init);
      var c := Run(Start<T>(), init);
      StaysAttentive(c, s);
      match s
      case HandOver => HandOverOrderly(c);
      case Reply(i) => ReplyOrderly(c, i);
      case Take | Drain => LeaveOrderly(c, s);
      case Notify(msg) => NotifyOrderly(c, msg);
      case Sent => SentOrderly(c);
      case Ask | Refuse => AskOrderly(c, s);
      case _ =>
        OtherSame(c, s);
        SameOrderly(c, Next(c, s));
    }
  }

  /**
   * In every interleaving the notifications that come out of the send channel are the first ones that were
   * received, in that order.  As long as the client is connected none of the others is lost: they are in the
   * channel, being handed over, or pending, and pending only while one is in flight.
   */
  lemma DeliveredInOrder<T>(steps: seq<Step<T>>)
    ensures var c := Run(Start<T>(), steps);
      && Ntfns(c.taken) <= c.received
      && (!c.disconnected ==> c.received == Ntfns(c.taken) + Ntfns(c.sendChan) + InHand(c) + c.pending)
      && (!c.disconnected && c.pending != [] ==> InFlight(c) == 1)
  {
    NeverBlocks(steps);
    OrderlyAlways(steps);
    var c := Run(Start<T>(), steps);
    NtfnsJoin(c.taken, c.sendChan);
  }
}
