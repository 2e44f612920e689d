/** What a connection achieves: which bytes one call of sendMessage gets rid of, and that every message
    queued on a connection that does not break is handled (NetworkImpl.h, AIDebugger.cpp). */
module WireDelivery {
  import opened WireBytes
  import WireMessages
  import opened WireFraming
  import opened WireLink

  /** sendMessage calls send `n` times with success, each time for between 1 and 16384 bytes.  It stops when
      all is sent, when a call takes nothing, which is no error, or when a call fails, which is one. */
  lemma {:induction false} SendExact(out: seq<byte>, send: nat -> int, k: nat) returns (n: nat)
    ensures SentBy(|out|, SendLoop(out, send, k), send, k, n)
    decreases |out|
  {
    if out == [] || send(k) <= 0 {
      n := 0;
    } else {
      var t := OneSend(out, send, k);
      var m := SendExact(out[t..], send, k + 1);
      n := m + 1;
      SentMore(|out|, SendLoop(out, send, k), send, k, m, t);
    }
  }

  /** Of `size` bytes, `n` sends from number `k` on got rid of all but what `r` has left, and `r` says why they
      stopped. */
  ghost predicate SentBy(size: nat, r: Sent, send: nat -> int, k: nat, n: nat) {
    && (forall j :: k <= j < k + n ==> send(j) > 0)
    && n <= size - |r.out| <= 16384 * n
    && (if r.out == [] then r.ok else if r.ok then send(k + n) == 0 else send(k + n) < 0)
  }

  lemma SentMore(size: nat, r: Sent, send: nat -> int, k: nat, m: nat, t: nat)
    requires send(k) > 0 && 1 <= t <= 16384 && t <= size && SentBy(size - t, r, send, k + 1, m)
    ensures SentBy(size, r, send, k, m + 1)
  {
  }

  /** A send that succeeds takes between 1 and 16384 bytes off the front, and the loop goes on with the rest. */
  lemma OneSend(out: seq<byte>, send: nat -> int, k: nat) returns (t: nat)
    requires out != [] && send(k) > 0
    ensures 1 <= t <= 16384 && t <= |out| && SendLoop(out, send, k) == SendLoop(out[t..], send, k + 1)
  {
    t := Taken(out, send(k));
  }

  /** The message handed over in an event, if any. */
  function MessageOf(e: Event): seq<WireMessages.Message> {
    if e.Queue? then [e.message] else []
  }

  function MessagesOf(es: seq<Event>): seq<WireMessages.Message> {
    if es == [] then [] else MessageOf(es[0]) + MessagesOf(es[1..])
  }

  /** No call of send fails; it may take nothing. */
  ghost predicate NoSendFails(es: seq<Event>) {
    forall i :: 0 <= i < |es| && es[i].Send? ==> forall j :: j >= 0 ==> es[i].send(j) >= 0
  }

  lemma SendKeepsOpen(l: Link, send: nat -> int, handlers: set<byte>)
    requires forall j :: j >= 0 ==> send(j) >= 0
    ensures Step(l, Send(send), handlers).connected == l.connected
    ensures Step(l, Send(send), handlers).queued == l.queued
  {
    var n := SendExact(l.out, send, 0);
  }

  /** A failing send closes the connection: nothing more leaves it, and nothing more is queued. */
  lemma FailureCloses(l: Link, send: nat -> int, m: WireMessages.Message, handlers: set<byte>)
    requires !SendLoop(l.out, send, 0).ok
    ensures var next := Step(l, Send(send), handlers);
      && !next.connected && next.out == [] && Step(next, Queue(m), handlers) == next
      && next.wire + next.lost == l.wire + (l.out + l.lost)
  {
    AfterSendAhead(l, SendLoop(l.out, send, 0));
    assert [] + AfterSend(l, SendLoop(l.out, send, 0)).lost == AfterSend(l, SendLoop(l.out, send, 0)).lost;
  }

  /** While no send fails, what is queued are the messages handed over, all of them and in order. */
  lemma {:induction false} AllQueued(l: Link, es: seq<Event>, handlers: set<byte>)
    requires l.connected && NoSendFails(es)
    ensures Run(l, es, handlers).connected && Run(l, es, handlers).queued == l.queued + MessagesOf(es)
    decreases |es|
  {
    if es == [] {
      assert l.queued + [] == l.queued;
    } else {
      StepQueued(l, es[0], handlers);
      AllQueued(Step(l, es[0], handlers), es[1..], handlers);
      Rejoined(l.queued, MessageOf(es[0]), MessagesOf(es[1..]));
    }
  }

  lemma Rejoined<T>(a: seq<T>, b: seq<T>, c: seq<T>)
    ensures (a + b) + c == a + (b + c)
  {
  }

  lemma StepQueued(l: Link, e: Event, handlers: set<byte>)
    requires l.connected && (e.Send? ==> forall j :: j >= 0 ==> e.send(j) >= 0)
    ensures Step(l, e, handlers).connected && Step(l, e, handlers).queued == l.queued + MessageOf(e)
  {
    if e.Send? { SendKeepsOpen(l, e.send, handlers); }
    if !e.Queue? { assert l.queued + [] == l.queued; }
  }

  lemma SentAll(l: Link, send: nat -> int, handlers: set<byte>)
    requires l.connected && l.lost == [] && forall j :: j >= 0 ==> send(j) > 0
    ensures var next := Step(l, Send(send), handlers);
      next.out == [] && next.lost == [] && next.wire == l.wire + l.out && next.connected
  {
    var n := SendExact(l.out, send, 0);
    assert l.out[..|l.out|] == l.out;
  }

  lemma ReceivedAll(l: Link, n: nat, handlers: set<byte>)
    requires l.out == [] && l.lost == [] && n >= |l.wire|
    ensures Ahead(Step(l, Receive(n), handlers)) == []
  {
  }

  /** For every pattern of queueing, partial sends and received chunks in which no send fails: once a send
      takes everything and as many bytes as are on their way are read, the debugger has handled exactly the
      messages that were queued, in order, and has no byte left. */
  lemma Delivered(es: seq<Event>, send: nat -> int, n: nat, handlers: set<byte>)
    requires AllAllowed(Start(), es + [Send(send)] + [Receive(n)], handlers) && NoSendFails(es)
    requires (forall j :: j >= 0 ==> send(j) > 0) && n >= |Ahead(Run(Start(), es, handlers))|
    ensures var l := Run(Start(), es + [Send(send)] + [Receive(n)], handlers);
      l.box.handled == MessagesOf(es) && l.box.stream == [] && l.box.status == Open
  {
    var l := Run(Start(), es, handlers);
    RunAppend(Start(), es, Send(send), handlers);
    RunAppend(Start(), es + [Send(send)], Receive(n), handlers);
    RunInv(Start(), es, handlers);
    AllQueued(Start(), es, handlers);
    assert [] + MessagesOf(es) == MessagesOf(es);
    SentAll(l, send, handlers);
    ReceivedAll(Step(l, Send(send), handlers), n, handlers);
    FifoComplete(es + [Send(send)], n, handlers);
    Fifo(es + [Send(send)] + [Receive(n)], handlers);
  }

  /** An update with nothing new to receive. */
  predicate Updated(l: Link, next: Link, handlers: set<byte>) {
    next == Step(l, ReceiveOne(0), handlers)
  }

  /** The states from one update to the next. */
  ghost predicate Updates(ls: seq<Link>, handlers: set<byte>) {
    forall i :: 0 <= i < |ls| - 1 ==> Updated(ls[i], ls[i + 1], handlers)
  }

  /** All bytes are in the buffer, and what is handled is behind by `k` messages. */
  ghost predicate Behind(l: Link, k: int, handlers: set<byte>) {
    LinkInv(l, handlers) && Ahead(l) == [] && |l.box.stream| < 0x8000_0000 && |l.queued| - |l.box.handled| == k
  }

  /** The server handles one message per update: with all bytes in its buffer, as many updates as there are
      messages waiting handle them all. */
  lemma UpdatesHandleAll(ls: seq<Link>, k: nat, handlers: set<byte>)
    requires |ls| == k + 1 && Updates(ls, handlers) && Behind(ls[0], k, handlers)
    ensures ls[k].box.handled == ls[k].queued == ls[0].queued
  {
    UpdatesUpTo(ls, k, k, handlers);
    AllDone(ls[k], handlers);
  }

  lemma {:induction false} UpdatesUpTo(ls: seq<Link>, k: nat, i: nat, handlers: set<byte>)
    requires |ls| == k + 1 && Updates(ls, handlers) && Behind(ls[0], k, handlers) && i <= k
    ensures Behind(ls[i], k - i, handlers) && ls[i].queued == ls[0].queued
  {
    if i > 0 {
      UpdatesUpTo(ls, k, i - 1, handlers);
      assert Updated(ls[i - 1], ls[i - 1 + 1], handlers);
      OneUpdate(ls[i - 1], ls[i], k - i + 1, handlers);
    }
  }

  lemma AllDone(l: Link, handlers: set<byte>)
    requires Behind(l, 0, handlers)
    ensures l.box.handled == l.queued
  {
    assert l.box.handled <= l.queued;
  }

  lemma OneUpdate(l: Link, next: Link, k: int, handlers: set<byte>)
    requires Behind(l, k, handlers) && k > 0 && Updated(l, next, handlers)
    ensures Behind(next, k - 1, handlers) && next.queued == l.queued
  {
    UpdateHandlesNext(l, handlers);
    StepInv(l, ReceiveOne(0), handlers);
    NothingRead(l.box, l.wire, handlers);
  }

  lemma NothingRead(box: Inbox, wire: seq<byte>, handlers: set<byte>)
    requires wire == []
    ensures AtMost(0, wire) == 0 && |ArriveOne(box, wire[..0], handlers).stream| <= |box.stream|
  {
    assert box.stream + wire[..0] == box.stream;
    if box.status == Open && Available(box.stream) { DecodeShorter(box.stream[4..]); }
  }
}
