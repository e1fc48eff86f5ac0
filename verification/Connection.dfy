/** The write queue of a connection (src/connection.cpp). Everything runs on the connection's strand, so
    each handler is one step. A write is asynchronous: it is handed to the socket, and its completion
    handler comes later, once. */
module Connections {

  /** A message, by the number of its `send`. */
  type Message = nat

  /** `broken` says that a write failed or could not be started; `forced`, that the connection was
      closed without waiting for the queue. `doomed` marks a write started on a closed socket, which
      can only complete with an error. The ghost-like logs: what `send` took, what was written. */
  datatype State = State(
    queue: seq<Message>, closed: bool, open: bool, outstanding: bool, doomed: bool, forced: bool, broken: bool,
    accepted: seq<Message>, written: seq<Message>)

  datatype Event =
    | Send(msg: Message, startFails: bool)
    | Close(force: bool)
    | Completed(error: bool, startFails: bool)

  const START: State := State([], false, true, false, false, false, false, [], [])

  /** `close`. */
  function Closed(s: State, force: bool): State {
    if s.closed then s
    else s.(closed := true, forced := force, open := s.open && !(s.queue == [] || force))
  }

  /** `internalSend` of the front of the queue. */
  function Started(s: State, startFails: bool): State {
    if startFails then Closed(s.(broken := true), true)
    else s.(outstanding := true, doomed := !s.open)
  }

  /** `send`. */
  function Sent(s: State, msg: Message, startFails: bool): State {
    if s.closed then s
    else
      var queued := s.(queue := s.queue + [msg], accepted := s.accepted + [msg]);
      if s.queue == [] then Started(queued, startFails) else queued
  }

  /** `onWriteOperation`; the write that completed is the one at the front of the queue. */
  function Done(s: State, error: bool, startFails: bool): State
    requires s.queue != []
  {
    var popped := s.(queue := s.queue[1..], outstanding := false, doomed := false,
                     written := if error then s.written else s.written + [s.queue[0]]);
    if error then Closed(popped.(queue := [], broken := true), true)
    else if popped.queue != [] then Started(popped, startFails)
    else if s.closed then popped.(open := false)
    else popped
  }

  /** A completion comes only for a write that is outstanding. */
  predicate Enabled(s: State, e: Event) {
    e.Completed? ==> s.outstanding && (s.doomed ==> e.error)
  }

  function Next(s: State, e: Event): State
    requires Inv(s) && Enabled(s, e)
  {
    match e
    case Send(msg, startFails) => Sent(s, msg, startFails)
    case Close(force) => Closed(s, force)
    case Completed(error, startFails) => Done(s, error, startFails)
  }

  /** What holds at every step. An outstanding write has its message at the front of the queue; while
      nothing has broken, a non-empty queue has a write outstanding, and what was taken is what was
      written followed by what is queued. */
  predicate Inv(s: State) {
    && (s.outstanding ==> s.queue != [])
    && (s.doomed ==> s.outstanding && !s.open)
    && s.written <= s.accepted
    && (!s.broken ==> (s.queue != [] <==> s.outstanding) && s.accepted == s.written + s.queue)
    && (s.outstanding ==> s.written + [s.queue[0]] <= s.accepted && s.written + s.queue <= s.accepted)
    && (!s.closed ==> s.open && !s.broken && !s.forced)
    && (s.closed && s.queue == [] && !s.broken ==> !s.open)
    && (s.closed && !s.forced && !s.broken && s.queue != [] ==> s.open)
    && (s.forced ==> !s.open)
  }

  lemma SentKeepsInv(s: State, msg: Message, startFails: bool)
    requires Inv(s)
    ensures Inv(Sent(s, msg, startFails))
  {
    if !s.closed {
      assert s.written <= s.accepted + [msg];
      if s.queue == [] { assert s.written + [msg] == s.accepted + [msg]; }
    }
  }

  lemma DoneKeepsInv(s: State, error: bool, startFails: bool)
    requires Inv(s) && s.outstanding && (s.doomed ==> error)
    ensures Inv(Done(s, error, startFails))
  {
    assert s.queue == [s.queue[0]] + s.queue[1..];
    assert s.written + s.queue == (s.written + [s.queue[0]]) + s.queue[1..];
    if s.queue[1..] != [] {
      assert s.written + [s.queue[0]] + [s.queue[1]] <= s.written + s.queue;
    }
  }

  lemma StepKeepsInv(s: State, e: Event)
    requires Inv(s) && Enabled(s, e)
    ensures Inv(Next(s, e))
  {
    match e
    case Send(msg, startFails) => SentKeepsInv(s, msg, startFails);
    case Close(force) =>
    case Completed(error, startFails) => DoneKeepsInv(s, error, startFails);
  }

  // ---------------------------------------------------------------- whole runs

  /** Each event is enabled where it comes. */
  predicate Possible(s: State, es: seq<Event>)
    requires Inv(s)
    decreases |es|
  {
    es == [] || (Enabled(s, es[0]) && (StepKeepsInv(s, es[0]); Possible(Next(s, es[0]), es[1..])))
  }

  function After(s: State, es: seq<Event>): (r: State)
    requires Inv(s) && Possible(s, es)
    ensures Inv(r)
    decreases |es|
  {
    if es == [] then s else (StepKeepsInv(s, es[0]); After(Next(s, es[0]), es[1..]))
  }

  /** The messages sent before the connection was closed. */
  function SentOf(s: State, es: seq<Event>): seq<Message>
    requires Inv(s) && Possible(s, es)
    decreases |es|
  {
    if es == [] then []
    else
      StepKeepsInv(s, es[0]);
      (if es[0].Send? && !s.closed then [es[0].msg] else []) + SentOf(Next(s, es[0]), es[1..])
  }

  lemma StepAccepts(s: State, e: Event)
    requires Inv(s) && Enabled(s, e)
    ensures Next(s, e).accepted == s.accepted + if e.Send? && !s.closed then [e.msg] else []
  {
  }

  lemma {:induction false} AcceptedIsSent(s: State, es: seq<Event>)
    requires Inv(s) && Possible(s, es)
    ensures After(s, es).accepted == s.accepted + SentOf(s, es)
    decreases |es|
  {
    hide Inv;
    hide Next;
    if es == [] {
    } else {
      StepKeepsInv(s, es[0]);
      StepAccepts(s, es[0]);
      AcceptedIsSent(Next(s, es[0]), es[1..]);
    }
  }

  /** In every reachable state the messages written are the first ones sent, in the order they were sent,
      and an outstanding write carries the next of them, which is the front of the queue. */
  lemma WritesInSendOrder(es: seq<Event>)
    requires Possible(START, es)
    ensures var s, sent := After(START, es), SentOf(START, es);
            && s.written <= sent
            && (s.outstanding ==> s.queue != [] && |s.written| < |sent| && s.queue[0] == sent[|s.written|])
  {
    AcceptedIsSent(START, es);
    var s := After(START, es);
    if s.outstanding {
      assert (s.written + [s.queue[0]])[|s.written|] == s.queue[0];
    }
  }

  /** Nothing fails: every completion is without error, every write can be started, nobody forces. */
  predicate Smooth(es: seq<Event>) {
    forall i :: 0 <= i < |es| ==>
      match es[i]
      case Send(_, startFails) => !startFails
      case Close(force) => !force
      case Completed(error, startFails) => !error && !startFails
  }

  function Completions(es: seq<Event>): nat {
    if es == [] then 0 else (if es[0].Completed? then 1 else 0) + Completions(es[1..])
  }

  predicate Draining(s: State) {
    Inv(s) && s.closed && !s.forced && !s.broken
  }

  /** While a gracefully closed connection drains only completions change it, one message at a time. */
  lemma DrainStep(s: State, e: Event)
    requires Draining(s) && Enabled(s, e) && Smooth([e])
    ensures Draining(Next(s, e))
    ensures if e.Completed? then
              s.queue != [] && Next(s, e).queue == s.queue[1..] && Next(s, e).written == s.written + [s.queue[0]]
            else Next(s, e) == s
  {
    StepKeepsInv(s, e);
    assert Smooth([e]) && [e][0] == e;
  }

  lemma SmoothSplit(es: seq<Event>)
    requires Smooth(es) && es != []
    ensures Smooth([es[0]]) && Smooth(es[1..])
  {
  }

  lemma Shift(w: seq<Message>, q: seq<Message>, n: nat)
    requires q != [] && n <= |q| - 1
    ensures w + [q[0]] + q[1..][..n] == w + q[..n + 1] && q[1..][n..] == q[n + 1..]
  {
  }

  /** On a smooth run from a gracefully closed connection each completion writes one message more, and
      the rest stays queued. */
  lemma {:induction false} Drains(s: State, es: seq<Event>)
    requires Draining(s) && Possible(s, es) && Smooth(es)
    ensures var r := After(s, es);
            && Completions(es) <= |s.queue|
            && r.written == s.written + s.queue[..Completions(es)] && r.queue == s.queue[Completions(es)..]
            && Draining(r)
    decreases |es|
  {
    if es == [] {
    } else {
      hide Inv;
      hide Next;
      SmoothSplit(es);
      hide Smooth;
      DrainStep(s, es[0]);
      Drains(Next(s, es[0]), es[1..]);
      if es[0].Completed? { Shift(s.written, s.queue, Completions(es[1..])); }
    }
  }

  /** The socket is open, and a write is outstanding, exactly as long as there is something queued. */
  lemma OpenWhileDraining(s: State)
    requires Draining(s)
    ensures (s.outstanding <==> s.queue != []) && (s.open <==> s.queue != [])
  {
  }

  /** As long as something is queued a completion can come: the drain is never stuck. */
  lemma NeverStuck(s: State)
    requires Draining(s) && s.queue != []
    ensures Enabled(s, Completed(false, false)) && s.open
  {
  }

  /** After a graceful close nothing that was sent before it is lost: once as many completions have come
      as there were messages queued, everything sent is written and the socket is closed, and not
      before. */
  lemma GracefulCloseDrains(before: seq<Event>, after: seq<Event>)
    requires Possible(START, before) && !After(START, before).closed
    requires Possible(Closed(After(START, before), false), after) && Smooth(after)
    ensures var queued := |After(START, before).queue|;
            var sent, r := SentOf(START, before), After(Closed(After(START, before), false), after);
            && Completions(after) <= queued
            && r.accepted == sent
            && (!r.open <==> Completions(after) == queued)
            && (Completions(after) == queued ==> r.written == sent)
  {
    var s := After(START, before);
    StepKeepsInv(s, Close(false));
    Drains(Closed(s, false), after);
    OpenWhileDraining(After(Closed(s, false), after));
    AcceptedIsSent(START, before);
    AcceptedIsSent(Closed(s, false), after);
    NothingSentAfterClose(Closed(s, false), after);
  }

  lemma {:induction false} NothingSentAfterClose(s: State, es: seq<Event>)
    requires Inv(s) && s.closed && Possible(s, es)
    ensures SentOf(s, es) == []
    decreases |es|
  {
    if es == [] {
    } else {
      StepKeepsInv(s, es[0]);
      NothingSentAfterClose(Next(s, es[0]), es[1..]);
    }
  }

  // ---------------------------------------------------------------- when a write fails

  /** A closed connection with nothing queued stays as it is. */
  lemma {:induction false} NothingMore(s: State, es: seq<Event>)
    requires Inv(s) && s.closed && s.queue == [] && Possible(s, es)
    ensures After(s, es) == s
    decreases |es|
  {
    if es == [] {
    } else {
      StepKeepsInv(s, es[0]);
      NothingMore(Next(s, es[0]), es[1..]);
    }
  }

  lemma {:induction false} AfterSplit(s: State, first: seq<Event>, rest: seq<Event>)
    requires Inv(s) && Possible(s, first + rest)
    ensures Possible(s, first) && Possible(After(s, first), rest)
    ensures After(s, first + rest) == After(After(s, first), rest)
    decreases |first|
  {
    hide Inv;
    hide Next;
    hide Enabled;
    if first == [] {
      assert first + rest == rest;
    } else {
      var all := first + rest;
      assert all[0] == first[0] && all[1..] == first[1..] + rest;
      StepKeepsInv(s, first[0]);
      AfterSplit(Next(s, first[0]), first[1..], rest);
    }
  }

  /** A run that has had a failed write ends with a closed connection that has nothing queued and no write outstanding.
      Its socket is closed exactly if the connection had not been closed before the write failed: one that was closed
      gracefully keeps its socket open. */
  lemma FailedWriteEnds(es: seq<Event>, k: nat)
    requires Possible(START, es) && k < |es| && es[k].Completed? && es[k].error
    ensures Possible(START, es[..k])
    ensures var before, r := After(START, es[..k]), After(START, es);
            r.closed && r.queue == [] && !r.outstanding && r.written == before.written && (r.open <==> before.closed && before.open)
  {
    assert es == es[..k] + es[k..];
    AfterSplit(START, es[..k], es[k..]);
    var before, rest := After(START, es[..k]), es[k..];
    StepKeepsInv(before, rest[0]);
    NothingMore(Next(before, rest[0]), rest[1..]);
  }

  // ---------------------------------------------------------------- the connection itself

  class Connection {
    var messageQueue: seq<Message>
    var closed: bool
    var open: bool
    ghost var outstanding: bool
    ghost var doomed: bool
    ghost var forced: bool
    ghost var broken: bool
    ghost var accepted: seq<Message>
    ghost var written: seq<Message>

    ghost function Value(): State
      reads this
    {
      State(messageQueue, closed, open, outstanding, doomed, forced, broken, accepted, written)
    }

    constructor ()
      ensures Value() == START
    {
      messageQueue, closed, open := [], false, true;
      outstanding, doomed, forced, broken, accepted, written := false, false, false, false, [], [];
    }

    /** `close`. */
    method Close(force: bool)
      modifies this
      ensures Value() == Closed(old(Value()), force)
    {
      if closed { return; }
      closed := true;
      forced := force;
      if messageQueue == [] || force {
        CloseSocket();
      }
    }

    method CloseSocket()
      modifies `open
      ensures !open
    {
      if open {
        open := false;
      }
    }

    /** `internalSend`; starting the write may throw. */
    method InternalSend(startFails: bool)
      modifies this
      ensures Value() == Started(old(Value()), startFails)
    {
      if startFails {
        broken := true;
        Close(true);
      } else {
        outstanding, doomed := true, !open;
      }
    }

    /** `send`. */
    method Send(msg: Message, startFails: bool)
      modifies this
      ensures Value() == Sent(old(Value()), msg, startFails)
    {
      if closed { return; }
      var noPendingWrite := messageQueue == [];
      messageQueue := messageQueue + [msg];
      accepted := accepted + [msg];
      if noPendingWrite {
        InternalSend(startFails);
      }
    }

    /** `onWriteOperation`; the queue is never empty here. */
    method OnWriteOperation(error: bool, startFails: bool)
      requires Inv(Value()) && Enabled(Value(), Completed(error, startFails))
      modifies this
      ensures old(Value()).queue != [] && Value() == Done(old(Value()), error, startFails)
    {
      written := if error then written else written + [messageQueue[0]];
      messageQueue := messageQueue[1..];
      outstanding, doomed := false, false;
      if error {
        messageQueue := [];
        broken := true;
        Close(true);
        return;
      }
      if messageQueue != [] {
        InternalSend(startFails);
      } else if closed {
        CloseSocket();
      }
    }
  }
}
