// The recorder's channel: the writer handles exactly the events that found room, in the order they
// were sent, and whatever has happened it can be drained and shut down.
module RoundChannel {
  import opened Bytes
  import opened RoundJson
  import opened RoundCodec
  import opened RoundWriter
  import opened RoundFiles
  import opened RoundConservation

  /** The events sent while the writer was up and fewer than 16,384 others waited, in order. */
  ghost function Accepted(setup: Setup, actions: seq<Action>): seq<Event> {
    if |actions| == 0 then []
    else
      var before, a := actions[..|actions| - 1], actions[|actions| - 1];
      var y := History(setup, before);
      if a.Send? && !y.closed && |y.queue| < 16_384 then Accepted(setup, before) + [a.event] else Accepted(setup, before)
  }

  /** The events the writer has handled. */
  function Done(steps: seq<Step>): seq<Event> {
    if |steps| == 0 then []
    else
      var init, last := Done(steps[..|steps| - 1]), steps[|steps| - 1];
      if last.Take? then init + [last.event] else init
  }

  function InHandNow(received: Option<Event>): seq<Event> {
    if received.Some? then [received.value] else []
  }

  /** Handled, in hand and waiting, one after another. */
  function Through(y: System): seq<Event> { Done(y.steps) + InHandNow(y.received) + y.queue }

  ghost predicate Orderly(y: System) {
    && |y.queue| <= 16_384
    && (y.closed ==> y.queue == [] && y.received.None?)
  }

  lemma DoneOne(steps: seq<Step>, e: Event, lost: u64, now: u64)
    ensures Done(steps + [Take(e, lost, now)]) == Done(steps) + [e]
  {
    assert (steps + [Take(e, lost, now)])[..|steps|] == steps;
  }

  lemma TakeFirst(done: seq<Event>, queue: seq<Event>)
    requires |queue| > 0
    ensures done + [] + queue == done + [queue[0]] + queue[1..]
  {
  }

  lemma PutLast(front: seq<Event>, queue: seq<Event>, e: Event)
    ensures front + (queue + [e]) == front + queue + [e]
  {
  }

  /** What one action does to the events on their way: a send that finds room adds its own at the
      end, and nothing else changes them. */
  lemma OneAction(setup: Setup, y: System, a: Action)
    requires (y.writer.open ==> 0 in y.writer.trace.files) && Orderly(y)
    ensures var r := Act(setup, y, a);
            && Orderly(r)
            && Through(r) == (if a.Send? && !y.closed && |y.queue| < 16_384 then Through(y) + [a.event] else Through(y))
            && r.closed == (y.closed || (a.Close? && y.queue == [] && y.received.None?))
  {
    hide Handled, Closed, Writes, Done;
    match a {
      case Send(e) => PutLast(Done(y.steps) + InHandNow(y.received), y.queue, e);
      case AddLost =>
      case Receive =>
        if |y.queue| > 0 { TakeFirst(Done(y.steps), y.queue); }
      case Handle(now) =>
        if y.received.Some? { DoneOne(y.steps, y.received.value, y.lost, now); }
      case Close(now) =>
    }
  }

  /** First in, first out, in every interleaving: what the writer has handled, what it holds and what
      waits are together the events that found room, in the order they were sent; the channel holds at
      most 16,384, and is empty once closed. */
  lemma {:induction false} ChannelKeepsOrder(setup: Setup, actions: seq<Action>)
    ensures Orderly(History(setup, actions)) && Through(History(setup, actions)) == Accepted(setup, actions)
  {
    if |actions| > 0 {
      var before := actions[..|actions| - 1];
      ChannelKeepsOrder(setup, before);
      hide Act, Orderly, Through;
      OneAction(setup, History(setup, before), actions[|actions| - 1]);
    }
  }

  lemma HistoryOne(setup: Setup, actions: seq<Action>, a: Action)
    ensures History(setup, actions + [a]) == Act(setup, History(setup, actions), a)
    ensures !a.Send? ==> Accepted(setup, actions + [a]) == Accepted(setup, actions)
  {
    assert (actions + [a])[..|actions|] == actions;
    hide Act;
  }

  lemma Appended<T>(a: seq<T>, x: T, b: seq<T>)
    ensures a + [x] + b == a + ([x] + b)
  {
  }

  lemma Progress(setup: Setup, y: System, now: u64)
    requires y.writer.open ==> 0 in y.writer.trace.files
    ensures y.received.Some? ==> Act(setup, y, Handle(now)).received == None && Act(setup, y, Handle(now)).queue == y.queue
    ensures y.received.None? && |y.queue| > 0 ==>
              Act(setup, y, Receive).received.Some? && Act(setup, y, Receive).queue == y.queue[1..]
    ensures y.received.None? && y.queue == [] ==> Act(setup, y, Close(now)).closed
  {
    hide Handled, Closed, Writes;
  }

  /** From wherever senders and writer stand, the writer can go on alone until it has handled every
      event that found room, and then shut down. */
  lemma {:induction false} CanDrain(setup: Setup, actions: seq<Action>, now: u64) returns (more: seq<Action>)
    ensures forall a | a in more :: !a.Send?
    ensures var y := History(setup, actions + more);
            y.closed && Done(y.steps) == Accepted(setup, actions)
    decreases var y := History(setup, actions);
              2 * |y.queue| + (if y.received.Some? then 1 else 0) + (if y.closed then 0 else 1)
  {
    var y := History(setup, actions);
    ChannelKeepsOrder(setup, actions);
    if y.closed {
      more := [];
      assert actions + more == actions;
    } else {
      Progress(setup, y, now);
      var a := if y.received.Some? then Handle(now) else if |y.queue| > 0 then Receive else Close(now);
      OneAction(setup, y, a);
      HistoryOne(setup, actions, a);
      hide Act, Done, Accepted, History;
      var rest := CanDrain(setup, actions + [a], now);
      more := [a] + rest;
      Appended(actions, a, rest);
    }
  }
}
