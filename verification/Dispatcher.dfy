/** The objects of internal/antivpn/dispatcher.go, one call at a time; Delivery has the
    interleavings of deliver. A channel is a sequence with a capacity. */
module Dispatcher {
  import opened Text
  import opened Delivery
  import opened Backlog

  /** The handler was given the queue in order: all of it, or as much as it took until it
      saw the cancellation. */
  ghost predicate HandedOn(
    patience: nat, queue: seq<Event>, handled: seq<Event>, queue': seq<Event>, handled': seq<Event>
  ) {
    && handled' + queue' == handled + queue
    && |handled'| == |handled| + if patience < |queue| then patience else |queue|
  }

  /** dispatcherEntry: handled is what the handler has been given. */
  class Entry {
    const cap: nat
    var queue: seq<Event>
    var dropped: nat
    var open: bool
    ghost var handled: seq<Event>

    ghost predicate Valid()
      reads this
    {
      0 < cap && |queue| <= cap
    }

    constructor (cap: nat)
      requires 0 < cap
      ensures Valid() && this.cap == cap && open
      ensures queue == [] && dropped == 0 && handled == []
    {
      this.cap := cap;
      queue, dropped, open, handled := [], 0, true, [];
    }

    /** A send that does not wait. */
    method TrySend(event: Event) returns (ok: bool)
      requires Valid()
      modifies this`queue
      ensures Valid() && ok == (|old(queue)| < cap)
      ensures queue == if ok then old(queue) + [event] else old(queue)
    {
      ok := |queue| < cap;
      if ok {
        queue := queue + [event];
      }
    }

    /** A receive that does not wait. */
    method TryReceive() returns (event: Option<Event>)
      requires Valid()
      modifies this`queue
      ensures Valid()
      ensures event == if old(queue) == [] then None else Some(old(queue)[0])
      ensures queue == if old(queue) == [] then [] else old(queue)[1..]
    {
      if queue == [] {
        return None;
      }
      event := Some(queue[0]);
      queue := queue[1..];
    }

    /** Warns the first time only. */
    method RecordDrop() returns (warn: bool)
      modifies this`dropped
      ensures dropped == old(dropped) + 1
      ensures warn <==> old(dropped) == 0
    {
      warn := dropped == 0;
      dropped := dropped + 1;
    }

    /** The handler's goroutine, until the queue is empty or it sees the cancellation
        after so many events. */
    method RunHandler(patience: nat)
      requires Valid()
      modifies this`queue, this`handled
      ensures Valid()
      ensures HandedOn(patience, old(queue), old(handled), queue, handled)
    {
      ghost var all := queue;
      var n := 0;
      while n < patience && queue != []
        invariant 0 <= n <= patience && n <= |all| && Valid()
        invariant handled + queue == old(handled) + all && |handled| == |old(handled)| + n
        invariant |queue| == |all| - n
        decreases |queue|
      {
        var event := TryReceive();
        handled := handled + [event.value];
        n := n + 1;
      }
    }

    /** Closes the queue and waits for the goroutine. */
    method Shut(patience: nat)
      requires Valid()
      modifies this`queue, this`handled, this`open
      ensures Valid() && !open && HandedOn(patience, old(queue), old(handled), queue, handled)
    {
      open := false;
      RunHandler(patience);
    }
  }

  /** What one delivery does to an entry. */
  ghost predicate Delivered(policy: Policy, cap: nat, before: seq<Event>, after: seq<Event>, event: Event, drops: int) {
    0 < cap && after == Offered(policy, cap, before, event) && drops == if |before| < cap then 0 else 1
  }

  predicate Accepts(policy: Policy, cap: nat, queue: seq<Event>) { policy.DropOldest? || |queue| < cap }

  /** How many of the queues accept an event. */
  function Accepting(policy: Policy, cap: nat, queues: seq<seq<Event>>): nat {
    if queues == [] then 0
    else
      Accepting(policy, cap, queues[..|queues| - 1]) + if Accepts(policy, cap, queues[|queues| - 1]) then 1 else 0
  }

  lemma AcceptingStep(policy: Policy, cap: nat, queues: seq<seq<Event>>, i: nat)
    requires i < |queues|
    ensures Accepting(policy, cap, queues[..i + 1]) ==
            Accepting(policy, cap, queues[..i]) + if Accepts(policy, cap, queues[i]) then 1 else 0
  {
    assert queues[..i + 1][..i] == queues[..i];
  }

  /** Under drop-oldest a published event reaches every handler. */
  lemma {:induction false} AllAcceptDropOldest(cap: nat, queues: seq<seq<Event>>)
    ensures Accepting(DropOldest, cap, queues) == |queues|
  {
    if queues == [] {
    } else {
      AllAcceptDropOldest(cap, queues[..|queues| - 1]);
    }
  }

  class EventDispatcher {
    const bufferSize: nat
    const policy: Policy
    var handlers: seq<Entry>
    var closed: bool

    ghost predicate Valid()
      reads this, handlers
    {
      && 0 < bufferSize
      && (closed ==> handlers == [])
      && (forall i, j :: 0 <= i < j < |handlers| ==> handlers[i] != handlers[j])
      && (forall e :: e in handlers ==> e.Valid() && e.open && e.cap == bufferSize)
    }

    ghost function Queues(): (r: seq<seq<Event>>)
      reads this, handlers
      ensures |r| == |handlers| && forall i :: 0 <= i < |r| ==> r[i] == handlers[i].queue
    {
      seq(|handlers|, i requires 0 <= i < |handlers| reads this, handlers => handlers[i].queue)
    }

    ghost function AllHandled(): (r: seq<seq<Event>>)
      reads this, handlers
      ensures |r| == |handlers| && forall i :: 0 <= i < |r| ==> r[i] == handlers[i].handled
    {
      seq(|handlers|, i requires 0 <= i < |handlers| reads this, handlers => handlers[i].handled)
    }

    constructor (bufferSize: int, policy: Policy)
      ensures Valid() && !closed && handlers == []
      ensures this.bufferSize == (if bufferSize <= 0 then 256 else bufferSize) && this.policy == policy
    {
      this.bufferSize := Capacity(bufferSize);
      this.policy := policy;
      handlers, closed := [], false;
    }

    /** Registers a handler; after Close it does nothing. */
    method Subscribe() returns (entry: Option<Entry>)
      requires Valid()
      modifies this`handlers
      ensures Valid()
      ensures old(closed) <==> entry.None?
      ensures old(closed) ==> handlers == old(handlers)
      ensures !old(closed) ==>
                && fresh(entry.value) && entry.value.queue == []
                && handlers == old(handlers) + [entry.value]
    {
      if closed {
        return None;
      }
      var e := new Entry(bufferSize);
      handlers := handlers + [e];
      entry := Some(e);
    }

    method Deliver(entry: Entry, event: Event) returns (ok: bool)
      requires entry.Valid()
      modifies entry`queue, entry`dropped
      ensures entry.Valid()
      ensures ok == Accepts(policy, entry.cap, old(entry.queue))
      ensures Delivered(policy, entry.cap, old(entry.queue), entry.queue, event, entry.dropped - old(entry.dropped))
    {
      ok := entry.TrySend(event);
      if ok {
        return;
      }
      if policy.DropOldest? {
        var _ := entry.TryReceive();
        ok := entry.TrySend(event);
      }
      var _ := entry.RecordDrop();
    }

    /** Delivers to the entries of a snapshot in turn. */
    method DeliverAll(entries: seq<Entry>, event: Event, ghost queues: seq<seq<Event>>) returns (delivered: nat)
      requires forall i, j :: 0 <= i < j < |entries| ==> entries[i] != entries[j]
      requires |queues| == |entries|
      requires forall k :: 0 <= k < |entries| ==>
                 entries[k].Valid() && entries[k].cap == bufferSize && entries[k].queue == queues[k]
      modifies (set e | e in entries)`queue, (set e | e in entries)`dropped
      ensures delivered == Accepting(policy, bufferSize, queues)
      ensures forall k :: 0 <= k < |entries| ==> entries[k].Valid()
      ensures forall k :: 0 <= k < |entries| ==>
                Delivered(policy, bufferSize, queues[k], entries[k].queue, event,
                          entries[k].dropped - old(entries[k].dropped))
    {
      delivered := 0;
      var i := 0;
      while i < |entries|
        invariant 0 <= i <= |entries|
        invariant delivered == Accepting(policy, bufferSize, queues[..i])
        invariant forall k :: 0 <= k < |entries| ==> entries[k].Valid()
        invariant forall k :: i <= k < |entries| ==>
                    entries[k].queue == queues[k] && entries[k].dropped == old(entries[k].dropped)
        invariant forall k :: 0 <= k < i ==>
                    Delivered(policy, bufferSize, queues[k], entries[k].queue, event,
                              entries[k].dropped - old(entries[k].dropped))
      {
        var ok := Deliver(entries[i], event);
        AcceptingStep(policy, bufferSize, queues, i);
        delivered := delivered + if ok then 1 else 0;
        i := i + 1;
      }
      assert queues[..i] == queues;
    }

    /** Delivers to every handler, and tells how many accepted. */
    method Publish(event: Event) returns (delivered: nat)
      requires Valid()
      modifies set e | e in handlers :: e
      ensures Valid() && delivered == Accepting(policy, bufferSize, old(Queues()))
      ensures forall k :: 0 <= k < |handlers| ==>
                Delivered(policy, bufferSize, old(Queues())[k], handlers[k].queue, event,
                          handlers[k].dropped - old(handlers[k].dropped))
      ensures forall e :: e in handlers ==> e.handled == old(e.handled)
    {
      if closed {
        assert Queues() == [];
        return 0;
      }
      delivered := DeliverAll(handlers, event, Queues());
    }

    /** The cleanup of Subscribe: the entry leaves, its queue is closed, and its
        goroutine handles what is left, up to a cancellation. */
    method RemoveEntry(entry: Entry, patience: nat)
      requires Valid() && entry.Valid() && entry.open
      modifies this`handlers, entry
      ensures Valid() && entry !in handlers && !entry.open
      ensures entry !in old(handlers) ==> handlers == old(handlers)
      ensures entry in old(handlers) ==>
                exists i :: 0 <= i < |old(handlers)| && old(handlers)[i] == entry
                            && handlers == old(handlers)[..i] + old(handlers)[i + 1..]
      ensures HandedOn(patience, old(entry.queue), old(entry.handled), entry.queue, entry.handled)
    {
      var i := 0;
      while i < |handlers|
        invariant 0 <= i <= |handlers| && handlers == old(handlers) && Valid()
        invariant entry !in handlers[..i]
        invariant entry.queue == old(entry.queue) && entry.handled == old(entry.handled) && entry.open && entry.Valid()
      {
        if handlers[i] == entry {
          handlers := handlers[..i] + handlers[i + 1..];
          assert old(handlers)[i] == entry && handlers == old(handlers)[..i] + old(handlers)[i + 1..];
          assert forall e :: e in handlers ==> e in old(handlers)[..i] || e in old(handlers)[i + 1..];
          break;
        }
        i := i + 1;
      }
      entry.open := false;
      entry.RunHandler(patience);
    }

    /** Closes the queues of entries that left the dispatcher, and lets their handlers
        finish. */
    method DrainAll(entries: seq<Entry>, patience: seq<nat>, ghost queues: seq<seq<Event>>,
                    ghost handled: seq<seq<Event>>)
      requires forall i, j :: 0 <= i < j < |entries| ==> entries[i] != entries[j]
      requires |queues| == |handled| == |patience| == |entries|
      requires forall k :: 0 <= k < |entries| ==>
                 entries[k].Valid() && entries[k].queue == queues[k] && entries[k].handled == handled[k]
      modifies (set e | e in entries)`queue, (set e | e in entries)`handled, (set e | e in entries)`open
      ensures forall k :: 0 <= k < |entries| ==>
                !entries[k].open && HandedOn(patience[k], queues[k], handled[k], entries[k].queue, entries[k].handled)
    {
      var i := 0;
      while i < |entries|
        invariant 0 <= i <= |entries|
        invariant forall k :: i <= k < |entries| ==>
                    entries[k].Valid() && entries[k].queue == queues[k] && entries[k].handled == handled[k]
        invariant forall k :: 0 <= k < i ==>
                    && !entries[k].open
                    && HandedOn(patience[k], queues[k], handled[k], entries[k].queue, entries[k].handled)
      {
        entries[i].Shut(patience[i]);
        i := i + 1;
      }
    }

    /** Closes every queue and lets the handlers finish; a second call does nothing. */
    method Close(patience: seq<nat>)
      requires Valid() && |patience| == |handlers|
      modifies this, set e | e in handlers :: e
      ensures Valid() && closed && handlers == []
      ensures forall k :: 0 <= k < |old(handlers)| ==>
                var e := old(handlers)[k];
                !e.open && HandedOn(patience[k], old(e.queue), old(e.handled), e.queue, e.handled)
    {
      if closed {
        return;
      }
      closed := true;
      var entries := handlers;
      ghost var queues, handled := Queues(), AllHandled();
      handlers := [];
      DrainAll(entries, patience, queues, handled);
    }
  }

  // ----- a lone dispatcher over many events -----------------------------------------------

  /** The queue after publishing events in turn, with no handling. */
  function Fold<T>(policy: Policy, cap: nat, queue: seq<T>, events: seq<T>): seq<T>
    requires 0 < cap
    decreases |events|
  {
    if events == [] then queue else Fold(policy, cap, Offered(policy, cap, queue, events[0]), events[1..])
  }

  /** The last cap elements, or the first. */
  function Kept<T>(policy: Policy, cap: nat, all: seq<T>): seq<T> {
    if |all| <= cap then all else if policy.DropOldest? then all[|all| - cap..] else all[..cap]
  }

  /** Drop-oldest keeps the last events of the whole backlog, drop-newest the first. */
  lemma {:induction false} FoldKeepsAWindow<T>(policy: Policy, cap: nat, queue: seq<T>, events: seq<T>)
    requires 0 < cap && |queue| <= cap
    ensures Fold(policy, cap, queue, events) == Kept(policy, cap, queue + events)
    decreases |events|
  {
    if events == [] {
      assert queue + events == queue;
    } else {
      var next, rest := Offered(policy, cap, queue, events[0]), events[1..];
      calc {
        Fold(policy, cap, queue, events);
        Fold(policy, cap, next, rest);
        { FoldKeepsAWindow(policy, cap, next, rest); }
        Kept(policy, cap, next + rest);
        { KeptAfterOne(policy, cap, queue, events[0], rest); }
        Kept(policy, cap, queue + [events[0]] + rest);
        { assert queue + [events[0]] + rest == queue + events; }
        Kept(policy, cap, queue + events);
      }
    }
  }

  lemma KeptAfterOne<T>(policy: Policy, cap: nat, queue: seq<T>, event: T, rest: seq<T>)
    requires 0 < cap && |queue| <= cap
    ensures Kept(policy, cap, Offered(policy, cap, queue, event) + rest) == Kept(policy, cap, queue + [event] + rest)
  {
    if |queue| == cap {
      var whole := queue + [event] + rest;
      if policy.DropOldest? {
        assert queue[1..] + [event] + rest == whole[1..];
      } else {
        assert whole[..cap] == queue == (queue + rest)[..cap];
      }
    }
  }
}
