/** Push notifications: every subscriber has a bounded queue that drops its oldest state when full. */
module Broadcaster {
  import opened Wrappers

  /** A bound of zero or less means no bound, as for asyncio queues. */
  predicate Full<T>(items: seq<T>, maxsize: int) {
    maxsize > 0 && |items| >= maxsize
  }

  /** What a queue holds after a state was pushed, dropping the oldest when it was full. */
  function Offered<T>(items: seq<T>, maxsize: int, state: T): seq<T> {
    (if Full(items, maxsize) then items[1..] else items) + [state]
  }

  /** The queue holds exactly the last states sent to it, within its bound. */
  predicate HoldsLatest<T(==)>(items: seq<T>, sent: seq<T>, maxsize: int) {
    && |items| <= |sent| && items == sent[|sent| - |items|..]
    && (maxsize > 0 ==> |items| <= maxsize)
  }

  /** A push keeps the queue on the latest states, puts the new one last, and drops one only when full. */
  lemma OfferKeepsLatest<T>(items: seq<T>, sent: seq<T>, maxsize: int, state: T)
    requires HoldsLatest(items, sent, maxsize)
    ensures HoldsLatest(Offered(items, maxsize, state), sent + [state], maxsize)
    ensures Offered(items, maxsize, state)[|Offered(items, maxsize, state)| - 1] == state
    ensures |Offered(items, maxsize, state)| == if maxsize > 0 && |items| == maxsize then |items| else |items| + 1
  {
    var kept := if Full(items, maxsize) then items[1..] else items;
    assert kept == sent[|sent| - |kept|..];
    assert (sent + [state])[|sent| - |kept|..] == sent[|sent| - |kept|..] + [state];
  }

  class Queue<T(==)> {
    const maxsize: int
    var items: seq<T>
    ghost var sent: seq<T>  // every state broadcast to the queue since it was subscribed

    constructor (maxsize: int)
      ensures this.maxsize == maxsize && items == [] && sent == []
    {
      this.maxsize := maxsize;
      items := [];
      sent := [];
    }

    ghost predicate Sound()
      reads this
    {
      HoldsLatest(items, sent, maxsize)
    }

    /** False stands for asyncio's QueueFull. */
    method PutNowait(state: T) returns (ok: bool)
      modifies this`items
      ensures ok == !Full(old(items), maxsize)
      ensures items == if ok then old(items) + [state] else old(items)
    {
      ok := !Full(items, maxsize);
      if ok {
        items := items + [state];
      }
    }

    /** None stands for asyncio's QueueEmpty. */
    method GetNowait() returns (state: Option<T>)
      modifies this`items
      ensures state == if old(items) == [] then None else Some(old(items)[0])
      ensures items == if old(items) == [] then [] else old(items)[1..]
      ensures old(Sound()) ==> Sound()
    {
      if items == [] {
        return None;
      }
      state := Some(items[0]);
      items := items[1..];
    }
  }

  class SSEBroadcaster<T(==)> {
    var subscribers: seq<Queue<T>>

    ghost predicate Valid()
      reads this, subscribers
    {
      && (forall i, j :: 0 <= i < j < |subscribers| ==> subscribers[i] != subscribers[j])
      && (forall q :: q in subscribers ==> q.Sound())
    }

    constructor ()
      ensures Valid() && subscribers == []
    {
      subscribers := [];
    }

    method Subscribe(maxsize: int) returns (q: Queue<T>)
      requires Valid()
      modifies this
      ensures Valid() && fresh(q) && q.maxsize == maxsize && q.items == [] && q.sent == []
      ensures subscribers == old(subscribers) + [q]
    {
      q := new Queue<T>(maxsize);
      subscribers := subscribers + [q];
    }

    /** Removes the queue if it is subscribed, and nothing else. */
    method Unsubscribe(queue: Queue<T>)
      requires Valid()
      modifies this
      ensures Valid() && queue !in subscribers
      ensures queue !in old(subscribers) ==> subscribers == old(subscribers)
      ensures queue in old(subscribers) ==>
                exists i :: 0 <= i < |old(subscribers)| && old(subscribers)[i] == queue
                            && subscribers == old(subscribers)[..i] + old(subscribers)[i + 1..]
    {
      for i := 0 to |subscribers|
        invariant subscribers == old(subscribers)
        invariant queue !in subscribers[..i]
      {
        if subscribers[i] == queue {
          subscribers := subscribers[..i] + subscribers[i + 1..];
          return;
        }
      }
    }

    /** Every subscriber ends up with the new state last, as if offered to it alone, and none is dropped. */
    method Broadcast(state: T)
      requires Valid()
      modifies this, subscribers
      ensures Valid() && subscribers == old(subscribers)
      ensures forall q :: q in subscribers ==>
                && q.items == Offered(old(q.items), q.maxsize, state)
                && q.sent == old(q.sent) + [state]
    {
      if subscribers == [] {
        return;
      }
      var dead: seq<Queue<T>> := [];
      for i := 0 to |subscribers|
        invariant subscribers == old(subscribers) && dead == []
        invariant forall k :: 0 <= k < i ==>
                    && subscribers[k].items == Offered(old(subscribers[k].items), subscribers[k].maxsize, state)
                    && subscribers[k].sent == old(subscribers[k].sent) + [state]
                    && subscribers[k].Sound()
        invariant forall k :: i <= k < |subscribers| ==>
                    && subscribers[k].items == old(subscribers[k].items)
                    && subscribers[k].sent == old(subscribers[k].sent)
      {
        var q := subscribers[i];
        assert old(q.Sound());
        OfferKeepsLatest(q.items, q.sent, q.maxsize, state);
        var ok := q.PutNowait(state);
        if !ok {
          var oldest := q.GetNowait();
          var again := q.PutNowait(state);
          if !again {
            dead := dead + [q];
          }
        }
        q.sent := q.sent + [state];
      }
      // Dead subscribers would be unsubscribed here; dropping the oldest state always makes room.
      assert dead == [];
    }
  }

  /** What happens to one subscriber's queue: broadcasts, and reads by its consumer. */
  datatype Event<T> = Sent(state: T) | Read

  datatype Watch<T> = Watch(items: seq<T>, sent: seq<T>, read: seq<T>, dropped: nat)

  function Watched<T>(maxsize: int, events: seq<Event<T>>): Watch<T> {
    if events == [] then Watch([], [], [], 0)
    else
      var w := Watched(maxsize, events[..|events| - 1]);
      match events[|events| - 1]
      case Sent(state) =>
        w.(items := Offered(w.items, maxsize, state), sent := w.sent + [state],
           dropped := w.dropped + if Full(w.items, maxsize) then 1 else 0)
      case Read => if w.items == [] then w else w.(items := w.items[1..], read := w.read + [w.items[0]])
  }

  /** `read` picks states of `sent` in order, never going back. */
  predicate InOrder<T(==)>(read: seq<T>, sent: seq<T>) {
    if read == [] then true
    else if sent == [] then false
    else if read[|read| - 1] == sent[|sent| - 1] && InOrder(read[..|read| - 1], sent[..|sent| - 1]) then true
    else InOrder(read, sent[..|sent| - 1])
  }

  lemma {:induction false} InOrderLonger<T>(read: seq<T>, sent: seq<T>, more: seq<T>)
    requires InOrder(read, sent)
    ensures InOrder(read, sent + more)
    decreases |more|
  {
    if more == [] {
      assert sent + more == sent;
    } else {
      InOrderLonger(read, sent, more[..|more| - 1]);
      assert (sent + more)[..|sent + more| - 1] == sent + more[..|more| - 1];
    }
  }

  predicate WatchSound<T(==)>(w: Watch<T>, maxsize: int) {
    && HoldsLatest(w.items, w.sent, maxsize)
    && |w.read| + w.dropped + |w.items| == |w.sent|
    && InOrder(w.read, w.sent[..|w.sent| - |w.items|])
    && (maxsize <= 0 ==> w.dropped == 0)
  }

  lemma SentSound<T>(w: Watch<T>, maxsize: int, state: T)
    requires WatchSound(w, maxsize)
    ensures var items := Offered(w.items, maxsize, state);
            WatchSound(w.(items := items, sent := w.sent + [state],
                          dropped := w.dropped + if Full(w.items, maxsize) then 1 else 0), maxsize)
    ensures Offered(w.items, maxsize, state) != []
    ensures Offered(w.items, maxsize, state)[|Offered(w.items, maxsize, state)| - 1] == state
  {
    hide InOrder;
    OfferKeepsLatest(w.items, w.sent, maxsize, state);
    var sent := w.sent + [state];
    var gone := w.sent[..|w.sent| - |w.items|];
    var goneNext := sent[..|sent| - |Offered(w.items, maxsize, state)|];
    InOrderLonger(w.read, gone, goneNext[|gone|..]);
    assert gone + goneNext[|gone|..] == goneNext;
  }

  lemma ReadSound<T>(w: Watch<T>, maxsize: int)
    requires WatchSound(w, maxsize) && w.items != []
    ensures WatchSound(w.(items := w.items[1..], read := w.read + [w.items[0]]), maxsize)
  {
    var read := w.read + [w.items[0]];
    var gone := w.sent[..|w.sent| - |w.items|];
    var grown := w.sent[..|w.sent| - |w.items| + 1];
    assert grown == gone + [w.items[0]] && grown[..|grown| - 1] == gone;
    assert read[..|read| - 1] == w.read;
  }

  /** After any mix of broadcasts and reads a queue holds exactly the last broadcasts, within its bound, the
      newest included; everything broadcast was read, dropped for room, or is still held; and reads keep the
      broadcast order. */
  lemma {:induction false} QueueHoldsLatestBroadcasts<T>(maxsize: int, events: seq<Event<T>>)
    ensures WatchSound(Watched(maxsize, events), maxsize)
    ensures events != [] && events[|events| - 1].Sent? ==>
              var items := Watched(maxsize, events).items;
              items != [] && items[|items| - 1] == events[|events| - 1].state
  {
    if events != [] {
      hide WatchSound, Offered, Full;
      var earlier := events[..|events| - 1];
      QueueHoldsLatestBroadcasts(maxsize, earlier);
      var w := Watched(maxsize, earlier);
      match events[|events| - 1]
      case Sent(state) => SentSound(w, maxsize, state);
      case Read =>
        if w.items != [] {
          ReadSound(w, maxsize);
        }
    }
  }
}
