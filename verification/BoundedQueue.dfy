/** BoundedQueue of include/ids_sharded.hpp. Every method holds the queue's mutex for its
    whole body, so each is one atomic step of the pipeline. */
module BoundedQueue {

  datatype Option<+T> = None | Some(value: T)

  /** What a push did. */
  datatype Outcome = Accepted | AcceptedByEviction | Refused {
    predicate Ok() {
      !Refused?
    }
  }

  function TryPushOutcome(size: nat, capacity: nat): Outcome {
    if size >= capacity then Refused else Accepted
  }

  function PriorityPushOutcome(size: nat, capacity: nat, score: real, keepAbove: real): Outcome {
    if size < capacity then Accepted else if score < keepAbove then Refused else AcceptedByEviction
  }

  /** The queue after a push with that outcome: eviction takes the head. */
  function Pushed<E>(items: seq<E>, ev: E, o: Outcome): seq<E>
    requires o.AcceptedByEviction? ==> items != []
  {
    match o
    case Accepted => items + [ev]
    case AcceptedByEviction => items[1..] + [ev]
    case Refused => items
  }

  class Queue<E> {
    const capacity: nat
    var items: seq<E>
    var drops: nat
    var closed: bool

    ghost predicate Inv()
      reads this
    {
      |items| <= capacity
    }

    constructor (capacity: nat)
      ensures Inv() && items == [] && drops == 0 && !closed && this.capacity == capacity
    {
      this.capacity, items, drops, closed := capacity, [], 0, false;
    }

    method TryPush(ev: E) returns (ok: bool)
      requires Inv()
      modifies `items
      ensures Inv()
      ensures var o := TryPushOutcome(|old(items)|, capacity); ok == o.Ok() && items == Pushed(old(items), ev, o)
    {
      if |items| >= capacity {
        return false;
      }
      items := items + [ev];
      return true;
    }

    /** Popping the head of an empty deque is undefined, which a capacity of zero would do. */
    method PriorityPush(ev: E, score: real, keepAbove: real) returns (ok: bool)
      requires Inv() && capacity >= 1
      modifies `items, `drops
      ensures Inv()
      ensures var o := PriorityPushOutcome(|old(items)|, capacity, score, keepAbove);
        && ok == o.Ok()
        && (o.AcceptedByEviction? ==> old(items) != [])
        && items == Pushed(old(items), ev, o)
        && drops == old(drops) + (if o.Accepted? then 0 else 1)
    {
      if |items| < capacity {
        items := items + [ev];
        return true;
      }
      if score < keepAbove {
        drops := drops + 1;
        return false;
      }
      items := items[1..];
      drops := drops + 1;
      items := items + [ev];
      return true;
    }

    /** After the wait: the head if there is one, nothing on a timeout or a close. */
    method Pop() returns (ev: Option<E>)
      requires Inv()
      modifies `items
      ensures Inv()
      ensures old(items) == [] ==> ev == None && items == []
      ensures old(items) != [] ==> ev == Some(old(items)[0]) && items == old(items)[1..]
    {
      if items == [] {
        return None;
      }
      ev := Some(items[0]);
      items := items[1..];
    }

    method Close()
      modifies `closed
      ensures closed
    {
      closed := true;
    }
  }
}
