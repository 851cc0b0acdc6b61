/**
 * SimpleDomainEventStream as the mutable object the Java class is: it holds the
 * list and a cursor position, and `next` moves the position on. Every operation
 * is the pure cursor operation of module EventStream applied to the object's state.
 */
module SimpleEventStream {
  import EventStream

  class SimpleDomainEventStream<E> {
    var events: seq<E>
    var pos: nat

    /** The cursor state this object currently holds. */
    function State(): EventStream.Cursor<E>
      reads this
    {
      EventStream.Cursor(events, pos)
    }

    ghost predicate Valid()
      reads this
    {
      State().Valid()
    }

    /** Streams the given list; the list must not be empty, as documented. */
    constructor FromList(events: seq<E>)
      requires |events| > 0
      ensures Valid() && State() == EventStream.FromList(events)
    {
      this.events := events;
      this.pos := 0;
    }

    /** Streams the given events (the Java varargs constructor). */
    constructor FromArray(events: array<E>)
      requires events.Length > 0
      ensures Valid() && State() == EventStream.FromList(events[..])
    {
      var c := EventStream.FromArray(events);
      this.events := c.events;
      this.pos := c.pos;
    }

    /** `hasNext`: reads the state and changes nothing (no `modifies` clause). */
    method HasNext() returns (b: bool)
      requires Valid()
      ensures b <==> State().Remaining() != []
    {
      b := EventStream.HasNext(State());
    }

    /** `next`: returns the next event and moves the cursor on by exactly one. */
    method Next() returns (e: E)
      requires Valid() && EventStream.HasNext(State())
      modifies this
      ensures Valid()
      ensures events == old(events) && pos == old(pos) + 1
      ensures old(State().Remaining()) == [e] + State().Remaining()
    {
      var r := EventStream.Next(State());
      e := r.0;
      pos := r.1.pos;
    }
  }
}
