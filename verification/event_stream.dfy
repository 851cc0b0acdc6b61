/**
 * The state of a SimpleDomainEventStream: a forward-only, single-pass cursor over
 * the list of domain events it was built from. Domain events are opaque here (type
 * parameter E); the stream never looks inside them.
 */
module EventStream {

  /** The list being streamed and the number of events handed out so far. */
  datatype Cursor<E> = Cursor(events: seq<E>, pos: nat) {

    /** The cursor never runs past the end of its list. */
    predicate Valid() {
      pos <= |events|
    }

    /** The events `next` has not returned yet, in order. */
    function Remaining(): seq<E>
      requires Valid()
    {
      events[pos..]
    }

    /** The events `next` has already returned, in order. */
    function Consumed(): seq<E>
      requires Valid()
    {
      events[..pos]
    }
  }

  /**
   * The list constructor. The Java constructor documents that an empty list is
   * rejected but only wraps the list's iterator; the model states the documented
   * obligation as a precondition instead of inventing a check.
   */
  function FromList<E>(events: seq<E>): (c: Cursor<E>)
    requires |events| > 0
    ensures c.Valid()
    ensures c.Consumed() == []
    ensures c.Remaining() == events
  {
    Cursor(events, 0)
  }

  /** The varargs constructor: it streams the list view of the argument array. */
  method FromArray<E>(events: array<E>) returns (c: Cursor<E>)
    requires events.Length > 0
    ensures c == FromList(events[..])
    ensures c.Remaining() == events[..]
  {
    c := FromList(events[..]);
  }

  /** `hasNext`: some event has not been returned yet. */
  function HasNext<E>(c: Cursor<E>): (b: bool)
    requires c.Valid()
    ensures b <==> c.Remaining() != []
  {
    c.pos < |c.events|
  }

  /**
   * `next`: the first remaining event, and the cursor moved on by one. The list
   * itself is never changed.
   */
  function Next<E>(c: Cursor<E>): (r: (E, Cursor<E>))
    requires c.Valid() && HasNext(c)
    ensures r.1.Valid()
    ensures r.1.events == c.events
    ensures r.1.pos == c.pos + 1
    ensures c.Remaining() == [r.0] + r.1.Remaining()
    ensures r.1.Consumed() == c.Consumed() + [r.0]
  {
    (c.events[c.pos], Cursor(c.events, c.pos + 1))
  }

  /** `n` successive calls to `next`: the events returned and the cursor afterwards. */
  function Advance<E>(c: Cursor<E>, n: nat): (r: (seq<E>, Cursor<E>))
    requires c.Valid() && c.pos + n <= |c.events|
    ensures r.1.Valid() && r.1.events == c.events
    ensures r.1.pos == c.pos + n
    ensures |r.0| == n
    decreases n
  {
    if n == 0 then ([], c)
    else
      var (e, c1) := Next(c);
      var (rest, c2) := Advance(c1, n - 1);
      ([e] + rest, c2)
  }

  /** `n` calls to `next` return the next `n` events of the list, in list order. */
  lemma {:induction false} AdvanceYieldsInOrder<E>(c: Cursor<E>, n: nat)
    requires c.Valid() && c.pos + n <= |c.events|
    ensures Advance(c, n).0 == c.events[c.pos..c.pos + n]
    ensures Advance(c, n).1 == Cursor(c.events, c.pos + n)
    decreases n
  {
    if n > 0 {
      var (e, c1) := Next(c);
      AdvanceYieldsInOrder(c1, n - 1);
      assert c.events[c.pos..c.pos + n] == [e] + c1.events[c1.pos..c1.pos + (n - 1)];
    }
  }

  /** The (i+1)-th call to `next` on a stream built from `events` returns `events[i]`. */
  lemma NextReturnsListInOrder<E>(events: seq<E>, i: nat)
    requires |events| > 0 && i < |events|
    ensures HasNext(Advance(FromList(events), i).1)
    ensures Next(Advance(FromList(events), i).1).0 == events[i]
  {
    AdvanceYieldsInOrder(FromList(events), i);
  }

  /**
   * After exactly |events| calls to `next` the stream is exhausted and the events
   * returned, concatenated, are the list itself.
   */
  lemma FullReplayYieldsList<E>(events: seq<E>)
    requires |events| > 0
    ensures Advance(FromList(events), |events|).0 == events
    ensures !HasNext(Advance(FromList(events), |events|).1)
  {
    AdvanceYieldsInOrder(FromList(events), |events|);
  }

  /**
   * Single-pass consumption: once `next` has returned an event, the cursor it
   * leaves behind has strictly fewer events left and holds everything returned so
   * far in its consumed prefix.
   */
  lemma NextNeverReplays<E>(c: Cursor<E>)
    requires c.Valid() && HasNext(c)
    ensures |Next(c).1.Remaining()| == |c.Remaining()| - 1
    ensures Next(c).1.Consumed()[..c.pos] == c.Consumed()
  {
  }

  /**
   * The replay loop of an event-sourced repository: call `hasNext`/`next` until
   * the stream is exhausted. It returns every remaining event, in order.
   */
  method Drain<E>(c: Cursor<E>) returns (out: seq<E>, final: Cursor<E>)
    requires c.Valid()
    ensures final.Valid() && !HasNext(final)
    ensures final.events == c.events
    ensures out == c.Remaining()
    ensures final.Consumed() == c.Consumed() + out
  {
    out := [];
    final := c;
    while HasNext(final)
      invariant final.Valid()
      invariant final.events == c.events
      invariant c.pos <= final.pos
      invariant out == c.events[c.pos..final.pos]
      decreases |final.events| - final.pos
    {
      var (e, next) := Next(final);
      out := out + [e];
      final := next;
    }
  }
}
