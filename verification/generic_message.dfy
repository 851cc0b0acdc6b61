/**
 * GenericMessage construction: a new message's metadata is the correlation data
 * of the current unit of work merged with the message's own metadata, so
 * correlation data travels with every message created while a unit of work is
 * active. The message's own metadata is the right operand of the merge.
 */
module GenericMessage {
  import opened MessageMetaData
  import opened CurrentUnitOfWork

  /** A message: an opaque payload and its metadata. */
  datatype Message<P, V> = Message(payload: P, metaData: MetaData<V>)

  /**
   * `new GenericMessage<>(payload, metaData)` built on a thread whose unit-of-work
   * stack is `ctx`.
   */
  function NewMessage<P, V>(ctx: Stack<V>, payload: P, metaData: MetaData<V>): (m: Message<P, V>)
    ensures m.payload == payload
    ensures m.metaData.entries.Keys == metaData.entries.Keys + CorrelationData(ctx).entries.Keys
    ensures !IsStarted(ctx) ==> m.metaData == metaData
    ensures forall k :: k in metaData.entries && k !in CorrelationData(ctx).entries ==>
              Lookup(m.metaData, k) == Lookup(metaData, k)
    ensures forall k :: k !in metaData.entries && k in CorrelationData(ctx).entries ==>
              Lookup(m.metaData, k) == Lookup(CorrelationData(ctx), k)
  {
    var md := MergedWith(CorrelationData(ctx), metaData);
    assert !IsStarted(ctx) ==> md.entries == metaData.entries;
    Message(payload, md)
  }

  /** `new GenericMessage<>(payload)`: a message that brings no metadata of its own. */
  function NewMessageWithoutMetaData<P, V>(ctx: Stack<V>, payload: P): (m: Message<P, V>)
    ensures m.payload == payload
    ensures m.metaData == CorrelationData(ctx)
  {
    MergeEmptyIdentity(CorrelationData(ctx));
    assert MergedWith(CorrelationData(ctx), Empty()) == CorrelationData(ctx);
    NewMessage(ctx, payload, Empty())
  }

  /** A message built without metadata while `u` is current carries exactly `u`'s correlation data. */
  lemma CorrelationDataAddedToMessage<P, V>(s: Stack<V>, u: UnitOfWork<V>, payload: P)
    ensures NewMessageWithoutMetaData(Set(s, u), payload).metaData == u.correlationData
  {
    SetThenGet(s, u);
  }

  /**
   * A message built with metadata `md` whose keys are disjoint from the current
   * unit of work's correlation data carries `md` merged with that data, in either
   * order of merging.
   */
  lemma CorrelationDataMergedIntoMessage<P, V>(s: Stack<V>, u: UnitOfWork<V>, payload: P, md: MetaData<V>)
    requires Disjoint(md, u.correlationData)
    ensures NewMessage(Set(s, u), payload, md).metaData == MergedWith(md, u.correlationData)
    ensures NewMessage(Set(s, u), payload, md).metaData == MergedWith(u.correlationData, md)
  {
    SetThenGet(s, u);
    MergeDisjointCommutes(md, u.correlationData);
  }

  /**
   * The test's scenario: correlation data {"foo": "bar"}, a message without
   * metadata, and a message with metadata {"whatever": w}.
   */
  lemma CorrelationTestScenario<P>(payload: P, w: string)
    ensures var u := UnitOfWork(0, From(map["foo" := "bar"]));
            var ctx := Set(EmptyStack(), u);
            && NewMessageWithoutMetaData(ctx, payload).metaData.entries == map["foo" := "bar"]
            && NewMessage(ctx, payload, From(map["whatever" := w])).metaData.entries
               == map["whatever" := w, "foo" := "bar"]
  {
    var u := UnitOfWork(0, From(map["foo" := "bar"]));
    CorrelationDataAddedToMessage(EmptyStack(), u, payload);
    CorrelationDataMergedIntoMessage(EmptyStack(), u, payload, From(map["whatever" := w]));
  }
}
