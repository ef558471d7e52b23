/** The consumer bookkeeping of the browser client, which
    frontend-solid/src/hooks/useCallRoom.ts and
    frontend-solid/src/hooks/joinGroupCall.ts implement line for line alike
    except in `closeConsumerTransport`. Two lists are kept: the
    `consumingTransports` ids of producers a receive transport was requested
    for, and the `consumerTransports` signal of consumers set up. Socket
    emits, calls into mediasoup-client and publications of the signal are
    appended, in order, to one trace. */
module ClientConsumers {
  import opened Collections

  type ProducerId = string
  type ServerId = string

  /** A client-side mediasoup-client object (transport or consumer); the model
      draws them from a counter. */
  type ClientObject = nat

  /** `IConsumerTransport` */
  datatype ConsumerTransport = ConsumerTransport(consumerTransport: ClientObject, serverConsumerTransportId: ServerId,
                                                 producerId: ProducerId, consumer: ClientObject)

  /** The `consume` acknowledgement; `error` is the truthiness of its field. */
  datatype ConsumeResponse = ConsumeResponse(id: ServerId, producerId: ProducerId, serverConsumerId: ServerId, error: bool)

  /** Socket emits. `RequestRecvTransport` is `createWebRtcTransport` with
      `consumer: true`, whose acknowledgement callback is bound to that
      producer id. */
  datatype ClientEmit =
    | RequestRecvTransport(producerId: ProducerId)
    | Consume(remoteProducerId: ProducerId, serverConsumerTransportId: ServerId)
    | ConsumerResume(serverConsumerId: ServerId)
    | GetProducers

  /** Calls into mediasoup-client. */
  datatype LocalCall =
    | CreateRecvTransport(transport: ClientObject)
    | ConsumeOn(transport: ClientObject, consumer: ClientObject)
    | CloseTransport(transport: ClientObject)
    | CloseConsumer(consumer: ClientObject)
    | AcknowledgeProduce(id: ServerId)

  datatype ClientAction =
    | Emit(emit: ClientEmit)
    | Call(call: LocalCall)
    | Publish(list: seq<ConsumerTransport>)

  function EntryProducer(ct: ConsumerTransport): ProducerId { ct.producerId }

  /** The producer ids receive transports were requested for, in order. */
  function Requested(trace: seq<ClientAction>): (ids: seq<ProducerId>)
    ensures |ids| <= |trace|
  {
    if trace == [] then []
    else
      var init, last := trace[..|trace| - 1], trace[|trace| - 1];
      if last.Emit? && last.emit.RequestRecvTransport? then Requested(init) + [last.emit.producerId]
      else Requested(init)
  }

  lemma {:induction false} RequestedAppend(a: seq<ClientAction>, b: seq<ClientAction>)
    ensures Requested(a + b) == Requested(a) + Requested(b)
    decreases |b|
  {
    if b == [] {
      assert a + b == a;
    } else {
      var init := b[..|b| - 1];
      assert (a + b)[..|a + b| - 1] == a + init;
      RequestedAppend(a, init);
    }
  }

  /** Actions that request nothing leave `Requested` alone. */
  lemma RequestedNone(a: seq<ClientAction>, b: seq<ClientAction>)
    requires forall i :: 0 <= i < |b| ==> !(b[i].Emit? && b[i].emit.RequestRecvTransport?)
    ensures Requested(a + b) == Requested(a)
  {
    RequestedAppend(a, b);
    RequestedOfNone(b);
  }

  lemma {:induction false} RequestedOfNone(b: seq<ClientAction>)
    requires forall i :: 0 <= i < |b| ==> !(b[i].Emit? && b[i].emit.RequestRecvTransport?)
    ensures Requested(b) == []
    decreases |b|
  {
    if b != [] {
      RequestedOfNone(b[..|b| - 1]);
    }
  }

  /** The list the signal was last set to, or `initial` if it never was. */
  function LastPublished(trace: seq<ClientAction>, initial: seq<ConsumerTransport>): (l: seq<ConsumerTransport>)
    ensures (forall i :: 0 <= i < |trace| ==> !trace[i].Publish?) ==> l == initial
  {
    if trace == [] then initial
    else if trace[|trace| - 1].Publish? then trace[|trace| - 1].list
    else LastPublished(trace[..|trace| - 1], initial)
  }

  lemma {:induction false} LastPublishedNone(a: seq<ClientAction>, b: seq<ClientAction>, initial: seq<ConsumerTransport>)
    requires forall i :: 0 <= i < |b| ==> !b[i].Publish?
    ensures LastPublished(a + b, initial) == LastPublished(a, initial)
    decreases |b|
  {
    if b == [] {
      assert a + b == a;
    } else {
      var init := b[..|b| - 1];
      assert (a + b)[..|a + b| - 1] == a + init;
      LastPublishedNone(a, init, initial);
    }
  }

  /** The ids of `ids` that `signalNewConsumerTransport` lets through when
      called on each in turn, having seen `seen` before: first occurrences
      of ids not yet seen, in order. */
  function Fresh(seen: seq<ProducerId>, ids: seq<ProducerId>): (r: seq<ProducerId>)
    ensures |r| <= |ids|
  {
    if ids == [] then []
    else
      var init, last := ids[..|ids| - 1], ids[|ids| - 1];
      var f := Fresh(seen, init);
      if last in seen + f then f else f + [last]
  }

  /** After the calls, every id of `ids` has been seen, every id let
      through is one of `ids` that was not seen before, and no id is held
      twice. */
  lemma {:induction false} FreshProperties(seen: seq<ProducerId>, ids: seq<ProducerId>)
    requires NoDuplicates(seen)
    ensures NoDuplicates(seen + Fresh(seen, ids))
    ensures forall x :: x in ids ==> x in seen + Fresh(seen, ids)
    ensures forall x :: x in Fresh(seen, ids) <==> x in ids && x !in seen
    decreases |ids|
  {
    if ids != [] {
      var init, last := ids[..|ids| - 1], ids[|ids| - 1];
      assert ids == init + [last];
      FreshProperties(seen, init);
      var f := Fresh(seen, init);
      if last !in seen + f {
        assert seen + (f + [last]) == (seen + f) + [last];
      }
    }
  }

  lemma FreshSnoc(seen: seq<ProducerId>, ids: seq<ProducerId>, x: ProducerId)
    ensures Fresh(seen, ids + [x]) == if x in seen + Fresh(seen, ids) then Fresh(seen, ids) else Fresh(seen, ids) + [x]
  {
    assert (ids + [x])[..|ids|] == ids;
  }

  /** One more call of `signalNewConsumerTransport`, on the state reached
      after `prefix`. */
  lemma FreshStep(seen: seq<ProducerId>, before: seq<ClientAction>, prefix: seq<ProducerId>, id: ProducerId,
                  current: seq<ProducerId>, trace: seq<ClientAction>)
    requires current == seen + Fresh(seen, prefix)
    requires trace == before + RequestEmits(Fresh(seen, prefix))
    ensures id in current ==> && current == seen + Fresh(seen, prefix + [id])
                              && trace == before + RequestEmits(Fresh(seen, prefix + [id]))
    ensures id !in current ==> && current + [id] == seen + Fresh(seen, prefix + [id])
                               && trace + [Emit(RequestRecvTransport(id))] == before + RequestEmits(Fresh(seen, prefix + [id]))
  {
    var f := Fresh(seen, prefix);
    FreshSnoc(seen, prefix, id);
    if id in current {
      assert Fresh(seen, prefix + [id]) == f;
    } else {
      assert Fresh(seen, prefix + [id]) == f + [id];
      assert seen + (f + [id]) == current + [id];
      RequestEmitsSnoc(f, id);
      assert before + (RequestEmits(f) + [Emit(RequestRecvTransport(id))]) == trace + [Emit(RequestRecvTransport(id))];
    }
  }

  /** The requests emitted for the ids let through. */
  function RequestEmits(ids: seq<ProducerId>): (trace: seq<ClientAction>)
    ensures |trace| == |ids|
    ensures Requested(trace) == ids
  {
    if ids == [] then []
    else
      var t := RequestEmits(ids[..|ids| - 1]) + [Emit(RequestRecvTransport(ids[|ids| - 1]))];
      assert t[..|t| - 1] == RequestEmits(ids[..|ids| - 1]);
      assert ids == ids[..|ids| - 1] + [ids[|ids| - 1]];
      t
  }

  lemma RequestEmitsSnoc(ids: seq<ProducerId>, x: ProducerId)
    ensures RequestEmits(ids + [x]) == RequestEmits(ids) + [Emit(RequestRecvTransport(x))]
  {
    assert (ids + [x])[..|ids|] == ids;
  }

  /** `closeConsumerTransport` removes every entry of the producer and keeps
      the others in order and with their multiplicity. */
  lemma CloseFilter(cts: seq<ConsumerTransport>, producerId: ProducerId)
    ensures forall ct :: ct in Exclude(cts, EntryProducer, producerId) <==> ct in cts && ct.producerId != producerId
    ensures IsSubsequence(Exclude(cts, EntryProducer, producerId), cts)
    ensures forall ct: ConsumerTransport :: ct.producerId != producerId ==>
              multiset(Exclude(cts, EntryProducer, producerId))[ct] == multiset(cts)[ct]
  {
    ExcludeMembers(cts, EntryProducer, producerId);
    ExcludeIsSubsequence(cts, EntryProducer, producerId);
    forall ct: ConsumerTransport | ct.producerId != producerId
      ensures multiset(Exclude(cts, EntryProducer, producerId))[ct] == multiset(cts)[ct]
    {
      ExcludeMultiplicity(cts, EntryProducer, producerId, ct);
    }
  }

  /** `consumingTransports` only ever grows at its end. */
  ghost predicate Extends(now: seq<ProducerId>, before: seq<ProducerId>) {
    |before| <= |now| && now[..|before|] == before
  }

  class ConsumerBook {
    var consumingTransports: seq<ProducerId>
    var consumerTransports: seq<ConsumerTransport>
    /** Whether `producerTransport` has been assigned yet. */
    var hasSendTransport: bool
    var nextObject: ClientObject
    var trace: seq<ClientAction>

    /** A receive transport has been requested for exactly the ids in
        `consumingTransports`, each once, and the signal shows the current
        list. */
    ghost predicate Valid()
      reads this
    {
      && Requested(trace) == consumingTransports
      && NoDuplicates(consumingTransports)
      && LastPublished(trace, []) == consumerTransports
    }

    constructor ()
      ensures Valid()
      ensures consumingTransports == [] && consumerTransports == [] && !hasSendTransport
      ensures nextObject == 0 && trace == []
    {
      consumingTransports, consumerTransports := [], [];
      hasSendTransport, nextObject, trace := false, 0, [];
    }

    method NewObject() returns (o: ClientObject)
      modifies this`nextObject
      ensures o == old(nextObject) && nextObject == o + 1
    {
      o := nextObject;
      nextObject := nextObject + 1;
    }

    /** The send transport's creation callback assigns `producerTransport`. */
    method OnSendTransportCreated()
      modifies this`hasSendTransport
      ensures hasSendTransport
    {
      hasSendTransport := true;
    }

    /** `signalNewConsumerTransport`: a producer id already seen triggers
        nothing; a new one is recorded, then its receive transport requested. */
    method SignalNewConsumerTransport(remoteProducerId: ProducerId)
      requires Valid()
      modifies this`consumingTransports, this`trace
      ensures Valid()
      ensures Extends(consumingTransports, old(consumingTransports))
      ensures remoteProducerId in old(consumingTransports) ==>
                consumingTransports == old(consumingTransports) && trace == old(trace)
      ensures remoteProducerId !in old(consumingTransports) ==>
                && consumingTransports == old(consumingTransports) + [remoteProducerId]
                && trace == old(trace) + [Emit(RequestRecvTransport(remoteProducerId))]
    {
      if remoteProducerId in consumingTransports {
        return;
      }
      consumingTransports := consumingTransports + [remoteProducerId];
      RequestedAppend(trace, [Emit(RequestRecvTransport(remoteProducerId))]);
      LastPublishedNone(trace, [Emit(RequestRecvTransport(remoteProducerId))], []);
      trace := trace + [Emit(RequestRecvTransport(remoteProducerId))];
    }

    /** The acknowledgement of a receive-transport request: create the
        client-side transport and ask to consume the producer on it. When
        `device.createRecvTransport` throws (`created` false) the callback
        returns. The new transport is returned for the `consume` callback. */
    method OnRecvTransportCreated(remoteProducerId: ProducerId, serverConsumerTransportId: ServerId, created: bool)
      returns (transport: Option<ClientObject>)
      requires Valid()
      modifies this`nextObject, this`trace
      ensures Valid()
      ensures !created ==> transport == None && trace == old(trace) && nextObject == old(nextObject)
      ensures created ==> && transport == Some(old(nextObject)) && nextObject == old(nextObject) + 1
                          && trace == old(trace) + [Call(CreateRecvTransport(old(nextObject))),
                                                    Emit(Consume(remoteProducerId, serverConsumerTransportId))]
    {
      if !created {
        return None;
      }
      var t := NewObject();
      var step := [Call(CreateRecvTransport(t)), Emit(Consume(remoteProducerId, serverConsumerTransportId))];
      RequestedNone(trace, step);
      LastPublishedNone(trace, step, []);
      trace := trace + step;
      transport := Some(t);
    }

    /** The `consume` acknowledgement: on error nothing happens; otherwise
        consume on the transport, publish the list with the new entry, and
        only then ask the server to resume the consumer. */
    method OnConsumeReply(transport: ClientObject, remoteProducerId: ProducerId, data: ConsumeResponse)
      requires Valid()
      modifies this`nextObject, this`consumerTransports, this`trace
      ensures Valid()
      ensures data.error ==> consumerTransports == old(consumerTransports) && trace == old(trace)
                             && nextObject == old(nextObject)
      ensures !data.error ==>
                var entry := ConsumerTransport(transport, data.id, remoteProducerId, old(nextObject));
                && nextObject == old(nextObject) + 1
                && consumerTransports == old(consumerTransports) + [entry]
                && trace == old(trace) + [Call(ConsumeOn(transport, old(nextObject))),
                                          Publish(consumerTransports),
                                          Emit(ConsumerResume(data.serverConsumerId))]
    {
      if data.error {
        return;
      }
      var consumer := NewObject();
      consumerTransports := consumerTransports + [ConsumerTransport(transport, data.id, remoteProducerId, consumer)];
      var step := [Call(ConsumeOn(transport, consumer)), Publish(consumerTransports), Emit(ConsumerResume(data.serverConsumerId))];
      RequestedNone(trace, step);
      assert LastPublished(trace + step, []) == consumerTransports;
      trace := trace + step;
    }

    /** `closeConsumerTransport` of useCallRoom.ts: without a send transport
        the log line throws; without an entry for the producer it returns
        early; otherwise it closes the first entry's transport and consumer
        and filters every entry of the producer out. */
    method CloseConsumerTransport(remoteProducerId: ProducerId)
      requires Valid()
      modifies this`consumerTransports, this`trace
      ensures Valid()
      ensures (!hasSendTransport || Find(old(consumerTransports), (ct: ConsumerTransport) => ct.producerId == remoteProducerId).None?) ==>
                consumerTransports == old(consumerTransports) && trace == old(trace)
      ensures hasSendTransport && Find(old(consumerTransports), (ct: ConsumerTransport) => ct.producerId == remoteProducerId).Some? ==>
                var first := Find(old(consumerTransports), (ct: ConsumerTransport) => ct.producerId == remoteProducerId).value;
                && consumerTransports == Exclude(old(consumerTransports), EntryProducer, remoteProducerId)
                && trace == old(trace) + [Call(CloseTransport(first.consumerTransport)), Call(CloseConsumer(first.consumer)),
                                          Publish(consumerTransports)]
    {
      if !hasSendTransport {
        return;
      }
      var producerToClose := Find(consumerTransports, (ct: ConsumerTransport) => ct.producerId == remoteProducerId);
      if producerToClose.None? {
        return;
      }
      consumerTransports := Exclude(consumerTransports, EntryProducer, remoteProducerId);
      var step := [Call(CloseTransport(producerToClose.value.consumerTransport)), Call(CloseConsumer(producerToClose.value.consumer)),
                   Publish(consumerTransports)];
      RequestedNone(trace, step);
      assert LastPublished(trace + step, []) == consumerTransports;
      trace := trace + step;
    }

    /** `closeConsumerTransport` of joinGroupCall.ts: the same, except that
        the list is filtered (and published) even when no entry matches,
        and only the closing depends on a match. */
    method CloseConsumerTransportAlwaysFiltering(remoteProducerId: ProducerId)
      requires Valid()
      modifies this`consumerTransports, this`trace
      ensures Valid()
      ensures !hasSendTransport ==> consumerTransports == old(consumerTransports) && trace == old(trace)
      ensures hasSendTransport ==>
                var found := Find(old(consumerTransports), (ct: ConsumerTransport) => ct.producerId == remoteProducerId);
                var closes := if found.None? then []
                              else [Call(CloseTransport(found.value.consumerTransport)), Call(CloseConsumer(found.value.consumer))];
                && consumerTransports == Exclude(old(consumerTransports), EntryProducer, remoteProducerId)
                && trace == old(trace) + closes + [Publish(consumerTransports)]
    {
      if !hasSendTransport {
        return;
      }
      var producerToClose := Find(consumerTransports, (ct: ConsumerTransport) => ct.producerId == remoteProducerId);
      var closes := [];
      if producerToClose.Some? {
        closes := [Call(CloseTransport(producerToClose.value.consumerTransport)), Call(CloseConsumer(producerToClose.value.consumer))];
      }
      consumerTransports := Exclude(consumerTransports, EntryProducer, remoteProducerId);
      var step := closes + [Publish(consumerTransports)];
      RequestedNone(trace, step);
      assert LastPublished(trace + step, []) == consumerTransports;
      trace := trace + step;
    }

    /** The socket's `disconnect` event: the signal is reset to the empty
        list; `consumingTransports` is left as it is. */
    method OnDisconnect()
      requires Valid()
      modifies this`consumerTransports, this`trace
      ensures Valid()
      ensures consumerTransports == [] && trace == old(trace) + [Publish([])]
    {
      consumerTransports := [];
      RequestedNone(trace, [Publish([])]);
      trace := trace + [Publish([])];
    }

    /** The `transport-produce` acknowledgement: hand the id to
        mediasoup-client, and ask for the producers if there are any. */
    method OnProduceReply(id: ServerId, producersExist: bool)
      requires Valid()
      modifies this`trace
      ensures Valid()
      ensures trace == old(trace) + [Call(AcknowledgeProduce(id))] + (if producersExist then [Emit(GetProducers)] else [])
    {
      var step := [Call(AcknowledgeProduce(id))];
      if producersExist {
        step := [Call(AcknowledgeProduce(id)), Emit(GetProducers)];
      }
      RequestedNone(trace, step);
      LastPublishedNone(trace, step, []);
      trace := trace + step;
    }

    /** Iteration `i` of the `getProducers` callback's `forEach`. */
    method SignalNext(ghost seen: seq<ProducerId>, ghost before: seq<ClientAction>, ids: seq<ProducerId>, i: nat)
      requires i < |ids|
      requires Valid()
      requires consumingTransports == seen + Fresh(seen, ids[..i])
      requires trace == before + RequestEmits(Fresh(seen, ids[..i]))
      modifies this`consumingTransports, this`trace
      ensures Valid()
      ensures consumingTransports == seen + Fresh(seen, ids[..i + 1])
      ensures trace == before + RequestEmits(Fresh(seen, ids[..i + 1]))
    {
      assert ids[..i + 1] == ids[..i] + [ids[i]];
      FreshStep(seen, before, ids[..i], ids[i], consumingTransports, trace);
      SignalNewConsumerTransport(ids[i]);
    }

    /** The `getProducers` acknowledgement: `signalNewConsumerTransport` on
        each returned id, in order. */
    method OnGetProducersReply(producerIds: seq<ProducerId>)
      requires Valid()
      modifies this`consumingTransports, this`trace
      ensures Valid()
      ensures consumingTransports == old(consumingTransports) + Fresh(old(consumingTransports), producerIds)
      ensures trace == old(trace) + RequestEmits(Fresh(old(consumingTransports), producerIds))
    {
      ghost var seen, before := consumingTransports, trace;
      var i := 0;
      while i < |producerIds|
        invariant 0 <= i <= |producerIds|
        invariant Valid()
        invariant consumingTransports == seen + Fresh(seen, producerIds[..i])
        invariant trace == before + RequestEmits(Fresh(seen, producerIds[..i]))
      {
        SignalNext(seen, before, producerIds, i);
        i := i + 1;
      }
      assert producerIds[..i] == producerIds;
    }
  }
}
