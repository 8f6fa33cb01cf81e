/**
 * The webhook event, its queue and its publisher (internal/webhook/publisher.go).
 * The queue is the Redis list "webhook_events": producers LPUSH onto its left
 * end and the worker BRPOPs from its right end, so it behaves as a FIFO.
 * JSON encoding is an oracle (`Codec`); only the round-trip law is assumed,
 * and only where a lemma needs it.
 */
module Publisher {
  import opened Wrappers
  import opened Models

  const WebhookQueueKey: string := "webhook_events"

  /** The notification for one dangerous location check. */
  datatype WebhookEvent = WebhookEvent(
    userId: string,
    latitude: Coordinate,
    longitude: Coordinate,
    isDangerous: bool,
    timestamp: Time,
    incidents: seq<Incident>)

  /**
   * json.Marshal and json.Unmarshal for events. `encode` returns None where
   * marshalling fails; `decode` returns None for bytes that are not an event.
   */
  datatype Codec = Codec(encode: WebhookEvent -> Option<string>, decode: string -> Option<WebhookEvent>)

  /**
   * Unmarshalling what was marshalled gives the event back. An empty incident
   * list is omitted on the wire and decodes to an empty list again, so the
   * law holds for it as for any other event.
   */
  ghost predicate Lawful(codec: Codec) {
    forall e :: codec.encode(e).Some? ==> codec.decode(codec.encode(e).value) == Some(e)
  }

  datatype PublishError = MarshalFailed | PushFailed

  /** The elements of `s` in the opposite order. */
  function Reversed<T>(s: seq<T>): (r: seq<T>)
    ensures |r| == |s|
    ensures forall k :: 0 <= k < |s| ==> r[k] == s[|s| - 1 - k]
  {
    if s == [] then [] else Reversed(s[1..]) + [s[0]]
  }

  lemma ReversedSnoc<T>(s: seq<T>, x: T)
    ensures Reversed(s + [x]) == [x] + Reversed(s)
  {
    var a, b := Reversed(s + [x]), [x] + Reversed(s);
    assert |a| == |b|;
    forall k | 0 <= k < |a| ensures a[k] == b[k] {
      if k > 0 {
        assert a[k] == (s + [x])[|s| - k];
      }
    }
  }

  /**
   * The list after LPUSHing each of `payloads`, in order, onto `items`: one
   * more element per push, and the earlier contents still at the right end.
   */
  function Pushed(items: seq<string>, payloads: seq<string>): (r: seq<string>)
    ensures |r| == |items| + |payloads|
    ensures r[|payloads|..] == items
    decreases |payloads|
  {
    if payloads == [] then items
    else
      var r := Pushed([payloads[0]] + items, payloads[1..]);
      assert r[|payloads|..] == r[|payloads| - 1..][1..];
      r
  }

  /**
   * Popping from the right end yields what was already queued, oldest first,
   * and then the new payloads in the order they were pushed.
   */
  lemma {:induction false} PopOrderIsPushOrder(items: seq<string>, payloads: seq<string>)
    ensures Reversed(Pushed(items, payloads)) == Reversed(items) + payloads
    decreases |payloads|
  {
    if payloads != [] {
      var p := payloads[0];
      PopOrderIsPushOrder([p] + items, payloads[1..]);
      assert Reversed([p] + items) == Reversed(items) + [p];
      assert payloads == [p] + payloads[1..];
    }
  }

  /** The Redis list the publisher and the worker share; `items[0]` is its left end. */
  class EventQueue {
    /** The list's Redis key. */
    const key: string
    var items: seq<string>

    constructor ()
      ensures key == WebhookQueueKey && items == []
    {
      key := WebhookQueueKey;
      items := [];
    }

    /** LPUSH: the new element becomes the left end. */
    method LPush(payload: string)
      modifies this
      ensures items == [payload] + old(items)
    {
      items := [payload] + items;
    }

    /** The non-blocking part of BRPOP: take the right end of a non-empty list. */
    method RPop() returns (payload: string)
      requires items != []
      modifies this
      ensures payload == old(items)[|old(items)| - 1]
      ensures items == old(items)[..|old(items)| - 1]
    {
      payload := items[|items| - 1];
      items := items[..|items| - 1];
    }
  }

  class RedisWebhookPublisher {
    const queue: EventQueue
    const codec: Codec
    /** Every event handed to Publish, oldest first, as a mock would record them. */
    ghost var published: seq<WebhookEvent>

    constructor (queue: EventQueue, codec: Codec)
      ensures this.queue == queue && this.codec == codec && published == []
    {
      this.queue := queue;
      this.codec := codec;
      published := [];
    }

    /**
     * Marshal the event and LPUSH it. `pushFails` stands for the Redis error
     * LPUSH can return; a failed push leaves the list as it was.
     */
    method Publish(event: WebhookEvent, pushFails: bool) returns (err: Option<PublishError>)
      modifies this`published, queue
      ensures published == old(published) + [event]
      ensures codec.encode(event).None? ==> err == Some(MarshalFailed) && queue.items == old(queue.items)
      ensures codec.encode(event).Some? && pushFails ==> err == Some(PushFailed) && queue.items == old(queue.items)
      ensures codec.encode(event).Some? && !pushFails ==>
        err == None && queue.items == [codec.encode(event).value] + old(queue.items)
    {
      published := published + [event];
      var payload := codec.encode(event);
      if payload.None? {
        return Some(MarshalFailed);
      }
      if pushFails {
        return Some(PushFailed);
      }
      queue.LPush(payload.value);
      err := None;
    }
  }
}
