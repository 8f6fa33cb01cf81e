/**
 * The webhook delivery worker of internal/webhook/worker.go: a consumer loop
 * that pops payloads from the right end of "webhook_events", decodes them and
 * delivers each with a bounded number of attempts and exponential backoff.
 * The network, the clock and the context are oracles: the outcome of the i-th
 * attempt is `outcome(i)`, sleeps are recorded rather than taken, and the
 * loop's environment is a finite schedule of ticks.
 */
module Worker {
  import opened Wrappers
  import opened Publisher

  /** generateHMACSHA256(data, secret): lowercase hex of HMAC-SHA256 (RFC 2104, FIPS 180-4), left uninterpreted. */
  type Signer = (string, string) -> string

  const ContentTypeHeader: string := "Content-Type"
  const SignatureHeader: string := "X-Webhook-Signature"
  const JsonMediaType: string := "application/json"

  /** What the worker reads from its configuration. Durations are in abstract ticks. */
  datatype WebhookConfig = WebhookConfig(
    webhookUrl: string,
    webhookSecret: string,
    webhookTimeout: nat,
    maxRetries: int,
    baseDelay: nat)

  /** The result of one pass through the retry loop. */
  datatype Outcome =
    | RequestBuildFailed          // http.NewRequestWithContext returned an error
    | TransportError              // httpClient.Do returned an error
    | Response(statusCode: int)   // a response arrived

  datatype Request = Request(httpMethod: string, url: string, body: string, headers: map<string, string>)

  /** One observable step of a delivery. */
  datatype Step =
    | BuildFailed
    | Sent(request: Request, outcome: Outcome)
    | Slept(duration: nat)

  datatype Delivery = Delivery(steps: seq<Step>, delivered: bool)

  /** A 2xx status, the successful class of section 15.3 of RFC 9110. */
  predicate IsSuccess(code: int) {
    200 <= code < 300
  }

  predicate Succeeded(o: Outcome) {
    o.Response? && IsSuccess(o.statusCode)
  }

  /** The headers of every delivery request: the JSON media type, and a signature exactly when a secret is configured. */
  function Headers(secret: string, sign: Signer, payload: string): (h: map<string, string>)
    ensures ContentTypeHeader in h && h[ContentTypeHeader] == JsonMediaType
    ensures SignatureHeader in h <==> secret != ""
    ensures secret != "" ==> h[SignatureHeader] == sign(payload, secret)
    ensures h.Keys <= {ContentTypeHeader, SignatureHeader}
  {
    var base := map[ContentTypeHeader := JsonMediaType];
    if secret != "" then base[SignatureHeader := sign(payload, secret)] else base
  }

  function RequestFor(cfg: WebhookConfig, sign: Signer, payload: string): Request {
    Request("POST", cfg.webhookUrl, payload, Headers(cfg.webhookSecret, sign, payload))
  }

  function Prefixed(steps: seq<Step>, d: Delivery): Delivery {
    Delivery(steps + d.steps, d.delivered)
  }

  lemma PrefixedTwice(a: seq<Step>, b: seq<Step>, d: Delivery)
    ensures Prefixed(a, Prefixed(b, d)) == Prefixed(a + b, d)
  {
    assert a + (b + d.steps) == (a + b) + d.steps;
  }

  /**
   * The delivery from attempt `i` on, with `delay` the current backoff. It
   * never starts with a sleep, and nothing is delivered without a step.
   */
  function Attempts(cfg: WebhookConfig, sign: Signer, payload: string, outcome: nat -> Outcome, i: nat, delay: nat): (d: Delivery)
    ensures d.steps != [] ==> !d.steps[0].Slept?
    ensures d.delivered ==> d.steps != []
    decreases if i < cfg.maxRetries then cfg.maxRetries - i else 0
  {
    if i >= cfg.maxRetries then Delivery([], false)
    else
      var o := outcome(i);
      if o.RequestBuildFailed? then
        Prefixed([BuildFailed], Attempts(cfg, sign, payload, outcome, i + 1, delay))
      else if Succeeded(o) then
        Delivery([Sent(RequestFor(cfg, sign, payload), o)], true)
      else
        Prefixed([Sent(RequestFor(cfg, sign, payload), o), Slept(delay)],
                 Attempts(cfg, sign, payload, outcome, i + 1, 2 * delay))
  }

  /**
   * What processWebhookEvent does with one event: without a URL nothing is
   * sent and nothing is delivered; with one, the attempts from the first on.
   */
  function Process(cfg: WebhookConfig, sign: Signer, payload: string, outcome: nat -> Outcome): (d: Delivery)
    ensures cfg.webhookUrl == "" ==> d.steps == [] && !d.delivered
    ensures d.delivered ==> cfg.webhookUrl != "" && d.steps != []
    ensures d.steps != [] ==> !d.steps[0].Slept?
  {
    if cfg.webhookUrl == "" then Delivery([], false)
    else Attempts(cfg, sign, payload, outcome, 0, cfg.baseDelay)
  }

  /** The number of passes through the retry loop that a step sequence records. */
  function AttemptCount(steps: seq<Step>): nat {
    if steps == [] then 0
    else (if steps[0].Slept? then 0 else 1) + AttemptCount(steps[1..])
  }

  /** The durations slept, in order. */
  function Sleeps(steps: seq<Step>): seq<nat> {
    if steps == [] then []
    else (if steps[0].Slept? then [steps[0].duration] else []) + Sleeps(steps[1..])
  }

  function Pow2(k: nat): nat {
    if k == 0 then 1 else 2 * Pow2(k - 1)
  }

  /** Prepending the current delay to waits that start from its double keeps the doubling pattern. */
  lemma DoubledDelays(delay: nat, later: seq<nat>)
    requires forall k :: 0 <= k < |later| ==> later[k] == (2 * delay) * Pow2(k)
    ensures var s := [delay] + later; forall k :: 0 <= k < |s| ==> s[k] == delay * Pow2(k)
  {
    var s := [delay] + later;
    forall k | 0 < k < |s| ensures s[k] == delay * Pow2(k) {
      assert s[k] == later[k - 1] == (2 * delay) * Pow2(k - 1);
      assert Pow2(k) == 2 * Pow2(k - 1);
    }
  }

  /**
   * The loop makes at most maxRetries - i more attempts, and exactly that
   * many when it ends without a delivery.
   */
  lemma {:induction false} AttemptsBounded(cfg: WebhookConfig, sign: Signer, payload: string, outcome: nat -> Outcome, i: nat, delay: nat)
    ensures var d := Attempts(cfg, sign, payload, outcome, i, delay);
      var left := if i < cfg.maxRetries then cfg.maxRetries - i else 0;
      && AttemptCount(d.steps) <= left
      && (!d.delivered ==> AttemptCount(d.steps) == left)
    decreases if i < cfg.maxRetries then cfg.maxRetries - i else 0
  {
    if i < cfg.maxRetries {
      var o := outcome(i);
      var req := RequestFor(cfg, sign, payload);
      if o.RequestBuildFailed? {
        var rest := Attempts(cfg, sign, payload, outcome, i + 1, delay).steps;
        AttemptsBounded(cfg, sign, payload, outcome, i + 1, delay);
        assert ([BuildFailed] + rest)[1..] == rest;
      } else if Succeeded(o) {
        assert [Sent(req, o)][1..] == [];
      } else {
        var rest := Attempts(cfg, sign, payload, outcome, i + 1, 2 * delay).steps;
        AttemptsBounded(cfg, sign, payload, outcome, i + 1, 2 * delay);
        assert ([Sent(req, o), Slept(delay)] + rest)[1..] == [Slept(delay)] + rest;
        assert ([Slept(delay)] + rest)[1..] == rest;
      }
    }
  }

  /** The k-th sleep (0-based) lasts delay * 2^k: each wait doubles the previous one. */
  lemma {:induction false} BackoffDoubles(cfg: WebhookConfig, sign: Signer, payload: string, outcome: nat -> Outcome, i: nat, delay: nat)
    ensures var s := Sleeps(Attempts(cfg, sign, payload, outcome, i, delay).steps);
      forall k :: 0 <= k < |s| ==> s[k] == delay * Pow2(k)
    decreases if i < cfg.maxRetries then cfg.maxRetries - i else 0
  {
    if i < cfg.maxRetries {
      var o := outcome(i);
      var req := RequestFor(cfg, sign, payload);
      if o.RequestBuildFailed? {
        var rest := Attempts(cfg, sign, payload, outcome, i + 1, delay).steps;
        BackoffDoubles(cfg, sign, payload, outcome, i + 1, delay);
        assert ([BuildFailed] + rest)[1..] == rest;
      } else if Succeeded(o) {
        assert [Sent(req, o)][1..] == [];
      } else {
        var rest := Attempts(cfg, sign, payload, outcome, i + 1, 2 * delay).steps;
        BackoffDoubles(cfg, sign, payload, outcome, i + 1, 2 * delay);
        assert ([Sent(req, o), Slept(delay)] + rest)[1..] == [Slept(delay)] + rest;
        assert ([Slept(delay)] + rest)[1..] == rest;
        var steps := [Sent(req, o), Slept(delay)] + rest;
        assert Attempts(cfg, sign, payload, outcome, i, delay).steps == steps;
        assert Sleeps(steps) == Sleeps([Slept(delay)] + rest) == [delay] + Sleeps(rest);
        DoubledDelays(delay, Sleeps(rest));
      }
    }
  }

  /** Every request the loop sends (step k) carries the raw payload, unchanged, with the configured headers. */
  lemma {:induction false} SendsCarryThePayload(cfg: WebhookConfig, sign: Signer, payload: string, outcome: nat -> Outcome, i: nat, delay: nat, k: nat)
    ensures var steps := Attempts(cfg, sign, payload, outcome, i, delay).steps;
      k < |steps| && steps[k].Sent? ==> steps[k].request == RequestFor(cfg, sign, payload)
    decreases if i < cfg.maxRetries then cfg.maxRetries - i else 0
  {
    if i < cfg.maxRetries {
      var o := outcome(i);
      var req := RequestFor(cfg, sign, payload);
      if o.RequestBuildFailed? || !Succeeded(o) {
        var head, next := if o.RequestBuildFailed? then [BuildFailed] else [Sent(req, o), Slept(delay)],
                          if o.RequestBuildFailed? then delay else 2 * delay;
        var rest := Attempts(cfg, sign, payload, outcome, i + 1, next).steps;
        var steps := head + rest;
        assert Attempts(cfg, sign, payload, outcome, i, delay).steps == steps;
        if |head| <= k < |steps| {
          SendsCarryThePayload(cfg, sign, payload, outcome, i + 1, next, k - |head|);
          assert steps[k] == rest[k - |head|];
        }
      }
    }
  }

  /** A send that did not get a 2xx response. */
  predicate FailedSend(step: Step) {
    step.Sent? && !Succeeded(step.outcome)
  }

  /**
   * Step k of a delivery: a failed send is always directly followed by a
   * sleep, and a sleep always directly follows a failed send, so neither a
   * request-building failure nor a success sleeps.
   */
  lemma {:induction false} SleepsFollowFailedSends(cfg: WebhookConfig, sign: Signer, payload: string, outcome: nat -> Outcome, i: nat, delay: nat, k: nat)
    ensures var steps := Attempts(cfg, sign, payload, outcome, i, delay).steps;
      k < |steps| ==>
        && (FailedSend(steps[k]) ==> k + 1 < |steps| && steps[k + 1].Slept?)
        && (steps[k].Slept? ==> 0 < k && FailedSend(steps[k - 1]))
    decreases if i < cfg.maxRetries then cfg.maxRetries - i else 0
  {
    if i < cfg.maxRetries {
      var o := outcome(i);
      var req := RequestFor(cfg, sign, payload);
      if o.RequestBuildFailed? || !Succeeded(o) {
        var head, next := if o.RequestBuildFailed? then [BuildFailed] else [Sent(req, o), Slept(delay)],
                          if o.RequestBuildFailed? then delay else 2 * delay;
        var rest := Attempts(cfg, sign, payload, outcome, i + 1, next).steps;
        var steps := head + rest;
        assert Attempts(cfg, sign, payload, outcome, i, delay).steps == steps;
        if |head| <= k < |steps| {
          SleepsFollowFailedSends(cfg, sign, payload, outcome, i + 1, next, k - |head|);
          assert steps[k] == rest[k - |head|];
          if k + 1 < |steps| {
            assert steps[k + 1] == rest[k + 1 - |head|];
          }
          if k > |head| {
            assert steps[k - 1] == rest[k - 1 - |head|];
          }
        }
      }
    }
  }

  /** The loop stops at its first 2xx response, and the event counts as delivered exactly when it got one. */
  lemma {:induction false} DeliveryEndsAtFirstSuccess(cfg: WebhookConfig, sign: Signer, payload: string, outcome: nat -> Outcome, i: nat, delay: nat)
    ensures var d := Attempts(cfg, sign, payload, outcome, i, delay);
      && (forall k :: 0 <= k < |d.steps| && d.steps[k].Sent? && Succeeded(d.steps[k].outcome) ==> k == |d.steps| - 1)
      && (d.delivered <==> d.steps != [] && d.steps[|d.steps| - 1].Sent? && Succeeded(d.steps[|d.steps| - 1].outcome))
    decreases if i < cfg.maxRetries then cfg.maxRetries - i else 0
  {
    if i < cfg.maxRetries {
      var o := outcome(i);
      var req := RequestFor(cfg, sign, payload);
      if o.RequestBuildFailed? || !Succeeded(o) {
        var head, next := if o.RequestBuildFailed? then [BuildFailed] else [Sent(req, o), Slept(delay)],
                          if o.RequestBuildFailed? then delay else 2 * delay;
        DeliveryEndsAtFirstSuccess(cfg, sign, payload, outcome, i + 1, next);
        var later := Attempts(cfg, sign, payload, outcome, i + 1, next);
        var rest := later.steps;
        var steps := head + rest;
        assert Attempts(cfg, sign, payload, outcome, i, delay) == Delivery(steps, later.delivered);
        forall k | 0 <= k < |steps| && steps[k].Sent? && Succeeded(steps[k].outcome) ensures k == |steps| - 1 {
          assert k >= |head|;
          assert steps[k] == rest[k - |head|];
        }
        if rest != [] {
          assert steps[|steps| - 1] == rest[|rest| - 1];
        }
      }
    }
  }

  /** A subscriber that fails k times (k < maxRetries) and then answers 200 gets the event on attempt k + 1. */
  lemma {:induction false} RecoversAfterFailures(cfg: WebhookConfig, sign: Signer, payload: string, k: nat, i: nat, delay: nat)
    requires i <= k < cfg.maxRetries
    ensures var d := Attempts(cfg, sign, payload, j => if j < k then Response(500) else Response(200), i, delay);
      d.delivered && AttemptCount(d.steps) == k - i + 1
    decreases k - i
  {
    var outcome: nat -> Outcome := j => if j < k then Response(500) else Response(200);
    var req := RequestFor(cfg, sign, payload);
    if i < k {
      RecoversAfterFailures(cfg, sign, payload, k, i + 1, 2 * delay);
      var rest := Attempts(cfg, sign, payload, outcome, i + 1, 2 * delay).steps;
      assert ([Sent(req, Response(500)), Slept(delay)] + rest)[1..] == [Slept(delay)] + rest;
      assert ([Slept(delay)] + rest)[1..] == rest;
    } else {
      assert Attempts(cfg, sign, payload, outcome, i, delay).steps == [Sent(req, Response(200))];
      assert [Sent(req, Response(200))][1..] == [];
    }
  }

  /** A subscriber that always fails gets exactly maxRetries attempts, one doubling sleep after each. */
  lemma {:induction false} AlwaysFailingExhausts(cfg: WebhookConfig, sign: Signer, payload: string)
    requires cfg.webhookUrl != ""
    ensures var d := Process(cfg, sign, payload, j => Response(500));
      && !d.delivered
      && AttemptCount(d.steps) == (if cfg.maxRetries > 0 then cfg.maxRetries else 0)
      && (forall k :: 0 <= k < |Sleeps(d.steps)| ==> Sleeps(d.steps)[k] == cfg.baseDelay * Pow2(k))
  {
    var outcome: nat -> Outcome := j => Response(500);
    NeverDeliveredWhenAlwaysFailing(cfg, sign, payload, 0, cfg.baseDelay);
    AttemptsBounded(cfg, sign, payload, outcome, 0, cfg.baseDelay);
    BackoffDoubles(cfg, sign, payload, outcome, 0, cfg.baseDelay);
  }

  lemma {:induction false} NeverDeliveredWhenAlwaysFailing(cfg: WebhookConfig, sign: Signer, payload: string, i: nat, delay: nat)
    ensures !Attempts(cfg, sign, payload, j => Response(500), i, delay).delivered
    decreases if i < cfg.maxRetries then cfg.maxRetries - i else 0
  {
    if i < cfg.maxRetries {
      NeverDeliveredWhenAlwaysFailing(cfg, sign, payload, i + 1, 2 * delay);
    }
  }

  /** What the consumer loop finds at the top of one iteration. */
  datatype PopResult =
    | PopCancelled                       // BRPOP returned context.Canceled
    | PopFailed                          // BRPOP returned another error
    | Popped(respond: nat -> Outcome)    // BRPOP returned a payload; `respond` answers its delivery attempts

  datatype Tick = ContextDone | Pop(result: PopResult)

  /** What one iteration of the consumer loop did. */
  datatype Entry =
    | CancelledPop
    | PopErrorSlept(duration: nat)
    | Undecodable(payload: string)
    | Processed(payload: string, event: WebhookEvent, delivery: Delivery)

  /** The payloads an iteration sequence took off the queue, in the order taken. */
  function Payloads(journal: seq<Entry>): (ps: seq<string>)
    ensures |ps| <= |journal|
  {
    if journal == [] then []
    else
      var e := journal[|journal| - 1];
      Payloads(journal[..|journal| - 1]) + (if e.Undecodable? || e.Processed? then [e.payload] else [])
  }

  lemma PayloadsSnoc(journal: seq<Entry>, entry: Entry)
    ensures Payloads(journal + [entry])
         == Payloads(journal) + (if entry.Undecodable? || entry.Processed? then [entry.payload] else [])
  {
    assert (journal + [entry])[..|journal|] == journal;
  }

  class WebhookWorker {
    const queue: EventQueue
    const codec: Codec
    const cfg: WebhookConfig
    const sign: Signer

    constructor (queue: EventQueue, codec: Codec, cfg: WebhookConfig, sign: Signer)
      ensures this.queue == queue && this.codec == codec && this.cfg == cfg && this.sign == sign
    {
      this.queue, this.codec, this.cfg, this.sign := queue, codec, cfg, sign;
    }

    /**
     * processWebhookEvent: up to maxRetries passes; a request-building failure
     * moves on at once, a transport error or non-2xx response sleeps the
     * current delay and doubles it, and the first 2xx response ends the loop.
     * After the last pass the event is dropped.
     */
    method ProcessWebhookEvent(event: WebhookEvent, rawPayload: string, outcome: nat -> Outcome) returns (d: Delivery)
      ensures d == Process(cfg, sign, rawPayload, outcome)
    {
      if cfg.webhookUrl == "" {
        return Delivery([], false);
      }
      var maxRetries := cfg.maxRetries;
      var delay := cfg.baseDelay;
      var steps: seq<Step> := [];
      var i: nat := 0;
      while i < maxRetries
        invariant Attempts(cfg, sign, rawPayload, outcome, 0, cfg.baseDelay)
               == Prefixed(steps, Attempts(cfg, sign, rawPayload, outcome, i, delay))
        decreases maxRetries - i
      {
        var o := outcome(i);
        ghost var later := Attempts(cfg, sign, rawPayload, outcome, i + 1, if o.RequestBuildFailed? then delay else 2 * delay);
        if o.RequestBuildFailed? {
          assert Attempts(cfg, sign, rawPayload, outcome, i, delay) == Prefixed([BuildFailed], later);
          PrefixedTwice(steps, [BuildFailed], later);
          steps := steps + [BuildFailed];
        } else {
          var request := SignedRequest(rawPayload);
          if o.Response? && IsSuccess(o.statusCode) {
            steps := steps + [Sent(request, o)];
            return Delivery(steps, true);
          }
          assert Attempts(cfg, sign, rawPayload, outcome, i, delay) == Prefixed([Sent(request, o), Slept(delay)], later);
          PrefixedTwice(steps, [Sent(request, o), Slept(delay)], later);
          steps := steps + [Sent(request, o), Slept(delay)];
          delay := delay * 2;
        }
        i := i + 1;
      }
      d := Delivery(steps, false);
    }

    /** A POST of the raw payload to the configured URL, with the JSON media type and, when a secret is set, the signature. */
    method SignedRequest(rawPayload: string) returns (request: Request)
      ensures request.httpMethod == "POST" && request.url == cfg.webhookUrl && request.body == rawPayload
      ensures request.headers == Headers(cfg.webhookSecret, sign, rawPayload)
    {
      var headers := map[ContentTypeHeader := JsonMediaType];
      if cfg.webhookSecret != "" {
        headers := headers[SignatureHeader := sign(rawPayload, cfg.webhookSecret)];
      }
      request := Request("POST", cfg.webhookUrl, rawPayload, headers);
    }

    /** How an iteration's entry answers the tick it was given. */
    ghost predicate Answers(tick: Tick, entry: Entry) {
      match tick
      case ContextDone => false
      case Pop(PopCancelled) => entry == CancelledPop
      case Pop(PopFailed) => entry == PopErrorSlept(cfg.webhookTimeout)
      case Pop(Popped(respond)) =>
        || (entry.Undecodable? && codec.decode(entry.payload).None?)
        || (entry.Processed? && codec.decode(entry.payload) == Some(entry.event)
            && entry.delivery == Process(cfg, sign, entry.payload, respond))
    }

    /**
     * The consumer loop of Start, run against a finite schedule. It stops at
     * the first ContextDone, or at a pop on an empty list: BRPOP with no
     * timeout then blocks until the context is cancelled.
     */
    method Start(ticks: seq<Tick>) returns (journal: seq<Entry>)
      modifies queue
      ensures |journal| <= |ticks|
      ensures old(queue.items) == queue.items + Reversed(Payloads(journal))
      ensures forall k :: 0 <= k < |journal| ==> Answers(ticks[k], journal[k])
      ensures |journal| < |ticks| ==>
        ticks[|journal|].ContextDone? || (ticks[|journal|].result.Popped? && queue.items == [])
    {
      journal := [];
      var n := 0;
      while n < |ticks|
        invariant n == |journal| <= |ticks|
        invariant old(queue.items) == queue.items + Reversed(Payloads(journal))
        invariant forall k :: 0 <= k < |journal| ==> Answers(ticks[k], journal[k])
      {
        var tick := ticks[n];
        if tick.ContextDone? {
          return;
        }
        var entry: Entry;
        if tick.result.PopCancelled? {
          // The context is cancelled by then, so the next tick the source can
          // see is ContextDone; the schedule may put any tick here instead.
          entry := CancelledPop;
        } else if tick.result.PopFailed? {
          entry := PopErrorSlept(cfg.webhookTimeout);
        } else {
          if queue.items == [] {
            return;
          }
          entry := TakeOne(tick.result.respond);
          ReversedSnoc(Payloads(journal), entry.payload);
        }
        PayloadsSnoc(journal, entry);
        AnswersExtend(ticks, journal, entry);
        journal := journal + [entry];
        n := n + 1;
      }
    }

    lemma AnswersExtend(ticks: seq<Tick>, journal: seq<Entry>, entry: Entry)
      requires |journal| < |ticks|
      requires forall k :: 0 <= k < |journal| ==> Answers(ticks[k], journal[k])
      requires Answers(ticks[|journal|], entry)
      ensures forall k :: 0 <= k < |journal| + 1 ==> Answers(ticks[k], (journal + [entry])[k])
    {
      forall k | 0 <= k < |journal| + 1 ensures Answers(ticks[k], (journal + [entry])[k]) {
        if k < |journal| {
          assert (journal + [entry])[k] == journal[k];
        }
      }
    }

    /** One popped payload: decoded and delivered, or skipped when it does not decode. */
    method TakeOne(respond: nat -> Outcome) returns (entry: Entry)
      requires queue.items != []
      modifies queue
      ensures entry.Undecodable? || entry.Processed?
      ensures old(queue.items) == queue.items + [entry.payload]
      ensures Answers(Pop(Popped(respond)), entry)
    {
      var payload := queue.RPop();
      match codec.decode(payload) {
        case None =>
          entry := Undecodable(payload);
        case Some(event) =>
          var delivery := ProcessWebhookEvent(event, payload, respond);
          entry := Processed(payload, event, delivery);
      }
    }
  }

  /**
   * End to end: events published in order onto an empty list are taken off
   * by the worker in the same order, and each decodes to the event published.
   */
  lemma PublishedEventsArriveInOrder(codec: Codec, events: seq<WebhookEvent>, payloads: seq<string>)
    requires Lawful(codec)
    requires |payloads| == |events|
    requires forall k :: 0 <= k < |events| ==> codec.encode(events[k]) == Some(payloads[k])
    ensures Reversed(Pushed([], payloads)) == payloads
    ensures forall k :: 0 <= k < |payloads| ==> codec.decode(Reversed(Pushed([], payloads))[k]) == Some(events[k])
  {
    PopOrderIsPushOrder([], payloads);
  }
}
