/**
 * `EnhancedMqttFactory`: the connect options it builds, the initial connect
 * it performs, and its reconnect supervisor `SmartReconnectCallback`.
 *
 * The supervisor's single-thread scheduler is modelled as the FIFO
 * `pending` of the delays of the reconnect attempts it still has to run;
 * `RunNext` is the scheduler running the oldest one. Every outcome the
 * broker decides is a parameter of the method that meets it.
 */
module Factory {
  import opened Wrappers
  import opened Transport
  import opened Backoff
  import opened Sequences

  /** An event forwarded to the user's `MqttCallback`. */
  datatype Event =
    | ConnectionLost
    | MessageArrived(topic: string, payload: Payload)
    | DeliveryComplete

  /** Whether a transport operation returned or threw `MqttException`. */
  datatype Status = Ok | Failed

  /**
   * Adding `topic` to the recorded topics (a `CopyOnWriteArraySet`, which
   * iterates in insertion order): set membership grows by exactly `topic`,
   * nothing already recorded moves or disappears, and no topic is held twice.
   */
  function Record(topics: seq<string>, topic: string): (r: seq<string>)
    ensures forall t :: t in r <==> t in topics || t == topic
    ensures |topics| <= |r| <= |topics| + 1 && r[..|topics|] == topics
    ensures NoDuplicates(topics) ==> NoDuplicates(r)
  {
    if topic in topics then topics else topics + [topic]
  }

  /** Recording a topic a second time changes nothing. */
  lemma RecordIdempotent(topics: seq<string>, topic: string)
    ensures Record(Record(topics, topic), topic) == Record(topics, topic)
  {
  }

  /**
   * The subscribe calls `resubscribeTopics` issues when the subscribe at
   * index `firstFailing` is the first to throw: they follow the recorded
   * order and stop right after the failing one.
   */
  function Resubscription(topics: seq<string>, firstFailing: nat): seq<Call>
    decreases |topics|
  {
    if topics == [] then []
    else if firstFailing == 0 then [Call.Subscribe(topics[0], false)]
    else [Call.Subscribe(topics[0], true)] + Resubscription(topics[1..], firstFailing - 1)
  }

  /**
   * Resubscription subscribes topics `0 .. firstFailing` in order (all of
   * them when nothing fails); only the one at `firstFailing` fails, and every
   * later topic is skipped.
   */
  lemma {:induction false} ResubscriptionStopsAtFirstFailure(topics: seq<string>, firstFailing: nat)
    ensures |Resubscription(topics, firstFailing)| == if firstFailing < |topics| then firstFailing + 1 else |topics|
    ensures forall i :: 0 <= i < |Resubscription(topics, firstFailing)| ==>
      Resubscription(topics, firstFailing)[i] == Call.Subscribe(topics[i], i != firstFailing)
    decreases |topics|
  {
    if topics != [] && firstFailing > 0 {
      ResubscriptionStopsAtFirstFailure(topics[1..], firstFailing - 1);
      var r := Resubscription(topics, firstFailing);
      forall i | 0 <= i < |r|
        ensures r[i] == Call.Subscribe(topics[i], i != firstFailing)
      {
        if i > 0 {
          assert r[i] == Resubscription(topics[1..], firstFailing - 1)[i - 1];
        }
      }
    }
  }

  /** `buildConnectOptions`: credentials only when both user name and password are given. */
  function BuildConnectOptions(userName: Option<string>, password: Option<string>, cleanSession: bool): (o: ConnectOptions)
    ensures o.cleanSession == cleanSession
    ensures o.userName.Some? == o.password.Some? == (userName.Some? && password.Some?)
    ensures o.userName.Some? ==> o.userName == userName && o.password == password
  {
    if userName.Some? && password.Some? then ConnectOptions(userName, password, cleanSession)
    else ConnectOptions(None, None, cleanSession)
  }

  class SmartReconnectCallback {
    const client: MqttClient
    const options: ConnectOptions
    const config: ReconnectConfig
    /** Whether a user `MqttCallback` was supplied (`userCallback != null`). */
    const hasUserCallback: bool

    var topics: seq<string>
    var isShutdown: bool
    var attempts: nat
    var pending: seq<int>
    var forwarded: seq<Event>

    ghost predicate Valid()
      reads this
    {
      && NoDuplicates(topics)
      && (isShutdown ==> pending == [])
      && (attempts == 0 || attempts <= config.maxAttempts)
    }

    constructor (client: MqttClient, options: ConnectOptions, config: ReconnectConfig, hasUserCallback: bool)
      ensures Valid()
      ensures this.client == client && this.options == options && this.config == config
      ensures this.hasUserCallback == hasUserCallback
      ensures topics == [] && !isShutdown && attempts == 0 && pending == [] && forwarded == []
    {
      this.client, this.options, this.config := client, options, config;
      this.hasUserCallback := hasUserCallback;
      topics, isShutdown, attempts, pending, forwarded := [], false, 0, [], [];
    }

    /**
     * The effect of `handleDisconnection` on a count `attempts0` and a queue
     * `pending0`: below the maximum, the delay is computed from the count
     * before it grows by one and is queued; at the maximum, nothing changes.
     */
    ghost predicate Retried(attempts0: nat, pending0: seq<int>)
      reads this
    {
      if attempts0 < config.maxAttempts then
        attempts == attempts0 + 1 && pending == pending0 + [BackoffDelay(config, attempts0)]
      else
        attempts == attempts0 && pending == pending0
    }

    /** `handleDisconnection`. */
    method HandleDisconnection()
      requires Valid() && !isShutdown
      modifies this`attempts, this`pending
      ensures Valid() && Retried(old(attempts), old(pending))
    {
      if attempts < config.maxAttempts {
        var delay := BackoffDelay(config, attempts);
        attempts := attempts + 1;
        pending := pending + [delay];
      }
    }

    /** `forwardEvent`: the event reaches the user callback only when there is one. */
    method ForwardEvent(e: Event)
      modifies this`forwarded
      ensures forwarded == old(forwarded) + (if hasUserCallback then [e] else [])
    {
      if hasUserCallback {
        forwarded := forwarded + [e];
      }
    }

    /** `connectionLost`: ignored after shutdown; otherwise a retry is considered and the loss forwarded. */
    method ConnectionLost()
      requires Valid()
      modifies this`attempts, this`pending, this`forwarded
      ensures Valid()
      ensures old(isShutdown) ==>
        attempts == old(attempts) && pending == old(pending) && forwarded == old(forwarded)
      ensures !old(isShutdown) ==>
        && Retried(old(attempts), old(pending))
        && forwarded == old(forwarded) + (if hasUserCallback then [Event.ConnectionLost] else [])
    {
      if isShutdown {
        return;
      }
      HandleDisconnection();
      ForwardEvent(Event.ConnectionLost);
    }

    /** `messageArrived`: forwarded to the user callback, whatever the supervisor's state. */
    method MessageArrived(topic: string, payload: Payload)
      modifies this`forwarded
      ensures forwarded == old(forwarded) + (if hasUserCallback then [Event.MessageArrived(topic, payload)] else [])
    {
      ForwardEvent(Event.MessageArrived(topic, payload));
    }

    /** `deliveryComplete`: forwarded to the user callback. */
    method DeliveryComplete()
      modifies this`forwarded
      ensures forwarded == old(forwarded) + (if hasUserCallback then [Event.DeliveryComplete] else [])
    {
      ForwardEvent(Event.DeliveryComplete);
    }

    /** `resubscribeTopics`: subscribes in recorded order and swallows the first failure. */
    method ResubscribeTopics(firstFailing: nat)
      modifies client
      ensures client.log == old(client.log) + Resubscription(topics, firstFailing)
      ensures client.connected == old(client.connected) && client.closed == old(client.closed)
    {
      if topics != [] {
        var i := 0;
        while i < |topics|
          invariant 0 <= i <= |topics| && i <= firstFailing
          invariant client.log + Resubscription(topics[i..], firstFailing - i)
            == old(client.log) + Resubscription(topics, firstFailing)
          invariant client.connected == old(client.connected) && client.closed == old(client.closed)
        {
          assert topics[i..][1..] == topics[i + 1..];
          var ok := i != firstFailing;
          client.Subscribe(topics[i], ok);
          if !ok {
            break;
          }
          i := i + 1;
        }
      }
    }

    /**
     * What one reconnect attempt does, from a session state `connected0`,
     * count `attempts0`, queue `pending0` and transport log `log0`: nothing
     * when the session is already up; on a successful connect the count goes
     * back to 0 and the topics are resubscribed (a failing resubscription
     * schedules nothing); on a failed connect the loss is handled again.
     */
    ghost predicate AttemptOutcome(connected0: bool, attempts0: nat, pending0: seq<int>, log0: seq<Call>,
                                   connectOk: bool, firstFailing: nat)
      reads this, client
    {
      if connected0 then
        attempts == attempts0 && pending == pending0 && client.log == log0 && client.connected
      else if connectOk then
        && attempts == 0 && pending == pending0 && client.connected
        && client.log == log0 + [Call.Connect(options, true)] + Resubscription(topics, firstFailing)
      else
        && Retried(attempts0, pending0) && !client.connected
        && client.log == log0 + [Call.Connect(options, false)]
    }

    /** `attemptReconnect`. */
    method AttemptReconnect(connectOk: bool, firstFailing: nat)
      requires Valid() && !isShutdown
      modifies this`attempts, this`pending, client
      ensures Valid() && client.closed == old(client.closed)
      ensures AttemptOutcome(old(client.connected), old(attempts), old(pending), old(client.log), connectOk, firstFailing)
    {
      if !client.connected {
        client.Connect(options, connectOk);
        if connectOk {
          attempts := 0;
          ResubscribeTopics(firstFailing);
        } else {
          HandleDisconnection();
        }
      }
    }

    /** The scheduler thread runs the oldest queued reconnect attempt. */
    method RunNext(connectOk: bool, firstFailing: nat) returns (delay: int)
      requires Valid() && pending != []
      modifies this`attempts, this`pending, client
      ensures Valid() && client.closed == old(client.closed)
      ensures delay == old(pending[0])
      ensures AttemptOutcome(old(client.connected), old(attempts), old(pending[1..]), old(client.log), connectOk, firstFailing)
    {
      delay := pending[0];
      pending := pending[1..];
      AttemptReconnect(connectOk, firstFailing);
    }

    /** `scheduleReconnectAttempt`: queue an immediate attempt; the count is untouched. */
    method ScheduleReconnectAttempt()
      requires Valid() && !isShutdown
      modifies this`pending
      ensures Valid() && pending == old(pending) + [0]
    {
      pending := pending + [0];
    }

    /** `shutdown`: no further losses are acted on and every queued attempt is cancelled. */
    method Shutdown()
      requires Valid()
      modifies this`isShutdown, this`pending
      ensures Valid() && isShutdown && pending == []
    {
      isShutdown := true;
      pending := [];
    }

    /** `addSubscribedTopic`. */
    method AddSubscribedTopic(topic: string)
      requires Valid()
      modifies this`topics
      ensures Valid() && topics == Record(old(topics), topic)
    {
      if topic !in topics {
        topics := topics + [topic];
      }
    }
  }

  /**
   * `performConnect`: the first connect. On failure one immediate attempt is
   * queued iff `autoRetryInitialConnect`, the count is not touched, and the
   * failure is reported to the caller either way.
   */
  method PerformConnect(client: MqttClient, options: ConnectOptions, callback: SmartReconnectCallback, connectOk: bool)
    returns (r: Status)
    requires callback.Valid() && !callback.isShutdown
    requires callback.client == client && callback.options == options
    modifies client, callback`pending
    ensures callback.Valid()
    ensures client.log == old(client.log) + [Call.Connect(options, connectOk)]
    ensures client.connected == (old(client.connected) || connectOk) && client.closed == old(client.closed)
    ensures r == if connectOk then Ok else Failed
    ensures callback.pending == old(callback.pending) +
      (if !connectOk && callback.config.autoRetryInitialConnect then [0] else [])
  {
    client.Connect(options, connectOk);
    if !connectOk {
      if callback.config.autoRetryInitialConnect {
        callback.ScheduleReconnectAttempt();
      }
      return Failed;
    }
    return Ok;
  }

  /**
   * An outage the broker never recovers from: the session drops, the
   * supervisor is told, and its scheduler runs every queued attempt, each of
   * which fails. The delays it waits are exactly `RetryTrace(config, 0)` and
   * the count ends at `maxAttempts` (0 for a non-positive maximum).
   */
  method OutageEpisode(config: ReconnectConfig, options: ConnectOptions) returns (delays: seq<int>, finalAttempts: nat)
    ensures delays == RetryTrace(config, 0)
    ensures finalAttempts == if config.maxAttempts > 0 then config.maxAttempts else 0
  {
    var client := new MqttClient();
    var callback := new SmartReconnectCallback(client, options, config, false);
    client.Connect(options, true);
    client.DropConnection();
    callback.ConnectionLost();
    delays := [];
    while callback.pending != []
      invariant callback.Valid() && !callback.isShutdown && callback.client == client && !client.connected
      invariant |callback.pending| <= 1
      invariant callback.pending == [] ==> callback.attempts >= config.maxAttempts
      invariant callback.config == config
      invariant delays + callback.pending + RetryTrace(config, callback.attempts) == RetryTrace(config, 0)
      decreases (if callback.attempts < config.maxAttempts then config.maxAttempts - callback.attempts else 0)
        + |callback.pending|
    {
      var d := callback.RunNext(false, 0);
      delays := delays + [d];
    }
    finalAttempts := callback.attempts;
  }
}
