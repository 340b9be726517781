/**
 * `MqttClientWrapper`: the bean applications use. It pairs one transport
 * client with the reconnect callback installed on it, records subscribed
 * topics for resubscription, and tears both down on shutdown.
 */
module ClientWrapper {
  import opened Transport
  import opened Factory

  /** How a wrapper call ended: normally, with `MqttException`, or with `NullPointerException`. */
  datatype Outcome = Done | MqttError | NullCallback

  /** The part of `MqttMessage` that `publish(topic, message)` passes on. */
  datatype MqttMessage = MqttMessage(payload: Payload, qos: int, retained: bool)

  class MqttClientWrapper {
    const client: MqttClient
    const callback: SmartReconnectCallback?

    /** The callback, when there is one, is the supervisor installed on this wrapper's client. */
    ghost predicate Valid()
      reads this, callback
    {
      callback != null ==> callback.Valid() && callback.client == client
    }

    constructor (client: MqttClient, callback: SmartReconnectCallback?)
      requires callback != null ==> callback.Valid() && callback.client == client
      ensures Valid()
      ensures this.client == client && this.callback == callback
    {
      this.client, this.callback := client, callback;
    }

    /**
     * `subscribe(topic)`: the topic is recorded for resubscription before
     * the broker is asked, so a refused subscription is still retried after
     * the next reconnect. Without a callback the call fails before any
     * request is sent. Nothing else about the supervisor changes.
     */
    method Subscribe(topic: string, ok: bool) returns (r: Outcome)
      requires Valid()
      modifies client, callback
      ensures Valid()
      ensures callback == null ==> r == NullCallback && client.log == old(client.log)
      ensures callback != null ==>
        && callback.topics == Factory.Record(old(callback.topics), topic)
        && client.log == old(client.log) + [Call.Subscribe(topic, ok)]
        && r == (if ok then Done else MqttError)
      ensures callback != null ==>
        && callback.attempts == old(callback.attempts) && callback.pending == old(callback.pending)
        && callback.isShutdown == old(callback.isShutdown) && callback.forwarded == old(callback.forwarded)
      ensures client.connected == old(client.connected) && client.closed == old(client.closed)
    {
      if callback == null {
        return NullCallback;
      }
      callback.AddSubscribedTopic(topic);
      client.Subscribe(topic, ok);
      r := if ok then Done else MqttError;
    }

    /**
     * `publish(topic, payload, qos, retained)`: the message is always sent
     * at QoS 0 and not retained, whatever the caller asked for.
     */
    method Publish(topic: string, payload: Payload, qos: int, retained: bool, ok: bool) returns (r: Outcome)
      modifies client
      ensures client.log == old(client.log) + [Call.Publish(topic, payload, 0, false, ok)]
      ensures client.connected == old(client.connected) && client.closed == old(client.closed)
      ensures r == (if ok then Done else MqttError)
    {
      client.Publish(topic, payload, 0, false, ok);
      r := if ok then Done else MqttError;
    }

    /** `publish(topic, message)`: the message's own QoS and retained flag are kept. */
    method PublishMessage(topic: string, message: MqttMessage, ok: bool) returns (r: Outcome)
      modifies client
      ensures client.log == old(client.log) + [Call.Publish(topic, message.payload, message.qos, message.retained, ok)]
      ensures client.connected == old(client.connected) && client.closed == old(client.closed)
      ensures r == (if ok then Done else MqttError)
    {
      client.Publish(topic, message.payload, message.qos, message.retained, ok);
      r := if ok then Done else MqttError;
    }

    /**
     * The effect of `shutdown` when the broker answers the disconnect with
     * `disconnectOk` and the close with `closeOk`: a connected client is
     * disconnected, then force-closed, then the callback is shut down; the
     * first refused request ends the sequence. The callback's topics, count
     * and forwarded events are never touched.
     */
    twostate predicate ShutdownEffect(disconnectOk: bool, closeOk: bool)
      reads this, client, callback
    {
      var reachesClose := !old(client.connected) || disconnectOk;
      var closes := reachesClose && closeOk;
      && client.log == old(client.log)
           + (if old(client.connected) then [Call.Disconnect(disconnectOk)] else [])
           + (if reachesClose then [Call.Close(true, closeOk)] else [])
      && client.closed == (old(client.closed) || closes)
      && client.connected == (old(client.connected) && !disconnectOk && !closes)
      && (callback != null ==>
            && (if closes then callback.isShutdown && callback.pending == []
                else callback.isShutdown == old(callback.isShutdown) && callback.pending == old(callback.pending))
            && callback.topics == old(callback.topics) && callback.attempts == old(callback.attempts)
            && callback.forwarded == old(callback.forwarded))
    }

    /**
     * `shutdown`: a refused disconnect skips the close and leaves the
     * callback scheduling reconnects; its `MqttException` is caught and
     * logged, so nothing is reported.
     */
    method Shutdown(disconnectOk: bool, closeOk: bool)
      requires Valid()
      modifies client, callback
      ensures Valid() && ShutdownEffect(disconnectOk, closeOk)
    {
      if client.connected {
        client.Disconnect(disconnectOk);
        if !disconnectOk {
          return;
        }
      }
      client.Close(true, closeOk);
      if !closeOk {
        return;
      }
      if callback != null {
        callback.Shutdown();
      }
    }

    /** `destroy`, the container's disposal hook: exactly `shutdown`. */
    method Destroy(disconnectOk: bool, closeOk: bool)
      requires Valid()
      modifies client, callback
      ensures Valid() && ShutdownEffect(disconnectOk, closeOk)
    {
      Shutdown(disconnectOk, closeOk);
    }
  }

  /**
   * A topic subscribed through the wrapper survives an outage: after the
   * session drops and the scheduled reconnect succeeds, the transport sees
   * the reconnect followed by a subscribe of that topic.
   */
  method SubscriptionReplayedAfterReconnect(options: ConnectOptions, config: Backoff.ReconnectConfig, topic: string)
    returns (replayed: seq<Call>)
    requires config.maxAttempts > 0
    ensures replayed == [Call.Connect(options, true), Call.Subscribe(topic, true)]
  {
    var client := new MqttClient();
    var callback := new SmartReconnectCallback(client, options, config, false);
    var wrapper := new MqttClientWrapper(client, callback);
    client.Connect(options, true);
    var _ := wrapper.Subscribe(topic, true);
    assert callback.topics == [topic];
    client.DropConnection();
    callback.ConnectionLost();
    var before := client.log;
    var _ := callback.RunNext(true, 1);
    assert Resubscription([topic], 1) == [Call.Subscribe(topic, true)];
    replayed := client.log[|before|..];
  }
}
