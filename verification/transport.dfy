/**
 * A stand-in for the Paho `MqttClient` that the starter drives. The real
 * client talks to a broker; here every call is appended to `log`, and the
 * outcome the broker would decide (connect accepted, subscribe refused, ...)
 * is passed in by the caller, so each call is a deterministic state change.
 */
module Transport {
  import opened Wrappers

  type Payload = seq<bv8>

  /** The subset of `MqttConnectOptions` that the starter sets. */
  datatype ConnectOptions = ConnectOptions(
    userName: Option<string>,
    password: Option<string>,
    cleanSession: bool)

  /** One request issued to the transport, with whether it succeeded. */
  datatype Call =
    | Connect(options: ConnectOptions, ok: bool)
    | Subscribe(topic: string, ok: bool)
    | Publish(topic: string, payload: Payload, qos: int, retained: bool, ok: bool)
    | Disconnect(ok: bool)
    | Close(force: bool, ok: bool)

  class MqttClient {
    var connected: bool
    var closed: bool
    var log: seq<Call>

    constructor ()
      ensures !connected && !closed && log == []
    {
      connected, closed, log := false, false, [];
    }

    /** `connect(options)`: the session is up afterwards iff the broker accepted it. */
    method Connect(options: ConnectOptions, ok: bool)
      modifies this
      ensures log == old(log) + [Call.Connect(options, ok)]
      ensures connected == (old(connected) || ok) && closed == old(closed)
    {
      log := log + [Call.Connect(options, ok)];
      connected := connected || ok;
    }

    /** `subscribe(topic)`: throws when `ok` is false; the session is unaffected. */
    method Subscribe(topic: string, ok: bool)
      modifies this
      ensures log == old(log) + [Call.Subscribe(topic, ok)]
      ensures connected == old(connected) && closed == old(closed)
    {
      log := log + [Call.Subscribe(topic, ok)];
    }

    /** `publish(topic, payload, qos, retained)`. */
    method Publish(topic: string, payload: Payload, qos: int, retained: bool, ok: bool)
      modifies this
      ensures log == old(log) + [Call.Publish(topic, payload, qos, retained, ok)]
      ensures connected == old(connected) && closed == old(closed)
    {
      log := log + [Call.Publish(topic, payload, qos, retained, ok)];
    }

    /** `disconnect()`: a graceful disconnect that may be refused. */
    method Disconnect(ok: bool)
      modifies this
      ensures log == old(log) + [Call.Disconnect(ok)]
      ensures connected == (old(connected) && !ok) && closed == old(closed)
    {
      log := log + [Call.Disconnect(ok)];
      connected := connected && !ok;
    }

    /** `close(force)`: releases the client; a refused close leaves it as it was. */
    method Close(force: bool, ok: bool)
      modifies this
      ensures log == old(log) + [Call.Close(force, ok)]
      ensures connected == (old(connected) && !ok) && closed == (old(closed) || ok)
    {
      log := log + [Call.Close(force, ok)];
      if ok {
        connected, closed := false, true;
      }
    }

    /** The broker link breaks; the transport then reports `connectionLost`. */
    method DropConnection()
      modifies this
      ensures !connected && closed == old(closed) && log == old(log)
    {
      connected := false;
    }
  }
}
