# MQTT client starter: reconnect supervisor, topic router and client wrapper

This project models in Dafny the core of a Spring Boot starter around the
Eclipse Paho MQTT v3 client, and proves properties of that model. It covers
three parts.

- **Reconnect supervisor.** This is `EnhancedMqttFactory.SmartReconnectCallback`, together with
  `performConnect`, `buildConnectOptions` and `ReconnectConfig`. It is the
  class `Factory.SmartReconnectCallback`. Its state is:
  - an attempt count;
  - the recorded topics, kept in insertion order without duplicates;
  - a shutdown flag;
  - the FIFO `pending` of reconnect delays queued on the single-thread scheduler.

  Every outcome the broker decides is a method parameter: whether a connect is
  accepted, and the index of the first subscribe that fails. So every method is a
  deterministic state change. `RunNext` is the scheduler running the oldest
  queued attempt. The backoff arithmetic lives in the `Backoff` module.
- **Topic router.** This is `MqttHandlerRegistry`, the class `HandlerRegistry.MqttHandlerRegistry`.
  - A filter is rewritten (`+` becomes `[^/]+`, `#` becomes `.*`). The rewrite is `TopicPattern.RegexOf`.
  - The result is compiled into three kinds of token: a literal character, "one or more characters
    other than `/`", and "any run of characters other than line terminators".
  - Matching is against the whole topic. It uses an executable matcher, `TopicPattern.Matches`, which is
    proved equal to a declarative one.
  - Dispatch fans a message out to every matching entry. Payload decoding and handlers are
    function parameters.
- **Client wrapper.** This is `MqttClientWrapper`, the class `ClientWrapper.MqttClientWrapper`. Its
  subscribe records the topic before subscribing. Its publish forces QoS 0 and not retained. Its
  shutdown disconnects, then force-closes, then shuts the supervisor down.

The Paho client is the stand-in class `Transport.MqttClient`. It records
every request in a `log` and tracks `connected` and `closed`. Whether a
request succeeds is passed in by the caller.

Behaviour a reader might expect but the code does not have (the model
follows the code):
- Resubscription after a reconnect stops at the first topic whose subscribe
  throws. Later topics are not resubscribed.
- A handler exception other than `ClassCastException` escapes
  `processMessage` and ends the dispatch of that message.
- Section 4.7.1 of the OASIS MQTT Version 3.1.1 standard has `sensors/#` also match
  `sensors`, and lets `+` match an empty level (`sport/+` matches `sport/`).
  Here `sensors/#` does not match `sensors`, and `+` needs at least one
  character, so `sport/+` does not match `sport/`.
- If `disconnect` throws during `shutdown`, the forced close and the
  supervisor's shutdown are both skipped.

## Model

| member | source | states |
|---|---|---|
| Backoff.DefaultConfig | src/main/java/com/gong/iot/EnhancedMqttFactory.java:187-191 | the defaults are at most `Integer.MAX_VALUE` attempts, 5000 ms initial delay, and retry of the initial connect on |
| Backoff.DefaultRetryBudget | src/main/java/com/gong/iot/EnhancedMqttFactory.java:188-191 | under the defaults a never-recovering supervisor schedules exactly 2147483647 retries; the first waits 5000 ms and each later one `backoffFactor` times the previous |
| Backoff.BackoffIsGeometric | src/main/java/com/gong/iot/EnhancedMqttFactory.java:293-296 | meaning of `BackoffDelay` (`calculateBackoffDelay`): the delay at count 0 is the initial delay, and each increment of the count multiplies the delay by the backoff factor |
| Backoff.BackoffNonDecreasing | src/main/java/com/gong/iot/EnhancedMqttFactory.java:293-296 | with a factor of at least 1 and a non-negative initial delay, delays are non-negative and never shrink |
| Backoff.RetryTraceShape | src/main/java/com/gong/iot/EnhancedMqttFactory.java:284-311 | from count `n`, with every reconnect failing, exactly `maxAttempts - n` retries are scheduled (none once the maximum is reached); the `i`-th waits `initialDelay * factor^(n+i)` |
| Backoff.ThreeRetriesExample | src/main/java/com/gong/iot/EnhancedMqttFactory.java:284-311 | with at most 3 attempts, 100 ms and factor 2, the delays are exactly 100, 200, 400 and then none |
| Factory.Record | src/main/java/com/gong/iot/EnhancedMqttFactory.java:372-374 | adding a topic to the recorded set: membership becomes the old members plus the topic; nothing is removed or reordered; at most one element is added; no duplicates appear |
| Factory.RecordIdempotent | src/main/java/com/gong/iot/EnhancedMqttFactory.java:372-374 | recording the same topic twice is the same as recording it once |
| Factory.ResubscriptionStopsAtFirstFailure | src/main/java/com/gong/iot/EnhancedMqttFactory.java:314-325 | meaning of `Resubscription` (the requests of `resubscribeTopics`): resubscription subscribes topics in recorded order up to and including the first failing one (all of them if none fails), and skips every later topic |
| Factory.BuildConnectOptions | src/main/java/com/gong/iot/EnhancedMqttFactory.java:139-147 | credentials are set iff both user name and password are given, and then they are exactly those; clean-session is copied |
| Factory.SmartReconnectCallback.constructor | src/main/java/com/gong/iot/EnhancedMqttFactory.java:233-245 | a new supervisor has count 0, no topics, no queued attempts and is not shut down |
| Factory.SmartReconnectCallback.HandleDisconnection | src/main/java/com/gong/iot/EnhancedMqttFactory.java:282-296 | below the maximum, the delay is computed from the count before the increment, the count grows by exactly 1 and that delay is queued; at or above the maximum nothing changes |
| Factory.SmartReconnectCallback.ForwardEvent | src/main/java/com/gong/iot/EnhancedMqttFactory.java:332-353 | an event reaches the user callback iff one is installed |
| Factory.SmartReconnectCallback.ConnectionLost | src/main/java/com/gong/iot/EnhancedMqttFactory.java:247-255 | after shutdown a lost connection changes nothing and forwards nothing; otherwise it is handled as in `HandleDisconnection` and forwarded |
| Factory.SmartReconnectCallback.MessageArrived | src/main/java/com/gong/iot/EnhancedMqttFactory.java:257-271 | an arriving message is forwarded with its topic and payload, iff a user callback is installed |
| Factory.SmartReconnectCallback.DeliveryComplete | src/main/java/com/gong/iot/EnhancedMqttFactory.java:273-280 | a delivery notification is forwarded iff a user callback is installed |
| Factory.SmartReconnectCallback.ResubscribeTopics | src/main/java/com/gong/iot/EnhancedMqttFactory.java:314-325 | the transport receives exactly the subscribes of `Resubscription`; the session flags are unchanged and the failure is swallowed |
| Factory.SmartReconnectCallback.AttemptReconnect | src/main/java/com/gong/iot/EnhancedMqttFactory.java:298-312 | already connected: no change at all; connect accepted: count reset to 0 and topics resubscribed, with nothing queued even if a resubscribe fails; connect refused: the failure is handled as a lost connection |
| Factory.SmartReconnectCallback.RunNext | src/main/java/com/gong/iot/EnhancedMqttFactory.java:287 | the scheduler runs the oldest queued attempt after its delay, then the attempt's outcome applies to the rest of the queue |
| Factory.SmartReconnectCallback.ScheduleReconnectAttempt | src/main/java/com/gong/iot/EnhancedMqttFactory.java:327-330 | one zero-delay attempt is queued and the count is untouched |
| Factory.SmartReconnectCallback.Shutdown | src/main/java/com/gong/iot/EnhancedMqttFactory.java:356-368 | the supervisor is marked shut down and every queued attempt is cancelled |
| Factory.SmartReconnectCallback.AddSubscribedTopic | src/main/java/com/gong/iot/EnhancedMqttFactory.java:372-374 | the recorded topics become `Record(old topics, topic)` |
| Factory.PerformConnect | src/main/java/com/gong/iot/EnhancedMqttFactory.java:168-182 | the initial connect is issued; on failure one zero-delay attempt is queued iff `autoRetryInitialConnect` and the failure is reported either way; the count is untouched and the client is not closed |
| Factory.OutageEpisode | src/main/java/com/gong/iot/EnhancedMqttFactory.java:282-312 | a supervisor whose connection drops and whose every reconnect fails waits exactly the delays `RetryTrace(config, 0)` and ends with count `maxAttempts` (0 if that is not positive) |
| TopicPattern.RewriteInOnePass | src/main/java/com/gong/iot/MqttHandlerRegistry.java:43-45 | meaning of `RegexOf` (the two `replace` calls of `registerHandler`): the two chained replacements equal a single pass that maps `+` to `[^/]+`, `#` to `.*` and keeps every other character |
| TopicPattern.CompileRewrite | src/main/java/com/gong/iot/MqttHandlerRegistry.java:43-47 | the single-pass rewrite of a filter free of other regex metacharacters compiles to one token per filter character |
| TopicPattern.CompiledFilter | src/main/java/com/gong/iot/MqttHandlerRegistry.java:43-47 | meaning of `Compile` (`Pattern.compile`) on a rewritten filter: the rewritten filter compiles without error, to the filter's wildcard tokens |
| TopicPattern.MatchesIsSpec | src/main/java/com/gong/iot/MqttHandlerRegistry.java:68 | meaning of `Matches` (`matcher(topic).matches()`): the executable matcher accepts exactly the topics that split into consecutive pieces, each accepted by its token (whole-topic match) |
| TopicPattern.RunIsSpec | src/main/java/com/gong/iot/MqttHandlerRegistry.java:68 | the matcher for the rest of a `+` or `#` run accepts exactly what the declarative split accepts |
| TopicPattern.LiteralWhole | src/main/java/com/gong/iot/MqttHandlerRegistry.java:68 | a filter without wildcards matches exactly the topic equal to it |
| TopicPattern.SingleLevelWildcard | src/main/java/com/gong/iot/MqttHandlerRegistry.java:44 | `a+b` matches a topic iff it is `a`, then one or more characters with no `/`, then `b` |
| TopicPattern.MultiLevelWildcard | src/main/java/com/gong/iot/MqttHandlerRegistry.java:45 | `a#` matches a topic iff it starts with `a` and the rest holds no line terminator (possibly empty, possibly with `/`) |
| TopicPattern.SingleLevelAcceptsOneLevel | src/main/java/com/gong/iot/MqttHandlerRegistry.java:68 | `sensors/+/temp` matches `sensors/room1/temp` and `sensors/room2/temp` |
| TopicPattern.SingleLevelRefusesOthers | src/main/java/com/gong/iot/MqttHandlerRegistry.java:68 | `sensors/+/temp` matches neither `sensors/room1/hall/temp` nor `sensors//temp` |
| TopicPattern.MultiLevelAcceptsDeeper | src/main/java/com/gong/iot/MqttHandlerRegistry.java:68 | `sensors/#` matches `sensors/room1` and `sensors/room1/temp` |
| TopicPattern.MultiLevelRefusesParent | src/main/java/com/gong/iot/MqttHandlerRegistry.java:68 | `sensors/#` does not match its parent level `sensors` |
| HandlerRegistry.DispatchSound | src/main/java/com/gong/iot/MqttHandlerRegistry.java:66-90 | meaning of `HandleMessageSafely` (`handleMessageSafely`) and of `DispatchAll` (the effect of `processMessage`), soundness: the handler receives the filter it was registered under, not the incoming topic; every handler call made belongs to an entry whose pattern matches the whole topic and whose payload decoded, with that entry's filter string and decoded message |
| HandlerRegistry.DispatchComplete | src/main/java/com/gong/iot/MqttHandlerRegistry.java:66-80 | meaning of `DispatchAll`, completeness: unless a handler exception escaped, every entry that matches and decodes has its handler called |
| HandlerRegistry.DispatchEscapes | src/main/java/com/gong/iot/MqttHandlerRegistry.java:66-90 | meaning of `DispatchAll` and of `HandleMessageSafely`'s catch, failure: a `ClassCastException` is swallowed and only other exceptions escape; dispatch ends with an escaping exception iff some entry that matches and decodes has a handler that throws something other than `ClassCastException` |
| HandlerRegistry.DispatchInOrder | src/main/java/com/gong/iot/MqttHandlerRegistry.java:66-80 | meaning of `DispatchAll`, order: the calls are made for strictly increasing entry positions, so each entry is called at most once and in the map's iteration order (registration order in the model), and no entry that matches and decodes is skipped, except those after the call whose exception escaped |
| HandlerRegistry.EscapeEndsDispatch | src/main/java/com/gong/iot/MqttHandlerRegistry.java:69-79 | a handler call throws a non-`ClassCastException` exception iff it is the last call made and the dispatch escaped: every earlier call returned or had its `ClassCastException` swallowed, no later entry is processed, and an escape always follows at least one call |
| HandlerRegistry.DecodeFailureIsolated | src/main/java/com/gong/iot/MqttHandlerRegistry.java:71-78 | a matching entry whose payload fails to decode does not stop another matching, decodable entry from being called |
| HandlerRegistry.MqttHandlerRegistry.constructor | src/main/java/com/gong/iot/MqttHandlerRegistry.java:21 | a new registry holds no handlers |
| HandlerRegistry.MqttHandlerRegistry.RegisterHandler | src/main/java/com/gong/iot/MqttHandlerRegistry.java:38-56 | exactly one entry is added (even for a filter already registered), holding the compiled rewrite of the filter, the filter string itself, the payload type and the QoS |
| HandlerRegistry.MqttHandlerRegistry.ProcessMessage | src/main/java/com/gong/iot/MqttHandlerRegistry.java:66-80 | the loop makes exactly the calls of `DispatchAll` and leaves the registry unchanged |
| HandlerRegistry.MqttHandlerRegistry.GetSubscribedTopics | src/main/java/com/gong/iot/MqttHandlerRegistry.java:110-115 | the result lists each registered filter string exactly once, and nothing else |
| Sequences.Distinct | src/main/java/com/gong/iot/MqttHandlerRegistry.java:113 | the result has no duplicates and the same members as the input |
| ClientWrapper.MqttClientWrapper.constructor | src/main/java/com/gong/iot/MqttClientWrapper.java:18-21 | the wrapper holds the given client and callback; given a callback that is the supervisor installed on that same client (as `create()` builds it), the wrapper starts valid |
| ClientWrapper.MqttClientWrapper.Subscribe | src/main/java/com/gong/iot/MqttClientWrapper.java:31-34 | the topic is recorded in the supervisor before the transport subscribe, so it stays recorded when the subscribe throws; the supervisor's count, queue, shutdown flag and forwarded events and the session flags are unchanged; with no callback the call fails before any request |
| ClientWrapper.MqttClientWrapper.Publish | src/main/java/com/gong/iot/MqttClientWrapper.java:36-41 | the message is sent at QoS 0, not retained, whatever QoS and retained flag were asked for |
| ClientWrapper.MqttClientWrapper.PublishMessage | src/main/java/com/gong/iot/MqttClientWrapper.java:43-48 | the message is sent with its own QoS and retained flag |
| ClientWrapper.MqttClientWrapper.Shutdown | src/main/java/com/gong/iot/MqttClientWrapper.java:50-66 | disconnect only when connected, then force-close, then the supervisor's shutdown if there is a callback; the first refused request ends the sequence and nothing is reported; the supervisor's topics, count and forwarded events never change (the two-state predicate `ShutdownEffect`) |
| ClientWrapper.MqttClientWrapper.Destroy | src/main/java/com/gong/iot/MqttClientWrapper.java:68-71 | has exactly the effect of `Shutdown`: it ensures the same `ShutdownEffect` |
| ClientWrapper.SubscriptionReplayedAfterReconnect | src/main/java/com/gong/iot/MqttClientWrapper.java:31-34 | a topic subscribed through the wrapper, after the session drops and the scheduled reconnect succeeds, is subscribed again right after the reconnect |

## Left out

- Backoff.DefaultConfig: the backoff factor is a natural number, so the default factor 1.5 cannot be represented. It is a parameter instead.
- Backoff.BackoffDelay: the `double` arithmetic of `Math.pow` and the `(long)` truncation of the product are not modelled. The delay is the exact integer `initialDelay * factor^n`.
- HandlerRegistry.MqttHandlerRegistry.RegisterHandler: requires a filter with no regex metacharacter other than the `+` and `#` wildcards. General Java regex semantics and `PatternSyntaxException` are not modelled.
- HandlerRegistry.MqttHandlerRegistry.ProcessMessage: the handler map iterates in hash order, which Java leaves unspecified; the model uses registration order. `DispatchSound`, `DispatchComplete`, `DecodeFailureIsolated` and the at-most-once part of `DispatchInOrder` do not depend on that order. Which calls come before an escaping exception does.
- HandlerRegistry.DispatchAll: `decode` returning None models only `IOException` from Jackson. An unchecked exception thrown by the decoder is not modelled.
- Factory.PerformConnect: requires a supervisor that is not shut down and is bound to the same client and options. Scheduling on a shut-down scheduler would throw `RejectedExecutionException`, and `create()` (EnhancedMqttFactory.java:124-130) always passes a fresh supervisor built from that client and those options.
- ClientWrapper.MqttClientWrapper.constructor: requires the callback, when given, to be the supervisor installed on the wrapper's client, which is how `create()` builds the pair.
- Factory.SmartReconnectCallback.AttemptReconnect: requires the supervisor not to be shut down. An attempt that is running while `shutdown` interrupts it is concurrency and is not modelled.
- Jackson `readValue`, reflective `resolvePayloadType` and the `registerHandlers` loop over Spring's handler beans are foreign libraries and reflection. The payload type is an opaque id and decoding is a function parameter.
- The Paho client is opaque. Connect, subscribe, publish, disconnect and close are the `Transport.MqttClient` stand-in, whose outcome is an argument. `getClientId`, `MemoryPersistence` and broker URLs are not modelled.
- Threads are not modelled: the callback `ThreadPoolExecutor` offloading, scheduler timing, `shutdownNow`, `awaitTermination`, and `volatile` and `synchronized`. A queued delay is recorded, not waited. A forwarded event is recorded in `forwarded`, and what the user callback does with it (its exceptions are caught) is not modelled.
- The `Builder`, the clientId suffix taken from the wall clock, `buildCallback` and `create()` are construction plumbing and are not modelled. The getters `getClient` and `getCallback` are not modelled either.
- Only `MqttException` is caught in the wrapper's `shutdown`, so other exceptions propagate. The stand-in transport raises no other kind.
- Logging is not modelled.
- `MqttAutoConfiguration.java`, `MqttProperties.java` and `MqttTopic.java` are not part of this model.
