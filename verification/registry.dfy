/**
 * `MqttHandlerRegistry`: handlers registered under topic filters, and the
 * fan-out dispatch of an incoming message to every handler whose filter
 * accepts its topic.
 *
 * Jackson's `readValue` is the parameter `decode` (None for an
 * `IOException`), and what a handler does when called is the parameter
 * `handle`, which says how the call ended.
 */
module HandlerRegistry {
  import opened Wrappers
  import opened Sequences
  import opened Transport
  import opened TopicPattern

  type HandlerId = nat
  type TypeId = nat

  /** `HandlerWrapper`, with the compiled `Pattern` it is stored under. */
  datatype HandlerWrapper = HandlerWrapper(
    matcher: seq<Token>,
    handler: HandlerId,
    payloadType: TypeId,
    originalTopic: string,
    qos: int)

  /** How a handler call ended: normally, with `ClassCastException`, or with any other exception. */
  datatype HandlerOutcome = Returned | CastFailed | Threw

  /** A call `handler.handle(topic, message)`. */
  datatype HandlerCall<V> = HandlerCall(handler: HandlerId, topic: string, message: V)

  /** The handler calls `processMessage` made, and whether an exception escaped it. */
  datatype Dispatch<V> = Dispatch(calls: seq<HandlerCall<V>>, escaped: bool)

  /**
   * `handleMessageSafely`: the handler is called with the filter it was
   * registered under (not the incoming topic); a `ClassCastException` is
   * swallowed and any other exception escapes.
   */
  function HandleMessageSafely<V>(w: HandlerWrapper, message: V, handle: HandlerCall<V> -> HandlerOutcome)
    : (HandlerCall<V>, bool)
  {
    var call := HandlerCall(w.handler, w.originalTopic, message);
    (call, handle(call) == Threw)
  }

  /** The dispatch of one message over `entries`, in their order. */
  function DispatchAll<V>(entries: seq<HandlerWrapper>, topic: string, payload: Payload,
                          decode: (TypeId, Payload) -> Option<V>, handle: HandlerCall<V> -> HandlerOutcome)
    : Dispatch<V>
    decreases |entries|
  {
    if entries == [] then Dispatch([], false)
    else
      var w := entries[0];
      var message := decode(w.payloadType, payload);
      if !Matches(w.matcher, topic) || message.None? then
        DispatchAll(entries[1..], topic, payload, decode, handle)
      else
        var (call, escapes) := HandleMessageSafely(w, message.value, handle);
        if escapes then Dispatch([call], true)
        else
          var rest := DispatchAll(entries[1..], topic, payload, decode, handle);
          Dispatch([call] + rest.calls, rest.escaped)
  }

  /** Whether entry `w` gets a handler call for this message: its filter matches and the payload decodes. */
  predicate Deliverable<V>(w: HandlerWrapper, topic: string, payload: Payload, decode: (TypeId, Payload) -> Option<V>)
  {
    Matches(w.matcher, topic) && decode(w.payloadType, payload).Some?
  }

  /** Entry `w` is deliverable and `c` is the handler call made for it. */
  ghost predicate Delivers<V>(w: HandlerWrapper, topic: string, payload: Payload, decode: (TypeId, Payload) -> Option<V>,
                        c: HandlerCall<V>)
  {
    Deliverable(w, topic, payload, decode) &&
    c == HandlerCall(w.handler, w.originalTopic, decode(w.payloadType, payload).value)
  }

  /**
   * Every handler call belongs to an entry whose filter matches the topic
   * and whose payload decoded, and passes that entry's registered filter
   * string and decoded message: no other entry is ever called.
   */
  lemma {:induction false} DispatchSound<V>(entries: seq<HandlerWrapper>, topic: string, payload: Payload,
                                            decode: (TypeId, Payload) -> Option<V>, handle: HandlerCall<V> -> HandlerOutcome)
    ensures forall c :: c in DispatchAll(entries, topic, payload, decode, handle).calls ==>
      exists i :: 0 <= i < |entries| && Delivers(entries[i], topic, payload, decode, c)
    decreases |entries|
  {
    if entries != [] {
      DispatchSound(entries[1..], topic, payload, decode, handle);
      var r := DispatchAll(entries, topic, payload, decode, handle);
      var rest := DispatchAll(entries[1..], topic, payload, decode, handle);
      forall c | c in r.calls
        ensures exists i :: 0 <= i < |entries| && Delivers(entries[i], topic, payload, decode, c)
      {
        if Delivers(entries[0], topic, payload, decode, c) {
          assert 0 < |entries|;
        } else {
          assert c in rest.calls;
          var i :| 0 <= i < |entries[1..]| && Delivers(entries[1..][i], topic, payload, decode, c);
          assert entries[1..][i] == entries[i + 1];
        }
      }
    }
  }

  /**
   * Fan-out: unless a handler exception escaped, every entry whose filter
   * matches and whose payload decodes has its handler called, whatever the
   * other entries did (a decode failure elsewhere is skipped).
   */
  lemma {:induction false} DispatchComplete<V>(entries: seq<HandlerWrapper>, topic: string, payload: Payload,
                                               decode: (TypeId, Payload) -> Option<V>, handle: HandlerCall<V> -> HandlerOutcome)
    ensures !DispatchAll(entries, topic, payload, decode, handle).escaped ==>
      forall i :: 0 <= i < |entries| && Deliverable(entries[i], topic, payload, decode) ==>
        HandlerCall(entries[i].handler, entries[i].originalTopic, decode(entries[i].payloadType, payload).value)
          in DispatchAll(entries, topic, payload, decode, handle).calls
    decreases |entries|
  {
    if entries != [] {
      DispatchComplete(entries[1..], topic, payload, decode, handle);
      var r := DispatchAll(entries, topic, payload, decode, handle);
      var rest := DispatchAll(entries[1..], topic, payload, decode, handle);
      if !r.escaped {
        forall i | 0 <= i < |entries| && Deliverable(entries[i], topic, payload, decode)
          ensures HandlerCall(entries[i].handler, entries[i].originalTopic, decode(entries[i].payloadType, payload).value) in r.calls
        {
          if i > 0 {
            assert entries[1..][i - 1] == entries[i];
            assert !rest.escaped;
          }
        }
      }
    }
  }

  /** Entry `w` is called for this message and its handler throws something other than `ClassCastException`. */
  ghost predicate Throws<V>(w: HandlerWrapper, topic: string, payload: Payload,
                            decode: (TypeId, Payload) -> Option<V>, handle: HandlerCall<V> -> HandlerOutcome)
  {
    Deliverable(w, topic, payload, decode) &&
    handle(HandlerCall(w.handler, w.originalTopic, decode(w.payloadType, payload).value)) == Threw
  }

  /**
   * An exception escapes `processMessage` exactly when some entry that
   * matches and decodes has a handler that throws something other than
   * `ClassCastException`.
   */
  lemma {:induction false} DispatchEscapes<V>(entries: seq<HandlerWrapper>, topic: string, payload: Payload,
                                              decode: (TypeId, Payload) -> Option<V>, handle: HandlerCall<V> -> HandlerOutcome)
    ensures DispatchAll(entries, topic, payload, decode, handle).escaped <==>
      exists i :: 0 <= i < |entries| && Throws(entries[i], topic, payload, decode, handle)
    decreases |entries|
  {
    if entries != [] {
      DispatchEscapes(entries[1..], topic, payload, decode, handle);
      if exists i :: 0 <= i < |entries[1..]| && Throws(entries[1..][i], topic, payload, decode, handle) {
        var i :| 0 <= i < |entries[1..]| && Throws(entries[1..][i], topic, payload, decode, handle);
        assert entries[1..][i] == entries[i + 1];
      }
      if exists i :: 0 <= i < |entries| && Throws(entries[i], topic, payload, decode, handle) {
        var i :| 0 <= i < |entries| && Throws(entries[i], topic, payload, decode, handle);
        if i > 0 {
          assert entries[1..][i - 1] == entries[i];
        }
      }
    }
  }

  /**
   * A handler exception ends the dispatch: the calls made before it all
   * returned or failed their cast, and when an exception escaped, the last
   * call made is the one that threw it, so no later entry is processed.
   */
  lemma {:induction false} EscapeEndsDispatch<V>(entries: seq<HandlerWrapper>, topic: string, payload: Payload,
                                                 decode: (TypeId, Payload) -> Option<V>, handle: HandlerCall<V> -> HandlerOutcome)
    ensures var d := DispatchAll(entries, topic, payload, decode, handle);
      && (d.escaped ==> d.calls != [])
      && forall j :: 0 <= j < |d.calls| ==> (handle(d.calls[j]) == Threw <==> d.escaped && j == |d.calls| - 1)
    decreases |entries|
  {
    if entries != [] {
      EscapeEndsDispatch(entries[1..], topic, payload, decode, handle);
      var w := entries[0];
      var rest := DispatchAll(entries[1..], topic, payload, decode, handle);
      var r := DispatchAll(entries, topic, payload, decode, handle);
      if Deliverable(w, topic, payload, decode) {
        var c := HandlerCall(w.handler, w.originalTopic, decode(w.payloadType, payload).value);
        if handle(c) != Threw {
          assert r.calls == [c] + rest.calls && r.escaped == rest.escaped;
          forall j | 0 <= j < |r.calls|
            ensures handle(r.calls[j]) == Threw <==> r.escaped && j == |r.calls| - 1
          {
            if j > 0 {
              assert r.calls[j] == rest.calls[j - 1];
            }
          }
        }
      }
    }
  }

  /**
   * `idx` lists, for each of `calls` in turn, the position in `entries` of
   * the entry it was made for (`made(entry, call)`). Positions strictly
   * increase, and every entry that is `due` is listed, except, when `cut`,
   * the ones after the last listed position.
   */
  ghost predicate Enumerates<C>(entries: seq<HandlerWrapper>, due: HandlerWrapper -> bool, made: (HandlerWrapper, C) -> bool,
                                calls: seq<C>, cut: bool, idx: seq<nat>)
  {
    && |idx| == |calls|
    && (cut ==> idx != [])
    && Increasing(idx)
    && (forall j :: 0 <= j < |idx| ==> idx[j] < |entries| && made(entries[idx[j]], calls[j]))
    && (forall i :: (0 <= i < |entries| && due(entries[i]) && (cut ==> i < idx[|idx| - 1])) ==> i in idx)
  }

  /** Positions listed in strictly increasing order. */
  ghost predicate Increasing(idx: seq<nat>)
  {
    forall j, k :: 0 <= j < k < |idx| ==> idx[j] < idx[k]
  }

  /** `idx` with every position moved one entry later. */
  function Shifted(idx: seq<nat>): (r: seq<nat>)
    ensures |r| == |idx| && forall j :: 0 <= j < |idx| ==> r[j] == idx[j] + 1
  {
    seq(|idx|, j requires 0 <= j < |idx| => idx[j] + 1)
  }

  /** Shifting keeps positions strictly increasing. */
  lemma ShiftedIncreasing(idx: seq<nat>)
    requires Increasing(idx)
    ensures Increasing(Shifted(idx))
  {
  }

  /** Position 0 before positions that are all later keeps them strictly increasing. */
  lemma ConsIncreasing(later: seq<nat>)
    requires Increasing(later) && forall j :: 0 <= j < |later| ==> later[j] > 0
    ensures Increasing([0] + later)
  {
    var idx := [0] + later;
    forall j, k | 0 <= j < k < |idx|
      ensures idx[j] < idx[k]
    {
      assert idx[k] == later[k - 1];
      if j > 0 {
        assert idx[j] == later[j - 1];
      }
    }
  }

  /** Calls made for the entries after the first are, shifted by one, calls made for the whole sequence. */
  lemma ShiftedMade<C>(entries: seq<HandlerWrapper>, due: HandlerWrapper -> bool, made: (HandlerWrapper, C) -> bool,
                       calls: seq<C>, cut: bool, idx': seq<nat>)
    requires entries != [] && Enumerates(entries[1..], due, made, calls, cut, idx')
    ensures var later := Shifted(idx');
      forall j :: 0 <= j < |later| ==> later[j] < |entries| && made(entries[later[j]], calls[j])
  {
    var later := Shifted(idx');
    forall j | 0 <= j < |later|
      ensures later[j] < |entries| && made(entries[later[j]], calls[j])
    {
      assert entries[later[j]] == entries[1..][idx'[j]];
    }
  }

  /** No entry after the first that is due and within reach of the tail's calls is passed over. */
  lemma ShiftedDue<C>(entries: seq<HandlerWrapper>, due: HandlerWrapper -> bool, made: (HandlerWrapper, C) -> bool,
                      calls: seq<C>, cut: bool, idx': seq<nat>)
    requires entries != [] && Enumerates(entries[1..], due, made, calls, cut, idx')
    ensures var later := Shifted(idx');
      forall i :: (0 < i < |entries| && due(entries[i]) && (cut ==> i < later[|later| - 1])) ==> i in later
  {
    var later := Shifted(idx');
    forall i | 0 < i < |entries| && due(entries[i]) && (cut ==> i < later[|later| - 1])
      ensures i in later
    {
      assert entries[1..][i - 1] == entries[i];
      var k :| 0 <= k < |idx'| && idx'[k] == i - 1;
      assert later[k] == i;
    }
  }

  /** A first entry that is not due leaves the enumeration of the later calls as it is, shifted by one. */
  lemma EnumeratesSkip<C>(entries: seq<HandlerWrapper>, due: HandlerWrapper -> bool, made: (HandlerWrapper, C) -> bool,
                          calls: seq<C>, cut: bool, idx': seq<nat>)
    requires entries != [] && !due(entries[0]) && Enumerates(entries[1..], due, made, calls, cut, idx')
    ensures Enumerates(entries, due, made, calls, cut, Shifted(idx'))
  {
    ShiftedIncreasing(idx');
    ShiftedMade(entries, due, made, calls, cut, idx');
    ShiftedDue(entries, due, made, calls, cut, idx');
  }

  /** Prepending the call for the first entry keeps every call made for its listed entry. */
  lemma ConsMade<C>(entries: seq<HandlerWrapper>, made: (HandlerWrapper, C) -> bool, c: C, calls: seq<C>, idx': seq<nat>)
    requires entries != [] && made(entries[0], c) && |idx'| == |calls|
    requires forall j :: 0 <= j < |idx'| ==> idx'[j] < |entries[1..]| && made(entries[1..][idx'[j]], calls[j])
    ensures var idx := [0] + Shifted(idx');
      forall j :: 0 <= j < |idx| ==> idx[j] < |entries| && made(entries[idx[j]], ([c] + calls)[j])
  {
    var idx := [0] + Shifted(idx');
    forall j | 0 <= j < |idx|
      ensures idx[j] < |entries| && made(entries[idx[j]], ([c] + calls)[j])
    {
      if j > 0 {
        assert idx[j] == idx'[j - 1] + 1 && ([c] + calls)[j] == calls[j - 1];
        assert entries[idx[j]] == entries[1..][idx'[j - 1]];
      }
    }
  }

  /** Prepending position 0 passes over no due entry that the tail's positions did not. */
  lemma ConsDue(entries: seq<HandlerWrapper>, due: HandlerWrapper -> bool, cut: bool, idx': seq<nat>)
    requires entries != [] && (cut ==> idx' != [])
    requires forall i :: (0 <= i < |entries[1..]| && due(entries[1..][i]) && (cut ==> i < idx'[|idx'| - 1])) ==> i in idx'
    ensures var idx := [0] + Shifted(idx');
      forall i :: (0 <= i < |entries| && due(entries[i]) && (cut ==> i < idx[|idx| - 1])) ==> i in idx
  {
    var idx := [0] + Shifted(idx');
    forall i | 0 <= i < |entries| && due(entries[i]) && (cut ==> i < idx[|idx| - 1])
      ensures i in idx
    {
      if i > 0 {
        assert entries[1..][i - 1] == entries[i];
        if cut {
          assert idx[|idx| - 1] == idx'[|idx'| - 1] + 1;
        }
        var k :| 0 <= k < |idx'| && idx'[k] == i - 1;
        assert idx[k + 1] == i;
      }
    }
  }

  /** A call made for the first entry, followed by the later calls, is enumerated from position 0. */
  lemma EnumeratesCons<C>(entries: seq<HandlerWrapper>, due: HandlerWrapper -> bool, made: (HandlerWrapper, C) -> bool,
                          c: C, calls: seq<C>, cut: bool, idx': seq<nat>)
    requires entries != [] && made(entries[0], c) && Enumerates(entries[1..], due, made, calls, cut, idx')
    ensures Enumerates(entries, due, made, [c] + calls, cut, [0] + Shifted(idx'))
  {
    ShiftedIncreasing(idx');
    ConsIncreasing(Shifted(idx'));
    ConsMade(entries, made, c, calls, idx');
    ConsDue(entries, due, cut, idx');
  }

  /** Which entries are due a handler call for this message. */
  ghost function DueFor<V>(topic: string, payload: Payload, decode: (TypeId, Payload) -> Option<V>): HandlerWrapper -> bool
  {
    w => Deliverable(w, topic, payload, decode)
  }

  /** Which handler call is the one made for an entry. */
  ghost function MadeFor<V>(topic: string, payload: Payload, decode: (TypeId, Payload) -> Option<V>)
    : (HandlerWrapper, HandlerCall<V>) -> bool
  {
    (w, c) => Delivers(w, topic, payload, decode, c)
  }

  /**
   * `idx` gives, for each handler call of `d` in turn, the position of the
   * entry it was made for: positions strictly increase, so every entry is
   * called at most once and in registration order, and no entry that
   * matches and decodes is passed over, except the ones after the call
   * whose exception escaped.
   */
  ghost predicate CalledInOrder<V>(entries: seq<HandlerWrapper>, topic: string, payload: Payload,
                                   decode: (TypeId, Payload) -> Option<V>, d: Dispatch<V>, idx: seq<nat>)
  {
    Enumerates(entries, DueFor(topic, payload, decode), MadeFor(topic, payload, decode), d.calls, d.escaped, idx)
  }

  /** The dispatch over `entries` when its first entry is not called. */
  lemma SkipStep<V>(entries: seq<HandlerWrapper>, topic: string, payload: Payload,
                    decode: (TypeId, Payload) -> Option<V>, handle: HandlerCall<V> -> HandlerOutcome, idx': seq<nat>)
    requires entries != [] && !Deliverable(entries[0], topic, payload, decode)
    requires CalledInOrder(entries[1..], topic, payload, decode, DispatchAll(entries[1..], topic, payload, decode, handle), idx')
    ensures CalledInOrder(entries, topic, payload, decode, DispatchAll(entries, topic, payload, decode, handle), Shifted(idx'))
  {
    var rest := DispatchAll(entries[1..], topic, payload, decode, handle);
    assert DispatchAll(entries, topic, payload, decode, handle) == rest;
    assert !DueFor(topic, payload, decode)(entries[0]);
    EnumeratesSkip(entries, DueFor(topic, payload, decode), MadeFor(topic, payload, decode), rest.calls, rest.escaped, idx');
  }

  /** The dispatch over `entries` when the call for its first entry throws. */
  lemma ThrowStep<V>(entries: seq<HandlerWrapper>, topic: string, payload: Payload,
                     decode: (TypeId, Payload) -> Option<V>, handle: HandlerCall<V> -> HandlerOutcome)
    requires entries != [] && Throws(entries[0], topic, payload, decode, handle)
    ensures CalledInOrder(entries, topic, payload, decode, DispatchAll(entries, topic, payload, decode, handle), [0])
  {
    var w := entries[0];
    var c := HandlerCall(w.handler, w.originalTopic, decode(w.payloadType, payload).value);
    assert DispatchAll(entries, topic, payload, decode, handle) == Dispatch([c], true);
    assert MadeFor(topic, payload, decode)(entries[0], c);
  }

  /** The dispatch over `entries` when the call for its first entry does not throw. */
  lemma CallStep<V>(entries: seq<HandlerWrapper>, topic: string, payload: Payload,
                    decode: (TypeId, Payload) -> Option<V>, handle: HandlerCall<V> -> HandlerOutcome, idx': seq<nat>)
    requires entries != [] && Deliverable(entries[0], topic, payload, decode) && !Throws(entries[0], topic, payload, decode, handle)
    requires CalledInOrder(entries[1..], topic, payload, decode, DispatchAll(entries[1..], topic, payload, decode, handle), idx')
    ensures CalledInOrder(entries, topic, payload, decode, DispatchAll(entries, topic, payload, decode, handle), [0] + Shifted(idx'))
  {
    var w := entries[0];
    var c := HandlerCall(w.handler, w.originalTopic, decode(w.payloadType, payload).value);
    var rest := DispatchAll(entries[1..], topic, payload, decode, handle);
    assert DispatchAll(entries, topic, payload, decode, handle) == Dispatch([c] + rest.calls, rest.escaped);
    assert MadeFor(topic, payload, decode)(entries[0], c);
    EnumeratesCons(entries, DueFor(topic, payload, decode), MadeFor(topic, payload, decode), c, rest.calls, rest.escaped, idx');
  }

  /**
   * The dispatch calls the entries that match and decode one after the
   * other, each exactly once, in registration order, up to the end or to
   * the first call whose exception escapes.
   */
  lemma {:induction false} DispatchInOrder<V>(entries: seq<HandlerWrapper>, topic: string, payload: Payload,
                                              decode: (TypeId, Payload) -> Option<V>, handle: HandlerCall<V> -> HandlerOutcome)
    ensures exists idx :: CalledInOrder(entries, topic, payload, decode, DispatchAll(entries, topic, payload, decode, handle), idx)
    decreases |entries|
  {
    if entries == [] {
      assert CalledInOrder(entries, topic, payload, decode, DispatchAll(entries, topic, payload, decode, handle), []);
    } else {
      DispatchInOrder(entries[1..], topic, payload, decode, handle);
      var idx' :| CalledInOrder(entries[1..], topic, payload, decode, DispatchAll(entries[1..], topic, payload, decode, handle), idx');
      if !Deliverable(entries[0], topic, payload, decode) {
        SkipStep(entries, topic, payload, decode, handle, idx');
      } else if Throws(entries[0], topic, payload, decode, handle) {
        ThrowStep(entries, topic, payload, decode, handle);
      } else {
        CallStep(entries, topic, payload, decode, handle, idx');
      }
    }
  }

  /**
   * A payload that fails to decode for one matching entry does not stop a
   * second matching entry, whose decoder succeeds, from being dispatched.
   */
  lemma DecodeFailureIsolated<V>(entries: seq<HandlerWrapper>, topic: string, payload: Payload,
                                 decode: (TypeId, Payload) -> Option<V>, handle: HandlerCall<V> -> HandlerOutcome,
                                 failing: nat, other: nat)
    requires failing < |entries| && other < |entries|
    requires Matches(entries[failing].matcher, topic) && decode(entries[failing].payloadType, payload).None?
    requires Deliverable(entries[other], topic, payload, decode)
    requires forall i :: 0 <= i < |entries| ==> !Throws(entries[i], topic, payload, decode, handle)
    ensures HandlerCall(entries[other].handler, entries[other].originalTopic, decode(entries[other].payloadType, payload).value)
      in DispatchAll(entries, topic, payload, decode, handle).calls
  {
    DispatchEscapes(entries, topic, payload, decode, handle);
    DispatchComplete(entries, topic, payload, decode, handle);
  }

  class MqttHandlerRegistry {
    var entries: seq<HandlerWrapper>

    constructor ()
      ensures entries == []
    {
      entries := [];
    }

    /**
     * `registerHandler`: the filter is rewritten and compiled, and a new
     * entry is added. Entries are keyed by `Pattern` object identity, so a
     * filter registered twice gives two entries.
     */
    method RegisterHandler(filter: string, payloadType: TypeId, handler: HandlerId, qos: int)
      requires PlainFilter(filter)
      modifies this
      ensures entries == old(entries) + [HandlerWrapper(WildcardTokens(filter), handler, payloadType, filter, qos)]
    {
      var regex := RegexOf(filter);
      CompiledFilter(filter);
      var compiled := Compile(regex);
      entries := entries + [HandlerWrapper(compiled.value, handler, payloadType, filter, qos)];
    }

    /**
     * `processMessage`: every entry whose filter accepts the whole topic is
     * processed in turn; a decode failure skips that entry only, and a
     * handler exception other than `ClassCastException` ends the dispatch.
     * The registry itself is not changed.
     */
    method ProcessMessage<V>(topic: string, payload: Payload,
                             decode: (TypeId, Payload) -> Option<V>, handle: HandlerCall<V> -> HandlerOutcome)
      returns (r: Dispatch<V>)
      ensures r == DispatchAll(entries, topic, payload, decode, handle)
    {
      var calls: seq<HandlerCall<V>> := [];
      for i := 0 to |entries|
        invariant var rest := DispatchAll(entries[i..], topic, payload, decode, handle);
          DispatchAll(entries, topic, payload, decode, handle) == Dispatch(calls + rest.calls, rest.escaped)
      {
        assert entries[i..][1..] == entries[i + 1..];
        var w := entries[i];
        if Matches(w.matcher, topic) {
          var message := decode(w.payloadType, payload);
          if message.Some? {
            var (call, escapes) := HandleMessageSafely(w, message.value, handle);
            calls := calls + [call];
            if escapes {
              return Dispatch(calls, true);
            }
          }
        }
      }
      assert entries[|entries|..] == [];
      return Dispatch(calls, false);
    }

    /** `getSubscribedTopics`: each registered filter string once. */
    function GetSubscribedTopics(): (r: seq<string>)
      reads this
      ensures NoDuplicates(r)
      ensures forall t :: t in r <==> exists i :: 0 <= i < |entries| && entries[i].originalTopic == t
    {
      var filters := seq(|entries|, i requires 0 <= i < |entries| reads this => entries[i].originalTopic);
      assert forall t :: t in filters <==> exists i :: 0 <= i < |entries| && entries[i].originalTopic == t by {
        forall t | t in filters ensures exists i :: 0 <= i < |entries| && entries[i].originalTopic == t {
          var i :| 0 <= i < |filters| && filters[i] == t;
        }
        forall i | 0 <= i < |entries| ensures entries[i].originalTopic in filters {
          assert filters[i] == entries[i].originalTopic;
        }
      }
      Distinct(filters)
    }
  }
}
