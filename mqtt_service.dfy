/**
  * The real-time channel of src/services/mqttService.ts: how a broker message becomes a
  * spot reading, and the bookkeeping of the singleton service (client, subscriber set,
  * connecting flag, reconnect counter). The broker and its client library are outside the
  * model: their events are the methods `OnConnect`, `OnError`, `OnClose`, `OnReconnect` and
  * `OnMessage`, each run atomically.
  */
module Mqtt {
  import opened Wrappers
  import opened Text

  /** `parts[parts.length - 1]`: the spot id at the end of the topic. */
  function VagaId(topic: string): string {
    var parts := Split(topic);
    parts[|parts| - 1]
  }

  /**
    * The id is the text after the last "/" of the topic (the whole topic when there is
    * none): it holds no "/", ends the topic, and is the topic or follows a "/".
    */
  lemma VagaIdIsLastSegment(topic: string)
    ensures var id := VagaId(topic);
      '/' !in id && |id| <= |topic| && topic[|topic| - |id|..] == id &&
      (|id| == |topic| || topic[|topic| - |id| - 1] == '/')
  {
    var parts := Split(topic);
    var id := parts[|parts| - 1];
    JoinSplit(topic);
    if |parts| > 1 {
      var prefix := Join(parts[..|parts| - 1]);
      assert topic == prefix + "/" + id;
      assert topic[|topic| - |id|..] == id;
    }
  }

  /** The value of the `ocupada` field of a parsed payload. */
  datatype JsonField = FieldBool(b: bool) | FieldString(s: string) | FieldOther

  /**
    * What `JSON.parse(payloadStr)` gives, as far as `data.ocupada` is concerned: a syntax
    * error, `null` (on which reading a field throws too), or a value whose `ocupada` field is
    * absent or holds something. Scalars such as `true` or `1` are values without the field.
    */
  datatype ParseOutcome = ParseFails | ParsedNull | Parsed(ocupada: Option<JsonField>)

  /** Whether reading `data.ocupada` throws, sending the payload to the plain-text rule. */
  predicate Throws(parsed: ParseOutcome) {
    parsed.ParseFails? || parsed.ParsedNull?
  }

  /** The occupied flag of a payload, by the JSON rule unless parsing or the field read throws. */
  function DecodeOcupada(payload: string, parsed: ParseOutcome): bool {
    if Throws(parsed) then ToLower(payload) == "true" || payload == "1"
    else
      var f := parsed.ocupada;
      f == Some(FieldBool(true)) || f == Some(FieldString("True")) || f == Some(FieldString("true"))
  }

  /**
    * A payload that parses reads as occupied exactly when its field is boolean `true` or the
    * text "True" or "true"; the payload text itself plays no part then.
    */
  lemma JsonRule(payload: string, other: string, f: Option<JsonField>)
    ensures DecodeOcupada(payload, Parsed(f)) <==>
      f.Some? && (f.value == FieldBool(true) || f.value == FieldString("True") || f.value == FieldString("true"))
    ensures DecodeOcupada(payload, Parsed(f)) == DecodeOcupada(other, Parsed(f))
  {
  }

  /** Otherwise the payload reads as occupied exactly when it spells "true" in any case, or is "1". */
  lemma PlainTextRule(payload: string, parsed: ParseOutcome)
    requires Throws(parsed)
    ensures DecodeOcupada(payload, parsed) <==>
      payload == "1" ||
      (|payload| == 4 && payload[0] in "tT" && payload[1] in "rR" && payload[2] in "uU" && payload[3] in "eE")
  {
    LowerIsTrue(payload);
  }

  /** A JSON number written with digits only: "0", or digits without a leading zero. */
  predicate IsJsonNatural(s: string) {
    s != [] && AllDigits(s) && (s[0] == '0' ==> |s| == 1)
  }

  /** Whether `s` can begin a JSON text: whitespace or the first character of a JSON value. */
  predicate MayStartJson(s: string) {
    s != [] && s[0] in " \t\n\r{[\"-0123456789tfn"
  }

  /**
    * What `JSON.parse` gives for the payloads whose outcome is fixed by the JSON grammar: the
    * literals `true` and `false` and the natural numerals are values without an `ocupada`
    * field, `null` is null, and a text that cannot begin a JSON value (the empty text, "True",
    * "TRUE") is a syntax error.
    */
  predicate ParsesAsJson(payload: string, parsed: ParseOutcome) {
    (payload == "true" || payload == "false" || IsJsonNatural(payload) ==> parsed == Parsed(None)) &&
    (payload == "null" ==> parsed == ParsedNull) &&
    (!MayStartJson(payload) ==> parsed == ParseFails)
  }

  /** The bare JSON scalars `true`, `false` and numerals parse without the field, so they read as free. */
  lemma BareScalarsReadFree(payload: string, parsed: ParseOutcome)
    requires ParsesAsJson(payload, parsed)
    requires payload == "true" || payload == "false" || IsJsonNatural(payload)
    ensures !DecodeOcupada(payload, parsed)
  {
    assert parsed == Parsed(None);
  }

  /** In particular the payloads `true` and `1` are free, whereas the plain-text rule would read them occupied. */
  lemma TrueAndOneReadFree(parsedTrue: ParseOutcome, parsedOne: ParseOutcome)
    requires ParsesAsJson("true", parsedTrue) && ParsesAsJson("1", parsedOne)
    ensures !DecodeOcupada("true", parsedTrue) && !DecodeOcupada("1", parsedOne)
    ensures DecodeOcupada("true", ParseFails) && DecodeOcupada("1", ParseFails)
  {
    assert IsJsonNatural("1");
    BareScalarsReadFree("true", parsedTrue);
    BareScalarsReadFree("1", parsedOne);
    LowerIsTrue("true");
  }

  /** A payload that cannot begin JSON takes the plain-text rule, so "True" and "TRUE" read as occupied. */
  lemma NonJsonTrueReadsOccupied(payload: string, parsed: ParseOutcome)
    requires ParsesAsJson(payload, parsed) && !MayStartJson(payload)
    ensures DecodeOcupada(payload, parsed) <==> ToLower(payload) == "true"
    ensures payload == "True" || payload == "TRUE" ==> DecodeOcupada(payload, parsed)
  {
    LowerIsTrue(payload);
  }

  /** A reading delivered to the subscribers; `timestamp` is the clock at receipt. */
  datatype MqttMessage = MqttMessage(vagaId: string, ocupada: bool, timestamp: int)

  /** A registered callback, by identity. */
  type Callback = nat

  /** The broker client: whether it is connected and whether `end()` was called on it. */
  datatype Client = Client(connected: bool, ended: bool)

  predicate NoDuplicates<T(==)>(s: seq<T>) {
    forall i, j :: 0 <= i < j < |s| ==> s[i] != s[j]
  }

  /** `Set.delete`: the sequence without `x`, the others kept in order. */
  function Remove(s: seq<Callback>, x: Callback): (r: seq<Callback>)
    ensures x !in r && forall y :: y in r <==> y in s && y != x
  {
    if s == [] then [] else if s[0] == x then Remove(s[1..], x) else [s[0]] + Remove(s[1..], x)
  }

  lemma {:induction false} RemoveNoDuplicates(s: seq<Callback>, x: Callback)
    requires NoDuplicates(s)
    ensures NoDuplicates(Remove(s, x))
  {
    if s != [] {
      RemoveNoDuplicates(s[1..], x);
      var r := Remove(s[1..], x);
      if s[0] != x {
        assert s[0] !in s[1..];
        assert NoDuplicates([s[0]] + r);
      }
    }
  }

  /** Removing an element that was just added restores the sequence. */
  lemma {:induction false} RemoveAdded(s: seq<Callback>, x: Callback)
    requires x !in s
    ensures Remove(s + [x], x) == s
  {
    if s != [] {
      assert (s + [x])[1..] == s[1..] + [x];
      RemoveAdded(s[1..], x);
    }
  }

  /** One delivery of `m` to each subscriber, in registration order. */
  function Deliveries(subscribers: seq<Callback>, m: MqttMessage): (d: seq<(Callback, MqttMessage)>)
    ensures |d| == |subscribers|
    ensures forall i :: 0 <= i < |d| ==> d[i] == (subscribers[i], m)
  {
    seq(|subscribers|, i requires 0 <= i < |subscribers| => (subscribers[i], m))
  }

  /** Every registered callback receives the message exactly once, and no other callback does. */
  lemma EachSubscriberOnce(subscribers: seq<Callback>, m: MqttMessage, cb: Callback)
    requires NoDuplicates(subscribers)
    ensures multiset(Deliveries(subscribers, m))[(cb, m)] == if cb in subscribers then 1 else 0
    ensures forall e :: e in Deliveries(subscribers, m) ==> e.0 in subscribers && e.1 == m
  {
    var d := Deliveries(subscribers, m);
    if cb in subscribers {
      var k :| 0 <= k < |subscribers| && subscribers[k] == cb;
      forall j | 0 <= j < |d| && j != k ensures d[j] != d[k] {
        assert subscribers[j] != subscribers[k];
      }
      OccursOnce(d, k);
    } else {
      assert (cb, m) !in d;
    }
  }

  /** An element that differs from every other position occurs exactly once. */
  lemma OccursOnce<T>(s: seq<T>, k: nat)
    requires k < |s|
    requires forall j :: 0 <= j < |s| && j != k ==> s[j] != s[k]
    ensures multiset(s)[s[k]] == 1
  {
    assert s == s[..k] + [s[k]] + s[k + 1..];
    assert s[k] !in s[..k] && s[k] !in s[k + 1..];
  }

  class MqttService {
    var client: Option<Client>
    /** The `Set` of callbacks, in insertion order (the order `forEach` visits them). */
    var subscribers: seq<Callback>
    var isConnecting: bool
    var reconnectAttempts: int
    const maxReconnectAttempts: int
    /** The callback invocations made so far, in order. */
    var delivered: seq<(Callback, MqttMessage)>

    ghost predicate Valid()
      reads this
    {
      NoDuplicates(subscribers) && reconnectAttempts >= 0 && maxReconnectAttempts == 5
    }

    constructor()
      ensures Valid()
      ensures client == None && subscribers == [] && !isConnecting && reconnectAttempts == 0 && delivered == []
    {
      client := None;
      subscribers := [];
      isConnecting := false;
      reconnectAttempts := 0;
      maxReconnectAttempts := 5;
      delivered := [];
    }

    /** `isConnected()`: a current client that is connected. */
    function IsConnected(): (b: bool)
      reads this
      ensures b <==> client.Some? && client.value.connected
    {
      if client.Some? then client.value.connected else false
    }

    /**
      * `connect()`; `creates` says whether `mqtt.connect` returns a client or throws. A fresh
      * client starts unconnected and not ended.
      */
    method Connect(creates: bool)
      requires Valid()
      modifies this
      ensures Valid()
      ensures old(IsConnected() || isConnecting) ==> unchanged(this)
      ensures !old(IsConnected() || isConnecting) ==>
        (if creates then client == Some(Client(false, false)) && isConnecting
         else client == old(client) && !isConnecting) &&
        subscribers == old(subscribers) && reconnectAttempts == old(reconnectAttempts) && delivered == old(delivered)
    {
      if IsConnected() || isConnecting {
        return;
      }
      isConnecting := true;
      if creates {
        client := Some(Client(false, false));
      } else {
        isConnecting := false;
      }
    }

    /** The client's "connect" event. */
    method OnConnect()
      requires Valid()
      modifies this
      ensures Valid()
      ensures !isConnecting && reconnectAttempts == 0
      ensures client == if old(client).Some? then Some(old(client).value.(connected := true)) else None
      ensures subscribers == old(subscribers) && delivered == old(delivered)
    {
      isConnecting := false;
      reconnectAttempts := 0;
      if client.Some? {
        client := Some(client.value.(connected := true));
      }
    }

    /** The client's "error" event. */
    method OnError()
      requires Valid()
      modifies this
      ensures Valid()
      ensures !isConnecting
      ensures client == old(client) && subscribers == old(subscribers)
      ensures reconnectAttempts == old(reconnectAttempts) && delivered == old(delivered)
    {
      isConnecting := false;
    }

    /** The client's "close" event: the connection is gone. */
    method OnClose()
      requires Valid()
      modifies this
      ensures Valid()
      ensures !isConnecting && !IsConnected()
      ensures client == if old(client).Some? then Some(old(client).value.(connected := false)) else None
      ensures subscribers == old(subscribers)
      ensures reconnectAttempts == old(reconnectAttempts) && delivered == old(delivered)
    {
      isConnecting := false;
      if client.Some? {
        client := Some(client.value.(connected := false));
      }
    }

    /** The client's "reconnect" event: count it, and give up (`end()`) from the fifth on. */
    method OnReconnect()
      requires Valid()
      modifies this
      ensures Valid()
      ensures reconnectAttempts == old(reconnectAttempts) + 1
      ensures client == if reconnectAttempts >= maxReconnectAttempts && old(client).Some?
        then Some(Client(false, true)) else old(client)
      ensures isConnecting == old(isConnecting) && subscribers == old(subscribers) && delivered == old(delivered)
    {
      reconnectAttempts := reconnectAttempts + 1;
      if reconnectAttempts >= maxReconnectAttempts && client.Some? {
        client := Some(Client(false, true));
      }
    }

    /** The client's "message" event: decode, then call every subscriber with the message. */
    method OnMessage(topic: string, payload: string, parsed: ParseOutcome, now: int)
      requires Valid()
      requires ParsesAsJson(payload, parsed)
      modifies this
      ensures Valid()
      ensures delivered == old(delivered) + Deliveries(subscribers, MqttMessage(VagaId(topic), DecodeOcupada(payload, parsed), now))
      ensures client == old(client) && subscribers == old(subscribers)
      ensures isConnecting == old(isConnecting) && reconnectAttempts == old(reconnectAttempts)
    {
      var message := MqttMessage(VagaId(topic), DecodeOcupada(payload, parsed), now);
      var calls: seq<(Callback, MqttMessage)> := [];
      var i := 0;
      while i < |subscribers|
        invariant 0 <= i <= |subscribers|
        invariant calls == Deliveries(subscribers[..i], message)
      {
        assert subscribers[..i + 1] == subscribers[..i] + [subscribers[i]];
        calls := calls + [(subscribers[i], message)];
        i := i + 1;
      }
      assert subscribers[..i] == subscribers;
      delivered := delivered + calls;
    }

    /** `subscribe(callback)`: register it and connect unless connected or connecting. */
    method Subscribe(callback: Callback, creates: bool)
      requires Valid()
      modifies this
      ensures Valid()
      ensures subscribers == if callback in old(subscribers) then old(subscribers) else old(subscribers) + [callback]
      ensures old(IsConnected() || isConnecting) ==>
        client == old(client) && isConnecting == old(isConnecting)
      ensures !old(IsConnected() || isConnecting) ==>
        if creates then client == Some(Client(false, false)) && isConnecting
        else client == old(client) && !isConnecting
      ensures reconnectAttempts == old(reconnectAttempts) && delivered == old(delivered)
    {
      if callback !in subscribers {
        subscribers := subscribers + [callback];
      }
      if !IsConnected() && !isConnecting {
        Connect(creates);
      }
    }

    /** The cleanup `subscribe` returns: drop the callback, and disconnect once none is left. */
    method Unsubscribe(callback: Callback)
      requires Valid()
      modifies this
      ensures Valid()
      ensures subscribers == Remove(old(subscribers), callback)
      ensures client == if subscribers == [] then None else old(client)
      ensures isConnecting == old(isConnecting)
      ensures reconnectAttempts == old(reconnectAttempts) && delivered == old(delivered)
    {
      RemoveNoDuplicates(subscribers, callback);
      subscribers := Remove(subscribers, callback);
      if |subscribers| == 0 {
        Disconnect();
      }
    }

    /** `disconnect()`: end and drop the client, if any. */
    method Disconnect()
      requires Valid()
      modifies this
      ensures Valid()
      ensures client == None && !IsConnected()
      ensures subscribers == old(subscribers) && isConnecting == old(isConnecting)
      ensures reconnectAttempts == old(reconnectAttempts) && delivered == old(delivered)
    {
      if client.Some? {
        client := None;
      }
    }
  }

  /** Subscribing a new callback and running its cleanup leaves the other subscribers as they were. */
  lemma SubscribeThenCleanup(subscribers: seq<Callback>, callback: Callback)
    requires callback !in subscribers
    ensures Remove(subscribers + [callback], callback) == subscribers
  {
    RemoveAdded(subscribers, callback);
  }
}
