/** `createForwarder` (src/index.ts): every "on"-prefixed slot of a gateway connection
    gets a listener that POSTs each fired event, wrapped in a webhook envelope, to the
    configured endpoint. */
module Forwarder {
  import opened Wrappers
  import opened JsStrings

  /** `ApplicationWebhookType.Event`. */
  const WebhookEventType := 1

  /** The callback registered in a slot: it captures the endpoint and the slot's key. */
  datatype Listener = Listener(endpoint: string, key: string)

  /** `{ data, type }`: the raw gateway payload and its dispatch code, if any. */
  datatype EnvelopeEvent = EnvelopeEvent(data: string, eventType: Option<string>)

  /** The JSON body of a forwarded event. */
  datatype Envelope = Envelope(kind: int, event: EnvelopeEvent)

  /** One `fetch(cc, { method, headers, body })`. */
  datatype Request = Request(url: string, httpMethod: string, authorization: string, body: Envelope)

  /** `key.startsWith("on")`: the slots that get a listener. */
  predicate IsHandlerSlot(key: string) {
    StartsWith(key, "on")
  }

  /** `GatewayDispatchEvents[key.slice(2)]`. */
  function SlotDispatchType(gateway: map<string, string>, key: string): (r: Option<string>)
    requires IsHandlerSlot(key)
    ensures r.Some? <==> key[2..] in gateway
    ensures r.Some? ==> r.value == gateway[key[2..]]
  {
    Get(gateway, key[2..])
  }

  /** The request a listener on `key` sends when the slot fires with `data`. */
  function RequestFor(l: Listener, token: string, gateway: map<string, string>, data: string): (r: Request)
    requires IsHandlerSlot(l.key)
    ensures r.url == l.endpoint && r.httpMethod == "POST" && r.authorization == token
    ensures r.body.kind == WebhookEventType && r.body.event.data == data
  {
    Request(l.endpoint, "POST", token,
            Envelope(WebhookEventType, EnvelopeEvent(data, SlotDispatchType(gateway, l.key))))
  }

  /** A gateway connection: the keys `for...in` enumerates, the listener registered in
      each slot so far, and the requests its listeners have sent. */
  class Connection {
    const keys: seq<string>
    var listeners: map<string, Listener>
    var outbox: seq<Request>

    /** Every registered listener sits in an "on" slot of this connection and is the
        forwarding listener for that slot. */
    ghost predicate Valid(endpoint: string)
      reads this
    {
      forall k :: k in listeners ==> k in keys && IsHandlerSlot(k) && listeners[k] == Listener(endpoint, k)
    }

    constructor (keys: seq<string>)
      ensures this.keys == keys && listeners == map[] && outbox == []
    {
      this.keys := keys;
      listeners := map[];
      outbox := [];
    }

    /** `connection[key](listener)`. */
    method Register(key: string, l: Listener)
      modifies this
      ensures listeners == old(listeners)[key := l]
      ensures outbox == old(outbox)
    {
      listeners := listeners[key := l];
    }

    /** The connection fires slot `key` with payload `data`. The listener reads the
        token when it runs; an unset token makes it throw before `fetch`, so nothing
        is sent. A slot without a listener sends nothing. */
    method Fire(key: string, data: string, token: Option<string>, gateway: map<string, string>)
      returns (sent: bool)
      requires key in listeners ==> IsHandlerSlot(listeners[key].key)
      modifies this
      ensures listeners == old(listeners)
      ensures sent <==> key in listeners && token.Some?
      ensures outbox == if sent then old(outbox) + [RequestFor(listeners[key], token.value, gateway, data)]
                        else old(outbox)
    {
      sent := false;
      if key in listeners && token.Some? {
        outbox := outbox + [RequestFor(listeners[key], token.value, gateway, data)];
        sent := true;
      }
    }
  }

  /** `createForwarder(cc, ...connectionParams)`: the connection the transport creates
      is modelled as a fresh one exposing `keys`; exactly its "on" keys get a listener
      and no request is sent yet. */
  method CreateForwarder(cc: string, keys: seq<string>) returns (c: Connection)
    ensures fresh(c) && c.keys == keys && c.outbox == []
    ensures c.Valid(cc)
    ensures forall k :: k in c.listeners <==> k in keys && IsHandlerSlot(k)
  {
    c := new Connection(keys);
    var i := 0;
    while i < |keys|
      invariant 0 <= i <= |keys|
      invariant c.keys == keys && c.outbox == []
      invariant c.Valid(cc)
      invariant forall k :: k in c.listeners <==> k in keys[..i] && IsHandlerSlot(k)
    {
      var key := keys[i];
      if IsHandlerSlot(key) {
        c.Register(key, Listener(cc, key));
      }
      assert keys[..i + 1] == keys[..i] + [key];
      i := i + 1;
    }
    assert keys[..i] == keys;
  }

  /** `emit` and `shards`, the two non-dispatch members, never get a listener. */
  lemma NonDispatchMembersSkipped()
    ensures !IsHandlerSlot("emit") && !IsHandlerSlot("shards")
  {
    assert "emit"[..2][0] == 'e';
    assert "shards"[..2][0] == 's';
  }

  /** Firing a forwarded slot `"on" + x` sends one POST to the endpoint, authorized with
      the token, whose envelope carries the payload unchanged and the gateway code of
      `x`, or no code when `x` is not a dispatch name. */
  method ForwardOnce(cc: string, keys: seq<string>, x: string, data: string, token: string,
                     gateway: map<string, string>) returns (c: Connection, sent: bool)
    requires "on" + x in keys
    ensures fresh(c) && sent
    ensures |c.outbox| == 1
    ensures c.outbox[0] == Request(cc, "POST", token, Envelope(WebhookEventType, EnvelopeEvent(data, Get(gateway, x))))
  {
    c := CreateForwarder(cc, keys);
    var key := "on" + x;
    assert IsHandlerSlot(key) && key[2..] == x;
    assert c.listeners[key] == Listener(cc, key);
    sent := c.Fire(key, data, Some(token), gateway);
    assert SlotDispatchType(gateway, key) == Get(gateway, x);
  }
}
