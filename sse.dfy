/** The hub's Server-Sent Events fan-out: the registry of connected event
    streams, keyed by client id, and `broadcast`, which frames one event and
    enqueues it on every stream watching the event's room. A stream that has
    gone away refuses the enqueue and is dropped from the registry. */
module EventBus {
  import opened Common
  import opened Json
  import opened Keyed

  /** A connected event stream. `roomCode` is "" when the stream watches every
      room; `open` is false once the stream can no longer take data (its
      enqueue throws); `sent` is everything enqueued on it so far. */
  datatype Client = Client(id: string, roomCode: string, open: bool, sent: seq<string>)

  function ClientKey(c: Client): string {
    c.id
  }

  /** One event in the text/event-stream format: an `event:` line, a `data:`
      line and a blank line. */
  function Message(event: string, data: string): string {
    "event: " + event + "\ndata: " + data + "\n\n"
  }

  /** The message splits into exactly its two field lines and the blank line
      that ends it, so a reader that splits on newlines recovers both fields. */
  lemma MessageLines(event: string, data: string)
    requires '\n' !in event && '\n' !in data
    ensures Lines(Message(event, data)) == ["event: " + event, "data: " + data, "", ""]
  {
    var e, d := "event: " + event, "data: " + data;
    assert Message(event, data) == e + "\n" + (d + "\n" + ("" + "\n" + ""));
    LinesCons("", "");
    LinesOfLine("");
    LinesCons(d, "" + "\n" + "");
    LinesCons(e, d + "\n" + ("" + "\n" + ""));
  }

  /** `roomCode && client.roomCode && client.roomCode !== roomCode`: a scoped
      event passes over a stream that watches a different room. */
  predicate Skips(scope: string, clientCode: string) {
    scope != "" && clientCode != "" && clientCode != scope
  }

  /** What one broadcast does to one stream: nothing when it is skipped, the
      message appended when it is open, removal when the enqueue fails. */
  function DeliverOne(c: Client, msg: string, scope: string): Option<Client> {
    if Skips(scope, c.roomCode) then Some(c)
    else if c.open then Some(c.(sent := c.sent + [msg]))
    else None
  }

  /** The streams after a broadcast, in their original order. */
  function Deliver(cs: seq<Client>, msg: string, scope: string): (r: seq<Client>)
    ensures |r| <= |cs|
  {
    if |cs| == 0 then []
    else
      var init := Deliver(cs[..|cs| - 1], msg, scope);
      match DeliverOne(cs[|cs| - 1], msg, scope)
      case None => init
      case Some(c) => init + [c]
  }

  lemma {:induction false} DeliverStep(cs: seq<Client>, i: int, msg: string, scope: string)
    requires 0 <= i < |cs|
    ensures Deliver(cs[..i + 1], msg, scope) == Deliver(cs[..i], msg, scope) +
      (if DeliverOne(cs[i], msg, scope).Some? then [DeliverOne(cs[i], msg, scope).value] else [])
  {
    assert cs[..i + 1][..i] == cs[..i];
  }

  lemma DeliverStart(cs: seq<Client>, msg: string, scope: string)
    ensures Deliver(cs[..0], msg, scope) == [] && cs == Deliver(cs[..0], msg, scope) + cs[0..]
  {
    assert cs[..0] == [];
  }

  /** One step of the in-place walk: the stream at position `k` of the live
      registry is `cs[i]`, and updating or removing it there gives the registry
      after `i + 1` streams. */
  lemma {:induction false} DeliverStepInPlace(before: seq<Client>, i: int, msg: string, scope: string, cs: seq<Client>, k: int)
    requires 0 <= i < |before|
    requires k == |Deliver(before[..i], msg, scope)|
    requires cs == Deliver(before[..i], msg, scope) + before[i..]
    ensures 0 <= k < |cs| && cs[k] == before[i]
    ensures DeliverOne(before[i], msg, scope) == Some(before[i]) ==>
      cs == Deliver(before[..i + 1], msg, scope) + before[i + 1..]
    ensures DeliverOne(before[i], msg, scope).Some? ==>
      && cs[k := DeliverOne(before[i], msg, scope).value] == Deliver(before[..i + 1], msg, scope) + before[i + 1..]
      && k + 1 == |Deliver(before[..i + 1], msg, scope)|
    ensures DeliverOne(before[i], msg, scope).None? ==>
      && cs[..k] + cs[k + 1..] == Deliver(before[..i + 1], msg, scope) + before[i + 1..]
      && k == |Deliver(before[..i + 1], msg, scope)|
  {
    DeliverStep(before, i, msg, scope);
    var done := Deliver(before[..i], msg, scope);
    assert before[i..] == [before[i]] + before[i + 1..];
    assert cs == done + [before[i]] + before[i + 1..];
    if DeliverOne(before[i], msg, scope).Some? {
      var c' := DeliverOne(before[i], msg, scope).value;
      assert cs[k := c'] == done + [c'] + before[i + 1..];
    } else {
      assert cs[..k] == done;
      assert cs[k + 1..] == before[i + 1..];
    }
  }

  /** A broadcast leaves skipped streams as they were, appends the message to every
      other open stream, drops the closed ones it tried, and produces nothing else. */
  lemma {:induction false} DeliverMembership(cs: seq<Client>, msg: string, scope: string)
    ensures forall c :: c in cs && DeliverOne(c, msg, scope).Some? ==> DeliverOne(c, msg, scope).value in Deliver(cs, msg, scope)
    ensures forall c' :: c' in Deliver(cs, msg, scope) ==> exists c :: c in cs && DeliverOne(c, msg, scope) == Some(c')
  {
    if |cs| > 0 {
      var init := cs[..|cs| - 1];
      DeliverMembership(init, msg, scope);
      assert cs == init + [cs[|cs| - 1]];
      forall c' | c' in Deliver(cs, msg, scope)
        ensures exists c :: c in cs && DeliverOne(c, msg, scope) == Some(c')
      {
        if c' !in Deliver(init, msg, scope) {
          assert DeliverOne(cs[|cs| - 1], msg, scope) == Some(c');
        }
      }
    }
  }

  /** Broadcasting keeps client ids unique. */
  lemma {:induction false} DeliverUnique(cs: seq<Client>, msg: string, scope: string)
    requires UniqueKeys(cs, ClientKey)
    ensures UniqueKeys(Deliver(cs, msg, scope), ClientKey)
  {
    if |cs| > 0 {
      var init := cs[..|cs| - 1];
      var last := cs[|cs| - 1];
      DeliverUnique(init, msg, scope);
      DeliverMembership(init, msg, scope);
      var r0 := Deliver(init, msg, scope);
      if DeliverOne(last, msg, scope).Some? {
        var r := r0 + [DeliverOne(last, msg, scope).value];
        forall i | 0 <= i < |r0|
          ensures r0[i].id != last.id
        {
          assert r0[i] in r0;
          var c :| c in init && DeliverOne(c, msg, scope) == Some(r0[i]);
          var k :| 0 <= k < |init| && init[k] == c;
          assert cs[k] == c;
        }
      }
    }
  }

  /** An unscoped event reaches every open stream, and every stream that is
      still registered afterwards was open or skipped. */
  lemma UnscopedReachesAll(cs: seq<Client>, msg: string)
    ensures forall c :: c in cs && c.open ==> c.(sent := c.sent + [msg]) in Deliver(cs, msg, "")
    ensures forall c' :: c' in Deliver(cs, msg, "") ==> |c'.sent| >= 1 && c'.sent[|c'.sent| - 1] == msg
  {
    DeliverMembership(cs, msg, "");
  }

  /** A scoped event never reaches a stream watching another room. */
  lemma ScopedStaysInRoom(cs: seq<Client>, msg: string, scope: string)
    requires scope != ""
    ensures forall c :: c in cs && c.roomCode != "" && c.roomCode != scope ==> c in Deliver(cs, msg, scope)
    ensures forall c' :: c' in Deliver(cs, msg, scope) && c'.roomCode != "" && c'.roomCode != scope ==>
      c' in cs
  {
    DeliverMembership(cs, msg, scope);
  }

  class Bus {
    /** `JSON.stringify`, fixed for the lifetime of the hub. */
    const codec: Codec
    /** `clients`: client id to stream, in connection order. */
    var clients: seq<Client>

    ghost predicate Valid()
      reads this
    {
      UniqueKeys(clients, ClientKey)
    }

    constructor (codec: Codec)
      ensures Valid() && this.codec == codec && clients == []
    {
      this.codec := codec;
      clients := [];
    }

    /** The greeting a stream receives when it starts. */
    function ConnectedMessage(clientId: string): string {
      Message("connected", codec.stringify(JObj(map["clientId" := JStr(clientId)])))
    }

    /** `createSSEResponse`: registers the stream under `clientId` (replacing any
        stream already registered under that id, in place) and greets it. */
    method Connect(clientId: string, roomCode: string)
      requires Valid()
      modifies this
      ensures Valid()
      ensures clients == Set(old(clients), ClientKey, Client(clientId, roomCode, true, [ConnectedMessage(clientId)]))
      ensures Get(clients, ClientKey, clientId) == Some(Client(clientId, roomCode, true, [ConnectedMessage(clientId)]))
      ensures ClientCount() == old(ClientCount()) + (if old(Has(clients, ClientKey, clientId)) then 0 else 1)
    {
      SetSpec(clients, ClientKey, Client(clientId, roomCode, true, [ConnectedMessage(clientId)]));
      clients := Set(clients, ClientKey, Client(clientId, roomCode, true, [ConnectedMessage(clientId)]));
    }

    /** The stream's `cancel`: the reader went away. */
    method Cancel(clientId: string)
      requires Valid()
      modifies this
      ensures Valid()
      ensures clients == Delete(old(clients), ClientKey, clientId)
      ensures !Has(clients, ClientKey, clientId)
      ensures ClientCount() == old(ClientCount()) - (if old(Has(clients, ClientKey, clientId)) then 1 else 0)
    {
      DeleteSpec(clients, ClientKey, clientId);
      clients := Delete(clients, ClientKey, clientId);
    }

    /** The environment: the stream of `clientId` breaks without a cancel, so its
        next enqueue throws. */
    method Break(clientId: string)
      requires Valid()
      modifies this
      ensures Valid()
      ensures |clients| == |old(clients)|
      ensures forall i :: 0 <= i < |clients| ==>
        clients[i] == if old(clients)[i].id == clientId then old(clients)[i].(open := false) else old(clients)[i]
    {
      var i := IndexOf(clients, ClientKey, clientId);
      if i >= 0 {
        clients := clients[i := clients[i].(open := false)];
      }
    }

    /** `broadcast`: frames the event once and walks the streams in order,
        enqueueing on each one in scope and dropping each one whose enqueue fails. */
    method Broadcast(event: string, data: Json, scope: string)
      requires Valid()
      modifies this
      ensures Valid()
      ensures clients == Deliver(old(clients), Message(event, codec.stringify(data)), scope)
    {
      var msg := Message(event, codec.stringify(data));
      // Only the stream being visited is ever removed, so walking the streams
      // registered at the start visits the same streams as the live Map iterator.
      var before := clients;
      DeliverUnique(before, msg, scope);
      var cs, i, k := clients, 0, 0;
      DeliverStart(before, msg, scope);
      while i < |before|
        invariant 0 <= i <= |before|
        invariant k == |Deliver(before[..i], msg, scope)|
        invariant cs == Deliver(before[..i], msg, scope) + before[i..]
      {
        DeliverStepInPlace(before, i, msg, scope, cs, k);
        var c := cs[k];
        if Skips(scope, c.roomCode) {
          k := k + 1;
        } else if c.open {
          cs := cs[k := c.(sent := c.sent + [msg])];
          k := k + 1;
        } else {
          cs := cs[..k] + cs[k + 1..];
        }
        i := i + 1;
      }
      assert before[..i] == before;
      clients := cs;
    }

    /** `getClientCount` */
    function ClientCount(): (n: nat)
      reads this
      ensures n == |clients|
    {
      |clients|
    }

    /** `closeAll`: every stream is closed and the registry emptied. */
    method CloseAll()
      modifies this
      ensures Valid() && clients == []
    {
      clients := [];
    }
  }
}
