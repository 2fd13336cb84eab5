/**
 * The foreign objects the clients talk to: the socket.io client socket, the
 * simple-peer connection object, the options object handed to `new Peer`,
 * and the application's callbacks. Each is reduced to the state the client
 * code reads or that records what the client did to it.
 */
module Transport {
  import opened Json

  type ClientId = string
  type Room = string

  /** A media stream, opaque to this layer. */
  datatype Stream = Stream(id: nat)

  /** The payload of a `message` event: a plain string such as 'got user media'
      or 'bye', the `{type: 'sending signal', data}` object of the single-peer
      client, whose `data` is the serialised signal, or any other value. */
  datatype MessageValue =
    | Text(text: string)
    | SignalMessage(data: Wire)
    | OtherValue(value: Json)

  /** Each JavaScript value has one encoding: a string is always `Text`, and an
      object whose `type` is `'sending signal'` is always `SignalMessage`. */
  predicate Canonical(m: MessageValue)
  {
    m.OtherValue? ==> !m.value.JStr? && Lookup(m.value, "type") != Some(JStr("sending signal"))
  }

  type Payload = m: MessageValue | Canonical(m) witness Text("")

  /** What a client emits on its socket. A missing argument is `None`. */
  datatype ClientEmit =
    | CreateOrJoin(requested: Option<Room>)
    | InitiatePeer(room: Room)
    | SendingSignal(room: Room, data: Wire)
    | Hangup
    | Message(payload: Payload)

  /** How a handler ends: normally, or aborted by the exception JavaScript throws
      (a TypeError on a property or call through `null`/`undefined`, a SyntaxError
      from `JSON.parse`). */
  datatype Outcome = Completed | TypeError | SyntaxError

  /** An application callback, opaque to this layer, and one call made to it. */
  datatype Callback = Callback(id: nat)
  datatype CallArg = NoArg | DataArg(value: Json) | StreamArg(stream: Stream) | ErrorArg(error: string)
  datatype Invocation = Invocation(callback: Callback, arg: CallArg)

  /** A value stored in the options object given to `new Peer`. */
  datatype OptValue = OBool(b: bool) | OStream(stream: Stream) | OUndefined | OValue(value: Json)

  /** A JavaScript object used as an options bag: its keys in insertion order. */
  type Options = seq<(string, OptValue)>

  function Get(o: Options, key: string): (r: Option<OptValue>)
    ensures r.Some? <==> exists i :: 0 <= i < |o| && o[i].0 == key
  {
    if o == [] then None
    else if o[0].0 == key then Some(o[0].1)
    else Get(o[1..], key)
  }

  predicate UniqueKeys(o: Options)
  {
    forall i, j :: 0 <= i < j < |o| ==> o[i].0 != o[j].0
  }

  /** `o[key] = value`: an existing key keeps its place, a new key goes last. */
  function Assign(o: Options, key: string, value: OptValue): Options
  {
    if o == [] then [(key, value)]
    else if o[0].0 == key then [(key, value)] + o[1..]
    else [o[0]] + Assign(o[1..], key, value)
  }

  lemma {:induction false} AssignGet(o: Options, key: string, value: OptValue, other: string)
    ensures Get(Assign(o, key, value), key) == Some(value)
    ensures other != key ==> Get(Assign(o, key, value), other) == Get(o, other)
  {
    if o != [] && o[0].0 != key {
      AssignGet(o[1..], key, value, other);
    }
  }

  /** An assignment keeps every existing key in its place, and a new key goes last. */
  lemma {:induction false} AssignKeys(o: Options, key: string, value: OptValue)
    ensures |Assign(o, key, value)| == if Get(o, key).Some? then |o| else |o| + 1
    ensures forall i :: 0 <= i < |o| ==> Assign(o, key, value)[i].0 == o[i].0
    ensures Get(o, key).None? ==> Assign(o, key, value)[|o|] == (key, value)
  {
    if o != [] && o[0].0 != key {
      var t := o[1..];
      AssignKeys(t, key, value);
      var r := Assign(o, key, value);
      assert r == [o[0]] + Assign(t, key, value);
      assert Get(o, key) == Get(t, key);
      forall i | 0 <= i < |o| ensures r[i].0 == o[i].0 {
        if i > 0 {
          assert r[i] == Assign(t, key, value)[i - 1];
          assert o[i] == t[i - 1];
        }
      }
    }
  }

  /** A key that was not present before an assignment is present once, at the end. */
  lemma AssignKeepsKeysUnique(o: Options, key: string, value: OptValue)
    requires UniqueKeys(o)
    ensures UniqueKeys(Assign(o, key, value))
  {
    AssignKeys(o, key, value);
    var r := Assign(o, key, value);
    forall a, b | 0 <= a < b < |r| ensures r[a].0 != r[b].0 {
      if b < |o| {
        assert r[a].0 == o[a].0 && r[b].0 == o[b].0;
      } else {
        assert Get(o, key).None?;
        assert r[b].0 == key && r[a].0 == o[a].0;
      }
    }
  }

  /** The client side of a socket.io connection. */
  class Socket {
    const id: ClientId
    const serverUrl: string
    var emitted: seq<ClientEmit>
    var closed: bool

    /** `io.connect(serverUrl)`; the transport assigns the id. */
    constructor Connect(serverUrl: string, id: ClientId)
      ensures this.serverUrl == serverUrl && this.id == id
      ensures emitted == [] && !closed
    {
      this.serverUrl := serverUrl;
      this.id := id;
      emitted := [];
      closed := false;
    }

    method Emit(e: ClientEmit)
      modifies this
      ensures emitted == old(emitted) + [e] && closed == old(closed)
    {
      emitted := emitted + [e];
    }

    method Close()
      modifies this
      ensures closed && emitted == old(emitted)
    {
      closed := true;
    }
  }

  /** A simple-peer connection object. */
  class Peer {
    const options: Options
    var connected: bool
    var signals: seq<Wire>
    var written: seq<Wire>
    var destroyed: bool

    /** `new Peer(options)` */
    constructor (options: Options)
      ensures this.options == options
      ensures !connected && signals == [] && written == [] && !destroyed
    {
      this.options := options;
      connected := false;
      signals := [];
      written := [];
      destroyed := false;
    }

    /** `peer.signal(data)` */
    method Signal(data: Wire)
      modifies this
      ensures signals == old(signals) + [data]
      ensures written == old(written) && connected == old(connected) && destroyed == old(destroyed)
    {
      signals := signals + [data];
    }

    /** `peer.write(msg)` */
    method Write(msg: Wire)
      modifies this
      ensures written == old(written) + [msg]
      ensures signals == old(signals) && connected == old(connected) && destroyed == old(destroyed)
    {
      written := written + [msg];
    }

    /** `peer.destroy()` */
    method Destroy()
      modifies this
      ensures destroyed && !connected
      ensures signals == old(signals) && written == old(written)
    {
      destroyed := true;
      connected := false;
    }
  }
}
