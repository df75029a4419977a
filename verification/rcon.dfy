/** The RCON client: the packet encoder, the two-step handshake over one socket,
    `waitForPort`, and the variant that first opens an SSH tunnel to the host. */
module Rcon {
  import opened Wrappers
  import opened Text

  type Byte = x: int | 0 <= x < 256

  const Int32Min: int := -0x8000_0000
  const Int32Max: int := 0x7FFF_FFFF

  predicate IsInt32(x: int) {
    Int32Min <= x <= Int32Max
  }

  /** `writeInt32LE(x)`: two's complement, least significant byte first. */
  function Int32LE(x: int): (bs: seq<Byte>)
    requires IsInt32(x)
    ensures |bs| == 4
  {
    var u := if x < 0 then x + 0x1_0000_0000 else x;
    [u % 256, (u / 256) % 256, (u / 65536) % 256, u / 16777216]
  }

  /** `readInt32LE`: the value four little-endian bytes stand for. */
  function ReadInt32LE(bs: seq<Byte>): (x: int)
    requires |bs| == 4
    ensures IsInt32(x)
  {
    var b0, b1, b2, b3: int := bs[0], bs[1], bs[2], bs[3];
    var u := b0 + 256 * b1 + 65536 * b2 + 16777216 * b3;
    if u >= 0x8000_0000 then u - 0x1_0000_0000 else u
  }

  lemma DivMod256(r: int, q: int)
    requires 0 <= r < 256
    ensures (r + 256 * q) % 256 == r && (r + 256 * q) / 256 == q
  {
  }

  /** Reading back what `writeInt32LE` wrote gives the value. */
  lemma ReadInt32LEOfWrite(x: int)
    requires IsInt32(x)
    ensures ReadInt32LE(Int32LE(x)) == x
  {
    var u := if x < 0 then x + 0x1_0000_0000 else x;
    var q1, q2, q3 := u / 256, u / 65536, u / 16777216;
    assert u == u % 256 + 256 * q1;
    assert q1 == q1 % 256 + 256 * q2;
    assert q2 == q2 % 256 + 256 * q3;
    assert u == u % 256 + 256 * (q1 % 256) + 65536 * (q2 % 256) + 16777216 * q3;
  }

  /** Writing the value four bytes stand for gives back those bytes. */
  lemma WriteInt32LEOfRead(bs: seq<Byte>)
    requires |bs| == 4
    ensures Int32LE(ReadInt32LE(bs)) == bs
  {
    var b0, b1, b2, b3: int := bs[0], bs[1], bs[2], bs[3];
    var u := b0 + 256 * b1 + 65536 * b2 + 16777216 * b3;
    var q1 := b1 + 256 * b2 + 65536 * b3;
    var q2 := b2 + 256 * b3;
    assert u == b0 + 256 * q1;
    DivMod256(b0, q1);
    assert q1 == b1 + 256 * q2;
    DivMod256(b1, q2);
    DivMod256(b2, b3);
    assert u / 65536 == q2;
    assert u / 16777216 == b3;
  }

  /** The RCON packet types the client sends. */
  const ServerDataAuth: int := 3
  const ServerDataExecCommand: int := 2

  /** A packet on the wire: the size of what follows, the request id, the type, the
      body and two NUL bytes (the body's terminator and the empty trailing string). */
  function Packet(id: int, kind: int, body: seq<Byte>): (bs: seq<Byte>)
    requires IsInt32(id) && IsInt32(kind) && |body| + 10 <= Int32Max
    ensures |bs| == |body| + 14
  {
    Int32LE(|body| + 10) + Int32LE(id) + Int32LE(kind) + body + [0, 0]
  }

  predicate Encodable(body: seq<Byte>) {
    |body| + 10 <= Int32Max
  }

  /** A decoded packet. */
  datatype RconPacket = RconPacket(id: int, kind: int, body: seq<Byte>)

  /** Reads one packet: the size field must count exactly the bytes after it and the
      packet must end in two NUL bytes. */
  function DecodePacket(bs: seq<Byte>): (r: Option<RconPacket>)
    ensures r.Some? ==> |bs| >= 14 && |r.value.body| == |bs| - 14
  {
    if |bs| < 14 || ReadInt32LE(bs[..4]) != |bs| - 4 || bs[|bs| - 2..] != [0, 0] then None
    else Some(RconPacket(ReadInt32LE(bs[4..8]), ReadInt32LE(bs[8..12]), bs[12..|bs| - 2]))
  }

  /** Round trip: an encoded packet decodes to its id, type and body. */
  lemma DecodeEncoded(id: int, kind: int, body: seq<Byte>)
    requires IsInt32(id) && IsInt32(kind) && Encodable(body)
    ensures DecodePacket(Packet(id, kind, body)) == Some(RconPacket(id, kind, body))
  {
    var bs := Packet(id, kind, body);
    assert bs[..4] == Int32LE(|body| + 10);
    assert bs[4..8] == Int32LE(id);
    assert bs[8..12] == Int32LE(kind);
    assert bs[12..|bs| - 2] == body;
    assert bs[|bs| - 2..] == [0, 0];
    ReadInt32LEOfWrite(|body| + 10);
    ReadInt32LEOfWrite(id);
    ReadInt32LEOfWrite(kind);
  }

  /** The other direction: whatever decodes is exactly the encoding of what it decodes to. */
  lemma EncodeDecoded(bs: seq<Byte>)
    requires DecodePacket(bs).Some?
    ensures var p := DecodePacket(bs).value;
      Encodable(p.body) && Packet(p.id, p.kind, p.body) == bs
  {
    var p := DecodePacket(bs).value;
    WriteInt32LEOfRead(bs[..4]);
    WriteInt32LEOfRead(bs[4..8]);
    WriteInt32LEOfRead(bs[8..12]);
    assert bs == bs[..4] + bs[4..8] + bs[8..12] + bs[12..|bs| - 2] + bs[|bs| - 2..];
  }

  /** `buf.writeInt32LE(x, offset)`. */
  method WriteInt32LE(buf: array<Byte>, x: int, offset: nat)
    requires IsInt32(x) && offset + 4 <= buf.Length
    modifies buf
    ensures buf[..] == old(buf[..offset]) + Int32LE(x) + old(buf[offset + 4..])
  {
    var bs := Int32LE(x);
    buf[offset] := bs[0];
    buf[offset + 1] := bs[1];
    buf[offset + 2] := bs[2];
    buf[offset + 3] := bs[3];
  }

  /** `encode(id, type, body)`: a zero-filled buffer of `len + 4` bytes with the size
      `len = body.length + 10`, the id and the type written at offsets 0, 4 and 8, the
      body copied at 12 and a 16-bit zero after it. */
  method Encode(id: int, kind: int, body: seq<Byte>) returns (buf: array<Byte>)
    requires IsInt32(id) && IsInt32(kind) && Encodable(body)
    ensures buf[..] == Packet(id, kind, body)
  {
    var len := |body| + 10;
    buf := new Byte[len + 4](_ => 0);
    ghost var zeros := buf[..];
    WriteInt32LE(buf, len, 0);
    assert buf[..] == Int32LE(len) + zeros[4..];
    WriteInt32LE(buf, id, 4);
    assert buf[..] == Int32LE(len) + Int32LE(id) + zeros[8..];
    WriteInt32LE(buf, kind, 8);
    assert buf[..] == Int32LE(len) + Int32LE(id) + Int32LE(kind) + zeros[12..];
    CopyInto(buf, body, 12);
    buf[12 + |body|] := 0;
    buf[13 + |body|] := 0;
    assert buf[..] == Int32LE(len) + Int32LE(id) + Int32LE(kind) + body + [0, 0];
  }

  /** `src.copy(buf, offset)`. */
  method CopyInto(buf: array<Byte>, src: seq<Byte>, offset: nat)
    requires offset + |src| <= buf.Length
    modifies buf
    ensures buf[..] == old(buf[..offset]) + src + old(buf[offset + |src|..])
  {
    for i := 0 to |src|
      invariant buf[..] == old(buf[..offset]) + src[..i] + old(buf[offset + i..])
    {
      buf[offset + i] := src[i];
      assert src[..i + 1] == src[..i] + [src[i]];
    }
    assert src[..|src|] == src;
  }

  /** `data.toString('utf8', 12, data.length - 2)`, as bytes: the range is clamped to
      the buffer and empty when it is reversed. */
  function ResponseBody(data: seq<Byte>): (r: seq<Byte>)
    ensures |data| >= 14 ==> r == data[12..|data| - 2]
    ensures |data| < 14 ==> r == []
  {
    if |data| - 2 <= 12 then [] else data[12..|data| - 2]
  }

  /** The reply the client extracts from a packet is its body. */
  lemma ResponseOfPacket(id: int, kind: int, body: seq<Byte>)
    requires IsInt32(id) && IsInt32(kind) && Encodable(body)
    ensures ResponseBody(Packet(id, kind, body)) == body
  {
    DecodeEncoded(id, kind, body);
  }

  // ---------------------------------------------------------------------------
  // The handshake

  /** The socket events the client reacts to. */
  datatype Event = Connected | Data(bytes: seq<Byte>) | Failed(err: string)

  /** The state of the promise `sendRcon` returns. */
  datatype Outcome = Pending | Resolved(reply: seq<Byte>) | Rejected(err: string)

  /** `resolve` and `reject` only take effect on a pending promise. */
  function Settle(current: Outcome, next: Outcome): Outcome {
    if current.Pending? then next else current
  }

  function CountData(es: seq<Event>): (n: nat)
    ensures n <= |es|
  {
    if es == [] then 0 else CountData(es[..|es| - 1]) + (if es[|es| - 1].Data? then 1 else 0)
  }

  /** An event that settles the promise: an error, or data after the first data. */
  predicate SettlesAt(es: seq<Event>, k: nat)
    requires k < |es|
  {
    es[k].Failed? || (es[k].Data? && CountData(es[..k]) > 0)
  }

  /** What a settling event settles the promise with. */
  function SettledBy(e: Event): Outcome {
    match e
    case Failed(err) => Rejected(err)
    case Data(bytes) => Resolved(ResponseBody(bytes))
    case Connected => Pending
  }

  /** The promise after the events `es`: settled by the first settling event. */
  function Expected(es: seq<Event>): Outcome {
    match FirstSettle(es)
    case None => Pending
    case Some(k) => SettledBy(es[k])
  }

  /** The index of the first settling event. */
  function FirstSettle(es: seq<Event>): (r: Option<nat>)
    ensures r.Some? ==> r.value < |es|
  {
    if es == [] then None
    else
      var f := FirstSettle(es[..|es| - 1]);
      if f.Some? then f else if SettlesAt(es, |es| - 1) then Some(|es| - 1) else None
  }

  lemma SettlesAtPrefix(es: seq<Event>, n: nat, k: nat)
    requires k < n <= |es|
    ensures SettlesAt(es[..n], k) <==> SettlesAt(es, k)
  {
    assert es[..n][..k] == es[..k];
  }

  /** The first settling event, characterised: `FirstSettle` names the earliest event
      that settles, and is `None` exactly when no event settles. */
  lemma {:induction false} FirstSettleExactly(es: seq<Event>)
    ensures FirstSettle(es).None? <==> forall k :: 0 <= k < |es| ==> !SettlesAt(es, k)
    ensures FirstSettle(es).Some? ==>
      SettlesAt(es, FirstSettle(es).value)
      && forall j :: 0 <= j < FirstSettle(es).value ==> !SettlesAt(es, j)
  {
    if es != [] {
      var init := es[..|es| - 1];
      FirstSettleExactly(init);
      forall k | 0 <= k < |init|
        ensures SettlesAt(init, k) <==> SettlesAt(es, k)
      {
        SettlesAtPrefix(es, |es| - 1, k);
      }
    }
  }

  /** A socket reports `connect` at most once, and before any data. */
  predicate WellFormedTrace(es: seq<Event>) {
    forall i, j :: 0 <= i < |es| && 0 <= j < |es| && es[i].Connected? ==>
      (es[j].Connected? ==> i == j) && (es[j].Data? ==> i < j)
  }

  function AuthPacket(password: seq<Byte>): seq<Byte>
    requires Encodable(password)
  {
    Packet(1, ServerDataAuth, password)
  }

  function CommandPacket(command: seq<Byte>): seq<Byte>
    requires Encodable(command)
  {
    Packet(2, ServerDataExecCommand, command)
  }

  /** The client of `sendRcon`: the `authenticated` flag, what was written to the
      socket, whether `socket.end()` was called, and the promise. */
  class RconClient {
    const password: seq<Byte>
    const command: seq<Byte>
    var authenticated: bool
    var written: seq<seq<Byte>>
    var ended: bool
    var outcome: Outcome

    constructor (password: seq<Byte>, command: seq<Byte>)
      requires Encodable(password) && Encodable(command)
      ensures this.password == password && this.command == command
      ensures !authenticated && written == [] && !ended && outcome == Pending
    {
      this.password := password;
      this.command := command;
      authenticated := false;
      written := [];
      ended := false;
      outcome := Pending;
    }

    /** The connect callback: send the password as an auth packet with id 1. */
    method OnConnect()
      requires Encodable(password)
      modifies this
      ensures written == old(written) + [AuthPacket(password)]
      ensures authenticated == old(authenticated) && ended == old(ended) && outcome == old(outcome)
    {
      var buf := Encode(1, ServerDataAuth, password);
      written := written + [buf[..]];
    }

    /** The data handler: the first data is taken as the auth response and the command
        goes out with id 2; any later data ends the socket and resolves the reply. */
    method OnData(data: seq<Byte>)
      requires Encodable(command)
      modifies this
      ensures !old(authenticated) ==>
        authenticated && written == old(written) + [CommandPacket(command)]
        && ended == old(ended) && outcome == old(outcome)
      ensures old(authenticated) ==>
        authenticated && written == old(written)
        && ended && outcome == Settle(old(outcome), Resolved(ResponseBody(data)))
    {
      if !authenticated {
        authenticated := true;
        var buf := Encode(2, ServerDataExecCommand, command);
        written := written + [buf[..]];
      } else {
        ended := true;
        outcome := Settle(outcome, Resolved(ResponseBody(data)));
      }
    }

    /** The error handler: end the socket and reject. */
    method OnError(err: string)
      modifies this
      ensures ended && outcome == Settle(old(outcome), Rejected(err))
      ensures authenticated == old(authenticated) && written == old(written)
    {
      ended := true;
      outcome := Settle(outcome, Rejected(err));
    }
  }

  /** What one exchange leaves behind. */
  datatype Exchange = Exchange(outcome: Outcome, written: seq<seq<Byte>>, ended: bool)

  /** What the events of a handshake determine about its exchange: the first error or
      second data settles the promise and ends the socket; the auth packet is written on
      connect and the command packet on the first data. */
  predicate ExchangeAgrees(password: seq<Byte>, command: seq<Byte>, events: seq<Event>, x: Exchange)
    requires Encodable(password) && Encodable(command)
  {
    && x.outcome == (match FirstSettle(events) case None => Pending case Some(k) => SettledBy(events[k]))
    && (x.ended <==> FirstSettle(events).Some?)
    && x.written
       == (if Connected in events then [AuthPacket(password)] else [])
        + (if CountData(events) > 0 then [CommandPacket(command)] else [])
  }

  lemma ExpectedSettled(es: seq<Event>)
    ensures Expected(es).Pending? <==> FirstSettle(es).None?
  {
    FirstSettleExactly(es);
  }

  /** `sendRcon(host, port, password, command)` driven by the socket's events in order:
      the promise settles with the first error or the data after the first data, the
      socket is ended exactly when it settles, and the client writes the auth packet on
      connect and the command packet once, on the first data. */
  method SendRcon(password: seq<Byte>, command: seq<Byte>, events: seq<Event>) returns (x: Exchange)
    requires Encodable(password) && Encodable(command)
    requires WellFormedTrace(events)
    ensures x.outcome == match FirstSettle(events) case None => Pending case Some(k) => SettledBy(events[k])
    ensures x.ended <==> FirstSettle(events).Some?
    ensures x.ended <==> !x.outcome.Pending?
    ensures x.written
      == (if Connected in events then [AuthPacket(password)] else [])
       + (if CountData(events) > 0 then [CommandPacket(command)] else [])
  {
    var c := new RconClient(password, command);
    for i := 0 to |events|
      invariant c.password == password && c.command == command
      invariant c.authenticated <==> CountData(events[..i]) > 0
      invariant c.outcome == Expected(events[..i])
      invariant c.ended <==> !c.outcome.Pending?
      invariant c.written
        == (if Connected in events[..i] then [AuthPacket(password)] else [])
         + (if CountData(events[..i]) > 0 then [CommandPacket(command)] else [])
    {
      HandshakeStep(events, i);
      match events[i]
      case Connected => c.OnConnect();
      case Data(d) => c.OnData(d);
      case Failed(e) => c.OnError(e);
    }
    assert events[..|events|] == events;
    ExpectedSettled(events);
    x := Exchange(c.outcome, c.written, c.ended);
  }

  /** What one more event does to the quantities the loop of `SendRcon` tracks. */
  lemma HandshakeStep(events: seq<Event>, i: nat)
    requires i < |events| && WellFormedTrace(events)
    ensures var pre, post := events[..i], events[..i + 1];
      && CountData(post) == CountData(pre) + (if events[i].Data? then 1 else 0)
      && (Connected in post <==> Connected in pre || events[i].Connected?)
      && (events[i].Connected? ==> Connected !in pre && CountData(pre) == 0)
      && (events[i].Data? ==> (Connected in pre <==> Connected in events))
      && Expected(post)
         == (if !Expected(pre).Pending? then Expected(pre)
             else if events[i].Failed? || (events[i].Data? && CountData(pre) > 0) then SettledBy(events[i])
             else Pending)
  {
    var pre, post := events[..i], events[..i + 1];
    assert post == pre + [events[i]];
    assert post[..i] == pre;
    if events[i].Connected? {
      assert Connected !in pre by {
        forall j | 0 <= j < i ensures pre[j] != Connected {
          assert pre[j] == events[j];
        }
      }
      NoDataBefore(events, i);
    }
    if events[i].Data? {
      assert Connected in events ==> Connected in pre by {
        if Connected in events {
          var j :| 0 <= j < |events| && events[j] == Connected;
          assert pre[j] == Connected;
        }
      }
    }
    ExpectedSettled(pre);
    assert SettlesAt(post, i) <==> events[i].Failed? || (events[i].Data? && CountData(pre) > 0);
    match FirstSettle(pre)
    case Some(k) =>
      assert post[k] == pre[k];
    case None =>
  }

  lemma {:induction false} NoDataBefore(events: seq<Event>, i: nat)
    requires i < |events| && WellFormedTrace(events) && events[i].Connected?
    ensures CountData(events[..i]) == 0
  {
    var n := i;
    while n > 0
      invariant 0 <= n <= i
      invariant CountData(events[..i]) == CountData(events[..n])
    {
      assert events[..i][..n - 1] == events[..n - 1];
      assert events[..n][..n - 1] == events[..n - 1];
      assert !events[n - 1].Data?;
      n := n - 1;
    }
  }

  // ---------------------------------------------------------------------------
  // waitForPort

  /** The result of one connection attempt: connected, or an error. */
  datatype Attempt = Open | Refused(err: string)

  datatype Wait = Ready(tries: nat) | TimedOut(tries: nat, err: string)

  /** What a wait of at most `max(attempts, 1)` tries says about the attempts: ready at
      the first attempt that connected, or out of tries with the last error. */
  predicate WaitAgrees(probe: nat -> Attempt, attempts: int, w: Wait) {
    var cap := if attempts < 1 then 1 else attempts;
    match w
    case Ready(t) =>
      1 <= t <= cap && probe(t - 1).Open? && forall k :: 0 <= k < t - 1 ==> probe(k).Refused?
    case TimedOut(t, err) =>
      t == cap && (forall k :: 0 <= k < t ==> probe(k).Refused?) && err == probe(t - 1).err
  }

  /** How `waitForPort` lets go of an attempt's socket: ended once connected, destroyed
      on error. */
  datatype Close = Ended | Destroyed

  /** `waitForPort(port, attempts)`: attempt `probe(0)`, `probe(1)`, ... every 200 ms
      until one connects; after the attempt that starts with `n <= 1` remaining, the
      error rejects. So it makes at least one attempt and at most `max(attempts, 1)`,
      and closes the socket of every attempt it makes, in order. */
  method WaitForPort(probe: nat -> Attempt, attempts: int) returns (w: Wait, closes: seq<Close>)
    ensures WaitAgrees(probe, attempts, w)
    ensures |closes| == w.tries
    ensures forall k :: 0 <= k < |closes| ==> closes[k] == (if probe(k).Open? then Ended else Destroyed)
  {
    var n := attempts;
    var k := 0;
    closes := [];
    while true
      invariant k >= 0 && n == attempts - k
      invariant k == 0 || n >= 1
      invariant forall j :: 0 <= j < k ==> probe(j).Refused?
      invariant |closes| == k && forall j :: 0 <= j < k ==> closes[j] == Destroyed
      decreases if n < 0 then 0 else n
    {
      var a := probe(k);
      if a.Open? {
        closes := closes + [Ended];
        return Ready(k + 1), closes;
      }
      closes := closes + [Destroyed];
      if n <= 1 {
        return TimedOut(k + 1, a.err), closes;
      }
      n := n - 1;
      k := k + 1;
    }
  }

  // ---------------------------------------------------------------------------
  // sendRcon through an SSH tunnel

  /** The environment `sendRcon` reads: `SSH_KEY_PATH` and `SSH_USER`. */
  datatype SshEnv = SshEnv(keyPath: Option<string>, user: Option<string>)

  /** The arguments of the `ssh` process that forwards the local `port` to the host. */
  function TunnelArgs(key: string, user: Option<string>, host: string, port: nat): (args: seq<string>)
    ensures |args| == 8 && args[0] == "-i" && args[1] == key && args[7] == "-N"
    ensures args[2] == "-o" && args[3] == "StrictHostKeyChecking=no"
    ensures args[4] == "-L" && args[5] == NatToString(port) + ":localhost:" + NatToString(port)
    ensures args[6] == (if Truthy(user) then user.value else "ec2-user") + "@" + host
  {
    var p := NatToString(port);
    var login := if Truthy(user) then user.value else "ec2-user";
    ["-i", key, "-o", "StrictHostKeyChecking=no", "-L", p + ":localhost:" + p, login + "@" + host, "-N"]
  }

  const MissingKey: string := "SSH_KEY_PATH not set"

  /** What the tunnelled exchange leaves behind: the arguments `ssh` was spawned with,
      whether the tunnel was killed, the wait, and the exchange over the tunnel. */
  datatype TunnelRun = TunnelRun(
    outcome: Outcome,
    spawned: Option<seq<string>>,
    killed: bool,
    wait: Option<Wait>,
    exchange: Option<Exchange>)

  /** `sendRcon` of the tunnelled client, as written. Without a key it throws before
      spawning anything. Otherwise it spawns `ssh` (killed if the process reports an
      error), waits for the forwarded port, and runs the handshake, whose end or error
      also kills the tunnel. A failed wait rejects and leaves the tunnel running. */
  method SendRconTunnel(env: SshEnv, host: string, port: nat, password: seq<Byte>, command: seq<Byte>,
                        spawnError: bool, probe: nat -> Attempt, events: seq<Event>) returns (r: TunnelRun)
    requires Encodable(password) && Encodable(command) && WellFormedTrace(events)
    ensures !Truthy(env.keyPath) ==> r.outcome == Rejected(MissingKey) && r.spawned == None && r.wait == None && !r.killed
    ensures Truthy(env.keyPath) ==> r.spawned == Some(TunnelArgs(env.keyPath.value, env.user, host, port))
    ensures Truthy(env.keyPath) ==> r.wait.Some?
    ensures r.wait.Some? ==> WaitAgrees(probe, 10, r.wait.value)
    ensures r.wait.Some? && r.wait.value.TimedOut? ==>
      r.outcome == Rejected(r.wait.value.err) && r.exchange == None && r.killed == spawnError
    ensures r.wait.Some? && r.wait.value.Ready? ==>
      r.exchange.Some? && r.outcome == r.exchange.value.outcome
      && (r.killed <==> spawnError || !r.outcome.Pending?)
      && ExchangeAgrees(password, command, events, r.exchange.value)
  {
    if !Truthy(env.keyPath) {
      return TunnelRun(Rejected(MissingKey), None, false, None, None);
    }
    var args := TunnelArgs(env.keyPath.value, env.user, host, port);
    var killed := spawnError;
    var w, _ := WaitForPort(probe, 10);
    if w.TimedOut? {
      return TunnelRun(Rejected(w.err), Some(args), killed, Some(w), None);
    }
    var x := SendRcon(password, command, events);
    killed := killed || x.ended;
    r := TunnelRun(x.outcome, Some(args), killed, Some(w), Some(x));
  }

  /** The same with the tunnel killed when the wait fails, as the cleanup of the
      handshake does on its own error path. */
  method SendRconTunnelCorrected(env: SshEnv, host: string, port: nat, password: seq<Byte>, command: seq<Byte>,
                                 spawnError: bool, probe: nat -> Attempt, events: seq<Event>) returns (r: TunnelRun)
    requires Encodable(password) && Encodable(command) && WellFormedTrace(events)
    ensures !Truthy(env.keyPath) ==> r.outcome == Rejected(MissingKey) && r.spawned == None && r.wait == None && !r.killed
    ensures Truthy(env.keyPath) ==> r.spawned == Some(TunnelArgs(env.keyPath.value, env.user, host, port))
    ensures Truthy(env.keyPath) ==> r.wait.Some?
    ensures r.wait.Some? ==> WaitAgrees(probe, 10, r.wait.value)
    ensures r.wait.Some? && r.wait.value.TimedOut? ==>
      r.outcome == Rejected(r.wait.value.err) && r.exchange == None && r.killed
    ensures r.wait.Some? && r.wait.value.Ready? ==>
      r.exchange.Some? && r.outcome == r.exchange.value.outcome
      && (r.killed <==> spawnError || !r.outcome.Pending?)
      && ExchangeAgrees(password, command, events, r.exchange.value)
    ensures r.spawned.Some? && !r.outcome.Pending? ==> r.killed
  {
    r := SendRconTunnel(env, host, port, password, command, spawnError, probe, events);
    if r.wait.Some? && r.wait.value.TimedOut? {
      r := r.(killed := true);
    }
  }

  /** A run that shows the leak: a key is set, `ssh` starts without error, and nothing
      ever listens on the forwarded port. The promise rejects and the tunnel stays up. */
  method LeakingRun() returns (r: TunnelRun)
    ensures r.spawned.Some? && r.outcome == Rejected("ECONNREFUSED") && !r.killed
  {
    r := SendRconTunnel(SshEnv(Some("/keys/id_rsa"), None), "203.0.113.7", 27015, [], [],
                        false, _ => Refused("ECONNREFUSED"), []);
  }
}
