/**
 tcp_connection.c with the echo callback of chapter 27: direct writes, a queued remainder,
 write interest, and the byte stream they make together.
 */
module Connections {
  import opened Prelude
  import opened Sockets
  import opened Buffers
  import opened Channels
  import opened Registries
  import opened EventLoops
  import opened Chars

  /**
   A connection as values. `taken` is what the kernel took, `accepted` the data of all sends
   that met no broken pipe or reset, `lost` whether a send met one, and `posted` the
   operations requested of the loop.
   */
  datatype Conn = Conn(
    out: seq<byte>,
    events: bv8,
    taken: seq<byte>,
    verdicts: seq<Verdict>,
    posted: seq<Kind>,
    accepted: seq<byte>,
    lost: bool)

  predicate Fatal(e: Errno) { e == EPIPE || e == ECONNRESET }

  /** `tcp_connection_send_data`; the result is the number of bytes written directly. */
  function Sent(c: Conn, data: seq<byte>): (r: (Conn, nat))
    ensures r.1 <= |data|
  {
    if !HasWrite(c.events) && c.out == [] then
      var tried := c.(verdicts := Rest(c.verdicts));
      match WriteAnswer(c.verdicts, |data|)
      case Count(n) => (Queued(tried.(taken := c.taken + data[..n]), data, n), n)
      case Failed(e) => if Fatal(e) then (tried.(lost := true), 0) else (Queued(tried, data, 0), 0)
    else (Queued(c, data, 0), 0)
  }

  /** Keeps `data[n..]` for later and asks for write events if there is anything to keep. */
  function Queued(c: Conn, data: seq<byte>, n: nat): Conn
    requires n <= |data|
  {
    var c' := c.(accepted := c.accepted + data);
    if n == |data| then c'
    else if HasWrite(c.events) then c'.(out := c.out + data[n..])
    else c'.(out := c.out + data[n..], events := WithWrite(c.events), posted := c.posted + [UPDATE])
  }

  /** `handle_write` */
  function Flushed(c: Conn): Conn {
    var tried := c.(verdicts := Rest(c.verdicts));
    match WriteAnswer(c.verdicts, |c.out|)
    case Failed(_) => tried
    case Count(n) =>
      if n == 0 then tried
      else
        var c' := tried.(taken := c.taken + c.out[..n], out := c.out[n..]);
        if n < |c.out| then c'
        else c'.(events := WithoutWrite(c.events), posted := c.posted + [UPDATE])
  }

  function Closed(c: Conn): Conn { c.(posted := c.posted + [DELETE]) }

  /** Nothing is lost or reordered, and write events are wanted exactly while bytes wait. */
  predicate Sound(c: Conn) {
    c.taken + c.out == c.accepted && (HasWrite(c.events) <==> c.out != [])
  }

  lemma QueuedSound(c: Conn, data: seq<byte>, n: nat)
    requires n <= |data| && c.taken + c.out == c.accepted + data[..n]
    requires HasWrite(c.events) <==> c.out != []
    ensures Sound(Queued(c, data, n))
  {
    ToggleWrite(c.events);
    assert data[..n] + data[n..] == data;
    Assoc(c.taken, c.out, data[n..]);
    Assoc(c.accepted, data[..n], data[n..]);
    if n == |data| {
      assert data[..n] == data;
    }
  }

  lemma SentSound(c: Conn, data: seq<byte>)
    requires Sound(c)
    ensures Sound(Sent(c, data).0)
    ensures var c' := Sent(c, data).0;
            if c'.lost && !c.lost then c'.accepted == c.accepted
            else c'.lost == c.lost && (c'.accepted == c.accepted + data || (c.lost && c'.accepted == c.accepted))
  {
    assert c.accepted + data[..0] == c.accepted;
    if !HasWrite(c.events) && c.out == [] {
      var tried := c.(verdicts := Rest(c.verdicts));
      match WriteAnswer(c.verdicts, |data|)
      case Count(n) =>
        assert c.taken + [] == c.taken;
        QueuedSound(tried.(taken := c.taken + data[..n]), data, n);
      case Failed(e) =>
        QueuedSound(tried, data, 0);
    } else {
      QueuedSound(c, data, 0);
    }
  }

  /** The connection writes directly: nothing is queued and write events are off. */
  predicate Direct(c: Conn) { c.out == [] && !HasWrite(c.events) }

  /** The direct write finds the peer gone. */
  predicate Hit(c: Conn) {
    Direct(c) && c.verdicts != [] && (c.verdicts[0] == WriteFails(EPIPE) || c.verdicts[0] == WriteFails(ECONNRESET))
  }

  /** How much a direct write takes; a socket with no room takes nothing. */
  function DirectPart(c: Conn, size: nat): (n: nat)
    ensures n <= size
  {
    if Direct(c) && c.verdicts != [] && c.verdicts[0].Takes? then Min(c.verdicts[0].room, size) else 0
  }

  /**
   All that one send does, for every answer of the kernel: a full socket, an interrupted write or
   any other failure queues everything, and only a broken pipe or a reset drops the data.
   */
  lemma SentExact(c: Conn, data: seq<byte>)
    ensures var (d, n) := Sent(c, data);
            n == DirectPart(c, |data|) && d.taken == c.taken + data[..n] &&
            d.out == (if Hit(c) then c.out else c.out + data[n..]) &&
            d.accepted == (if Hit(c) then c.accepted else c.accepted + data) &&
            (d.lost <==> c.lost || Hit(c)) &&
            d.verdicts == (if Direct(c) then Rest(c.verdicts) else c.verdicts)
  {
    var (d, n) := Sent(c, data);
    assert c.taken + data[..0] == c.taken && data[0..] == data;
    if n == |data| {
      assert c.out + data[n..] == c.out;
    }
  }

  /** All that one write event does to the stream: it takes what the socket has room for. */
  lemma FlushedExact(c: Conn)
    ensures var d := Flushed(c);
            var n := if c.verdicts != [] && c.verdicts[0].Takes? then Min(c.verdicts[0].room, |c.out|) else 0;
            d.taken == c.taken + c.out[..n] && d.out == c.out[n..] && d.verdicts == Rest(c.verdicts) &&
            d.accepted == c.accepted && d.lost == c.lost
  {
    assert c.taken + c.out[..0] == c.taken && c.out[0..] == c.out;
  }

  lemma FlushedSound(c: Conn)
    requires Sound(c)
    ensures Sound(Flushed(c))
  {
    ToggleWrite(c.events);
    match WriteAnswer(c.verdicts, |c.out|)
    case Count(n) =>
      assert c.out[..n] + c.out[n..] == c.out;
      Assoc(c.taken, c.out[..n], c.out[n..]);
    case Failed(_) =>
  }

  // ---------- whole runs ----------

  /** What can happen to a connection: its owner sends, a chunk arrives and is echoed, the
      socket becomes writable, or a read ends the connection. */
  datatype Input = Send(data: seq<byte>) | Chunk(bytes: seq<byte>) | WriteReady | EndOfStream

  function Step(c: Conn, e: Input): Conn {
    match e
    case Send(data) => Sent(c, data).0
    case Chunk(bytes) => Sent(c, Rot13All(bytes)).0
    case WriteReady => Flushed(c)
    case EndOfStream => Closed(c)
  }

  function RunAll(c: Conn, inputs: seq<Input>): Conn
    decreases |inputs|
  {
    if inputs == [] then c else RunAll(Step(c, inputs[0]), inputs[1..])
  }

  /** The data an input hands to send. */
  function Payload(e: Input): seq<byte> {
    match e
    case Send(data) => data
    case Chunk(bytes) => Rot13All(bytes)
    case _ => []
  }

  /** All data handed to send, in order. */
  function Offered(inputs: seq<Input>): seq<byte> {
    if inputs == [] then [] else Payload(inputs[0]) + Offered(inputs[1..])
  }

  /** All bytes read from the peer, in order. */
  function Received(inputs: seq<Input>): seq<byte> {
    if inputs == [] then []
    else (if inputs[0].Chunk? then inputs[0].bytes else []) + Received(inputs[1..])
  }

  lemma StepSound(c: Conn, e: Input)
    requires Sound(c)
    ensures Sound(Step(c, e)) && (c.lost ==> Step(c, e).lost)
    ensures !Step(c, e).lost ==> Step(c, e).accepted == c.accepted + Payload(e)
  {
    StepExact(c, e);
    match e
    case Send(data) => SentSound(c, data);
    case Chunk(bytes) => SentSound(c, Rot13All(bytes));
    case WriteReady => FlushedSound(c);
    case EndOfStream =>
  }

  /** The input is a send that finds the peer gone. */
  predicate Breaking(c: Conn, e: Input) { (e.Send? || e.Chunk?) && Hit(c) }

  lemma StepExact(c: Conn, e: Input)
    ensures var d := Step(c, e);
            d.accepted == (if Breaking(c, e) then c.accepted else c.accepted + Payload(e)) &&
            (d.lost <==> c.lost || Breaking(c, e))
  {
    match e
    case Send(data) => SentExact(c, data);
    case Chunk(bytes) => SentExact(c, Rot13All(bytes));
    case WriteReady =>
      FlushedExact(c);
      assert c.accepted + [] == c.accepted;
    case EndOfStream =>
      assert c.accepted + [] == c.accepted;
  }

  /** Some send of the run finds the peer gone. */
  predicate Breaks(c: Conn, inputs: seq<Input>)
    decreases |inputs|
  {
    inputs != [] && (Breaking(c, inputs[0]) || Breaks(Step(c, inputs[0]), inputs[1..]))
  }

  /** The data of all sends that do not find the peer gone, in order. */
  function Kept(c: Conn, inputs: seq<Input>): seq<byte>
    decreases |inputs|
  {
    if inputs == [] then []
    else (if Breaking(c, inputs[0]) then [] else Payload(inputs[0])) + Kept(Step(c, inputs[0]), inputs[1..])
  }

  /**
   Output conservation: after any run of sends, echoes and write events, what the kernel took
   followed by what is queued is the data of all sends but those that found the peer gone, in
   order; and write events are wanted exactly while bytes are queued.
   */
  lemma {:induction false} StreamConserved(c: Conn, inputs: seq<Input>)
    requires Sound(c)
    ensures var d := RunAll(c, inputs);
            Sound(d) && d.taken + d.out == d.accepted == c.accepted + Kept(c, inputs) &&
            (d.lost <==> c.lost || Breaks(c, inputs)) &&
            (!Breaks(c, inputs) ==> Kept(c, inputs) == Offered(inputs))
    decreases |inputs|
  {
    if inputs == [] {
      assert c.accepted + [] == c.accepted;
    } else {
      var c' := Step(c, inputs[0]);
      StepSound(c, inputs[0]);
      StepExact(c, inputs[0]);
      StreamConserved(c', inputs[1..]);
      if Breaking(c, inputs[0]) {
        assert [] + Kept(c', inputs[1..]) == Kept(c', inputs[1..]);
      } else {
        Assoc(c.accepted, Payload(inputs[0]), Kept(c', inputs[1..]));
      }
    }
  }

  /** The kernel never reports a broken pipe or a reset; it may be full, or fail otherwise. */
  predicate Steady(verdicts: seq<Verdict>) {
    forall i :: 0 <= i < |verdicts| ==> verdicts[i] != WriteFails(EPIPE) && verdicts[i] != WriteFails(ECONNRESET)
  }

  lemma StepSteady(c: Conn, e: Input)
    requires Steady(c.verdicts)
    ensures Steady(Step(c, e).verdicts) && !Breaking(c, e)
  {
    match e
    case Send(data) => SentExact(c, data);
    case Chunk(bytes) => SentExact(c, Rot13All(bytes));
    case WriteReady => FlushedExact(c);
    case EndOfStream =>
  }

  /** With such a kernel no run loses anything. */
  lemma {:induction false} SteadyNeverBreaks(c: Conn, inputs: seq<Input>)
    requires Steady(c.verdicts)
    ensures !Breaks(c, inputs)
    decreases |inputs|
  {
    if inputs != [] {
      StepSteady(c, inputs[0]);
      SteadyNeverBreaks(Step(c, inputs[0]), inputs[1..]);
    }
  }

  predicate EchoOnly(inputs: seq<Input>) {
    forall i :: 0 <= i < |inputs| ==> !inputs[i].Send?
  }

  lemma {:induction false} OfferedIsRotated(inputs: seq<Input>)
    requires EchoOnly(inputs)
    ensures Offered(inputs) == Rot13All(Received(inputs))
    decreases |inputs|
  {
    if inputs != [] {
      OfferedIsRotated(inputs[1..]);
      var head := if inputs[0].Chunk? then inputs[0].bytes else [];
      Rot13Concat(head, Received(inputs[1..]));
    }
  }

  /** A connection before any traffic. */
  predicate Untouched(c: Conn) {
    c.out == [] && c.taken == [] && c.accepted == [] && !c.lost && !HasWrite(c.events)
  }

  lemma EchoConserved(c: Conn, inputs: seq<Input>)
    requires Untouched(c) && EchoOnly(inputs)
    ensures var d := RunAll(c, inputs);
            Steady(c.verdicts) || !d.lost ==> d.taken + d.out == Rot13All(Received(inputs))
  {
    StreamConserved(c, inputs);
    OfferedIsRotated(inputs);
    if Steady(c.verdicts) {
      SteadyNeverBreaks(c, inputs);
    }
    assert [] + Offered(inputs) == Offered(inputs);
  }

  /**
   End-to-end echo: however reads are cut and writes are shortened, unless the kernel reports a
   broken pipe or a reset the bytes it took, followed by those still queued, are the rotated
   image of everything received, so the peer recovers its own text by rotating again. If it does
   report one, this still holds until a send meets it.
   */
  lemma EndToEndEcho(c: Conn, inputs: seq<Input>)
    requires Untouched(c) && EchoOnly(inputs)
    ensures var d := RunAll(c, inputs);
            Steady(c.verdicts) || !Breaks(c, inputs) ==>
              d.taken + d.out == Rot13All(Received(inputs)) &&
              Rot13All(d.taken) <= Received(inputs)
  {
    EchoConserved(c, inputs);
    StreamConserved(c, inputs);
    var d := RunAll(c, inputs);
    if Steady(c.verdicts) || !Breaks(c, inputs) {
      PeerRecovers(d.taken, d.out, Received(inputs));
    }
  }

  lemma PeerRecovers(taken: seq<byte>, out: seq<byte>, received: seq<byte>)
    requires taken + out == Rot13All(received)
    ensures Rot13All(taken) <= received
  {
    Rot13Involution(received);
    Rot13Concat(taken, out);
  }

  /** Write events that each find some room empty the queue: no queued byte is stranded. */
  lemma {:induction false} WriteEventsDrain(c: Conn, n: nat)
    requires Sound(c) && |c.out| <= n <= |c.verdicts|
    requires forall i :: 0 <= i < n ==> c.verdicts[i].Takes? && c.verdicts[i].room > 0
    ensures var d := RunAll(c, seq(n, _ => WriteReady));
            d.out == [] && d.taken == c.accepted && !HasWrite(d.events)
    decreases n
  {
    if n > 0 {
      FlushedSound(c);
      assert seq(n, _ => WriteReady)[1..] == seq(n - 1, _ => WriteReady);
      WriteEventsDrain(Flushed(c), n - 1);
    } else {
      assert c.taken + [] == c.taken;
    }
  }

  /** An update is posted to the loop exactly when write interest changes. */
  lemma PostsFollowInterest(c: Conn, e: Input)
    requires Sound(c) && !e.EndOfStream?
    ensures var d := Step(c, e);
            d.posted == if HasWrite(d.events) == HasWrite(c.events) then c.posted else c.posted + [UPDATE]
    ensures HasRead(Step(c, e).events) == HasRead(c.events)
    ensures Step(c, e).posted == c.posted ==> Step(c, e).events == c.events
  {
    ToggleWrite(c.events);
    ToggleUndone(c.events);
  }

  /** The calls by which a run of inputs switches write interest, in order. */
  function Switches(c: Conn, inputs: seq<Input>): seq<bool>
    decreases |inputs|
  {
    if inputs == [] then []
    else
      var d := Step(c, inputs[0]);
      (if HasWrite(d.events) != HasWrite(c.events) then [HasWrite(d.events)] else []) + Switches(d, inputs[1..])
  }

  lemma StepSwitches(c: Conn, e: Input)
    requires Sound(c)
    ensures var d := Step(c, e);
            d.events == if HasWrite(d.events) == HasWrite(c.events) then c.events
                        else if HasWrite(d.events) then WithWrite(c.events)
                        else WithoutWrite(c.events)
  {
    ToggleWrite(c.events);
    ToggleUndone(c.events);
  }

  lemma {:induction false} EventsFollowSwitches(c: Conn, inputs: seq<Input>)
    requires Sound(c)
    ensures RunAll(c, inputs).events == Switched(c.events, Switches(c, inputs))
    decreases |inputs|
  {
    if inputs != [] {
      StepSound(c, inputs[0]);
      StepSwitches(c, inputs[0]);
      var d := Step(c, inputs[0]);
      EventsFollowSwitches(d, inputs[1..]);
      var first := if HasWrite(d.events) != HasWrite(c.events) then [HasWrite(d.events)] else [];
      SwitchedJoins(c.events, first, Switches(d, inputs[1..]));
    }
  }

  /**
   The result of a send counts the direct part only. `send_buffer` drops just that part from
   the caller's buffer, so what it leaves there is already queued, and sending it again
   duplicates it.
   */
  lemma LeftoverIsQueued(c: Conn, data: seq<byte>)
    requires Sound(c)
    ensures var (d, n) := Sent(c, data);
            n == DirectPart(c, |data|) && d.taken == c.taken + data[..n] &&
            (!Hit(c) ==> d.out == c.out + data[n..]) &&
            (!Hit(c) && !Hit(d) ==> Sent(d, data[n..]).0.accepted == (c.accepted + data) + data[n..])
  {
    SentExact(c, data);
    var (d, n) := Sent(c, data);
    SentExact(d, data[n..]);
  }

  // ---------- on the heap ----------

  /** The indices of a buffer whose contents were consumed. */
  function Emptied(l: Layout): Layout { l.(read := l.write) }

  /** The loop of `on_new_message`: every readable byte goes, rotated, into a fresh buffer. */
  method RotateAll(input: Buffer) returns (output: Buffer)
    requires input.Valid()
    modifies input`readIndex
    ensures input.Valid() && input.Contents() == [] && input.Indices() == Emptied(old(input.Indices()))
    ensures fresh(output) && fresh(output.data) && output.Valid()
    ensures output.Contents() == Rot13All(old(input.Contents()))
  {
    ghost var message := input.Contents();
    output := new Buffer();
    var size := input.ReadableSize();
    for i := 0 to size
      invariant input.Valid() && output.Valid() && fresh(output) && fresh(output.data)
      invariant input.Contents() == message[i..] && output.Contents() == Rot13All(message[..i])
    {
      var c := input.ReadChar();
      var _ := output.AppendChar(Rot13(c));
      OneMore(message, i, c, input.Contents());
    }
    assert message[..size] == message;
  }

  lemma OneMore(message: seq<byte>, i: nat, c: byte, rest: seq<byte>)
    requires i < |message| && message[i..] == [c] + rest
    ensures rest == message[i + 1..] && Rot13All(message[..i + 1]) == Rot13All(message[..i]) + [Rot13(c)]
  {
    assert message[i..][1..] == message[i + 1..];
    assert message[..i + 1] == message[..i] + [message[i..][0]];
    Rot13Concat(message[..i], [c]);
  }

  class Connection {
    const loop: EventLoop
    const channel: Channel
    const input: Buffer
    const output: Buffer
    const socket: Socket

    /** The operations posted to the loop, oldest first. */
    ghost var posted: seq<Kind>

    ghost var accepted: seq<byte>
    ghost var lost: bool

    ghost predicate Valid()
      reads this, input, output
    {
      input.Valid() && output.Valid() && input != output && input.data != output.data
    }

    /** The loop can carry out what the connection posts next. */
    ghost predicate Attached()
      reads this, loop, loop.channelMap, loop.channelMap.entities, loop.eventSet, loop.nodes
    {
      loop.CanPost(channel)
    }

    ghost function Snapshot(): Conn
      reads this, channel, output, output.data, socket
      requires output.Valid()
    {
      Conn(output.Contents(), channel.events, socket.taken, socket.verdicts, posted, accepted, lost)
    }

    /**
     Since the loop had the tables `r` and the list `list`, and `before` was posted: either nothing
     was posted, or the loop carried out the list and then the operation posted.
     */
    ghost predicate LoopTold(r: Registry, list: seq<Node>, before: seq<Kind>)
      reads this, loop, loop.channelMap, loop.channelMap.entities, loop.eventSet, channel, Touched(list)
    {
      if posted == before then loop.Tables() == r && loop.nodes == list
      else posted != [] && loop.Carried(r, list, Request(Op(posted[|posted| - 1], channel), channel.events))
    }

    constructor (fd: int, loop: EventLoop, socket: Socket)
      ensures Valid() && fresh(channel) && fresh(input) && fresh(input.data) && fresh(output) && fresh(output.data)
      ensures this.loop == loop && this.socket == socket && channel.fd == fd
      ensures channel.onReadable && channel.onWriteable
      ensures channel.events == EVENT_READ && input.Contents() == [] && posted == []
      ensures input.Indices() == EMPTY_LAYOUT && output.Indices() == EMPTY_LAYOUT
      ensures socket.taken == [] ==> Untouched(Snapshot())
    {
      var newChannel := new Channel(fd, EVENT_READ, true, true);
      var newInput := new Buffer();
      var newOutput := new Buffer();
      channel, input, output, this.socket, this.loop := newChannel, newInput, newOutput, socket, loop;
      posted, accepted, lost := [], [], false;
    }

    /** The last step of `tcp_connection_new`, after the callback for the new connection. */
    method Register()
      requires Valid() && loop.Valid() && !loop.isHandlingPendingChannel
      requires !ApplyAll(loop.Tables(), Unmasked(loop.nodes)).broken
      modifies this`posted
      modifies loop`pendingHead, loop`pendingTail, loop`isHandlingPendingChannel, loop`nodes, loop.pendingTail
      modifies loop.channelMap`entities, loop.channelMap`length, loop.channelMap.entities, loop.eventSet
      ensures Valid() && Snapshot() == old(Snapshot()).(posted := old(posted) + [ADD])
      ensures input.Contents() == old(input.Contents())
      ensures loop.channelMap.entities == old(loop.channelMap.entities) || fresh(loop.channelMap.entities)
      ensures Attached() && LoopTold(old(loop.Tables()), old(loop.nodes), old(posted))
    {
      posted := posted + [ADD];
      loop.AddChannelEvent(channel);
    }

    /** The direct write, tried only while nothing is queued. */
    method WriteDirectly(data: seq<byte>) returns (written: nat, fault: bool)
      requires Valid()
      modifies socket`verdicts, socket`taken, socket`errno
      ensures var direct := !HasWrite(channel.events) && output.Contents() == [];
              var answer := if direct then WriteAnswer(old(socket.verdicts), |data|) else Count(0);
              written == (if answer.Count? then answer.n else 0) &&
              (fault <==> answer.Failed? && Fatal(answer.errno)) &&
              socket.verdicts == (if direct then Rest(old(socket.verdicts)) else old(socket.verdicts)) &&
              socket.taken == old(socket.taken) + data[..written]
    {
      written, fault := 0, false;
      if !HasWrite(channel.events) && output.ReadableSize() == 0 {
        var n := socket.Write(data);
        if n >= 0 {
          written := n;
        } else if socket.errno != EAGAIN {
          if socket.errno == EPIPE || socket.errno == ECONNRESET {
            fault := true;
          }
        }
      }
      assert socket.taken + data[..0] == socket.taken;
    }

    /** Copies the rest into the output buffer and enables write events. */
    method QueueRest(rest: seq<byte>)
      requires Valid() && Attached() && rest != []
      modifies this`posted, channel`events, output, output.data
      modifies loop`pendingHead, loop`pendingTail, loop`isHandlingPendingChannel, loop`nodes, loop.pendingTail
      modifies loop.channelMap`entities, loop.channelMap`length, loop.channelMap.entities, loop.eventSet
      ensures Valid() && (output.data == old(output.data) || fresh(output.data))
      ensures output.Contents() == old(output.Contents()) + rest
      ensures if old(HasWrite(channel.events)) then channel.events == old(channel.events) && posted == old(posted)
              else channel.events == WithWrite(old(channel.events)) && posted == old(posted) + [UPDATE]
      ensures loop.channelMap.entities == old(loop.channelMap.entities) || fresh(loop.channelMap.entities)
      ensures Attached() && LoopTold(old(loop.Tables()), old(loop.nodes), old(posted))
    {
      var _ := output.Append(rest);
      if !HasWrite(channel.events) {
        posted := posted + [UPDATE];
        loop.EnableWrite(channel);
      }
    }

    /** After the direct write of `data[..n]`: the rest is queued unless the connection is gone. */
    method KeepRest(data: seq<byte>, n: nat, fault: bool)
      requires Valid() && Attached() && n <= |data|
      modifies this`posted, this`accepted, this`lost, channel`events, output, output.data
      modifies loop`pendingHead, loop`pendingTail, loop`isHandlingPendingChannel, loop`nodes, loop.pendingTail
      modifies loop.channelMap`entities, loop.channelMap`length, loop.channelMap.entities, loop.eventSet
      ensures Valid() && (output.data == old(output.data) || fresh(output.data))
      ensures loop.channelMap.entities == old(loop.channelMap.entities) || fresh(loop.channelMap.entities)
      ensures Attached() && LoopTold(old(loop.Tables()), old(loop.nodes), old(posted))
      ensures Snapshot() == if fault then old(Snapshot()).(lost := true) else Queued(old(Snapshot()), data, n)
    {
      if fault {
        lost := true;
      } else {
        accepted := accepted + data;
        if n < |data| {
          QueueRest(data[n..]);
        }
      }
    }

    method SendData(data: seq<byte>) returns (sizeWritten: nat)
      requires Valid() && Attached()
      modifies this`posted, this`accepted, this`lost, channel`events, output, output.data
      modifies socket`verdicts, socket`taken, socket`errno
      modifies loop`pendingHead, loop`pendingTail, loop`isHandlingPendingChannel, loop`nodes, loop.pendingTail
      modifies loop.channelMap`entities, loop.channelMap`length, loop.channelMap.entities, loop.eventSet
      ensures Valid() && (output.data == old(output.data) || fresh(output.data))
      ensures loop.channelMap.entities == old(loop.channelMap.entities) || fresh(loop.channelMap.entities)
      ensures Attached() && LoopTold(old(loop.Tables()), old(loop.nodes), old(posted))
      ensures (Snapshot(), sizeWritten) == Sent(old(Snapshot()), data)
    {
      assert socket.taken + data[..0] == socket.taken;
      var fault;
      sizeWritten, fault := WriteDirectly(data);
      KeepRest(data, sizeWritten, fault);
    }

    method SendBuffer(buffer: Buffer) returns (result: nat)
      requires Valid() && Attached() && buffer.Valid() && buffer != output && buffer.data != output.data
      modifies this`posted, this`accepted, this`lost, channel`events, output, output.data, buffer`readIndex
      modifies socket`verdicts, socket`taken, socket`errno
      modifies loop`pendingHead, loop`pendingTail, loop`isHandlingPendingChannel, loop`nodes, loop.pendingTail
      modifies loop.channelMap`entities, loop.channelMap`length, loop.channelMap.entities, loop.eventSet
      ensures Valid() && (output.data == old(output.data) || fresh(output.data))
      ensures loop.channelMap.entities == old(loop.channelMap.entities) || fresh(loop.channelMap.entities)
      ensures Attached() && LoopTold(old(loop.Tables()), old(loop.nodes), old(posted))
      ensures result <= old(|buffer.Contents()|)
      ensures buffer.Valid() && buffer.Contents() == old(buffer.Contents())[result..]
      ensures (Snapshot(), result) == Sent(old(Snapshot()), old(buffer.Contents()))
    {
      ghost var r, list, before := loop.Tables(), loop.nodes, posted;
      result := SendData(buffer.data[buffer.readIndex..buffer.writeIndex]);
      DropSent(buffer, result, r, list, before);
    }

    /** The step of the caller's read index, which touches nothing of the connection. */
    method DropSent(buffer: Buffer, n: nat, ghost r: Registry, ghost list: seq<Node>, ghost before: seq<Kind>)
      requires Valid() && Attached() && LoopTold(r, list, before)
      requires buffer.Valid() && buffer != output && buffer.data != output.data && n <= |buffer.Contents()|
      modifies buffer`readIndex
      ensures Valid() && Attached() && LoopTold(r, list, before) && Snapshot() == old(Snapshot())
      ensures buffer.Valid() && buffer.Contents() == old(buffer.Contents())[n..]
    {
      ghost var qs := Requests(list);
      buffer.Skip(n);
      assert Requests(list) == qs;
    }

    /** The write of `handle_write` and the step of the read index. */
    method WriteQueued() returns (sizeWritten: int)
      requires Valid()
      modifies output`readIndex, socket`verdicts, socket`taken, socket`errno
      ensures Valid()
      ensures var c := old(Snapshot());
              var n := if sizeWritten > 0 then sizeWritten else 0;
              n <= |c.out| &&
              WriteAnswer(c.verdicts, |c.out|) == (if sizeWritten >= 0 then Count(sizeWritten) else Failed(socket.errno)) &&
              Snapshot() == c.(verdicts := Rest(c.verdicts), taken := c.taken + c.out[..n], out := c.out[n..])
    {
      ghost var out := output.Contents();
      sizeWritten := socket.Write(output.data[output.readIndex..output.writeIndex]);
      if sizeWritten > 0 {
        output.Skip(sizeWritten);
      }
      assert socket.taken + out[..0] == socket.taken;
    }

    /** Write events are no longer wanted once the queue is empty. */
    method StopIfEmpty()
      requires Valid() && Attached()
      modifies this`posted, channel`events
      modifies loop`pendingHead, loop`pendingTail, loop`isHandlingPendingChannel, loop`nodes, loop.pendingTail
      modifies loop.channelMap`entities, loop.channelMap`length, loop.channelMap.entities, loop.eventSet
      ensures Valid()
      ensures loop.channelMap.entities == old(loop.channelMap.entities) || fresh(loop.channelMap.entities)
      ensures Attached() && LoopTold(old(loop.Tables()), old(loop.nodes), old(posted))
      ensures var c := old(Snapshot());
              Snapshot() == if c.out != [] then c
                            else c.(events := WithoutWrite(c.events), posted := c.posted + [UPDATE])
    {
      if output.ReadableSize() == 0 {
        posted := posted + [UPDATE];
        loop.DisableWrite(channel);
      }
    }

    method HandleWrite()
      requires Valid() && Attached()
      modifies this`posted, channel`events, output`readIndex
      modifies socket`verdicts, socket`taken, socket`errno
      modifies loop`pendingHead, loop`pendingTail, loop`isHandlingPendingChannel, loop`nodes, loop.pendingTail
      modifies loop.channelMap`entities, loop.channelMap`length, loop.channelMap.entities, loop.eventSet
      ensures Valid() && Snapshot() == Flushed(old(Snapshot()))
      ensures loop.channelMap.entities == old(loop.channelMap.entities) || fresh(loop.channelMap.entities)
      ensures Attached() && LoopTold(old(loop.Tables()), old(loop.nodes), old(posted))
    {
      var sizeWritten := WriteQueued();
      if sizeWritten > 0 {
        StopIfEmpty();
      }
    }

    /** `on_new_message` of chapter 27: rotate everything read so far into a fresh buffer, send it. */
    method OnNewMessage()
      requires Valid() && Attached()
      modifies this`posted, this`accepted, this`lost, channel`events, output, output.data, input`readIndex
      modifies socket`verdicts, socket`taken, socket`errno
      modifies loop`pendingHead, loop`pendingTail, loop`isHandlingPendingChannel, loop`nodes, loop.pendingTail
      modifies loop.channelMap`entities, loop.channelMap`length, loop.channelMap.entities, loop.eventSet
      ensures Valid() && (output.data == old(output.data) || fresh(output.data))
      ensures loop.channelMap.entities == old(loop.channelMap.entities) || fresh(loop.channelMap.entities)
      ensures Attached() && LoopTold(old(loop.Tables()), old(loop.nodes), old(posted))
      ensures input.Contents() == [] && input.Indices() == Emptied(old(input.Indices()))
      ensures Snapshot() == Sent(old(Snapshot()), Rot13All(old(input.Contents()))).0
    {
      var echo := RotateAll(input);
      var _ := SendBuffer(echo);
    }

    /** What the next `readv` on the input buffer delivers; None for end of file or an error. */
    ghost function Arriving(): (r: Option<seq<byte>>)
      reads this, input, socket
      requires input.Valid()
      ensures r.None? <==> socket.incoming == [] || (socket.pace != [] && socket.pace[0].ReadFails?)
    {
      var answer := ReadAnswer(|socket.incoming|, socket.pace, input.Indices().Writeable() + INIT_BUFFER_SIZE);
      if answer.Count? && answer.n > 0 then Some(socket.incoming[..answer.n]) else None
    }

    /** `handle_read` with the echo callback. */
    method HandleRead()
      requires Valid() && Attached()
      modifies this`posted, this`accepted, this`lost, channel`events, output, output.data, input, input.data, socket
      modifies loop`pendingHead, loop`pendingTail, loop`isHandlingPendingChannel, loop`nodes, loop.pendingTail
      modifies loop.channelMap`entities, loop.channelMap`length, loop.channelMap.entities, loop.eventSet
      ensures Valid() && (output.data == old(output.data) || fresh(output.data))
      ensures input.data == old(input.data) || fresh(input.data)
      ensures loop.channelMap.entities == old(loop.channelMap.entities) || fresh(loop.channelMap.entities)
      ensures Attached() && LoopTold(old(loop.Tables()), old(loop.nodes), old(posted))
      ensures var arrived := old(Arriving());
              arrived.Some? ==>
                old(socket.incoming) == arrived.value + socket.incoming && input.Contents() == [] &&
                input.Indices() == Emptied(FetchLayout(old(input.Indices()), |arrived.value|)) &&
                Snapshot() == Sent(old(Snapshot()), Rot13All(old(input.Contents()) + arrived.value)).0
      ensures socket.pace == Rest(old(socket.pace))
      ensures old(Arriving()).None? ==>
                socket.incoming == old(socket.incoming) && input.Contents() == old(input.Contents()) &&
                input.Indices() == old(input.Indices()) &&
                Snapshot() == Closed(old(Snapshot()))
    {
      var n := FillInput();
      React(n);
    }

    /** What `handle_read` does with the result of its read. */
    method React(n: int)
      requires Valid() && Attached()
      modifies this`posted, this`accepted, this`lost, channel`events, output, output.data, input`readIndex
      modifies socket`verdicts, socket`taken, socket`errno
      modifies loop`pendingHead, loop`pendingTail, loop`isHandlingPendingChannel, loop`nodes, loop.pendingTail
      modifies loop.channelMap`entities, loop.channelMap`length, loop.channelMap.entities, loop.eventSet
      ensures Valid() && (output.data == old(output.data) || fresh(output.data))
      ensures loop.channelMap.entities == old(loop.channelMap.entities) || fresh(loop.channelMap.entities)
      ensures Attached() && LoopTold(old(loop.Tables()), old(loop.nodes), old(posted))
      ensures input.Contents() == if n > 0 then [] else old(input.Contents())
      ensures input.Indices() == if n > 0 then Emptied(old(input.Indices())) else old(input.Indices())
      ensures Snapshot() == if n > 0 then Sent(old(Snapshot()), Rot13All(old(input.Contents()))).0 else Closed(old(Snapshot()))
    {
      if n > 0 {
        OnNewMessage();
      } else {
        HandleConnectionClosed();
      }
    }

    method HandleConnectionClosed()
      requires Valid() && Attached()
      modifies this`posted
      modifies loop`pendingHead, loop`pendingTail, loop`isHandlingPendingChannel, loop`nodes, loop.pendingTail
      modifies loop.channelMap`entities, loop.channelMap`length, loop.channelMap.entities, loop.eventSet
      ensures Valid() && Snapshot() == Closed(old(Snapshot()))
      ensures loop.channelMap.entities == old(loop.channelMap.entities) || fresh(loop.channelMap.entities)
      ensures Attached() && LoopTold(old(loop.Tables()), old(loop.nodes), old(posted))
    {
      posted := posted + [DELETE];
      loop.RemoveChannelEvent(channel);
    }

    /** The read of `handle_read`, which touches the input side only. */
    method FillInput() returns (n: int)
      requires Valid()
      modifies input, input.data, socket`incoming, socket`pace, socket`errno
      ensures Valid() && Snapshot() == old(Snapshot()) && (input.data == old(input.data) || fresh(input.data))
      ensures n > 0 <==> old(Arriving()).Some?
      ensures n > 0 ==> input.Contents() == old(input.Contents()) + old(Arriving()).value
      ensures n > 0 ==> old(socket.incoming) == old(Arriving()).value + socket.incoming
      ensures n <= 0 ==> input.Contents() == old(input.Contents()) && socket.incoming == old(socket.incoming)
      ensures socket.pace == Rest(old(socket.pace))
      ensures input.Indices() == if n > 0 then FetchLayout(old(input.Indices()), n) else old(input.Indices())
      ensures n > 0 ==> n == |old(Arriving()).value|
    {
      n := input.SocketRead(socket);
      if n == 0 {
        assert old(socket.incoming)[..0] == [];
        assert FetchLayout(old(input.Indices()), 0) == old(input.Indices());
      }
    }
  }
}
