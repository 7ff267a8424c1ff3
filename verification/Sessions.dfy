/** A connection served on the heap: from its creation to the calls its poll reports make. */
module Sessions {
  import opened Prelude
  import opened Sockets
  import opened Chars
  import opened Buffers
  import opened Channels
  import opened Registries
  import opened Passes
  import opened EventLoops
  import opened Connections
  import opened Reactors

  /** The loop has nothing waiting, and polls for what the connection wants until it is closed. */
  ghost predicate Served(conn: Connection)
    reads conn, conn.channel, conn.loop, conn.loop.channelMap, conn.loop.channelMap.entities, conn.loop.eventSet
  {
    conn.loop.nodes == [] &&
    (DELETE in conn.posted || PolledFor(conn.loop.Tables(), conn.channel, conn.channel.events))
  }

  /** The bytes an input brings. */
  function Bytes(e: Input): seq<byte> { if e.Chunk? then e.bytes else [] }

  /** What a ready event brings, given the input buffer's indices, the peer's stream and the script. */
  function NextInput(l: Layout, incoming: seq<byte>, pace: seq<Pace>, readable: bool): (e: Input)
    requires l.Valid()
    ensures Bytes(e) <= incoming && !e.Send?
    ensures readable ==> (e.EndOfStream? <==> incoming == [] || (pace != [] && pace[0].ReadFails?))
    ensures !readable <==> e.WriteReady?
    ensures e.Chunk? ==>
              |e.bytes| == Min(|incoming|, Min(l.total - l.write + INIT_BUFFER_SIZE,
                                               if pace == [] then |incoming| else pace[0].more + 1))
  {
    if !readable then WriteReady
    else
      match ReadAnswer(|incoming|, pace, l.Writeable() + INIT_BUFFER_SIZE)
      case Count(n) => if n > 0 then Chunk(incoming[..n]) else EndOfStream
      case Failed(_) => EndOfStream
  }

  function NextLayout(l: Layout, e: Input): (r: Layout)
    requires l.Valid()
    ensures r.Valid()
  {
    if e.Chunk? then Emptied(FetchLayout(l, |e.bytes|)) else l
  }

  function NextPace(pace: seq<Pace>, readable: bool): seq<Pace> { if readable then Rest(pace) else pace }

  /** The inputs of a whole session, one for each ready event. */
  function SessionInputs(l: Layout, incoming: seq<byte>, pace: seq<Pace>, readable: seq<bool>): (inputs: seq<Input>)
    requires l.Valid()
    ensures |inputs| == |readable| && EchoOnly(inputs)
    decreases |readable|
  {
    if readable == [] then []
    else
      var e := NextInput(l, incoming, pace, readable[0]);
      [e] + SessionInputs(NextLayout(l, e), incoming[|Bytes(e)|..], NextPace(pace, readable[0]), readable[1..])
  }

  lemma FirstOf(todo: seq<Input>, e: Input, later: seq<Input>, stream: seq<byte>)
    requires todo == [e] + later && Bytes(e) <= stream && Received(later) <= stream[|Bytes(e)|..]
    ensures todo[0] == e && todo[1..] == later && Received(todo) <= stream
    ensures stream[|Bytes(e)|..][|Received(later)|..] == stream[|Received(todo)|..]
  {
    assert todo[0] == e && todo[1..] == later;
    assert Received(todo) == Bytes(e) + Received(later);
    assert stream == Bytes(e) + stream[|Bytes(e)|..];
  }

  /** A session reads the front of the peer's stream. */
  lemma {:induction false} SessionReads(l: Layout, incoming: seq<byte>, pace: seq<Pace>, readable: seq<bool>)
    requires l.Valid()
    ensures Received(SessionInputs(l, incoming, pace, readable)) <= incoming
    decreases |readable|
  {
    if readable != [] {
      var e := NextInput(l, incoming, pace, readable[0]);
      var l', rest, pace' := NextLayout(l, e), incoming[|Bytes(e)|..], NextPace(pace, readable[0]);
      SessionReads(l', rest, pace', readable[1..]);
      FirstOf(SessionInputs(l, incoming, pace, readable), e, SessionInputs(l', rest, pace', readable[1..]), incoming);
    }
  }

  lemma PostsGrow(c: Conn, e: Input)
    ensures c.posted <= Step(c, e).posted
    ensures e.EndOfStream? ==> DELETE in Step(c, e).posted
  {
    if e.EndOfStream? {
      assert Step(c, e).posted[|c.posted|] == DELETE;
    }
  }

  /** What one step of the connection means for the loop. */
  lemma ServedStays(conn: Connection, c: Conn, r: Registry, e: Input)
    requires conn.Valid() && conn.Snapshot() == Step(c, e) && Sound(c) && conn.LoopTold(r, [], c.posted)
    requires DELETE in c.posted || PolledFor(r, conn.channel, c.events)
    ensures Served(conn)
  {
    PostsGrow(c, e);
    if DELETE !in conn.posted {
      LoopMovesSo(conn, r, [], c.posted);
      OwnStaysInStep(conn.channel, Both(c, r), e);
    }
  }

  /** The inputs that `readable` still brings to a connection. */
  ghost function Todo(conn: Connection, readable: seq<bool>): seq<Input>
    reads conn, conn.input, conn.socket
    requires conn.Valid()
    reads conn.output
  {
    SessionInputs(conn.input.Indices(), conn.socket.incoming, conn.socket.pace, readable)
  }

  lemma ArrivingIsNext(conn: Connection)
    requires conn.Valid()
    ensures var e := NextInput(conn.input.Indices(), conn.socket.incoming, conn.socket.pace, true);
            conn.Arriving() == if e.Chunk? then Some(e.bytes) else None
  {
  }

  lemma StepOfRead(c: Conn, e: Input)
    ensures e.Chunk? ==> Sent(c, Rot13All([] + e.bytes)).0 == Step(c, e)
    ensures e.EndOfStream? ==> Closed(c) == Step(c, e)
  {
    if e.Chunk? {
      assert [] + e.bytes == e.bytes;
    }
  }

  /** `handle_read` of a reported connection. */
  method ReadEvent(conn: Connection) returns (ghost e: Input)
    requires conn.Valid() && conn.Attached() && conn.input.Contents() == []
    modifies conn`posted, conn`accepted, conn`lost, conn.channel`events, conn.socket
    modifies conn.input, conn.input.data, conn.output, conn.output.data
    modifies conn.loop`pendingHead, conn.loop`pendingTail, conn.loop`isHandlingPendingChannel, conn.loop`nodes
    modifies conn.loop.pendingTail, conn.loop.channelMap`entities, conn.loop.channelMap`length
    modifies conn.loop.channelMap.entities, conn.loop.eventSet
    ensures conn.Valid() && conn.Attached() && conn.input.Contents() == []
    ensures conn.input.data == old(conn.input.data) || fresh(conn.input.data)
    ensures conn.output.data == old(conn.output.data) || fresh(conn.output.data)
    ensures conn.loop.channelMap.entities == old(conn.loop.channelMap.entities) || fresh(conn.loop.channelMap.entities)
    ensures conn.LoopTold(old(conn.loop.Tables()), old(conn.loop.nodes), old(conn.posted))
    ensures e == NextInput(old(conn.input.Indices()), old(conn.socket.incoming), old(conn.socket.pace), true)
    ensures conn.Snapshot() == Step(old(conn.Snapshot()), e)
    ensures conn.input.Indices() == NextLayout(old(conn.input.Indices()), e)
    ensures conn.socket.incoming == old(conn.socket.incoming)[|Bytes(e)|..]
    ensures conn.socket.pace == Rest(old(conn.socket.pace))
  {
    ghost var c := conn.Snapshot();
    e := NextInput(conn.input.Indices(), conn.socket.incoming, conn.socket.pace, true);
    ArrivingIsNext(conn);
    StepOfRead(c, e);
    conn.HandleRead();
  }

  /** One callback of a reported connection: `handle_read` or `handle_write`. */
  method HandleEvent(conn: Connection, readable: bool) returns (ghost e: Input)
    requires conn.Valid() && conn.Attached() && conn.input.Contents() == []
    modifies conn`posted, conn`accepted, conn`lost, conn.channel`events, conn.socket
    modifies conn.input, conn.input.data, conn.output, conn.output.data
    modifies conn.loop`pendingHead, conn.loop`pendingTail, conn.loop`isHandlingPendingChannel, conn.loop`nodes
    modifies conn.loop.pendingTail, conn.loop.channelMap`entities, conn.loop.channelMap`length
    modifies conn.loop.channelMap.entities, conn.loop.eventSet
    ensures conn.Valid() && conn.Attached() && conn.input.Contents() == []
    ensures conn.input.data == old(conn.input.data) || fresh(conn.input.data)
    ensures conn.output.data == old(conn.output.data) || fresh(conn.output.data)
    ensures conn.loop.channelMap.entities == old(conn.loop.channelMap.entities) || fresh(conn.loop.channelMap.entities)
    ensures conn.LoopTold(old(conn.loop.Tables()), old(conn.loop.nodes), old(conn.posted))
    ensures e == NextInput(old(conn.input.Indices()), old(conn.socket.incoming), old(conn.socket.pace), readable)
    ensures conn.Snapshot() == Step(old(conn.Snapshot()), e)
    ensures conn.input.Indices() == NextLayout(old(conn.input.Indices()), e)
    ensures conn.socket.incoming == old(conn.socket.incoming)[|Bytes(e)|..]
    ensures conn.socket.pace == NextPace(old(conn.socket.pace), readable)
  {
    if readable {
      e := ReadEvent(conn);
    } else {
      e := WriteReady;
      conn.HandleWrite();
    }
  }

  /** One callback keeps the loop's tables right and goes one step on through the session. */
  method EchoEvent(conn: Connection, ghost readable: seq<bool>, first: bool)
    requires conn.Valid() && conn.Attached() && conn.input.Contents() == [] && Sound(conn.Snapshot())
    requires readable != [] && readable[0] == first && Received(Todo(conn, readable)) <= conn.socket.incoming
    modifies conn`posted, conn`accepted, conn`lost, conn.channel`events, conn.socket
    modifies conn.input, conn.input.data, conn.output, conn.output.data
    modifies conn.loop`pendingHead, conn.loop`pendingTail, conn.loop`isHandlingPendingChannel, conn.loop`nodes
    modifies conn.loop.pendingTail, conn.loop.channelMap`entities, conn.loop.channelMap`length
    modifies conn.loop.channelMap.entities, conn.loop.eventSet
    ensures conn.Valid() && conn.Attached() && conn.input.Contents() == [] && Sound(conn.Snapshot())
    ensures RunAll(conn.Snapshot(), Todo(conn, readable[1..])) == old(RunAll(conn.Snapshot(), Todo(conn, readable)))
    ensures Received(Todo(conn, readable[1..])) <= conn.socket.incoming
    ensures conn.socket.incoming[|Received(Todo(conn, readable[1..]))|..]
         == old(conn.socket.incoming[|Received(Todo(conn, readable))|..])
    ensures old(Served(conn)) ==> Served(conn)
    ensures conn.input.data == old(conn.input.data) || fresh(conn.input.data)
    ensures conn.output.data == old(conn.output.data) || fresh(conn.output.data)
    ensures conn.loop.channelMap.entities == old(conn.loop.channelMap.entities) || fresh(conn.loop.channelMap.entities)
    ensures conn.loop.nodes == old(conn.loop.nodes) || conn.loop.nodes == []
  {
    ghost var c, r, todo, stream := conn.Snapshot(), conn.loop.Tables(), Todo(conn, readable), conn.socket.incoming;
    ghost var e := HandleEvent(conn, first);
    ghost var later := Todo(conn, readable[1..]);
    SessionReads(conn.input.Indices(), conn.socket.incoming, conn.socket.pace, readable[1..]);
    FirstOf(todo, e, later, stream);
    StepSound(c, e);
    if old(Served(conn)) {
      ServedStays(conn, c, r, e);
    }
  }

  /** The callbacks of a session, one after the other. */
  method HandleEvents(conn: Connection, readable: seq<bool>)
    requires conn.Valid() && conn.Attached() && conn.input.Contents() == [] && Sound(conn.Snapshot())
    requires Received(Todo(conn, readable)) <= conn.socket.incoming
    modifies conn`posted, conn`accepted, conn`lost, conn.channel`events, conn.socket
    modifies conn.input, conn.input.data, conn.output, conn.output.data
    modifies conn.loop`pendingHead, conn.loop`pendingTail, conn.loop`isHandlingPendingChannel, conn.loop`nodes
    modifies conn.loop.pendingTail, conn.loop.channelMap`entities, conn.loop.channelMap`length
    modifies conn.loop.channelMap.entities, conn.loop.eventSet
    ensures conn.Valid() && conn.Attached() && Sound(conn.Snapshot())
    ensures conn.Snapshot() == RunAll(old(conn.Snapshot()), old(Todo(conn, readable)))
    ensures conn.socket.incoming == old(conn.socket.incoming)[|Received(old(Todo(conn, readable)))|..]
    ensures old(Served(conn)) ==> Served(conn)
  {
    ghost var goal := RunAll(conn.Snapshot(), Todo(conn, readable));
    ghost var rest := conn.socket.incoming[|Received(Todo(conn, readable))|..];
    assert readable[0..] == readable;
    for i := 0 to |readable|
      invariant conn.Valid() && conn.Attached() && conn.input.Contents() == [] && Sound(conn.Snapshot())
      invariant RunAll(conn.Snapshot(), Todo(conn, readable[i..])) == goal
      invariant Received(Todo(conn, readable[i..])) <= conn.socket.incoming
      invariant conn.socket.incoming[|Received(Todo(conn, readable[i..]))|..] == rest
      invariant old(Served(conn)) ==> Served(conn)
      invariant conn.input.data == old(conn.input.data) || fresh(conn.input.data)
      invariant conn.output.data == old(conn.output.data) || fresh(conn.output.data)
      invariant conn.loop.channelMap.entities == old(conn.loop.channelMap.entities) || fresh(conn.loop.channelMap.entities)
      invariant conn.loop.nodes == old(conn.loop.nodes) || conn.loop.nodes == []
    {
      assert readable[i..][1..] == readable[i + 1..];
      EchoEvent(conn, readable[i..], readable[i]);
    }
    assert readable[|readable|..] == [];
  }

  /**
   The end-to-end echo on the heap: for any ready events in any order, and however the kernel cuts
   reads and writes, the connection goes exactly through the inputs that events, stream and script
   bring. Unless the kernel reports a broken pipe or a reset, the bytes taken, followed by those in
   the output buffer, are the rotated image of the part of the stream that was read. If the loop
   polled the connection at first, it does so until the connection is closed.
   */
  method EchoSession(conn: Connection, readable: seq<bool>)
    requires conn.Valid() && conn.Attached() && conn.input.Contents() == [] && Untouched(conn.Snapshot())
    modifies conn`posted, conn`accepted, conn`lost, conn.channel`events, conn.socket
    modifies conn.input, conn.input.data, conn.output, conn.output.data
    modifies conn.loop`pendingHead, conn.loop`pendingTail, conn.loop`isHandlingPendingChannel, conn.loop`nodes
    modifies conn.loop.pendingTail, conn.loop.channelMap`entities, conn.loop.channelMap`length
    modifies conn.loop.channelMap.entities, conn.loop.eventSet
    ensures conn.Valid() && conn.Attached()
    ensures conn.Snapshot() == RunAll(old(conn.Snapshot()), old(Todo(conn, readable)))
    ensures old(conn.socket.incoming) == Received(old(Todo(conn, readable))) + conn.socket.incoming
    ensures Steady(old(conn.socket.verdicts)) || !conn.lost ==>
              conn.socket.taken + conn.output.Contents() == Rot13All(Received(old(Todo(conn, readable))))
    ensures HasWrite(conn.channel.events) <==> conn.output.Contents() != []
    ensures old(Served(conn)) ==> Served(conn)
  {
    ghost var inputs, all := Todo(conn, readable), conn.socket.incoming;
    SessionReads(conn.input.Indices(), conn.socket.incoming, conn.socket.pace, readable);
    EchoConserved(conn.Snapshot(), inputs);
    HandleEvents(conn, readable);
    assert all == Received(inputs) + all[|Received(inputs)|..];
  }

  lemma FirstServed(conn: Connection, r: Registry, list: seq<Node>)
    requires conn.posted == [ADD] && conn.LoopTold(r, list, []) && conn.channel.events == EVENT_READ
    requires var due := ApplyAll(r, Requests(list));
             Agreement(due) && !Registered(due, conn.channel.fd) && HasFree(due.slots) && conn.channel.fd >= 0
    ensures Served(conn)
  {
    LoopMovesSo(conn, r, list, []);
    NewIsPolled(ApplyAll(r, Requests(list)), conn.channel);
  }

  /** The registration of a connection that was just created. */
  method RegisterNew(conn: Connection)
    requires conn.Valid() && conn.posted == [] && conn.channel.events == EVENT_READ
    requires conn.loop.Valid() && !conn.loop.isHandlingPendingChannel
    requires var due := ApplyAll(conn.loop.Tables(), Requests(conn.loop.nodes));
             Agreement(due) && conn.channel.fd >= 0 && !Registered(due, conn.channel.fd) && HasFree(due.slots)
    modifies conn`posted
    modifies conn.loop`pendingHead, conn.loop`pendingTail, conn.loop`isHandlingPendingChannel, conn.loop`nodes
    modifies conn.loop.pendingTail, conn.loop.channelMap`entities, conn.loop.channelMap`length
    modifies conn.loop.channelMap.entities, conn.loop.eventSet
    ensures conn.Valid() && conn.Attached() && Served(conn)
    ensures conn.Snapshot() == old(conn.Snapshot()).(posted := [ADD]) && conn.input.Contents() == old(conn.input.Contents())
    ensures conn.loop.channelMap.entities == old(conn.loop.channelMap.entities) || fresh(conn.loop.channelMap.entities)
  {
    ghost var r, list, qs := conn.loop.Tables(), conn.loop.nodes, Requests(conn.loop.nodes);
    MasksDoNotMatter(r, r, Requests(list), Unmasked(list));
    conn.Register();
    assert Requests(list) == qs;
    FirstServed(conn, r, list);
  }

  /** A connection is created and registered; its fd is new and finds a slot. */
  method Open(fd: int, loop: EventLoop, socket: Socket) returns (conn: Connection)
    requires loop.Valid() && !loop.isHandlingPendingChannel && socket.taken == []
    requires var due := ApplyAll(loop.Tables(), Requests(loop.nodes));
             Agreement(due) && fd >= 0 && !Registered(due, fd) && HasFree(due.slots)
    modifies loop`pendingHead, loop`pendingTail, loop`isHandlingPendingChannel, loop`nodes, loop.pendingTail
    modifies loop.channelMap`entities, loop.channelMap`length, loop.channelMap.entities, loop.eventSet
    ensures fresh(conn) && fresh(conn.channel) && fresh(conn.input) && fresh(conn.output)
    ensures fresh(conn.input.data) && fresh(conn.output.data)
    ensures conn.socket == socket && conn.loop == loop && conn.channel.fd == fd
    ensures conn.channel.onReadable && conn.channel.onWriteable
    ensures socket.incoming == old(socket.incoming) && socket.pace == old(socket.pace)
    ensures conn.Valid() && conn.Attached() && conn.input.Contents() == [] && Untouched(conn.Snapshot()) && Served(conn)
    ensures conn.input.Indices() == EMPTY_LAYOUT
    ensures loop.channelMap.entities == old(loop.channelMap.entities) || fresh(loop.channelMap.entities)
  {
    ghost var list, qs := loop.nodes, Requests(loop.nodes);
    conn := new Connection(fd, loop, socket);
    assert Requests(list) == qs;
    RegisterNew(conn);
  }

  /**
   The life of a connection: it is opened and then served. Until it is closed the loop polls it for
   what it wants, and for writing exactly while bytes wait.
   */
  method ServeConnection(fd: int, loop: EventLoop, socket: Socket, readable: seq<bool>) returns (conn: Connection)
    requires loop.Valid() && !loop.isHandlingPendingChannel && socket.taken == []
    requires var due := ApplyAll(loop.Tables(), Requests(loop.nodes));
             Agreement(due) && fd >= 0 && !Registered(due, fd) && HasFree(due.slots)
    modifies socket, loop`pendingHead, loop`pendingTail, loop`isHandlingPendingChannel, loop`nodes, loop.pendingTail
    modifies loop.channelMap`entities, loop.channelMap`length, loop.channelMap.entities, loop.eventSet
    ensures conn.Valid() && conn.socket == socket && conn.loop == loop && conn.channel.fd == fd
    ensures conn.channel.onReadable && conn.channel.onWriteable && Served(conn)
    ensures var inputs := SessionInputs(EMPTY_LAYOUT, old(socket.incoming), old(socket.pace), readable);
            old(socket.incoming) == Received(inputs) + socket.incoming &&
            (Steady(old(socket.verdicts)) || !conn.lost ==>
              socket.taken + conn.output.Contents() == Rot13All(Received(inputs)))
    ensures DELETE in conn.posted ||
            (PolledFor(loop.Tables(), conn.channel, conn.channel.events) &&
             (View(loop.Tables())[fd].interest & POLLWRNORM != 0 <==> conn.output.Contents() != []))
  {
    conn := Open(fd, loop, socket);
    EchoSession(conn, readable);
    InterestExact(conn.channel.events);
  }

  /**
   What poll reports for an open connection reaches its handlers: in a pass that stays in range and
   whose callbacks let the fd be, `handle_read` and `handle_write` are called, in this order, exactly
   for the bits poll has set in the connection's slot.
   */
  lemma ReportsReachHandlers(conn: Connection, revents: seq<bv16>)
    requires conn.Valid() && conn.Attached() && Served(conn) && DELETE !in conn.posted
    requires conn.channel.onReadable && conn.channel.onWriteable
    requires |revents| == INIT_POLL_SIZE && LetsBe(conn.loop.script, conn.channel.fd)
    requires conn.loop.eventSet.Length == INIT_POLL_SIZE
    requires !ScanAll(AfterPoll(conn.loop.CurrentPass(), revents), 0).reg.broken
    ensures var s, c := conn.loop.CurrentPass(), conn.channel;
            var k := SlotFrom(s.reg.slots, c.fd, 0);
            var t := ScanAll(AfterPoll(s, revents), 0);
            k < |revents| && s.calls <= t.calls &&
            (revents[k] & SIGN_BIT == 0 ==>
              CallsTo(t.calls[|s.calls|..], c) ==
              (if revents[k] & POLLRDNORM != 0 then [Call(c, Readable)] else []) +
              (if revents[k] & POLLWRNORM != 0 then [Call(c, Writeable)] else []))
  {
    ReportsAreAnswered(conn.loop.CurrentPass(), revents, conn.channel);
  }
}
