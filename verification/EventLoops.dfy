/**
 event_loop.c and event_dispatcher_poll.c on the heap: the pending list, its drain into the
 two tables, and the dispatch of poll results. Each method is tied to the value functions of
 Registries and Passes.
 */
module EventLoops {
  import opened Prelude
  import opened Channels
  import opened Registries
  import opened Passes

  class Node {
    const kind: Kind
    const channel: Channel
    var next: Node?

    constructor (kind: Kind, channel: Channel)
      ensures this.kind == kind && this.channel == channel && next == null
    {
      this.kind, this.channel, this.next := kind, channel, null;
    }
  }

  /** The operations queued in a list, oldest first. */
  ghost function Ops(nodes: seq<Node>): (ops: seq<Op>)
    ensures |ops| == |nodes| && forall i :: 0 <= i < |nodes| ==> ops[i] == Op(nodes[i].kind, nodes[i].channel)
  {
    seq(|nodes|, i requires 0 <= i < |nodes| => Op(nodes[i].kind, nodes[i].channel))
  }

  ghost function Touched(nodes: seq<Node>): set<Channel> {
    set i | 0 <= i < |nodes| :: nodes[i].channel
  }

  /** The queued operations with the masks their channels have now. */
  ghost function Requests(nodes: seq<Node>): (qs: seq<Request>)
    reads Touched(nodes)
    ensures |qs| == |nodes|
    ensures forall i :: 0 <= i < |nodes| ==>
      qs[i] == Request(Op(nodes[i].kind, nodes[i].channel), nodes[i].channel.events)
  {
    if nodes == [] then []
    else
      assert forall c :: c in Touched(nodes[..|nodes| - 1]) ==> c in Touched(nodes);
      var last := nodes[|nodes| - 1];
      assert last.channel in Touched(nodes);
      Requests(nodes[..|nodes| - 1]) + [Request(Op(last.kind, last.channel), last.channel.events)]
  }

  /** The queued operations with no mask: enough to say which accesses stay in range. */
  ghost function Unmasked(nodes: seq<Node>): (qs: seq<Request>)
    ensures |qs| == |nodes|
    ensures forall i :: 0 <= i < |nodes| ==> qs[i] == Request(Op(nodes[i].kind, nodes[i].channel), 0)
  {
    seq(|nodes|, i requires 0 <= i < |nodes| => Request(Op(nodes[i].kind, nodes[i].channel), 0))
  }

  /** Each node points to the next, the last one nowhere. */
  ghost predicate Linked(list: seq<Node>)
    reads list
  {
    && (forall i, j :: 0 <= i < j < |list| ==> list[i] != list[j])
    && (forall i {:trigger list[i].next} :: 0 <= i < |list| ==> list[i].next == NodeAt(list, i + 1))
  }

  ghost function NodeAt(list: seq<Node>, i: nat): Node? {
    if i < |list| then list[i] else null
  }

  class EventLoop {
    const channelMap: ChannelMap
    const eventSet: array<PollFd>
    var pendingHead: Node?
    var pendingTail: Node?
    var isHandlingPendingChannel: bool

    /** The nodes of the pending list, from head to tail. */
    ghost var nodes: seq<Node>

    /** The callbacks made, and what the coming ones will post (see Passes). */
    var calls: seq<Call>
    var script: seq<seq<Request>>

    ghost predicate TablesValid()
      reads this, channelMap
    {
      channelMap.Valid() && eventSet.Length == INIT_POLL_SIZE
    }

    /** Head, tail and links spell out `nodes`. */
    ghost predicate ListValid()
      reads this, nodes
    {
      && Linked(nodes)
      && pendingHead == (if nodes == [] then null else nodes[0])
      && pendingTail == (if nodes == [] then null else nodes[|nodes| - 1])
    }

    ghost predicate Valid()
      reads this, channelMap, nodes
    {
      TablesValid() && ListValid()
    }

    ghost function Tables(): Registry
      reads this, channelMap, channelMap.entities, eventSet
    {
      Registry(channelMap.entities[..], eventSet[..], false)
    }

    constructor ()
      ensures Valid() && fresh(channelMap) && fresh(channelMap.entities) && fresh(eventSet)
      ensures Tables() == EmptyRegistry() && nodes == [] && calls == [] && !isHandlingPendingChannel
    {
      var map_ := new ChannelMap();
      var slots := new PollFd[INIT_POLL_SIZE](_ => PollFd(-1, 0, 0));
      channelMap, eventSet := map_, slots;
      pendingHead, pendingTail, isHandlingPendingChannel := null, null, false;
      nodes, calls, script := [], [], [];
      new;
      assert channelMap.entities[..] == [];
      assert eventSet[..] == EmptyRegistry().slots;
    }

    // ---------- the poll table ----------

    method PollAdd(channel: Channel)
      requires TablesValid()
      modifies eventSet
      ensures eventSet[..] == Added(old(eventSet[..]), channel.fd, Interest(channel.events))
    {
      var events: bv16 := 0;
      if HasRead(channel.events) {
        events := events | POLLRDNORM;
      }
      if HasWrite(channel.events) {
        events := events | POLLWRNORM;
      }
      var i := 0;
      while i < INIT_POLL_SIZE
        invariant 0 <= i <= INIT_POLL_SIZE && eventSet[..] == old(eventSet[..])
        invariant FreeFrom(eventSet[..], 0) == FreeFrom(eventSet[..], i)
      {
        if eventSet[i].fd < 0 {
          eventSet[i] := eventSet[i].(fd := channel.fd, events := events);
          break;
        }
        i := i + 1;
      }
    }

    method PollDelete(channel: Channel)
      requires TablesValid()
      modifies eventSet
      ensures eventSet[..] == Deleted(old(eventSet[..]), channel.fd)
    {
      var i := 0;
      while i < INIT_POLL_SIZE
        invariant 0 <= i <= INIT_POLL_SIZE && eventSet[..] == old(eventSet[..])
        invariant SlotFrom(eventSet[..], channel.fd, 0) == SlotFrom(eventSet[..], channel.fd, i)
      {
        if eventSet[i].fd == channel.fd {
          eventSet[i] := eventSet[i].(fd := -1);
          break;
        }
        i := i + 1;
      }
    }

    method PollUpdate(channel: Channel)
      requires TablesValid()
      modifies eventSet
      ensures eventSet[..] == Updated(old(eventSet[..]), channel.fd, Interest(channel.events))
    {
      var events: bv16 := 0;
      if HasRead(channel.events) {
        events := events | POLLRDNORM;
      }
      if HasWrite(channel.events) {
        events := events | POLLWRNORM;
      }
      var i := 0;
      while i < INIT_POLL_SIZE
        invariant 0 <= i <= INIT_POLL_SIZE && eventSet[..] == old(eventSet[..])
        invariant SlotFrom(eventSet[..], channel.fd, 0) == SlotFrom(eventSet[..], channel.fd, i)
      {
        if eventSet[i].fd == channel.fd {
          eventSet[i] := eventSet[i].(events := events);
          break;
        }
        i := i + 1;
      }
    }

    // ---------- the pending operations ----------

    method HandlePendingAdd(channel: Channel) returns (result: int)
      requires TablesValid()
      modifies channelMap`entities, channelMap`length, channelMap.entities, eventSet
      ensures TablesValid() && (channelMap.entities == old(channelMap.entities) || fresh(channelMap.entities))
      ensures Tables() == HandleAdd(old(Tables()), channel, channel.events)
      ensures result == if channel.fd < 0 then 0 else 1
    {
      var fd := channel.fd;
      if fd < 0 {
        return 0;
      }
      ghost var before := channelMap.entities[..];
      if fd >= channelMap.length {
        channelMap.MakeSpace(fd);
      }
      assert channelMap.entities[..] == Grown(before, fd) by {
        assert forall i :: 0 <= i < |before| ==> channelMap.entities[i] == channelMap.entities[..|before|][i];
      }
      if channelMap.entities[fd] == null {
        channelMap.entities[fd] := channel;
        PollAdd(channel);
      }
      return 1;
    }

    method HandlePendingRemove(channel: Channel) returns (result: int)
      requires TablesValid() && channel.fd != channelMap.length
      modifies channelMap.entities, eventSet
      ensures TablesValid() && channelMap.entities == old(channelMap.entities)
      ensures Tables() == HandleRemove(old(Tables()), channel)
      ensures result == if channel.fd < 0 then 0 else if old(Registered(Tables(), channel.fd)) then 1 else -1
    {
      var fd := channel.fd;
      if fd < 0 {
        return 0;
      }
      if fd > channelMap.length {
        return -1;
      }
      var addedChannel := channelMap.entities[fd];
      if addedChannel == null {
        return -1;
      }
      PollDelete(addedChannel);
      channelMap.entities[fd] := null;
      return 1;
    }

    method HandlePendingUpdate(channel: Channel) returns (result: int)
      requires TablesValid() && channel.fd != channelMap.length
      modifies eventSet
      ensures TablesValid() && Tables() == HandleUpdate(old(Tables()), channel, channel.events)
      ensures result == if channel.fd < 0 then 0 else if old(Registered(Tables(), channel.fd)) then 1 else -1
    {
      var fd := channel.fd;
      if fd < 0 {
        return 0;
      }
      if fd > channelMap.length {
        return -1;
      }
      if channelMap.entities[fd] == null {
        return -1;
      }
      PollUpdate(channel);
      return 1;
    }

    method EnqueueNoLock(channel: Channel, kind: Kind)
      requires ListValid()
      modifies this`pendingHead, this`pendingTail, this`nodes, pendingTail
      ensures ListValid() && nodes != [] && nodes[..|nodes| - 1] == old(nodes) && fresh(nodes[|nodes| - 1])
      ensures Ops(nodes) == Ops(old(nodes)) + [Op(kind, channel)]
    {
      var node := new Node(kind, channel);
      if pendingHead == null {
        pendingHead, pendingTail := node, node;
      } else {
        pendingTail.next := node;
        pendingTail := node;
      }
      nodes := nodes + [node];
    }

    /** The body of the drain loop: dispatch on the operation type. */
    method HandlePendingNode(node: Node)
      requires TablesValid()
      requires !Apply(Tables(), Request(Op(node.kind, node.channel), node.channel.events)).broken
      modifies channelMap`entities, channelMap`length, channelMap.entities, eventSet
      ensures TablesValid()
      ensures channelMap.entities == old(channelMap.entities) || fresh(channelMap.entities)
      ensures Tables() == Apply(old(Tables()), Request(Op(node.kind, node.channel), node.channel.events))
    {
      var pendingChannel := node.channel;
      match node.kind {
        case ADD => var _ := HandlePendingAdd(pendingChannel);
        case DELETE => var _ := HandlePendingRemove(pendingChannel);
        case UPDATE => var _ := HandlePendingUpdate(pendingChannel);
      }
    }

    /** The loop over the list. */
    method DrainList(head: Node?, ghost list: seq<Node>, ghost qs: seq<Request>)
      requires TablesValid() && Linked(list) && head == NodeAt(list, 0) && |qs| == |list|
      requires forall i :: 0 <= i < |list| ==> qs[i] == Request(Op(list[i].kind, list[i].channel), list[i].channel.events)
      requires !ApplyAll(Tables(), qs).broken
      modifies channelMap`entities, channelMap`length, channelMap.entities, eventSet
      ensures TablesValid()
      ensures channelMap.entities == old(channelMap.entities) || fresh(channelMap.entities)
      ensures Tables() == ApplyAll(old(Tables()), qs)
    {
      ghost var i, start := 0, Tables();
      var node := head;
      assert qs[0..] == qs;
      while node != null
        invariant 0 <= i <= |list| && node == NodeAt(list, i)
        invariant TablesValid()
        invariant channelMap.entities == old(channelMap.entities) || fresh(channelMap.entities)
        invariant ApplyAll(Tables(), qs[i..]) == ApplyAll(start, qs)
        decreases |list| - i
      {
        DrainStep(Tables(), qs, i);
        HandlePendingNode(node);
        node := node.next;
        i := i + 1;
      }
      assert qs[i..] == [];
    }

    /** Carries out the whole list and empties it. */
    method HandlePendingChannel()
      requires Valid() && !isHandlingPendingChannel
      requires !ApplyAll(Tables(), Requests(nodes)).broken
      modifies this`pendingHead, this`pendingTail, this`isHandlingPendingChannel, this`nodes
      modifies channelMap`entities, channelMap`length, channelMap.entities, eventSet
      ensures Valid() && !isHandlingPendingChannel && nodes == []
      ensures channelMap.entities == old(channelMap.entities) || fresh(channelMap.entities)
      ensures Tables() == ApplyAll(old(Tables()), old(Requests(nodes)))
    {
      ghost var qs := Requests(nodes);
      isHandlingPendingChannel := true;
      DrainList(pendingHead, nodes, qs);
      pendingHead, pendingTail := null, null;
      nodes := [];
      isHandlingPendingChannel := false;
    }

    /** `event_loop_do_channel_event` on the owner's thread: enqueue, then drain. */
    method DoChannelEvent(channel: Channel, kind: Kind)
      requires Valid() && !isHandlingPendingChannel
      requires !ApplyAll(Tables(), Requests(nodes) + [Request(Op(kind, channel), channel.events)]).broken
      modifies this`pendingHead, this`pendingTail, this`isHandlingPendingChannel, this`nodes, pendingTail
      modifies channelMap`entities, channelMap`length, channelMap.entities, eventSet
      ensures Valid() && !isHandlingPendingChannel && nodes == []
      ensures channelMap.entities == old(channelMap.entities) || fresh(channelMap.entities)
      ensures Tables() == ApplyAll(old(Tables()), old(Requests(nodes)) + [Request(Op(kind, channel), old(channel.events))])
    {
      ghost var qs := Requests(nodes) + [Request(Op(kind, channel), channel.events)];
      EnqueueNoLock(channel, kind);
      assert Requests(nodes) == qs by {
        assert forall i :: 0 <= i < |nodes| ==> Op(nodes[i].kind, nodes[i].channel) == Ops(nodes)[i];
      }
      HandlePendingChannel();
    }

    // ---------- posting on the owner's thread ----------

    /** Between two calls; once the queued operations are done, the channel's fd is not the array length. */
    ghost predicate CanPost(channel: Channel)
      reads this, channelMap, channelMap.entities, eventSet, nodes
    {
      var r := ApplyAll(Tables(), Unmasked(nodes));
      Valid() && !isHandlingPendingChannel && !r.broken && channel.fd != |r.entities|
    }

    /** Since it had the tables `r` and the list `list`, the loop carried out the list and then `q`. */
    ghost predicate Carried(r: Registry, list: seq<Node>, q: Request)
      reads this, channelMap, channelMap.entities, eventSet, Touched(list)
    {
      nodes == [] && Tables() == ApplyAll(r, Requests(list) + [q])
    }

    /** `event_loop_add_channel_event` */
    method AddChannelEvent(channel: Channel)
      requires Valid() && !isHandlingPendingChannel && !ApplyAll(Tables(), Unmasked(nodes)).broken
      modifies this`pendingHead, this`pendingTail, this`isHandlingPendingChannel, this`nodes, pendingTail
      modifies channelMap`entities, channelMap`length, channelMap.entities, eventSet
      ensures CanPost(channel)
      ensures channelMap.entities == old(channelMap.entities) || fresh(channelMap.entities)
      ensures Carried(old(Tables()), old(nodes), Request(Op(ADD, channel), channel.events))
    {
      ghost var q := Request(Op(ADD, channel), channel.events);
      MasksDoNotMatter(Tables(), Tables(), Unmasked(nodes), Requests(nodes));
      ApplyAllSnoc(Tables(), Requests(nodes), q);
      EntitiesGrow(ApplyAll(Tables(), Requests(nodes)), q);
      ghost var list, qs := nodes, Requests(nodes);
      DoChannelEvent(channel, ADD);
      assert Requests(list) == qs;
    }

    /** `event_loop_update_channel_event` */
    method UpdateChannelEvent(channel: Channel)
      requires CanPost(channel)
      modifies this`pendingHead, this`pendingTail, this`isHandlingPendingChannel, this`nodes, pendingTail
      modifies channelMap`entities, channelMap`length, channelMap.entities, eventSet
      ensures CanPost(channel)
      ensures channelMap.entities == old(channelMap.entities) || fresh(channelMap.entities)
      ensures Carried(old(Tables()), old(nodes), Request(Op(UPDATE, channel), channel.events))
    {
      MasksDoNotMatter(Tables(), Tables(), Unmasked(nodes), Requests(nodes));
      PostSafe(Tables(), Requests(nodes), Request(Op(UPDATE, channel), channel.events));
      ghost var list, qs := nodes, Requests(nodes);
      DoChannelEvent(channel, UPDATE);
      assert Requests(list) == qs;
    }

    /** `event_loop_remove_channel_event` */
    method RemoveChannelEvent(channel: Channel)
      requires CanPost(channel)
      modifies this`pendingHead, this`pendingTail, this`isHandlingPendingChannel, this`nodes, pendingTail
      modifies channelMap`entities, channelMap`length, channelMap.entities, eventSet
      ensures CanPost(channel)
      ensures channelMap.entities == old(channelMap.entities) || fresh(channelMap.entities)
      ensures Carried(old(Tables()), old(nodes), Request(Op(DELETE, channel), channel.events))
    {
      MasksDoNotMatter(Tables(), Tables(), Unmasked(nodes), Requests(nodes));
      PostSafe(Tables(), Requests(nodes), Request(Op(DELETE, channel), channel.events));
      ghost var list, qs := nodes, Requests(nodes);
      DoChannelEvent(channel, DELETE);
      assert Requests(list) == qs;
    }

    /** `channel_event_enable_write`, with the update going to the channel's loop. */
    method EnableWrite(channel: Channel)
      requires CanPost(channel)
      modifies channel`events
      modifies this`pendingHead, this`pendingTail, this`isHandlingPendingChannel, this`nodes, pendingTail
      modifies channelMap`entities, channelMap`length, channelMap.entities, eventSet
      ensures CanPost(channel) && channel.events == WithWrite(old(channel.events))
      ensures channelMap.entities == old(channelMap.entities) || fresh(channelMap.entities)
      ensures Carried(old(Tables()), old(nodes), Request(Op(UPDATE, channel), channel.events))
    {
      channel.events := WithWrite(channel.events);
      UpdateChannelEvent(channel);
    }

    /** `channel_event_disable_write` */
    method DisableWrite(channel: Channel)
      requires CanPost(channel)
      modifies channel`events
      modifies this`pendingHead, this`pendingTail, this`isHandlingPendingChannel, this`nodes, pendingTail
      modifies channelMap`entities, channelMap`length, channelMap.entities, eventSet
      ensures CanPost(channel) && channel.events == WithoutWrite(old(channel.events))
      ensures channelMap.entities == old(channelMap.entities) || fresh(channelMap.entities)
      ensures Carried(old(Tables()), old(nodes), Request(Op(UPDATE, channel), channel.events))
    {
      channel.events := WithoutWrite(channel.events);
      UpdateChannelEvent(channel);
    }

    // ---------- dispatch ----------

    ghost function CurrentPass(): Pass
      reads this, channelMap, channelMap.entities, eventSet
    {
      Pass(Tables(), calls, script)
    }

    ghost predicate Idle()
      reads this, channelMap, nodes
    {
      Valid() && nodes == [] && !isHandlingPendingChannel
    }

    /** One callback: each post sets its channel's mask and goes through the queue. */
    method Callback(channel: Channel, e: Event)
      requires Idle() && !Fire(CurrentPass(), channel, e).reg.broken
      modifies this, Scripted(script)`events
      modifies channelMap`entities, channelMap`length, channelMap.entities, eventSet
      ensures Idle() && CurrentPass() == Fire(old(CurrentPass()), channel, e)
      ensures channelMap.entities == old(channelMap.entities) || fresh(channelMap.entities)
    {
      ghost var start := Tables();
      var posts := if script == [] then [] else script[0];
      calls := calls + [Call(channel, e)];
      script := Rest(script);
      assert posts[0..] == posts;
      for i := 0 to |posts|
        invariant Idle() && calls == old(calls) + [Call(channel, e)] && script == Rest(old(script))
        invariant channelMap.entities == old(channelMap.entities) || fresh(channelMap.entities)
        invariant ApplyAll(Tables(), posts[i..]) == ApplyAll(start, posts)
      {
        var op, mask := posts[i].op, posts[i].mask;
        DrainStep(Tables(), posts, i);
        SingleRequest(Tables(), Request(op, mask));
        assert op.channel in Scripted(old(script));
        op.channel.events := mask;
        DoChannelEvent(op.channel, op.kind);
      }
      assert posts[|posts|..] == [];
    }

    /** `event_loop_active` for one event. */
    method ActiveEvent(fd: int, e: Event) returns (result: int)
      requires Idle() && !Active(CurrentPass(), fd, e).reg.broken
      modifies this, Scripted(script)`events
      modifies channelMap`entities, channelMap`length, channelMap.entities, eventSet
      ensures Idle() && CurrentPass() == Active(old(CurrentPass()), fd, e)
      ensures result == if fd < 0 then 0 else if old(Registered(Tables(), fd)) then 1 else -1
      ensures channelMap.entities == old(channelMap.entities) || fresh(channelMap.entities)
      ensures Scripted(script) <= old(Scripted(script))
    {
      if fd < 0 {
        return 0;
      }
      if fd > channelMap.length {
        return -1;
      }
      var registeredChannel := channelMap.entities[fd];
      if registeredChannel == null {
        return -1;
      }
      if e.Readable? {
        if registeredChannel.onReadable {
          Callback(registeredChannel, Readable);
        }
      } else {
        if registeredChannel.onWriteable {
          Callback(registeredChannel, Writeable);
        }
      }
      return 1;
    }

    /** poll(2): writes `revents` and counts the slots that report something. */
    method Poll(revents: seq<bv16>) returns (readyNumber: nat)
      requires TablesValid() && |revents| == INIT_POLL_SIZE
      modifies eventSet
      ensures eventSet[..] == Polled(old(eventSet[..]), revents)
      ensures readyNumber == CountReady(eventSet[..], 0)
    {
      forall i | 0 <= i < INIT_POLL_SIZE {
        eventSet[i] := eventSet[i].(revents := if eventSet[i].fd < 0 then 0 else revents[i]);
      }
      readyNumber := 0;
      for i := 0 to INIT_POLL_SIZE
        invariant readyNumber + CountReady(eventSet[..], i) == CountReady(eventSet[..], 0)
      {
        if eventSet[i].revents != 0 {
          readyNumber := readyNumber + 1;
        }
      }
    }

    /** The early-exit loop does what a scan of the whole table would do. */
    method PollDispatch(revents: seq<bv16>) returns (result: int)
      requires Idle() && |revents| == INIT_POLL_SIZE
      requires !ScanAll(AfterPoll(CurrentPass(), revents), 0).reg.broken
      modifies this, Scripted(script)`events
      modifies channelMap`entities, channelMap`length, channelMap.entities, eventSet
      ensures Idle() && CurrentPass() == ScanAll(AfterPoll(old(CurrentPass()), revents), 0)
      ensures Follows(AfterPoll(old(CurrentPass()), revents), CurrentPass())
      ensures result == if CountReady(Polled(old(eventSet[..]), revents), 0) == 0 then 0 else 1
    {
      CallsAreLive(AfterPoll(CurrentPass(), revents));
      var readyNumber := Poll(revents);
      if readyNumber == 0 {
        ScanIdle(CurrentPass(), 0);
        return 0;
      }
      DispatchSlots(readyNumber);
      return 1;
    }

    /** The loop over the slots, with the countdown and the early exit. */
    method DispatchSlots(ready: nat)
      requires Idle() && CountReady(eventSet[..], 0) <= ready
      requires !ScanAll(CurrentPass(), 0).reg.broken
      modifies this, Scripted(script)`events
      modifies channelMap`entities, channelMap`length, channelMap.entities, eventSet
      ensures Idle() && CurrentPass() == ScanAll(old(CurrentPass()), 0)
    {
      ghost var whole := ScanAll(CurrentPass(), 0);
      var readyNumber := ready;
      var i := 0;
      while i < INIT_POLL_SIZE
        invariant 0 <= i <= INIT_POLL_SIZE && Idle()
        invariant channelMap.entities == old(channelMap.entities) || fresh(channelMap.entities)
        invariant Scripted(script) <= old(Scripted(script))
        invariant ScanAll(CurrentPass(), i) == whole
        invariant CountReady(eventSet[..], i) <= readyNumber
      {
        ghost var here := CurrentPass();
        CountdownCovers(here, i, readyNumber);
        ScanBrokenStays(Visit(here, i), i + 1);
        var pollFd := eventSet[i];
        var socketFd := pollFd.fd;
        if socketFd < 0 {
          i := i + 1;
          continue;
        }
        if Positive(pollFd.revents) {
          DispatchSlot(pollFd, i);
          readyNumber := readyNumber - 1;
          if readyNumber <= 0 {
            ScanIdle(CurrentPass(), i + 1);
            break;
          }
        }
        i := i + 1;
      }
    }

    /** The two activations for one reporting slot. */
    method DispatchSlot(pollFd: PollFd, ghost i: nat)
      requires Idle() && i < INIT_POLL_SIZE && eventSet[i] == pollFd && pollFd.fd >= 0 && Positive(pollFd.revents)
      requires !Visit(CurrentPass(), i).reg.broken
      modifies this, Scripted(script)`events
      modifies channelMap`entities, channelMap`length, channelMap.entities, eventSet
      ensures Idle() && CurrentPass() == Visit(old(CurrentPass()), i)
      ensures channelMap.entities == old(channelMap.entities) || fresh(channelMap.entities)
      ensures Scripted(script) <= old(Scripted(script))
    {
      if pollFd.revents & POLLRDNORM != 0 {
        var _ := ActiveEvent(pollFd.fd, Readable);
      }
      if pollFd.revents & POLLWRNORM != 0 {
        var _ := ActiveEvent(pollFd.fd, Writeable);
      }
    }
  }

  /** The channels a script touches. */
  ghost function Scripted(script: seq<seq<Request>>): set<Channel> {
    set i, j | 0 <= i < |script| && 0 <= j < |script[i]| :: script[i][j].op.channel
  }

  lemma SingleRequest(r: Registry, q: Request)
    ensures ApplyAll(r, [] + [q]) == ApplyAll(r, [q]) == Apply(r, q)
  {
    assert [q][1..] == [] && [] + [q] == [q];
  }

  lemma DrainStep(r: Registry, qs: seq<Request>, i: nat)
    requires i < |qs|
    ensures ApplyAll(r, qs[i..]) == ApplyAll(Apply(r, qs[i]), qs[i + 1..])
    ensures Apply(r, qs[i]).broken ==> ApplyAll(r, qs[i..]).broken
  {
    assert qs[i..][0] == qs[i] && qs[i..][1..] == qs[i + 1..];
    BrokenStays(Apply(r, qs[i]), qs[i + 1..]);
  }

  /** Which accesses stay in range depends on the operations only, not on the masks. */
  lemma {:induction false} MasksDoNotMatter(r: Registry, r': Registry, qs: seq<Request>, qs': seq<Request>)
    requires r.entities == r'.entities && r.broken == r'.broken
    requires |qs| == |qs'| && forall i :: 0 <= i < |qs| ==> qs[i].op == qs'[i].op
    ensures ApplyAll(r, qs).entities == ApplyAll(r', qs').entities
    ensures ApplyAll(r, qs).broken == ApplyAll(r', qs').broken
    decreases |qs|
  {
    if qs != [] {
      MasksDoNotMatter(Apply(r, qs[0]), Apply(r', qs'[0]), qs[1..], qs'[1..]);
    }
  }

  /** A removal or update within range keeps the tables defined and the array as long as it was. */
  lemma PostSafe(r: Registry, qs: seq<Request>, q: Request)
    requires q.op.kind != ADD
    requires !ApplyAll(r, qs).broken && q.op.channel.fd != |ApplyAll(r, qs).entities|
    ensures ApplyAll(r, qs + [q]) == Apply(ApplyAll(r, qs), q)
    ensures !ApplyAll(r, qs + [q]).broken
    ensures |ApplyAll(r, qs + [q]).entities| == |ApplyAll(r, qs).entities|
  {
    ApplyAllSnoc(r, qs, q);
  }
}
