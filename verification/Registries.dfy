/**
 The two tables of a loop as values: the fd-indexed channel array of channel_map.c and the
 `pollfd` table of event_dispatcher_poll.c, with the pending operations of event_loop.c.
 */
module Registries {
  import opened Prelude
  import opened Channels

  const INIT_POLL_SIZE := 1024

  const POLLRDNORM: bv16 := 0x040
  const POLLWRNORM: bv16 := 0x100

  datatype PollFd = PollFd(fd: int, events: bv16, revents: bv16)

  datatype Kind = ADD | DELETE | UPDATE

  datatype Op = Op(kind: Kind, channel: Channel)

  /** An operation together with the channel's event mask when it is carried out. */
  datatype Request = Request(op: Op, mask: bv8)

  /** `broken` records an access past `entities` or the exit on a mismatched channel. */
  datatype Registry = Registry(entities: seq<Channel?>, slots: seq<PollFd>, broken: bool)

  /** The poll bits for a channel's event mask. */
  function Interest(events: bv8): bv16 {
    (if HasRead(events) then POLLRDNORM else 0) | (if HasWrite(events) then POLLWRNORM else 0)
  }

  /** The poll bits say exactly what the mask says. */
  lemma InterestExact(events: bv8)
    ensures Interest(events) & POLLRDNORM != 0 <==> HasRead(events)
    ensures Interest(events) & POLLWRNORM != 0 <==> HasWrite(events)
    ensures Interest(events) & !(POLLRDNORM | POLLWRNORM) == 0
  {
  }

  /** The first slot from `i` on that holds `fd`, or the table's size. */
  function SlotFrom(slots: seq<PollFd>, fd: int, i: nat): (k: nat)
    requires i <= |slots|
    ensures i <= k <= |slots| && (k < |slots| ==> slots[k].fd == fd)
    ensures forall j :: i <= j < k ==> slots[j].fd != fd
    decreases |slots| - i
  {
    if i == |slots| || slots[i].fd == fd then i else SlotFrom(slots, fd, i + 1)
  }

  /** The first free slot from `i` on, or the table's size. */
  function FreeFrom(slots: seq<PollFd>, i: nat): (k: nat)
    requires i <= |slots|
    ensures i <= k <= |slots| && (k < |slots| ==> slots[k].fd < 0)
    ensures forall j :: i <= j < k ==> slots[j].fd >= 0
    decreases |slots| - i
  {
    if i == |slots| || slots[i].fd < 0 then i else FreeFrom(slots, i + 1)
  }

  /** `poll_add`: a full table is left as it is, and a reused slot keeps its old `revents`. */
  function Added(slots: seq<PollFd>, fd: int, events: bv16): (r: seq<PollFd>)
    ensures |r| == |slots|
  {
    var k := FreeFrom(slots, 0);
    if k == |slots| then slots else slots[k := slots[k].(fd := fd, events := events)]
  }

  /** `poll_delete` */
  function Deleted(slots: seq<PollFd>, fd: int): (r: seq<PollFd>)
    ensures |r| == |slots|
  {
    var k := SlotFrom(slots, fd, 0);
    if k == |slots| then slots else slots[k := slots[k].(fd := -1)]
  }

  /** `poll_update` */
  function Updated(slots: seq<PollFd>, fd: int, events: bv16): (r: seq<PollFd>)
    ensures |r| == |slots|
  {
    var k := SlotFrom(slots, fd, 0);
    if k == |slots| then slots else slots[k := slots[k].(events := events)]
  }

  function Grown(entities: seq<Channel?>, slot: int): (r: seq<Channel?>)
    ensures |r| == GrownLength(|entities|, slot)
    ensures forall i :: 0 <= i < |r| ==> r[i] == if i < |entities| then entities[i] else null
  {
    entities + seq(GrownLength(|entities|, slot) - |entities|, _ => null)
  }

  /** `event_loop_handle_pending_add` */
  function HandleAdd(r: Registry, c: Channel, mask: bv8): Registry {
    if c.fd < 0 then r
    else
      var entities := Grown(r.entities, c.fd);
      if entities[c.fd] != null then r.(entities := entities)
      else r.(entities := entities[c.fd := c], slots := Added(r.slots, c.fd, Interest(mask)))
  }

  /** `event_loop_handle_pending_remove`; the guard `fd > length` lets `fd == length` through. */
  function HandleRemove(r: Registry, c: Channel): Registry {
    if c.fd < 0 || c.fd > |r.entities| then r
    else if c.fd == |r.entities| then r.(broken := true)
    else
      var added := r.entities[c.fd];
      if added == null then r
      else r.(entities := r.entities[c.fd := null], slots := Deleted(r.slots, added.fd))
  }

  /** `event_loop_handle_pending_update` */
  function HandleUpdate(r: Registry, c: Channel, mask: bv8): Registry {
    if c.fd < 0 || c.fd > |r.entities| then r
    else if c.fd == |r.entities| then r.(broken := true)
    else if r.entities[c.fd] == null then r
    else r.(slots := Updated(r.slots, c.fd, Interest(mask)))
  }

  function Apply(r: Registry, q: Request): Registry {
    if r.broken then r
    else
      match q.op.kind
      case ADD => HandleAdd(r, q.op.channel, q.mask)
      case DELETE => HandleRemove(r, q.op.channel)
      case UPDATE => HandleUpdate(r, q.op.channel, q.mask)
  }

  function ApplyAll(r: Registry, qs: seq<Request>): Registry
    decreases |qs|
  {
    if qs == [] then r else ApplyAll(Apply(r, qs[0]), qs[1..])
  }

  lemma {:induction false} ApplyAllSnoc(r: Registry, qs: seq<Request>, q: Request)
    ensures ApplyAll(r, qs + [q]) == Apply(ApplyAll(r, qs), q)
    decreases |qs|
  {
    if qs == [] {
      assert [q][1..] == [];
    } else {
      assert (qs + [q])[1..] == qs[1..] + [q];
      ApplyAllSnoc(Apply(r, qs[0]), qs[1..], q);
    }
  }

  lemma {:induction false} BrokenStays(r: Registry, qs: seq<Request>)
    ensures r.broken ==> ApplyAll(r, qs).broken
    decreases |qs|
  {
    if qs != [] {
      BrokenStays(Apply(r, qs[0]), qs[1..]);
    }
  }

  function EmptyRegistry(): Registry { Registry([], seq(INIT_POLL_SIZE, _ => PollFd(-1, 0, 0)), false) }

  /** The array never shrinks, and an added fd has an entry. */
  lemma EntitiesGrow(r: Registry, q: Request)
    requires !r.broken
    ensures |Apply(r, q).entities| >= |r.entities|
    ensures q.op.kind == ADD ==> q.op.channel.fd < |Apply(r, q).entities|
  {
  }

  // ---------- agreement of the two tables ----------

  predicate NoTwins(slots: seq<PollFd>) {
    forall i, j :: 0 <= i < j < |slots| && slots[i].fd >= 0 ==> slots[i].fd != slots[j].fd
  }

  predicate Holds(slots: seq<PollFd>, fd: int) { SlotFrom(slots, fd, 0) < |slots| }

  predicate HasFree(slots: seq<PollFd>) { FreeFrom(slots, 0) < |slots| }

  predicate Registered(r: Registry, fd: int) {
    0 <= fd < |r.entities| && r.entities[fd] != null
  }

  /** A channel is registered under an fd exactly when exactly one slot holds the fd. */
  ghost predicate Agreement(r: Registry) {
    && !r.broken
    && |r.slots| == INIT_POLL_SIZE
    && NoTwins(r.slots)
    && (forall fd :: 0 <= fd ==> (Registered(r, fd) <==> Holds(r.slots, fd)))
    && (forall fd :: Registered(r, fd) ==> r.entities[fd].fd == fd)
  }

  /** Every fd in a slot is a proper index into the channel array. */
  lemma SlotsInRange(r: Registry, i: nat)
    requires Agreement(r) && i < |r.slots| && r.slots[i].fd >= 0
    ensures r.slots[i].fd < |r.entities| && Registered(r, r.slots[i].fd)
    ensures SlotFrom(r.slots, r.slots[i].fd, 0) == i
  {
    var fd := r.slots[i].fd;
    assert SlotFrom(r.slots, fd, 0) <= i;
    assert Holds(r.slots, fd);
  }

  lemma EmptyAgrees()
    ensures Agreement(EmptyRegistry())
  {
  }

  /** What the tables stand for: which channel serves an fd, and the events polled for it. */
  datatype Entry = Entry(channel: Channel, interest: bv16)

  ghost function View(r: Registry): (v: map<int, Entry>)
    requires Agreement(r)
    ensures forall fd :: fd in v <==> Registered(r, fd)
  {
    map fd | 0 <= fd < |r.entities| && Registered(r, fd) ::
      Entry(r.entities[fd], r.slots[SlotFrom(r.slots, fd, 0)].events)
  }

  /** The same operation on the abstract map. */
  function ApplyView(v: map<int, Entry>, q: Request): map<int, Entry> {
    var fd := q.op.channel.fd;
    if fd < 0 then v
    else
      match q.op.kind
      case ADD => if fd in v then v else v[fd := Entry(q.op.channel, Interest(q.mask))]
      case DELETE => v - {fd}
      case UPDATE => if fd in v then v[fd := v[fd].(interest := Interest(q.mask))] else v
  }

  /** The guard under which an operation is harmless: a known fd, and room for a new one. */
  predicate Fits(r: Registry, op: Op) {
    var fd := op.channel.fd;
    if op.kind == ADD then fd < 0 || Registered(r, fd) || HasFree(r.slots)
    else fd != |r.entities|
  }

  /** The poll events for an fd the table holds. */
  function EventsOf(slots: seq<PollFd>, fd: int): bv16
    requires Holds(slots, fd)
  {
    slots[SlotFrom(slots, fd, 0)].events
  }

  /** Table `b` is table `a` except for `fd`. */
  ghost predicate SameBut(a: seq<PollFd>, b: seq<PollFd>, fd: int) {
    forall g :: 0 <= g && g != fd ==>
      Holds(b, g) == Holds(a, g) && (Holds(a, g) ==> EventsOf(b, g) == EventsOf(a, g))
  }

  lemma WriteSlot(slots: seq<PollFd>, k: nat, p: PollFd, fd: int)
    requires k < |slots| && (slots[k].fd < 0 || slots[k].fd == fd) && (p.fd < 0 || p.fd == fd)
    ensures SameBut(slots, slots[k := p], fd)
  {
    var s := slots[k := p];
    forall g | 0 <= g && g != fd
      ensures SlotFrom(s, g, 0) == SlotFrom(slots, g, 0)
    {
      var a, b := SlotFrom(s, g, 0), SlotFrom(slots, g, 0);
      assert a < |slots| ==> a != k && slots[a].fd == g;
      assert b < |slots| ==> b != k && s[b].fd == g;
    }
  }

  lemma SlotIs(slots: seq<PollFd>, k: nat)
    requires k < |slots| && NoTwins(slots) && slots[k].fd >= 0
    ensures SlotFrom(slots, slots[k].fd, 0) == k
  {
  }

  lemma AddedSlots(slots: seq<PollFd>, fd: int, events: bv16)
    requires 0 <= fd && NoTwins(slots) && !Holds(slots, fd) && HasFree(slots)
    ensures var s := Added(slots, fd, events);
            NoTwins(s) && SameBut(slots, s, fd) && Holds(s, fd) && EventsOf(s, fd) == events
  {
    var k := FreeFrom(slots, 0);
    var p := slots[k].(fd := fd, events := events);
    WriteSlot(slots, k, p, fd);
    assert forall j :: 0 <= j < |slots| ==> slots[j].fd != fd;
    SlotIs(slots[k := p], k);
  }

  /** A full table drops the addition without a word. */
  lemma FullTableUnchanged(slots: seq<PollFd>, fd: int, events: bv16)
    requires forall i :: 0 <= i < |slots| ==> slots[i].fd >= 0
    ensures Added(slots, fd, events) == slots
  {
    assert FreeFrom(slots, 0) == |slots|;
  }

  lemma DeletedSlots(slots: seq<PollFd>, fd: int)
    requires 0 <= fd && NoTwins(slots) && Holds(slots, fd)
    ensures var s := Deleted(slots, fd);
            NoTwins(s) && SameBut(slots, s, fd) && !Holds(s, fd)
  {
    var k := SlotFrom(slots, fd, 0);
    WriteSlot(slots, k, slots[k].(fd := -1), fd);
  }

  lemma UpdatedSlots(slots: seq<PollFd>, fd: int, events: bv16)
    requires 0 <= fd && NoTwins(slots) && Holds(slots, fd)
    ensures var s := Updated(slots, fd, events);
            NoTwins(s) && SameBut(slots, s, fd) && Holds(s, fd) && EventsOf(s, fd) == events
  {
    var k := SlotFrom(slots, fd, 0);
    var p := slots[k].(events := events);
    WriteSlot(slots, k, p, fd);
    SlotIs(slots[k := p], k);
  }

  lemma EntryKept(r: Registry, r': Registry, g: int)
    requires Agreement(r) && Agreement(r') && Registered(r, g) && Registered(r', g)
    requires r.entities[g] == r'.entities[g]
    requires Holds(r.slots, g) && Holds(r'.slots, g) && EventsOf(r.slots, g) == EventsOf(r'.slots, g)
    ensures View(r)[g] == View(r')[g]
  {
  }

  /** Writing one entry and the slot that goes with it keeps the agreement and the other fds. */
  lemma ChangeOne(r: Registry, fd: int, e: Channel?, slots: seq<PollFd>)
    requires Agreement(r) && 0 <= fd < |r.entities| && |slots| == INIT_POLL_SIZE
    requires NoTwins(slots) && SameBut(r.slots, slots, fd)
    requires (e != null <==> Holds(slots, fd)) && (e != null ==> e.fd == fd)
    ensures var r' := Registry(r.entities[fd := e], slots, false);
            Agreement(r') && View(r') - {fd} == View(r) - {fd}
  {
    var r' := Registry(r.entities[fd := e], slots, false);
    AgreementSurvives(r, fd, e, slots);
    forall g | g != fd
      ensures Registered(r', g) <==> Registered(r, g)
      ensures Registered(r, g) ==> View(r')[g] == View(r)[g]
    {
      if Registered(r, g) {
        assert Holds(r.slots, g) && Holds(slots, g);
        EntryKept(r, r', g);
      }
    }
    SameOff(View(r), View(r'), fd);
  }

  lemma SameOff(m: map<int, Entry>, m': map<int, Entry>, k: int)
    requires forall g :: g != k ==> (g in m' <==> g in m)
    requires forall g :: g != k && g in m ==> m'[g] == m[g]
    ensures m' - {k} == m - {k}
  {
    var a, b := m' - {k}, m - {k};
    assert forall g :: g in a <==> g in m' && g != k;
    assert forall g :: g in b <==> g in m && g != k;
    assert forall g :: g in a ==> g in b && a[g] == m'[g] == m[g] == b[g];
  }

  lemma AgreementSurvives(r: Registry, fd: int, e: Channel?, slots: seq<PollFd>)
    requires Agreement(r) && 0 <= fd < |r.entities| && |slots| == INIT_POLL_SIZE
    requires NoTwins(slots) && SameBut(r.slots, slots, fd)
    requires (e != null <==> Holds(slots, fd)) && (e != null ==> e.fd == fd)
    ensures Agreement(Registry(r.entities[fd := e], slots, false))
  {
    var r' := Registry(r.entities[fd := e], slots, false);
    forall g | 0 <= g
      ensures Registered(r', g) <==> Holds(slots, g)
      ensures Registered(r', g) ==> r'.entities[g].fd == g
    {
      if g != fd {
        assert Registered(r, g) <==> Holds(r.slots, g);
        assert Registered(r', g) <==> Registered(r, g);
      }
    }
  }

  /** Growing the array changes nothing else. */
  lemma GrowAgrees(r: Registry, slot: int)
    requires Agreement(r)
    ensures var r' := r.(entities := Grown(r.entities, slot));
            Agreement(r') && View(r') == View(r)
  {
    var r' := r.(entities := Grown(r.entities, slot));
    assert forall g :: Registered(r', g) <==> Registered(r, g);
    assert forall g :: Registered(r, g) ==> r'.entities[g] == r.entities[g];
  }

  lemma AddAgrees(r: Registry, c: Channel, mask: bv8)
    requires Agreement(r) && 0 <= c.fd && !Registered(r, c.fd) && HasFree(r.slots)
    ensures var r' := HandleAdd(r, c, mask);
            Agreement(r') && View(r') == View(r)[c.fd := Entry(c, Interest(mask))]
  {
    var grown := r.(entities := Grown(r.entities, c.fd));
    GrowAgrees(r, c.fd);
    AddedSlots(r.slots, c.fd, Interest(mask));
    ChangeOne(grown, c.fd, c, Added(r.slots, c.fd, Interest(mask)));
    MapPut(View(r), View(HandleAdd(r, c, mask)), c.fd);
  }

  lemma ReAddAgrees(r: Registry, c: Channel, mask: bv8)
    requires Agreement(r) && 0 <= c.fd && Registered(r, c.fd)
    ensures HandleAdd(r, c, mask) == r
  {
    assert Grown(r.entities, c.fd) == r.entities;
  }

  lemma RemoveAgrees(r: Registry, c: Channel)
    requires Agreement(r) && Registered(r, c.fd)
    ensures var r' := HandleRemove(r, c);
            Agreement(r') && View(r') == View(r) - {c.fd}
  {
    DeletedSlots(r.slots, c.fd);
    ChangeOne(r, c.fd, null, Deleted(r.slots, c.fd));
    var v' := View(HandleRemove(r, c));
    assert c.fd !in v';
    assert v' - {c.fd} == v';
  }

  lemma UpdateAgrees(r: Registry, c: Channel, mask: bv8)
    requires Agreement(r) && Registered(r, c.fd)
    ensures var r' := HandleUpdate(r, c, mask);
            Agreement(r') && View(r') == View(r)[c.fd := View(r)[c.fd].(interest := Interest(mask))]
  {
    UpdatedSlots(r.slots, c.fd, Interest(mask));
    assert r.entities[c.fd := r.entities[c.fd]] == r.entities;
    ChangeOne(r, c.fd, r.entities[c.fd], Updated(r.slots, c.fd, Interest(mask)));
    MapPut(View(r), View(HandleUpdate(r, c, mask)), c.fd);
  }

  lemma MapPut(m: map<int, Entry>, m': map<int, Entry>, k: int)
    requires m' - {k} == m - {k} && k in m'
    ensures m' == m[k := m'[k]]
  {
    forall g | g in m' && g != k
      ensures g in m && m'[g] == m[g]
    {
      assert g in m' - {k} && (m' - {k})[g] == m'[g];
      assert g in m - {k} && (m - {k})[g] == m[g];
    }
    forall g | g in m && g != k
      ensures g in m'
    {
      assert g in m - {k};
    }
  }

  /** A fitting operation keeps the tables in agreement and does to their view what it should. */
  lemma ApplyRefines(r: Registry, q: Request)
    requires Agreement(r) && Fits(r, q.op)
    ensures Agreement(Apply(r, q)) && View(Apply(r, q)) == ApplyView(View(r), q)
  {
    var c := q.op.channel;
    if c.fd >= 0 {
      match q.op.kind
      case ADD =>
        if Registered(r, c.fd) {
          ReAddAgrees(r, c, q.mask);
        } else {
          AddAgrees(r, c, q.mask);
        }
      case DELETE =>
        if Registered(r, c.fd) {
          RemoveAgrees(r, c);
        } else {
          assert View(r) - {c.fd} == View(r);
        }
      case UPDATE =>
        if Registered(r, c.fd) {
          UpdateAgrees(r, c, q.mask);
        }
    }
  }

  /** The guard is exact: any other operation destroys the agreement. */
  lemma FitsIsExact(r: Registry, q: Request)
    requires Agreement(r)
    ensures Agreement(Apply(r, q)) <==> Fits(r, q.op)
  {
    if Fits(r, q.op) {
      ApplyRefines(r, q);
    } else if q.op.kind == ADD {
      var r' := Apply(r, q);
      assert r'.slots == r.slots;
      assert Registered(r', q.op.channel.fd) && !Holds(r.slots, q.op.channel.fd);
    }
  }

  /** Over a whole sequence: the tables agree all the way exactly if every operation fits in turn. */
  lemma {:induction false} AgreesThroughoutIffFits(r: Registry, qs: seq<Request>)
    requires Agreement(r)
    ensures (forall k :: 0 <= k <= |qs| ==> Agreement(ApplyAll(r, qs[..k]))) <==>
            (forall k :: 0 <= k < |qs| ==> Fits(ApplyAll(r, qs[..k]), qs[k].op))
    decreases |qs|
  {
    assert qs[..|qs|] == qs && qs[..0] == [];
    if qs != [] {
      var n := |qs| - 1;
      var init, q := qs[..n], qs[n];
      AgreesThroughoutIffFits(r, init);
      assert forall k :: 0 <= k <= n ==> init[..k] == qs[..k];
      assert qs == init + [q];
      ApplyAllSnoc(r, init, q);
      if Agreement(ApplyAll(r, init)) {
        FitsIsExact(ApplyAll(r, init), q);
      }
    }
  }

  // ---------- room in the table ----------

  ghost function FdsIn(slots: seq<PollFd>): set<int> {
    set i | 0 <= i < |slots| && slots[i].fd >= 0 :: slots[i].fd
  }

  lemma FdsSnoc(slots: seq<PollFd>, last: PollFd)
    ensures FdsIn(slots + [last]) == if last.fd < 0 then FdsIn(slots) else FdsIn(slots) + {last.fd}
    ensures HasFree(slots + [last]) <==> HasFree(slots) || last.fd < 0
    ensures NoTwins(slots + [last]) ==> NoTwins(slots) && (last.fd >= 0 ==> last.fd !in FdsIn(slots))
  {
    var all := slots + [last];
    assert forall i :: 0 <= i < |slots| ==> all[i] == slots[i];
    assert all[|slots|] == last;
    forall fd
      ensures fd in FdsIn(all) <==> fd in FdsIn(slots) || (last.fd >= 0 && fd == last.fd)
    {
      if fd in FdsIn(slots) {
        var i :| 0 <= i < |slots| && slots[i].fd >= 0 && slots[i].fd == fd;
        assert all[i].fd == fd;
      }
    }
  }

  lemma {:induction false} CountFds(slots: seq<PollFd>)
    requires NoTwins(slots)
    ensures |FdsIn(slots)| <= |slots|
    ensures |FdsIn(slots)| < |slots| <==> HasFree(slots)
    decreases |slots|
  {
    if slots == [] {
      assert FdsIn(slots) == {};
    } else {
      var init, last := slots[..|slots| - 1], slots[|slots| - 1];
      assert slots == init + [last];
      FdsSnoc(init, last);
      CountFds(init);
    }
  }

  /** A free slot exists exactly when fewer fds than slots are registered. */
  lemma RoomIffFew(r: Registry)
    requires Agreement(r)
    ensures HasFree(r.slots) <==> |View(r)| < INIT_POLL_SIZE
  {
    CountFds(r.slots);
    forall fd
      ensures fd in FdsIn(r.slots) <==> fd in View(r).Keys
    {
      if 0 <= fd && Holds(r.slots, fd) {
        assert r.slots[SlotFrom(r.slots, fd, 0)].fd in FdsIn(r.slots);
      }
      if fd in FdsIn(r.slots) {
        var i :| 0 <= i < |r.slots| && r.slots[i].fd >= 0 && r.slots[i].fd == fd;
        assert SlotFrom(r.slots, fd, 0) <= i;
      }
    }
    assert FdsIn(r.slots) == View(r).Keys;
  }

  // ---------- what destroys the agreement ----------

  /** An update of fd 32 while the array has 32 entries. */
  lemma UpdateAtLengthBreaks(a: Channel, b: Channel, mask: bv8)
    requires a.fd == 0 && b.fd == 32
    ensures var r := Apply(EmptyRegistry(), Request(Op(ADD, a), mask));
            Agreement(r) && |r.entities| == 32 && Apply(r, Request(Op(UPDATE, b), mask)).broken
  {
    EmptyAgrees();
    assert FreeFrom(EmptyRegistry().slots, 0) == 0;
    ApplyRefines(EmptyRegistry(), Request(Op(ADD, a), mask));
    assert GrownLength(0, 0) == 32;
  }

  function Additions(channels: seq<Channel>): (qs: seq<Request>)
    ensures |qs| == |channels|
  {
    seq(|channels|, i requires 0 <= i < |channels| => Request(Op(ADD, channels[i]), EVENT_READ))
  }

  lemma AdditionsSnoc(r: Registry, channels: seq<Channel>, c: Channel)
    ensures ApplyAll(r, Additions(channels + [c])) == Apply(ApplyAll(r, Additions(channels)), Request(Op(ADD, c), EVENT_READ))
  {
    var q := Request(Op(ADD, c), EVENT_READ);
    assert Additions(channels + [c]) == Additions(channels) + [q];
    ApplyAllSnoc(r, Additions(channels), q);
  }

  /** The tables hold `n` fds, all below `n`. */
  ghost predicate Filled(r: Registry, n: nat) {
    Agreement(r) && |View(r)| == n && forall fd :: fd in View(r) ==> fd < n
  }

  lemma FillOneMore(r: Registry, n: nat, q: Request)
    requires Filled(r, n) && n < INIT_POLL_SIZE && q.op.kind == ADD && q.op.channel.fd == n
    ensures Filled(Apply(r, q), n + 1)
  {
    RoomIffFew(r);
    ApplyRefines(r, q);
    var v, v' := View(r), View(Apply(r, q));
    assert v'.Keys == v.Keys + {n};
    assert |v'| == |v'.Keys| && |v| == |v.Keys|;
  }

  lemma FillLast(r: Registry, channels: seq<Channel>, c: Channel)
    requires Filled(ApplyAll(r, Additions(channels)), |channels|)
    requires |channels| < INIT_POLL_SIZE && c.fd == |channels|
    ensures Filled(ApplyAll(r, Additions(channels + [c])), |channels| + 1)
  {
    AdditionsSnoc(r, channels, c);
    FillOneMore(ApplyAll(r, Additions(channels)), |channels|, Request(Op(ADD, c), EVENT_READ));
  }

  lemma {:induction false} FillUp(r: Registry, channels: seq<Channel>)
    requires Filled(r, 0)
    requires |channels| <= INIT_POLL_SIZE && forall i :: 0 <= i < |channels| ==> channels[i].fd == i
    ensures Filled(ApplyAll(r, Additions(channels)), |channels|)
    decreases |channels|
  {
    if channels != [] {
      var n := |channels| - 1;
      FillUp(r, channels[..n]);
      assert channels == channels[..n] + [channels[n]];
      FillLast(r, channels[..n], channels[n]);
    }
  }

  /** One addition more than the table has slots. */
  lemma AdditionToFullTableBreaks(channels: seq<Channel>)
    requires |channels| == INIT_POLL_SIZE + 1 && forall i :: 0 <= i < |channels| ==> channels[i].fd == i
    ensures var r := ApplyAll(EmptyRegistry(), Additions(channels[..INIT_POLL_SIZE]));
            Agreement(r) && !Agreement(Apply(r, Request(Op(ADD, channels[INIT_POLL_SIZE]), EVENT_READ)))
  {
    EmptyAgrees();
    assert View(EmptyRegistry()) == map[] && Filled(EmptyRegistry(), 0);
    FillUp(EmptyRegistry(), channels[..INIT_POLL_SIZE]);
    var r := ApplyAll(EmptyRegistry(), Additions(channels[..INIT_POLL_SIZE]));
    RoomIffFew(r);
    FitsIsExact(r, Request(Op(ADD, channels[INIT_POLL_SIZE]), EVENT_READ));
  }
}
