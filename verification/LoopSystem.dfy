/**
 event_loop.c as a transition system: any number of threads post operations to one loop whose
 owner alternates poll and drain. A run is any sequence of enabled actions.
 */
module LoopSystem {
  import opened Prelude
  import opened Channels
  import opened Registries

  type Tid = nat

  /** The thread the loop belongs to. */
  const OWNER: Tid := 0

  /** Where the owner goes on after a drain: back into a callback, or to the next poll. */
  datatype Back = ToCallbacks | ToPoll

  datatype Pc =
    | Outside                 // not in the library; for the owner: setting up or in a callback
    | Toggled(op: Op)         // the mask is changed, the update not yet posted
    | Wants(op: Op)           // at the lock of event_loop_do_channel_event
    | Holds(op: Op)           // has the lock, at the assertion
    | Linked                  // the node is in the list, the lock still held
    | Unlocked                // before the wakeup write, or the owner's own drain
    | Polling                 // the owner, blocked in poll
    | WantsDrain(back: Back)  // the owner at the lock of event_loop_handle_pending_channel
    | Draining(back: Back)    // the owner in the loop over the list
    | Drained(back: Back)     // the list is cleared, the lock still held

  datatype State = State(
    pcs: map<Tid, Pc>,
    lock: Option<Tid>,
    handling: bool,         // is_handling_pending_channel
    queue: seq<Op>,         // the linked list, head first
    visited: nat,           // how many nodes the drain under way has carried out
    bytes: nat,             // unread bytes in the socket pair
    inPass: bool,           // the owner is between a return of poll and the drain after it
    consumed: nat,          // bytes read since the last drain
    reg: Registry,
    masks: map<Channel, bv8>,
    enqueued: seq<Op>,      // every operation ever linked, in lock order
    applied: seq<Op>,       // every operation ever carried out, in order
    failed: bool)           // the assertion in event_loop_do_channel_event failed

  datatype Action =
    | Toggle(t: Tid, channel: Channel, on: bool)
    | Begin(t: Tid, op: Op)
    | Post(t: Tid)
    | Lock(t: Tid)
    | Link(t: Tid)
    | Unlock(t: Tid)
    | Wake(t: Tid)
    | Carry
    | Clear
    | StartRun
    | PollReturns
    | ReadByte
    | EndPass

  function Mask(s: State, c: Channel): bv8 { if c in s.masks then s.masks[c] else 0 }

  function At(s: State, t: Tid): Pc { if t in s.pcs then s.pcs[t] else Outside }

  predicate Enabled(s: State, a: Action) {
    match a
    case Toggle(t, _, _) => t in s.pcs && s.pcs[t].Outside?
    case Begin(t, _) => t in s.pcs && s.pcs[t].Outside?
    case Post(t) => t in s.pcs && s.pcs[t].Toggled?
    case Lock(t) => t in s.pcs && (s.pcs[t].Wants? || s.pcs[t].WantsDrain?) && s.lock.None?
    case Link(t) => t in s.pcs && s.pcs[t].Holds?
    case Unlock(t) => t in s.pcs && (s.pcs[t].Linked? || s.pcs[t].Drained?)
    case Wake(t) => t in s.pcs && s.pcs[t].Unlocked?
    case Carry => At(s, OWNER).Draining? && s.visited < |s.queue|
    case Clear => At(s, OWNER).Draining? && s.visited == |s.queue|
    case StartRun => At(s, OWNER).Outside? && !s.inPass
    case PollReturns => At(s, OWNER).Polling?
    case ReadByte => At(s, OWNER).Outside? && s.inPass && s.bytes > 0
    case EndPass => At(s, OWNER).Outside? && s.inPass
  }

  /** The thread an action moves. */
  function Mover(a: Action): Tid {
    match a
    case Toggle(t, _, _) => t
    case Begin(t, _) => t
    case Post(t) => t
    case Lock(t) => t
    case Link(t) => t
    case Unlock(t) => t
    case Wake(t) => t
    case _ => OWNER
  }

  function NextPc(s: State, a: Action): Pc
    requires Enabled(s, a)
  {
    match a
    case Toggle(_, c, _) => Toggled(Op(UPDATE, c))
    case Begin(_, op) => Wants(op)
    case Post(t) => Wants(s.pcs[t].op)
    case Lock(t) => if s.pcs[t].Wants? then Holds(s.pcs[t].op) else Draining(s.pcs[t].back)
    case Link(_) => Linked
    case Unlock(t) =>
      if s.pcs[t].Linked? then Unlocked
      else if s.pcs[t].back.ToCallbacks? then Outside else Polling
    case Wake(t) => if t == OWNER then WantsDrain(ToCallbacks) else Outside
    case Carry => At(s, OWNER)
    case Clear => Drained(At(s, OWNER).back)
    case StartRun => Polling
    case PollReturns => Outside
    case ReadByte => Outside
    case EndPass => WantsDrain(ToPoll)
  }

  function NextLock(s: State, a: Action): Option<Tid> {
    match a
    case Lock(t) => Some(t)
    case Unlock(_) => None
    case _ => s.lock
  }

  /** What an action does to the loop's data. */
  function Effect(s: State, a: Action): State
    requires Enabled(s, a)
  {
    match a
    case Toggle(_, c, on) =>
      s.(masks := s.masks[c := if on then WithWrite(Mask(s, c)) else WithoutWrite(Mask(s, c))])
    case Lock(t) => if s.pcs[t].Wants? then s else s.(handling := true)
    case Link(t) =>
      var op := s.pcs[t].op;
      s.(failed := s.failed || s.handling, queue := s.queue + [op], enqueued := s.enqueued + [op])
    case Unlock(t) => if s.pcs[t] == Drained(ToPoll) then s.(inPass := false) else s
    case Wake(t) => if t == OWNER then s else s.(bytes := s.bytes + 1)
    case Carry =>
      var op := s.queue[s.visited];
      s.(visited := s.visited + 1, applied := s.applied + [op],
         reg := Apply(s.reg, Request(op, Mask(s, op.channel))))
    case Clear => s.(queue := [], visited := 0, handling := false, consumed := 0)
    case PollReturns => s.(inPass := true)
    case ReadByte => s.(bytes := s.bytes - 1, consumed := s.consumed + 1)
    case _ => s
  }

  function Do(s: State, a: Action): State
    requires Enabled(s, a)
  {
    Effect(s, a).(pcs := s.pcs[Mover(a) := NextPc(s, a)], lock := NextLock(s, a))
  }

  /** A fresh loop: every thread outside the library, every channel with some mask. */
  predicate Initial(s: State) {
    && OWNER in s.pcs && (forall t :: t in s.pcs ==> s.pcs[t].Outside?)
    && s.lock.None? && !s.handling && s.queue == [] && s.visited == 0
    && s.bytes == 0 && !s.inPass && s.consumed == 0
    && s.reg == EmptyRegistry() && s.enqueued == [] && s.applied == [] && !s.failed
  }

  /** The state after `run`, if every action was enabled in turn. */
  function Run(s: State, run: seq<Action>): Option<State>
    decreases |run|
  {
    if run == [] then Some(s)
    else if Enabled(s, run[0]) then Run(Do(s, run[0]), run[1..])
    else None
  }

  // ---------- mutual exclusion ----------

  predicate Critical(pc: Pc) { pc.Holds? || pc.Linked? || pc.Draining? || pc.Drained? }

  predicate OwnersOnly(pc: Pc) { pc.Polling? || pc.WantsDrain? || pc.Draining? || pc.Drained? }

  predicate Exclusive(s: State) {
    && OWNER in s.pcs
    && (forall t :: t in s.pcs ==> (Critical(s.pcs[t]) <==> s.lock == Some(t)))
    && (s.lock.Some? ==> s.lock.value in s.pcs)
    && (forall t :: t in s.pcs && OwnersOnly(s.pcs[t]) ==> t == OWNER)
  }

  /** The lock is taken or released only for the thread that moves. */
  lemma MoveRespectsLock(s: State, a: Action)
    requires Exclusive(s) && Enabled(s, a)
    ensures var t, pc, lock := Mover(a), NextPc(s, a), NextLock(s, a);
            t in s.pcs && (OwnersOnly(pc) ==> t == OWNER) && (Critical(pc) <==> lock == Some(t)) &&
            (lock != s.lock ==> s.lock in {None, Some(t)} && lock in {None, Some(t)})
  {
  }

  lemma StepExclusive(s: State, a: Action)
    requires Exclusive(s) && Enabled(s, a)
    ensures Exclusive(Do(s, a))
  {
    MoveRespectsLock(s, a);
  }

  /** The drain flag, the visited count and the list move together. */
  predicate DrainState(s: State) {
    && OWNER in s.pcs
    && (s.handling <==> s.pcs[OWNER].Draining?)
    && s.visited <= |s.queue|
    && (s.visited > 0 ==> s.handling)
    && (s.pcs[OWNER].Drained? ==> s.queue == [])
    && !s.failed
  }

  lemma StepDrainState(s: State, a: Action)
    requires Exclusive(s) && DrainState(s) && Enabled(s, a)
    ensures DrainState(Do(s, a))
  {
  }

  // ---------- exactly once, in order ----------

  predicate Fifo(s: State) {
    s.visited <= |s.queue| && s.enqueued == s.applied + s.queue[s.visited..]
  }

  lemma StepFifo(s: State, a: Action)
    requires DrainState(s) && Fifo(s) && Enabled(s, a)
    ensures Fifo(Do(s, a))
  {
    match a
    case Link(t) =>
      var op := s.pcs[t].op;
      assert (s.queue + [op])[s.visited..] == s.queue[s.visited..] + [op];
      Assoc(s.applied, s.queue[s.visited..], [op]);
    case Carry =>
      var op := s.queue[s.visited];
      assert s.queue[s.visited..] == [op] + s.queue[s.visited + 1..];
      Assoc(s.applied, [op], s.queue[s.visited + 1..]);
    case _ =>
  }

  // ---------- wakeups ----------

  /** Threads that have linked a node and not yet written their byte. */
  ghost function Midway(s: State): set<Tid> {
    set t | t in s.pcs && t != OWNER && (s.pcs[t].Linked? || s.pcs[t].Unlocked?)
  }

  /** The owner has linked a node itself and will drain it without a byte. */
  function OwnNode(s: State): nat {
    var pc := At(s, OWNER);
    if pc.Linked? || pc.Unlocked? || pc == WantsDrain(ToCallbacks) || pc == Draining(ToCallbacks) then 1 else 0
  }

  /** Every node in the list is accounted for by a byte, a writer, or a drain to come. */
  ghost predicate Announced(s: State) {
    && |s.queue| <= s.bytes + s.consumed + |Midway(s)| + OwnNode(s)
    && (s.consumed > 0 ==> s.inPass && !At(s, OWNER).Drained?)
    && (At(s, OWNER).Polling? ==> !s.inPass)
    && (At(s, OWNER) in {WantsDrain(ToPoll), Draining(ToPoll)} ==> s.inPass)
  }

  lemma MidwayStep(s: State, a: Action)
    requires Exclusive(s) && Enabled(s, a)
    ensures Midway(Do(s, a)) ==
            match a
            case Link(t) => if t == OWNER then Midway(s) else Midway(s) + {t}
            case Wake(t) => Midway(s) - {t}
            case _ => Midway(s)
    ensures a.Link? ==> a.t !in Midway(s)
    ensures a.Wake? && a.t != OWNER ==> a.t in Midway(s)
  {
  }

  lemma LinkAnnounced(s: State, t: Tid)
    requires Exclusive(s) && DrainState(s) && Announced(s) && Enabled(s, Link(t))
    ensures Announced(Do(s, Link(t)))
  {
    MidwayStep(s, Link(t));
  }

  lemma WakeAnnounced(s: State, t: Tid)
    requires Exclusive(s) && DrainState(s) && Announced(s) && Enabled(s, Wake(t))
    ensures Announced(Do(s, Wake(t)))
  {
    MidwayStep(s, Wake(t));
  }

  lemma StepAnnounced(s: State, a: Action)
    requires Exclusive(s) && DrainState(s) && Announced(s) && Enabled(s, a)
    ensures Announced(Do(s, a))
  {
    if a.Link? {
      LinkAnnounced(s, a.t);
    } else if a.Wake? {
      WakeAnnounced(s, a.t);
    } else {
      MidwayStep(s, a);
      assert Midway(Do(s, a)) == Midway(s);
    }
  }

  // ---------- the tables over a run ----------

  function ApplyLive(m: map<int, Channel>, op: Op): map<int, Channel> {
    var fd := op.channel.fd;
    if fd < 0 then m
    else
      match op.kind
      case ADD => if fd in m then m else m[fd := op.channel]
      case DELETE => m - {fd}
      case UPDATE => m
  }

  /** Which channel serves which fd once `ops` are carried out. */
  function LiveAfter(ops: seq<Op>): map<int, Channel> {
    if ops == [] then map[] else ApplyLive(LiveAfter(ops[..|ops| - 1]), ops[|ops| - 1])
  }

  predicate AddedIn(ops: seq<Op>, fd: int) {
    exists i :: 0 <= i < |ops| && ops[i] == Op(ADD, ops[i].channel) && ops[i].channel.fd == fd
  }

  /**
   What callers owe: an fd is added before it is removed or updated, at most as many fds as
   slots are live, and an update names the channel that serves its fd.
   */
  predicate Disciplined(before: seq<Op>, op: Op) {
    var fd, live := op.channel.fd, LiveAfter(before);
    fd < 0 ||
    match op.kind
    case ADD => fd in live || |live| < INIT_POLL_SIZE
    case DELETE => AddedIn(before, fd)
    case UPDATE => AddedIn(before, fd) && (fd in live ==> live[fd] == op.channel)
  }

  predicate AllDisciplined(ops: seq<Op>) {
    forall k :: 0 <= k < |ops| ==> Disciplined(ops[..k], ops[k])
  }

  predicate Legal(s: State, a: Action)
    requires Enabled(s, a)
  {
    a.Link? ==> Disciplined(s.enqueued, s.pcs[a.t].op)
  }

  ghost predicate SameChannels(v: map<int, Entry>, m: map<int, Channel>) {
    v.Keys == m.Keys && forall fd :: fd in m ==> v[fd].channel == m[fd]
  }

  /** The tables are what `ops` leaves on the abstract map, and every added fd has an entry. */
  ghost predicate TablesFor(r: Registry, ops: seq<Op>) {
    && Agreement(r)
    && SameChannels(View(r), LiveAfter(ops))
    && (forall fd :: 0 <= fd && AddedIn(ops, fd) ==> fd < |r.entities|)
  }

  ghost predicate TablesFollow(s: State) {
    AllDisciplined(s.enqueued) && TablesFor(s.reg, s.applied)
  }

  lemma DisciplinedFits(r: Registry, before: seq<Op>, op: Op)
    requires TablesFor(r, before) && Disciplined(before, op)
    ensures Fits(r, op)
  {
    var fd, live := op.channel.fd, LiveAfter(before);
    if op.kind == ADD && fd >= 0 && fd !in live {
      assert |View(r)| == |View(r).Keys| == |live.Keys| == |live|;
      RoomIffFew(r);
    }
  }

  lemma SameChannelsStep(v: map<int, Entry>, m: map<int, Channel>, q: Request)
    requires SameChannels(v, m)
    ensures SameChannels(ApplyView(v, q), ApplyLive(m, q.op))
  {
    var v', m' := ApplyView(v, q), ApplyLive(m, q.op);
    assert forall fd :: fd in v' <==> fd in m';
  }

  /** One disciplined operation keeps the tables on course. */
  lemma ApplyFollows(r: Registry, before: seq<Op>, q: Request)
    requires TablesFor(r, before) && Disciplined(before, q.op)
    ensures TablesFor(Apply(r, q), before + [q.op])
  {
    DisciplinedFits(r, before, q.op);
    ApplyRefines(r, q);
    SameChannelsStep(View(r), LiveAfter(before), q);
    EntitiesGrow(r, q);
    LiveSnoc(before, q.op);
  }

  /** The operation the next `Carry` will apply, as it stands in the lock order. */
  lemma NextInOrder(s: State)
    requires Fifo(s) && s.visited < |s.queue|
    ensures |s.applied| < |s.enqueued|
    ensures s.enqueued[..|s.applied|] == s.applied && s.enqueued[|s.applied|] == s.queue[s.visited]
  {
  }

  lemma LiveSnoc(ops: seq<Op>, op: Op)
    ensures LiveAfter(ops + [op]) == ApplyLive(LiveAfter(ops), op)
    ensures forall fd :: AddedIn(ops + [op], fd) <==> AddedIn(ops, fd) || (op.kind == ADD && op.channel.fd == fd)
  {
    var all := ops + [op];
    assert all[..|all| - 1] == ops;
    forall fd
      ensures AddedIn(all, fd) <==> AddedIn(ops, fd) || (op.kind == ADD && op.channel.fd == fd)
    {
      if AddedIn(ops, fd) {
        var i :| 0 <= i < |ops| && ops[i] == Op(ADD, ops[i].channel) && ops[i].channel.fd == fd;
        assert all[i] == ops[i];
      }
      assert all[|ops|] == op;
    }
  }

  lemma LinkDisciplined(ops: seq<Op>, op: Op)
    requires AllDisciplined(ops) && Disciplined(ops, op)
    ensures AllDisciplined(ops + [op])
  {
    var all := ops + [op];
    forall k | 0 <= k < |all|
      ensures Disciplined(all[..k], all[k])
    {
      assert all[..k] == ops[..k];
      assert ops[..|ops|] == ops;
    }
  }

  lemma StepTables(s: State, a: Action)
    requires Fifo(s) && TablesFollow(s) && Enabled(s, a) && Legal(s, a)
    ensures TablesFollow(Do(s, a))
  {
    if a.Carry? {
      NextInOrder(s);
      var op := s.queue[s.visited];
      ApplyFollows(s.reg, s.applied, Request(op, Mask(s, op.channel)));
    } else if a.Link? {
      LinkDisciplined(s.enqueued, s.pcs[a.t].op);
    }
  }

  // ---------- masks over a run ----------

  /** The operation a thread is about to link, if any. */
  function Intended(pc: Pc): Option<Op> {
    match pc
    case Toggled(op) => Some(op)
    case Wants(op) => Some(op)
    case Holds(op) => Some(op)
    case _ => None
  }

  predicate InList(s: State, op: Op) {
    exists i :: s.visited <= i < |s.queue| && s.queue[i] == op
  }

  predicate SomeoneIntends(s: State, op: Op) {
    exists t :: t in s.pcs && Intended(s.pcs[t]) == Some(op)
  }

  /** An update of `c` is in the list or on its way to it. */
  predicate UpdateComing(s: State, c: Channel) {
    InList(s, Op(UPDATE, c)) || SomeoneIntends(s, Op(UPDATE, c))
  }

  /** A slot polls for what its channel wants now, or an update of that channel is coming. */
  predicate Current(s: State, e: Entry) {
    e.interest == Interest(Mask(s, e.channel)) || UpdateComing(s, e.channel)
  }

  ghost predicate MasksFollow(s: State) {
    Agreement(s.reg) && forall fd :: fd in View(s.reg) ==> Current(s, View(s.reg)[fd])
  }

  lemma ListPersists(s: State, a: Action, op: Op)
    requires DrainState(s) && Enabled(s, a) && InList(s, op)
    requires a.Carry? ==> s.queue[s.visited] != op
    ensures InList(Do(s, a), op)
  {
    var i :| s.visited <= i < |s.queue| && s.queue[i] == op;
    assert i < |Do(s, a).queue| && Do(s, a).queue[i] == op;
  }

  lemma IntentPersists(s: State, a: Action, op: Op)
    requires OWNER in s.pcs && s.visited <= |s.queue| && Enabled(s, a) && SomeoneIntends(s, op)
    ensures SomeoneIntends(Do(s, a), op) || InList(Do(s, a), op)
  {
    var t :| t in s.pcs && Intended(s.pcs[t]) == Some(op);
    if a == Link(t) {
      assert Do(s, a).queue[|s.queue|] == op;
    } else if t == Mover(a) {
      assert Intended(NextPc(s, a)) == Some(op);
      assert Intended(Do(s, a).pcs[t]) == Some(op);
    } else {
      assert Do(s, a).pcs[t] == s.pcs[t];
    }
  }

  lemma ComingPersists(s: State, a: Action, c: Channel)
    requires DrainState(s) && Enabled(s, a) && UpdateComing(s, c)
    requires a.Carry? ==> s.queue[s.visited] != Op(UPDATE, c)
    ensures UpdateComing(Do(s, a), c)
  {
    if InList(s, Op(UPDATE, c)) {
      ListPersists(s, a, Op(UPDATE, c));
    } else {
      IntentPersists(s, a, Op(UPDATE, c));
    }
  }

  /** After an operation an entry either has the mask just applied or is as before. */
  lemma EntryAfter(v: map<int, Entry>, q: Request, fd: int)
    requires 0 <= fd && fd in ApplyView(v, q)
    requires fd in v ==> v[fd].channel.fd == fd
    requires q.op.kind == UPDATE && q.op.channel.fd in v ==> v[q.op.channel.fd].channel == q.op.channel
    ensures var e := ApplyView(v, q)[fd];
            (e.channel == q.op.channel && e.interest == Interest(q.mask)) ||
            (fd in v && e == v[fd] && q.op != Op(UPDATE, e.channel))
  {
  }

  lemma CarryCurrent(s: State, v: map<int, Entry>, fd: int)
    requires DrainState(s) && Enabled(s, Carry)
    requires fd in v ==> v[fd].channel.fd == fd && Current(s, v[fd])
    requires var op := s.queue[s.visited];
             op.kind == UPDATE && op.channel.fd in v ==> v[op.channel.fd].channel == op.channel
    requires var op := s.queue[s.visited];
             0 <= fd && fd in ApplyView(v, Request(op, Mask(s, op.channel)))
    ensures var op := s.queue[s.visited];
            Current(Do(s, Carry), ApplyView(v, Request(op, Mask(s, op.channel)))[fd])
  {
    var op := s.queue[s.visited];
    var q := Request(op, Mask(s, op.channel));
    var e := ApplyView(v, q)[fd];
    EntryAfter(v, q, fd);
    if op != Op(UPDATE, e.channel) && UpdateComing(s, e.channel) {
      ComingPersists(s, Carry, e.channel);
    }
  }

  /** What carrying out the next operation does to the view of the tables. */
  lemma CarryView(s: State)
    requires Fifo(s) && TablesFollow(s) && Enabled(s, Carry)
    ensures var op := s.queue[s.visited];
            Agreement(Do(s, Carry).reg) &&
            View(Do(s, Carry).reg) == ApplyView(View(s.reg), Request(op, Mask(s, op.channel))) &&
            (op.kind == UPDATE && op.channel.fd in View(s.reg) ==> View(s.reg)[op.channel.fd].channel == op.channel)
    ensures forall fd :: fd in View(s.reg) ==> 0 <= fd && View(s.reg)[fd].channel.fd == fd
  {
    NextInOrder(s);
    var op := s.queue[s.visited];
    DisciplinedFits(s.reg, s.applied, op);
    ApplyRefines(s.reg, Request(op, Mask(s, op.channel)));
  }

  lemma CarryMasks(s: State)
    requires DrainState(s) && Fifo(s) && TablesFollow(s) && MasksFollow(s) && Enabled(s, Carry)
    ensures MasksFollow(Do(s, Carry))
  {
    CarryView(s);
    var v, op := View(s.reg), s.queue[s.visited];
    var q := Request(op, Mask(s, op.channel));
    forall fd | fd in ApplyView(v, q)
      ensures Current(Do(s, Carry), ApplyView(v, q)[fd])
    {
      assert 0 <= fd;
      CarryCurrent(s, v, fd);
    }
  }

  lemma StepMasks(s: State, a: Action)
    requires DrainState(s) && Fifo(s) && TablesFollow(s) && MasksFollow(s)
    requires Enabled(s, a)
    ensures MasksFollow(Do(s, a))
  {
    if a.Carry? {
      CarryMasks(s);
    } else {
      OthersKeepMasks(s, a);
    }
  }

  lemma OthersKeepMasks(s: State, a: Action)
    requires DrainState(s) && MasksFollow(s) && Enabled(s, a) && !a.Carry?
    ensures MasksFollow(Do(s, a))
  {
    forall fd | fd in View(s.reg)
      ensures Current(Do(s, a), View(s.reg)[fd])
    {
      StepCurrent(s, a, View(s.reg)[fd]);
    }
  }

  lemma StepCurrent(s: State, a: Action, e: Entry)
    requires DrainState(s) && Enabled(s, a) && !a.Carry? && Current(s, e)
    ensures Current(Do(s, a), e)
  {
    if a.Toggle? && a.channel == e.channel {
      assert Intended(Do(s, a).pcs[a.t]) == Some(Op(UPDATE, e.channel));
    } else if UpdateComing(s, e.channel) {
      ComingPersists(s, a, e.channel);
    }
  }

  // ---------- what holds over every run ----------

  /** What needs no cooperation from the callers. */
  ghost predicate Inv(s: State) {
    Exclusive(s) && DrainState(s) && Fifo(s) && Announced(s)
  }

  lemma StepInv(s: State, a: Action)
    requires Inv(s) && Enabled(s, a)
    ensures Inv(Do(s, a))
  {
    StepExclusive(s, a);
    StepDrainState(s, a);
    StepFifo(s, a);
    StepAnnounced(s, a);
  }

  lemma InitialInv(s: State)
    requires Initial(s)
    ensures Inv(s) && TablesFollow(s) && MasksFollow(s)
  {
    EmptyAgrees();
    assert View(s.reg) == map[];
  }

  lemma {:induction false} RunInv(s: State, run: seq<Action>)
    requires Inv(s) && Run(s, run).Some?
    ensures Inv(Run(s, run).value)
    decreases |run|
  {
    if run != [] {
      StepInv(s, run[0]);
      RunInv(Do(s, run[0]), run[1..]);
    }
  }

  /** Every action of the run keeps the callers' obligation. */
  predicate LegalRun(s: State, run: seq<Action>)
    decreases |run|
  {
    run == [] || (Enabled(s, run[0]) && Legal(s, run[0]) && LegalRun(Do(s, run[0]), run[1..]))
  }

  lemma {:induction false} RunFollows(s: State, run: seq<Action>)
    requires Inv(s) && TablesFollow(s) && MasksFollow(s) && LegalRun(s, run)
    ensures Run(s, run).Some?
    ensures var t := Run(s, run).value;
            Inv(t) && TablesFollow(t) && MasksFollow(t)
    decreases |run|
  {
    if run != [] {
      StepInv(s, run[0]);
      StepTables(s, run[0]);
      StepMasks(s, run[0]);
      RunFollows(Do(s, run[0]), run[1..]);
    }
  }

  /**
   No lost wakeup: while the owner is blocked in poll, every node in the list is matched by
   an unread byte or by a thread about to write one.
   */
  lemma NoLostWakeup(s: State, run: seq<Action>)
    requires Initial(s) && Run(s, run).Some?
    ensures var t := Run(s, run).value;
            At(t, OWNER).Polling? ==>
              |t.queue| <= t.bytes + |Midway(t)| &&
              (t.queue != [] ==> t.bytes > 0 || exists w :: w in Midway(t))
  {
    InitialInv(s);
    RunInv(s, run);
    var t := Run(s, run).value;
    if At(t, OWNER).Polling? && t.queue != [] && t.bytes == 0 {
      assert Midway(t) != {};
    }
  }

  /**
   Exactly once, in lock order: what was carried out, followed by what is still in the list,
   is what was ever enqueued; and the assertion against a drain under way never fails.
   */
  lemma ExactlyOnce(s: State, run: seq<Action>)
    requires Initial(s) && Run(s, run).Some?
    ensures var t := Run(s, run).value;
            t.visited <= |t.queue| && t.enqueued == t.applied + t.queue[t.visited..] && !t.failed &&
            forall u :: u in t.pcs && t.pcs[u].Holds? ==> !t.handling
  {
    InitialInv(s);
    RunInv(s, run);
  }

  /** What thread `t` asks for in a run, from its calls alone. */
  function Asked(run: seq<Action>, t: Tid): seq<Op> {
    if run == [] then []
    else
      (match run[0]
       case Toggle(u, c, _) => if u == t then [Op(UPDATE, c)] else []
       case Begin(u, op) => if u == t then [op] else []
       case _ => []) + Asked(run[1..], t)
  }

  /** The operations whose nodes thread `t` links, in order. */
  function LinkedBy(s: State, run: seq<Action>, t: Tid): seq<Op>
    requires Run(s, run).Some?
    decreases |run|
  {
    if run == [] then []
    else
      var after := Do(s, run[0]);
      (if run[0] == Link(t) then [after.queue[|after.queue| - 1]] else []) + LinkedBy(after, run[1..], t)
  }

  /** The operations of all nodes linked, in order. */
  function LinkedByAll(s: State, run: seq<Action>): seq<Op>
    requires Run(s, run).Some?
    decreases |run|
  {
    if run == [] then []
    else
      var after := Do(s, run[0]);
      (if run[0].Link? then [after.queue[|after.queue| - 1]] else []) + LinkedByAll(after, run[1..])
  }

  function OnItsWay(s: State, t: Tid): seq<Op> {
    match Intended(At(s, t))
    case Some(op) => [op]
    case None => []
  }

  lemma StepAsks(s: State, a: Action, t: Tid)
    requires Enabled(s, a)
    ensures var after := Do(s, a);
            OnItsWay(s, t) + Asked([a], t) ==
            (if a == Link(t) then [after.queue[|after.queue| - 1]] else []) + OnItsWay(after, t)
  {
    assert Asked([a], t) == Asked([a], t) + [];
    if Mover(a) != t {
      assert At(Do(s, a), t) == At(s, t);
    }
  }

  lemma {:induction false} RunAsks(s: State, run: seq<Action>, t: Tid)
    requires Run(s, run).Some?
    ensures OnItsWay(s, t) + Asked(run, t) == LinkedBy(s, run, t) + OnItsWay(Run(s, run).value, t)
    decreases |run|
  {
    if run == [] {
      assert OnItsWay(s, t) + [] == [] + OnItsWay(s, t);
    } else {
      var a, rest := run[0], run[1..];
      var after := Do(s, a);
      StepAsks(s, a, t);
      RunAsks(after, rest, t);
      var first := if a == Link(t) then [after.queue[|after.queue| - 1]] else [];
      AskedHead(run, t);
      Regroup(OnItsWay(s, t), Asked([a], t), Asked(rest, t), first, OnItsWay(after, t),
              LinkedBy(after, rest, t), OnItsWay(Run(after, rest).value, t));
    }
  }

  lemma AskedHead(run: seq<Action>, t: Tid)
    requires run != []
    ensures Asked(run, t) == Asked([run[0]], t) + Asked(run[1..], t)
  {
    assert [run[0]][1..] == [];
  }

  lemma Regroup(p: seq<Op>, a: seq<Op>, rest: seq<Op>, first: seq<Op>, q: seq<Op>, links: seq<Op>, end: seq<Op>)
    requires p + a == first + q && q + rest == links + end
    ensures p + (a + rest) == (first + links) + end
  {
    Assoc(p, a, rest);
    Assoc(first, q, rest);
    Assoc(first, links, end);
  }

  lemma {:induction false} RunLinks(s: State, run: seq<Action>)
    requires Run(s, run).Some?
    ensures Run(s, run).value.enqueued == s.enqueued + LinkedByAll(s, run)
    decreases |run|
  {
    if run == [] {
      assert s.enqueued + [] == s.enqueued;
    } else {
      var after := Do(s, run[0]);
      RunLinks(after, run[1..]);
      Assoc(s.enqueued, if run[0].Link? then [after.queue[|after.queue| - 1]] else [], LinkedByAll(after, run[1..]));
      assert s.enqueued + [] == s.enqueued;
    }
  }

  /**
   Every call is served: what a thread asked for is, in its order, what it linked, followed by the
   operation it is still on the way to link; and the lock order is the order of all links.
   */
  lemma EveryCallIsLinked(s: State, run: seq<Action>, t: Tid)
    requires Initial(s) && Run(s, run).Some?
    ensures Asked(run, t) == LinkedBy(s, run, t) + OnItsWay(Run(s, run).value, t)
    ensures Run(s, run).value.enqueued == LinkedByAll(s, run)
  {
    RunAsks(s, run, t);
    RunLinks(s, run);
    assert [] + Asked(run, t) == Asked(run, t) && [] + LinkedByAll(s, run) == LinkedByAll(s, run);
  }

  /** How many bytes other threads write to the socket pair. */
  function BytesWritten(run: seq<Action>): nat {
    if run == [] then 0 else (if run[0].Wake? && run[0].t != OWNER then 1 else 0) + BytesWritten(run[1..])
  }

  /** How often the owner handles the wakeup channel. */
  function BytesRead(run: seq<Action>): nat {
    if run == [] then 0 else (if run[0].ReadByte? then 1 else 0) + BytesRead(run[1..])
  }

  /** Each wakeup writes one byte, each handling takes one, and the others stay unread. */
  lemma {:induction false} BytesConserved(s: State, run: seq<Action>)
    requires Run(s, run).Some?
    ensures s.bytes + BytesWritten(run) == Run(s, run).value.bytes + BytesRead(run)
    decreases |run|
  {
    if run != [] {
      BytesConserved(Do(s, run[0]), run[1..]);
    }
  }

  /** A byte is read only in a pass that ends with a drain before the owner polls again. */
  lemma BytesAreFollowedByDrain(s: State, run: seq<Action>)
    requires Initial(s) && Run(s, run).Some?
    ensures var t := Run(s, run).value;
            At(t, OWNER).Polling? ==> t.consumed == 0
  {
    InitialInv(s);
    RunInv(s, run);
  }

  /**
   Registry agreement over every run of disciplined callers: the two tables agree, they hold
   exactly the live channels of the operations carried out, and no access leaves the array.
   */
  lemma RegistryAgreement(s: State, run: seq<Action>)
    requires Initial(s) && LegalRun(s, run)
    ensures Run(s, run).Some?
    ensures var t := Run(s, run).value;
            Agreement(t.reg) && SameChannels(View(t.reg), LiveAfter(t.applied)) &&
            forall i :: 0 <= i < |t.reg.slots| ==> t.reg.slots[i].fd < |t.reg.entities|
  {
    InitialInv(s);
    RunFollows(s, run);
    var t := Run(s, run).value;
    forall i | 0 <= i < |t.reg.slots| && t.reg.slots[i].fd >= 0
      ensures t.reg.slots[i].fd < |t.reg.entities|
    {
      SlotsInRange(t.reg, i);
    }
  }

  /** The calls of a run that switch write interest of channel `c`, in order. */
  function Toggles(run: seq<Action>, c: Channel): seq<bool> {
    if run == [] then []
    else (if run[0].Toggle? && run[0].channel == c then [run[0].on] else []) + Toggles(run[1..], c)
  }

  lemma MaskStep(s: State, a: Action, c: Channel)
    requires Enabled(s, a)
    ensures Mask(Do(s, a), c) == Switched(Mask(s, c), if a.Toggle? && a.channel == c then [a.on] else [])
  {
    if a.Toggle? {
      assert [a.on][1..] == [];
    }
  }

  lemma {:induction false} MaskFollowsToggles(s: State, run: seq<Action>, c: Channel)
    requires Run(s, run).Some?
    ensures Mask(Run(s, run).value, c) == Switched(Mask(s, c), Toggles(run, c))
    decreases |run|
  {
    if run != [] {
      var a := run[0];
      MaskStep(s, a, c);
      MaskFollowsToggles(Do(s, a), run[1..], c);
      SwitchedJoins(Mask(s, c), if a.Toggle? && a.channel == c then [a.on] else [], Toggles(run[1..], c));
    }
  }

  /**
   Mask agreement: with the list empty and nobody on the way to post an update, every slot
   polls for exactly what its channel's mask says.
   */
  lemma MaskAgreement(s: State, run: seq<Action>)
    requires Initial(s) && LegalRun(s, run)
    ensures Run(s, run).Some?
    ensures var t := Run(s, run).value;
            MasksFollow(t) &&
            (t.queue == [] && (forall u :: u in t.pcs ==> Intended(t.pcs[u]).None?) ==>
              forall fd :: fd in View(t.reg) ==>
                View(t.reg)[fd].interest == Interest(Mask(t, View(t.reg)[fd].channel)))
  {
    InitialInv(s);
    RunFollows(s, run);
  }

  predicate NeverRemoved(ops: seq<Op>, fd: int) {
    forall i :: 0 <= i < |ops| && ops[i].channel.fd == fd ==> ops[i].kind != DELETE
  }

  lemma {:induction false} FirstStaysLive(ops: seq<Op>, c: Channel)
    requires 0 <= c.fd && ops != [] && ops[0] == Op(ADD, c) && NeverRemoved(ops, c.fd)
    ensures c.fd in LiveAfter(ops) && LiveAfter(ops)[c.fd] == c
    decreases |ops|
  {
    var init := ops[..|ops| - 1];
    if init != [] {
      assert NeverRemoved(init, c.fd);
      FirstStaysLive(init, c);
    }
  }

  predicate ReadExact(s: State, e: Entry) {
    e.interest & POLLRDNORM != 0 <==> HasRead(Mask(s, e.channel))
  }

  /** Read interest is exact at all times, since toggling never touches the read bit. */
  ghost predicate ReadsFollow(s: State) {
    Agreement(s.reg) && forall fd :: fd in View(s.reg) ==> ReadExact(s, View(s.reg)[fd])
  }

  lemma ReadBitStays(s: State, a: Action, c: Channel)
    requires Enabled(s, a)
    ensures HasRead(Mask(Do(s, a), c)) == HasRead(Mask(s, c))
  {
    if a.Toggle? {
      ToggleWrite(Mask(s, a.channel));
    }
  }

  lemma ReadAfter(s: State, v: map<int, Entry>, op: Op, fd: int)
    requires fd in v ==> v[fd].channel.fd == fd && ReadExact(s, v[fd])
    requires op.kind == UPDATE && op.channel.fd in v ==> v[op.channel.fd].channel == op.channel
    requires 0 <= fd && fd in ApplyView(v, Request(op, Mask(s, op.channel)))
    ensures ReadExact(s, ApplyView(v, Request(op, Mask(s, op.channel)))[fd])
  {
    EntryAfter(v, Request(op, Mask(s, op.channel)), fd);
    InterestExact(Mask(s, op.channel));
  }

  lemma CarryReads(s: State)
    requires Fifo(s) && TablesFollow(s) && ReadsFollow(s) && Enabled(s, Carry)
    ensures ReadsFollow(Do(s, Carry))
  {
    CarryView(s);
    var v, op := View(s.reg), s.queue[s.visited];
    var q := Request(op, Mask(s, op.channel));
    forall fd | fd in ApplyView(v, q)
      ensures ReadExact(Do(s, Carry), ApplyView(v, q)[fd])
    {
      assert 0 <= fd;
      ReadAfter(s, v, op, fd);
    }
  }

  lemma StepReads(s: State, a: Action)
    requires Fifo(s) && TablesFollow(s) && ReadsFollow(s) && Enabled(s, a)
    ensures ReadsFollow(Do(s, a))
  {
    if a.Carry? {
      CarryReads(s);
    } else {
      forall fd | fd in View(s.reg)
        ensures ReadExact(Do(s, a), View(s.reg)[fd])
      {
        ReadBitStays(s, a, View(s.reg)[fd].channel);
      }
    }
  }

  lemma {:induction false} RunReads(s: State, run: seq<Action>)
    requires Inv(s) && TablesFollow(s) && ReadsFollow(s) && LegalRun(s, run)
    ensures Run(s, run).Some? && ReadsFollow(Run(s, run).value)
    decreases |run|
  {
    if run != [] {
      StepInv(s, run[0]);
      StepTables(s, run[0]);
      StepReads(s, run[0]);
      RunReads(Do(s, run[0]), run[1..]);
    }
  }

  lemma {:induction false} RunKeepsReadBit(s: State, run: seq<Action>, c: Channel)
    requires Run(s, run).Some?
    ensures HasRead(Mask(Run(s, run).value, c)) == HasRead(Mask(s, c))
    decreases |run|
  {
    if run != [] {
      ReadBitStays(s, run[0], c);
      RunKeepsReadBit(Do(s, run[0]), run[1..], c);
    }
  }

  /** Read interest is exact in every state of every legal run, with no delay. */
  lemma ReadInterestExact(s: State, run: seq<Action>)
    requires Initial(s) && LegalRun(s, run)
    ensures Run(s, run).Some? && ReadsFollow(Run(s, run).value)
  {
    InitialInv(s);
    assert View(s.reg) == map[];
    RunReads(s, run);
  }

  /**
   The wakeup channel, whose addition is the first operation of a loop and which is never
   removed, stays in both tables over every legal run and is polled for reading whatever else
   goes on, so poll reports an unread wakeup byte.
   */
  lemma WakeupIsPolled(s: State, run: seq<Action>, c: Channel)
    requires Initial(s) && LegalRun(s, run) && 0 <= c.fd && HasRead(Mask(s, c))
    ensures Run(s, run).Some?
    ensures var t := Run(s, run).value;
            t.applied != [] && t.applied[0] == Op(ADD, c) && NeverRemoved(t.applied, c.fd) ==>
              Agreement(t.reg) && c.fd in View(t.reg) && View(t.reg)[c.fd].channel == c &&
              View(t.reg)[c.fd].interest & POLLRDNORM != 0
  {
    InitialInv(s);
    RunFollows(s, run);
    ReadInterestExact(s, run);
    RunKeepsReadBit(s, run, c);
    var t := Run(s, run).value;
    if t.applied != [] && t.applied[0] == Op(ADD, c) && NeverRemoved(t.applied, c.fd) {
      FirstStaysLive(t.applied, c);
    }
  }

  /**
   The next operation is an update through a channel that does not serve the fd, its mask asks
   for other events, and no proper update is coming.
   */
  ghost predicate Misleads(s: State)
    requires Agreement(s.reg) && Enabled(s, Carry)
  {
    var op, v := s.queue[s.visited], View(s.reg);
    op.kind == UPDATE && op.channel.fd in v &&
    var c := v[op.channel.fd].channel;
    c != op.channel && Interest(Mask(s, op.channel)) != Interest(Mask(s, c)) && !UpdateComing(s, c)
  }

  lemma ComingBefore(s: State, c: Channel)
    requires Enabled(s, Carry) && UpdateComing(Do(s, Carry), c)
    ensures UpdateComing(s, c)
  {
    var t, op := Do(s, Carry), Op(UPDATE, c);
    if InList(t, op) {
      var i :| t.visited <= i < |t.queue| && t.queue[i] == op;
      assert s.queue[i] == op;
    } else {
      var u :| u in t.pcs && Intended(t.pcs[u]) == Some(op);
      assert s.pcs[u] == t.pcs[u];
    }
  }

  lemma OtherStaysCurrent(s: State, e: Entry)
    requires DrainState(s) && Enabled(s, Carry) && Current(s, e) && s.queue[s.visited] != Op(UPDATE, e.channel)
    ensures Current(Do(s, Carry), e)
  {
    if UpdateComing(s, e.channel) {
      ComingPersists(s, Carry, e.channel);
    }
  }

  /**
   Without any discipline: carrying out the next operation, if it fits, keeps the masks in
   agreement exactly if it does not mislead a slot in this way.
   */
  lemma ForeignUpdateMisleads(s: State)
    requires DrainState(s) && MasksFollow(s) && Enabled(s, Carry) && Fits(s.reg, s.queue[s.visited])
    ensures MasksFollow(Do(s, Carry)) <==> !Misleads(s)
  {
    var op, v, t := s.queue[s.visited], View(s.reg), Do(s, Carry);
    var q := Request(op, Mask(s, op.channel));
    ApplyRefines(s.reg, q);
    var v' := ApplyView(v, q);
    if Misleads(s) {
      var c := v[op.channel.fd].channel;
      assert v'[op.channel.fd] == Entry(c, Interest(q.mask));
      if UpdateComing(t, c) {
        ComingBefore(s, c);
      }
      assert !Current(t, v'[op.channel.fd]);
    } else {
      forall fd | fd in v'
        ensures Current(t, v'[fd])
      {
        CarryCurrentUnlessMisled(s, v, fd);
      }
    }
  }

  lemma CarryCurrentUnlessMisled(s: State, v: map<int, Entry>, fd: int)
    requires DrainState(s) && MasksFollow(s) && Enabled(s, Carry) && v == View(s.reg) && !Misleads(s)
    requires var op := s.queue[s.visited]; fd in ApplyView(v, Request(op, Mask(s, op.channel)))
    ensures var op := s.queue[s.visited];
            Current(Do(s, Carry), ApplyView(v, Request(op, Mask(s, op.channel)))[fd])
  {
    var op := s.queue[s.visited];
    if fd in v && s.queue[s.visited] != Op(UPDATE, v[fd].channel) {
      OtherStaysCurrent(s, v[fd]);
      if op.kind == UPDATE && op.channel.fd == fd && UpdateComing(s, v[fd].channel) {
        ComingPersists(s, Carry, v[fd].channel);
      }
    }
  }

  /** The masks are in agreement in every state of the run. */
  ghost predicate MasksThroughout(s: State, run: seq<Action>)
    requires Run(s, run).Some?
    decreases |run|
  {
    MasksFollow(s) && (run == [] || MasksThroughout(Do(s, run[0]), run[1..]))
  }

  /** Every operation carried out fits in its turn and misleads no slot. */
  ghost predicate NeverMisleads(s: State, run: seq<Action>)
    requires Run(s, run).Some?
    decreases |run|
  {
    run == [] ||
    ((run[0].Carry? ==> Agreement(s.reg) && Fits(s.reg, s.queue[s.visited]) && !Misleads(s)) &&
     NeverMisleads(Do(s, run[0]), run[1..]))
  }

  lemma MasksKeptIff(s: State, a: Action)
    requires DrainState(s) && MasksFollow(s) && Enabled(s, a)
    ensures MasksFollow(Do(s, a)) <==> (a.Carry? ==> Fits(s.reg, s.queue[s.visited]) && !Misleads(s))
  {
    if a.Carry? {
      var op := s.queue[s.visited];
      FitsIsExact(s.reg, Request(op, Mask(s, op.channel)));
      if Fits(s.reg, op) {
        ForeignUpdateMisleads(s);
      }
    } else {
      OthersKeepMasks(s, a);
    }
  }

  lemma {:induction false} MasksThroughoutFrom(s: State, run: seq<Action>)
    requires Inv(s) && MasksFollow(s) && Run(s, run).Some?
    ensures MasksThroughout(s, run) <==> NeverMisleads(s, run)
    decreases |run|
  {
    if run != [] {
      var t := Do(s, run[0]);
      StepInv(s, run[0]);
      MasksKeptIff(s, run[0]);
      if MasksFollow(t) {
        MasksThroughoutFrom(t, run[1..]);
      }
    }
  }

  /**
   Over every run, with no discipline assumed: the masks stay in agreement throughout exactly if
   each operation fits when it is carried out and misleads no slot.
   */
  lemma MasksThroughoutIff(s: State, run: seq<Action>)
    requires Initial(s) && Run(s, run).Some?
    ensures MasksThroughout(s, run) <==> NeverMisleads(s, run)
  {
    InitialInv(s);
    MasksThroughoutFrom(s, run);
  }

  lemma RunJoins(s: State, first: seq<Action>, second: seq<Action>)
    requires Run(s, first).Some?
    ensures Run(s, first + second) == Run(Run(s, first).value, second)
    decreases |first|
  {
    if first == [] {
      assert first + second == second;
    } else {
      assert (first + second)[1..] == first[1..] + second;
      RunJoins(Do(s, first[0]), first[1..], second);
    }
  }

  /** One thread takes an operation from the call to the release of the lock. */
  function Enqueue(t: Tid, op: Op): seq<Action> { [Begin(t, op), Lock(t), Link(t), Unlock(t)] }

  lemma EnqueueRuns(s: State, t: Tid, op: Op)
    requires t in s.pcs && s.pcs[t].Outside? && s.lock.None?
    ensures Run(s, Enqueue(t, op)) ==
            Some(s.(pcs := s.pcs[t := Unlocked], queue := s.queue + [op], enqueued := s.enqueued + [op],
                    failed := s.failed || s.handling))
  {
    var s1 := Do(s, Begin(t, op));
    var s2 := Do(s1, Lock(t));
    var s3 := Do(s2, Link(t));
    var s4 := Do(s3, Unlock(t));
    assert s4.pcs == s.pcs[t := Unlocked];
    var run := Enqueue(t, op);
    assert run[1..] == [Lock(t), Link(t), Unlock(t)] && run[1..][1..] == [Link(t), Unlock(t)];
    assert run[1..][1..][1..] == [Unlock(t)] && run[1..][1..][1..][1..] == [];
    assert Run(s, run) == Run(s1, run[1..]) == Run(s2, run[1..][1..]);
    assert Run(s2, run[1..][1..]) == Run(s3, [Unlock(t)]) == Run(s4, []);
  }

  lemma RunThree(s: State, a: Action, b: Action, c: Action)
    requires Enabled(s, a) && Enabled(Do(s, a), b) && Enabled(Do(Do(s, a), b), c)
    ensures Run(s, [a, b, c]) == Some(Do(Do(Do(s, a), b), c))
  {
    assert [a, b, c][1..] == [b, c] && [b, c][1..] == [c] && [c][1..] == [];
    assert Run(Do(Do(s, a), b), [c]) == Run(Do(Do(Do(s, a), b), c), []);
    assert Run(Do(s, a), [b, c]) == Run(Do(Do(s, a), b), [c]);
  }

  lemma DrainStarts(s: State)
    requires OWNER in s.pcs && s.pcs[OWNER].Unlocked? && s.lock.None? && s.visited < |s.queue|
    ensures var op := s.queue[s.visited];
            Run(s, [Wake(OWNER), Lock(OWNER), Carry]) ==
            Some(s.(pcs := s.pcs[OWNER := Draining(ToCallbacks)], lock := Some(OWNER), handling := true,
                    visited := s.visited + 1, applied := s.applied + [op],
                    reg := Apply(s.reg, Request(op, Mask(s, op.channel)))))
  {
    RunThree(s, Wake(OWNER), Lock(OWNER), Carry);
    var t := Do(Do(Do(s, Wake(OWNER)), Lock(OWNER)), Carry);
    assert t.pcs == s.pcs[OWNER := Draining(ToCallbacks)];
  }

  lemma MasksAfterFirstAdd(s: State, t: State, c: Channel, d: Channel)
    requires Initial(s) && Inv(t) && t.masks == s.masks && t.visited == 1 && t.queue == [Op(ADD, c), Op(UPDATE, d)]
    requires t.reg == Apply(EmptyRegistry(), Request(Op(ADD, c), Mask(s, c))) && At(t, OWNER).Draining?
    requires forall u :: u in t.pcs ==> Intended(t.pcs[u]).None?
    requires c.fd == d.fd == 0 && c != d && Interest(Mask(s, c)) != Interest(Mask(s, d))
    ensures Agreement(t.reg) && Enabled(t, Carry) && Misleads(t) && !MasksFollow(Do(t, Carry))
  {
    EmptyAgrees();
    assert FreeFrom(EmptyRegistry().slots, 0) == 0;
    ApplyRefines(EmptyRegistry(), Request(Op(ADD, c), Mask(s, c)));
    assert View(EmptyRegistry()) == map[];
    assert !UpdateComing(t, c);
    forall fd | fd in View(t.reg)
      ensures Current(t, View(t.reg)[fd])
    {
    }
    MasksKeptIff(t, Carry);
  }

  function ForeignUpdate(u: Tid, c: Channel, d: Channel): seq<Action> {
    Enqueue(OWNER, Op(ADD, c)) + Enqueue(u, Op(UPDATE, d)) + [Wake(OWNER), Lock(OWNER), Carry]
  }

  lemma TwoQueued(s: State, u: Tid, first: Op, second: Op)
    requires Initial(s) && u in s.pcs && u != OWNER
    ensures Run(s, Enqueue(OWNER, first) + Enqueue(u, second)) ==
            Some(s.(pcs := s.pcs[OWNER := Unlocked][u := Unlocked], queue := [first, second], enqueued := [first, second]))
  {
    EnqueueRuns(s, OWNER, first);
    var s1 := Run(s, Enqueue(OWNER, first)).value;
    EnqueueRuns(s1, u, second);
    RunJoins(s, Enqueue(OWNER, first), Enqueue(u, second));
    assert s.queue + [first] + [second] == [first, second] && s.enqueued + [first] + [second] == [first, second];
  }

  lemma ForeignUpdateState(s: State, u: Tid, c: Channel, d: Channel)
    requires Initial(s) && u in s.pcs && u != OWNER
    ensures Run(s, ForeignUpdate(u, c, d)) ==
            Some(s.(pcs := s.pcs[OWNER := Unlocked][u := Unlocked][OWNER := Draining(ToCallbacks)],
                    lock := Some(OWNER), handling := true,
                    queue := [Op(ADD, c), Op(UPDATE, d)], visited := 1,
                    reg := Apply(EmptyRegistry(), Request(Op(ADD, c), Mask(s, c))),
                    enqueued := [Op(ADD, c), Op(UPDATE, d)], applied := [Op(ADD, c)]))
  {
    TwoQueued(s, u, Op(ADD, c), Op(UPDATE, d));
    var queued := Enqueue(OWNER, Op(ADD, c)) + Enqueue(u, Op(UPDATE, d));
    RunJoins(s, queued, [Wake(OWNER), Lock(OWNER), Carry]);
    DrainStarts(Run(s, queued).value);
    assert s.applied + [Op(ADD, c)] == [Op(ADD, c)];
  }

  /**
   A run that misleads a slot: the owner adds `c`, another thread updates the fd through a second
   channel `d` with another mask, and the owner drains.
   */
  lemma ForeignUpdateRun(s: State, u: Tid, c: Channel, d: Channel)
    requires Initial(s) && u in s.pcs && u != OWNER
    requires c.fd == d.fd == 0 && c != d && Interest(Mask(s, c)) != Interest(Mask(s, d))
    ensures var t := Run(s, ForeignUpdate(u, c, d));
            t.Some? && Agreement(t.value.reg) && Enabled(t.value, Carry) && Misleads(t.value) &&
            !MasksFollow(Do(t.value, Carry))
  {
    InitialInv(s);
    ForeignUpdateState(s, u, c, d);
    RunInv(s, ForeignUpdate(u, c, d));
    var t := Run(s, ForeignUpdate(u, c, d)).value;
    forall v | v in t.pcs
      ensures Intended(t.pcs[v]).None?
    {
      assert t.pcs[v] in {Unlocked, Draining(ToCallbacks), Outside};
    }
    MasksAfterFirstAdd(s, t, c, d);
  }

  // ---------- every operation can still be delivered ----------

  /** Steps of the owner to the end of its next drain, not counting the nodes. */
  function OwnerStage(s: State): nat {
    match At(s, OWNER)
    case Outside => if s.inPass then 3 else 6
    case Toggled(_) => 8
    case Wants(_) => 7
    case Holds(_) => 6
    case Linked => 4
    case Unlocked => 3
    case Polling => if s.bytes > 0 then 4 else 5
    case WantsDrain(_) => 2
    case Draining(_) => 1
    case Drained(_) => 0
  }

  /** Steps until another thread gives the lock back, with the node it may add. */
  function HolderStage(s: State): nat {
    if s.lock.None? || s.lock.value == OWNER then 0
    else if At(s, s.lock.value).Holds? then 3
    else 1
  }

  function Rank(s: State): nat
    requires s.visited <= |s.queue|
  {
    |s.queue| - s.visited + OwnerStage(s) + HolderStage(s)
  }

  /** The next step of the thread that has the lock, or of the owner, or of the writer `w`. */
  function Helpful(s: State, w: Tid): Action {
    if s.lock.Some? && s.lock.value != OWNER then
      if At(s, s.lock.value).Holds? then Link(s.lock.value) else Unlock(s.lock.value)
    else
      match At(s, OWNER)
      case Outside => if s.inPass then EndPass else StartRun
      case Toggled(_) => Post(OWNER)
      case Wants(_) => Lock(OWNER)
      case Holds(_) => Link(OWNER)
      case Linked => Unlock(OWNER)
      case Unlocked => Wake(OWNER)
      case Polling => if s.bytes > 0 then PollReturns else Wake(w)
      case WantsDrain(_) => Lock(OWNER)
      case Draining(_) => if s.visited < |s.queue| then Carry else Clear
      case Drained(_) => Unlock(OWNER)
  }

  lemma HolderHelps(s: State, w: Tid)
    requires Inv(s) && s.lock.Some? && s.lock.value != OWNER
    ensures var a := Helpful(s, w);
            Enabled(s, a) && Do(s, a).visited <= |Do(s, a).queue| && Rank(Do(s, a)) < Rank(s)
  {
    assert At(Do(s, Helpful(s, w)), OWNER) == At(s, OWNER);
  }

  predicate Calling(pc: Pc) { pc.Toggled? || pc.Wants? || pc.Holds? || pc.Linked? || pc.Unlocked? }

  lemma CallerHelps(s: State, w: Tid)
    requires Inv(s) && (s.lock.None? || s.lock.value == OWNER) && Calling(At(s, OWNER))
    ensures var a := Helpful(s, w);
            Enabled(s, a) && Do(s, a).visited <= |Do(s, a).queue| && Rank(Do(s, a)) < Rank(s)
  {
  }

  lemma LooperHelps(s: State, w: Tid)
    requires Inv(s) && s.queue != [] && (s.lock.None? || s.lock.value == OWNER) && !Calling(At(s, OWNER))
    requires At(s, OWNER).Polling? && s.bytes == 0 ==> w in Midway(s)
    ensures var a := Helpful(s, w);
            Enabled(s, a) && Do(s, a).visited <= |Do(s, a).queue| && Rank(Do(s, a)) < Rank(s)
  {
  }

  /** Nothing is ever stuck: some helpful step is possible and brings the end of a drain nearer. */
  lemma HelpfulStep(s: State) returns (a: Action)
    requires Inv(s) && s.queue != []
    ensures Enabled(s, a) && Do(s, a).visited <= |Do(s, a).queue| && Rank(Do(s, a)) < Rank(s)
  {
    var w: Tid := OWNER;
    if Midway(s) != {} {
      w :| w in Midway(s);
    }
    a := Helpful(s, w);
    if s.lock.Some? && s.lock.value != OWNER {
      HolderHelps(s, w);
    } else if Calling(At(s, OWNER)) {
      CallerHelps(s, w);
    } else {
      LooperHelps(s, w);
    }
  }

  /**
   Delivery: from every reachable state there is a short continuation, with no new calls, at
   whose end everything enqueued has been carried out. In particular there is no deadlock.
   */
  lemma {:induction false} Deliverable(s: State) returns (run: seq<Action>)
    requires Inv(s)
    ensures |run| <= Rank(s) && Run(s, run).Some?
    ensures var t := Run(s, run).value;
            t.queue == [] && t.applied == t.enqueued && s.enqueued <= t.enqueued
    decreases Rank(s)
  {
    if s.queue == [] {
      run := [];
    } else {
      var a := HelpfulStep(s);
      StepInv(s, a);
      var rest := Deliverable(Do(s, a));
      run := [a] + rest;
      assert run[1..] == rest;
    }
  }

  /** The requests a drain carries out when no mask changes under it. */
  function QueuedRequests(s: State, ops: seq<Op>): (qs: seq<Request>)
    ensures |qs| == |ops|
  {
    if ops == [] then [] else [Request(ops[0], Mask(s, ops[0].channel))] + QueuedRequests(s, ops[1..])
  }

  function Carries(n: nat): seq<Action> { if n == 0 then [] else [Carry] + Carries(n - 1) }

  /** The drain loop node by node is the whole-list drain of the sequential code. */
  lemma {:induction false} DrainIsApplyAll(s: State)
    requires At(s, OWNER).Draining? && s.visited <= |s.queue|
    ensures var t := Run(s, Carries(|s.queue| - s.visited));
            t.Some? && Enabled(t.value, Clear) &&
            t.value.reg == ApplyAll(s.reg, QueuedRequests(s, s.queue[s.visited..]))
    decreases |s.queue| - s.visited
  {
    if s.visited < |s.queue| {
      var rest := s.queue[s.visited..];
      assert rest == [s.queue[s.visited]] + s.queue[s.visited + 1..];
      DrainIsApplyAll(Do(s, Carry));
      SameMasks(s, Do(s, Carry), s.queue[s.visited + 1..]);
      assert Carries(|rest|)[1..] == Carries(|rest| - 1);
      assert QueuedRequests(s, rest)[1..] == QueuedRequests(s, s.queue[s.visited + 1..]);
    }
  }

  lemma {:induction false} SameMasks(s: State, s': State, ops: seq<Op>)
    requires s.masks == s'.masks
    ensures QueuedRequests(s, ops) == QueuedRequests(s', ops)
    decreases |ops|
  {
    if ops != [] {
      SameMasks(s, s', ops[1..]);
    }
  }
}
