/** thread_pool_server.c of chapter 26: a ring of client fds shared by workers. */
module BlockQueues {
  import opened Prelude

  // ---------- the ring ----------

  datatype Ring = Ring(fd: seq<int>, front: nat, rear: nat) {
    predicate Valid() { front < |fd| && rear < |fd| }
  }

  function Next(i: nat, length: nat): nat { if i + 1 == length then 0 else i + 1 }

  /** The queued fds, oldest first, across the wrap-around. */
  function Live(r: Ring): (s: seq<int>)
    requires r.Valid()
    ensures |s| < |r.fd| && (s == [] <==> r.front == r.rear)
  {
    if r.front <= r.rear then r.fd[r.front..r.rear] else r.fd[r.front..] + r.fd[..r.rear]
  }

  function Pushed(r: Ring, x: int): (p: Ring)
    requires r.Valid()
    ensures p.Valid() && |p.fd| == |r.fd|
  {
    Ring(r.fd[r.rear := x], r.front, Next(r.rear, |r.fd|))
  }

  function Popped(r: Ring): (p: Ring)
    requires r.Valid()
    ensures p.Valid() && p.fd == r.fd
  {
    r.(front := Next(r.front, |r.fd|))
  }

  /** One more entry fits: the ring always keeps one cell free. */
  predicate HasRoom(r: Ring)
    requires r.Valid()
  {
    |Live(r)| + 1 < |r.fd|
  }

  /** A push appends exactly when the ring has room; otherwise every queued fd is lost. */
  lemma PushAppends(r: Ring, x: int)
    requires r.Valid()
    ensures Live(Pushed(r, x)) == Live(r) + [x] <==> HasRoom(r)
    ensures !HasRoom(r) ==> Live(Pushed(r, x)) == []
  {
    var p := Pushed(r, x);
    if HasRoom(r) {
      if r.front <= r.rear && r.rear + 1 < |r.fd| {
        assert p.fd[r.front..r.rear + 1] == r.fd[r.front..r.rear] + [x];
      } else if r.front <= r.rear {
        assert p.fd[r.front..] + p.fd[..0] == r.fd[r.front..r.rear] + [x];
      } else {
        assert p.fd[r.front..] + p.fd[..r.rear + 1] == r.fd[r.front..] + r.fd[..r.rear] + [x];
      }
    }
  }

  /** A pop takes the oldest fd. */
  lemma PopTakes(r: Ring)
    requires r.Valid() && r.front != r.rear
    ensures Live(r) == [r.fd[r.front]] + Live(Popped(r))
  {
    if r.front > r.rear && r.front + 1 == |r.fd| {
      assert r.fd[r.front..] == [r.fd[r.front]];
    }
  }

  class BlockQueue {
    const length: nat
    const fd: array<int>
    var rear: nat
    var front: nat

    ghost predicate Valid()
      reads this
    {
      fd.Length == length && rear < length && front < length
    }

    ghost function CurrentRing(): (r: Ring)
      reads this, fd
      requires Valid()
      ensures r.Valid()
    {
      Ring(fd[..], front, rear)
    }

    constructor (queueLength: nat)
      requires queueLength > 0
      ensures Valid() && length == queueLength && fresh(fd) && Live(CurrentRing()) == []
    {
      length := queueLength;
      fd := new int[queueLength](_ => 0);
      front, rear := 0, 0;
    }

    /** The body of `block_queue_push` between lock and signal. */
    method Push(client: int)
      requires Valid()
      modifies this`rear, fd
      ensures Valid() && CurrentRing() == Pushed(old(CurrentRing()), client)
      ensures old(HasRoom(CurrentRing())) ==> Live(CurrentRing()) == old(Live(CurrentRing())) + [client]
    {
      PushAppends(CurrentRing(), client);
      fd[rear] := client;
      rear := rear + 1;
      if rear == length {
        rear := 0;
      }
    }

    /** One turn of `block_queue_pop` under the lock; None sends the worker to the condition. */
    method TryPop() returns (client: Option<int>)
      requires Valid()
      modifies this`front
      ensures Valid()
      ensures client.None? <==> old(Live(CurrentRing())) == []
      ensures client.None? ==> CurrentRing() == old(CurrentRing())
      ensures client.Some? ==> CurrentRing() == Popped(old(CurrentRing())) && [client.value] + Live(CurrentRing()) == old(Live(CurrentRing()))
    {
      if front == rear {
        return None;
      }
      PopTakes(CurrentRing());
      client := Some(fd[front]);
      front := front + 1;
      if front == length {
        front := 0;
      }
    }
  }

  // ---------- producers and workers ----------

  type Tid = nat

  datatype Pc =
    | Away                // outside the queue
    | WantsPush(fd: int)
    | Stored              // has the lock, the fd stored, the signal still to come
    | Signalled           // has the lock
    | WantsPop
    | Checking            // has the lock, at the loop test
    | Waiting             // asleep on the condition
    | Woken               // awake, still without the lock
    | Got(fd: int)        // has the lock and an fd

  datatype State = State(pcs: map<Tid, Pc>, lock: Option<Tid>, ring: Ring, pushed: seq<int>, popped: seq<int>)

  datatype Action =
    | BeginPush(t: Tid, fd: int)
    | BeginPop(t: Tid)
    | Store(t: Tid)
    | Signal(t: Tid, chosen: set<Tid>)
    | LockPop(t: Tid)
    | Check(t: Tid)
    | Leave(t: Tid)
    | Spurious(t: Tid)

  function At(s: State, t: Tid): Pc { if t in s.pcs then s.pcs[t] else Away }

  ghost function Sleepers(s: State): set<Tid> { set t | t in s.pcs && s.pcs[t].Waiting? }

  ghost function Awake(s: State): set<Tid> { set t | t in s.pcs && s.pcs[t].Woken? }

  /** `pthread_cond_signal` wakes at least one sleeper if there is any. */
  ghost predicate Enabled(s: State, a: Action) {
    a.t in s.pcs &&
    match a
    case BeginPush(t, _) => s.pcs[t].Away?
    case BeginPop(t) => s.pcs[t].Away?
    case Store(t) => s.pcs[t].WantsPush? && s.lock.None?
    case Signal(t, chosen) => s.pcs[t].Stored? && chosen <= Sleepers(s) && (chosen == {} ==> Sleepers(s) == {})
    case LockPop(t) => (s.pcs[t].WantsPop? || s.pcs[t].Woken?) && s.lock.None?
    case Check(t) => s.pcs[t].Checking?
    case Leave(t) => s.pcs[t].Signalled? || s.pcs[t].Got?
    case Spurious(t) => s.pcs[t].Waiting?
  }

  function NextPc(s: State, a: Action): Pc
    requires s.ring.Valid()
  {
    match a
    case BeginPush(_, fd) => WantsPush(fd)
    case BeginPop(_) => WantsPop
    case Store(_) => Stored
    case Signal(_, _) => Signalled
    case LockPop(_) => Checking
    case Check(_) => if Live(s.ring) == [] then Waiting else Got(s.ring.fd[s.ring.front])
    case Leave(_) => Away
    case Spurious(_) => Woken
  }

  function NextLock(s: State, a: Action): Option<Tid>
    requires s.ring.Valid()
  {
    match a
    case Store(t) => Some(t)
    case LockPop(t) => Some(t)
    case Check(t) => if Live(s.ring) == [] then None else s.lock
    case Leave(_) => None
    case _ => s.lock
  }

  function Effect(s: State, a: Action): State
    requires s.ring.Valid()
  {
    match a
    case Store(t) =>
      var pc := At(s, t);
      if pc.WantsPush? then s.(ring := Pushed(s.ring, pc.fd), pushed := s.pushed + [pc.fd]) else s
    case Signal(_, chosen) =>
      s.(pcs := map t | t in s.pcs :: if t in chosen then Woken else s.pcs[t])
    case Check(_) =>
      if Live(s.ring) == [] then s
      else s.(ring := Popped(s.ring), popped := s.popped + [s.ring.fd[s.ring.front]])
    case _ => s
  }

  function Do(s: State, a: Action): (t: State)
    requires s.ring.Valid()
    ensures t.ring.Valid() && |t.ring.fd| == |s.ring.fd|
  {
    var e := Effect(s, a);
    e.(pcs := e.pcs[a.t := NextPc(s, a)], lock := NextLock(s, a))
  }

  predicate Initial(s: State) {
    && (forall t :: t in s.pcs ==> s.pcs[t].Away?)
    && s.lock.None? && s.ring.Valid() && Live(s.ring) == [] && s.pushed == [] && s.popped == []
  }

  ghost predicate Possible(s: State, run: seq<Action>)
    requires s.ring.Valid()
    decreases |run|
  {
    run == [] || (Enabled(s, run[0]) && Possible(Do(s, run[0]), run[1..]))
  }

  function Run(s: State, run: seq<Action>): (t: State)
    requires s.ring.Valid()
    ensures t.ring.Valid()
    decreases |run|
  {
    if run == [] then s else Run(Do(s, run[0]), run[1..])
  }

  // ---------- invariants ----------

  predicate Critical(pc: Pc) { pc.Stored? || pc.Signalled? || pc.Checking? || pc.Got? }

  predicate Exclusive(s: State) {
    && (s.lock.Some? ==> s.lock.value in s.pcs)
    && (forall t :: t in s.pcs ==> (Critical(s.pcs[t]) <==> s.lock == Some(t)))
  }

  lemma StepExclusive(s: State, a: Action)
    requires s.ring.Valid() && Exclusive(s) && Enabled(s, a)
    ensures Exclusive(Do(s, a))
  {
    var e := Effect(s, a);
    assert forall t :: t in s.pcs ==> t in e.pcs && (Critical(e.pcs[t]) <==> Critical(s.pcs[t]));
  }

  /** The holder is about to signal once, or about to take one fd or none at all. */
  function Slack(s: State): nat {
    if s.lock.None? then 0
    else
      var pc := At(s, s.lock.value);
      if pc.Stored? || pc.Checking? then 1 else 0
  }

  /** Whoever sleeps, there are enough workers awake for the queued fds. */
  ghost predicate EnoughAwake(s: State)
    requires s.ring.Valid()
  {
    Sleepers(s) != {} ==> |Live(s.ring)| <= |Awake(s)| + Slack(s)
  }

  lemma SetsStep(s: State, a: Action)
    requires s.ring.Valid() && Exclusive(s) && Enabled(s, a)
    ensures var s' := Do(s, a);
            match a
            case Signal(_, chosen) => Sleepers(s') == Sleepers(s) - chosen && Awake(s') == Awake(s) + chosen
            case LockPop(t) => Sleepers(s') == Sleepers(s) && Awake(s') == Awake(s) - {t}
            case Check(t) => Awake(s') == Awake(s) && (Live(s.ring) != [] ==> Sleepers(s') == Sleepers(s))
            case Spurious(t) => Sleepers(s') == Sleepers(s) - {t} && Awake(s') == Awake(s) + {t}
            case _ => Sleepers(s') == Sleepers(s) && Awake(s') == Awake(s)
    ensures Sleepers(s) !! Awake(s)
  {
  }

  lemma StepEnough(s: State, a: Action)
    requires s.ring.Valid() && Exclusive(s) && EnoughAwake(s) && Enabled(s, a)
    ensures EnoughAwake(Do(s, a))
  {
    SetsStep(s, a);
    match a
    case Store(t) => PushAppends(s.ring, s.pcs[t].fd);
    case Check(t) =>
      if Live(s.ring) != [] {
        PopTakes(s.ring);
      }
    case Signal(t, chosen) =>
      assert |Awake(s) + chosen| == |Awake(s)| + |chosen|;
      assert chosen != {} ==> |chosen| >= 1;
    case _ =>
  }

  predicate Fifo(s: State)
    requires s.ring.Valid()
  {
    s.pushed == s.popped + Live(s.ring)
  }

  /** The producer's obligation: push only while the ring has room. */
  predicate Legal(s: State, a: Action)
    requires s.ring.Valid()
  {
    a.Store? ==> HasRoom(s.ring)
  }

  lemma StepFifo(s: State, a: Action)
    requires s.ring.Valid() && Fifo(s) && Enabled(s, a) && Legal(s, a)
    ensures Fifo(Do(s, a))
  {
    match a
    case Store(t) =>
      PushAppends(s.ring, s.pcs[t].fd);
      Assoc(s.popped, Live(s.ring), [s.pcs[t].fd]);
    case Check(t) =>
      if Live(s.ring) != [] {
        PopTakes(s.ring);
        Assoc(s.popped, [s.ring.fd[s.ring.front]], Live(Popped(s.ring)));
      }
    case _ =>
  }

  lemma {:induction false} RunEnough(s: State, run: seq<Action>)
    requires s.ring.Valid() && Exclusive(s) && EnoughAwake(s) && Possible(s, run)
    ensures Exclusive(Run(s, run)) && EnoughAwake(Run(s, run))
    decreases |run|
  {
    if run != [] {
      StepExclusive(s, run[0]);
      StepEnough(s, run[0]);
      RunEnough(Do(s, run[0]), run[1..]);
    }
  }

  /**
   No worker sleeps beside queued work: under stealing and spurious wakeups, while anyone
   sleeps, the woken workers (with the one at the loop test, or the signal about to be sent)
   are at least as many as the queued fds. Even a full ring does not break this.
   */
  lemma NoSleeperBesideWork(s: State, run: seq<Action>)
    requires Initial(s) && Possible(s, run)
    ensures var t := Run(s, run);
            Sleepers(t) != {} ==>
              |Live(t.ring)| <= |Awake(t)| + Slack(t) &&
              (t.lock.None? && Live(t.ring) != [] ==> exists w :: w in Awake(t))
  {
    RunEnough(s, run);
    var t := Run(s, run);
    if Sleepers(t) != {} && t.lock.None? && Live(t.ring) != [] {
      assert Awake(t) != {};
    }
  }

  predicate LegalRun(s: State, run: seq<Action>)
    requires s.ring.Valid()
    decreases |run|
  {
    run == [] || (Legal(s, run[0]) && LegalRun(Do(s, run[0]), run[1..]))
  }

  /** Entries are missing, and nothing brings them back. */
  predicate Lossy(s: State)
    requires s.ring.Valid()
  {
    |s.popped| + |Live(s.ring)| < |s.pushed|
  }

  lemma StepLossy(s: State, a: Action)
    requires s.ring.Valid() && Enabled(s, a)
    ensures Lossy(s) ==> Lossy(Do(s, a))
    ensures Fifo(s) && !Legal(s, a) ==> Lossy(Do(s, a))
  {
    match a
    case Store(t) => PushAppends(s.ring, s.pcs[t].fd);
    case Check(t) =>
      if Live(s.ring) != [] {
        PopTakes(s.ring);
      }
    case _ =>
  }

  lemma {:induction false} RunFifo(s: State, run: seq<Action>)
    requires s.ring.Valid() && Possible(s, run)
    ensures Lossy(s) ==> Lossy(Run(s, run))
    ensures Fifo(s) ==> if LegalRun(s, run) then Fifo(Run(s, run)) else Lossy(Run(s, run))
    decreases |run|
  {
    if run != [] {
      StepLossy(s, run[0]);
      if Fifo(s) && Legal(s, run[0]) {
        StepFifo(s, run[0]);
      }
      RunFifo(Do(s, run[0]), run[1..]);
    }
  }

  // ---------- what the threads offer and get ----------

  /** The fds whose pushes are carried out, in that order, from the calls alone; `begun` are the calls under way. */
  function Offered(run: seq<Action>, begun: map<Tid, int>): seq<int>
    decreases |run|
  {
    if run == [] then []
    else
      match run[0]
      case BeginPush(t, fd) => Offered(run[1..], begun[t := fd])
      case Store(t) => (if t in begun then [begun[t]] else []) + Offered(run[1..], begun)
      case _ => Offered(run[1..], begun)
  }

  /** The fds that pops hand to their workers, in order. */
  function Handed(s: State, run: seq<Action>): seq<int>
    requires s.ring.Valid()
    decreases |run|
  {
    if run == [] then []
    else
      HandedBy(s, run[0]) + Handed(Do(s, run[0]), run[1..])
  }

  function HandedBy(s: State, a: Action): seq<int>
    requires s.ring.Valid()
  {
    var pc := At(Do(s, a), a.t);
    if a.Check? && pc.Got? then [pc.fd] else []
  }

  predicate Calling(s: State, begun: map<Tid, int>) {
    forall t :: t in s.pcs && s.pcs[t].WantsPush? ==> t in begun && begun[t] == s.pcs[t].fd
  }

  lemma {:induction false} OfferedIsPushed(s: State, run: seq<Action>, begun: map<Tid, int>)
    requires s.ring.Valid() && Possible(s, run) && Calling(s, begun)
    ensures Run(s, run).pushed == s.pushed + Offered(run, begun)
    decreases |run|
  {
    if run == [] {
      assert s.pushed + [] == s.pushed;
    } else {
      var t, rest := Do(s, run[0]), run[1..];
      match run[0]
      case BeginPush(u, fd) =>
        OfferedIsPushed(t, rest, begun[u := fd]);
      case Store(u) =>
        OfferedIsPushed(t, rest, begun);
        Assoc(s.pushed, [begun[u]], Offered(rest, begun));
      case _ =>
        OfferedIsPushed(t, rest, begun);
    }
  }

  /** A worker that finds work is handed the oldest fd. */
  lemma CheckHandsOldest(s: State, w: Tid)
    requires s.ring.Valid() && Enabled(s, Check(w))
    ensures var t := Do(s, Check(w));
            if Live(s.ring) == [] then t.pcs[w].Waiting? && t.lock.None? && t.popped == s.popped
            else t.pcs[w] == Got(Live(s.ring)[0]) && t.popped == s.popped + [Live(s.ring)[0]] &&
                 Live(t.ring) == Live(s.ring)[1..]
  {
    if Live(s.ring) != [] {
      PopTakes(s.ring);
    }
  }

  lemma CheckOnly(s: State, a: Action)
    requires s.ring.Valid() && Enabled(s, a)
    ensures Do(s, a).popped == s.popped + HandedBy(s, a)
  {
    if a.Check? {
      CheckHandsOldest(s, a.t);
    }
    assert s.popped + [] == s.popped;
  }

  lemma {:induction false} HandedIsPopped(s: State, run: seq<Action>)
    requires s.ring.Valid() && Possible(s, run)
    ensures Run(s, run).popped == s.popped + Handed(s, run)
    decreases |run|
  {
    if run == [] {
      assert s.popped + [] == s.popped;
    } else {
      var t, rest := Do(s, run[0]), run[1..];
      HandedIsPopped(t, rest);
      CheckOnly(s, run[0]);
      Assoc(s.popped, HandedBy(s, run[0]), Handed(t, rest));
    }
  }

  /** Whoever has an fd and the lock has the one popped last. */
  predicate HoldsLast(s: State) {
    forall w :: w in s.pcs && s.pcs[w].Got? ==> s.popped != [] && s.popped[|s.popped| - 1] == s.pcs[w].fd
  }

  lemma {:induction false} GotIsLastPopped(s: State, run: seq<Action>)
    requires s.ring.Valid() && Exclusive(s) && HoldsLast(s) && Possible(s, run)
    ensures HoldsLast(Run(s, run))
    decreases |run|
  {
    if run != [] {
      StepExclusive(s, run[0]);
      if run[0].Check? {
        CheckHandsOldest(s, run[0].t);
      }
      assert HoldsLast(Do(s, run[0]));
      GotIsLastPopped(Do(s, run[0]), run[1..]);
    }
  }

  /**
   First in, first out, each exactly once, for any interleaving of pushers and workers: the fds
   offered are those handed to workers followed by those in the ring exactly when no push ever
   found the ring without room; and a worker with the lock and an fd has the one popped last.
   */
  lemma QueueIsFifo(s: State, run: seq<Action>)
    requires Initial(s) && Possible(s, run)
    ensures var t := Run(s, run);
            t.pushed == Offered(run, map[]) && t.popped == Handed(s, run) &&
            (Offered(run, map[]) == Handed(s, run) + Live(t.ring) <==> LegalRun(s, run)) &&
            HoldsLast(t)
  {
    RunFifo(s, run);
    OfferedIsPushed(s, run, map[]);
    HandedIsPopped(s, run);
    GotIsLastPopped(s, run);
    assert [] + Offered(run, map[]) == Offered(run, map[]) && [] + Handed(s, run) == Handed(s, run);
  }

  /** When the lock is free and a worker sleeps beside queued fds, an awake one can take the oldest. */
  lemma QueuedWorkMoves(s: State, run: seq<Action>) returns (w: Tid)
    requires Initial(s) && Possible(s, run)
    requires var t := Run(s, run);
             t.lock.None? && Live(t.ring) != [] && Sleepers(t) != {}
    ensures var t := Run(s, run);
            Possible(t, [LockPop(w), Check(w)]) &&
            At(Run(t, [LockPop(w), Check(w)]), w) == Got(Live(t.ring)[0]) &&
            Run(t, [LockPop(w), Check(w)]).popped == t.popped + [Live(t.ring)[0]]
  {
    NoSleeperBesideWork(s, run);
    var t := Run(s, run);
    w :| w in Awake(t);
    PopTakes(t.ring);
    var t1 := Do(t, LockPop(w));
    assert [LockPop(w), Check(w)][1..] == [Check(w)] && [Check(w)][1..] == [];
    assert Possible(Do(t1, Check(w)), []) && Run(Do(t1, Check(w)), []) == Do(t1, Check(w));
    assert Possible(t1, [Check(w)]) && Run(t1, [Check(w)]) == Do(t1, Check(w));
  }
}
