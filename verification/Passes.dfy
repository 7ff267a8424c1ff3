/** One pass of `poll_dispatch` over the slot table, with callbacks that edit the tables. */
module Passes {
  import opened Prelude
  import opened Channels
  import opened Registries

  datatype Event = Readable | Writeable

  datatype Call = Call(channel: Channel, event: Event)

  /**
   A pass under way: the tables, the callbacks made so far, and what the coming callbacks
   will do. Entry k of `script` lists the operations the k-th callback posts; the owner
   carries them out at once, after those that other threads have queued by then, which count
   as part of the entry.
   */
  datatype Pass = Pass(reg: Registry, calls: seq<Call>, script: seq<seq<Request>>)

  function Posts(s: Pass): seq<Request> { if s.script == [] then [] else s.script[0] }

  function Fire(s: Pass, c: Channel, e: Event): Pass {
    Pass(ApplyAll(s.reg, Posts(s)), s.calls + [Call(c, e)], Rest(s.script))
  }

  function Handles(c: Channel, e: Event): bool {
    if e.Readable? then c.onReadable else c.onWriteable
  }

  /** `event_loop_active` for a single event. */
  function Active(s: Pass, fd: int, e: Event): Pass {
    if s.reg.broken || fd < 0 || fd > |s.reg.entities| then s
    else if fd == |s.reg.entities| then s.(reg := s.reg.(broken := true))
    else
      var c := s.reg.entities[fd];
      if c == null then s
      else if c.fd != fd then s.(reg := s.reg.(broken := true))
      else if Handles(c, e) then Fire(s, c, e)
      else s
  }

  /** `revents` is a signed short in the source. */
  predicate Positive(revents: bv16) { 0 < revents < 0x8000 }

  const SIGN_BIT: bv16 := 0x8000

  lemma PositiveBits(revents: bv16)
    ensures Positive(revents) <==> revents != 0 && revents & SIGN_BIT == 0
  {
  }

  /** The loop body for slot `i`: fd and revents are read once, before any callback. */
  function Visit(s: Pass, i: nat): (t: Pass)
    requires i < |s.reg.slots|
    ensures |t.reg.slots| == |s.reg.slots|
  {
    var p := s.reg.slots[i];
    if p.fd < 0 || !Positive(p.revents) then s
    else
      ActiveKeepsRevents(s, p.fd, Readable);
      var t := if p.revents & POLLRDNORM != 0 then Active(s, p.fd, Readable) else s;
      ActiveKeepsRevents(t, p.fd, Writeable);
      if p.revents & POLLWRNORM != 0 then Active(t, p.fd, Writeable) else t
  }

  /** The whole scan from slot `i` on, with no early exit. */
  function ScanAll(s: Pass, i: nat): (t: Pass)
    requires i <= |s.reg.slots|
    decreases |s.reg.slots| - i
  {
    if i == |s.reg.slots| then s else ScanAll(Visit(s, i), i + 1)
  }

  /** What `poll` writes: free slots report nothing, the others whatever the kernel found. */
  function Polled(slots: seq<PollFd>, revents: seq<bv16>): (r: seq<PollFd>)
    requires |revents| == |slots|
    ensures |r| == |slots|
  {
    seq(|slots|, i requires 0 <= i < |slots| => slots[i].(revents := if slots[i].fd < 0 then 0 else revents[i]))
  }

  /** How many slots from `i` on have something to report: what `poll` returns for `i == 0`. */
  function CountReady(slots: seq<PollFd>, i: nat): nat
    requires i <= |slots|
    decreases |slots| - i
  {
    if i == |slots| then 0 else (if slots[i].revents != 0 then 1 else 0) + CountReady(slots, i + 1)
  }

  // ---------- the early exit ----------

  predicate SameRevents(a: seq<PollFd>, b: seq<PollFd>) {
    |a| == |b| && forall i :: 0 <= i < |a| ==> a[i].revents == b[i].revents
  }

  lemma {:induction false} ApplyAllKeepsRevents(r: Registry, qs: seq<Request>)
    ensures SameRevents(r.slots, ApplyAll(r, qs).slots)
    decreases |qs|
  {
    if qs != [] {
      assert SameRevents(r.slots, Apply(r, qs[0]).slots);
      ApplyAllKeepsRevents(Apply(r, qs[0]), qs[1..]);
    }
  }

  lemma ActiveKeepsRevents(s: Pass, fd: int, e: Event)
    ensures SameRevents(s.reg.slots, Active(s, fd, e).reg.slots)
  {
    ApplyAllKeepsRevents(s.reg, Posts(s));
  }

  lemma VisitKeepsRevents(s: Pass, i: nat)
    requires i < |s.reg.slots|
    ensures SameRevents(s.reg.slots, Visit(s, i).reg.slots)
  {
    var fd := s.reg.slots[i].fd;
    ActiveKeepsRevents(s, fd, Readable);
    ActiveKeepsRevents(Active(s, fd, Readable), fd, Writeable);
    ActiveKeepsRevents(s, fd, Writeable);
  }

  lemma {:induction false} ReadySame(a: seq<PollFd>, b: seq<PollFd>, i: nat)
    requires SameRevents(a, b) && i <= |a|
    ensures CountReady(a, i) == CountReady(b, i)
    decreases |a| - i
  {
    if i < |a| {
      ReadySame(a, b, i + 1);
    }
  }

  /** Once nothing is left to report, the rest of the scan does nothing. */
  lemma {:induction false} ScanIdle(s: Pass, i: nat)
    requires i <= |s.reg.slots| && CountReady(s.reg.slots, i) == 0
    ensures ScanAll(s, i) == s
    decreases |s.reg.slots| - i
  {
    if i < |s.reg.slots| {
      ScanIdle(s, i + 1);
    }
  }

  /** A pass right after `poll` has answered `revents`. */
  function AfterPoll(s: Pass, revents: seq<bv16>): (t: Pass)
    requires |revents| == |s.reg.slots|
    ensures |t.reg.slots| == |s.reg.slots|
  {
    s.(reg := s.reg.(slots := Polled(s.reg.slots, revents)))
  }

  /** The loop of the source: `ready` counts down and ends it early. */
  function ScanEarly(s: Pass, i: nat, ready: int): (t: Pass)
    requires i <= |s.reg.slots|
    decreases |s.reg.slots| - i
  {
    if i == |s.reg.slots| then s
    else
      var p := s.reg.slots[i];
      if p.fd < 0 || !Positive(p.revents) then ScanEarly(s, i + 1, ready)
      else if ready - 1 <= 0 then Visit(s, i)
      else ScanEarly(Visit(s, i), i + 1, ready - 1)
  }

  /**
   One visit never uses up more of the countdown than the slot had to report, so a countdown
   that covers the rest still covers it afterwards.
   */
  lemma CountdownCovers(s: Pass, i: nat, ready: nat)
    requires i < |s.reg.slots| && CountReady(s.reg.slots, i) <= ready
    ensures var p := s.reg.slots[i];
            var spent := if p.fd >= 0 && p.revents != 0 && p.revents & SIGN_BIT == 0 then 1 else 0;
            CountReady(Visit(s, i).reg.slots, i + 1) <= ready - spent
  {
    PositiveBits(s.reg.slots[i].revents);
    VisitKeepsRevents(s, i);
    ReadySame(s.reg.slots, Visit(s, i).reg.slots, i + 1);
  }

  /** For every pass, whatever its callbacks do, the early exit leaves nothing out. */
  lemma {:induction false} EarlyExitIsFullScan(s: Pass, i: nat, ready: nat)
    requires i <= |s.reg.slots| && CountReady(s.reg.slots, i) <= ready
    ensures ScanEarly(s, i, ready) == ScanAll(s, i)
    decreases |s.reg.slots| - i
  {
    if i < |s.reg.slots| {
      PositiveBits(s.reg.slots[i].revents);
      CountdownCovers(s, i, ready);
      var p := s.reg.slots[i];
      if p.fd < 0 || !Positive(p.revents) {
        EarlyExitIsFullScan(s, i + 1, ready);
      } else if ready == 1 {
        ScanIdle(Visit(s, i), i + 1);
      } else {
        EarlyExitIsFullScan(Visit(s, i), i + 1, ready - 1);
      }
    }
  }

  lemma {:induction false} ScanBrokenStays(s: Pass, i: nat)
    requires i <= |s.reg.slots|
    ensures s.reg.broken ==> ScanAll(s, i).reg.broken
    decreases |s.reg.slots| - i
  {
    if i < |s.reg.slots| {
      ScanBrokenStays(Visit(s, i), i + 1);
    }
  }

  // ---------- who is called ----------

  function Nth(script: seq<seq<Request>>, k: nat): seq<Request> { if k < |script| then script[k] else [] }

  function Later(script: seq<seq<Request>>, k: nat): seq<seq<Request>> { if k <= |script| then script[k..] else [] }

  /** The tables when callback `k` is made: `start` after everything the earlier callbacks posted. */
  function Before(start: Registry, script: seq<seq<Request>>, k: nat): Registry {
    if k == 0 then start else ApplyAll(Before(start, script, k - 1), Nth(script, k - 1))
  }

  /** The channel registered for `fd` in defined tables, if any, gets the event. */
  function Told(r: Registry, fd: int, e: Event): seq<Call> {
    if !r.broken && Registered(r, fd) && r.entities[fd].fd == fd && Handles(r.entities[fd], e)
    then [Call(r.entities[fd], e)] else []
  }

  /** An activation tells the channel registered at that moment, and nobody else. */
  lemma ActiveTellsLive(s: Pass, fd: int, e: Event)
    ensures Active(s, fd, e).calls == s.calls + Told(s.reg, fd, e)
    ensures Told(s.reg, fd, e) != [] ==>
              Active(s, fd, e).reg == ApplyAll(s.reg, Posts(s)) && Active(s, fd, e).script == Rest(s.script)
    ensures Told(s.reg, fd, e) == [] ==>
              Active(s, fd, e).script == s.script && (Active(s, fd, e).reg == s.reg || Active(s, fd, e).reg.broken)
  {
  }

  /** A lookup that calls nobody fails exactly for the array length, and for a channel under a wrong fd. */
  lemma LookupBreaks(s: Pass, fd: int, e: Event)
    requires Told(s.reg, fd, e) == []
    ensures Active(s, fd, e).reg.broken <==>
              s.reg.broken || fd == |s.reg.entities| || (Registered(s.reg, fd) && s.reg.entities[fd].fd != fd)
  {
  }

  /**
   The write activation of a visit goes to the channel registered after the read callback; a
   handler that removed the fd silences it.
   */
  lemma VisitTellsLive(s: Pass, i: nat)
    requires i < |s.reg.slots|
    ensures var p := s.reg.slots[i];
            var reports := p.fd >= 0 && p.revents & SIGN_BIT == 0;
            var toRead, toWrite := reports && p.revents & POLLRDNORM != 0, reports && p.revents & POLLWRNORM != 0;
            var t := if toRead then Active(s, p.fd, Readable) else s;
            Visit(s, i).calls == s.calls + (if toRead then Told(s.reg, p.fd, Readable) else [])
                                         + (if toWrite then Told(t.reg, p.fd, Writeable) else []) &&
            (!Registered(t.reg, p.fd) ==> Visit(s, i).calls == t.calls)
  {
    var p := s.reg.slots[i];
    PositiveBits(p.revents);
    ActiveTellsLive(s, p.fd, Readable);
    ActiveTellsLive(Active(s, p.fd, Readable), p.fd, Writeable);
    ActiveTellsLive(s, p.fd, Writeable);
  }

  /** The call goes to the channel these tables hold under its fd. */
  predicate Live(r: Registry, call: Call) {
    !r.broken && Registered(r, call.channel.fd) && r.entities[call.channel.fd] == call.channel
  }

  /** A pass under way that began as `from` has done what its script says so far. */
  predicate OnScript(from: Pass, s: Pass) {
    from.calls <= s.calls &&
    var n := |s.calls| - |from.calls|;
    s.script == Later(from.script, n) && (s.reg == Before(from.reg, from.script, n) || s.reg.broken)
  }

  /** The `k`-th call since `from` was live when it was made. */
  predicate LiveCall(from: Pass, calls: seq<Call>, k: nat)
    requires |from.calls| + k < |calls|
  {
    Live(Before(from.reg, from.script, k), calls[|from.calls| + k])
  }

  /** A pass under way that began as `from`: every call since then was live. */
  predicate Follows(from: Pass, s: Pass) {
    OnScript(from, s) && forall k :: 0 <= k < |s.calls| - |from.calls| ==> LiveCall(from, s.calls, k)
  }

  lemma ActiveOnScript(from: Pass, s: Pass, fd: int, e: Event)
    requires OnScript(from, s)
    ensures OnScript(from, Active(s, fd, e))
  {
    ActiveTellsLive(s, fd, e);
    assert Posts(s) == Nth(from.script, |s.calls| - |from.calls|);
  }

  lemma ActiveFollows(from: Pass, s: Pass, fd: int, e: Event)
    requires Follows(from, s)
    ensures Follows(from, Active(s, fd, e))
  {
    ActiveOnScript(from, s, fd, e);
    ActiveTellsLive(s, fd, e);
    var t := Active(s, fd, e);
    forall k | 0 <= k < |t.calls| - |from.calls|
      ensures LiveCall(from, t.calls, k)
    {
      if k < |s.calls| - |from.calls| {
        assert LiveCall(from, s.calls, k);
      }
    }
  }

  lemma VisitFollows(from: Pass, s: Pass, i: nat)
    requires i < |s.reg.slots| && Follows(from, s)
    ensures Follows(from, Visit(s, i))
  {
    var fd := s.reg.slots[i].fd;
    ActiveFollows(from, s, fd, Readable);
    ActiveFollows(from, Active(s, fd, Readable), fd, Writeable);
    ActiveFollows(from, s, fd, Writeable);
  }

  lemma {:induction false} ScanFollows(from: Pass, s: Pass, i: nat)
    requires i <= |s.reg.slots| && Follows(from, s)
    ensures Follows(from, ScanAll(s, i))
    decreases |s.reg.slots| - i
  {
    if i < |s.reg.slots| {
      VisitFollows(from, s, i);
      ScanFollows(from, Visit(s, i), i + 1);
    }
  }

  /**
   Over a whole pass, whatever its callbacks post: each call goes to the channel that is
   registered under its fd once the earlier callbacks have done their work.
   */
  lemma CallsAreLive(s: Pass)
    ensures Follows(s, ScanAll(s, 0))
    ensures var t := ScanAll(s, 0);
            s.calls <= t.calls &&
            forall k :: 0 <= k < |t.calls| - |s.calls| ==>
              Live(Before(s.reg, s.script, k), t.calls[|s.calls| + k])
  {
    ScanFollows(s, s, 0);
    var t := ScanAll(s, 0);
    forall k | 0 <= k < |t.calls| - |s.calls|
      ensures Live(Before(s.reg, s.script, k), t.calls[|s.calls| + k])
    {
      assert LiveCall(s, t.calls, k);
    }
  }

  // ---------- staying in range ----------

  /** Every slot and every entry is in its place; a full slot table does not matter here. */
  ghost predicate InPlace(r: Registry) {
    && !r.broken
    && (forall fd :: Registered(r, fd) ==> r.entities[fd].fd == fd)
    && (forall i :: 0 <= i < |r.slots| ==> r.slots[i].fd < |r.entities|)
  }

  /** Each operation, when its turn comes, adds or names an fd other than the array length. */
  predicate InTurn(r: Registry, qs: seq<Request>)
    decreases |qs|
  {
    qs == [] ||
    ((qs[0].op.kind == ADD || qs[0].op.channel.fd != |r.entities|) && InTurn(Apply(r, qs[0]), qs[1..]))
  }

  lemma ApplyInPlace(r: Registry, q: Request)
    requires InPlace(r)
    ensures if q.op.kind == ADD || q.op.channel.fd != |r.entities|
            then InPlace(Apply(r, q)) && |r.entities| <= |Apply(r, q).entities|
            else Apply(r, q).broken
  {
    var r' := Apply(r, q);
    match q.op.kind
    case ADD =>
      assert forall i :: 0 <= i < |r'.slots| ==> r'.slots[i].fd == r.slots[i].fd || r'.slots[i].fd == q.op.channel.fd;
    case DELETE =>
      assert forall i :: 0 <= i < |r'.slots| ==> r'.slots[i].fd == r.slots[i].fd || r'.slots[i].fd < 0;
    case UPDATE =>
      assert forall i :: 0 <= i < |r'.slots| ==> r'.slots[i].fd == r.slots[i].fd;
  }

  lemma {:induction false} PostsInPlace(r: Registry, qs: seq<Request>)
    requires InPlace(r)
    ensures if InTurn(r, qs) then InPlace(ApplyAll(r, qs)) && |r.entities| <= |ApplyAll(r, qs).entities|
            else ApplyAll(r, qs).broken
    decreases |qs|
  {
    if qs != [] {
      ApplyInPlace(r, qs[0]);
      if Apply(r, qs[0]).broken {
        BrokenStays(Apply(r, qs[0]), qs[1..]);
      } else {
        PostsInPlace(Apply(r, qs[0]), qs[1..]);
      }
    }
  }

  /** The first `n` callbacks post nothing out of turn. */
  predicate GuardedUpTo(start: Registry, script: seq<seq<Request>>, n: nat) {
    n == 0 || (GuardedUpTo(start, script, n - 1) && InTurn(Before(start, script, n - 1), Nth(script, n - 1)))
  }

  /** The tables are in place if all callbacks so far kept the guard, and only then defined. */
  ghost predicate SafeSoFar(from: Pass, s: Pass) {
    from.calls <= s.calls &&
    var n := |s.calls| - |from.calls|;
    s.script == Later(from.script, n) &&
    if GuardedUpTo(from.reg, from.script, n) then InPlace(s.reg) && s.reg == Before(from.reg, from.script, n)
    else s.reg.broken
  }

  lemma ActiveSafe(from: Pass, s: Pass, fd: int, e: Event)
    requires SafeSoFar(from, s) && fd < |s.reg.entities|
    ensures var t := Active(s, fd, e);
            SafeSoFar(from, t) && (t.reg.broken || fd < |t.reg.entities|)
  {
    if Told(s.reg, fd, e) != [] {
      assert Posts(s) == Nth(from.script, |s.calls| - |from.calls|);
      PostsInPlace(s.reg, Posts(s));
    }
  }

  lemma VisitSafe(from: Pass, s: Pass, i: nat)
    requires SafeSoFar(from, s) && i < |s.reg.slots|
    ensures SafeSoFar(from, Visit(s, i))
  {
    if !s.reg.broken {
      var fd := s.reg.slots[i].fd;
      ActiveSafe(from, s, fd, Readable);
      ActiveSafe(from, s, fd, Writeable);
      var t := Active(s, fd, Readable);
      if !t.reg.broken {
        ActiveSafe(from, t, fd, Writeable);
      }
    }
  }

  lemma {:induction false} ScanSafeSoFar(from: Pass, s: Pass, i: nat)
    requires SafeSoFar(from, s) && i <= |s.reg.slots|
    ensures SafeSoFar(from, ScanAll(s, i))
    decreases |s.reg.slots| - i
  {
    if i < |s.reg.slots| {
      VisitSafe(from, s, i);
      ScanSafeSoFar(from, Visit(s, i), i + 1);
    }
  }

  /**
   The `>` guards are enough exactly when no callback of the pass removes or updates an fd
   that equals the length of the array at that moment.
   */
  lemma ScanSafe(s: Pass)
    requires InPlace(s.reg)
    ensures var t := ScanAll(s, 0);
            s.calls <= t.calls &&
            (!t.reg.broken <==> GuardedUpTo(s.reg, s.script, |t.calls| - |s.calls|)) &&
            (!t.reg.broken ==> InPlace(t.reg))
  {
    ScanSafeSoFar(s, s, 0);
  }

  /** Tables in agreement are in place, so `ScanSafe` speaks of every pass a disciplined loop makes. */
  lemma AgreementInPlace(r: Registry)
    requires Agreement(r)
    ensures InPlace(r)
  {
    forall i | 0 <= i < |r.slots|
      ensures r.slots[i].fd < |r.entities|
    {
      if r.slots[i].fd >= 0 {
        SlotsInRange(r, i);
      }
    }
  }

  // ---------- stale reports ----------

  function Bit(e: Event): bv16 { if e.Readable? then POLLRDNORM else POLLWRNORM }

  /** `poll` itself reported this event for this fd. */
  predicate Reported(polled: seq<PollFd>, call: Call) {
    exists i :: 0 <= i < |polled| && polled[i].fd == call.channel.fd && polled[i].revents & Bit(call.event) != 0
  }

  predicate ReportedFor(polled: seq<PollFd>, fd: int, e: Event) {
    exists i :: 0 <= i < |polled| && polled[i].fd == fd && polled[i].revents & Bit(e) != 0
  }

  /** The tables when the write event of slot `k` is handled. */
  function AfterReading(t: Pass, k: nat): Pass
    requires k < |t.reg.slots|
  {
    var p := t.reg.slots[k];
    if p.revents & POLLRDNORM != 0 then Active(t, p.fd, Readable) else t
  }

  /**
   Slot `k`, as the scan finds it in `t`: another fd has taken it since the poll, its `revents` is still
   the old one, and the occupant handles something there that poll did not report for its fd.
   */
  predicate Stray(polled: seq<PollFd>, t: Pass, k: nat)
    requires k < |t.reg.slots| == |polled|
  {
    var p := t.reg.slots[k];
    && p.fd >= 0 && p.fd != polled[k].fd && p.revents & SIGN_BIT == 0
    && ((p.revents & POLLRDNORM != 0 && Told(t.reg, p.fd, Readable) != [] && !ReportedFor(polled, p.fd, Readable)) ||
        (p.revents & POLLWRNORM != 0 && Told(AfterReading(t, k).reg, p.fd, Writeable) != [] &&
         !ReportedFor(polled, p.fd, Writeable)))
  }

  /** Between `s` and `t` a channel on `fd` is called for an event that poll did not report. */
  predicate Misdirected(polled: seq<PollFd>, s: Pass, t: Pass, fd: int) {
    exists n :: |s.calls| <= n < |t.calls| && t.calls[n].channel.fd == fd && !Reported(polled, t.calls[n])
  }

  lemma AddedMisdirects(polled: seq<PollFd>, s: Pass, t: Pass, added: seq<Call>, fd: int)
    requires t.calls == s.calls + added
    ensures Misdirected(polled, s, t, fd) <==> exists c :: c in added && c.channel.fd == fd && !Reported(polled, c)
  {
    if Misdirected(polled, s, t, fd) {
      var n :| |s.calls| <= n < |t.calls| && t.calls[n].channel.fd == fd && !Reported(polled, t.calls[n]);
      assert t.calls[n] == added[n - |s.calls|];
    }
    forall c | c in added && c.channel.fd == fd && !Reported(polled, c)
      ensures Misdirected(polled, s, t, fd)
    {
      var n :| 0 <= n < |added| && added[n] == c;
      assert t.calls[|s.calls| + n] == c;
    }
  }

  /** The calls of one visit, all for the fd in the slot. */
  function VisitTells(s: Pass, k: nat): seq<Call>
    requires k < |s.reg.slots|
  {
    var p := s.reg.slots[k];
    if p.fd < 0 || p.revents & SIGN_BIT != 0 then []
    else
      (if p.revents & POLLRDNORM != 0 then Told(s.reg, p.fd, Readable) else []) +
      (if p.revents & POLLWRNORM != 0 then Told(AfterReading(s, k).reg, p.fd, Writeable) else [])
  }

  lemma VisitCalls(s: Pass, k: nat)
    requires k < |s.reg.slots|
    ensures Visit(s, k).calls == s.calls + VisitTells(s, k)
  {
    VisitTellsLive(s, k);
  }

  /** A call of the visit is for the slot's fd; if it answers no report, the slot is astray. */
  lemma TellIsReportedOrStray(polled: seq<PollFd>, s: Pass, k: nat, c: Call)
    requires SameRevents(polled, s.reg.slots) && k < |polled| && c in VisitTells(s, k)
    ensures c.channel.fd == s.reg.slots[k].fd
    ensures Reported(polled, c) || Stray(polled, s, k)
  {
    var p := s.reg.slots[k];
    assert polled[k].revents == p.revents && p.revents & Bit(c.event) != 0;
    if polled[k].fd == p.fd {
      assert Reported(polled, c);
    } else if !Reported(polled, c) {
      assert !ReportedFor(polled, p.fd, c.event);
    }
  }

  lemma VisitMisdirects(polled: seq<PollFd>, s: Pass, k: nat, fd: int)
    requires SameRevents(polled, s.reg.slots) && k < |polled|
    ensures s.calls <= Visit(s, k).calls
    ensures Misdirected(polled, s, Visit(s, k), fd) <==> s.reg.slots[k].fd == fd && Stray(polled, s, k)
  {
    VisitCalls(s, k);
    AddedMisdirects(polled, s, Visit(s, k), VisitTells(s, k), fd);
    if Misdirected(polled, s, Visit(s, k), fd) {
      var c :| c in VisitTells(s, k) && c.channel.fd == fd && !Reported(polled, c);
      TellIsReportedOrStray(polled, s, k, c);
    }
    if s.reg.slots[k].fd == fd && Stray(polled, s, k) {
      StrayTells(polled, s, k);
    }
  }

  lemma StrayTells(polled: seq<PollFd>, s: Pass, k: nat)
    requires k < |s.reg.slots| == |polled| && Stray(polled, s, k)
    ensures exists c :: c in VisitTells(s, k) && c.channel.fd == s.reg.slots[k].fd && !Reported(polled, c)
  {
    var p := s.reg.slots[k];
    if p.revents & POLLRDNORM != 0 && Told(s.reg, p.fd, Readable) != [] && !ReportedFor(polled, p.fd, Readable) {
      var c := Told(s.reg, p.fd, Readable)[0];
      assert c in VisitTells(s, k) && !Reported(polled, c);
    } else {
      var c := Told(AfterReading(s, k).reg, p.fd, Writeable)[0];
      assert c in VisitTells(s, k) && !Reported(polled, c);
    }
  }

  lemma MisdirectedJoins(polled: seq<PollFd>, s: Pass, t: Pass, u: Pass, fd: int)
    requires s.calls <= t.calls <= u.calls
    ensures Misdirected(polled, s, u, fd) <==> Misdirected(polled, s, t, fd) || Misdirected(polled, t, u, fd)
  {
    if Misdirected(polled, s, t, fd) {
      var n :| |s.calls| <= n < |t.calls| && t.calls[n].channel.fd == fd && !Reported(polled, t.calls[n]);
      assert u.calls[n] == t.calls[n];
    }
    if Misdirected(polled, s, u, fd) {
      var n :| |s.calls| <= n < |u.calls| && u.calls[n].channel.fd == fd && !Reported(polled, u.calls[n]);
      if n < |t.calls| {
        assert t.calls[n] == u.calls[n];
      }
    }
  }

  /** The scan from slot `i` until it reaches slot `k`. */
  function ScanTo(s: Pass, i: nat, k: nat): (t: Pass)
    requires i <= k <= |s.reg.slots|
    ensures |t.reg.slots| == |s.reg.slots|
    decreases k - i
  {
    if i == k then s else ScanTo(Visit(s, i), i + 1, k)
  }

  /** The scan from slot `i` on finds `fd` astray in slot `k` when it gets there. */
  predicate StrayAt(polled: seq<PollFd>, s: Pass, i: nat, k: nat, fd: int)
    requires i <= k < |s.reg.slots| == |polled|
  {
    ScanTo(s, i, k).reg.slots[k].fd == fd && Stray(polled, ScanTo(s, i, k), k)
  }

  /**
   For every pass, whatever its callbacks do: an fd is called for something that poll did not
   report for it exactly if the scan comes to a slot where it finds the fd astray.
   */
  lemma {:induction false} MisdirectedIff(polled: seq<PollFd>, s: Pass, i: nat, fd: int)
    requires SameRevents(polled, s.reg.slots) && i <= |polled|
    ensures s.calls <= ScanAll(s, i).calls
    ensures Misdirected(polled, s, ScanAll(s, i), fd) <==>
              exists k :: i <= k < |polled| && StrayAt(polled, s, i, k, fd)
    decreases |polled| - i
  {
    if i < |polled| {
      var t := Visit(s, i);
      VisitKeepsRevents(s, i);
      VisitMisdirects(polled, s, i, fd);
      MisdirectedIff(polled, t, i + 1, fd);
      MisdirectedJoins(polled, s, t, ScanAll(s, i), fd);
      assert StrayAt(polled, s, i, i, fd) <==> Misdirected(polled, s, t, fd);
      if k :| i <= k < |polled| && StrayAt(polled, s, i, k, fd) {
        assert k > i ==> StrayAt(polled, t, i + 1, k, fd);
      }
      var next := i + 1;
      if k :| next <= k < |polled| && StrayAt(polled, t, next, k, fd) {
        assert StrayAt(polled, s, i, k, fd);
      }
    }
  }

  /** Every call of the rest of a pass answers a report of its poll exactly if no slot is found astray. */
  lemma GenuineIff(polled: seq<PollFd>, s: Pass, i: nat)
    requires SameRevents(polled, s.reg.slots) && i <= |polled|
    ensures (forall n :: |s.calls| <= n < |ScanAll(s, i).calls| ==> Reported(polled, ScanAll(s, i).calls[n])) <==>
            (forall k :: i <= k < |polled| ==> !Stray(polled, ScanTo(s, i, k), k))
  {
    var t := ScanAll(s, i);
    if n :| |s.calls| <= n < |t.calls| && !Reported(polled, t.calls[n]) {
      var fd := t.calls[n].channel.fd;
      MisdirectedIff(polled, s, i, fd);
      assert Misdirected(polled, s, t, fd);
      var k :| i <= k < |polled| && StrayAt(polled, s, i, k, fd);
    }
    if k :| i <= k < |polled| && Stray(polled, ScanTo(s, i, k), k) {
      var fd := ScanTo(s, i, k).reg.slots[k].fd;
      MisdirectedIff(polled, s, i, fd);
      assert StrayAt(polled, s, i, k, fd);
      var n :| |s.calls| <= n < |t.calls| && t.calls[n].channel.fd == fd && !Reported(polled, t.calls[n]);
    }
  }

  /** From slot `i` on a slot is as polled, or free, or has nothing to report. */
  predicate Fresh(polled: seq<PollFd>, slots: seq<PollFd>, i: nat) {
    SameRevents(polled, slots) &&
    forall j :: i <= j < |slots| ==> slots[j].fd == polled[j].fd || slots[j].fd < 0 || slots[j].revents == 0
  }

  /** The operation puts a new fd into the table. */
  predicate Fills(r: Registry, q: Request) {
    var fd := q.op.channel.fd;
    !r.broken && q.op.kind == ADD && fd >= 0 && !Registered(r, fd) && HasFree(r.slots)
  }

  /** Every fd that `qs` adds lands in a slot before `i` or in one with nothing to report. */
  predicate QuietPosts(r: Registry, qs: seq<Request>, i: nat)
    decreases |qs|
  {
    qs == [] ||
    ((Fills(r, qs[0]) ==> FreeFrom(r.slots, 0) < i || r.slots[FreeFrom(r.slots, 0)].revents == 0) &&
     QuietPosts(Apply(r, qs[0]), qs[1..], i))
  }

  predicate QuietActive(s: Pass, fd: int, e: Event, i: nat) {
    Told(s.reg, fd, e) != [] ==> QuietPosts(s.reg, Posts(s), i)
  }

  /** No callback of the pass adds an fd into a slot ahead that has something to report. */
  predicate QuietScan(s: Pass, i: nat)
    requires i <= |s.reg.slots|
    decreases |s.reg.slots| - i
  {
    i == |s.reg.slots| ||
    var p := s.reg.slots[i];
    var t := if p.revents & POLLRDNORM != 0 then Active(s, p.fd, Readable) else s;
    && (p.revents & POLLRDNORM != 0 ==> QuietActive(s, p.fd, Readable, i + 1))
    && (p.revents & POLLWRNORM != 0 ==> QuietActive(t, p.fd, Writeable, i + 1))
    && QuietScan(Visit(s, i), i + 1)
  }

  lemma {:induction false} PostsStayFresh(polled: seq<PollFd>, r: Registry, qs: seq<Request>, i: nat)
    requires Fresh(polled, r.slots, i) && QuietPosts(r, qs, i)
    ensures Fresh(polled, ApplyAll(r, qs).slots, i)
    decreases |qs|
  {
    if qs != [] {
      assert Fresh(polled, Apply(r, qs[0]).slots, i);
      PostsStayFresh(polled, Apply(r, qs[0]), qs[1..], i);
    }
  }

  lemma VisitFresh(polled: seq<PollFd>, s: Pass, i: nat)
    requires i < |s.reg.slots| && Fresh(polled, s.reg.slots, i) && QuietScan(s, i)
    ensures Fresh(polled, Visit(s, i).reg.slots, i + 1)
  {
    var p := s.reg.slots[i];
    PositiveBits(p.revents);
    if p.fd >= 0 && Positive(p.revents) {
      var t := AfterReading(s, i);
      if p.revents & POLLRDNORM != 0 {
        ActiveFresh(polled, s, p.fd, Readable, i + 1);
      }
      if p.revents & POLLWRNORM != 0 {
        ActiveFresh(polled, t, p.fd, Writeable, i + 1);
      }
    }
  }

  lemma ActiveFresh(polled: seq<PollFd>, s: Pass, fd: int, e: Event, i: nat)
    requires Fresh(polled, s.reg.slots, i) && QuietActive(s, fd, e, i)
    ensures Fresh(polled, Active(s, fd, e).reg.slots, i)
  {
    ActiveTellsLive(s, fd, e);
    ActiveKeepsRevents(s, fd, e);
    if Told(s.reg, fd, e) != [] {
      PostsStayFresh(polled, s.reg, Posts(s), i);
    }
  }

  lemma {:induction false} QuietIsNeverStray(polled: seq<PollFd>, s: Pass, i: nat, k: nat)
    requires i <= k < |s.reg.slots| && Fresh(polled, s.reg.slots, i) && QuietScan(s, i)
    ensures !Stray(polled, ScanTo(s, i, k), k)
    decreases k - i
  {
    if i < k {
      VisitFresh(polled, s, i);
      QuietIsNeverStray(polled, Visit(s, i), i + 1, k);
    }
  }

  /**
   A condition on the additions alone: every call of a pass answers a report of its poll, if whatever
   the callbacks add lands in a slot the scan has passed or in one with nothing to report.
   */
  lemma ScanGenuine(s: Pass)
    requires QuietScan(s, 0)
    ensures var t := ScanAll(s, 0);
            forall k :: |s.calls| <= k < |t.calls| ==> Reported(s.reg.slots, t.calls[k])
  {
    forall k | 0 <= k < |s.reg.slots|
      ensures !Stray(s.reg.slots, ScanTo(s, 0, k), k)
    {
      QuietIsNeverStray(s.reg.slots, s, 0, k);
    }
    GenuineIff(s.reg.slots, s, 0);
  }

  /** Slot `k`, and no other, holds the fd of `c` for as long as the fd is registered. */
  ghost predicate Serves(r: Registry, c: Channel, k: nat) {
    && !r.broken && 0 <= c.fd && k < |r.slots|
    && (forall g :: Registered(r, g) ==> r.entities[g].fd == g)
    && (Registered(r, c.fd) ==> r.entities[c.fd] == c)
    && (forall j :: 0 <= j < |r.slots| ==> (r.slots[j].fd == c.fd <==> j == k && Registered(r, c.fd)))
  }

  /** A new fd takes the first free slot, and the slot keeps its old `revents`. */
  lemma NewcomerServes(r: Registry, q: Request)
    requires Agreement(r) && Fills(r, q)
    ensures var r', k := Apply(r, q), FreeFrom(r.slots, 0);
            Serves(r', q.op.channel, k) && Registered(r', q.op.channel.fd) &&
            r'.slots[k].revents == r.slots[k].revents
  {
    assert !Holds(r.slots, q.op.channel.fd);
  }

  /** `qs` adds `fd` only while it is registered, which the code ignores. */
  predicate AddsInVain(r: Registry, qs: seq<Request>, fd: int)
    decreases |qs|
  {
    qs == [] ||
    ((qs[0].op.kind == ADD && qs[0].op.channel.fd == fd ==> Registered(r, fd)) &&
     AddsInVain(Apply(r, qs[0]), qs[1..], fd))
  }

  /** Once removed, `fd` is not added again. */
  predicate NeverReadds(r: Registry, script: seq<seq<Request>>, fd: int)
    decreases |script|
  {
    script == [] ||
    (AddsInVain(r, script[0], fd) && NeverReadds(ApplyAll(r, script[0]), script[1..], fd))
  }

  lemma ApplyServes(r: Registry, q: Request, c: Channel, k: nat)
    requires Serves(r, c, k) && (q.op.kind == ADD && q.op.channel.fd == c.fd ==> Registered(r, c.fd))
    ensures Apply(r, q).broken || Serves(Apply(r, q), c, k)
  {
  }

  lemma {:induction false} PostsServe(r: Registry, qs: seq<Request>, c: Channel, k: nat)
    requires Serves(r, c, k) && AddsInVain(r, qs, c.fd)
    ensures ApplyAll(r, qs).broken || Serves(ApplyAll(r, qs), c, k)
    decreases |qs|
  {
    if qs != [] {
      ApplyServes(r, qs[0], c, k);
      if Apply(r, qs[0]).broken {
        BrokenStays(Apply(r, qs[0]), qs[1..]);
      } else {
        PostsServe(Apply(r, qs[0]), qs[1..], c, k);
      }
    }
  }

  /** The channel has its slot, and the coming callbacks do not add its fd again after a removal. */
  ghost predicate Waiting(s: Pass, c: Channel, k: nat) {
    Serves(s.reg, c, k) && NeverReadds(s.reg, s.script, c.fd)
  }

  /** The channel is called between `s` and `t`. */
  predicate Heard(s: Pass, t: Pass, c: Channel) {
    exists n :: |s.calls| <= n < |t.calls| && t.calls[n].channel == c
  }

  lemma ActiveWaiting(s: Pass, fd: int, e: Event, c: Channel, k: nat)
    requires Waiting(s, c, k) && !Active(s, fd, e).reg.broken
    ensures Waiting(Active(s, fd, e), c, k)
  {
    if Told(s.reg, fd, e) != [] {
      PostsServe(s.reg, Posts(s), c, k);
    }
  }

  lemma VisitWaiting(s: Pass, i: nat, c: Channel, k: nat)
    requires Waiting(s, c, k) && i < |s.reg.slots| && !Visit(s, i).reg.broken
    ensures Waiting(Visit(s, i), c, k) && s.calls <= Visit(s, i).calls
    ensures i != k ==> !Heard(s, Visit(s, i), c)
    ensures i == k ==>
              (Heard(s, Visit(s, i), c) <==> Registered(s.reg, c.fd) && Hears(c, s.reg.slots[k].revents))
  {
    var p := s.reg.slots[i];
    var t := Active(s, p.fd, Readable);
    VisitTellsLive(s, i);
    if p.revents & POLLRDNORM != 0 && !t.reg.broken {
      ActiveWaiting(s, p.fd, Readable, c, k);
      if !Active(t, p.fd, Writeable).reg.broken {
        ActiveWaiting(t, p.fd, Writeable, c, k);
      }
    }
    if !Active(s, p.fd, Writeable).reg.broken {
      ActiveWaiting(s, p.fd, Writeable, c, k);
    }
    if i == k && Registered(s.reg, c.fd) && Hears(c, p.revents) {
      assert Visit(s, i).calls[|s.calls|].channel == c;
    }
  }

  /** The channel has a handler for something in `revents`. */
  predicate Hears(c: Channel, revents: bv16) {
    revents & SIGN_BIT == 0 &&
    ((revents & POLLRDNORM != 0 && c.onReadable) || (revents & POLLWRNORM != 0 && c.onWriteable))
  }

  /**
   Exactly when the rest of a pass calls a channel it finds registered at slot `i`: its slot is
   still ahead, the slot's `revents` holds something it handles, and the channel is not
   removed before the scan arrives.
   */
  lemma {:induction false} HeardIff(s: Pass, i: nat, c: Channel, k: nat)
    requires Waiting(s, c, k) && i <= |s.reg.slots| && !ScanAll(s, i).reg.broken
    ensures s.calls <= ScanAll(s, i).calls
    ensures Heard(s, ScanAll(s, i), c) <==>
              i <= k && Hears(c, s.reg.slots[k].revents) && Registered(ScanTo(s, i, k).reg, c.fd)
    decreases |s.reg.slots| - i
  {
    if i < |s.reg.slots| {
      var t := Visit(s, i);
      ScanBrokenStays(t, i + 1);
      VisitWaiting(s, i, c, k);
      VisitKeepsRevents(s, i);
      HeardIff(t, i + 1, c, k);
      HeardJoins(s, t, ScanAll(s, i), c);
    }
  }

  lemma HeardJoins(s: Pass, t: Pass, u: Pass, c: Channel)
    requires s.calls <= t.calls <= u.calls
    ensures Heard(s, u, c) <==> Heard(s, t, c) || Heard(t, u, c)
  {
    if Heard(s, t, c) {
      var n :| |s.calls| <= n < |t.calls| && t.calls[n].channel == c;
      assert u.calls[n].channel == c;
    }
    if Heard(s, u, c) {
      var n :| |s.calls| <= n < |u.calls| && u.calls[n].channel == c;
      if n < |t.calls| {
        assert t.calls[n].channel == c;
      }
    }
  }

  /**
   For a channel whose fd the poll did not cover: it is misdirected exactly if it took a slot ahead with
   old `revents` it handles, and stays until the scan arrives.
   */
  lemma NewcomerMisdirectedIff(polled: seq<PollFd>, s: Pass, i: nat, c: Channel, k: nat)
    requires SameRevents(polled, s.reg.slots) && i <= |polled|
    requires Waiting(s, c, k) && !ScanAll(s, i).reg.broken
    requires forall j :: 0 <= j < |polled| ==> polled[j].fd != c.fd
    ensures Misdirected(polled, s, ScanAll(s, i), c.fd) <==>
              i <= k && Hears(c, s.reg.slots[k].revents) && Registered(ScanTo(s, i, k).reg, c.fd)
  {
    HeardIff(s, i, c, k);
    var t := ScanAll(s, i);
    if Heard(s, t, c) {
      var n :| |s.calls| <= n < |t.calls| && t.calls[n].channel == c;
      assert !Reported(polled, t.calls[n]);
    }
    if Misdirected(polled, s, t, c.fd) {
      var n :| |s.calls| <= n < |t.calls| && t.calls[n].channel.fd == c.fd && !Reported(polled, t.calls[n]);
      OnlyWaiterIsCalled(s, i, c, k, n);
    }
  }

  /** While a channel waits in its slot, its fd stands for no other channel. */
  lemma {:induction false} OnlyWaiterIsCalled(s: Pass, i: nat, c: Channel, k: nat, n: nat)
    requires Waiting(s, c, k) && i <= |s.reg.slots| && !ScanAll(s, i).reg.broken
    requires |s.calls| <= n < |ScanAll(s, i).calls| && ScanAll(s, i).calls[n].channel.fd == c.fd
    ensures ScanAll(s, i).calls[n].channel == c
    decreases |s.reg.slots| - i
  {
    var t := Visit(s, i);
    ScanBrokenStays(t, i + 1);
    VisitWaiting(s, i, c, k);
    HeardIff(t, i + 1, c, k);
    if n < |t.calls| {
      VisitCallsWaiter(s, i, c, k);
      assert t.calls[n] == ScanAll(s, i).calls[n];
    } else {
      OnlyWaiterIsCalled(t, i + 1, c, k, n);
    }
  }

  lemma VisitCallsWaiter(s: Pass, i: nat, c: Channel, k: nat)
    requires Waiting(s, c, k) && i < |s.reg.slots| && !Visit(s, i).reg.broken
    ensures forall n :: |s.calls| <= n < |Visit(s, i).calls| && Visit(s, i).calls[n].channel.fd == c.fd ==>
              Visit(s, i).calls[n].channel == c
  {
    VisitTellsLive(s, i);
    var p := s.reg.slots[i];
    if p.revents & POLLRDNORM != 0 && !Active(s, p.fd, Readable).reg.broken {
      ActiveWaiting(s, p.fd, Readable, c, k);
    }
  }

  // ---------- every report is answered ----------

  /** The calls for `c`, in order. */
  function CallsTo(calls: seq<Call>, c: Channel): seq<Call> {
    if calls == [] then []
    else (if calls[0].channel == c then [calls[0]] else []) + CallsTo(calls[1..], c)
  }

  lemma {:induction false} CallsToConcat(a: seq<Call>, b: seq<Call>, c: Channel)
    ensures CallsTo(a + b, c) == CallsTo(a, c) + CallsTo(b, c)
  {
    if a == [] {
      assert a + b == b;
    } else {
      assert (a + b)[1..] == a[1..] + b;
      CallsToConcat(a[1..], b, c);
      var first := if a[0].channel == c then [a[0]] else [];
      assert (a + b)[0] == a[0];
      Assoc(first, CallsTo(a[1..], c), CallsTo(b, c));
    }
  }

  lemma {:induction false} CallsToNone(calls: seq<Call>, c: Channel)
    requires forall n :: 0 <= n < |calls| ==> calls[n].channel != c
    ensures CallsTo(calls, c) == []
  {
    if calls != [] {
      CallsToNone(calls[1..], c);
    }
  }

  lemma {:induction false} CallsToAll(calls: seq<Call>, c: Channel)
    requires forall n :: 0 <= n < |calls| ==> calls[n].channel == c
    ensures CallsTo(calls, c) == calls
  {
    if calls != [] {
      CallsToAll(calls[1..], c);
    }
  }

  lemma CallsToJoin(before: seq<Call>, added: seq<Call>, all: seq<Call>, c: Channel)
    requires before + added <= all
    ensures CallsTo(all[|before|..], c) == CallsTo(added, c) + CallsTo(all[|before + added|..], c)
  {
    assert all[|before|..] == added + all[|before + added|..];
    CallsToConcat(added, all[|before + added|..], c);
  }

  /**
   What a channel must be called for when poll reports `revents` for it: reading first, then writing
   if it is `still` registered after that.
   */
  function Deserved(c: Channel, revents: bv16, still: bool): seq<Call> {
    if revents & SIGN_BIT != 0 then []
    else
      (if revents & POLLRDNORM != 0 && c.onReadable then [Call(c, Readable)] else []) +
      (if revents & POLLWRNORM != 0 && c.onWriteable && still then [Call(c, Writeable)] else [])
  }

  lemma SlotAnswers(s: Pass, c: Channel, k: nat)
    requires Waiting(s, c, k) && !Visit(s, k).reg.broken && Registered(s.reg, c.fd)
    ensures VisitTells(s, k) == Deserved(c, s.reg.slots[k].revents, Registered(AfterReading(s, k).reg, c.fd))
  {
    var p, t := s.reg.slots[k], AfterReading(s, k);
    PositiveBits(p.revents);
    if p.revents & SIGN_BIT == 0 && p.revents & POLLRDNORM != 0 && !t.reg.broken {
      ActiveWaiting(s, p.fd, Readable, c, k);
    }
  }

  lemma VisitAnswers(s: Pass, i: nat, c: Channel, k: nat)
    requires Waiting(s, c, k) && i < |s.reg.slots| && !Visit(s, i).reg.broken
    ensures CallsTo(VisitTells(s, i), c) ==
            if i == k && Registered(s.reg, c.fd)
            then Deserved(c, s.reg.slots[k].revents, Registered(AfterReading(s, k).reg, c.fd))
            else []
  {
    if i == k && Registered(s.reg, c.fd) {
      SlotAnswers(s, c, k);
      CallsToAll(VisitTells(s, k), c);
    } else {
      assert s.reg.slots[i].fd != c.fd;
      CallsToNone(VisitTells(s, i), c);
    }
  }

  lemma ScanGrows(s: Pass, i: nat)
    requires i <= |s.reg.slots|
    ensures s.calls <= ScanAll(s, i).calls
    decreases |s.reg.slots| - i
  {
    if i < |s.reg.slots| {
      VisitCalls(s, i);
      ScanGrows(Visit(s, i), i + 1);
    }
  }

  /** What the scan from slot `i` on owes to `c` in slot `k`. */
  function Owed(s: Pass, i: nat, c: Channel, k: nat): seq<Call>
    requires i <= |s.reg.slots| && k < |s.reg.slots|
  {
    if i <= k && Registered(ScanTo(s, i, k).reg, c.fd)
    then Deserved(c, s.reg.slots[k].revents, Registered(AfterReading(ScanTo(s, i, k), k).reg, c.fd))
    else []
  }

  lemma VisitOwes(s: Pass, i: nat, c: Channel, k: nat)
    requires Waiting(s, c, k) && i < |s.reg.slots| && !Visit(s, i).reg.broken
    ensures Owed(s, i, c, k) == CallsTo(VisitTells(s, i), c) + Owed(Visit(s, i), i + 1, c, k)
  {
    VisitAnswers(s, i, c, k);
    VisitKeepsRevents(s, i);
  }

  /** Exactly what the rest of a pass calls a channel for, in order, given the bits poll has set. */
  lemma {:induction false} EventsReach(s: Pass, i: nat, c: Channel, k: nat)
    requires Waiting(s, c, k) && i <= |s.reg.slots| && !ScanAll(s, i).reg.broken
    ensures s.calls <= ScanAll(s, i).calls
    ensures CallsTo(ScanAll(s, i).calls[|s.calls|..], c) == Owed(s, i, c, k)
    decreases |s.reg.slots| - i
  {
    ScanGrows(s, i);
    if i < |s.reg.slots| {
      var t := Visit(s, i);
      ScanBrokenStays(t, i + 1);
      VisitWaiting(s, i, c, k);
      EventsReach(t, i + 1, c, k);
      VisitCalls(s, i);
      CallsToJoin(s.calls, VisitTells(s, i), ScanAll(s, i).calls, c);
      VisitOwes(s, i, c, k);
    }
  }

  predicate NeverDeletes(qs: seq<Request>, fd: int) {
    forall j :: 0 <= j < |qs| && qs[j].op.channel.fd == fd ==> qs[j].op.kind != DELETE
  }

  /** No callback removes the fd. */
  predicate LetsBe(script: seq<seq<Request>>, fd: int) {
    forall k :: 0 <= k < |script| ==> NeverDeletes(script[k], fd)
  }

  lemma {:induction false} PostsLetBe(r: Registry, qs: seq<Request>, fd: int)
    requires Registered(r, fd) && NeverDeletes(qs, fd)
    ensures Registered(ApplyAll(r, qs), fd) && AddsInVain(r, qs, fd)
    decreases |qs|
  {
    if qs != [] {
      assert Registered(Apply(r, qs[0]), fd);
      PostsLetBe(Apply(r, qs[0]), qs[1..], fd);
    }
  }

  lemma {:induction false} LetBeNeverReadds(r: Registry, script: seq<seq<Request>>, fd: int)
    requires Registered(r, fd) && LetsBe(script, fd)
    ensures NeverReadds(r, script, fd)
    decreases |script|
  {
    if script != [] {
      assert NeverDeletes(script[0], fd);
      PostsLetBe(r, script[0], fd);
      LetBeNeverReadds(ApplyAll(r, script[0]), script[1..], fd);
    }
  }

  lemma ActiveLetsBe(s: Pass, g: int, e: Event, fd: int)
    requires Registered(s.reg, fd) && LetsBe(s.script, fd)
    ensures Registered(Active(s, g, e).reg, fd) && LetsBe(Active(s, g, e).script, fd)
  {
    assert NeverDeletes(Posts(s), fd);
    PostsLetBe(s.reg, Posts(s), fd);
  }

  lemma VisitLetsBe(s: Pass, i: nat, fd: int)
    requires Registered(s.reg, fd) && LetsBe(s.script, fd) && i < |s.reg.slots|
    ensures Registered(Visit(s, i).reg, fd) && LetsBe(Visit(s, i).script, fd)
    ensures Registered(AfterReading(s, i).reg, fd)
  {
    var g := s.reg.slots[i].fd;
    ActiveLetsBe(s, g, Readable, fd);
    ActiveLetsBe(s, g, Writeable, fd);
    ActiveLetsBe(Active(s, g, Readable), g, Writeable, fd);
  }

  lemma {:induction false} ScanLetsBe(s: Pass, i: nat, k: nat, fd: int)
    requires Registered(s.reg, fd) && LetsBe(s.script, fd) && i <= k < |s.reg.slots|
    ensures Registered(ScanTo(s, i, k).reg, fd) && Registered(AfterReading(ScanTo(s, i, k), k).reg, fd)
    decreases k - i
  {
    VisitLetsBe(s, i, fd);
    if i < k {
      ScanLetsBe(Visit(s, i), i + 1, k, fd);
    }
  }

  /**
   Every report reaches its channel: in a pass that stays in range and whose callbacks do not remove
   the fd, a registered channel is called exactly once for each event that poll reported for it and
   that it handles, reading before writing, and for nothing else.
   */
  lemma ReportsAreAnswered(s: Pass, revents: seq<bv16>, c: Channel)
    requires Agreement(s.reg) && Registered(s.reg, c.fd) && s.reg.entities[c.fd] == c
    requires |revents| == |s.reg.slots| && LetsBe(s.script, c.fd)
    requires !ScanAll(AfterPoll(s, revents), 0).reg.broken
    ensures var k := SlotFrom(s.reg.slots, c.fd, 0);
            var t := ScanAll(AfterPoll(s, revents), 0);
            k < |revents| && s.calls <= t.calls &&
            CallsTo(t.calls[|s.calls|..], c) ==
            if revents[k] & SIGN_BIT != 0 then []
            else
              (if revents[k] & POLLRDNORM != 0 && c.onReadable then [Call(c, Readable)] else []) +
              (if revents[k] & POLLWRNORM != 0 && c.onWriteable then [Call(c, Writeable)] else [])
  {
    var k, u := SlotFrom(s.reg.slots, c.fd, 0), AfterPoll(s, revents);
    assert Holds(s.reg.slots, c.fd);
    assert u.reg.slots[k].revents == revents[k];
    assert forall j :: 0 <= j < |revents| ==> u.reg.slots[j].fd == s.reg.slots[j].fd;
    LetBeNeverReadds(u.reg, u.script, c.fd);
    assert Waiting(u, c, k);
    EventsReach(u, 0, c, k);
    ScanLetsBe(u, 0, k, c.fd);
  }

  /** Channels `a` and `b` are registered for reading in the first two slots. */
  function TwoChannels(a: Channel, b: Channel): Registry {
    Apply(Apply(EmptyRegistry(), Request(Op(ADD, a), EVENT_READ)), Request(Op(ADD, b), EVENT_READ))
  }

  function FirstTwo(x: PollFd, y: PollFd): seq<PollFd> {
    [x, y] + seq(INIT_POLL_SIZE - 2, _ => PollFd(-1, 0, 0))
  }

  lemma TwoChannelsTables(a: Channel, b: Channel)
    requires a.fd == 0 && b.fd == 1
    ensures TwoChannels(a, b) ==
            Registry([a, b] + seq(30, _ => null), FirstTwo(PollFd(0, POLLRDNORM, 0), PollFd(1, POLLRDNORM, 0)), false)
  {
    var r := Apply(EmptyRegistry(), Request(Op(ADD, a), EVENT_READ));
    assert GrownLength(0, 0) == 32 && GrownLength(32, 1) == 32;
    assert r.entities == [a] + seq(31, _ => null);
    assert FreeFrom(EmptyRegistry().slots, 0) == 0;
    assert FreeFrom(r.slots, 0) == FreeFrom(r.slots, 1) == 1;
    assert TwoChannels(a, b).entities == [a, b] + seq(30, _ => null);
  }

  /**
   A whole pass that goes wrong: both channels are ready, the callback of `a` removes `b` and
   adds `c`, and `c` is called for reading although its fd was not even polled.
   */
  lemma ReusedSlotMisdirects(a: Channel, b: Channel, c: Channel)
    requires a.fd == 0 && b.fd == 1 && c.fd == 2 && a.onReadable && c.onReadable
    ensures var script := [[Request(Op(DELETE, b), EVENT_READ), Request(Op(ADD, c), EVENT_READ)]];
            var revents := [POLLRDNORM, POLLRDNORM] + seq(INIT_POLL_SIZE - 2, _ => 0);
            |TwoChannels(a, b).slots| == INIT_POLL_SIZE &&
            var s := AfterPoll(Pass(TwoChannels(a, b), [], script), revents);
            ScanAll(s, 0).calls == [Call(a, Readable), Call(c, Readable)] &&
            !ScanAll(s, 0).reg.broken && !Reported(s.reg.slots, Call(c, Readable))
  {
    var q1, q2 := Request(Op(DELETE, b), EVENT_READ), Request(Op(ADD, c), EVENT_READ);
    var revents := [POLLRDNORM, POLLRDNORM] + seq(INIT_POLL_SIZE - 2, _ => 0);
    TwoChannelsTables(a, b);
    var s := AfterPoll(Pass(TwoChannels(a, b), [], [[q1, q2]]), revents);
    var p := PollFd(0, POLLRDNORM, POLLRDNORM);
    assert s.reg.slots == FirstTwo(p, PollFd(1, POLLRDNORM, POLLRDNORM));
    ReuseTables(s.reg, a, b, c, q1, q2);
    var r := Registry([a, null, c] + seq(29, _ => null), FirstTwo(p, PollFd(2, POLLRDNORM, POLLRDNORM)), false);
    assert Visit(s, 0) == Pass(r, [Call(a, Readable)], []);
    var t := Visit(Visit(s, 0), 1);
    assert t == Pass(r, [Call(a, Readable), Call(c, Readable)], []);
    NothingReady(r.slots, 2);
    ScanIdle(t, 2);
    assert ScanAll(s, 0) == ScanAll(Visit(s, 0), 1) == ScanAll(t, 2);
  }

  lemma ReuseTables(r: Registry, a: Channel, b: Channel, c: Channel, q1: Request, q2: Request)
    requires b.fd == 1 && c.fd == 2 && q1.op == Op(DELETE, b) && q2 == Request(Op(ADD, c), EVENT_READ)
    requires r.entities == [a, b] + seq(30, _ => null) && !r.broken
    requires r.slots == FirstTwo(PollFd(0, POLLRDNORM, POLLRDNORM), PollFd(1, POLLRDNORM, POLLRDNORM))
    ensures ApplyAll(r, [q1, q2]) ==
            Registry([a, null, c] + seq(29, _ => null),
                     FirstTwo(PollFd(0, POLLRDNORM, POLLRDNORM), PollFd(2, POLLRDNORM, POLLRDNORM)), false)
  {
    var r1 := Apply(r, q1);
    assert SlotFrom(r.slots, 1, 0) == SlotFrom(r.slots, 1, 1) == 1;
    assert FreeFrom(r1.slots, 0) == FreeFrom(r1.slots, 1) == 1;
    assert GrownLength(32, 2) == 32;
    assert Apply(r1, q2).entities == [a, null, c] + seq(29, _ => null);
    assert [q1, q2][1..] == [q2] && [q2][1..] == [];
    assert ApplyAll(r, [q1, q2]) == ApplyAll(r1, [q2]) == ApplyAll(Apply(r1, q2), []);
  }

  lemma {:induction false} NothingReady(slots: seq<PollFd>, i: nat)
    requires i <= |slots| && forall j :: i <= j < |slots| ==> slots[j].revents == 0
    ensures CountReady(slots, i) == 0
    decreases |slots| - i
  {
    if i < |slots| {
      NothingReady(slots, i + 1);
    }
  }

  /** A whole pass that leaves the array: the callback of `a` updates fd 32 while there are 32 entries. */
  lemma UpdateAtLengthLeavesArray(a: Channel, b: Channel, c: Channel)
    requires a.fd == 0 && b.fd == 1 && c.fd == 32 && a.onReadable
    ensures var revents := [POLLRDNORM, POLLRDNORM] + seq(INIT_POLL_SIZE - 2, _ => 0);
            |TwoChannels(a, b).slots| == INIT_POLL_SIZE &&
            var s := AfterPoll(Pass(TwoChannels(a, b), [], [[Request(Op(UPDATE, c), EVENT_READ)]]), revents);
            InPlace(s.reg) && ScanAll(s, 0).reg.broken
  {
    var q := Request(Op(UPDATE, c), EVENT_READ);
    var revents := [POLLRDNORM, POLLRDNORM] + seq(INIT_POLL_SIZE - 2, _ => 0);
    TwoChannelsTables(a, b);
    var s := AfterPoll(Pass(TwoChannels(a, b), [], [[q]]), revents);
    assert s.reg.slots[0] == PollFd(0, POLLRDNORM, POLLRDNORM);
    assert ApplyAll(s.reg, [q]) == ApplyAll(Apply(s.reg, q), []);
    assert Visit(s, 0).reg.broken;
    ScanBrokenStays(Visit(s, 0), 1);
  }
}
