/** The connection, the loop and the poll table together. */
module Reactors {
  import opened Channels
  import opened Registries
  import opened LoopSystem
  import opened EventLoops
  import opened Connections

  /**
   In every state that a legal run reaches and in which nothing is on its way to the loop: if
   the run's switches of channel `c` are those of a connection, the slot of `c` polls for
   writing exactly when bytes wait in the connection's output buffer.
   */
  lemma WritePolledIffQueued(s: State, run: seq<Action>, c: Channel, conn: Conn, inputs: seq<Input>)
    requires Initial(s) && LegalRun(s, run) && Untouched(conn) && conn.events == Mask(s, c)
    requires Toggles(run, c) == Switches(conn, inputs)
    ensures Run(s, run).Some? && Agreement(Run(s, run).value.reg)
    ensures var t, d := Run(s, run).value, RunAll(conn, inputs);
            t.queue == [] && (forall u :: u in t.pcs ==> Intended(t.pcs[u]).None?) &&
            c.fd in View(t.reg) && View(t.reg)[c.fd].channel == c ==>
              (View(t.reg)[c.fd].interest & POLLWRNORM != 0 <==> d.out != []) &&
              (View(t.reg)[c.fd].interest & POLLRDNORM != 0 <==> HasRead(d.events))
  {
    MaskAgreement(s, run);
    MaskFollowsToggles(s, run, c);
    EventsFollowSwitches(conn, inputs);
    StreamConserved(conn, inputs);
    InterestExact(RunAll(conn, inputs).events);
  }

  // ---------- on the owner's thread ----------

  /** The loop polls for exactly what channel `c` wants. */
  ghost predicate PolledFor(r: Registry, c: Channel, mask: bv8) {
    Agreement(r) && c.fd in View(r) && View(r)[c.fd] == Entry(c, Interest(mask))
  }

  /** A new connection is polled for reading. */
  lemma NewIsPolled(r: Registry, c: Channel)
    requires Agreement(r) && c.fd >= 0 && !Registered(r, c.fd) && HasFree(r.slots)
    ensures PolledFor(Apply(r, Request(Op(ADD, c), EVENT_READ)), c, EVENT_READ)
  {
    ApplyRefines(r, Request(Op(ADD, c), EVENT_READ));
  }

  /** What the owner handles: something for the connection, or an operation on another channel. */
  datatype Event = Own(input: Input) | Other(q: Request)

  /** A connection and the tables of its loop. */
  datatype Both = Both(conn: Conn, reg: Registry)

  /** The tables after channel `c` posted what `after` has beyond `before`, at most one operation. */
  function AfterPost(r: Registry, c: Channel, mask: bv8, before: seq<Kind>, after: seq<Kind>): Registry {
    if after == before || after == [] then r else Apply(r, Request(Op(after[|after| - 1], c), mask))
  }

  /** The objects move like this, once the operations other threads had queued are carried out. */
  lemma LoopMovesSo(conn: Connection, r: Registry, list: seq<Node>, before: seq<Kind>)
    requires conn.LoopTold(r, list, before)
    ensures conn.loop.Tables() ==
            AfterPost(if conn.posted == before then r else ApplyAll(r, Requests(list)),
                      conn.channel, conn.channel.events, before, conn.posted)
  {
    if conn.posted != before {
      ApplyAllSnoc(r, Requests(list), Request(Op(conn.posted[|conn.posted| - 1], conn.channel), conn.channel.events));
    }
  }

  /** One event on the owner's thread. */
  function Advance(channel: Channel, b: Both, e: Event): Both {
    match e
    case Own(input) =>
      var d := Step(b.conn, input);
      Both(d, AfterPost(b.reg, channel, d.events, b.conn.posted, d.posted))
    case Other(q) => Both(b.conn, Apply(b.reg, q))
  }

  function AdvanceAll(channel: Channel, b: Both, events: seq<Event>): Both
    decreases |events|
  {
    if events == [] then b else AdvanceAll(channel, Advance(channel, b, events[0]), events[1..])
  }

  /** The connection stays open, and other operations fit and leave its fd alone. */
  predicate Undisturbed(channel: Channel, b: Both, events: seq<Event>)
    decreases |events|
  {
    events == [] ||
    ((match events[0]
      case Own(input) => !input.EndOfStream?
      case Other(q) => q.op.channel.fd != channel.fd && Fits(b.reg, q.op)) &&
     Undisturbed(channel, Advance(channel, b, events[0]), events[1..]))
  }

  ghost predicate InStep(channel: Channel, b: Both) {
    Sound(b.conn) && PolledFor(b.reg, channel, b.conn.events)
  }

  lemma OwnStaysInStep(channel: Channel, b: Both, input: Input)
    requires InStep(channel, b) && !input.EndOfStream?
    ensures InStep(channel, Advance(channel, b, Own(input)))
  {
    var c, d := b.conn, Step(b.conn, input);
    StepSound(c, input);
    PostsFollowInterest(c, input);
    if d.posted != c.posted {
      ApplyRefines(b.reg, Request(Op(UPDATE, channel), d.events));
    }
  }

  /**
   Over every run of traffic, mixed with any fitting operations on other fds, the loop polls
   the connection's fd for writing exactly while bytes wait, and the stream is conserved.
   */
  lemma {:induction false} PolledThroughout(channel: Channel, b: Both, events: seq<Event>)
    requires InStep(channel, b) && Undisturbed(channel, b, events)
    ensures var t := AdvanceAll(channel, b, events);
            InStep(channel, t) &&
            (View(t.reg)[channel.fd].interest & POLLWRNORM != 0 <==> t.conn.out != [])
    decreases |events|
  {
    if events == [] {
      InterestExact(b.conn.events);
    } else {
      match events[0] {
        case Own(input) => OwnStaysInStep(channel, b, input);
        case Other(q) => ApplyRefines(b.reg, q);
      }
      PolledThroughout(channel, Advance(channel, b, events[0]), events[1..]);
    }
  }

  /** Closing takes the fd out of both tables and leaves every other fd as it was. */
  lemma CloseUnregisters(channel: Channel, b: Both)
    requires InStep(channel, b)
    ensures var t := Advance(channel, b, Own(EndOfStream));
            Agreement(t.reg) && View(t.reg) == View(b.reg) - {channel.fd}
  {
    var after := Step(b.conn, EndOfStream).posted;
    assert after[|after| - 1] == DELETE && after != b.conn.posted;
    ApplyRefines(b.reg, Request(Op(DELETE, channel), b.conn.events));
  }
}
