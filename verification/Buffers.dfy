/** buffer.c: a byte queue in one block, with compaction, growth and scatter reads. */
module Buffers {
  import opened Prelude
  import opened Sockets

  const INIT_BUFFER_SIZE := 65536

  /** The three indices of a buffer, without its bytes. */
  datatype Layout = Layout(read: nat, write: nat, total: nat) {
    predicate Valid() { read <= write <= total }

    function Readable(): int { write - read }

    function Writeable(): int { total - write }
  }

  const EMPTY_LAYOUT := Layout(0, 0, INIT_BUFFER_SIZE)

  /** Where `make_room` leaves the indices. */
  function RoomFor(l: Layout, size: nat): (r: Layout)
    requires l.Valid()
    ensures r.Valid() && r.Readable() == l.Readable() && r.Writeable() >= size
    ensures l.total <= r.total
  {
    if l.Writeable() >= size then l
    else if l.read + l.Writeable() >= size then Layout(0, l.Readable(), l.total)
    else l.(total := l.total + size)
  }

  /**
   Nothing moves while the space behind the contents is enough; the block grows, by what was asked
   for and without moving the contents, only if all its free space is not enough.
   */
  lemma RoomIsLazy(l: Layout, size: nat)
    requires l.Valid()
    ensures var r := RoomFor(l, size);
            (l.total - l.write >= size ==> r == l) &&
            (r.total != l.total <==> l.total - (l.write - l.read) < size) &&
            (r.total != l.total ==> r.total == l.total + size && r.read == l.read) &&
            (r.read != l.read ==> r.read == 0 && l.total - l.write < size)
  {
  }

  function AppendLayout(l: Layout, size: nat): (r: Layout)
    requires l.Valid()
    ensures r.Valid() && r.Readable() == l.Readable() + size
  {
    var room := RoomFor(l, size);
    room.(write := room.write + size)
  }

  function FetchLayout(l: Layout, size: nat): (r: Layout)
    requires l.Valid()
    ensures r.Valid() && r.Readable() == l.Readable() + size
  {
    if size <= l.Writeable() then l.(write := l.write + size)
    else AppendLayout(l.(write := l.total), size - l.Writeable())
  }

  class Buffer {
    var data: array<byte>
    var readIndex: nat
    var writeIndex: nat
    var totalSize: nat

    ghost predicate Valid()
      reads this
    {
      readIndex <= writeIndex <= totalSize == data.Length
    }

    /** The queued bytes, oldest first. */
    ghost function Contents(): seq<byte>
      reads this, data
      requires Valid()
    {
      data[readIndex..writeIndex]
    }

    ghost function Indices(): (l: Layout)
      reads this
      requires Valid()
      ensures l.Valid()
    {
      Layout(readIndex, writeIndex, totalSize)
    }

    constructor ()
      ensures Valid() && fresh(data) && Contents() == [] && Indices() == EMPTY_LAYOUT
    {
      data := new byte[INIT_BUFFER_SIZE];
      readIndex, writeIndex, totalSize := 0, 0, INIT_BUFFER_SIZE;
    }

    function WriteableSize(): int
      reads this
    {
      totalSize - writeIndex
    }

    function ReadableSize(): int
      reads this
    {
      writeIndex - readIndex
    }

    function FrontSpareSize(): int
      reads this
    {
      readIndex
    }

    method MakeRoom(size: nat)
      requires Valid()
      modifies this, data
      ensures Valid() && (data == old(data) || fresh(data))
      ensures Contents() == old(Contents())
      ensures Indices() == RoomFor(old(Indices()), size)
    {
      if WriteableSize() >= size {
        return;
      }
      if FrontSpareSize() + WriteableSize() >= size {
        MoveToFront();
        return;
      }
      Enlarge(size);
    }

    /** The forward copy loop, whose ranges may overlap. */
    method MoveToFront()
      requires Valid()
      modifies this`readIndex, this`writeIndex, data
      ensures Valid() && Contents() == old(Contents())
      ensures Indices() == Layout(0, old(Indices()).Readable(), old(totalSize))
    {
      var readable := ReadableSize();
      for i := 0 to readable
        invariant Valid() && Indices() == old(Indices())
        invariant forall k :: 0 <= k < i ==> data[k] == old(data[readIndex + k])
        invariant forall k :: i <= k < data.Length ==> data[k] == old(data[k])
      {
        data[i] := data[readIndex + i];
      }
      readIndex := 0;
      writeIndex := readable;
      assert forall k :: 0 <= k < readable ==> data[k] == old(Contents())[k];
    }

    /** The copy into a larger block. */
    method Enlarge(size: nat)
      requires Valid()
      modifies this`data, this`totalSize
      ensures Valid() && fresh(data) && Contents() == old(Contents())
      ensures Indices() == old(Indices()).(total := old(totalSize) + size)
    {
      var temp := new byte[totalSize + size];
      ghost var was, zeros := data[..], temp[..];
      CopyInto(temp, 0, data[..]);
      OverlayAtStart(zeros, was, readIndex, writeIndex);
      assert Contents() == was[readIndex..writeIndex];
      data := temp;
      totalSize := totalSize + size;
      assert data[readIndex..writeIndex] == temp[..][readIndex..writeIndex];
    }

    method Append(bytes: seq<byte>) returns (ok: bool)
      requires Valid()
      modifies this, data
      ensures Valid() && (data == old(data) || fresh(data))
      ensures ok <==> bytes != []
      ensures Contents() == old(Contents()) + bytes
      ensures Indices() == AppendLayout(old(Indices()), |bytes|)
    {
      if |bytes| <= 0 {
        return false;
      }
      MakeRoom(|bytes|);
      ghost var was := data[..];
      CopyInto(data, writeIndex, bytes);
      writeIndex := writeIndex + |bytes|;
      OverlayAtEnd(was, readIndex, writeIndex - |bytes|, bytes);
      assert data[readIndex..writeIndex] == data[..][readIndex..writeIndex];
      ok := true;
    }

    method AppendChar(c: byte) returns (ok: bool)
      requires Valid()
      modifies this, data
      ensures Valid() && (data == old(data) || fresh(data))
      ensures ok
      ensures Contents() == old(Contents()) + [c]
      ensures Indices() == AppendLayout(old(Indices()), 1)
    {
      MakeRoom(1);
      data[writeIndex] := c;
      writeIndex := writeIndex + 1;
      ok := true;
    }

    method ReadChar() returns (c: byte)
      requires Valid() && Contents() != []
      modifies this`readIndex
      ensures Valid()
      ensures [c] + Contents() == old(Contents())
      ensures Indices() == old(Indices()).(read := old(readIndex) + 1)
    {
      c := data[readIndex];
      readIndex := readIndex + 1;
    }

    /** Drops the `n` oldest bytes, as the senders do by moving `read_index`. */
    method Skip(n: nat)
      requires Valid() && n <= |Contents()|
      modifies this`readIndex
      ensures Valid()
      ensures Contents() == old(Contents())[n..]
    {
      readIndex := readIndex + n;
    }

    method SocketRead(socket: Socket) returns (n: int)
      requires Valid()
      modifies this, data, socket`incoming, socket`pace, socket`errno
      ensures Valid() && (data == old(data) || fresh(data))
      ensures socket.pace == Rest(old(socket.pace))
      ensures match ReadAnswer(|old(socket.incoming)|, old(socket.pace), old(Indices()).Writeable() + INIT_BUFFER_SIZE)
              case Count(k) =>
                n == k && socket.incoming == old(socket.incoming)[k..] &&
                Contents() == old(Contents()) + old(socket.incoming)[..k] &&
                Indices() == FetchLayout(old(Indices()), k)
              case Failed(_) =>
                n == -1 && socket.incoming == old(socket.incoming) &&
                Contents() == old(Contents()) && Indices() == old(Indices())
    {
      var additional := new byte[INIT_BUFFER_SIZE];
      var maximumWriteable := WriteableSize();
      n := socket.Readv(data, writeIndex, maximumWriteable, additional);
      if n < 0 {
        assert Contents() == data[..][readIndex..writeIndex];
        return -1;
      }
      FetchedSplit(old(socket.incoming), n, Min(n, maximumWriteable));
      Absorb(old(socket.incoming)[..n], additional, n);
    }

    /** Moves the write index over `fetched`, whose tail is still in `additional`. */
    method Absorb(ghost fetched: seq<byte>, additional: array<byte>, n: nat)
      requires Valid() && n == |fetched| && n <= totalSize - writeIndex + additional.Length
      requires additional != data
      requires var direct := Min(n, totalSize - writeIndex);
               data[writeIndex..writeIndex + direct] == fetched[..direct] &&
               additional[..n - direct] == fetched[direct..]
      modifies this, data
      ensures Valid() && (data == old(data) || fresh(data))
      ensures Contents() == old(Contents()) + fetched
      ensures Indices() == FetchLayout(old(Indices()), n)
    {
      ghost var direct, was := Min(n, WriteableSize()), Contents();
      OneAfterAnother(data[..], readIndex, writeIndex, writeIndex + direct);
      if n <= WriteableSize() {
        writeIndex := writeIndex + n;
      } else {
        var excess := n - WriteableSize();
        writeIndex := totalSize;
        assert Contents() == was + fetched[..direct];
        Assoc(was, fetched[..direct], fetched[direct..]);
        var _ := Append(additional[..excess]);
      }
    }
  }

  lemma OneAfterAnother(s: seq<byte>, a: nat, b: nat, c: nat)
    requires a <= b <= c <= |s|
    ensures s[a..c] == s[a..b] + s[b..c]
  {
  }

  lemma FetchedSplit(all: seq<byte>, n: nat, direct: nat)
    requires direct <= n <= |all|
    ensures all[..n][..direct] == all[..direct] && all[..n][direct..] == all[direct..n]
  {
  }

  lemma OverlayAtStart(s: seq<byte>, x: seq<byte>, from: nat, to: nat)
    requires from <= to <= |x| <= |s|
    ensures Overlay(s, 0, x)[from..to] == x[from..to]
  {
    assert forall i :: 0 <= i < |x| ==> Overlay(s, 0, x)[i] == x[i];
  }

  lemma OverlayAtEnd(s: seq<byte>, from: nat, to: nat, x: seq<byte>)
    requires from <= to && to + |x| <= |s|
    ensures Overlay(s, to, x)[from..to + |x|] == s[from..to] + x
  {
  }

  // ---------- capacity over whole runs ----------

  /** What happens to a buffer, with the sizes only. */
  datatype Event = Appended(size: nat) | Fetched(size: nat) | Consumed(size: nat)

  predicate Possible(l: Layout, e: Event) {
    e.Consumed? ==> e.size <= l.Readable()
  }

  function After(l: Layout, e: Event): (r: Layout)
    requires l.Valid() && Possible(l, e)
    ensures r.Valid()
  {
    match e
    case Appended(n) => AppendLayout(l, n)
    case Fetched(n) => FetchLayout(l, n)
    case Consumed(n) => l.(read := l.read + n)
  }

  /** The indices after `events`, and the largest readable size seen on the way. */
  function Run(l: Layout, peak: int, events: seq<Event>): (r: Option<(Layout, int)>)
    requires l.Valid()
    ensures r.Some? ==> r.value.0.Valid() && r.value.0.Readable() <= r.value.1
    decreases events
  {
    if events == [] then Some((l, Max(peak, l.Readable())))
    else if !Possible(l, events[0]) then None
    else Run(After(l, events[0]), Max(peak, l.Readable()), events[1..])
  }

  predicate Bounded(l: Layout, peak: int) {
    l.total <= Max(INIT_BUFFER_SIZE, 2 * Max(peak, l.Readable()))
  }

  lemma StepBounded(l: Layout, peak: int, e: Event)
    requires l.Valid() && Possible(l, e) && Bounded(l, peak)
    ensures Bounded(After(l, e), Max(peak, l.Readable()))
  {
    if e.Fetched? && e.size > l.Writeable() {
      var full := l.(write := l.total);
      var extra := e.size - l.Writeable();
      assert AppendLayout(full, extra).total > l.total ==> full.read < extra;
    }
  }

  lemma {:induction false} RunBounded(l: Layout, peak: int, events: seq<Event>)
    requires l.Valid() && Bounded(l, peak)
    ensures var r := Run(l, peak, events);
            r.Some? ==> Bounded(r.value.0, r.value.1)
    decreases events
  {
    if events != [] && Possible(l, events[0]) {
      StepBounded(l, peak, events[0]);
      RunBounded(After(l, events[0]), Max(peak, l.Readable()), events[1..]);
    }
  }

  /** Over every run, a new buffer stays within its first block or twice its peak load. */
  lemma CapacityBound(events: seq<Event>)
    ensures var r := Run(EMPTY_LAYOUT, 0, events);
            r.Some? ==> r.value.0.total <= Max(INIT_BUFFER_SIZE, 2 * r.value.1)
  {
    RunBounded(EMPTY_LAYOUT, 0, events);
  }
}
