/** read.c and the stream client of chapter 16: exact reads, framed messages, text lines. */
module Readers {
  import opened Prelude
  import opened Sockets

  // ---------- readn ----------

  /** What a call returned, how many bytes it took from the stream, and the script left. */
  datatype Outcome = Outcome(count: int, used: nat, pace: seq<Pace>)

  /** A failure that `readn` reports; an interrupted call is simply repeated. */
  predicate Hard(p: Pace) { p.ReadFails? && p.errno != EINTR }

  predicate Benign(pace: seq<Pace>) { forall i :: 0 <= i < |pace| ==> !Hard(pace[i]) }

  /** One `readn` of `size` bytes while the peer still sends `left` bytes. */
  function Exactly(left: nat, pace: seq<Pace>, size: nat): (o: Outcome)
    ensures |o.pace| <= |pace| && o.used <= size && o.used <= left
    ensures o.count == -1 || o.count == o.used
    decreases |pace|, size
  {
    if size == 0 then Outcome(0, 0, pace)
    else
      match ReadAnswer(left, pace, size)
      case Failed(e) => if e == EINTR then Exactly(left, Rest(pace), size) else Outcome(-1, 0, Rest(pace))
      case Count(n) =>
        if n == 0 then Outcome(0, 0, Rest(pace))
        else Credit(n, Exactly(left - n, Rest(pace), size - n))
  }

  function Credit(n: nat, o: Outcome): Outcome {
    o.(count := if o.count < 0 then -1 else n + o.count, used := n + o.used)
  }

  /** One turn of the loop of `readn`, after `at` bytes. */
  lemma ExactlyTurn(at: nat, left: nat, pace: seq<Pace>, length: nat)
    requires length > 0
    ensures Credit(at, Exactly(left, pace, length)) ==
            match ReadAnswer(left, pace, length)
            case Failed(e) => if e == EINTR then Credit(at, Exactly(left, Rest(pace), length)) else Outcome(-1, at, Rest(pace))
            case Count(n) =>
              if n == 0 then Outcome(at, at, Rest(pace)) else Credit(at + n, Exactly(left - n, Rest(pace), length - n))
  {
  }

  /** One read into the part of the buffer that is not filled yet. */
  method ReadMore(socket: Socket, buffer: array<byte>, at: nat, length: nat, ghost stream: seq<byte>) returns (result: int)
    requires at + length <= buffer.Length && at <= |stream|
    requires socket.incoming == stream[at..] && buffer[..at] == stream[..at]
    modifies socket`incoming, socket`pace, socket`errno, buffer
    ensures socket.pace == Rest(old(socket.pace))
    ensures ReadAnswer(|old(socket.incoming)|, old(socket.pace), length)
         == if result >= 0 then Count(result) else Failed(socket.errno)
    ensures result >= 0 ==> at + result <= |stream|
    ensures var now := at + Max(result, 0);
            socket.incoming == stream[now..] && buffer[..now] == stream[..now]
  {
    ghost var was := buffer[..];
    result := socket.Read(buffer, at, length);
    Glue(was, buffer[..], stream, at, Max(result, 0));
  }

  method Readn(socket: Socket, buffer: array<byte>, size: nat) returns (count: int)
    requires size <= buffer.Length
    modifies socket`incoming, socket`pace, socket`errno, buffer
    ensures var o := Exactly(|old(socket.incoming)|, old(socket.pace), size);
            count == o.count && socket.pace == o.pace && socket.incoming == old(socket.incoming)[o.used..] &&
            buffer[..o.used] == old(socket.incoming)[..o.used]
  {
    ghost var stream, whole := socket.incoming, Exactly(|socket.incoming|, socket.pace, size);
    var bufferPointer := 0;
    var length := size;
    while length > 0
      invariant 0 <= length && 0 <= bufferPointer && length + bufferPointer == size && bufferPointer <= |stream|
      invariant socket.incoming == stream[bufferPointer..] && buffer[..bufferPointer] == stream[..bufferPointer]
      invariant whole == Credit(bufferPointer, Exactly(|socket.incoming|, socket.pace, length))
      decreases |socket.pace|, length
    {
      ExactlyTurn(bufferPointer, |socket.incoming|, socket.pace, length);
      var result := ReadMore(socket, buffer, bufferPointer, length, stream);
      if result < 0 {
        if socket.errno == EINTR {
          continue;
        }
        return -1;
      } else if result == 0 {
        break;
      }
      length := length - result;
      bufferPointer := bufferPointer + result;
    }
    return size - length;
  }

  lemma Glue(was: seq<byte>, now: seq<byte>, stream: seq<byte>, at: nat, n: nat)
    requires at + n <= |was| && at + n <= |stream| && was[..at] == stream[..at]
    requires now == Overlay(was, at, stream[at..][..n])
    ensures now[..at + n] == stream[..at + n] && stream[at..][n..] == stream[at + n..]
  {
    assert now[..at + n] == now[..at] + now[at..at + n];
    assert stream[..at + n] == stream[..at] + stream[at..][..n];
  }

  /** Fragments and interruptions are invisible: only the bytes decide what `readn` returns. */
  lemma {:induction false} ExactlyFaithful(left: nat, pace: seq<Pace>, size: nat)
    requires Benign(pace)
    ensures var o := Exactly(left, pace, size);
            o.count == Min(size, left) && Benign(o.pace)
    decreases |pace|, size
  {
    if size > 0 {
      match ReadAnswer(left, pace, size)
      case Failed(_) => ExactlyFaithful(left, Rest(pace), size);
      case Count(n) =>
        if n > 0 {
          ExactlyFaithful(left - n, Rest(pace), size - n);
        }
    }
  }

  /** `later` is what is left of the script `pace` after some calls. */
  predicate Later(pace: seq<Pace>, later: seq<Pace>) {
    |later| <= |pace| && forall i :: |pace| - |later| <= i < |pace| ==> pace[i] == later[i - (|pace| - |later|)]
  }

  /** The last of the calls made between two scripts failed for good. */
  predicate EndsHard(pace: seq<Pace>, later: seq<Pace>) {
    |later| < |pace| && Hard(pace[|pace| - |later| - 1])
  }

  /** Of the calls made between two scripts only the last may have failed for good. */
  predicate SoftUntil(pace: seq<Pace>, later: seq<Pace>) {
    Later(pace, later) && forall i :: 0 <= i < |pace| - |later| - 1 ==> !Hard(pace[i])
  }

  lemma SoftJoins(pace: seq<Pace>, mid: seq<Pace>, later: seq<Pace>)
    requires SoftUntil(pace, mid) && !EndsHard(pace, mid) && SoftUntil(mid, later)
    ensures SoftUntil(pace, later) && (EndsHard(pace, later) <==> EndsHard(mid, later))
  {
    var made := |pace| - |mid|;
    assert forall i :: made <= i < |pace| ==> pace[i] == mid[i - made];
    forall i | 0 <= i < |pace| - |later| - 1
      ensures !Hard(pace[i])
    {
      if i >= made {
        assert !Hard(mid[i - made]);
      }
    }
  }

  lemma SoftRest(pace: seq<Pace>)
    ensures SoftUntil(pace, Rest(pace))
    ensures EndsHard(pace, Rest(pace)) <==> pace != [] && Hard(pace[0])
  {
  }

  /** The first call of a `readn`: whether more follow, and with what. */
  lemma ExactlyNext(left: nat, pace: seq<Pace>, size: nat) returns (more: bool, left': nat, size': nat)
    requires size > 0
    ensures more ==> size' < size || (size' == size && pace != [])
    ensures var o := Exactly(left, pace, size);
            if more then
              (pace == [] || !Hard(pace[0])) && o.pace == Exactly(left', Rest(pace), size').pace &&
              (o.count == -1 <==> Exactly(left', Rest(pace), size').count == -1)
            else
              o.pace == Rest(pace) && (o.count == -1 <==> pace != [] && Hard(pace[0]))
  {
    more, left', size' := false, left, size;
    match ReadAnswer(left, pace, size)
    case Failed(e) =>
      more := e == EINTR;
    case Count(n) =>
      more := n > 0;
      if more {
        left', size' := left - n, size - n;
      }
  }

  lemma {:induction false} ExactlySoft(left: nat, pace: seq<Pace>, size: nat)
    ensures var o := Exactly(left, pace, size);
            SoftUntil(pace, o.pace) && (o.count == -1 <==> EndsHard(pace, o.pace))
    decreases |pace|, size
  {
    if size > 0 {
      SoftRest(pace);
      var more, left', size' := ExactlyNext(left, pace, size);
      if more {
        ExactlySoft(left', Rest(pace), size');
        SoftJoins(pace, Rest(pace), Exactly(left', Rest(pace), size').pace);
      }
    }
  }

  /** `readn` stops at the first call that fails for good, and reports an error exactly then. */
  lemma ExactlyFails(left: nat, pace: seq<Pace>, size: nat)
    ensures var o := Exactly(left, pace, size);
            var made := |pace| - |o.pace|;
            (forall i :: 0 <= i < made - 1 ==> !Hard(pace[i])) &&
            (o.count == -1 <==> made > 0 && Hard(pace[made - 1]))
  {
    ExactlySoft(left, pace, size);
  }

  lemma {:induction false} ExactlyCount(left: nat, pace: seq<Pace>, size: nat)
    ensures var o := Exactly(left, pace, size);
            o.count == -1 || o.count == o.used == Min(size, left)
    decreases |pace|, size
  {
    if size > 0 {
      match ReadAnswer(left, pace, size)
      case Failed(e) =>
        if e == EINTR {
          ExactlyCount(left, Rest(pace), size);
        }
      case Count(n) =>
        if n > 0 {
          ExactlyCount(left - n, Rest(pace), size - n);
        }
    }
  }

  /** Under any script `readn` either reports the failure it met or reads all it can. */
  lemma ExactlyAny(left: nat, pace: seq<Pace>, size: nat)
    ensures var o := Exactly(left, pace, size);
            SoftUntil(pace, o.pace) &&
            (if EndsHard(pace, o.pace) then o.count == -1 else o.count == o.used == Min(size, left))
  {
    ExactlySoft(left, pace, size);
    ExactlyCount(left, pace, size);
  }

  // ---------- big-endian words ----------

  function ToWord(n: nat): (w: seq<byte>)
    requires n < 0x1_0000_0000
    ensures |w| == 4
  {
    [n / 0x100_0000, n / 0x1_0000 % 0x100, n / 0x100 % 0x100, n % 0x100]
  }

  function FromWord(w: seq<byte>): (n: nat)
    requires |w| == 4
    ensures n < 0x1_0000_0000
  {
    (w[0] as int) * 0x100_0000 + (w[1] as int) * 0x1_0000 + (w[2] as int) * 0x100 + w[3]
  }

  lemma WordRoundTrip(n: nat)
    requires n < 0x1_0000_0000
    ensures FromWord(ToWord(n)) == n
  {
    var n1, n2 := n / 0x100, n / 0x1_0000;
    assert n == 0x100 * n1 + n % 0x100;
    assert n1 == 0x100 * n2 + n1 % 0x100;
    assert n2 == 0x100 * (n / 0x100_0000) + n2 % 0x100;
  }

  lemma WordUnique(w: seq<byte>)
    requires |w| == 4
    ensures ToWord(FromWord(w)) == w
  {
    var n := FromWord(w);
    var b0: int, b1: int, b2: int := w[0], w[1], w[2];
    assert n / 0x100 == b0 * 0x1_0000 + b1 * 0x100 + b2;
    assert n / 0x1_0000 == b0 * 0x100 + b1;
    assert n / 0x100_0000 == b0;
  }

  /** The value of a byte string, most significant byte first. */
  function BigEndian(w: seq<byte>): nat {
    if w == [] then 0 else BigEndian(w[..|w| - 1]) * 0x100 + w[|w| - 1]
  }

  /** Both conversions are in network byte order. */
  lemma WordsAreBigEndian(w: seq<byte>, n: nat)
    requires |w| == 4
    ensures FromWord(w) == BigEndian(w)
    ensures n < 0x1_0000_0000 ==> BigEndian(ToWord(n)) == n
  {
    FourBytes(w);
    if n < 0x1_0000_0000 {
      FourBytes(ToWord(n));
      WordRoundTrip(n);
    }
  }

  lemma FourBytes(w: seq<byte>)
    requires |w| == 4
    ensures BigEndian(w) == FromWord(w)
  {
    var b0: int, b1: int, b2: int, b3: int := w[0], w[1], w[2], w[3];
    assert w[..3][..2] == w[..2] && w[..2][..1] == w[..1] && w[..1][..0] == [];
    assert BigEndian(w[..1]) == b0;
    assert BigEndian(w[..2]) == b0 * 0x100 + b1;
    assert BigEndian(w[..3]) == (b0 * 0x100 + b1) * 0x100 + b2;
    assert BigEndian(w) == ((b0 * 0x100 + b1) * 0x100 + b2) * 0x100 + b3;
  }

  // ---------- framed messages ----------

  const BUFFER_SIZE := 4096

  /** A frame on the wire: length and type in network byte order, then the body. */
  function Frame(kind: nat, body: seq<byte>): (f: seq<byte>)
    requires kind < 0x1_0000_0000 && |body| < 0x1_0000_0000
    ensures |f| == 8 + |body|
  {
    ToWord(|body|) + ToWord(kind) + body
  }

  predicate Sized(bodies: seq<seq<byte>>, low: nat, high: nat) {
    forall i :: 0 <= i < |bodies| ==> low <= |bodies[i]| <= high
  }

  function Frames(bodies: seq<seq<byte>>): seq<byte>
    requires Sized(bodies, 0, 0xFFFF_FFFF)
  {
    if bodies == [] then [] else Frame(1, bodies[0]) + Frames(bodies[1..])
  }

  /** A frame on the wire: the length, the type 1 and the body. */
  lemma FrameOnWire(body: seq<byte>, rest: seq<seq<byte>>)
    requires |body| < 0x1_0000_0000 && Sized([body] + rest, 0, 0xFFFF_FFFF) && Sized(rest, 0, 0xFFFF_FFFF)
    ensures var wire := Frames([body] + rest);
            |wire| >= 8 + |body| && BigEndian(wire[..4]) == |body| && BigEndian(wire[4..8]) == 1 &&
            wire[8..8 + |body|] == body && wire[8 + |body|..] == Frames(rest)
  {
    var wire := Frames([body] + rest);
    assert ([body] + rest)[0] == body && ([body] + rest)[1..] == rest;
    assert wire == Frame(1, body) + Frames(rest);
    assert wire[..4] == ToWord(|body|) && wire[4..8] == ToWord(1);
    WordsAreBigEndian(wire[..4], |body|);
    WordsAreBigEndian(wire[4..8], 1);
  }

  /** The C string at the start of `line`: what `strlen` and the send see of it. */
  function CString(line: seq<byte>): (s: seq<byte>)
    ensures s <= line && 0 !in s && (|s| < |line| ==> line[|s|] == 0)
  {
    if line == [] || line[0] == 0 then [] else [line[0]] + CString(line[1..])
  }

  /** Fills the client's message struct in place; the result is the number of bytes to send. */
  method FillMessage(message: array<byte>, line: seq<byte>) returns (sendLength: nat)
    requires message.Length == 8 + BUFFER_SIZE && |line| < BUFFER_SIZE
    modifies message
    ensures sendLength <= message.Length && message[..sendLength] == Frame(1, CString(line))
  {
    var data := CString(line);
    CopyInto(message, 8, data);
    ghost var body := message[..];
    CopyInto(message, 0, ToWord(|data|) + ToWord(1));
    sendLength := 8 + |data|;
    assert message[..] == Overlay(body, 0, ToWord(|data|) + ToWord(1));
    assert message[..sendLength] == message[..][..8] + body[8..][..|data|];
    assert body[8..][..|data|] == body[8..8 + |data|];
  }

  /** What the sends of these frames put on the wire: the client ignores a short count. */
  function Pushed(bodies: seq<seq<byte>>, verdicts: seq<Verdict>): (r: seq<byte>)
    requires Sized(bodies, 0, 0xFFFF_FFFF)
  {
    if bodies == [] then []
    else
      match WriteAnswer(verdicts, 8 + |bodies[0]|)
      case Failed(_) => []
      case Count(n) => Frame(1, bodies[0])[..n] + Pushed(bodies[1..], Rest(verdicts))
  }

  /** Every send takes its whole frame. */
  predicate AllTaken(bodies: seq<seq<byte>>, verdicts: seq<Verdict>) {
    bodies == [] ||
    (WriteAnswer(verdicts, 8 + |bodies[0]|) == Count(8 + |bodies[0]|) && AllTaken(bodies[1..], Rest(verdicts)))
  }

  /** The wire carries the frames exactly if no send is cut short. */
  lemma {:induction false} PushedIsFrames(bodies: seq<seq<byte>>, verdicts: seq<Verdict>)
    requires Sized(bodies, 0, 0xFFFF_FFFF)
    ensures |Pushed(bodies, verdicts)| <= |Frames(bodies)|
    ensures Pushed(bodies, verdicts) == Frames(bodies) <==> AllTaken(bodies, verdicts)
    decreases |bodies|
  {
    if bodies != [] {
      PushedIsFrames(bodies[1..], Rest(verdicts));
      var f, rest := Frame(1, bodies[0]), Frames(bodies[1..]);
      assert f[..|f|] == f;
      match WriteAnswer(verdicts, |f|)
      case Failed(_) =>
      case Count(n) =>
        if n == |f| {
          var pushed := Pushed(bodies[1..], Rest(verdicts));
          assert (f + pushed)[|f|..] == pushed && (f + rest)[|f|..] == rest;
        }
    }
  }

  lemma PushedNext(bodies: seq<seq<byte>>, i: nat, verdicts: seq<Verdict>, before: seq<byte>)
    requires Sized(bodies, 0, 0xFFFF_FFFF) && i < |bodies|
    ensures before + Pushed(bodies[i..], verdicts) ==
            match WriteAnswer(verdicts, |Frame(1, bodies[i])|)
            case Failed(_) => before
            case Count(n) => before + Frame(1, bodies[i])[..n] + Pushed(bodies[i + 1..], Rest(verdicts))
  {
    assert bodies[i..][0] == bodies[i] && bodies[i..][1..] == bodies[i + 1..];
    match WriteAnswer(verdicts, |Frame(1, bodies[i])|)
    case Failed(_) =>
    case Count(n) => Assoc(before, Frame(1, bodies[i])[..n], Pushed(bodies[i + 1..], Rest(verdicts)));
  }

  /** The client's loop over the lines `fgets` gave it, until a send fails. */
  method SendLines(socket: Socket, lines: seq<seq<byte>>)
    requires Sized(lines, 0, BUFFER_SIZE - 1)
    modifies socket`verdicts, socket`taken, socket`errno
    ensures socket.taken == old(socket.taken) + Pushed(CStrings(lines), old(socket.verdicts))
  {
    var message := new byte[8 + BUFFER_SIZE];
    ghost var bodies := CStrings(lines);
    assert bodies[0..] == bodies;
    var i := 0;
    while i < |lines|
      invariant 0 <= i <= |lines|
      invariant socket.taken + Pushed(bodies[i..], socket.verdicts)
             == old(socket.taken) + Pushed(bodies, old(socket.verdicts))
    {
      var sendLength := FillMessage(message, lines[i]);
      PushedNext(bodies, i, socket.verdicts, socket.taken);
      var sendResult := socket.Write(message[..sendLength]);
      if sendResult < 0 {
        return;
      }
      i := i + 1;
    }
  }

  function CStrings(lines: seq<seq<byte>>): (r: seq<seq<byte>>)
    ensures |r| == |lines| && forall i :: 0 <= i < |r| ==> r[i] == CString(lines[i])
    ensures Sized(lines, 0, BUFFER_SIZE - 1) ==> Sized(r, 0, BUFFER_SIZE - 1)
  {
    seq(|lines|, i requires 0 <= i < |lines| => CString(lines[i]))
  }

  datatype Delivery = Delivery(result: int, body: seq<byte>, used: nat, pace: seq<Pace>)

  function Missing(used: nat, o: Outcome): Delivery {
    Delivery(if o.count < 0 then -1 else 0, [], used + o.used, o.pace)
  }

  /** One `read_message` call into a buffer of `length` bytes. */
  function Message(avail: seq<byte>, pace: seq<Pace>, length: nat): (d: Delivery)
    ensures d.used <= |avail|
    ensures d.result > 0 ==> 8 < d.used && d.result == |d.body| <= length
  {
    var o1 := Exactly(|avail|, pace, 4);
    if o1.count != 4 then Missing(0, o1)
    else
      var o2 := Exactly(|avail| - 4, o1.pace, 4);
      if o2.count != 4 then Missing(4, o2)
      else
        Body(avail, o2.pace, FromWord(avail[..4]), length)
  }

  /** The part of the call after the two words. */
  function Body(avail: seq<byte>, pace: seq<Pace>, size: nat, length: nat): (d: Delivery)
    requires |avail| >= 8
    ensures d.used <= |avail|
    ensures d.result > 0 ==> 8 < d.used && d.result == |d.body| <= length
  {
    if length < size then Delivery(-1, [], 8, pace)
    else
      var o := Exactly(|avail| - 8, pace, size);
      if o.count != size then Missing(8, o)
      else Delivery(size, avail[8..8 + size], 8 + size, o.pace)
  }

  /** Four bytes in network byte order. */
  method ReadWord(socket: Socket) returns (readCount: int, value: nat)
    modifies socket`incoming, socket`pace, socket`errno
    ensures var o := Exactly(|old(socket.incoming)|, old(socket.pace), 4);
            readCount == o.count && socket.incoming == old(socket.incoming)[o.used..] && socket.pace == o.pace &&
            (readCount == 4 ==> value == FromWord(old(socket.incoming)[..4]))
  {
    var word := new byte[4];
    readCount := Readn(socket, word, 4);
    assert word[..] == word[..4];
    value := FromWord(word[..]);
  }

  method ReadMessage(socket: Socket, buffer: array<byte>, length: nat) returns (result: int)
    requires length <= buffer.Length && length < 0x8000_0000
    modifies socket`incoming, socket`pace, socket`errno, buffer
    ensures var d := Message(old(socket.incoming), old(socket.pace), length);
            result == d.result && socket.incoming == old(socket.incoming)[d.used..] && socket.pace == d.pace &&
            (result > 0 ==> buffer[..result] == d.body)
  {
    var readCount, messageLength := ReadWord(socket);
    if readCount != 4 {
      return if readCount < 0 then -1 else 0;
    }
    var messageType;
    readCount, messageType := ReadWord(socket);
    if readCount != 4 {
      return if readCount < 0 then -1 else 0;
    }
    if length < messageLength {
      return -1;
    }
    readCount := Readn(socket, buffer, messageLength);
    if readCount != messageLength {
      return if readCount < 0 then -1 else 0;
    }
    return readCount;
  }

  /** What one call yields when nothing fails, from the bytes alone. */
  datatype Parsed = Whole(body: seq<byte>, used: nat) | TooBig | Cut

  function Parse(avail: seq<byte>, length: nat): Parsed {
    if |avail| < 8 then Cut
    else
      var size := FromWord(avail[..4]);
      if length < size then TooBig
      else if |avail| < 8 + size then Cut
      else Whole(avail[8..8 + size], 8 + size)
  }

  /** Under any fragmentation and any interruptions, `read_message` is the pure parser. */
  lemma MessageIsParse(avail: seq<byte>, pace: seq<Pace>, length: nat)
    requires Benign(pace)
    ensures var d := Message(avail, pace, length);
            Benign(d.pace) &&
            match Parse(avail, length)
            case Whole(body, used) => d.result == |body| && d.body == body && d.used == used
            case TooBig => d.result == -1 && d.used == 8
            case Cut => d.result == 0 && d.body == [] && d.used == |avail|
  {
    ExactlyFaithful(|avail|, pace, 4);
    if |avail| >= 4 {
      var o1 := Exactly(|avail|, pace, 4);
      ExactlyFaithful(|avail| - 4, o1.pace, 4);
      if |avail| >= 8 {
        ExactlyFaithful(|avail| - 8, Exactly(|avail| - 4, o1.pace, 4).pace, FromWord(avail[..4]));
      }
    }
  }

  /** The two words in front of a message. */
  lemma HeaderExact(avail: seq<byte>, pace: seq<Pace>, length: nat)
    ensures var o1 := Exactly(|avail|, pace, 4);
            var d := Message(avail, pace, length);
            if o1.count == 4 && Exactly(|avail| - 4, o1.pace, 4).count == 4 then
              var later := Exactly(|avail| - 4, o1.pace, 4).pace;
              |avail| >= 8 && SoftUntil(pace, later) && !EndsHard(pace, later)
            else
              SoftUntil(pace, d.pace) &&
              if EndsHard(pace, d.pace) then d.result == -1 else d.result == 0 && |avail| < 8
  {
    var o1 := Exactly(|avail|, pace, 4);
    ExactlyAny(|avail|, pace, 4);
    if o1.count == 4 {
      ExactlyAny(|avail| - 4, o1.pace, 4);
      SoftJoins(pace, o1.pace, Exactly(|avail| - 4, o1.pace, 4).pace);
    }
  }

  /** The message after its two words. */
  lemma BodyExact(avail: seq<byte>, pace: seq<Pace>, size: nat, length: nat)
    requires |avail| >= 8
    ensures var d := Body(avail, pace, size, length);
            if length < size then d.result == -1 && d.pace == pace
            else
              SoftUntil(pace, d.pace) &&
              if EndsHard(pace, d.pace) then d.result == -1
              else if |avail| < 8 + size then d.result == 0
              else d.result == size && d.body == avail[8..8 + size] && d.used == 8 + size
  {
    ExactlyAny(|avail| - 8, pace, size);
  }

  /**
   One `read_message` call under any script: -1 exactly if the last call made failed for good or
   a complete header announces more than the buffer holds; 0 exactly if nothing failed and the
   stream ends before the message does, or the message is empty; else the length of the body.
   */
  lemma MessageExact(avail: seq<byte>, pace: seq<Pace>, length: nat)
    ensures var d := Message(avail, pace, length);
            var size := if |avail| < 8 then 0 else BigEndian(avail[..4]);
            SoftUntil(pace, d.pace) &&
            (d.result == -1 <==> EndsHard(pace, d.pace) || length < size) &&
            (d.result == 0 <==> (!EndsHard(pace, d.pace) && size <= length && (|avail| < 8 + size || size == 0))) &&
            (d.result > 0 ==> d.result == size && d.body == avail[8..8 + size] && d.used == 8 + size)
  {
    HeaderExact(avail, pace, length);
    var o1 := Exactly(|avail|, pace, 4);
    if o1.count == 4 && Exactly(|avail| - 4, o1.pace, 4).count == 4 {
      WordsAreBigEndian(avail[..4], 0);
      var later, d := Exactly(|avail| - 4, o1.pace, 4).pace, Message(avail, pace, length);
      BodyExact(avail, later, FromWord(avail[..4]), length);
      if FromWord(avail[..4]) <= length {
        SoftJoins(pace, later, d.pace);
      }
    } else if |avail| >= 8 {
      WordsAreBigEndian(avail[..4], 0);
    }
  }

  lemma FrameParses(kind: nat, body: seq<byte>, rest: seq<byte>, length: nat)
    requires kind < 0x1_0000_0000 && |body| <= length < 0x8000_0000
    ensures Parse(Frame(kind, body) + rest, length) == Whole(body, 8 + |body|)
    ensures (Frame(kind, body) + rest)[8 + |body|..] == rest
  {
    var avail := Frame(kind, body) + rest;
    WordRoundTrip(|body|);
    assert avail[..4] == ToWord(|body|);
    assert avail[8..8 + |body|] == body;
  }

  lemma ParsedWasFrame(avail: seq<byte>, length: nat) returns (kind: nat)
    requires length < 0x8000_0000 && Parse(avail, length).Whole?
    ensures kind < 0x1_0000_0000
    ensures var p := Parse(avail, length);
            |p.body| <= length && p.used == 8 + |p.body| <= |avail| && avail[..p.used] == Frame(kind, p.body)
  {
    kind := FromWord(avail[4..8]);
    WordUnique(avail[..4]);
    WordUnique(avail[4..8]);
    var p := Parse(avail, length);
    assert avail[..p.used] == avail[..4] + avail[4..8] + avail[8..p.used];
  }

  /** A stream parses to a body exactly when it starts with a frame around that body. */
  lemma ParseInvertsFrame(avail: seq<byte>, length: nat, body: seq<byte>)
    requires length < 0x8000_0000
    ensures Parse(avail, length) == Whole(body, 8 + |body|) <==>
            |body| <= length && exists kind: nat | kind < 0x1_0000_0000 :: Frame(kind, body) <= avail
  {
    if Parse(avail, length) == Whole(body, 8 + |body|) {
      var kind := ParsedWasFrame(avail, length);
      assert Frame(kind, body) <= avail;
    }
    if |body| <= length {
      forall kind: nat | kind < 0x1_0000_0000 && Frame(kind, body) <= avail
        ensures Parse(avail, length) == Whole(body, 8 + |body|)
      {
        assert avail == Frame(kind, body) + avail[8 + |body|..];
        FrameParses(kind, body, avail[8 + |body|..], length);
      }
    }
  }

  /** The server's loop: deliver until a call returns no positive count. */
  datatype Session = Session(bodies: seq<seq<byte>>, last: int, rest: seq<byte>)

  function Serve(avail: seq<byte>, pace: seq<Pace>, length: nat): Session
    decreases |avail|
  {
    var d := Message(avail, pace, length);
    if d.result <= 0 then Session([], d.result, avail[d.used..])
    else Delivered([d.body], Serve(avail[d.used..], d.pace, length))
  }

  function Delivered(first: seq<seq<byte>>, s: Session): Session { s.(bodies := first + s.bodies) }

  /**
   How a session ends, under any script: its last call finds `avail[at..]` and the script `later`.
   The session reports -1 exactly if that call ends with a failure for good or meets a header that
   announces too much, and 0 otherwise; no earlier call failed for good.
   */
  lemma {:induction false} SessionEnds(avail: seq<byte>, pace: seq<Pace>, length: nat)
    returns (at: nat, later: seq<Pace>)
    ensures at <= |avail| && SoftUntil(pace, later) && !EndsHard(pace, later)
    ensures var s, d := Serve(avail, pace, length), Message(avail[at..], later, length);
            SoftUntil(later, d.pace) && s.rest == avail[at..][d.used..] && s.last == d.result && s.last <= 0 &&
            (s.last == -1 <==>
              EndsHard(later, d.pace) || (|avail| - at >= 8 && length < BigEndian(avail[at..][..4])))
    decreases |avail|
  {
    var d := Message(avail, pace, length);
    MessageExact(avail, pace, length);
    if d.result <= 0 {
      at, later := 0, pace;
      assert avail[0..] == avail;
    } else {
      at, later := SessionEnds(avail[d.used..], d.pace, length);
      SoftJoins(pace, d.pace, later);
      at := d.used + at;
      assert avail[d.used..][at - d.used..] == avail[at..];
    }
  }

  method ServeMessages(socket: Socket) returns (received: seq<seq<byte>>, n: int)
    modifies socket`incoming, socket`pace, socket`errno
    ensures Session(received, n, socket.incoming) == Serve(old(socket.incoming), old(socket.pace), BUFFER_SIZE)
  {
    var receiveBuffer := new byte[BUFFER_SIZE + 1];
    ghost var all := Serve(socket.incoming, socket.pace, BUFFER_SIZE);
    received := [];
    while true
      invariant all == Delivered(received, Serve(socket.incoming, socket.pace, BUFFER_SIZE))
      decreases |socket.incoming|
    {
      n := ReadMessage(socket, receiveBuffer, BUFFER_SIZE);
      if n <= 0 {
        assert received + [] == received;
        return;
      }
      Assoc(received, [receiveBuffer[..n]], Serve(socket.incoming, socket.pace, BUFFER_SIZE).bodies);
      received := received + [receiveBuffer[..n]];
      receiveBuffer[n] := 0;
    }
  }

  /** A first body that fits is delivered, and the session goes on with the rest. */
  lemma GoodHead(first: seq<byte>, rest: seq<seq<byte>>, pace: seq<Pace>, length: nat) returns (later: seq<Pace>)
    requires Benign(pace) && length < 0x8000_0000
    requires Sized([first] + rest, 0, 0xFFFF_FFFF) && 1 <= |first| <= length
    ensures Benign(later) && Sized(rest, 0, 0xFFFF_FFFF)
    ensures Serve(Frames([first] + rest), pace, length) == Delivered([first], Serve(Frames(rest), later, length))
  {
    var all := [first] + rest;
    assert all[0] == first && all[1..] == rest;
    MessageIsParse(Frames(all), pace, length);
    FrameParses(1, first, Frames(rest), length);
    later := Message(Frames(all), pace, length).pace;
  }

  lemma TooBigParses(kind: nat, body: seq<byte>, rest: seq<byte>, length: nat)
    requires kind < 0x1_0000_0000 && length < |body| < 0x1_0000_0000
    ensures Parse(Frame(kind, body) + rest, length) == TooBig
    ensures (Frame(kind, body) + rest)[8..] == body + rest
  {
    var avail := Frame(kind, body) + rest;
    WordRoundTrip(|body|);
    assert avail[..4] == ToWord(|body|);
  }

  /** A first body that is empty or does not fit ends the session at once. */
  lemma BadHead(body: seq<byte>, post: seq<seq<byte>>, pace: seq<Pace>, length: nat)
    requires Benign(pace) && length < 0x8000_0000
    requires Sized([body] + post, 0, 0xFFFF_FFFF) && Sized(post, 0, 0xFFFF_FFFF) && (body == [] || length < |body|)
    ensures Serve(Frames([body] + post), pace, length)
         == if body == [] then Session([], 0, Frames(post)) else Session([], -1, body + Frames(post))
  {
    var all := [body] + post;
    assert all[0] == body && all[1..] == post;
    MessageIsParse(Frames(all), pace, length);
    if body == [] {
      FrameParses(1, [], Frames(post), length);
    } else {
      TooBigParses(1, body, Frames(post), length);
    }
  }

  /**
   The session over any framed bodies: it delivers them up to the first that is empty or does
   not fit, and stops there, however the stream was cut up.
   */
  lemma {:induction false} SessionStops(pre: seq<seq<byte>>, body: seq<byte>, post: seq<seq<byte>>,
                                        pace: seq<Pace>, length: nat)
    requires Benign(pace) && length < 0x8000_0000
    requires Sized(pre, 1, length) && Sized(post, 0, 0xFFFF_FFFF)
    requires |body| < 0x1_0000_0000 && (body == [] || length < |body|)
    ensures Serve(Frames(pre + ([body] + post)), pace, length)
         == if body == [] then Session(pre, 0, Frames(post)) else Session(pre, -1, body + Frames(post))
    decreases |pre|
  {
    if pre == [] {
      assert pre + ([body] + post) == [body] + post;
      BadHead(body, post, pace, length);
    } else {
      var rest := pre[1..] + ([body] + post);
      assert pre + ([body] + post) == [pre[0]] + rest;
      var later := GoodHead(pre[0], rest, pace, length);
      SessionStops(pre[1..], body, post, later, length);
      assert [pre[0]] + pre[1..] == pre;
    }
  }

  /**
   Round trip: however the stream was cut up, the server delivers exactly the bodies that were
   framed, in order, and stops at the end of the stream, if and only if each of them fits the
   buffer and none is empty.
   */
  lemma {:induction false} FramingRoundTrip(bodies: seq<seq<byte>>, pace: seq<Pace>, length: nat)
    requires Benign(pace) && length < 0x8000_0000
    requires Sized(bodies, 0, 0xFFFF_FFFF)
    ensures Serve(Frames(bodies), pace, length) == Session(bodies, 0, []) <==> Sized(bodies, 1, length)
    decreases |bodies|
  {
    if bodies == [] {
      MessageIsParse([], pace, length);
    } else {
      var first, rest := bodies[0], bodies[1..];
      assert bodies == [first] + rest;
      if 1 <= |first| <= length {
        var later := GoodHead(first, rest, pace, length);
        FramingRoundTrip(rest, later, length);
      } else {
        BadHead(first, rest, pace, length);
      }
    }
  }

  /** An empty body ends the session early: the reader cannot tell it from a closed stream. */
  lemma EmptyBodyStops(pre: seq<seq<byte>>, post: seq<seq<byte>>, pace: seq<Pace>, length: nat)
    requires Benign(pace) && length < 0x8000_0000
    requires Sized(pre, 1, length) && Sized(post, 0, 0xFFFF_FFFF)
    ensures Serve(Frames(pre + ([[]] + post)), pace, length) == Session(pre, 0, Frames(post))
  {
    SessionStops(pre, [], post, pace, length);
  }

  // ---------- lines ----------

  const CR: byte := 13
  const LF: byte := 10

  /** One step of the line loop: the character stored, if any, and what is left. */
  datatype CharStep = CharStep(c: Option<byte>, rest: seq<byte>, pace: seq<Pace>)

  /** What a carriage return becomes: the pair's line feed goes only if both calls succeed. */
  function AfterReturn(avail: seq<byte>, pace: seq<Pace>): (t: CharStep)
    ensures |t.rest| <= |avail| && t.c == Some(LF)
  {
    match ReadAnswer(|avail|, pace, 1)
    case Failed(_) => CharStep(Some(LF), avail, Rest(pace))
    case Count(n) =>
      if n == 0 || avail[0] != LF then CharStep(Some(LF), avail, Rest(pace))
      else
        match ReadAnswer(|avail|, Rest(pace), 1)
        case Failed(_) => CharStep(Some(LF), avail, Rest(Rest(pace)))
        case Count(k) => CharStep(Some(LF), avail[k..], Rest(Rest(pace)))
  }

  function NextChar(avail: seq<byte>, pace: seq<Pace>): (t: CharStep)
    ensures |t.rest| <= |avail| && (t.c.Some? ==> |t.rest| < |avail|)
  {
    match ReadAnswer(|avail|, pace, 1)
    case Failed(_) => CharStep(None, avail, Rest(pace))
    case Count(n) =>
      if n == 0 then CharStep(None, avail, Rest(pace))
      else if avail[0] == CR then AfterReturn(avail[1..], Rest(pace))
      else CharStep(Some(avail[0]), avail[1..], Rest(pace))
  }

  /** The text of a line, what is left of the stream, and the script left. */
  datatype Line = Line(text: seq<byte>, rest: seq<byte>, pace: seq<Pace>)

  function Prepend(text: seq<byte>, l: Line): Line { l.(text := text + l.text) }

  /** One `read_line` call with `room` bytes for text. */
  function ReadLineSpec(avail: seq<byte>, pace: seq<Pace>, room: nat): (l: Line)
    ensures |l.rest| <= |avail| && |l.text| <= room
    ensures l.text != [] ==> |l.rest| < |avail|
    decreases room
  {
    if room == 0 then Line([], avail, pace)
    else
      var t := NextChar(avail, pace);
      if t.c.None? then Line([], t.rest, t.pace)
      else if t.c.value == LF then Line([LF], t.rest, t.pace)
      else Prepend([t.c.value], ReadLineSpec(t.rest, t.pace, room - 1))
  }

  /** The receiving part of the loop body: one `recv`, and the look past a carriage return. */
  method ReceiveChar(socket: Socket, before: byte) returns (got: bool, c: byte)
    modifies socket`incoming, socket`pace, socket`errno
    ensures CharStep(if got then Some(c) else None, socket.incoming, socket.pace)
         == NextChar(old(socket.incoming), old(socket.pace))
  {
    var readResult;
    readResult, c := socket.RecvByte(false, before);
    got := readResult > 0;
    if got && c == CR {
      readResult, c := socket.RecvByte(true, c);
      if readResult > 0 && c == LF {
        readResult, c := socket.RecvByte(false, c);
      } else {
        c := LF;
      }
    }
  }

  method ReadLine(socket: Socket, buffer: array<byte>, length: nat) returns (countUp: nat)
    requires 1 <= length <= buffer.Length
    modifies socket`incoming, socket`pace, socket`errno, buffer
    ensures countUp < length && buffer[countUp] == 0
    ensures Line(buffer[..countUp], socket.incoming, socket.pace)
         == ReadLineSpec(old(socket.incoming), old(socket.pace), length - 1)
  {
    countUp := 0;
    var c: byte := 0;
    ghost var whole := ReadLineSpec(socket.incoming, socket.pace, length - 1);
    ghost var text: seq<byte> := [];
    while countUp < length - 1 && c != LF
      invariant countUp <= length - 1 && |text| == countUp
      invariant forall k :: 0 <= k < countUp ==> buffer[k] == text[k]
      invariant whole == Prepend(text, Ahead(c, socket.incoming, socket.pace, length - 1 - countUp))
      decreases length - countUp, c != LF
    {
      ghost var here, script := socket.incoming, socket.pace;
      var got;
      got, c := ReceiveChar(socket, c);
      Extend(text, here, script, length - 1 - countUp);
      if got {
        buffer[countUp] := c;
        countUp := countUp + 1;
        text := text + [c];
      } else {
        c := LF;
      }
    }
    assert text + [] == text;
    buffer[countUp] := 0;
    assert buffer[..countUp] == text;
  }

  /** What the loop will still add after storing `c`. */
  function Ahead(c: byte, avail: seq<byte>, pace: seq<Pace>, room: nat): Line {
    if c == LF then Line([], avail, pace) else ReadLineSpec(avail, pace, room)
  }

  lemma Extend(text: seq<byte>, avail: seq<byte>, pace: seq<Pace>, room: nat)
    requires room > 0
    ensures var t := NextChar(avail, pace);
            Prepend(text, ReadLineSpec(avail, pace, room)) ==
            match t.c
            case None => Prepend(text, Ahead(LF, t.rest, t.pace, room))
            case Some(c) => Prepend(text + [c], Ahead(c, t.rest, t.pace, room - 1))
  {
    var t := NextChar(avail, pace);
    if t.c.Some? {
      Assoc(text, [t.c.value], Ahead(t.c.value, t.rest, t.pace, room - 1).text);
    }
  }

  predicate ErrorFree(pace: seq<Pace>) { forall i :: 0 <= i < |pace| ==> pace[i].Ready? }

  /** The stream with CRLF pairs and lone carriage returns replaced by line feeds. */
  function Normalise(s: seq<byte>): seq<byte> {
    if s == [] then []
    else if s[0] == CR then [LF] + Normalise(if |s| > 1 && s[1] == LF then s[2..] else s[1..])
    else [s[0]] + Normalise(s[1..])
  }

  /** A line ends at its line feed, at the end of the stream or when the buffer is full. */
  predicate IsLine(text: seq<byte>, rest: seq<byte>, room: nat) {
    && text != []
    && (forall i :: 0 <= i < |text| - 1 ==> text[i] != LF)
    && CR !in text
    && (text[|text| - 1] == LF || |text| == room || rest == [])
  }

  predicate Fails(pace: seq<Pace>) { pace != [] && pace[0].ReadFails? }

  /** The call that gets a carriage return fails to look past it at its line feed, or to take it. */
  predicate SplitsHere(avail: seq<byte>, pace: seq<Pace>) {
    && |avail| > 1 && avail[0] == CR && avail[1] == LF
    && !Fails(pace) && (Fails(Rest(pace)) || Fails(Rest(Rest(pace))))
  }

  /** Somewhere in this `read_line` call a pair is split. */
  predicate Splits(avail: seq<byte>, pace: seq<Pace>, room: nat)
    decreases room
  {
    room > 0 &&
    (SplitsHere(avail, pace) ||
     var t := NextChar(avail, pace);
     t.c.Some? && t.c.value != LF && Splits(t.rest, t.pace, room - 1))
  }

  lemma NextCharConserves(avail: seq<byte>, pace: seq<Pace>)
    ensures var t := NextChar(avail, pace);
            (t.c.None? <==> avail == [] || Fails(pace)) && (t.c.None? ==> t.rest == avail) &&
            (t.c.Some? ==> t.c.value != CR) &&
            (t.c.Some? ==>
              if SplitsHere(avail, pace) then t.c.value == LF && [t.c.value] + Normalise(t.rest) == [LF] + Normalise(avail)
              else [t.c.value] + Normalise(t.rest) == Normalise(avail))
  {
    if |avail| > 1 {
      assert avail[1..][1..] == avail[2..];
    }
    if SplitsHere(avail, pace) {
      var t := NextChar(avail, pace);
      assert t.rest == avail[1..];
      assert Normalise(avail[1..]) == [LF] + Normalise(avail[2..]) == Normalise(avail);
    }
  }

  lemma NextCharErrorFree(avail: seq<byte>, pace: seq<Pace>)
    requires ErrorFree(pace)
    ensures ErrorFree(NextChar(avail, pace).pace) && !SplitsHere(avail, pace)
  {
    assert ErrorFree(Rest(pace)) && ErrorFree(Rest(Rest(pace)));
  }

  lemma SameHead(c: byte, a: seq<byte>, b: seq<byte>)
    ensures [c] + a == [c] + b <==> a == b
  {
    assert ([c] + a)[1..] == a && ([c] + b)[1..] == b;
  }

  /**
   One call, whatever fails: it moves the front of the normalised stream into the buffer unless
   it splits a pair, and then the pair gives one line feed too many.
   */
  lemma {:induction false} LineExact(avail: seq<byte>, pace: seq<Pace>, room: nat)
    ensures var l := ReadLineSpec(avail, pace, room);
            |l.text + Normalise(l.rest)| == |Normalise(avail)| + (if Splits(avail, pace, room) then 1 else 0) &&
            (l.text + Normalise(l.rest) == Normalise(avail) <==> !Splits(avail, pace, room))
    ensures var l := ReadLineSpec(avail, pace, room);
            (l.text == [] <==> room == 0 || avail == [] || Fails(pace)) && (l.text == [] ==> l.rest == avail)
    decreases room
  {
    if room > 0 {
      NextCharConserves(avail, pace);
      var t := NextChar(avail, pace);
      if t.c.Some? && t.c.value != LF {
        LineExact(t.rest, t.pace, room - 1);
        var l := ReadLineSpec(t.rest, t.pace, room - 1);
        Assoc([t.c.value], l.text, Normalise(l.rest));
        SameHead(t.c.value, l.text + Normalise(l.rest), Normalise(t.rest));
      }
    }
  }

  /** One error-free call moves the front of the normalised stream into the buffer. */
  lemma {:induction false} LineConserves(avail: seq<byte>, pace: seq<Pace>, room: nat)
    requires ErrorFree(pace)
    ensures var l := ReadLineSpec(avail, pace, room);
            l.text + Normalise(l.rest) == Normalise(avail) && ErrorFree(l.pace) && !Splits(avail, pace, room) &&
            (l.text == [] <==> room == 0 || avail == [])
    decreases room
  {
    LineExact(avail, pace, room);
    if room > 0 {
      NextCharErrorFree(avail, pace);
      var t := NextChar(avail, pace);
      if t.c.Some? && t.c.value != LF {
        LineConserves(t.rest, t.pace, room - 1);
      }
    }
  }

  /** Each text is a line of the normalised stream, cut short only by the buffer. */
  lemma {:induction false} TextIsLine(avail: seq<byte>, pace: seq<Pace>, room: nat)
    requires ErrorFree(pace) && room > 0 && avail != []
    ensures var l := ReadLineSpec(avail, pace, room);
            IsLine(l.text, l.rest, room)
    decreases room
  {
    NextCharConserves(avail, pace);
    NextCharErrorFree(avail, pace);
    var t := NextChar(avail, pace);
    if t.c.value != LF && room > 1 && t.rest != [] {
      TextIsLine(t.rest, t.pace, room - 1);
      var l := ReadLineSpec(t.rest, t.pace, room - 1);
      LineGrows(t.c.value, l.text, l.rest, room);
    } else if t.c.value != LF && room > 1 {
      NextCharConserves(t.rest, t.pace);
    }
  }

  /** The last of the calls made between two scripts failed. */
  predicate EndsFailed(pace: seq<Pace>, later: seq<Pace>) {
    |later| < |pace| && pace[|pace| - |later| - 1].ReadFails?
  }

  lemma FailedJoins(pace: seq<Pace>, mid: seq<Pace>, later: seq<Pace>)
    requires Later(pace, mid) && EndsFailed(mid, later)
    ensures EndsFailed(pace, later)
  {
    var i := |mid| - |later| - 1;
    assert pace[|pace| - |mid| + i] == mid[i];
  }

  lemma LaterJoins(pace: seq<Pace>, later: seq<Pace>)
    requires Later(Rest(pace), later)
    ensures Later(pace, later)
  {
  }

  lemma NextCharScript(avail: seq<byte>, pace: seq<Pace>)
    ensures var t := NextChar(avail, pace);
            Later(pace, t.pace) && (t.c.None? ==> avail == [] || EndsFailed(pace, t.pace))
  {
    LaterJoins(pace, Rest(pace));
    if NextChar(avail, pace).c.Some? && avail[0] == CR {
      AfterReturnScript(avail[1..], Rest(pace));
      LaterJoins(pace, NextChar(avail, pace).pace);
    }
  }

  lemma AfterReturnScript(avail: seq<byte>, pace: seq<Pace>)
    ensures Later(pace, AfterReturn(avail, pace).pace)
  {
    LaterJoins(pace, Rest(pace));
    LaterJoins(Rest(pace), Rest(Rest(pace)));
    LaterJoins(pace, Rest(Rest(pace)));
  }

  /** A call stops at a line feed, with a full buffer, at the end of the stream or at a failed call. */
  lemma {:induction false} TextStops(avail: seq<byte>, pace: seq<Pace>, room: nat)
    ensures var l := ReadLineSpec(avail, pace, room);
            |l.pace| <= |pace| &&
            ((l.text != [] && l.text[|l.text| - 1] == LF) || |l.text| == room || l.rest == [] || EndsFailed(pace, l.pace))
    decreases room
  {
    if room > 0 {
      NextCharScript(avail, pace);
      NextCharConserves(avail, pace);
      var t := NextChar(avail, pace);
      if t.c.Some? && t.c.value != LF {
        TextStops(t.rest, t.pace, room - 1);
        var l := ReadLineSpec(t.rest, t.pace, room - 1);
        if EndsFailed(t.pace, l.pace) {
          FailedJoins(pace, t.pace, l.pace);
        }
      }
    }
  }

  /**
   Under any script a call stores a beginning of the normalised stream with at most one line feed,
   at its end; it stops there, or with a full buffer, at the end of the stream or at a failed call.
   */
  lemma {:induction false} TextUnderFailures(avail: seq<byte>, pace: seq<Pace>, room: nat)
    ensures var l := ReadLineSpec(avail, pace, room);
            l.text <= Normalise(avail) && CR !in l.text &&
            (forall i :: 0 <= i < |l.text| - 1 ==> l.text[i] != LF) &&
            ((l.text != [] && l.text[|l.text| - 1] == LF) || |l.text| == room || l.rest == [] ||
             EndsFailed(pace, l.pace))
    decreases room
  {
    TextStops(avail, pace, room);
    if room > 0 && NextChar(avail, pace).c.Some? {
      NextCharConserves(avail, pace);
      NormaliseStarts(avail, pace);
      var t := NextChar(avail, pace);
      if t.c.value != LF {
        TextUnderFailures(t.rest, t.pace, room - 1);
        TextGrows(t.c.value, ReadLineSpec(t.rest, t.pace, room - 1).text, Normalise(t.rest));
      }
    }
  }

  lemma TextGrows(c: byte, text: seq<byte>, all: seq<byte>)
    requires c != CR && c != LF && text <= all && CR !in text
    requires forall i :: 0 <= i < |text| - 1 ==> text[i] != LF
    ensures [c] + text <= [c] + all && CR !in [c] + text
    ensures forall i :: 0 <= i < |[c] + text| - 1 ==> ([c] + text)[i] != LF
  {
    assert forall i :: 0 < i < |[c] + text| ==> ([c] + text)[i] == text[i - 1];
  }

  lemma NormaliseStarts(avail: seq<byte>, pace: seq<Pace>)
    requires NextChar(avail, pace).c.Some?
    ensures var t := NextChar(avail, pace);
            if t.c.value == LF then [LF] <= Normalise(avail) else Normalise(avail) == [t.c.value] + Normalise(t.rest)
  {
    NextCharConserves(avail, pace);
    var t := NextChar(avail, pace);
    assert ([t.c.value] + Normalise(t.rest))[0] == t.c.value;
  }

  lemma LineGrows(c: byte, text: seq<byte>, rest: seq<byte>, room: nat)
    requires c != CR && c != LF && room > 0 && IsLine(text, rest, room - 1)
    ensures IsLine([c] + text, rest, room)
  {
    var all := [c] + text;
    assert forall i :: 0 < i < |all| ==> all[i] == text[i - 1];
  }

  /** The texts of successive calls, up to the first call that returns 0, and what they leave. */
  datatype Lines = Lines(texts: seq<seq<byte>>, rest: seq<byte>)

  function ReadAllLines(avail: seq<byte>, pace: seq<Pace>, room: nat): Lines
    decreases |avail|
  {
    var l := ReadLineSpec(avail, pace, room);
    if l.text == [] then Lines([], l.rest)
    else
      var more := ReadAllLines(l.rest, l.pace, room);
      Lines([l.text] + more.texts, more.rest)
  }

  /** How many of the successive calls split a pair. */
  function SplitCalls(avail: seq<byte>, pace: seq<Pace>, room: nat): nat
    decreases |avail|
  {
    var l := ReadLineSpec(avail, pace, room);
    (if Splits(avail, pace, room) then 1 else 0) + (if l.text == [] then 0 else SplitCalls(l.rest, l.pace, room))
  }

  /** Some call fails at its first byte although the stream goes on. */
  predicate Stalls(avail: seq<byte>, pace: seq<Pace>, room: nat)
    decreases |avail|
  {
    var l := ReadLineSpec(avail, pace, room);
    if l.text == [] then avail != [] && Fails(pace) else Stalls(l.rest, l.pace, room)
  }

  /**
   Repeated calls under any failures: the texts followed by the normalised rest are the
   normalised stream exactly if no call splits a pair, each split adds one line feed, and
   nothing is left exactly if no call fails at its first byte.
   */
  lemma {:induction false} LinesExact(avail: seq<byte>, pace: seq<Pace>, length: nat)
    requires length >= 2
    ensures var r := ReadAllLines(avail, pace, length - 1);
            var n := SplitCalls(avail, pace, length - 1);
            |Flatten(r.texts) + Normalise(r.rest)| == |Normalise(avail)| + n &&
            (Flatten(r.texts) + Normalise(r.rest) == Normalise(avail) <==> n == 0) &&
            (r.rest == [] <==> !Stalls(avail, pace, length - 1))
    decreases |avail|
  {
    LineExact(avail, pace, length - 1);
    var l := ReadLineSpec(avail, pace, length - 1);
    if l.text != [] {
      LinesExact(l.rest, l.pace, length);
      var more := ReadAllLines(l.rest, l.pace, length - 1);
      Assoc(l.text, Flatten(more.texts), Normalise(more.rest));
    }
  }

  /** Line reading depends neither on the fragments nor on the buffer size, CRLF pairs included. */
  lemma {:induction false} LinesAreChunkIndependent(avail: seq<byte>, pace: seq<Pace>, length: nat)
    requires ErrorFree(pace) && length >= 2
    ensures var r := ReadAllLines(avail, pace, length - 1);
            Flatten(r.texts) == Normalise(avail) && r.rest == []
    decreases |avail|
  {
    LineConserves(avail, pace, length - 1);
    var l := ReadLineSpec(avail, pace, length - 1);
    if l.text != [] {
      LinesAreChunkIndependent(l.rest, l.pace, length);
    }
  }

  /** Error-freedom is needed: one interrupted peek splits a CRLF pair over two lines. */
  lemma InterruptedPeekSplitsPair(length: nat)
    requires length >= 2
    ensures var pace := [Ready(0), ReadFails(EINTR)];
            ReadAllLines([CR, LF], pace, length - 1) == Lines([[LF], [LF]], []) && Normalise([CR, LF]) == [LF]
  {
    var pace := [Ready(0), ReadFails(EINTR)];
    assert NextChar([CR, LF], pace) == CharStep(Some(LF), [LF], []);
    assert ReadLineSpec([CR, LF], pace, length - 1) == Line([LF], [LF], []);
    assert ReadLineSpec([LF], [], length - 1) == Line([LF], [], []);
    assert ReadAllLines([], [], length - 1) == Lines([], []);
    assert ReadAllLines([LF], [], length - 1) == Lines([[LF]], []);
    assert Normalise([CR, LF]) == [LF] + Normalise([]);
  }
}
