/**
 The kernel side of a stream socket, as an oracle. What the peer sends is a plain byte
 sequence; how the kernel hands it out, and how much of each write it takes, is decided by
 two scripts that every statement quantifies over.
 */
module Sockets {
  import opened Prelude

  datatype Errno = EINTR | EAGAIN | EPIPE | ECONNRESET | OtherErrno

  /** The answer to one read: at most `more + 1` bytes are ready, or the call fails. */
  datatype Pace = Ready(more: nat) | ReadFails(errno: Errno)

  /** The answer to one write: at most `room` bytes are taken, or the call fails. */
  datatype Verdict = Takes(room: nat) | WriteFails(errno: Errno)

  datatype Answer = Count(n: nat) | Failed(errno: Errno)

  /** What `read` says when the peer will still send `left` bytes; 0 means end of file. */
  function ReadAnswer(left: nat, pace: seq<Pace>, want: nat): (a: Answer)
    ensures a.Count? ==> a.n <= want && a.n <= left && (a.n == 0 <==> want == 0 || left == 0)
  {
    if pace == [] then Count(Min(want, left))
    else
      match pace[0]
      case Ready(more) => Count(Min(want, Min(left, more + 1)))
      case ReadFails(e) => Failed(e)
  }

  function WriteAnswer(verdicts: seq<Verdict>, offered: nat): (a: Answer)
    ensures a.Count? ==> a.n <= offered
  {
    if verdicts == [] then Failed(EAGAIN)
    else
      match verdicts[0]
      case Takes(room) => Count(Min(room, offered))
      case WriteFails(e) => Failed(e)
  }

  class Socket {
    var incoming: seq<byte>
    var pace: seq<Pace>
    var verdicts: seq<Verdict>
    var taken: seq<byte>
    var errno: Errno

    /** read(2) into `buf[off..off + len]`. */
    method Read(buf: array<byte>, off: nat, len: nat) returns (n: int)
      requires off + len <= buf.Length
      modifies this`incoming, this`pace, this`errno, buf
      ensures pace == Rest(old(pace))
      ensures match ReadAnswer(|old(incoming)|, old(pace), len)
              case Count(k) =>
                n == k && incoming == old(incoming)[k..] && errno == old(errno) &&
                buf[..] == Overlay(old(buf[..]), off, old(incoming)[..k])
              case Failed(e) =>
                n == -1 && errno == e && incoming == old(incoming) && buf[..] == old(buf[..])
    {
      var answer := ReadAnswer(|incoming|, pace, len);
      pace := Rest(pace);
      match answer
      case Count(k) =>
        CopyInto(buf, off, incoming[..k]);
        incoming := incoming[k..];
        n := k;
      case Failed(e) =>
        errno := e;
        n := -1;
    }

    /** recv(2) of one byte; with `peek` the byte stays in the stream. */
    method RecvByte(peek: bool, before: byte) returns (n: int, c: byte)
      modifies this`incoming, this`pace, this`errno
      ensures pace == Rest(old(pace))
      ensures match ReadAnswer(|old(incoming)|, old(pace), 1)
              case Count(k) =>
                n == k && c == (if k == 1 then old(incoming)[0] else before) &&
                incoming == (if peek then old(incoming) else old(incoming)[k..])
              case Failed(e) =>
                n == -1 && c == before && incoming == old(incoming)
    {
      var answer := ReadAnswer(|incoming|, pace, 1);
      pace := Rest(pace);
      c := before;
      match answer
      case Count(k) =>
        if k == 1 {
          c := incoming[0];
        }
        if !peek {
          incoming := incoming[k..];
        }
        n := k;
      case Failed(e) =>
        errno := e;
        n := -1;
    }

    /** readv(2) into `buf[off..off + len]` and then `extra`. */
    method Readv(buf: array<byte>, off: nat, len: nat, extra: array<byte>) returns (n: int)
      requires off + len <= buf.Length && buf != extra
      modifies this`incoming, this`pace, this`errno, buf, extra
      ensures pace == Rest(old(pace))
      ensures match ReadAnswer(|old(incoming)|, old(pace), len + extra.Length)
              case Count(k) =>
                n == k && incoming == old(incoming)[k..] && errno == old(errno) &&
                buf[..off] == old(buf[..off]) &&
                buf[off..off + Min(k, len)] == old(incoming)[..Min(k, len)] &&
                (len <= k ==> extra[..k - len] == old(incoming)[len..k])
              case Failed(e) =>
                n == -1 && errno == e && incoming == old(incoming) && buf[..] == old(buf[..])
    {
      var answer := ReadAnswer(|incoming|, pace, len + extra.Length);
      pace := Rest(pace);
      match answer
      case Count(k) =>
        var first := Min(k, len);
        CopyInto(buf, off, incoming[..first]);
        assert buf[..off] == buf[..][..off] && buf[off..off + first] == buf[..][off..off + first];
        if len <= k {
          CopyInto(extra, 0, incoming[len..k]);
          assert extra[..k - len] == extra[..][0..0 + (k - len)];
        }
        incoming := incoming[k..];
        n := k;
      case Failed(e) =>
        errno := e;
        n := -1;
    }

    /** write(2) of `bytes`. */
    method Write(bytes: seq<byte>) returns (n: int)
      modifies this`verdicts, this`taken, this`errno
      ensures verdicts == Rest(old(verdicts))
      ensures match WriteAnswer(old(verdicts), |bytes|)
              case Count(k) => n == k && taken == old(taken) + bytes[..k]
              case Failed(e) => n == -1 && errno == e && taken == old(taken)
    {
      var answer := WriteAnswer(verdicts, |bytes|);
      verdicts := Rest(verdicts);
      match answer
      case Count(k) =>
        taken := taken + bytes[..k];
        n := k;
      case Failed(e) =>
        errno := e;
        n := -1;
    }
  }
}
