/** Shared vocabulary: bytes, options and a few facts about sequences. */
module Prelude {

  datatype Option<+T> = None | Some(value: T)

  /** One octet, as an unsigned value. */
  type byte = b: int | 0 <= b < 256

  function Min(a: int, b: int): int { if a <= b then a else b }

  function Max(a: int, b: int): int { if a <= b then b else a }

  /** `s` with `x` written over it from `off` on: what `memcpy` leaves in the destination. */
  function Overlay<T>(s: seq<T>, off: nat, x: seq<T>): (r: seq<T>)
    requires off + |x| <= |s|
    ensures |r| == |s| && r[..off] == s[..off] && r[off..off + |x|] == x && r[off + |x|..] == s[off + |x|..]
  {
    s[..off] + x + s[off + |x|..]
  }

  function Rest<T>(script: seq<T>): (r: seq<T>)
    ensures |r| <= |script|
  {
    if script == [] then [] else script[1..]
  }

  lemma Assoc<T>(a: seq<T>, b: seq<T>, c: seq<T>)
    ensures (a + b) + c == a + (b + c)
  {
  }

  function Flatten<T>(xs: seq<seq<T>>): seq<T> {
    if xs == [] then [] else xs[0] + Flatten(xs[1..])
  }

  /** Copies `src` to `dst[off..]`, byte by byte. */
  method CopyInto(dst: array<byte>, off: nat, src: seq<byte>)
    requires off + |src| <= dst.Length
    modifies dst
    ensures dst[..] == Overlay(old(dst[..]), off, src)
  {
    for i := 0 to |src|
      invariant forall k :: 0 <= k < dst.Length ==>
        dst[k] == if off <= k < off + i then src[k - off] else old(dst[k])
    {
      dst[off + i] := src[i];
    }
  }
}
