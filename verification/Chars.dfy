/** chars.c: the rotation the echo servers apply to every byte. */
module Chars {
  import opened Prelude

  function Rot13(c: byte): byte {
    if 97 <= c <= 109 || 65 <= c <= 77 then c + 13
    else if 110 <= c <= 122 || 78 <= c <= 90 then c - 13
    else c
  }

  /** Letters move 13 places round their alphabet; every other byte stays. */
  lemma Rot13IsRotation(c: byte)
    ensures Rot13(c) == if 97 <= c <= 122 then 97 + (c - 97 + 13) % 26
                        else if 65 <= c <= 90 then 65 + (c - 65 + 13) % 26
                        else c
  {
  }

  function Rot13All(s: seq<byte>): (r: seq<byte>)
    ensures |r| == |s| && forall i :: 0 <= i < |s| ==> r[i] == Rot13(s[i])
  {
    if s == [] then [] else [Rot13(s[0])] + Rot13All(s[1..])
  }

  /** Rotating twice gives the text back, so a client can undo the server. */
  lemma Rot13Involution(s: seq<byte>)
    ensures Rot13All(Rot13All(s)) == s
  {
    assert forall i :: 0 <= i < |s| ==> Rot13All(Rot13All(s))[i] == s[i];
  }

  /** The rotation commutes with cutting the stream into pieces. */
  lemma Rot13Concat(a: seq<byte>, b: seq<byte>)
    ensures Rot13All(a + b) == Rot13All(a) + Rot13All(b)
  {
    assert forall i :: 0 <= i < |a| + |b| ==> Rot13All(a + b)[i] == (Rot13All(a) + Rot13All(b))[i];
  }
}
