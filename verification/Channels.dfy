/** channel.c and channel_map.c: event masks and the growable array indexed by fd. */
module Channels {
  import opened Prelude

  const EVENT_READ: bv8 := 0x02
  const EVENT_WRITE: bv8 := 0x04

  predicate HasRead(events: bv8) { events & EVENT_READ != 0 }

  predicate HasWrite(events: bv8) { events & EVENT_WRITE != 0 }

  function WithWrite(events: bv8): bv8 { events | EVENT_WRITE }

  function WithoutWrite(events: bv8): bv8 { events & !EVENT_WRITE }

  /** Toggling write interest decides the write bit and leaves the read bit. */
  lemma ToggleWrite(events: bv8)
    ensures HasWrite(WithWrite(events)) && !HasWrite(WithoutWrite(events))
    ensures HasRead(WithWrite(events)) == HasRead(events)
    ensures HasRead(WithoutWrite(events)) == HasRead(events)
  {
  }

  /** A mask after write interest was switched on and off in this order. */
  function Switched(events: bv8, ons: seq<bool>): bv8
    decreases |ons|
  {
    if ons == [] then events
    else Switched(if ons[0] then WithWrite(events) else WithoutWrite(events), ons[1..])
  }

  lemma SwitchedJoins(events: bv8, first: seq<bool>, rest: seq<bool>)
    requires |first| <= 1
    ensures Switched(events, first + rest) == Switched(Switched(events, first), rest)
  {
    assert first == [] ==> first + rest == rest;
    assert first != [] ==> (first + rest)[1..] == rest && first[1..] == [];
  }

  /** Disabling write after enabling it restores the mask, and the other way round. */
  lemma ToggleUndone(events: bv8)
    ensures if HasWrite(events) then WithWrite(WithoutWrite(events)) == events
            else WithoutWrite(WithWrite(events)) == events
  {
  }

  class Channel {
    const fd: int
    /** Whether a callback is set for the event. */
    const onReadable: bool
    const onWriteable: bool
    var events: bv8

    constructor (fd: int, events: bv8, onReadable: bool, onWriteable: bool)
      ensures this.fd == fd && this.events == events
      ensures this.onReadable == onReadable && this.onWriteable == onWriteable
    {
      this.fd, this.events, this.onReadable, this.onWriteable := fd, events, onReadable, onWriteable;
    }
  }

  // ---------- channel_map ----------

  const INIT_MAP_SIZE := 32

  function Double(length: nat, slot: int): (r: nat)
    requires length > 0
    ensures slot < r && (r == length || r <= 2 * slot)
    decreases slot - length
  {
    if length <= slot then Double(2 * length, slot) else length
  }

  /** The length `make_space` leaves for `slot`. */
  function GrownLength(length: nat, slot: int): (r: nat)
    ensures length <= r && slot < r
    ensures length < r ==> r <= Max(INIT_MAP_SIZE, 2 * slot)
  {
    if slot < length then length
    else Double(if length == 0 then INIT_MAP_SIZE else length, slot)
  }

  class ChannelMap {
    var entities: array<Channel?>
    var length: nat

    ghost predicate Valid()
      reads this
    {
      length == entities.Length
    }

    constructor ()
      ensures Valid() && fresh(entities) && length == 0
    {
      entities := new Channel?[0];
      length := 0;
    }

    method MakeSpace(slot: int)
      requires Valid()
      modifies `entities, `length
      ensures Valid() && length == GrownLength(old(length), slot)
      ensures entities[..old(length)] == old(entities[..])
      ensures forall i :: old(length) <= i < length ==> entities[i] == null
      ensures entities == old(entities) || fresh(entities)
    {
      if length <= slot {
        var newLength := if length == 0 then INIT_MAP_SIZE else length;
        while newLength <= slot
          invariant 0 < newLength
          invariant Double(newLength, slot) == GrownLength(length, slot)
          decreases slot - newLength
        {
          newLength := 2 * newLength;
        }
        var temp := new Channel?[newLength](_ => null);
        for i := 0 to length
          invariant entities == old(entities) && length == old(length)
          invariant forall k :: 0 <= k < newLength ==> temp[k] == if k < i then entities[k] else null
        {
          temp[i] := entities[i];
        }
        assert temp[..length] == entities[..];
        entities, length := temp, newLength;
      } else {
        assert entities[..length] == entities[..];
      }
    }
  }

  function Pow2(k: nat): (r: nat)
    ensures r > 0
  {
    if k == 0 then 1 else 2 * Pow2(k - 1)
  }

  /** The lengths a map can have: none yet, or 32 doubled some number of times. */
  ghost predicate IsMapLength(length: nat) {
    length == 0 || exists k: nat :: length == INIT_MAP_SIZE * Pow2(k)
  }

  lemma {:induction false} DoubleKeepsShape(k: nat, slot: int)
    ensures exists m: nat :: Double(INIT_MAP_SIZE * Pow2(k), slot) == INIT_MAP_SIZE * Pow2(m)
    decreases slot - INIT_MAP_SIZE * Pow2(k)
  {
    if INIT_MAP_SIZE * Pow2(k) <= slot {
      assert 2 * (INIT_MAP_SIZE * Pow2(k)) == INIT_MAP_SIZE * Pow2(k + 1);
      DoubleKeepsShape(k + 1, slot);
    }
  }

  lemma GrowthKeepsShape(length: nat, slot: int)
    requires IsMapLength(length)
    ensures IsMapLength(GrownLength(length, slot))
  {
    if slot >= length {
      if length == 0 {
        assert INIT_MAP_SIZE == INIT_MAP_SIZE * Pow2(0);
        DoubleKeepsShape(0, slot);
      } else {
        var k: nat :| length == INIT_MAP_SIZE * Pow2(k);
        DoubleKeepsShape(k, slot);
      }
    }
  }

  /** The length after making space for each slot in turn, and how many entries were copied. */
  function GrowAll(length: nat, copied: nat, slots: seq<int>): (r: (nat, nat))
    decreases slots
  {
    if slots == [] then (length, copied)
    else
      var grown := GrownLength(length, slots[0]);
      GrowAll(grown, if grown == length then copied else copied + length, slots[1..])
  }

  /** Growth is amortised: over any run fewer entries are copied than the map ends up with. */
  lemma {:induction false} GrowthAmortised(length: nat, copied: nat, slots: seq<int>)
    requires IsMapLength(length) && copied <= length
    ensures var r := GrowAll(length, copied, slots);
            IsMapLength(r.0) && r.1 <= r.0 && forall i :: 0 <= i < |slots| ==> slots[i] < r.0
    ensures length <= GrowAll(length, copied, slots).0
    decreases slots
  {
    if slots != [] {
      var grown := GrownLength(length, slots[0]);
      GrowthKeepsShape(length, slots[0]);
      if grown != length && length > 0 {
        DoublesAtLeast(length, slots[0]);
      }
      GrowthAmortised(grown, if grown == length then copied else copied + length, slots[1..]);
    }
  }

  lemma {:induction false} DoublesAtLeast(length: nat, slot: int)
    requires 0 < length <= slot
    ensures Double(length, slot) >= 2 * length
    decreases slot - length
  {
    if 2 * length <= slot {
      DoublesAtLeast(2 * length, slot);
    }
  }
}
