/** Byte sinks: a string that grows, or a fixed buffer flushed into a callback. */
module Membuff {
  import opened JsonTree

  lemma Halves(t: seq<byte>, s: seq<byte>, n: nat)
    requires n <= |s|
    ensures t + s == t + s[..n] + s[n..]
  {
    assert s == s[..n] + s[n..];
  }

  /** The room behind a full buffer of the given capacity after Grow; a hint of 0 means the capacity. */
  function RoomAfterGrow(grows: bool, capacity: nat, hint: nat): nat {
    if grows then (if hint != 0 then hint else capacity) else capacity
  }

  /** Write gets on, for every kind of sink and every hint, if and only if the capacity is not 0: with 0,
      neither a string asked to double nor a flushed buffer ever has room. */
  lemma MakesRoomIff(capacity: nat)
    ensures (forall grows: bool, hint: nat :: RoomAfterGrow(grows, capacity, hint) > 0) <==> capacity > 0
    ensures RoomAfterGrow(true, 0, 0) == 0
  {
    if capacity == 0 { assert RoomAfterGrow(true, 0, 0) == 0; }
  }

  class Out {
    var buffer: array<byte>
    var ptr: nat
    const grows: bool          // StringOut; otherwise FuncOut
    var flushed: seq<byte>     // what FuncOut's callback has received

    ghost predicate Valid()
      reads this
    {
      1 <= buffer.Length && ptr <= buffer.Length && (grows ==> flushed == [])
    }

    /** Every byte written so far, in order. */
    ghost function Total(): seq<byte>
      reads this, buffer
      requires Valid()
    {
      flushed + buffer[..ptr]
    }

    /** The starting size must not be 0: Grow would then never make room. */
    constructor (grows: bool, startSize: nat)
      requires startSize >= 1
      ensures Valid() && Total() == [] && fresh(buffer) && buffer.Length == startSize
    {
      this.grows, ptr, flushed := grows, 0, [];
      buffer := new byte[startSize];
    }

    /** StringOut::Grow appends room; FuncOut::Grow hands over what there is. */
    method Grow(amount: nat)
      requires Valid() && amount >= 1
      modifies this
      ensures Valid() && Total() == old(Total()) && ptr < buffer.Length
      ensures old(ptr) == old(buffer).Length ==> buffer.Length - ptr == RoomAfterGrow(grows, old(buffer).Length, amount)
      ensures buffer == old(buffer) || fresh(buffer)
    {
      if grows {
        var bigger := new byte[buffer.Length + amount];
        var i := 0;
        while i < ptr
          invariant i <= ptr && bigger[..i] == buffer[..i]
          modifies bigger
        {
          bigger[i] := buffer[i];
          i := i + 1;
        }
        buffer := bigger;
      } else {
        flushed := flushed + buffer[..ptr];
        ptr := 0;
      }
    }

    /** memcpy(buffer + ptr, data, n) and advance. */
    method Copy(data: seq<byte>)
      requires Valid() && ptr + |data| <= buffer.Length
      modifies this`ptr, buffer
      ensures Valid() && Total() == old(Total()) + data && ptr == old(ptr) + |data|
    {
      ghost var was := buffer[..ptr];
      var i := 0;
      while i < |data|
        invariant i <= |data| && ptr == old(ptr)
        invariant buffer[..ptr + i] == was + data[..i]
      {
        buffer[ptr + i] := data[i];
        i := i + 1;
      }
      ptr := ptr + |data|;
    }

    /** Out::Write; a hint of 0 means doubling. */
    method Write(data: seq<byte>, hint: nat)
      requires Valid()
      modifies this, buffer
      ensures Valid() && Total() == old(Total()) + data
      ensures buffer == old(buffer) || fresh(buffer)
    {
      hide Total;
      if ptr + |data| <= buffer.Length {
        Copy(data);
        return;
      }
      var rest := data;
      while rest != []
        invariant Valid() && Total() + rest == old(Total()) + data
        invariant buffer == old(buffer) || fresh(buffer)
        decreases |rest|
      {
        Grow(if hint != 0 then hint else buffer.Length);
        var left := buffer.Length - ptr;
        var amount := if |rest| < left then |rest| else left;
        Halves(Total(), rest, amount);
        Copy(rest[..amount]);
        rest := rest[amount..];
      }
    }

    method WriteByte(b: byte, hint: nat)
      requires Valid()
      modifies this, buffer
      ensures Valid() && Total() == old(Total()) + [b]
      ensures buffer == old(buffer) || fresh(buffer)
    {
      if ptr >= buffer.Length { Grow(if hint != 0 then hint else buffer.Length); }
      Copy([b]);
    }
  }
}
