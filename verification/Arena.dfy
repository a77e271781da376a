/** The bump allocator: blocks, the free tail of the newest one, and the regions handed out. */
module Arena {
  import opened Wrappers

  const MAX_ALIGN := 16

  /** Addresses from `at` up to, not including, at + size. */
  datatype Region = Region(at: nat, size: nat)

  predicate Apart(a: Region, b: Region) { a.at + a.size <= b.at || b.at + b.size <= a.at }

  predicate Inside(a: Region, b: Region) { b.at <= a.at && a.at + a.size <= b.at + b.size }

  predicate Alignment(align: nat) { align == 1 || align == 2 || align == 4 || align == 8 || align == 16 }

  predicate PairwiseApart(rs: seq<Region>) { forall i, j :: 0 <= i < j < |rs| ==> Apart(rs[i], rs[j]) }

  /** Apart from the free tail, if there is any. */
  predicate ClearOf(r: Region, tail: Region) { tail.size > 0 ==> Apart(r, tail) }

  /** Owned blocks do not overlap; what was handed out lies in owned blocks, does not overlap, and
      stays clear of the free tail, which lies in an owned block too. */
  ghost predicate Sound(blocks: seq<Region>, tail: Region, given: seq<Region>) {
    && PairwiseApart(blocks) && PairwiseApart(given)
    && (forall i :: 0 <= i < |given| ==> given[i].size > 0 && ClearOf(given[i], tail) && Owned(blocks, given[i]))
    && (tail.size > 0 ==> Owned(blocks, tail))
  }

  ghost predicate Owned(blocks: seq<Region>, r: Region) { exists k :: 0 <= k < |blocks| && Inside(r, blocks[k]) }

  /** A block that the system may return: apart from all the arena owns. */
  predicate Unused(blocks: seq<Region>, b: Region) {
    b.at > 0 && b.at % MAX_ALIGN == 0 && forall k :: 0 <= k < |blocks| ==> Apart(blocks[k], b)
  }

  lemma OwnedByMore(blocks: seq<Region>, b: Region, r: Region)
    requires Owned(blocks, r)
    ensures Owned([b] + blocks, r)
  {
    var k :| 0 <= k < |blocks| && Inside(r, blocks[k]);
    assert ([b] + blocks)[k + 1] == blocks[k];
  }

  lemma OwnedApart(blocks: seq<Region>, b: Region, r: Region)
    requires Unused(blocks, b) && Owned(blocks, r)
    ensures Apart(r, b)
  {
    var k :| 0 <= k < |blocks| && Inside(r, blocks[k]);
    assert Apart(blocks[k], b);
  }

  /** A request larger than a block gets a block of its own; the tail stays. */
  lemma OversizeSound(blocks: seq<Region>, tail: Region, given: seq<Region>, b: Region)
    requires Sound(blocks, tail, given) && Unused(blocks, b) && b.size > 0
    ensures Sound([b] + blocks, tail, given + [b])
  {
    var (blocks', given') := ([b] + blocks, given + [b]);
    assert Inside(b, blocks'[0]);
    forall i | 0 <= i < |given| ensures Apart(given[i], b) && Owned(blocks', given[i]) {
      OwnedApart(blocks, b, given[i]);
      OwnedByMore(blocks, b, given[i]);
    }
    if tail.size > 0 {
      OwnedApart(blocks, b, tail);
      OwnedByMore(blocks, b, tail);
    }
  }

  /** A new block: its whole length is the tail, and the old tail is given up. */
  lemma NewBlockSound(blocks: seq<Region>, tail: Region, given: seq<Region>, b: Region)
    requires Sound(blocks, tail, given) && Unused(blocks, b)
    ensures Sound([b] + blocks, b, given)
  {
    assert Inside(b, ([b] + blocks)[0]);
    forall i | 0 <= i < |given| ensures Apart(given[i], b) && Owned([b] + blocks, given[i]) {
      OwnedApart(blocks, b, given[i]);
      OwnedByMore(blocks, b, given[i]);
    }
  }

  /** Cutting a region off the tail, after some padding. */
  lemma CarveSound(blocks: seq<Region>, tail: Region, given: seq<Region>, pad: nat, bytes: nat)
    requires Sound(blocks, tail, given) && bytes > 0 && pad + bytes <= tail.size
    ensures var r := Region(tail.at + pad, bytes);
            Sound(blocks, Region(r.at + bytes, tail.size - pad - bytes), given + [r]) && Owned(blocks, r)
  {
    var r := Region(tail.at + pad, bytes);
    var tail' := Region(r.at + bytes, tail.size - pad - bytes);
    var k :| 0 <= k < |blocks| && Inside(tail, blocks[k]);
    assert Inside(r, blocks[k]) && Inside(tail', blocks[k]);
    var given' := given + [r];
    forall i, j | 0 <= i < j < |given'| ensures Apart(given'[i], given'[j]) {
      if j == |given| { assert ClearOf(given[i], tail); }
    }
    forall i | 0 <= i < |given'| ensures ClearOf(given'[i], tail') && Owned(blocks, given'[i]) {
      if i < |given| { assert ClearOf(given[i], tail); }
    }
  }

  /** at % align, for the alignments there are. */
  function Off(at: nat, align: nat): (m: nat)
    requires Alignment(align)
    ensures m < align
  {
    if align == 1 then 0 else if align == 2 then at % 2 else if align == 4 then at % 4 else if align == 8 then at % 8 else at % 16
  }

  predicate Aligned(at: nat, align: nat)
    requires Alignment(align)
  {
    Off(at, align) == 0
  }

  function PadTo2(at: nat): (pad: nat)
    ensures pad < 2 && (at + pad) % 2 == 0
  {
    (2 - at % 2) % 2
  }

  function PadTo4(at: nat): (pad: nat)
    ensures pad < 4 && (at + pad) % 4 == 0
  {
    (4 - at % 4) % 4
  }

  function PadTo8(at: nat): (pad: nat)
    ensures pad < 8 && (at + pad) % 8 == 0
  {
    (8 - at % 8) % 8
  }

  function PadTo16(at: nat): (pad: nat)
    ensures pad < 16 && (at + pad) % 16 == 0
  {
    (16 - at % 16) % 16
  }

  /** The bytes that std::align skips. */
  function Padding(at: nat, align: nat): (pad: nat)
    requires Alignment(align)
    ensures pad < align && Aligned(at + pad, align)
  {
    if align == 1 then 0
    else if align == 2 then PadTo2(at)
    else if align == 4 then PadTo4(at)
    else if align == 8 then PadTo8(at)
    else PadTo16(at)
  }

  lemma AlignedToLess(at: nat, align: nat)
    requires at % MAX_ALIGN == 0 && Alignment(align)
    ensures Aligned(at, align)
  {}

  class Allocator {
    var buffptr: nat                 // 0 is null
    var space: nat
    var blockSize: nat
    var allocs: seq<Region>          // what operator new returned, newest first
    ghost var stack: Option<Region>  // the buffer a DefaultArena carries itself
    ghost var given: seq<Region>     // handed out since the last clear

    ghost function Blocks(): seq<Region>
      reads this
    {
      allocs + if stack.Some? then [stack.value] else []
    }

    ghost function Tail(): Region
      reads this
    {
      Region(buffptr, space)
    }

    ghost predicate Valid()
      reads this
    {
      Sound(Blocks(), Tail(), given) && (buffptr == 0 ==> space == 0)
    }

    /** DefaultArena starts in its own buffer; without one there is no space yet. */
    constructor (blockSize: nat, buffer: Option<Region>)
      requires buffer.Some? ==> buffer.value.at > 0 && buffer.value.size > 0
      ensures Valid() && given == [] && this.blockSize == blockSize && stack == buffer
    {
      this.blockSize, allocs, stack, given := blockSize, [], buffer, [];
      buffptr := if buffer.Some? then buffer.value.at else 0;
      space := if buffer.Some? then buffer.value.size else 0;
      new;
      if buffer.Some? { assert Inside(Tail(), Blocks()[0]); }
    }

    /** newBlock, with the address that operator new returns. */
    method NewBlock(found: nat)
      requires Valid() && Unused(Blocks(), Region(found, blockSize))
      modifies this`buffptr, this`space, this`allocs
      ensures Valid() && Tail() == Region(found, blockSize) && found % MAX_ALIGN == 0
      ensures allocs == [Region(found, blockSize)] + old(allocs)
    {
      NewBlockSound(Blocks(), Tail(), given, Region(found, blockSize));
      ghost var was := Blocks();
      allocs := [Region(found, blockSize)] + allocs;
      buffptr, space := found, blockSize;
      assert Blocks() == [Region(found, blockSize)] + was;
    }

    /** doAlloc.  The region is aligned, owned, and apart from every other since the last clear and from
        the free tail. */
    method DoAlloc(bytes: nat, align: nat, found: nat) returns (r: nat)
      requires Valid() && bytes > 0 && Alignment(align)
      requires Unused(Blocks(), Region(found, if bytes > blockSize then bytes else blockSize))
      modifies this`buffptr, this`space, this`allocs, this`given
      ensures Valid() && r > 0 && Aligned(r, align)
      ensures given == old(given) + [Region(r, bytes)] && Owned(Blocks(), Region(r, bytes))
      ensures forall i :: 0 <= i < |old(given)| ==> Apart(old(given)[i], Region(r, bytes))
      ensures ClearOf(Region(r, bytes), Tail())
      ensures bytes > blockSize ==>
                r == found && allocs == [Region(found, bytes)] + old(allocs) && Tail() == old(Tail())
      ensures bytes <= blockSize && Padding(old(buffptr), align) + bytes <= old(space) ==>
                r == old(buffptr) + Padding(old(buffptr), align) && allocs == old(allocs)
                && Tail() == Region(r + bytes, old(space) - Padding(old(buffptr), align) - bytes)
      ensures bytes <= blockSize && Padding(old(buffptr), align) + bytes > old(space) ==>
                r == found && allocs == [Region(found, blockSize)] + old(allocs)
                && Tail() == Region(r + bytes, blockSize - bytes)
    {
      hide Sound, Unused;
      if bytes > blockSize {
        r := Oversize(bytes, found);
        AlignedToLess(r, align);
      } else {
        var pad := Padding(buffptr, align);
        if pad + bytes <= space {
          r := Carve(pad, bytes);
        } else {
          NewBlock(found);
          AlignedToLess(found, align);
          r := Carve(0, bytes);
        }
      }
      LastApart(Blocks(), Tail(), old(given), Region(r, bytes));
    }

    method Oversize(bytes: nat, found: nat) returns (r: nat)
      requires Valid() && bytes > 0 && Unused(Blocks(), Region(found, bytes))
      modifies this`allocs, this`given
      ensures Valid() && r == found > 0 && r % MAX_ALIGN == 0
      ensures given == old(given) + [Region(r, bytes)] && allocs == [Region(r, bytes)] + old(allocs)
    {
      var b := Region(found, bytes);
      OversizeSound(Blocks(), Tail(), given, b);
      ghost var was := Blocks();
      allocs := [b] + allocs;
      given := given + [b];
      assert Blocks() == [b] + was;
      r := found;
    }

    /** What is left of doAlloc once the tail is known to have room behind the padding. */
    method Carve(pad: nat, bytes: nat) returns (r: nat)
      requires Valid() && bytes > 0 && pad + bytes <= space
      modifies this`buffptr, this`space, this`given
      ensures Valid() && r == old(buffptr) + pad && r > 0
      ensures Tail() == Region(r + bytes, old(space) - pad - bytes)
      ensures given == old(given) + [Region(r, bytes)]
    {
      CarveSound(Blocks(), Tail(), given, pad, bytes);
      r := buffptr + pad;
      space := space - pad - bytes;
      buffptr := r + bytes;
      given := given + [Region(r, bytes)];
    }

    /** arena::clear frees every block. */
    method FreeAll()
      requires Valid()
      modifies this`buffptr, this`space, this`allocs, this`given
      ensures Valid() && given == [] && allocs == [] && Tail() == Region(0, 0)
    {
      allocs, given := [], [];
      buffptr, space := 0, 0;
    }

    /** DefaultArena::Clear starts again in the buffer that the arena carries. */
    method Clear(buffer: Option<Region>)
      requires Valid() && buffer == stack && (buffer.Some? ==> buffer.value.at > 0 && buffer.value.size > 0)
      modifies this`buffptr, this`space, this`allocs, this`given
      ensures Valid() && given == [] && allocs == [] && (buffer.Some? ==> Tail() == buffer.value)
    {
      FreeAll();
      if buffer.Some? {
        buffptr, space := buffer.value.at, buffer.value.size;
        assert Inside(Tail(), Blocks()[0]);
      }
    }

    /** moveIn: blocks, tail and everything handed out change hands; the other arena is left empty. */
    method MoveIn(o: Allocator)
      requires Valid() && o.Valid() && o != this && stack.None? && o.stack.None?
      modifies this, o
      ensures Valid() && o.Valid()
      ensures given == old(o.given) && allocs == old(o.allocs) && Tail() == old(o.Tail()) && blockSize == old(o.blockSize)
      ensures o.given == [] && o.allocs == [] && o.Tail() == Region(0, 0)
    {
      hide Sound;
      FreeAll();
      NothingOwned();
      buffptr, space, blockSize, allocs, given := o.buffptr, o.space, o.blockSize, o.allocs, o.given;
      o.buffptr, o.space, o.allocs, o.given := 0, 0, [], [];
      assert Blocks() == old(o.Blocks()) && o.Blocks() == [];
    }
  }

  lemma NothingOwned()
    ensures Sound([], Region(0, 0), [])
  {}

  lemma LastApart(blocks: seq<Region>, tail: Region, given: seq<Region>, r: Region)
    requires Sound(blocks, tail, given + [r])
    ensures Owned(blocks, r) && ClearOf(r, tail)
    ensures forall i :: 0 <= i < |given| ==> Apart(given[i], r)
  {
    var all := given + [r];
    assert all[|given|] == r;
    forall i | 0 <= i < |given| ensures Apart(given[i], r) { assert all[i] == given[i]; }
  }
}
