/** The dumper and the parser as they run: one appends to a sink, the other moves a pointer. */
module MsgPackCode {
  import opened JsonTree
  import opened MsgPackFormat
  import opened Membuff

  // ---------------------------------------------------------------------------------------------
  // Dumping
  // ---------------------------------------------------------------------------------------------

  lemma Headed(t: seq<byte>, head: seq<byte>, len: seq<byte>, s: seq<byte>)
    ensures t + (head + s) == t + head + s
    ensures t + (head + (len + s)) == t + head + len + s
  {
    assert t + (head + (len + s)) == (t + head) + (len + s) == t + head + len + s;
  }

  lemma StringBytes(t: seq<byte>, s: seq<byte>)
    ensures |s| <= 31 ==> t + EncString(s) == t + [StrHead(|s|)] + s
    ensures |s| > 31 ==> t + EncString(s) == t + [StrHead(|s|)] + BigEndian(|s|, SizeWidth(|s|)) + s
  {
    hide BigEndian, EncString;
    StringForm(s);
    Headed(t, [StrHead(|s|)], BigEndian(|s|, SizeWidth(|s|)), s);
  }

  lemma BinaryBytes(t: seq<byte>, s: seq<byte>)
    ensures t + EncBinary(s) == t + [BinHead(|s|)] + BigEndian(|s|, SizeWidth(|s|)) + s
  {
    hide BigEndian, EncBinary;
    BinaryForm(s);
    Headed(t, [BinHead(|s|)], BigEndian(|s|, SizeWidth(|s|)), s);
  }

  method WriteString(out: Out, s: seq<byte>)
    requires out.Valid() && |s| < MAX_LENGTH
    modifies out, out.buffer
    ensures out.Valid() && (out.buffer == old(out.buffer) || fresh(out.buffer))
    ensures out.Total() == old(out.Total()) + EncString(s)
  {
    hide EncString, BigEndian, Out.Total, Out.Valid;
    StringBytes(out.Total(), s);
    if |s| <= 31 {
      out.WriteByte(0xa0 + |s|, 0);
    } else if |s| <= 0xff {
      out.WriteByte(0xd9, 0);
      out.Write(BigEndian(|s|, 1), 0);
    } else if |s| <= 0xffff {
      out.WriteByte(0xda, 0);
      out.Write(BigEndian(|s|, 2), 0);
    } else {
      out.WriteByte(0xdb, 0);
      out.Write(BigEndian(|s|, 4), 0);
    }
    out.Write(s, 0);
  }

  method WriteBinary(out: Out, s: seq<byte>)
    requires out.Valid() && |s| < MAX_LENGTH
    modifies out, out.buffer
    ensures out.Valid() && (out.buffer == old(out.buffer) || fresh(out.buffer))
    ensures out.Total() == old(out.Total()) + EncBinary(s)
  {
    hide EncBinary, BigEndian, Out.Total, Out.Valid;
    BinaryBytes(out.Total(), s);
    if |s| <= 0xff {
      out.WriteByte(0xc4, 0);
      out.Write(BigEndian(|s|, 1), 0);
    } else if |s| <= 0xffff {
      out.WriteByte(0xc5, 0);
      out.Write(BigEndian(|s|, 2), 0);
    } else {
      out.WriteByte(0xc6, 0);
      out.Write(BigEndian(|s|, 4), 0);
    }
    out.Write(s, 0);
  }

  method WriteNegInt(out: Out, i: int)
    requires out.Valid() && INT64_MIN <= i < 0
    modifies out, out.buffer
    ensures out.Valid() && (out.buffer == old(out.buffer) || fresh(out.buffer))
    ensures out.Total() == old(out.Total()) + EncNegInt(i)
  {
    hide BigEndian, Out.Total, Out.Valid;
    if i >= -32 {
      out.WriteByte(256 + i, 0);
    } else if i >= -0x80 {
      out.WriteByte(0xd0, 0);
      out.Write(BigEndian(ToUnsigned(i, 1), 1), 0);
    } else if i >= -0x8000 {
      out.WriteByte(0xd1, 0);
      out.Write(BigEndian(ToUnsigned(i, 2), 2), 0);
    } else if i >= -0x8000_0000 {
      out.WriteByte(0xd2, 0);
      out.Write(BigEndian(ToUnsigned(i, 4), 4), 0);
    } else {
      out.WriteByte(0xd3, 0);
      out.Write(BigEndian(ToUnsigned(i, 8), 8), 0);
    }
  }

  method WritePosInt(out: Out, u: nat)
    requires out.Valid() && u < UINT64_END
    modifies out, out.buffer
    ensures out.Valid() && (out.buffer == old(out.buffer) || fresh(out.buffer))
    ensures out.Total() == old(out.Total()) + EncPosInt(u)
  {
    hide BigEndian, Out.Total, Out.Valid;
    if u < 128 {
      out.WriteByte(u, 0);
    } else if u <= 0xff {
      out.WriteByte(0xcc, 0);
      out.Write(BigEndian(u, 1), 0);
    } else if u <= 0xffff {
      out.WriteByte(0xcd, 0);
      out.Write(BigEndian(u, 2), 0);
    } else if u <= 0xffff_ffff {
      out.WriteByte(0xce, 0);
      out.Write(BigEndian(u, 4), 0);
    } else {
      out.WriteByte(0xcf, 0);
      out.Write(BigEndian(u, 8), 0);
    }
  }

  method WriteArrHeader(out: Out, n: nat)
    requires out.Valid() && n < MAX_LENGTH
    modifies out, out.buffer
    ensures out.Valid() && (out.buffer == old(out.buffer) || fresh(out.buffer))
    ensures out.Total() == old(out.Total()) + ArrHeader(n)
  {
    hide BigEndian, Out.Total, Out.Valid;
    if n <= 15 {
      out.WriteByte(0x90 + n, 0);
    } else if n <= 0xffff {
      out.WriteByte(0xdc, 0);
      out.Write(BigEndian(n, 2), 0);
    } else {
      out.WriteByte(0xdd, 0);
      out.Write(BigEndian(n, 4), 0);
    }
  }

  method WriteObjHeader(out: Out, n: nat)
    requires out.Valid() && n < MAX_LENGTH
    modifies out, out.buffer
    ensures out.Valid() && (out.buffer == old(out.buffer) || fresh(out.buffer))
    ensures out.Total() == old(out.Total()) + ObjHeader(n)
  {
    hide BigEndian, Out.Total, Out.Valid;
    if n <= 15 {
      out.WriteByte(0x80 + n, 0);
    } else if n <= 0xffff {
      out.WriteByte(0xde, 0);
      out.Write(BigEndian(n, 2), 0);
    } else {
      out.WriteByte(0xdf, 0);
      out.Write(BigEndian(n, 4), 0);
    }
  }

  method DumpScalar(out: Out, v: Json)
    requires out.Valid() && WellFormed(v) && !v.Arr? && !v.Obj?
    modifies out, out.buffer
    ensures out.Valid() && (out.buffer == old(out.buffer) || fresh(out.buffer))
    ensures out.Total() == old(out.Total()) + Enc(v)
  {
    hide Out.Total, Out.Valid, EncString, EncBinary, EncNegInt, EncPosInt;
    match v {
      case Null => out.WriteByte(0xc0, 0);
      case Bool(b) => out.WriteByte(if b then 0xc3 else 0xc2, 0);
      case Num(bits) =>
        out.WriteByte(0xcb, 0);
        out.Write(bits, 0);
      case Int(i) =>
        if i < 0 { WriteNegInt(out, i); } else { WritePosInt(out, i); }
      case UInt(u) => WritePosInt(out, u);
      case Bin(data) => WriteBinary(out, data);
      case Str(s) => WriteString(out, s);
    }
  }

  /** DumpMsgPackInto; `false` stands for DepthError.  Whatever sink, buffer size and flushing: the
      bytes are the encoding, or a prefix of it when the document is too deep. */
  method DumpInto(out: Out, v: Json, maxDepth: nat) returns (ok: bool)
    requires out.Valid() && WellFormed(v)
    modifies out, out.buffer
    ensures out.Valid() && (out.buffer == old(out.buffer) || fresh(out.buffer))
    ensures ok <==> Height(v) <= maxDepth
    ensures ok ==> out.Total() == old(out.Total()) + Enc(v)
    ensures old(out.Total()) <= out.Total() <= old(out.Total()) + Enc(v)
    decreases v, 0
  {
    hide Out.Total, Out.Valid, ArrHeader, ObjHeader, EncItems, EncFields, Enc, WellFormed;
    if v.Arr? || v.Obj? { EncContainer(v); }
    if maxDepth == 0 { return false; }
    match v {
      case Arr(items) =>
        Onwards(out.Total(), ArrHeader(|items|), EncItems(items));
        WriteArrHeader(out, |items|);
        ok := DumpItems(out, items, maxDepth - 1);
      case Obj(fs) =>
        Onwards(out.Total(), ObjHeader(|fs|), EncFields(fs));
        WriteObjHeader(out, |fs|);
        ok := DumpFields(out, fs, maxDepth - 1);
      case _ =>
        DumpScalar(out, v);
        ok := true;
    }
  }

  lemma EncItemsFrom(items: seq<Json>, i: nat)
    requires WellFormedItems(items) && i < |items|
    ensures WellFormedItems(items[i..]) && WellFormed(items[i])
    ensures EncItems(items[i..]) == Enc(items[i]) + EncItems(items[i + 1..])
  {
    hide WellFormed, Enc;
    assert items[i..][1..] == items[i + 1..];
  }

  lemma EncFieldsFrom(fs: seq<Field>, i: nat)
    requires WellFormedFields(fs) && i < |fs|
    ensures WellFormedFields(fs[i..]) && |fs[i].key| < MAX_LENGTH && WellFormed(fs[i].value)
    ensures EncFields(fs[i..]) == EncString(fs[i].key) + (Enc(fs[i].value) + EncFields(fs[i + 1..]))
  {
    hide WellFormed, Enc, EncString;
    assert fs[i..][1..] == fs[i + 1..];
  }

  lemma Onwards(t: seq<byte>, a: seq<byte>, rest: seq<byte>)
    ensures t + (a + rest) == t + a + rest && t <= t + a <= t + a + rest
  {}

  lemma PrefixTrans(a: seq<byte>, b: seq<byte>, c: seq<byte>)
    requires a <= b <= c
    ensures a <= c
  {}

  /** The loop over the elements of an array. */
  method DumpItems(out: Out, items: seq<Json>, maxDepth: nat) returns (ok: bool)
    requires out.Valid() && WellFormedItems(items)
    modifies out, out.buffer
    ensures out.Valid() && (out.buffer == old(out.buffer) || fresh(out.buffer))
    ensures ok <==> ItemsHeight(items) <= maxDepth
    ensures ok ==> out.Total() == old(out.Total()) + EncItems(items)
    ensures old(out.Total()) <= out.Total() <= old(out.Total()) + EncItems(items)
    decreases items, 1
  {
    hide Out.Total, Out.Valid, Enc, EncItems, WellFormed, Height, ItemsHeight;
    ItemsHeightBound(items, maxDepth);
    ghost var start, goal := out.Total(), out.Total() + EncItems(items);
    assert items[0..] == items;
    var i := 0;
    while i < |items|
      invariant i <= |items| && out.Valid() && (out.buffer == old(out.buffer) || fresh(out.buffer))
      invariant WellFormedItems(items[i..])
      invariant start <= out.Total() && out.Total() + EncItems(items[i..]) == goal
      invariant forall j :: 0 <= j < i ==> Height(items[j]) <= maxDepth
    {
      EncItemsFrom(items, i);
      ghost var t := out.Total();
      Onwards(t, Enc(items[i]), EncItems(items[i + 1..]));
      ok := DumpInto(out, items[i], maxDepth);
      if !ok {
        PrefixTrans(out.Total(), t + Enc(items[i]), goal);
        return;
      }
      i := i + 1;
    }
    assert items[i..] == [] && EncItems([]) == [] by { NothingToDump(); }
    ok := true;
  }

  lemma NothingToDump()
    ensures EncItems([]) == [] && EncFields([]) == []
  {}

  method DumpFields(out: Out, fs: seq<Field>, maxDepth: nat) returns (ok: bool)
    requires out.Valid() && WellFormedFields(fs)
    modifies out, out.buffer
    ensures out.Valid() && (out.buffer == old(out.buffer) || fresh(out.buffer))
    ensures ok <==> FieldsHeight(fs) <= maxDepth
    ensures ok ==> out.Total() == old(out.Total()) + EncFields(fs)
    ensures old(out.Total()) <= out.Total() <= old(out.Total()) + EncFields(fs)
    decreases fs, 1
  {
    hide Out.Total, Out.Valid, Enc, EncFields, EncString, WellFormed, Height, FieldsHeight;
    FieldsHeightBound(fs, maxDepth);
    ghost var start, goal := out.Total(), out.Total() + EncFields(fs);
    assert fs[0..] == fs;
    var i := 0;
    while i < |fs|
      invariant i <= |fs| && out.Valid() && (out.buffer == old(out.buffer) || fresh(out.buffer))
      invariant WellFormedFields(fs[i..])
      invariant start <= out.Total() && out.Total() + EncFields(fs[i..]) == goal
      invariant forall j :: 0 <= j < i ==> Height(fs[j].value) <= maxDepth
    {
      EncFieldsFrom(fs, i);
      ghost var t := out.Total();
      Onwards(t, EncString(fs[i].key), Enc(fs[i].value) + EncFields(fs[i + 1..]));
      WriteString(out, fs[i].key);
      Onwards(out.Total(), Enc(fs[i].value), EncFields(fs[i + 1..]));
      ghost var t' := out.Total();
      ok := DumpInto(out, fs[i].value, maxDepth);
      if !ok {
        PrefixTrans(out.Total(), t' + Enc(fs[i].value), goal);
        return;
      }
      i := i + 1;
    }
    assert fs[i..] == [] && EncFields([]) == [] by { NothingToDump(); }
    ok := true;
  }
}
