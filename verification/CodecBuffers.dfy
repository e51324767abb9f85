/** The buffer-filling loops behind the codec: fields written in place, fields read in turn. */
module CodecBuffers {
  import opened Types
  import opened Codec

  /** Most significant byte first, by shifting the value down. */
  method WriteUnsigned(out: array<Byte>, offset: nat, value: nat, width: nat)
    requires offset + width <= out.Length
    modifies out
    ensures out[..] == old(out[..offset]) + BigEndian(value, width) + old(out[offset + width..])
  {
    var i := width;
    while i > 0
      invariant 0 <= i <= width
      invariant forall k: nat | k < out.Length ::
        out[k] == if offset <= k < offset + (width - i) then BigEndian(value, width)[k - offset]
                  else old(out[k])
    {
      i := i - 1;
      BigEndianByte(value, width, width - 1 - i);
      out[offset + (width - 1 - i)] := value / Pow256(i) % 256;
    }
  }

  method ReadUnsigned(data: seq<Byte>, offset: nat, width: nat) returns (value: nat)
    requires offset + width <= |data|
    ensures value == FromBigEndian(data[offset..offset + width])
    ensures value < Pow256(width)
  {
    value := 0;
    for i := 0 to width
      invariant value == FromBigEndian(data[offset..offset + i])
    {
      var prefix := data[offset..offset + i + 1];
      assert prefix[..i] == data[offset..offset + i];
      value := value * 256 + data[offset + i];
    }
    WrittenRead(data[offset..offset + width]);
  }

  lemma WidthStep(layout: seq<nat>, k: nat)
    requires k < |layout|
    ensures Width(layout[..k + 1]) == Width(layout[..k]) + layout[k]
  {
    assert layout[..k + 1][..k] == layout[..k];
  }

  lemma {:induction false} WidthPrefix(layout: seq<nat>, k: nat)
    requires k <= |layout|
    ensures Width(layout[..k]) <= Width(layout)
    decreases |layout| - k
  {
    if k < |layout| {
      WidthStep(layout, k);
      WidthPrefix(layout, k + 1);
    } else {
      assert layout[..k] == layout;
    }
  }

  lemma EncodeStep(values: seq<nat>, layout: seq<nat>, k: nat)
    requires k < |layout| == |values|
    ensures EncodeFields(values[..k + 1], layout[..k + 1]) ==
            EncodeFields(values[..k], layout[..k]) + BigEndian(values[k], layout[k])
  {
    assert layout[..k + 1][..k] == layout[..k] && values[..k + 1][..k] == values[..k];
  }

  /** Fills the head of a buffer with the fields, one call per field. */
  method WriteFields(out: array<Byte>, values: seq<nat>, layout: seq<nat>)
    requires |values| == |layout| && Width(layout) <= out.Length
    modifies out
    ensures out[..] == EncodeFields(values, layout) + old(out[Width(layout)..])
  {
    var offset := 0;
    for k := 0 to |layout|
      invariant offset == Width(layout[..k]) <= out.Length
      invariant out[..] == EncodeFields(values[..k], layout[..k]) + old(out[offset..])
    {
      WidthStep(layout, k);
      WidthPrefix(layout, k + 1);
      EncodeStep(values, layout, k);
      ghost var tail := old(out[offset..]);
      WriteUnsigned(out, offset, values[k], layout[k]);
      offset := offset + layout[k];
      assert tail[layout[k]..] == old(out[offset..]);
    }
    assert layout[..|layout|] == layout && values[..|layout|] == values;
  }

  lemma DecodeStep(data: seq<Byte>, layout: seq<nat>, k: nat)
    requires k < |layout| && Width(layout[..k + 1]) <= |data|
    ensures Width(layout[..k]) + layout[k] == Width(layout[..k + 1])
    ensures var lo := Width(layout[..k]);
      DecodeFields(data[..lo + layout[k]], layout[..k + 1]) ==
      DecodeFields(data[..lo], layout[..k]) + [FromBigEndian(data[lo..lo + layout[k]])]
  {
    WidthStep(layout, k);
    var lo := Width(layout[..k]);
    assert layout[..k + 1][..k] == layout[..k];
    assert data[..lo + layout[k]][..lo] == data[..lo];
    assert data[..lo + layout[k]][lo..] == data[lo..lo + layout[k]];
  }

  method ReadFields(data: seq<Byte>, layout: seq<nat>) returns (values: seq<nat>)
    requires Width(layout) <= |data|
    ensures values == DecodeFields(data[..Width(layout)], layout)
  {
    values := [];
    var offset := 0;
    for k := 0 to |layout|
      invariant offset == Width(layout[..k]) <= |data|
      invariant values == DecodeFields(data[..offset], layout[..k])
    {
      WidthPrefix(layout, k + 1);
      DecodeStep(data, layout, k);
      var v := ReadUnsigned(data, offset, layout[k]);
      values := values + [v];
      offset := offset + layout[k];
    }
    assert layout[..|layout|] == layout;
  }

  /** The whole datagram, or nothing where the program throws. */
  method SerializePacket(h: Header, payload: seq<Byte>) returns (d: Option<Datagram>)
    ensures d == EncodePacket(h, payload)
  {
    if |payload| > 0xFFFF {
      return None;
    }
    HeaderWidth();
    var out := new Byte[HEADER_SIZE + |payload|](_ => 0);
    for i := 0 to |payload|
      invariant forall k: nat | k < i :: out[HEADER_SIZE + k] == payload[k]
    {
      out[HEADER_SIZE + i] := payload[i];
    }
    assert out[HEADER_SIZE..] == payload;
    WriteFields(out, HeaderValues(h, |payload|), HeaderLayout());
    d := Some(out[..]);
  }

  method DeserializePacket(d: Datagram) returns (r: Decoded)
    ensures r == DecodePacket(d)
  {
    if |d| < HEADER_SIZE {
      return Rejected(TooShort);
    }
    HeaderWidth();
    PowValues();
    var v := ReadFields(d, HeaderLayout());
    var kind := TypeOf(v[2]);
    if kind.None? {
      return Rejected(UnknownType);
    }
    if v[0] != MAGIC {
      return Rejected(BadMagic);
    }
    if v[1] != VERSION {
      return Rejected(BadVersion);
    }
    if v[7] != HEADER_SIZE {
      return Rejected(BadHeaderLength);
    }
    if |d| != v[7] + v[6] {
      return Rejected(LengthMismatch);
    }
    if HasCrcFlag(v[3]) {
      return Rejected(CrcUnsupported);
    }
    r := Accepted(Packet(
      Header(v[0], v[1], kind.value, v[3], v[4], v[5], v[6], v[7], v[8]), d[HEADER_SIZE..]));
  }
}
