/**
 The packed form of a guid in packets: a mask byte that says which of the eight bytes are not
 zero, then those bytes from the lowest on.
 */
module PackedGuids {
  import opened Options
  import opened Integers
  import opened ObjectGuids

  /** One bit of the mask. */
  function Bit(i: nat): (b: bv8)
    requires i < 8
  {
    match i
    case 0 => 0x01 case 1 => 0x02 case 2 => 0x04 case 3 => 0x08
    case 4 => 0x10 case 5 => 0x20 case 6 => 0x40 case 7 => 0x80
  }

  predicate Has(mask: bv8, i: nat)
    requires i < 8
  {
    mask & Bit(i) != 0
  }

  function With(mask: bv8, i: nat): (m: bv8)
    requires i < 8
  {
    mask | Bit(i)
  }

  /** `rest` has at most the bytes from `i` to 7. */
  predicate Short(rest: nat, i: nat) {
    i <= 8 && rest < Pow2(8 * (8 - i))
  }

  lemma ShortStep(rest: nat, i: nat)
    requires Short(rest, i) && rest != 0
    ensures i < 8 && Short(rest / 0x100, i + 1)
  {
    assert Pow2(0) == 1;
    if i < 8 {
      ByteStep(7 - i);
    }
  }

  lemma ByteStep(i: nat)
    ensures Pow2(8 * (i + 1)) == 0x100 * Pow2(8 * i)
  {
    Pow2Sum(8, 8 * i);
    assert Pow2(8) == 0x100;
  }

  /** The mask after the bytes of `rest`, which start at byte `i`. */
  function Mask(rest: nat, i: nat, mask: bv8): (m: bv8)
    requires Short(rest, i)
    decreases 8 - i
  {
    if rest == 0 then mask
    else
      ShortStep(rest, i);
      Mask(rest / 0x100, i + 1, if rest % 0x100 != 0 then With(mask, i) else mask)
  }

  /** The bytes of a number that are not zero, from the lowest on. */
  function Bytes(rest: nat): (s: seq<uint8>)
  {
    if rest == 0 then []
    else (if rest % 0x100 != 0 then [rest % 0x100] else []) + Bytes(rest / 0x100)
  }

  lemma MaskStep(rest: nat, i: nat, mask: bv8)
    requires Short(rest, i) && rest != 0
    ensures i < 8 && Short(rest / 0x100, i + 1)
    ensures Mask(rest, i, mask) == Mask(rest / 0x100, i + 1, if rest % 0x100 != 0 then With(mask, i) else mask)
  {
    hide With, Short;
    ShortStep(rest, i);
  }

  lemma BytesStep(rest: nat)
    ensures Bytes(rest) == (if rest % 0x100 != 0 then [rest % 0x100] else []) + Bytes(rest / 0x100)
  {
  }

  lemma NothingPacked(i: nat, mask: bv8)
    requires Short(0, i)
    ensures Mask(0, i, mask) == mask && Bytes(0) == []
  {
  }

  datatype Packet = Packet(mask: bv8, bytes: seq<uint8>)

  function Packed(guid: nat): (p: Packet)
    requires Short(guid, 0)
  {
    Packet(Mask(guid, 0, 0), Bytes(guid))
  }

  method AppendPackGUID(guid: nat) returns (p: Packet)
    requires Short(guid, 0)
    ensures p == Packed(guid)
  {
    hide Has, With, Short, Mask, Bytes;
    var rest, i := guid, 0;
    var mask: bv8 := 0;
    var bytes: seq<uint8> := [];
    while rest != 0
      invariant Short(rest, i)
      invariant Mask(rest, i, mask) == Mask(guid, 0, 0) && bytes + Bytes(rest) == Bytes(guid)
      decreases rest
    {
      ShortStep(rest, i);
      MaskStep(rest, i, mask);
      BytesStep(rest);
      if rest % 0x100 != 0 {
        mask := With(mask, i);
        bytes := bytes + [rest % 0x100];
      }
      rest := rest / 0x100;
      i := i + 1;
    }
    NothingPacked(i, mask);
    p := Packet(mask, bytes);
  }

  /** The guid that the bytes add to `guid`, from mask bit `i` on, and how many bytes that took. */
  function Unpacked(mask: bv8, i: nat, bytes: seq<uint8>, pos: nat, guid: nat): (r: Option<(nat, nat)>)
    requires i <= 8
    decreases 8 - i
  {
    if i == 8 then Some((guid, pos))
    else if !Has(mask, i) then Unpacked(mask, i + 1, bytes, pos, guid)
    else if pos >= |bytes| then None
    else Unpacked(mask, i + 1, bytes, pos + 1, Or(guid, bytes[pos] * Pow2(8 * i)))
  }

  /** None if the packet ends too early. */
  method ReadPackGUID(mask: bv8, bytes: seq<uint8>) returns (r: Option<(nat, nat)>)
    ensures r == Unpacked(mask, 0, bytes, 0, 0)
  {
    hide Has, With, Or, Pow2;
    var guid, pos := 0, 0;
    for i := 0 to 8
      invariant Unpacked(mask, i, bytes, pos, guid) == Unpacked(mask, 0, bytes, 0, 0)
    {
      if Has(mask, i) {
        if pos >= |bytes| {
          return None;
        }
        guid := Or(guid, bytes[pos] * Pow2(8 * i));
        pos := pos + 1;
      }
    }
    return Some((guid, pos));
  }

  /** A player guid from a packet is cut to its counter. */
  function Clamped(guid: nat): (r: nat)
  {
    if GetHigh(guid) == HIGHGUID_PLAYER then GetCounter(guid) else guid
  }

  // ---------------------------------------------------------------------------
  // Laws
  // ---------------------------------------------------------------------------

  lemma BitsApart(m: bv8, i: nat, j: nat)
    requires i < 8 && j < 8
    ensures Has(With(m, i), j) <==> i == j || Has(m, j)
    ensures !Has(0, i)
  {
  }

  /** Later bytes leave earlier mask bits alone. */
  lemma {:induction false} EarlierBits(rest: nat, i: nat, mask: bv8, j: nat)
    requires Short(rest, i) && j < i && j < 8
    ensures Has(Mask(rest, i, mask), j) <==> Has(mask, j)
    decreases 8 - i
  {
    hide Has, With, Short;
    if rest != 0 {
      ShortStep(rest, i);
      BitsApart(mask, i, j);
      EarlierBits(rest / 0x100, i + 1, if rest % 0x100 != 0 then With(mask, i) else mask, j);
    }
  }

  /** The mask has no bit from `i` on. */
  predicate Clear(mask: bv8, i: nat) {
    forall j :: i <= j < 8 ==> !Has(mask, j)
  }

  /** The mask bits say which bytes are not zero. */
  predicate Describes(mask: bv8, rest: nat, i: nat)
    decreases 8 - i
  {
    if i >= 8 then rest == 0
    else (Has(mask, i) <==> rest % 0x100 != 0) && Describes(mask, rest / 0x100, i + 1)
  }

  lemma {:induction false} ClearDescribesZero(mask: bv8, i: nat)
    requires i <= 8 && Clear(mask, i)
    ensures Describes(mask, 0, i)
    decreases 8 - i
  {
    hide Has, With;
    if i < 8 {
      ClearDescribesZero(mask, i + 1);
    }
  }

  lemma {:induction false} MaskDescribes(rest: nat, i: nat, mask: bv8)
    requires Short(rest, i) && Clear(mask, i)
    ensures Describes(Mask(rest, i, mask), rest, i)
    decreases 8 - i
  {
    hide Has, With, Short;
    if rest == 0 {
      ShortBound(rest, i);
      ClearDescribesZero(mask, i);
    } else {
      ShortStep(rest, i);
      forall j | i <= j < 8
        ensures Has(With(mask, i), j) <==> j == i || Has(mask, j)
      {
        BitsApart(mask, i, j);
      }
      BitsApart(mask, i, i);
      var next := if rest % 0x100 != 0 then With(mask, i) else mask;
      EarlierBits(rest / 0x100, i + 1, next, i);
      MaskDescribes(rest / 0x100, i + 1, next);
    }
  }

  lemma ShortBound(rest: nat, i: nat)
    requires Short(rest, i)
    ensures i <= 8
  {
  }

  /** The unread bytes start with the bytes of `rest`. */
  predicate Ahead(bytes: seq<uint8>, pos: nat, rest: nat) {
    pos + |Bytes(rest)| <= |bytes| && bytes[pos..pos + |Bytes(rest)|] == Bytes(rest)
  }

  lemma AheadStep(bytes: seq<uint8>, pos: nat, rest: nat)
    requires Ahead(bytes, pos, rest)
    ensures var b, r := rest % 0x100, rest / 0x100;
            if b == 0 then Ahead(bytes, pos, r) && |Bytes(rest)| == |Bytes(r)|
            else pos < |bytes| && bytes[pos] == b && Ahead(bytes, pos + 1, r) && |Bytes(rest)| == 1 + |Bytes(r)|
  {
    BytesStep(rest);
    hide Bytes;
    var r := rest / 0x100;
    if rest % 0x100 != 0 {
      assert bytes[pos] == bytes[pos..pos + |Bytes(rest)|][0];
      assert bytes[pos + 1..pos + 1 + |Bytes(r)|] == bytes[pos..pos + |Bytes(rest)|][1..];
    }
  }

  /** Reading one byte. */
  lemma UnpackStep(mask: bv8, i: nat, bytes: seq<uint8>, pos: nat, guid: nat)
    requires i < 8 && (Has(mask, i) ==> pos < |bytes|)
    ensures Unpacked(mask, i, bytes, pos, guid) ==
            if Has(mask, i) then Unpacked(mask, i + 1, bytes, pos + 1, Or(guid, bytes[pos] * Pow2(8 * i)))
            else Unpacked(mask, i + 1, bytes, pos, guid)
  {
    hide Has, Or, Pow2;
  }

  lemma DescribesStep(mask: bv8, rest: nat, i: nat)
    requires Describes(mask, rest, i) && i <= 8
    ensures if i == 8 then rest == 0 && Bytes(rest) == []
            else (Has(mask, i) <==> rest % 0x100 != 0) && Describes(mask, rest / 0x100, i + 1)
  {
    hide Has;
  }

  lemma UnpackEnd(mask: bv8, bytes: seq<uint8>, pos: nat, guid: nat)
    ensures Unpacked(mask, 8, bytes, pos, guid) == Some((guid, pos))
  {
  }

  /** Reading the bytes that the mask describes adds up the number. */
  lemma {:induction false} ReadsBack(mask: bv8, rest: nat, i: nat, bytes: seq<uint8>, pos: nat, guid: nat)
    requires i <= 8 && Describes(mask, rest, i) && guid < Pow2(8 * i) && Ahead(bytes, pos, rest)
    ensures Unpacked(mask, i, bytes, pos, guid) == Some((guid + rest * Pow2(8 * i), pos + |Bytes(rest)|))
    decreases 8 - i
  {
    hide *;
    DescribesStep(mask, rest, i);
    if i == 8 {
      UnpackEnd(mask, bytes, pos, guid);
    } else {
      var b, r, p := rest % 0x100, rest / 0x100, Pow2(8 * i);
      AheadStep(bytes, pos, rest);
      UnpackStep(mask, i, bytes, pos, guid);
      ByteStep(i);
      Digits(guid, b, r, p);
      if b == 0 {
        ReadsBack(mask, r, i + 1, bytes, pos, guid);
      } else {
        OrDisjoint(guid, b, 8 * i);
        ReadsBack(mask, r, i + 1, bytes, pos + 1, guid + b * p);
      }
    }
  }

  lemma Digits(guid: nat, b: nat, r: nat, p: nat)
    requires guid < p && b < 0x100
    ensures guid + b * p < 0x100 * p
    ensures guid + (b + 0x100 * r) * p == (guid + b * p) + r * (0x100 * p)
  {
    assert (0xFF - b) * p >= 0;
  }

  /** Every guid reads back from its packed form, whatever follows it in the packet. */
  lemma PackedReadsBack(guid: nat, more: seq<uint8>)
    requires Short(guid, 0)
    ensures var p := Packed(guid); Unpacked(p.mask, 0, p.bytes + more, 0, 0) == Some((guid, |p.bytes|))
  {
    hide Mask, Has, With, Bytes, Unpacked, Short;
    var p := Packed(guid);
    NoBits();
    MaskDescribes(guid, 0, 0);
    assert (p.bytes + more)[0..0 + |p.bytes|] == p.bytes;
    assert Ahead(p.bytes + more, 0, guid);
    assert Pow2(8 * 0) == 1;
    ReadsBack(p.mask, guid, 0, p.bytes + more, 0, 0);
  }

  lemma NoBits()
    ensures Clear(0, 0)
  {
    forall j | 0 <= j < 8
      ensures !Has(0, j)
    {
      BitsApart(0, j, j);
    }
  }

  /** The clamp leaves a guid alone exactly when it is no player guid with bits above its counter. */
  lemma ClampKeepsIff(guid: nat)
    ensures Clamped(guid) == guid <==> GetHigh(guid) != HIGHGUID_PLAYER || guid < U32_RANGE
  {
  }

  lemma MadeGuidsAreShort(m: Made)
    requires Fits(m)
    ensures Short(Raw(m), 0)
    ensures GetHigh(Raw(m)) == HIGHGUID_PLAYER ==> Raw(m) < U32_RANGE
  {
    MadeGuidDecodes(m);
    Pow2Values();
    Pow2Sum(48, 16);
    assert Pow2(16) == 0x1_0000;
    hide Or, Pow2;
    if HasEntry(m.high) {
      EntryGuidIsSum(m.high, m.entry, m.counter);
    } else {
      PlainGuidIsSum(m.high, m.counter);
    }
  }

  /** Guids made from counters pass through a packet, and its clamp, unchanged. */
  lemma MadeGuidsSurvivePackets(m: Made, more: seq<uint8>)
    requires Fits(m)
    ensures Short(Raw(m), 0)
    ensures var p := Packed(Raw(m));
            var r := Unpacked(p.mask, 0, p.bytes + more, 0, 0);
            r.Some? && Decoded(Clamped(r.value.0)) == m
  {
    hide *;
    MadeGuidsAreShort(m);
    PackedReadsBack(Raw(m), more);
    MadeGuidDecodes(m);
    ClampKeepsIff(Raw(m));
  }
}
