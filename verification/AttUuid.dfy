/** UUIDs of the attribute protocol: the short form and the 128-bit number it stands for. */
module AttUuid {
  import opened Bytes
  import SdpElements
  import SdpUuid

  const BASE_UUID_LE: seq<byte> := [0xFB, 0x34, 0x9B, 0x5F, 0x80, 0x00, 0x00, 0x80,
                                    0x00, 0x10, 0x00, 0x00, 0x00, 0x00, 0x00, 0x00]

  /** `bt_uuid_to_uuid128` on the bytes of a little-endian host. */
  function Widen(uuid: seq<byte>): seq<byte> {
    if |uuid| == 2 then BASE_UUID_LE[..12] + uuid + BASE_UUID_LE[14..] else uuid
  }

  /** The number a 16-bit UUID stands for: it counts in units of 2 to the 96th above
      00000000-0000-1000-8000-00805F9B34FB. */
  function Denoted(uuid16: nat): nat {
    uuid16 * 0x1_00000000_00000000_00000000 + 0x00000000_00001000_80000080_5F9B34FB
  }

  function Backwards(s: seq<byte>): (r: seq<byte>)
    ensures |r| == |s|
  {
    seq(|s|, i requires 0 <= i < |s| => s[|s| - 1 - i])
  }

  /** The 16 bytes of the UUID an attribute has, lowest first: a short one is the number it stands for. */
  function Wide(uuid: seq<byte>): seq<byte> {
    if |uuid| == 2 then Backwards(BE(Denoted(uuid[0] as int + 256 * (uuid[1] as int)), 16)) else uuid
  }

  /** The network-order form of a widened UUID is the service discovery protocol's. */
  lemma WidenBackwards(lo: byte, hi: byte)
    ensures Backwards(SdpUuid.BASE_UUID[..2] + [hi, lo] + SdpUuid.BASE_UUID[4..]) == Widen([lo, hi])
  {
  }

  lemma ShortBytes(lo: byte, hi: byte)
    ensures BE(lo as int + 256 * (hi as int), 2) == [hi, lo]
  {
    ByteOrders(lo as int + 256 * (hi as int));
  }

  /** Widening a UUID gives the bytes of the number it stands for. */
  lemma WidenIsWide(uuid: seq<byte>)
    ensures Widen(uuid) == Wide(uuid)
  {
    hide BE, FromBE, Radix, Backwards;
    if |uuid| == 2 {
      var lo, hi := uuid[0], uuid[1];
      var n := lo as int + 256 * (hi as int);
      RadixValues();
      var wide := SdpUuid.Widen(SdpElements.Short16(n));
      SdpUuid.WidenDenotes(SdpElements.Short16(n));
      SdpUuid.BaseNumber();
      BEOfFromBE(wide);
      ShortBytes(lo, hi);
      WidenBackwards(lo, hi);
      assert uuid == [lo, hi];
    }
  }
}
