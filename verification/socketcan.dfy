/**
  The 16-byte record of Linux SocketCAN's `struct can_frame` (from <linux/can.h>)
  and the encoder `build_can_frame` that packs a CAN identifier and a payload
  into it with the `struct` format "=IB3x8s":

    bytes 0..3   can_id, 32 bits, little-endian (the "=" native order, fixed
                 here to little-endian)
    byte  4      can_dlc, the payload length
    bytes 5..7   padding, zero
    bytes 8..15  data, the payload padded with zeros or cut to 8 bytes

  A reference parser reads such a record back the way the kernel lays it out;
  the round-trip lemmas connect the two.
*/
module SocketCan {
  import opened Wrappers

  /** Extended frame format flag of <linux/can.h> (CAN_EFF_FLAG). */
  const CanEffFlag: bv32 := 0x8000_0000
  /** Remote transmission request flag of <linux/can.h> (CAN_RTR_FLAG). */
  const CanRtrFlag: bv32 := 0x4000_0000
  /** Capacity of the data field of a classic CAN frame (CAN_MAX_DLEN). */
  const CanMaxDlen: nat := 8
  /** Size of `struct can_frame` in bytes. */
  const FrameSize: nat := 16

  /** Zero bytes, as inserted by `ljust` with b'\x00' and by the `x` and `s` formats. */
  function Zeros(n: nat): (r: seq<bv8>)
    ensures |r| == n
    ensures forall j :: 0 <= j < n ==> r[j] == 0
  {
    seq(n, _ => 0)
  }

  /** The 32-bit integer read back from four little-endian bytes. */
  function ReadLe32(b: seq<bv8>): bv32
    requires |b| == 4
  {
    (b[0] as bv32) | ((b[1] as bv32) << 8) | ((b[2] as bv32) << 16) | ((b[3] as bv32) << 24)
  }

  /** The `I` field of a "=" (here little-endian) struct format. */
  function Le32(x: bv32): (r: seq<bv8>)
    ensures |r| == 4
    ensures ReadLe32(r) == x
  {
    [(x & 0xFF) as bv8, ((x >> 8) & 0xFF) as bv8, ((x >> 16) & 0xFF) as bv8, ((x >> 24) & 0xFF) as bv8]
  }

  /** Every four bytes are the encoding of the integer they are read as. */
  lemma Le32OfReadLe32(b: seq<bv8>)
    requires |b| == 4
    ensures Le32(ReadLe32(b)) == b
  {
    var r := Le32(ReadLe32(b));
    assert r[0] == b[0] && r[1] == b[1] && r[2] == b[2] && r[3] == b[3];
  }

  /** Python's `bytes.ljust(width, fill)`: pads on the right up to `width`, never shortens. */
  function Ljust(data: seq<bv8>, width: nat, fill: bv8): (r: seq<bv8>)
    ensures |r| == if |data| < width then width else |data|
    ensures r[..|data|] == data
    ensures forall j :: |data| <= j < |r| ==> r[j] == fill
  {
    if |data| < width then data + seq(width - |data|, _ => fill) else data
  }

  /** The `Ns` field of a struct format: exactly `n` bytes, cut or padded with zeros. */
  function PackFixed(data: seq<bv8>, n: nat): (r: seq<bv8>)
    ensures |r| == n
    ensures |data| >= n ==> r == data[..n]
    ensures |data| < n ==> r[..|data|] == data && forall j :: |data| <= j < n ==> r[j] == 0
  {
    if |data| >= n then data[..n] else data + Zeros(n - |data|)
  }

  /** Why `struct.pack` refuses the arguments: the `B` field takes only 0..255. */
  datatype PackError = DlcOutOfRange

  /** The first 8 bytes of the record: the "=I" identifier, the "B" length and the "3x" padding. */
  function Header(canId: bv32, canDlc: bv8): (h: seq<bv8>)
    ensures |h| == 8
    ensures h[..4] == Le32(canId)
    ensures h[4] == canDlc
    ensures h[5] == 0 && h[6] == 0 && h[7] == 0
  {
    Le32(canId) + [canDlc] + Zeros(3)
  }

  /**
    The last 8 bytes of the record: `data.ljust(8, b'\x00')` packed with "8s".
    A short payload is followed by zeros; a long one keeps its first 8 bytes.
  */
  function DataBytes(data: seq<bv8>): (p: seq<bv8>)
    ensures |p| == CanMaxDlen
    ensures |data| <= CanMaxDlen ==> p[..|data|] == data
    ensures forall j :: |data| <= j < CanMaxDlen ==> p[j] == 0
    ensures |data| > CanMaxDlen ==> p == data[..CanMaxDlen]
  {
    var padded := Ljust(data, CanMaxDlen, 0);
    assert |data| <= CanMaxDlen ==> |padded| == CanMaxDlen && padded[..CanMaxDlen] == padded;
    PackFixed(padded, CanMaxDlen)
  }

  /**
    `build_can_frame(can_id, data)`. The length byte is `len(data)`, not
    clamped to 8; a payload of 256 bytes or more makes the `B` field raise.
  */
  function BuildCanFrame(canId: bv32, data: seq<bv8>): (r: Result<seq<bv8>, PackError>)
    ensures r.Ok? <==> |data| < 256
    ensures r.Ok? ==> |r.value| == FrameSize
    ensures r.Ok? ==> r.value[..4] == Le32(canId)
    ensures r.Ok? ==> r.value[4] == |data| as bv8
    ensures r.Ok? ==> r.value[5] == 0 && r.value[6] == 0 && r.value[7] == 0
    ensures r.Ok? && |data| <= CanMaxDlen ==> r.value[8..8 + |data|] == data
    ensures r.Ok? ==> forall j :: 8 + |data| <= j < FrameSize ==> r.value[j] == 0
    ensures r.Ok? && |data| > CanMaxDlen ==> r.value[8..] == data[..CanMaxDlen]
  {
    if |data| >= 256 then Err(DlcOutOfRange)
    else
      var h := Header(canId, |data| as bv8);
      var p := DataBytes(data);
      var rec := h + p;
      assert rec[..4] == h[..4];
      assert rec[8..] == p;
      assert |data| <= CanMaxDlen ==> rec[8..8 + |data|] == p[..|data|];
      Ok(rec)
  }

  /** The fields of a `struct can_frame` as the receiving side reads them. */
  datatype CanFrame = CanFrame(canId: bv32, canDlc: bv8, data: seq<bv8>)

  /**
    Reference reader of a 16-byte `struct can_frame` record: None when the
    record has the wrong size or non-zero padding.
  */
  function ParseCanFrame(rec: seq<bv8>): (r: Option<CanFrame>)
    ensures r.Some? <==> |rec| == FrameSize && rec[5] == 0 && rec[6] == 0 && rec[7] == 0
    ensures r.Some? ==> |r.value.data| == CanMaxDlen
  {
    if |rec| != FrameSize || rec[5] != 0 || rec[6] != 0 || rec[7] != 0 then None
    else Some(CanFrame(ReadLe32(rec[..4]), rec[4], rec[8..]))
  }

  /** What the receiving side reads from any record `build_can_frame` produces. */
  lemma {:induction false} ParseBuild(canId: bv32, data: seq<bv8>)
    requires |data| < 256
    ensures BuildCanFrame(canId, data).Ok?
    ensures ParseCanFrame(BuildCanFrame(canId, data).value)
            == Some(CanFrame(canId, |data| as bv8, PackFixed(data, CanMaxDlen)))
  {
    var rec := BuildCanFrame(canId, data).value;
    assert rec[..4] == Le32(canId);
    var f := PackFixed(data, CanMaxDlen);
    assert rec[8..] == f by {
      forall j | 0 <= j < CanMaxDlen
        ensures rec[8..][j] == f[j]
      {
        if |data| <= CanMaxDlen && j < |data| {
          assert rec[8..8 + |data|][j] == data[j];
        }
      }
    }
  }

  /** A payload of at most 8 bytes comes back whole, with its true length. */
  lemma ShortPayloadRoundTrip(canId: bv32, data: seq<bv8>)
    requires |data| <= CanMaxDlen
    ensures BuildCanFrame(canId, data).Ok?
    ensures var p := ParseCanFrame(BuildCanFrame(canId, data).value);
            && p.Some?
            && p.value.canId == canId
            && p.value.canDlc as int == |data|
            && p.value.data[..|data|] == data
            && forall j :: |data| <= j < CanMaxDlen ==> p.value.data[j] == 0
  {
    ParseBuild(canId, data);
  }

  /**
    A payload of 9 to 255 bytes loses everything after its eighth byte, while
    the length byte still carries the full length rather than 8.
  */
  lemma LongPayloadTruncated(canId: bv32, data: seq<bv8>)
    requires CanMaxDlen < |data| < 256
    ensures BuildCanFrame(canId, data).Ok?
    ensures var p := ParseCanFrame(BuildCanFrame(canId, data).value);
            && p.Some?
            && p.value.canId == canId
            && p.value.canDlc as int == |data|
            && p.value.canDlc as int != CanMaxDlen
            && p.value.data == data[..CanMaxDlen]
  {
    ParseBuild(canId, data);
  }

  /**
    The converse round trip: a well-formed record whose length byte is at
    most 8 and whose unused data bytes are zero is exactly what
    `build_can_frame` produces for its identifier and its first `can_dlc` bytes.
  */
  lemma {:induction false} BuildParse(rec: seq<bv8>)
    requires ParseCanFrame(rec).Some?
    requires ParseCanFrame(rec).value.canDlc as int <= CanMaxDlen
    requires forall j :: ParseCanFrame(rec).value.canDlc as int <= j < CanMaxDlen ==> ParseCanFrame(rec).value.data[j] == 0
    ensures var f := ParseCanFrame(rec).value;
            BuildCanFrame(f.canId, f.data[..f.canDlc]) == Ok(rec)
  {
    var f := ParseCanFrame(rec).value;
    var data := f.data[..f.canDlc];
    var built := BuildCanFrame(f.canId, data).value;
    Le32OfReadLe32(rec[..4]);
    assert built[..4] == rec[..4];
    forall j | 0 <= j < FrameSize
      ensures built[j] == rec[j]
    {
      if j < 4 {
        assert built[..4][j] == rec[..4][j];
      } else if 8 <= j {
        assert rec[j] == f.data[j - 8];
        if j < 8 + |data| {
          assert built[8..8 + |data|][j - 8] == data[j - 8];
        }
      }
    }
    assert built == rec;
  }

  /** Records of payloads of at most 8 bytes determine their identifier and payload. */
  lemma ShortPayloadInjective(id1: bv32, d1: seq<bv8>, id2: bv32, d2: seq<bv8>)
    requires |d1| <= CanMaxDlen && |d2| <= CanMaxDlen
    requires BuildCanFrame(id1, d1) == BuildCanFrame(id2, d2)
    ensures id1 == id2 && d1 == d2
  {
    ShortPayloadRoundTrip(id1, d1);
    ShortPayloadRoundTrip(id2, d2);
  }
}
