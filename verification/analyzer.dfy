/**
  The high-level analyzer `Hla`: it listens to the field events that the CAN
  bus decoder delivers one at a time, keeps one frame accumulator
  (`can_id`, `can_len`, `can_data`, `can_crc`) and, on each acknowledgement
  field, packs the accumulated identifier and data with `build_can_frame` and
  sends the record to a SocketCAN socket.

  The socket is an input: whether one is bound, and whether its `send`
  succeeds, are given with each event.
*/
module Analyzer {
  import opened Wrappers
  import opened SocketCan

  /** Which branch of `decode` a frame type selects. */
  datatype Kind = IdentifierKind | ControlKind | DataKind | CrcKind | AckKind | OtherKind

  /** `p` occurs in `s` starting at index `i`. */
  ghost predicate OccursAt(p: string, s: string, i: int)
  {
    0 <= i && i + |p| <= |s| && s[i..i + |p|] == p
  }

  /** Python's `p in s` for strings: `p` is a substring of `s`. */
  ghost predicate Occurs(p: string, s: string)
  {
    exists i :: OccursAt(p, s, i)
  }

  /** Substring search, tried at every start position from the left. */
  function Contains(s: string, p: string): bool
    decreases |s|
  {
    if |s| < |p| then false else s[..|p|] == p || Contains(s[1..], p)
  }

  lemma SliceOfTail(s: string, i: int, j: int)
    requires 1 <= |s| && 0 <= i <= j <= |s| - 1
    ensures s[1..][i..j] == s[i + 1..j + 1]
  {
  }

  /** `Contains` decides exactly the substring relation. */
  lemma {:induction false} ContainsIsOccurs(s: string, p: string)
    ensures Contains(s, p) <==> Occurs(p, s)
    decreases |s|
  {
    if |s| < |p| {
    } else if s[..|p|] == p {
      assert OccursAt(p, s, 0);
    } else {
      ContainsIsOccurs(s[1..], p);
      if Contains(s[1..], p) {
        var i :| OccursAt(p, s[1..], i);
        SliceOfTail(s, i, i + |p|);
        assert OccursAt(p, s, i + 1);
      }
      if Occurs(p, s) {
        var i :| OccursAt(p, s, i);
        assert i != 0;
        SliceOfTail(s, i - 1, i - 1 + |p|);
        assert OccursAt(p, s[1..], i - 1);
      }
    }
  }

  /**
    The `elif` chain of `decode`: the first of the five field names that
    occurs in the frame type wins; any other type is ignored.
  */
  function Classify(frameType: string): (k: Kind)
    ensures k == IdentifierKind <==> Occurs("identifier_field", frameType)
    ensures k == ControlKind <==>
              !Occurs("identifier_field", frameType) && Occurs("control_field", frameType)
    ensures k == DataKind <==>
              !Occurs("identifier_field", frameType) && !Occurs("control_field", frameType)
              && Occurs("data_field", frameType)
    ensures k == CrcKind <==>
              !Occurs("identifier_field", frameType) && !Occurs("control_field", frameType)
              && !Occurs("data_field", frameType) && Occurs("crc_field", frameType)
    ensures k == AckKind <==>
              !Occurs("identifier_field", frameType) && !Occurs("control_field", frameType)
              && !Occurs("data_field", frameType) && !Occurs("crc_field", frameType)
              && Occurs("ack_field", frameType)
  {
    ContainsIsOccurs(frameType, "identifier_field");
    ContainsIsOccurs(frameType, "control_field");
    ContainsIsOccurs(frameType, "data_field");
    ContainsIsOccurs(frameType, "crc_field");
    ContainsIsOccurs(frameType, "ack_field");
    if Contains(frameType, "identifier_field") then IdentifierKind
    else if Contains(frameType, "control_field") then ControlKind
    else if Contains(frameType, "data_field") then DataKind
    else if Contains(frameType, "crc_field") then CrcKind
    else if Contains(frameType, "ack_field") then AckKind
    else OtherKind
  }

  /**
    One field event of the CAN decoder. `extended` and `remoteFrame` stand for
    the presence of the keys 'extended' and 'remote_frame' in the frame's data.
  */
  datatype FieldEvent =
    | IdentifierField(identifier: bv32, extended: bool, remoteFrame: bool)
    | ControlField(numDataBytes: nat)
    | DataField(data: seq<bv8>)
    | CrcField(crc: nat)
    | AckField
    | OtherField(frameType: string)

  function KindOf(e: FieldEvent): Kind
  {
    match e
    case IdentifierField(_, _, _) => IdentifierKind
    case ControlField(_) => ControlKind
    case DataField(_) => DataKind
    case CrcField(_) => CrcKind
    case AckField => AckKind
    case OtherField(_) => OtherKind
  }

  /** The socket the records go to: none, or one whose next `send` succeeds or raises. */
  datatype Socket = NoSocket | Bound(sendSucceeds: bool)

  /** The frame being assembled: `can_id` with its flag bits, `can_len`, `can_data`, `can_crc`. */
  datatype Accumulator = Accumulator(canId: bv32, canLen: nat, canData: seq<bv8>, canCrc: nat)

  /** The analyzer's state: the accumulator and the count of records sent. */
  datatype Hla = Hla(acc: Accumulator, packetNumber: nat)

  /** The class-level defaults every analyzer starts from. */
  const Initial: Hla := Hla(Accumulator(0, 0, [], 0), 0)

  /** What one call of `decode` does towards the socket. */
  datatype Emission =
    | Silent                        // nothing was packed or sent
    | Sent(record: seq<bv8>)        // `send` took the record
    | SendFailed(record: seq<bv8>)  // `send` raised OSError, which `decode` caught
    | PackRaised                    // `build_can_frame` raised struct.error, which escapes `decode`
    | KeyRaised                     // the frame's data lacks a key the branch reads: KeyError escapes `decode`

  datatype Decoded = Decoded(state: Hla, emission: Emission)

  /** The bits of a `can_id` below the two flag bits. */
  const IdBits: bv32 := 0x3FFF_FFFF

  // One fact per lemma about OR-ing the flag masks into an identifier:
  // the solver settles each alone quickly, but not all of them at once.

  lemma OrKeepsIdBits(x: bv32, eff: bv32, rtr: bv32)
    requires eff == 0 || eff == CanEffFlag
    requires rtr == 0 || rtr == CanRtrFlag
    ensures (x | eff | rtr) & IdBits == x & IdBits
  {
  }

  lemma OrEffBit(x: bv32, eff: bv32, rtr: bv32)
    requires eff == 0 || eff == CanEffFlag
    requires rtr == 0 || rtr == CanRtrFlag
    ensures (x | eff | rtr) & CanEffFlag != 0 <==> eff != 0 || x & CanEffFlag != 0
  {
  }

  lemma OrRtrBit(x: bv32, eff: bv32, rtr: bv32)
    requires eff == 0 || eff == CanEffFlag
    requires rtr == 0 || rtr == CanRtrFlag
    ensures (x | eff | rtr) & CanRtrFlag != 0 <==> rtr != 0 || x & CanRtrFlag != 0
  {
  }

  /** The identifier with CAN_EFF_FLAG OR-ed in if extended and CAN_RTR_FLAG if remote. */
  function FlaggedId(identifier: bv32, extended: bool, remoteFrame: bool): (id: bv32)
    ensures id & IdBits == identifier & IdBits
    ensures id & CanEffFlag != 0 <==> extended || identifier & CanEffFlag != 0
    ensures id & CanRtrFlag != 0 <==> remoteFrame || identifier & CanRtrFlag != 0
  {
    var eff: bv32 := if extended then CanEffFlag else 0;
    var rtr: bv32 := if remoteFrame then CanRtrFlag else 0;
    OrKeepsIdBits(identifier, eff, rtr);
    OrEffBit(identifier, eff, rtr);
    OrRtrBit(identifier, eff, rtr);
    identifier | eff | rtr
  }

  /** With neither flag the identifier is stored as it is. */
  lemma UnflaggedIdentifierKept(identifier: bv32)
    ensures FlaggedId(identifier, false, false) == identifier
  {
  }

  lemma FlagFreeIdentifier(x: bv32)
    requires x & (CanEffFlag | CanRtrFlag) == 0
    ensures x & IdBits == x
  {
  }

  lemma FlagFreeBits(x: bv32)
    requires x & (CanEffFlag | CanRtrFlag) == 0
    ensures x & CanEffFlag == 0 && x & CanRtrFlag == 0
  {
  }

  /**
    For an identifier that leaves the two flag bits clear (every 11- or 29-bit
    CAN identifier does), bit 31 is set exactly when extended, bit 30 exactly
    when remote, and the other bits are the identifier's.
  */
  lemma FlagBitsOfCanIdentifier(identifier: bv32, extended: bool, remoteFrame: bool)
    requires identifier & (CanEffFlag | CanRtrFlag) == 0
    ensures var id := FlaggedId(identifier, extended, remoteFrame);
            && (id & CanEffFlag != 0 <==> extended)
            && (id & CanRtrFlag != 0 <==> remoteFrame)
            && id & IdBits == identifier
  {
    FlagFreeIdentifier(identifier);
    FlagFreeBits(identifier);
  }

  /**
    The acknowledgement branch: with a socket, pack the identifier and data
    and send them; only a send that returns counts a packet. The accumulator
    is never touched.
  */
  function OnAck(s: Hla, socket: Socket): (r: Decoded)
    ensures r.state.acc == s.acc
    ensures r.emission.Sent? <==> socket == Bound(true) && |s.acc.canData| < 256
    ensures r.state.packetNumber == s.packetNumber + (if r.emission.Sent? then 1 else 0)
    ensures socket.NoSocket? ==> r.emission == Silent
    ensures r.emission.PackRaised? <==> socket.Bound? && |s.acc.canData| >= 256
    ensures r.emission.SendFailed? <==> socket == Bound(false) && |s.acc.canData| < 256
    ensures r.emission.Sent? || r.emission.SendFailed? ==>
              r.emission.record == BuildCanFrame(s.acc.canId, s.acc.canData).value
  {
    match socket
    case NoSocket => Decoded(s, Silent)
    case Bound(ok) =>
      match BuildCanFrame(s.acc.canId, s.acc.canData)
      case Err(_) => Decoded(s, PackRaised)
      case Ok(rec) =>
        if ok then Decoded(s.(packetNumber := s.packetNumber + 1), Sent(rec))
        else Decoded(s, SendFailed(rec))
  }

  /** `Hla.decode` for one field event. */
  function Step(s: Hla, e: FieldEvent, socket: Socket): (r: Decoded)
    ensures !e.AckField? ==> r.emission == Silent && r.state.packetNumber == s.packetNumber
    ensures e.IdentifierField? ==>
              r.state.acc == s.acc.(canId := FlaggedId(e.identifier, e.extended, e.remoteFrame), canData := [])
    ensures e.ControlField? ==> r.state == s.(acc := s.acc.(canLen := e.numDataBytes))
    ensures e.DataField? ==> r.state == s.(acc := s.acc.(canData := s.acc.canData + e.data))
    ensures e.CrcField? ==> r.state == s.(acc := s.acc.(canCrc := e.crc))
    ensures e.AckField? ==> r == OnAck(s, socket)
    ensures e.OtherField? ==> r.state == s
  {
    match e
    case IdentifierField(identifier, extended, remoteFrame) =>
      var acc := s.acc.(canData := [], canId := FlaggedId(identifier, extended, remoteFrame));
      Decoded(s.(acc := acc), Silent)
    case ControlField(n) => Decoded(s.(acc := s.acc.(canLen := n)), Silent)
    case DataField(d) => Decoded(s.(acc := s.acc.(canData := s.acc.canData + d)), Silent)
    case CrcField(c) => Decoded(s.(acc := s.acc.(canCrc := c)), Silent)
    case AckField => OnAck(s, socket)
    case OtherField(_) => Decoded(s, Silent)
  }

  /**
    The record an acknowledgement sends depends only on the identifier and
    the data: the stored length and CRC never reach the socket, and the
    length byte is the number of data bytes accumulated.
  */
  lemma AckIgnoresLengthAndCrc(s: Hla, t: Hla, socket: Socket)
    requires s.acc.canId == t.acc.canId && s.acc.canData == t.acc.canData
    ensures Step(s, AckField, socket).emission == Step(t, AckField, socket).emission
    ensures Step(s, AckField, socket).emission.Sent? ==>
              Step(s, AckField, socket).emission.record[4] == |s.acc.canData| as bv8
  {
    assert Step(s, AckField, socket) == OnAck(s, socket);
    assert Step(t, AckField, socket) == OnAck(t, socket);
  }

  /**
    The accumulator is not reset by an acknowledgement: a second
    acknowledgement with a working socket sends the same record again.
  */
  lemma RepeatedAckResends(s: Hla)
    requires |s.acc.canData| < 256
    ensures var d1 := Step(s, AckField, Bound(true));
            var d2 := Step(d1.state, AckField, Bound(true));
            && d1.emission.Sent?
            && d2.emission == d1.emission
            && d2.state.packetNumber == s.packetNumber + 2
  {
  }

  /**
    The entries of an analyzer frame's data dictionary that `decode` reads:
    None where the key is absent; `extended` and `remoteFrame` are whether
    the keys 'extended' and 'remote_frame' are present at all.
  */
  datatype FrameData = FrameData(
    identifier: Option<bv32>, extended: bool, remoteFrame: bool,
    numDataBytes: Option<nat>, data: Option<seq<bv8>>, crc: Option<nat>)

  /** An analyzer frame as `decode` receives it: its type string and its data. */
  datatype Frame = Frame(frameType: string, data: FrameData)

  /**
    The field event a frame stands for, chosen by the `elif` chain on its
    type; None when the chosen branch reads a key the frame's data lacks.
  */
  function EventOf(f: Frame): (r: Option<FieldEvent>)
    ensures r.Some? ==> KindOf(r.value) == Classify(f.frameType)
    ensures r.None? <==>
              || (Classify(f.frameType) == IdentifierKind && f.data.identifier.None?)
              || (Classify(f.frameType) == ControlKind && f.data.numDataBytes.None?)
              || (Classify(f.frameType) == DataKind && f.data.data.None?)
              || (Classify(f.frameType) == CrcKind && f.data.crc.None?)
    ensures r.Some? && r.value.IdentifierField? ==>
              r.value == IdentifierField(f.data.identifier.value, f.data.extended, f.data.remoteFrame)
    ensures r.Some? && r.value.ControlField? ==> r.value.numDataBytes == f.data.numDataBytes.value
    ensures r.Some? && r.value.DataField? ==> r.value.data == f.data.data.value
    ensures r.Some? && r.value.CrcField? ==> r.value.crc == f.data.crc.value
  {
    match Classify(f.frameType)
    case IdentifierKind =>
      if f.data.identifier.None? then None
      else Some(IdentifierField(f.data.identifier.value, f.data.extended, f.data.remoteFrame))
    case ControlKind => if f.data.numDataBytes.None? then None else Some(ControlField(f.data.numDataBytes.value))
    case DataKind => if f.data.data.None? then None else Some(DataField(f.data.data.value))
    case CrcKind => if f.data.crc.None? then None else Some(CrcField(f.data.crc.value))
    case AckKind => Some(AckField)
    case OtherKind => Some(OtherField(f.frameType))
  }

  /**
    `Hla.decode(frame)`. A frame whose branch finds its key is the field event
    it stands for; one that does not raises KeyError, and an identifier frame
    has already emptied the data by then.
  */
  function Decode(s: Hla, f: Frame, socket: Socket): (r: Decoded)
    ensures EventOf(f).Some? ==> r == Step(s, EventOf(f).value, socket)
    ensures r.emission == KeyRaised <==> EventOf(f).None?
    ensures EventOf(f).None? && Classify(f.frameType) == IdentifierKind ==>
              r.state == s.(acc := s.acc.(canData := []))
    ensures EventOf(f).None? && Classify(f.frameType) != IdentifierKind ==> r.state == s
  {
    match EventOf(f)
    case Some(e) => Step(s, e, socket)
    case None =>
      if Classify(f.frameType) == IdentifierKind then Decoded(s.(acc := s.acc.(canData := [])), KeyRaised)
      else Decoded(s, KeyRaised)
  }

  /** A frame whose type names none of the five fields changes nothing and sends nothing. */
  lemma OtherTypeIgnored(s: Hla, f: Frame, socket: Socket)
    requires !Occurs("identifier_field", f.frameType) && !Occurs("control_field", f.frameType)
    requires !Occurs("data_field", f.frameType) && !Occurs("crc_field", f.frameType)
    requires !Occurs("ack_field", f.frameType)
    ensures Decode(s, f, socket) == Decoded(s, Silent)
  {
    assert Classify(f.frameType) == OtherKind;
  }

  /**
    A frame whose type names the identifier field is an identifier event,
    whatever other field names its type also contains: with its identifier
    present it empties the data and stores the flagged identifier.
  */
  lemma IdentifierTypeWins(s: Hla, f: Frame, socket: Socket)
    requires Occurs("identifier_field", f.frameType) && f.data.identifier.Some?
    ensures Decode(s, f, socket)
            == Decoded(s.(acc := s.acc.(canId := FlaggedId(f.data.identifier.value, f.data.extended,
                                                           f.data.remoteFrame),
                                        canData := [])),
                       Silent)
  {
  }
}
