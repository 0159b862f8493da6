/**
  Sequences of field events fed to `decode` one after another, and a
  declarative description of the accumulator after any such sequence: the
  identifier, length and CRC of the last event of each kind, and the data
  accumulated since the last identifier. The lemmas here connect the fold of
  `Step` to that description and derive the per-frame guarantees from it.
*/
module Trace {
  import opened Wrappers
  import opened SocketCan
  import opened Analyzer

  /** One call of `decode`: the field event and the state of the socket at that moment. */
  datatype Input = Input(event: FieldEvent, socket: Socket)

  /** The state after a run of calls and what each call did towards the socket. */
  datatype Outcome = Outcome(state: Hla, emissions: seq<Emission>)

  /** The number of records the socket took. */
  function CountSent(es: seq<Emission>): (n: nat)
    ensures n <= |es|
  {
    if es == [] then 0 else (if es[0].Sent? then 1 else 0) + CountSent(es[1..])
  }

  /** `decode` called on each input in turn; there is one emission per input. */
  function Run(s: Hla, ins: seq<Input>): (r: Outcome)
    ensures |r.emissions| == |ins|
    decreases |ins|
  {
    if ins == [] then Outcome(s, [])
    else
      var d := Step(s, ins[0].event, ins[0].socket);
      var rest := Run(d.state, ins[1..]);
      Outcome(rest.state, [d.emission] + rest.emissions)
  }

  /** `packet_number` grows by exactly the number of records the socket took. */
  lemma {:induction false} PacketNumberCountsSent(s: Hla, ins: seq<Input>)
    ensures Run(s, ins).state.packetNumber == s.packetNumber + CountSent(Run(s, ins).emissions)
    decreases |ins|
  {
    if ins != [] {
      var d := Step(s, ins[0].event, ins[0].socket);
      var rest := Run(d.state, ins[1..]);
      PacketNumberCountsSent(d.state, ins[1..]);
      assert d.state.packetNumber == s.packetNumber + (if d.emission.Sent? then 1 else 0);
      assert ([d.emission] + rest.emissions)[1..] == rest.emissions;
    }
  }

  /** Running two stretches of inputs is running the second from where the first ended. */
  lemma {:induction false} RunAppend(s: Hla, a: seq<Input>, b: seq<Input>)
    ensures var first := Run(s, a);
            var second := Run(first.state, b);
            Run(s, a + b) == Outcome(second.state, first.emissions + second.emissions)
    decreases |a|
  {
    if a == [] {
      assert a + b == b;
    } else {
      var d := Step(s, a[0].event, a[0].socket);
      var rest := Run(d.state, a[1..]);
      var second := Run(rest.state, b);
      assert Run(s, a) == Outcome(rest.state, [d.emission] + rest.emissions);
      assert (a + b)[0] == a[0];
      assert (a + b)[1..] == a[1..] + b;
      RunAppend(d.state, a[1..], b);
      var whole := Run(d.state, a[1..] + b);
      assert whole == Outcome(second.state, rest.emissions + second.emissions);
      assert Run(s, a + b) == Outcome(whole.state, [d.emission] + whole.emissions);
      assert [d.emission] + (rest.emissions + second.emissions)
          == ([d.emission] + rest.emissions) + second.emissions;
    }
  }

  /** The emission of the call at position `n` is that of `Step` from the state the earlier calls left. */
  lemma EmissionAt(s: Hla, ins: seq<Input>, n: nat)
    requires n < |ins|
    ensures Run(s, ins).emissions[n] == Step(Run(s, ins[..n]).state, ins[n].event, ins[n].socket).emission
  {
    assert ins == ins[..n] + ins[n..];
    RunAppend(s, ins[..n], ins[n..]);
  }

  /** The index of the last of the first `n` inputs whose event has kind `k`, or -1 when there is none. */
  function LastOf(ins: seq<Input>, k: Kind, n: nat): (i: int)
    requires n <= |ins|
    ensures -1 <= i < n
    ensures 0 <= i ==> KindOf(ins[i].event) == k
    decreases n
  {
    if n == 0 then -1
    else if KindOf(ins[n - 1].event) == k then n - 1
    else LastOf(ins, k, n - 1)
  }

  /** No input between the one `LastOf` finds and position `n` has kind `k`. */
  lemma {:induction false} LastOfIsLast(ins: seq<Input>, k: Kind, n: nat, j: int)
    requires n <= |ins| && LastOf(ins, k, n) < j < n
    ensures KindOf(ins[j].event) != k
    decreases n
  {
    if KindOf(ins[n - 1].event) != k && j < n - 1 {
      LastOfIsLast(ins, k, n - 1, j);
    }
  }

  /** The bytes an event adds to the frame data. */
  function Payload(e: FieldEvent): seq<bv8>
  {
    if e.DataField? then e.data else []
  }

  /** The payloads of the data events at positions `lo` up to `hi`, concatenated in arrival order. */
  function PayloadsIn(ins: seq<Input>, lo: nat, hi: nat): seq<bv8>
    requires lo <= hi <= |ins|
    decreases hi
  {
    if lo == hi then [] else PayloadsIn(ins, lo, hi - 1) + Payload(ins[hi - 1].event)
  }

  /** The payloads of all data events of `ins`. */
  function Payloads(ins: seq<Input>): seq<bv8>
  {
    PayloadsIn(ins, 0, |ins|)
  }

  /** A stretch of inputs contributes its two halves' data one after the other. */
  lemma {:induction false} PayloadsSplit(ins: seq<Input>, lo: nat, mid: nat, hi: nat)
    requires lo <= mid <= hi <= |ins|
    ensures PayloadsIn(ins, lo, hi) == PayloadsIn(ins, lo, mid) + PayloadsIn(ins, mid, hi)
    decreases hi
  {
    if mid == hi {
      assert PayloadsIn(ins, lo, mid) + [] == PayloadsIn(ins, lo, mid);
    } else {
      PayloadsSplit(ins, lo, mid, hi - 1);
      var last := Payload(ins[hi - 1].event);
      assert PayloadsIn(ins, lo, mid) + PayloadsIn(ins, mid, hi - 1) + last
          == PayloadsIn(ins, lo, mid) + (PayloadsIn(ins, mid, hi - 1) + last);
    }
  }

  /** The flagged identifier an identifier event stores. */
  function IdOf(e: FieldEvent): bv32
    requires e.IdentifierField?
  {
    FlaggedId(e.identifier, e.extended, e.remoteFrame)
  }

  /** The identifier of the last identifier event among the first `n` inputs, or `id0` when there is none. */
  function LastId(id0: bv32, ins: seq<Input>, n: nat): bv32
    requires n <= |ins|
  {
    var i := LastOf(ins, IdentifierKind, n);
    if i < 0 then id0 else IdOf(ins[i].event)
  }

  /** The length of the last control event among the first `n` inputs, or `len0` when there is none. */
  function LastLen(len0: nat, ins: seq<Input>, n: nat): nat
    requires n <= |ins|
  {
    var c := LastOf(ins, ControlKind, n);
    if c < 0 then len0 else ins[c].event.numDataBytes
  }

  /** The CRC of the last CRC event among the first `n` inputs, or `crc0` when there is none. */
  function LastCrc(crc0: nat, ins: seq<Input>, n: nat): nat
    requires n <= |ins|
  {
    var k := LastOf(ins, CrcKind, n);
    if k < 0 then crc0 else ins[k].event.crc
  }

  /**
    The data of every data event after the last identifier event among the
    first `n` inputs, or, when there is no identifier event, all of it
    appended to `data0`.
  */
  function DataSince(data0: seq<bv8>, ins: seq<Input>, n: nat): seq<bv8>
    requires n <= |ins|
  {
    var i := LastOf(ins, IdentifierKind, n);
    if i < 0 then data0 + PayloadsIn(ins, 0, n) else PayloadsIn(ins, i + 1, n)
  }

  /** The accumulator after the first `n` inputs, described without replaying them. */
  function Expected(acc: Accumulator, ins: seq<Input>, n: nat): Accumulator
    requires n <= |ins|
  {
    Accumulator(LastId(acc.canId, ins, n), LastLen(acc.canLen, ins, n), DataSince(acc.canData, ins, n),
                LastCrc(acc.canCrc, ins, n))
  }

  /** How the described data changes when one more input is taken. */
  lemma DataSinceNext(data0: seq<bv8>, ins: seq<Input>, n: nat)
    requires n < |ins|
    ensures DataSince(data0, ins, n + 1)
            == if ins[n].event.IdentifierField? then [] else DataSince(data0, ins, n) + Payload(ins[n].event)
  {
    if !ins[n].event.IdentifierField? && LastOf(ins, IdentifierKind, n) < 0 {
      assert data0 + PayloadsIn(ins, 0, n) + Payload(ins[n].event)
          == data0 + (PayloadsIn(ins, 0, n) + Payload(ins[n].event));
    }
  }

  /** How the described identifier, length and CRC change when one more input is taken. */
  lemma LastNext(acc: Accumulator, ins: seq<Input>, n: nat)
    requires n < |ins|
    ensures LastId(acc.canId, ins, n + 1)
            == if ins[n].event.IdentifierField? then IdOf(ins[n].event) else LastId(acc.canId, ins, n)
    ensures LastLen(acc.canLen, ins, n + 1)
            == if ins[n].event.ControlField? then ins[n].event.numDataBytes else LastLen(acc.canLen, ins, n)
    ensures LastCrc(acc.canCrc, ins, n + 1)
            == if ins[n].event.CrcField? then ins[n].event.crc else LastCrc(acc.canCrc, ins, n)
  {
  }

  /** Taking one more input changes the described accumulator the way one `Step` does. */
  lemma ExpectedNext(acc: Accumulator, ins: seq<Input>, n: nat, s: Hla)
    requires n < |ins| && s.acc == Expected(acc, ins, n)
    ensures Step(s, ins[n].event, ins[n].socket).state.acc == Expected(acc, ins, n + 1)
  {
    DataSinceNext(acc.canData, ins, n);
    LastNext(acc, ins, n);
    if !ins[n].event.DataField? {
      assert s.acc.canData + Payload(ins[n].event) == s.acc.canData;
    }
  }

  /**
    Replaying the first `n` events with `decode` yields exactly the
    described accumulator, whatever the socket did in between.
  */
  lemma {:induction false} RunMatchesExpected(s: Hla, ins: seq<Input>, n: nat)
    requires n <= |ins|
    ensures Run(s, ins[..n]).state.acc == Expected(s.acc, ins, n)
    decreases n
  {
    if n == 0 {
      assert s.acc.canData + [] == s.acc.canData;
    } else {
      assert ins[..n] == ins[..n - 1] + [ins[n - 1]];
      RunMatchesExpected(s, ins, n - 1);
      RunAppend(s, ins[..n - 1], [ins[n - 1]]);
      ExpectedNext(s.acc, ins, n - 1, Run(s, ins[..n - 1]).state);
    }
  }

  /**
    What the call at position `n` sends: if it is an acknowledgement with a
    working socket and at most 255 data bytes have been accumulated, the
    record of the described identifier and data; with a socket whose send
    fails, the same record, with the OSError caught; otherwise nothing is sent.
  */
  lemma AckSendsExpectedFrame(s: Hla, ins: seq<Input>, n: nat)
    requires n < |ins| && ins[n].event.AckField?
    ensures var e := Expected(s.acc, ins, n);
            var em := Run(s, ins).emissions[n];
            && (em.Sent? <==> ins[n].socket == Bound(true) && |e.canData| < 256)
            && (em.SendFailed? <==> ins[n].socket == Bound(false) && |e.canData| < 256)
            && (em.Sent? || em.SendFailed? ==> em.record == BuildCanFrame(e.canId, e.canData).value)
  {
    EmissionAt(s, ins, n);
    RunMatchesExpected(s, ins, n);
  }

  /** An identifier event followed only by other events is the last identifier event. */
  lemma LastIdentifierIsFirst(ins: seq<Input>, n: nat)
    requires 1 <= n <= |ins| && ins[0].event.IdentifierField?
    requires forall j :: 0 < j < n ==> !ins[j].event.IdentifierField?
    ensures LastOf(ins, IdentifierKind, n) == 0
  {
    if LastOf(ins, IdentifierKind, n) < 0 {
      LastOfIsLast(ins, IdentifierKind, n, 0);
    }
  }

  /** The data of a frame: its identifier and its final acknowledgement add nothing. */
  lemma FramePayloads(ins: seq<Input>)
    requires |ins| >= 2 && ins[0].event.IdentifierField? && ins[|ins| - 1].event.AckField?
    ensures PayloadsIn(ins, 1, |ins| - 1) == Payloads(ins)
  {
    var n := |ins| - 1;
    PayloadsSplit(ins, 0, 1, n);
    assert PayloadsIn(ins, 0, 1) == [];
    assert Payloads(ins) == PayloadsIn(ins, 0, n) + [];
  }

  /**
    A frame delivered as an identifier event, then any events other than
    identifiers, then an acknowledgement with a working socket, is sent as
    the record of its flagged identifier and the concatenation of its data
    events, whatever state the analyzer was in before, including one left
    by failed sends.
  */
  lemma CompleteFrameIsSent(s: Hla, ins: seq<Input>)
    requires |ins| >= 2 && ins[0].event.IdentifierField?
    requires forall j :: 0 < j < |ins| ==> !ins[j].event.IdentifierField?
    requires ins[|ins| - 1] == Input(AckField, Bound(true))
    requires |Payloads(ins)| < 256
    ensures Run(s, ins).emissions[|ins| - 1] == Sent(BuildCanFrame(IdOf(ins[0].event), Payloads(ins)).value)
  {
    var n := |ins| - 1;
    var e := Expected(s.acc, ins, n);
    assert e.canId == IdOf(ins[0].event) && e.canData == Payloads(ins) by {
      FrameExpected(s.acc, ins);
    }
    AckSendsExpectedFrame(s, ins, n);
  }

  /** Before its acknowledgement, a frame has stored its own identifier and data, whatever came before it. */
  lemma FrameExpected(acc: Accumulator, ins: seq<Input>)
    requires |ins| >= 2 && ins[0].event.IdentifierField? && ins[|ins| - 1].event.AckField?
    requires forall j :: 0 < j < |ins| ==> !ins[j].event.IdentifierField?
    ensures Expected(acc, ins, |ins| - 1).canId == IdOf(ins[0].event)
    ensures Expected(acc, ins, |ins| - 1).canData == Payloads(ins)
  {
    LastIdentifierIsFirst(ins, |ins| - 1);
    FramePayloads(ins);
  }

  /**
    Without an identifier event, an acknowledgement sends whatever the
    analyzer still holds from before, followed by the data that arrived
    since: nothing is reset when a frame is sent.
  */
  lemma AckWithoutIdentifierUsesLeftover(s: Hla, ins: seq<Input>, n: nat)
    requires n < |ins| && ins[n] == Input(AckField, Bound(true))
    requires forall j :: 0 <= j < n ==> !ins[j].event.IdentifierField?
    requires |s.acc.canData + PayloadsIn(ins, 0, n)| < 256
    ensures Run(s, ins).emissions[n]
            == Sent(BuildCanFrame(s.acc.canId, s.acc.canData + PayloadsIn(ins, 0, n)).value)
  {
    AckSendsExpectedFrame(s, ins, n);
    if 0 <= LastOf(ins, IdentifierKind, n) {
      assert false;
    }
  }

  /**
    From the class defaults, an acknowledgement before any identifier event
    sends identifier 0 with the data seen so far, and the stored CRC is still
    0 unless a CRC event came first.
  */
  lemma FirstAckWithoutIdentifier(ins: seq<Input>, n: nat)
    requires n < |ins| && ins[n] == Input(AckField, Bound(true))
    requires forall j :: 0 <= j < n ==> !ins[j].event.IdentifierField?
    requires |PayloadsIn(ins, 0, n)| < 256
    ensures Run(Initial, ins).emissions[n] == Sent(BuildCanFrame(0, PayloadsIn(ins, 0, n)).value)
    ensures LastOf(ins, CrcKind, n) < 0 ==> Run(Initial, ins[..n]).state.acc.canCrc == 0
  {
    assert Initial.acc.canData + PayloadsIn(ins, 0, n) == PayloadsIn(ins, 0, n);
    AckWithoutIdentifierUsesLeftover(Initial, ins, n);
    RunMatchesExpected(Initial, ins, n);
  }

  /** An example frame: identifier 0x123, length 3, data AA then BB CC, CRC 0x55, acknowledgement. */
  const ExampleInputs: seq<Input> := [
    Input(IdentifierField(0x123, false, false), Bound(true)),
    Input(ControlField(3), Bound(true)),
    Input(DataField([0xAA]), Bound(true)),
    Input(DataField([0xBB, 0xCC]), Bound(true)),
    Input(CrcField(0x55), Bound(true)),
    Input(AckField, Bound(true))
  ]

  /**
    Identifier 0x123, length 3, data AA then BB CC, CRC 0x55 and an
    acknowledgement send 23 01 00 00 03 00 00 00 AA BB CC 00 00 00 00 00.
  */
  lemma ExampleFrameRecord(s: Hla)
    ensures Run(s, ExampleInputs).emissions[5]
            == Sent([0x23, 0x01, 0, 0, 3, 0, 0, 0, 0xAA, 0xBB, 0xCC, 0, 0, 0, 0, 0])
  {
    ExamplePayloads();
    CompleteFrameIsSent(s, ExampleInputs);
    UnflaggedIdentifierKept(0x123);
    ExampleRecord();
  }

  lemma ExamplePayloads()
    ensures Payloads(ExampleInputs) == [0xAA, 0xBB, 0xCC]
  {
    var ins := ExampleInputs;
    assert PayloadsIn(ins, 0, 2) == [];
    assert PayloadsIn(ins, 0, 3) == [0xAA];
    assert PayloadsIn(ins, 0, 4) == [0xAA, 0xBB, 0xCC];
    assert PayloadsIn(ins, 0, 5) == [0xAA, 0xBB, 0xCC];
  }

  lemma ExampleRecord()
    ensures BuildCanFrame(0x123, [0xAA, 0xBB, 0xCC])
            == Ok([0x23, 0x01, 0, 0, 3, 0, 0, 0, 0xAA, 0xBB, 0xCC, 0, 0, 0, 0, 0])
  {
    var rec := BuildCanFrame(0x123, [0xAA, 0xBB, 0xCC]).value;
    assert Le32(0x123) == [0x23, 0x01, 0, 0];
    assert rec[0] == rec[..4][0] && rec[1] == rec[..4][1] && rec[2] == rec[..4][2] && rec[3] == rec[..4][3];
    assert rec[8] == rec[8..11][0] && rec[9] == rec[8..11][1] && rec[10] == rec[8..11][2];
    assert rec[4] == 3;
    assert rec[11] == 0 && rec[12] == 0 && rec[13] == 0 && rec[14] == 0 && rec[15] == 0;
    assert rec == [0x23, 0x01, 0, 0, 3, 0, 0, 0, 0xAA, 0xBB, 0xCC, 0, 0, 0, 0, 0];
  }
}
