/** Fleet status reports of the write filter: their codec, and why every report the service builds survives it. */
module Fleet {
  import opened Bytes
  import opened Wire

  const MAX_DETAIL: nat := 256
  const LAST_PHASE: nat := 9
  const VERIFIED_PROTECTED: nat := 7
  const FAILED: nat := 8

  type Phase = p: nat | 1 <= p <= LAST_PHASE witness 1

  datatype Probe = Probe(
    succeeded: bool, filterCurrent: bool, filterNext: bool, volumeProtected: bool, dataExclusion: bool,
    registryExclusion: bool)

  const NO_PROBE := Probe(false, false, false, false, false, false)

  datatype Report = Report(operationId: nat, bootId: Bytes16, phase: nat, probe: Probe, detail: seq<byte>)

  predicate ProvesProtection(p: Probe) {
    p.succeeded && p.filterCurrent && p.volumeProtected
  }

  predicate Printable(s: seq<byte>) {
    forall i :: 0 <= i < |s| ==> 0x20 <= s[i] < 0x7f
  }

  function Bit(b: bool): nat {
    if b then 1 else 0
  }

  /** One bit below the bits of `above`. */
  function Pack(b: bool, above: nat): nat {
    Bit(b) + 2 * above
  }

  function Flags(p: Probe): (f: nat)
    ensures f < 0x40
  {
    Pack(p.succeeded, Pack(p.filterCurrent, Pack(p.filterNext, Pack(p.volumeProtected,
      Pack(p.dataExclusion, Bit(p.registryExclusion))))))
  }

  /** Bit after bit, from the lowest. */
  function ProbeOf(f: nat): Probe {
    var f1 := f / 2;
    var f2 := f1 / 2;
    var f3 := f2 / 2;
    var f4 := f3 / 2;
    Probe(f % 2 == 1, f1 % 2 == 1, f2 % 2 == 1, f3 % 2 == 1, f4 % 2 == 1, f4 / 2 % 2 == 1)
  }

  lemma Unpack(b: bool, above: nat)
    ensures Pack(b, above) / 2 == above && (Pack(b, above) % 2 == 1 <==> b)
  {
  }

  lemma FlagsRoundTrip(p: Probe)
    ensures ProbeOf(Flags(p)) == p
  {
    hide Pack;
    var f4 := Pack(p.dataExclusion, Bit(p.registryExclusion));
    var f3 := Pack(p.volumeProtected, f4);
    var f2 := Pack(p.filterNext, f3);
    var f1 := Pack(p.filterCurrent, f2);
    Unpack(p.dataExclusion, Bit(p.registryExclusion));
    Unpack(p.volumeProtected, f4);
    Unpack(p.filterNext, f3);
    Unpack(p.filterCurrent, f2);
    Unpack(p.succeeded, f1);
  }

  predicate Encodable(r: Report) {
    1 <= r.phase <= LAST_PHASE && 0 < |r.detail| <= MAX_DETAIL && Printable(r.detail)
  }

  /** Empty when the report is refused. */
  function Encode(r: Report): seq<byte> {
    if !Encodable(r) then []
    else
      Le(r.operationId, 8) + (r.bootId + (Le(r.phase, 1) + (Le(Flags(r.probe), 1) + (Le(|r.detail|, 2) + r.detail))))
  }

  function Decode(s: seq<byte>): Option<Report> {
    var operation := ReadLe(s, 8);
    if operation.Malformed? then None else
    var boot := ReadBytes(operation.rest, 16);
    if boot.Malformed? then None else
    var phase := ReadLe(boot.rest, 1);
    if phase.Malformed? || phase.value < 1 || phase.value > LAST_PHASE then None else
    var flags := ReadLe(phase.rest, 1);
    if flags.Malformed? || flags.value >= 0x40 then None else
    var size := ReadLe(flags.rest, 2);
    if size.Malformed? || size.value == 0 || size.value > MAX_DETAIL || |size.rest| != size.value then None
    else Judge(Report(operation.value, boot.value, phase.value, ProbeOf(flags.value), size.rest), flags.value)
  }

  /** The checks on the decoded report as a whole. */
  function Judge(r: Report, flags: nat): Option<Report> {
    if (flags % 2 == 0 && flags != 0) || !Printable(r.detail) ||
       (r.phase == VERIFIED_PROTECTED && !ProvesProtection(r.probe)) then None
    else Some(r)
  }

  /** A report that claims no more than its own probe: no observation without a probe, no verification without proof. */
  predicate Honest(r: Report) {
    (r.probe.succeeded || r.probe == NO_PROBE) && (r.phase == VERIFIED_PROTECTED ==> ProvesProtection(r.probe))
  }

  const UNPROVED := Report(1, Zeros(16), VERIFIED_PROTECTED, NO_PROBE, [0x75])
  const UNPROBED := Report(1, Zeros(16), FAILED, NO_PROBE.(filterCurrent := true), [0x75])

  lemma FlagsHonest(p: Probe)
    ensures Flags(p) % 2 == 0 && Flags(p) != 0 <==> !p.succeeded && p != NO_PROBE
  {
  }

  lemma EncodedParts(r: Report)
    requires Encodable(r) && r.operationId <= U64_MAX
    ensures Decode(Encode(r)) == Judge(r, Flags(r.probe))
  {
    hide ReadLe, Le, Bound, Flags, ProbeOf, Judge, Printable;
    FourBytes();
    FlagsRoundTrip(r.probe);
    var r4 := Le(|r.detail|, 2) + r.detail;
    var r3 := Le(Flags(r.probe), 1) + r4;
    var r2 := Le(r.phase, 1) + r3;
    var r1 := r.bootId + r2;
    LeExact(Encode(r), 8, r.operationId, r1);
    BytesExact(r1, 16, r.bootId, r2);
    LeExact(r2, 1, r.phase, r3);
    LeExact(r3, 1, Flags(r.probe), r4);
    LeExact(r4, 2, |r.detail|, r.detail);
  }

  /** An encodable report decodes to itself exactly when it is honest; otherwise it does not decode at all. */
  lemma RoundTripIffHonest(r: Report)
    requires Encodable(r) && r.operationId <= U64_MAX
    ensures Decode(Encode(r)) == if Honest(r) then Some(r) else None
  {
    EncodedParts(r);
    FlagsHonest(r.probe);
  }

  /** Two reports the encoder accepts and the decoder refuses: verified without a probe, observing without a probe. */
  lemma DishonestReportsEncode()
    ensures forall r :: r in {UNPROVED, UNPROBED} ==>
              Encodable(r) && !Honest(r) && Encode(r) != [] && Decode(Encode(r)) == None
  {
    hide Decode, Encode;
    DishonestEncodes(UNPROVED);
    DishonestEncodes(UNPROBED);
  }

  lemma DishonestEncodes(r: Report)
    requires r == UNPROVED || r == UNPROBED
    ensures Encodable(r) && !Honest(r) && Encode(r) != [] && Decode(Encode(r)) == None
  {
    hide Decode, Encode;
    RoundTripIffHonest(r);
    EncodedSomething(r);
  }

  lemma ProbeBits(f: nat)
    requires f < 0x40
    ensures Flags(ProbeOf(f)) == f
  {
    hide Pack;
    var f1 := f / 2;
    var f2 := f1 / 2;
    var f3 := f2 / 2;
    var f4 := f3 / 2;
    Repack(f);
    Repack(f1);
    Repack(f2);
    Repack(f3);
    Repack(f4);
  }

  lemma Repack(f: nat)
    ensures Pack(f % 2 == 1, f / 2) == f
  {
  }

  lemma DecodedParts(s: seq<byte>)
    requires Decode(s).Some?
    ensures var r := Decode(s).value;
            Encodable(r) && Honest(r) && r.operationId <= U64_MAX && s == Encode(r)
  {
    hide ReadLe, ReadBytes, Le, Bound, Flags, ProbeOf, Printable;
    FourBytes();
    var operation := ReadLe(s, 8);
    LeExact(s, 8, operation.value, operation.rest);
    var boot := ReadBytes(operation.rest, 16);
    BytesExact(operation.rest, 16, boot.value, boot.rest);
    var phase := ReadLe(boot.rest, 1);
    LeExact(boot.rest, 1, phase.value, phase.rest);
    var flags := ReadLe(phase.rest, 1);
    LeExact(phase.rest, 1, flags.value, flags.rest);
    var size := ReadLe(flags.rest, 2);
    LeExact(flags.rest, 2, size.value, size.rest);
    ProbeBits(flags.value);
    FlagsHonest(ProbeOf(flags.value));
  }

  /**
   * Decoding accepts exactly the encodings of honest reports: whatever bytes arrive, a verified phase only ever comes
   * with a probe that proves it.
   */
  lemma DecodeExact(s: seq<byte>, r: Report)
    ensures Decode(s) == Some(r) <==> Encodable(r) && Honest(r) && r.operationId <= U64_MAX && s == Encode(r)
  {
    if Decode(s) == Some(r) {
      DecodedParts(s);
    } else if Encodable(r) && Honest(r) && r.operationId <= U64_MAX && s == Encode(r) {
      RoundTripIffHonest(r);
    }
  }

  /** Where the encoded report carries its phase, and which bit of the next byte carries which observation. */
  lemma ObservationBits(r: Report)
    requires Encodable(r) && r.operationId <= U64_MAX
    ensures |Encode(r)| == 28 + |r.detail| && Encode(r)[24] == r.phase
    ensures var flags := Encode(r)[25];
            && (flags % 2 == 1 <==> r.probe.succeeded) && (flags / 2 % 2 == 1 <==> r.probe.filterCurrent)
            && (flags / 4 % 2 == 1 <==> r.probe.filterNext) && (flags / 8 % 2 == 1 <==> r.probe.volumeProtected)
            && (flags / 16 % 2 == 1 <==> r.probe.dataExclusion) && (flags / 32 % 2 == 1 <==> r.probe.registryExclusion)
  {
    hide Flags, Printable;
    FlagsRoundTrip(r.probe);
    OneByte(r.phase);
    OneByte(Flags(r.probe));
    Shifts(Flags(r.probe));
  }

  lemma OneByte(n: nat)
    requires n < 0x100
    ensures Le(n, 1) == [n]
  {
    assert Le(n, 1) == [n % 0x100] + Le(n / 0x100, 0);
  }

  lemma Shifts(f: nat)
    ensures f / 2 / 2 == f / 4 && f / 4 / 2 == f / 8 && f / 8 / 2 == f / 16 && f / 16 / 2 == f / 32
  {
  }

  // ---- what the service builds ----

  datatype ProbeResult = ProbeResult(observed: Probe, supportedProduct: bool, detail: seq<byte>)

  /** A probe that never reached an answer reports nothing at all. */
  function WireProbe(r: ProbeResult): Probe {
    if r.observed.succeeded then r.observed else NO_PROBE
  }

  function Blanked(s: seq<byte>): (t: seq<byte>)
    ensures |t| == |s| && Printable(t)
  {
    seq(|s|, i requires 0 <= i < |s| => if s[i] < 0x20 || s[i] >= 0x7f then 0x20 else s[i])
  }

  function Trimmed(s: seq<byte>): (t: seq<byte>)
    ensures t <= s && (t != [] ==> t[|t| - 1] != 0x20)
    ensures forall i :: |t| <= i < |s| ==> s[i] == 0x20
  {
    if s != [] && s[|s| - 1] == 0x20 then Trimmed(s[..|s| - 1]) else s
  }

  function Detail(detail: seq<byte>, fallback: seq<byte>): seq<byte> {
    var trimmed := Trimmed(Blanked(detail));
    var chosen := if trimmed == [] then fallback else trimmed;
    if |chosen| > MAX_DETAIL then chosen[..MAX_DETAIL] else chosen
  }

  /** "UWF state reported without detail". */
  const FALLBACK: seq<byte> := [
    0x55, 0x57, 0x46, 0x20, 0x73, 0x74, 0x61, 0x74, 0x65, 0x20, 0x72, 0x65, 0x70, 0x6f, 0x72, 0x74, 0x65, 0x64, 0x20,
    0x77, 0x69, 0x74, 0x68, 0x6f, 0x75, 0x74, 0x20, 0x64, 0x65, 0x74, 0x61, 0x69, 0x6c]

  function Build(operationId: nat, bootId: Bytes16, phase: Phase, probe: Probe, detail: seq<byte>): Report {
    Report(operationId, bootId,
           if phase == VERIFIED_PROTECTED && !ProvesProtection(probe) then FAILED else phase,
           probe, Detail(detail, FALLBACK))
  }

  /** Any text becomes a detail the codec accepts, and a text it accepts is kept up to trailing blanks. */
  lemma DetailIsEncodable(detail: seq<byte>)
    ensures 0 < |Detail(detail, FALLBACK)| <= MAX_DETAIL && Printable(Detail(detail, FALLBACK))
    ensures Printable(detail) && Trimmed(detail) == detail && 0 < |detail| <= MAX_DETAIL ==>
              Detail(detail, FALLBACK) == detail
  {
    assert Printable(FALLBACK);
    if Printable(detail) {
      assert Blanked(detail) == detail;
    }
  }

  /** Every status the service builds from a wired or an empty probe is encoded, and decodes to the same report. */
  lemma BuiltReportsSurvive(operationId: nat, bootId: Bytes16, phase: Phase, result: Option<ProbeResult>,
                            detail: seq<byte>)
    requires operationId <= U64_MAX
    ensures var probe := if result.Some? then WireProbe(result.value) else NO_PROBE;
            var r := Build(operationId, bootId, phase, probe, detail);
            && Encode(r) != [] && Decode(Encode(r)) == Some(r)
            && (r.phase == VERIFIED_PROTECTED ==> ProvesProtection(r.probe))
            && (r.phase != phase <==> phase == VERIFIED_PROTECTED && !ProvesProtection(probe))
            && r.operationId == operationId && r.bootId == bootId
            && r.probe == if result.Some? && result.value.observed.succeeded then result.value.observed else NO_PROBE
  {
    hide Decode, Detail, Printable, Encode, FALLBACK;
    var probe := if result.Some? then WireProbe(result.value) else NO_PROBE;
    var r := Build(operationId, bootId, phase, probe, detail);
    DetailIsEncodable(detail);
    EncodedSomething(r);
    RoundTripIffHonest(r);
  }

  lemma EncodedSomething(r: Report)
    requires Encodable(r)
    ensures Encode(r) != []
  {
    hide Le, Flags, Printable;
  }

  // ---- the service's reporter ----

  class FleetReporter {
    const bootId: Bytes16
    var operationId: nat
    var phase: nat
    var outbound: seq<seq<byte>>

    constructor (bootId: Bytes16)
      ensures this.bootId == bootId && operationId == 0 && phase == 1 && outbound == []
    {
      this.bootId := bootId;
      operationId, phase, outbound := 0, 1, [];
    }

    method FleetDetail(detail: seq<byte>, fallback: seq<byte>) returns (text: seq<byte>)
      ensures text == Detail(detail, fallback)
    {
      text := [];
      for i := 0 to |detail|
        invariant text == Blanked(detail)[..i]
      {
        text := text + [if detail[i] < 0x20 || detail[i] >= 0x7f then 0x20 else detail[i]];
      }
      while text != [] && text[|text| - 1] == 0x20
        invariant Trimmed(text) == Trimmed(Blanked(detail))
        decreases |text|
      {
        text := text[..|text| - 1];
      }
      if text == [] {
        text := fallback;
      }
      if |text| > MAX_DETAIL {
        text := text[..MAX_DETAIL];
      }
    }

    /** The codec's writer. */
    method EncodeReport(r: Report) returns (payload: seq<byte>)
      ensures payload == Encode(r)
    {
      hide Le, Flags, Printable;
      if !Encodable(r) {
        return [];
      }
      var out := new Buffer();
      out.AppendLe(r.operationId, 8);
      out.AppendBytes(r.bootId);
      out.AppendLe(r.phase, 1);
      out.AppendLe(Flags(r.probe), 1);
      out.AppendLe(|r.detail|, 2);
      out.AppendBytes(r.detail);
      payload := out.bytes;
    }

    /** Never drops a report, and never claims verification without its proof. */
    method QueueFleetStatus(claimed: Phase, result: Option<ProbeResult>, detail: seq<byte>)
      requires operationId <= U64_MAX
      modifies this`phase, this`outbound
      ensures var probe := if result.Some? then WireProbe(result.value) else NO_PROBE;
              var r := Build(operationId, bootId, claimed, probe, detail);
              outbound == old(outbound) + [Encode(r)] && Decode(Encode(r)) == Some(r) && phase == r.phase
    {
      hide Decode, Detail, Encode;
      var probe := NO_PROBE;
      if result.Some? {
        probe := WireProbe(result.value);
      }
      phase := claimed;
      if claimed == VERIFIED_PROTECTED && !ProvesProtection(probe) {
        phase := FAILED;
      }
      var text := FleetDetail(detail, FALLBACK);
      var payload := EncodeReport(Report(operationId, bootId, phase, probe, text));
      BuiltReportsSurvive(operationId, bootId, claimed, result, detail);
      if payload != [] {
        outbound := outbound + [payload];
      }
    }
  }
}
