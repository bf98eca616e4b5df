/**
 The 72-byte broker handoff packet, the continuity evidence taken from it, and the digest that binds it
 to one runner.
 */
module BrokerPacket {
  import opened Results
  import opened Numbers
  import opened Bytes

  const PACKET_BYTES: nat := 72

  datatype Operation = Initial | Replacement

  datatype Status = Request | Success | Unavailable | Rejected | Exhausted

  datatype Generation = Generation(epoch: seq<byte>, sequence: nat)

  datatype Packet = Packet(operation: Operation, status: Status, generation: Generation, identity: seq<byte>)

  datatype AdoptionError = InvalidPacket | InvalidPeer | IdentityMismatch

  function Zeros(n: nat): (z: seq<byte>)
    ensures |z| == n && forall i :: 0 <= i < n ==> z[i] == 0
  {
    seq(n, _ => 0)
  }

  /** The magic "ASBHND01". */
  const MAGIC: seq<byte> := [65, 83, 66, 72, 78, 68, 48, 49]

  function OperationOf(b: byte): Option<Operation> {
    match b
    case 1 => Some(Initial)
    case 2 => Some(Replacement)
    case _ => None
  }

  function StatusOf(b: byte): Option<Status> {
    match b
    case 0 => Some(Request)
    case 1 => Some(Success)
    case 2 => Some(Unavailable)
    case 3 => Some(Rejected)
    case 4 => Some(Exhausted)
    case _ => None
  }

  predicate KnowsGeneration(g: Generation) {
    g.epoch != Zeros(16) && g.sequence != 0
  }

  /** Which fields each status may carry. */
  predicate Coherent(p: Packet) {
    match p.status
    case Success => KnowsGeneration(p.generation) && p.identity != Zeros(32)
    case Exhausted => p.operation == Replacement && KnowsGeneration(p.generation) && p.identity == Zeros(32)
    case _ => p.identity == Zeros(32) && (p.operation == Initial || KnowsGeneration(p.generation))
  }

  function Decode(bytes: seq<byte>): Result<Packet, AdoptionError> {
    if |bytes| != PACKET_BYTES || bytes[..8] != MAGIC || bytes[8..10] != BigEndian(1, 2) || bytes[12..16] != Zeros(4)
    then Err(InvalidPacket)
    else
      match OperationOf(bytes[10])
      case None => Err(InvalidPacket)
      case Some(operation) =>
        match StatusOf(bytes[11])
        case None => Err(InvalidPacket)
        case Some(status) =>
          var p := Packet(operation, status, Generation(bytes[16..32], FromBigEndian(bytes[32..40])), bytes[40..72]);
          if Coherent(p) then Ok(p) else Err(InvalidPacket)
  }

  // ----- the layout, written the other way round

  function OperationByte(o: Operation): byte {
    match o
    case Initial => 1
    case Replacement => 2
  }

  function StatusByte(s: Status): byte {
    match s
    case Request => 0
    case Success => 1
    case Unavailable => 2
    case Rejected => 3
    case Exhausted => 4
  }

  predicate WellSized(p: Packet) {
    |p.generation.epoch| == 16 && p.generation.sequence < U64_LIMIT && |p.identity| == 32
  }

  function Header(p: Packet): (h: seq<byte>)
    ensures |h| == 16
  {
    MAGIC + BigEndian(1, 2) + [OperationByte(p.operation), StatusByte(p.status)] + Zeros(4)
  }

  function Encode(p: Packet): seq<byte> {
    Header(p) + p.generation.epoch + BigEndian(p.generation.sequence, 8) + p.identity
  }

  lemma ByteCodesAgree(b: byte, o: Operation, s: Status)
    ensures OperationOf(b) == Some(o) <==> b == OperationByte(o)
    ensures StatusOf(b) == Some(s) <==> b == StatusByte(s)
  {
  }

  lemma HeaderIsLayout(h: seq<byte>, p: Packet)
    requires |h| == 16
    ensures h == Header(p) <==> h[..8] == MAGIC && h[8..10] == BigEndian(1, 2) && h[10] == OperationByte(p.operation)
                                && h[11] == StatusByte(p.status) && h[12..16] == Zeros(4)
  {
    assert h == h[..8] + h[8..10] + [h[10], h[11]] + h[12..16];
    var l := Header(p);
    assert l[..8] == MAGIC && l[8..10] == BigEndian(1, 2) && l[12..16] == Zeros(4);
  }

  lemma EncodedParts(p: Packet)
    requires WellSized(p)
    ensures var b := Encode(p);
      |b| == PACKET_BYTES && b[..16] == Header(p) && b[16..32] == p.generation.epoch
      && b[32..40] == BigEndian(p.generation.sequence, 8) && b[40..72] == p.identity
  {
  }

  lemma SplitPacket(bytes: seq<byte>)
    requires |bytes| == PACKET_BYTES
    ensures bytes == bytes[..16] + bytes[16..32] + bytes[32..40] + bytes[40..72]
    ensures var h := bytes[..16];
      h[..8] == bytes[..8] && h[8..10] == bytes[8..10] && h[10] == bytes[10] && h[11] == bytes[11]
      && h[12..16] == bytes[12..16]
  {
  }

  lemma DecodedIsLayout(bytes: seq<byte>)
    requires Decode(bytes).Ok?
    ensures var p := Decode(bytes).value;
      WellSized(p) && Coherent(p) && bytes == Encode(p)
  {
    EightBytes();
    var p, h := Decode(bytes).value, bytes[..16];
    SplitPacket(bytes);
    ByteCodesAgree(bytes[10], p.operation, p.status);
    HeaderIsLayout(h, p);
    BytesReadBack(bytes[32..40]);
  }

  lemma LayoutDecodes(p: Packet)
    requires WellSized(p) && Coherent(p)
    ensures Decode(Encode(p)) == Ok(p)
  {
    EightBytes();
    var bytes := Encode(p);
    EncodedParts(p);
    HeaderIsLayout(bytes[..16], p);
    SplitPacket(bytes);
    ByteCodesAgree(bytes[10], p.operation, p.status);
    NumberReadsBack(p.generation.sequence, 8);
  }

  /**
   A packet is accepted exactly when it is the one layout of a coherent packet: no two byte strings share a
   packet.
   */
  lemma DecodeIsCanonical(bytes: seq<byte>, p: Packet)
    ensures Decode(bytes) == Ok(p) <==> WellSized(p) && Coherent(p) && bytes == Encode(p)
  {
    if Decode(bytes) == Ok(p) {
      DecodedIsLayout(bytes);
    }
    if WellSized(p) && Coherent(p) {
      LayoutDecodes(p);
    }
  }

  /** Every accepted packet carries the whole generation once the broker has one to show. */
  lemma AcceptedSuccessBindsRunner(bytes: seq<byte>)
    requires Decode(bytes).Ok?
    ensures var p := Decode(bytes).value;
      WellSized(p)
      && (p.status == Success <==> p.identity != Zeros(32))
      && (p.status == Success || p.operation == Replacement ==> KnowsGeneration(p.generation))
  {
    DecodeIsCanonical(bytes, Decode(bytes).value);
  }

  // ----- continuity over a run of successors

  class Continuity {
    var generation: Generation

    predicate Valid()
      reads this
    {
      KnowsGeneration(generation) && generation.sequence < U64_LIMIT
    }

    /** `BrokerContinuity::new`: nothing, for a generation the broker does not show. The sequence is a 64-bit number. */
    static method New(g: Generation) returns (continuity: Option<Continuity>)
      requires g.sequence < U64_LIMIT
      ensures continuity.Some? <==> KnowsGeneration(g)
      ensures continuity.Some? ==>
              fresh(continuity.value) && continuity.value.Valid() && continuity.value.generation == g
    {
      if g.epoch == Zeros(16) || g.sequence == 0 {
        return None;
      }
      var c := new Continuity(g);
      return Some(c);
    }

    constructor (g: Generation)
      requires KnowsGeneration(g) && g.sequence < U64_LIMIT
      ensures Valid() && generation == g
    {
      generation := g;
    }

    method AcceptSuccessor(next: Generation) returns (ok: bool)
      requires Valid()
      modifies this
      ensures Valid()
      ensures ok <==> Succeeds(old(generation), next)
      ensures generation == if ok then next else old(generation)
    {
      if next.epoch != generation.epoch || generation.sequence + 1 >= U64_LIMIT
         || next.sequence != generation.sequence + 1 {
        return false;
      }
      generation := next;
      return true;
    }
  }

  predicate Succeeds(current: Generation, next: Generation) {
    next == Generation(current.epoch, current.sequence + 1) && next.sequence < U64_LIMIT
  }

  /** A run of offers: the generation it ends in and how many it accepted; a refused offer leaves no trace. */
  function Follow(g: Generation, offers: seq<Generation>): (Generation, nat)
    decreases offers
  {
    if offers == [] then (g, 0)
    else if Succeeds(g, offers[0]) then
      var (last, count) := Follow(offers[0], offers[1..]);
      (last, count + 1)
    else Follow(g, offers[1..])
  }

  /**
   Whatever is offered, the epoch is constant and the sequence is the start plus the acceptances, without
   wrapping.
   */
  lemma {:induction false} RunCountsAcceptances(g: Generation, offers: seq<Generation>)
    requires g.sequence < U64_LIMIT
    ensures var (last, count) := Follow(g, offers);
      last == Generation(g.epoch, g.sequence + count) && g.sequence + count < U64_LIMIT && count <= |offers|
    decreases offers
  {
    if offers != [] {
      if Succeeds(g, offers[0]) {
        RunCountsAcceptances(offers[0], offers[1..]);
      } else {
        RunCountsAcceptances(g, offers[1..]);
      }
    }
  }

  /** At the last representable sequence nothing is ever accepted again. */
  lemma {:induction false} LastSequenceIsFinal(epoch: seq<byte>, offers: seq<Generation>)
    ensures Follow(Generation(epoch, U64_LIMIT - 1), offers) == (Generation(epoch, U64_LIMIT - 1), 0)
  {
    if offers != [] {
      LastSequenceIsFinal(epoch, offers[1..]);
    }
  }

  // ----- the runner identity digest

  const MAX_RUNNER_ID_BYTES: nat := 128

  /** "asb-control-runner-instance-v1" and a zero byte. */
  const DOMAIN: seq<byte> :=
    [97, 115, 98, 45, 99, 111, 110, 116, 114, 111, 108, 45, 114, 117, 110, 110, 101, 114, 45, 105, 110, 115, 116, 97,
     110, 99, 101, 45, 118, 49, 0]

  predicate IsIdByte(b: byte) {
    48 <= b <= 57 || 65 <= b <= 90 || 97 <= b <= 122 || b == 46 || b == 95 || b == 45
  }

  predicate IsRunnerId(id: seq<byte>) {
    0 < |id| <= MAX_RUNNER_ID_BYTES && forall i :: 0 <= i < |id| ==> IsIdByte(id[i])
  }

  function Preimage(id: seq<byte>): seq<byte> {
    DOMAIN + BigEndian(|id|, 2) + id
  }

  lemma PreimageIdentifiesRunner(a: seq<byte>, b: seq<byte>)
    ensures Preimage(a) == Preimage(b) <==> a == b
  {
    var k := |DOMAIN| + 2;
    assert Preimage(a)[k..] == a && Preimage(b)[k..] == b;
  }

  predicate IsHexByte(b: byte) {
    48 <= b <= 57 || 97 <= b <= 102
  }

  function NibbleOf(b: byte): (n: byte)
    requires IsHexByte(b)
    ensures n < 16
  {
    if b <= 57 then b - 48 else b - 87
  }

  function HexDigit(n: byte): (b: byte)
    requires n < 16
    ensures IsHexByte(b) && NibbleOf(b) == n
  {
    if n < 10 then n + 48 else n + 87
  }

  /** The lower-case hexadecimal text of a byte string. */
  function Hex(bytes: seq<byte>): (h: seq<byte>)
    ensures |h| == 2 * |bytes| && forall i :: 0 <= i < |h| ==> IsHexByte(h[i])
  {
    if bytes == [] then []
    else Hex(bytes[..|bytes| - 1]) + [HexDigit(bytes[|bytes| - 1] / 16), HexDigit(bytes[|bytes| - 1] % 16)]
  }

  lemma {:induction false} HexAt(bytes: seq<byte>, i: nat)
    requires i < |bytes|
    ensures Hex(bytes)[2 * i] == HexDigit(bytes[i] / 16) && Hex(bytes)[2 * i + 1] == HexDigit(bytes[i] % 16)
  {
    if i < |bytes| - 1 {
      HexAt(bytes[..|bytes| - 1], i);
    }
  }

  predicate IsHexText(h: seq<byte>) {
    |h| == 64 && forall i :: 0 <= i < 64 ==> IsHexByte(h[i])
  }

  lemma BytesOfHex(hex: seq<byte>, bytes: seq<byte>)
    requires IsHexText(hex) && |bytes| == 32
    requires forall j :: 0 <= j < 32 ==> bytes[j] == 16 * NibbleOf(hex[2 * j]) + NibbleOf(hex[2 * j + 1])
    ensures Hex(bytes) == hex
  {
    forall k | 0 <= k < 64
      ensures Hex(bytes)[k] == hex[k]
    {
      var j := k / 2;
      HexAt(bytes, j);
      assert bytes[j] / 16 == NibbleOf(hex[2 * j]) && bytes[j] % 16 == NibbleOf(hex[2 * j + 1]);
      NibblesRoundTrip(hex[k]);
      assert k == 2 * j || k == 2 * j + 1;
    }
  }

  lemma NibblesRoundTrip(b: byte)
    requires IsHexByte(b)
    ensures HexDigit(NibbleOf(b)) == b
  {
  }

  /** Fills the 32-byte buffer two characters at a time. */
  method BytesFromHex(hex: seq<byte>) returns (bytes: seq<byte>)
    requires IsHexText(hex)
    ensures |bytes| == 32 && Hex(bytes) == hex
  {
    var buffer: array<byte> := new byte[32](_ => 0);
    for i := 0 to 32
      invariant forall j :: 0 <= j < i ==> buffer[j] == 16 * NibbleOf(hex[2 * j]) + NibbleOf(hex[2 * j + 1])
    {
      buffer[i] := 16 * NibbleOf(hex[2 * i]) + NibbleOf(hex[2 * i + 1]);
    }
    bytes := buffer[..];
    BytesOfHex(hex, bytes);
  }

  /** The hash is a function into 64 hexadecimal characters. */
  method RunnerIdentityDigest(id: seq<byte>, digestHex: seq<byte> -> seq<byte>)
    returns (digest: Result<seq<byte>, AdoptionError>)
    requires IsHexText(digestHex(Preimage(id)))
    ensures digest.Ok? <==> IsRunnerId(id)
    ensures digest.Err? ==> digest.error == InvalidPeer
    ensures digest.Ok? ==> |digest.value| == 32 && Hex(digest.value) == digestHex(Preimage(id))
  {
    if |id| == 0 || |id| > MAX_RUNNER_ID_BYTES {
      return Err(InvalidPeer);
    }
    for i := 0 to |id|
      invariant forall j :: 0 <= j < i ==> IsIdByte(id[j])
    {
      if !IsIdByte(id[i]) {
        return Err(InvalidPeer);
      }
    }
    var bytes := BytesFromHex(digestHex(Preimage(id)));
    digest := Ok(bytes);
  }

  /** `authenticate_negotiated_identity`: decode, require success, compare the digests. */
  method AuthenticateNegotiatedIdentity(payload: seq<byte>, id: seq<byte>, digestHex: seq<byte> -> seq<byte>)
    returns (result: Result<Generation, AdoptionError>)
    requires IsHexText(digestHex(Preimage(id)))
    ensures result.Ok? <==>
            Decode(payload).Ok? && Decode(payload).value.status == Success && IsRunnerId(id)
            && Hex(Decode(payload).value.identity) == digestHex(Preimage(id))
    ensures result.Ok? ==> result.value == Decode(payload).value.generation && KnowsGeneration(result.value)
    ensures result == Err(IdentityMismatch) ==>
              Decode(payload).Ok? && IsRunnerId(id) && Hex(Decode(payload).value.identity) != digestHex(Preimage(id))
  {
    var packet := Decode(payload);
    if packet.Err? {
      return Err(packet.error);
    }
    if packet.value.status != Success {
      return Err(InvalidPacket);
    }
    AcceptedSuccessBindsRunner(payload);
    var digest := RunnerIdentityDigest(id, digestHex);
    if digest.Err? {
      return Err(digest.error);
    }
    HexIsInjective(packet.value.identity, digest.value);
    if packet.value.identity != digest.value {
      return Err(IdentityMismatch);
    }
    result := Ok(packet.value.generation);
  }

  lemma HexIsInjective(a: seq<byte>, b: seq<byte>)
    ensures Hex(a) == Hex(b) <==> a == b
  {
    if Hex(a) == Hex(b) {
      forall i | 0 <= i < |a|
        ensures a[i] == b[i]
      {
        HexAt(a, i);
        HexAt(b, i);
        assert a[i] == 16 * (a[i] / 16) + a[i] % 16;
      }
    }
  }
}
