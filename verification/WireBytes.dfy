/** The bytes on the wire, written out: every payload, the record header and the
    envelope.  Exact inverses leave it open which bytes are used; these are they. */
module WireBytes {
  import opened Common
  import opened Terms
  import opened Cbor
  import opened Payloads
  import Framing
  import Utf8
  import Records

  lemma Steps(items: seq<Item>, k: nat)
    requires k < |items|
    ensures After(items, k) == EncodeItem(items[k]) + After(items, k + 1)
  {
    assert items[k..][1..] == items[k + 1..];
  }

  /** Small numbers of keys and maps of so many pairs are one byte; byte strings of 16 and
      of 32 bytes have their length before them. */
  lemma Heads(n: u64, b: Blob)
    ensures n < 24 ==> EncodeItem(UInt(n)) == [n] && EncodeItem(MapOf(n)) == [0xA0 + n]
    ensures |b| == 16 ==> EncodeItem(Bytes(b)) == [0x50] + b
    ensures |b| == 32 ==> EncodeItem(Bytes(b)) == [0x58, 32] + b
  {
  }

  /** Four bytes, the most significant first. */
  function Four(n: u32): seq<byte> {
    [n / 0x100_0000, n / 0x1_0000 % 0x100, n / 0x100 % 0x100, n % 0x100]
  }

  /** A number is one byte below 24, and else 18, 19, 1A or 1B and its one, two, four or
      eight bytes, as few as it needs. */
  function Number(n: u64): seq<byte> {
    if n < 24 then [n]
    else if n < 0x100 then [0x18, n]
    else if n < 0x1_0000 then [0x19, n / 0x100, n % 0x100]
    else if n < 0x1_0000_0000 then [0x1A] + Four(n)
    else [0x1B] + (Four(n / 0x1_0000_0000) + Four(n % 0x1_0000_0000))
  }

  lemma FourBytes(n: u32)
    ensures Be32(n) == Four(n)
  {
    assert n / 0x1_0000 / 0x100 == n / 0x100_0000;
    assert n % 0x1_0000 / 0x100 == n / 0x100 % 0x100 && n % 0x1_0000 % 0x100 == n % 0x100;
  }

  lemma NumberBytes(n: u64)
    ensures EncodeItem(UInt(n)) == Number(n)
  {
    hide Be32, Four;
    if 0x1_0000 <= n < 0x1_0000_0000 {
      FourBytes(n);
    } else if n >= 0x1_0000_0000 {
      FourBytes(n / 0x1_0000_0000);
      FourBytes(n % 0x1_0000_0000);
    }
  }

  /** The reasons in the order of their numbers, from zero. */
  const REASONS: seq<CloseReason> := [
    Normal, AuthenticationFailed, BindingMismatch, Stale, Timeout, Oversize, Malformed, SequenceViolation,
    CloseReason.RecordLimit, PeerClosed, BrokerLost, EligibilityLost, CleanupFailed, InternalError]

  lemma ReasonsAreNumbered(k: nat)
    requires k < 14
    ensures |REASONS| == 14 && ReasonToWire(REASONS[k]) == k && ReasonFromWire(k) == Ok(REASONS[k])
  {
  }

  predicate EachIs(items: seq<Item>, parts: seq<seq<byte>>) {
    |items| == |parts| && forall i :: 0 <= i < |items| ==> EncodeItem(items[i]) == parts[i]
  }

  /** A payload is its items' bytes, one after the other. */
  lemma {:induction false} ItemByItem(items: seq<Item>, parts: seq<seq<byte>>)
    requires EachIs(items, parts)
    ensures Encode(items) == Concat(parts)
    decreases |items|
  {
    hide EncodeItem;
    if items != [] {
      forall i | 0 <= i < |items| - 1 ensures EncodeItem(items[1..][i]) == parts[1..][i] {
        assert EncodeItem(items[i + 1]) == parts[i + 1];
      }
      ItemByItem(items[1..], parts[1..]);
    }
  }

  lemma Digits()
    ensures forall n: u64 :: n < 24 ==> EncodeItem(UInt(n)) == [n] && EncodeItem(MapOf(n)) == [0xA0 + n]
  {
    hide EncodeItem;
    forall n: u64 | n < 24 ensures EncodeItem(UInt(n)) == [n] && EncodeItem(MapOf(n)) == [0xA0 + n] {
      Heads(n, []);
    }
  }

  function CloseParts(reason: byte, handoff: Handoff): seq<seq<byte>> {
    [[0xA3], [0], [1], [1], [reason], [2], [if handoff.NotHandedOff? then 0 else 1]]
  }

  lemma CloseBytes(k: nat, handoff: Handoff)
    requires k < |REASONS|
    ensures ClosePayload(REASONS[k], handoff) == Concat(CloseParts(k, handoff))
  {
    hide EncodeItem, Encode, REASONS;
    ReasonsAreNumbered(if k < 14 then k else 0);
    Digits();
    ItemByItem(CloseItems(REASONS[k], handoff), CloseParts(k, handoff));
  }

  function FinishedParts(binding: SessionBinding, role: byte, hash: Bytes32): seq<seq<byte>> {
    [[0xA6], [0], [1], [1], Number(role), [2], [0x50] + binding.leaseId, [3], Number(binding.generation),
     [4], Number(binding.epoch), [5], [0x58, 32] + hash]
  }

  lemma FinishedBytes(binding: SessionBinding, role: byte, hash: Bytes32)
    ensures FinishedPayload(binding, role, hash) == Concat(FinishedParts(binding, role, hash))
  {
    hide EncodeItem, Encode, Number;
    Digits();
    NumberBytes(role);
    NumberBytes(binding.generation);
    NumberBytes(binding.epoch);
    Heads(0, binding.leaseId);
    Heads(0, hash);
    ItemByItem(FinishedItems(binding, role, hash), FinishedParts(binding, role, hash));
  }

  function HeartbeatParts(role: byte, binding: LeaseBinding, counter: u64): seq<seq<byte>> {
    [[0xA5], [0], [role], [1], [0x50] + binding.leaseId, [2], Number(binding.generation), [3], Number(binding.epoch),
     [4], Number(counter)]
  }

  lemma HeartbeatBytes(role: byte, binding: LeaseBinding, counter: u64)
    requires 1 <= role <= 2 && counter > 0
    ensures HeartbeatPayload(role, binding, counter) == Ok(Concat(HeartbeatParts(role, binding, counter)))
  {
    hide EncodeItem, Encode, Number;
    Digits();
    NumberBytes(binding.generation);
    NumberBytes(binding.epoch);
    NumberBytes(counter);
    Heads(0, binding.leaseId);
    ItemByItem(HeartbeatItems(role, binding, counter), HeartbeatParts(role, binding, counter));
  }

  function AckParts(ack: BootstrapAck): seq<seq<byte>> {
    [[0xA6], [0], [1], [1], [0x58, 32] + ack.referenceDigest, [2], [0x50] + ack.leaseId, [3], Number(ack.generation),
     [4], Number(ack.epoch), [5], [0x58, 32] + ack.nkHash]
  }

  lemma AckBytes(ack: BootstrapAck)
    ensures AckPayload(ack) == Concat(AckParts(ack))
  {
    hide EncodeItem, Encode, Number;
    Digits();
    NumberBytes(ack.generation);
    NumberBytes(ack.epoch);
    Heads(0, ack.referenceDigest);
    Heads(0, ack.leaseId);
    Heads(0, ack.nkHash);
    ItemByItem(AckItems(ack), AckParts(ack));
  }

  function M2Parts(binding: BootstrapBinding, secret: Bytes32): seq<seq<byte>> {
    [[0xA7], [0], [1], [1], [0x58, 32] + secret, [2], [0x58, 32] + binding.referenceDigest,
     [3], [0x50] + binding.leaseId, [4], [0x58, 32] + binding.targetNonce, [5], Number(binding.expiryMs),
     [6], [0x58, 32] + binding.artifactDigest]
  }

  lemma M2Bytes(binding: BootstrapBinding, secret: Bytes32)
    ensures M2Payload(binding, secret) == Concat(M2Parts(binding, secret))
  {
    hide EncodeItem, Encode, Number;
    Digits();
    NumberBytes(binding.expiryMs);
    Heads(0, secret);
    Heads(0, binding.referenceDigest);
    Heads(0, binding.leaseId);
    Heads(0, binding.targetNonce);
    Heads(0, binding.artifactDigest);
    ItemByItem(M2Items(binding, secret), M2Parts(binding, secret));
  }

  // ---- The launch descriptor -------------------------------------------

  /** A socket's name, or "127.0.0.1" and a port. */
  function EndpointParts(endpoint: Endpoint): seq<seq<byte>>
    requires ValidEndpoint(endpoint)
  {
    match endpoint
    case Android(name) => [[0xA1], [0], [0x78, |name|] + name]
    case Ios(port) =>
      [[0xA2], [0], [0x69, 0x31, 0x32, 0x37, 0x2E, 0x30, 0x2E, 0x30, 0x2E, 0x31], [1],
       [0x19, port / 0x100, port % 0x100]]
  }

  lemma EndpointBytes(endpoint: Endpoint)
    requires ValidEndpoint(endpoint)
    ensures EachIs(EndpointItems(endpoint), EndpointParts(endpoint))
  {
    hide EncodeItem, Utf8.Valid;
    Digits();
    LoopbackIsText();
    match endpoint {
      case Android(name) => NameHead(name);
      case Ios(port) =>
        HostHead();
        PortHead(port);
    }
  }

  lemma NameHead(name: Utf8Text)
    requires 32 <= |name| <= 96
    ensures EncodeItem(Text(name)) == [0x78, |name|] + name
  {
  }

  lemma HostHead()
    requires Utf8.Valid(LOOPBACK)
    ensures EncodeItem(Text(LOOPBACK)) == [0x69, 0x31, 0x32, 0x37, 0x2E, 0x30, 0x2E, 0x30, 0x2E, 0x31]
  {
    hide Utf8.Valid;
    assert |LOOPBACK| == 9;
  }

  lemma PortHead(port: u16)
    requires port >= 49_152
    ensures EncodeItem(UInt(port)) == [0x19, port / 0x100, port % 0x100]
  {
  }

  function DescriptorFront(d: Descriptor): seq<seq<byte>> {
    [[0xA9], [0], [1], [1], [if d.endpoint.Ios? then 0 else 1], [2], [0x50] + d.binding.leaseId,
     [3], [0x58, 32] + d.binding.targetNonce, [4], [0x58, 32] + d.binding.artifactDigest,
     [5], [0x58, 32] + d.brokerKey, [6]]
  }

  function DescriptorBack(d: Descriptor): seq<seq<byte>> {
    [[7], Number(d.binding.expiryMs), [8], [0x58, 32] + d.binding.referenceDigest]
  }

  function FrontItems(d: Descriptor): seq<Item> {
    [MapOf(9), UInt(0), UInt(1), UInt(1), UInt(if d.endpoint.Ios? then 0 else 1),
     UInt(2), Bytes(d.binding.leaseId), UInt(3), Bytes(d.binding.targetNonce),
     UInt(4), Bytes(d.binding.artifactDigest), UInt(5), Bytes(d.brokerKey), UInt(6)]
  }

  function BackItems(d: Descriptor): seq<Item> {
    [UInt(7), UInt(d.binding.expiryMs), UInt(8), Bytes(d.binding.referenceDigest)]
  }

  lemma FrontBytes(d: Descriptor)
    ensures EachIs(FrontItems(d), DescriptorFront(d))
  {
    hide EncodeItem;
    Digits();
    Heads(0, d.binding.leaseId);
    Heads(0, d.binding.targetNonce);
    Heads(0, d.binding.artifactDigest);
    Heads(0, d.brokerKey);
  }

  lemma BackBytes(d: Descriptor)
    ensures EachIs(BackItems(d), DescriptorBack(d))
  {
    hide EncodeItem, Number;
    Digits();
    NumberBytes(d.binding.expiryMs);
    Heads(0, d.binding.referenceDigest);
  }

  lemma EachAppend(a: seq<Item>, b: seq<Item>, x: seq<seq<byte>>, y: seq<seq<byte>>)
    requires EachIs(a, x) && EachIs(b, y)
    ensures EachIs(a + b, x + y)
  {
    hide EncodeItem;
  }

  /** On a device with a socket name, and on one with a port of the loopback address. */
  lemma DescriptorBytes(d: Descriptor)
    requires ValidDescriptor(d)
    ensures EncodeDescriptor(d) == Concat(DescriptorFront(d) + EndpointParts(d.endpoint) + DescriptorBack(d))
  {
    hide EncodeItem, Encode, Utf8.Valid, EachIs, EndpointItems, EndpointParts, DescriptorFront, DescriptorBack;
    FrontBytes(d);
    EndpointBytes(d.endpoint);
    BackBytes(d);
    EachAppend(FrontItems(d), EndpointItems(d.endpoint), DescriptorFront(d), EndpointParts(d.endpoint));
    EachAppend(FrontItems(d) + EndpointItems(d.endpoint), BackItems(d),
               DescriptorFront(d) + EndpointParts(d.endpoint), DescriptorBack(d));
    ItemByItem(FrontItems(d) + EndpointItems(d.endpoint) + BackItems(d),
               DescriptorFront(d) + EndpointParts(d.endpoint) + DescriptorBack(d));
  }

  // ---- Records and envelopes -------------------------------------------

  /** The kinds in the order of their numbers, from one. */
  const KINDS: seq<Records.RecordKind> := [
    Records.Application, Records.Finished, Records.Heartbeat, Records.RecordKind.Close]

  lemma KindsAreNumbered(k: nat)
    requires k < 4
    ensures |KINDS| == 4 && Records.KindToWire(KINDS[k]) == k + 1 && Records.KindFromWire(k + 1) == Ok(KINDS[k])
  {
  }

  function RecordHead(kind: byte, start: bool, end: bool, totalLen: u32, offset: u32): seq<byte> {
    [kind, (if start then 1 else 0) + (if end then 2 else 0), 0, 0] + Four(totalLen) + Four(offset)
  }

  /** The kind, the flags for the first and the last record of a message, two zeros,
      the length of the whole message and the place in it, and the data. */
  lemma RecordBytes(k: nat, start: bool, end: bool, totalLen: u32, offset: u32, data: seq<byte>)
    requires k < |KINDS| && |data| <= RECORD_DATA_MAX
    ensures Records.EncodeRecord(Records.Record(KINDS[k], start, end, totalLen, offset, data))
         == Ok(RecordHead(k + 1, start, end, totalLen, offset) + data)
  {
    hide Be32, Four;
    KindsAreNumbered(if k < 4 then k else 0);
    FourBytes(totalLen);
    FourBytes(offset);
  }

  /** An envelope is its length in two bytes and its frame. */
  lemma EnvelopeBytes(frame: seq<byte>)
    requires 0 < |frame| <= 65_535
    ensures Framing.EncodeOuter(frame) == Ok([|frame| / 0x100, |frame| % 0x100] + frame)
  {
  }
}
