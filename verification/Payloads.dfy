/** The CBOR payloads of the transport: Close, Finished, Heartbeat, the
    bootstrap messages and the launch descriptor.  Every parser re-encodes what
    it read and compares, so it must accept exactly the encoder's image. */
module Payloads {
  import opened Common
  import opened Terms
  import opened Cbor
  import Utf8

  type Bytes16 = b: seq<byte> | |b| == 16 witness seq(16, _ => 0)
  type Bytes32 = b: seq<byte> | |b| == 32 witness seq(32, _ => 0)

  const JSON_SAFE_MAX: u64 := 9_007_199_254_740_991

  predicate ValidGeneration(value: u64) {
    1 <= value <= JSON_SAFE_MAX
  }

  datatype SessionBinding = SessionBinding(leaseId: Bytes16, generation: u64, epoch: u64, nkHash: Bytes32)

  datatype LeaseBinding = LeaseBinding(leaseId: Bytes16, generation: u64, epoch: u64)

  datatype BootstrapBinding = BootstrapBinding(
    referenceDigest: Bytes32, leaseId: Bytes16, targetNonce: Bytes32, artifactDigest: Bytes32, expiryMs: u64)

  datatype BootstrapAck = BootstrapAck(
    referenceDigest: Bytes32, leaseId: Bytes16, generation: u64, epoch: u64, nkHash: Bytes32)

  // ---- Close ----------------------------------------------------------

  function CloseItems(reason: CloseReason, handoff: Handoff): seq<Item> {
    [MapOf(3), UInt(0), UInt(1), UInt(1), UInt(ReasonToWire(reason)), UInt(2), UInt(HandoffToWire(handoff))]
  }

  function ClosePayload(reason: CloseReason, handoff: Handoff): seq<byte> {
    Encode(CloseItems(reason, handoff))
  }

  function ParseClose(bytes: seq<byte>): (r: Result<(CloseReason, Handoff), CloseReason>)
    ensures r.Err? ==> r.error == Malformed
  {
    var s :- ExpectMap(bytes, 3);
    var s :- ExpectU8(s, 0);
    var s :- ExpectU8(s, 1);
    var s :- ExpectU8(s, 1);
    var (wire, s) :- ReadU8(s);
    var reason :- ReasonFromWire(wire);
    var s :- ExpectU8(s, 2);
    var (h, s) :- ReadU8(s);
    var handoff :- HandoffFromWire(h);
    if s != [] || ClosePayload(reason, handoff) != bytes then Err(Malformed) else Ok((reason, handoff))
  }

  const CLOSE_LEN := 7

  lemma CloseReads(reason: CloseReason, handoff: Handoff)
    ensures ParseClose(ClosePayload(reason, handoff)) == Ok((reason, handoff))
  {
    hide Cbor.Encode, Cbor.After, Cbor.EncodeItem, Cbor.ReadHead, Cbor.Head, Cbor.ReadU8, Cbor.ReadU64,
         Cbor.ReadBytes, Cbor.ExpectMap;
    hide Terms.ReasonFromWire, Terms.ReasonToWire, Terms.HandoffFromWire, Terms.HandoffToWire;
    var items := CloseItems(reason, handoff);
    AfterEnds(items);
    WireInverse(reason, handoff);
    ReadsItem(items, 0);
    ReadsItem(items, 1);
    ReadsItem(items, 2);
    ReadsItem(items, 3);
    ReadsItem(items, 4);
    ReadsItem(items, 5);
    ReadsItem(items, 6);
  }

  lemma WireInverse(reason: CloseReason, handoff: Handoff)
    ensures ReasonFromWire(ReasonToWire(reason)) == Ok(reason)
    ensures HandoffFromWire(HandoffToWire(handoff)) == Ok(handoff)
  {
  }

  lemma CloseExact(bytes: seq<byte>, reason: CloseReason, handoff: Handoff)
    ensures ParseClose(bytes) == Ok((reason, handoff)) <==> bytes == ClosePayload(reason, handoff)
  {
    hide Cbor.Encode, Cbor.ReadU8, Cbor.ReadU16, Cbor.ReadU64, Cbor.ReadBytes, Cbor.ReadFixed, Cbor.ReadText,
         Cbor.ExpectU8, Cbor.ExpectMap;
    CloseReads(reason, handoff);
  }

  lemma CloseLength(reason: CloseReason, handoff: Handoff)
    ensures |ClosePayload(reason, handoff)| == CLOSE_LEN
  {
    var items := CloseItems(reason, handoff);
    assert items[1..][1..][1..][1..][1..][1..][1..] == [];
  }

  // ---- Finished -------------------------------------------------------

  function FinishedItems(binding: SessionBinding, role: byte, hash: Bytes32): seq<Item> {
    [MapOf(6), UInt(0), UInt(1), UInt(1), UInt(role), UInt(2), Bytes(binding.leaseId),
     UInt(3), UInt(binding.generation), UInt(4), UInt(binding.epoch), UInt(5), Bytes(hash)]
  }

  function FinishedPayload(binding: SessionBinding, role: byte, hash: Bytes32): seq<byte> {
    Encode(FinishedItems(binding, role, hash))
  }

  function ParseFinished(bytes: seq<byte>, binding: SessionBinding, hash: Bytes32): (r: Result<byte, CloseReason>)
    ensures r.Err? ==> r.error == Malformed || r.error == BindingMismatch
  {
    var s :- ExpectMap(bytes, 6);
    var s :- ExpectU8(s, 0);
    var s :- ExpectU8(s, 1);
    var s :- ExpectU8(s, 1);
    var (role, s) :- ReadU8(s);
    var s :- ExpectU8(s, 2);
    var (lease, s) :- ReadFixed(s, 16);
    if lease != binding.leaseId then Err(BindingMismatch) else
    var s :- ExpectU8(s, 3);
    var (generation, s) :- ReadU64(s);
    if generation != binding.generation then Err(BindingMismatch) else
    var s :- ExpectU8(s, 4);
    var (epoch, s) :- ReadU64(s);
    if epoch != binding.epoch then Err(BindingMismatch) else
    var s :- ExpectU8(s, 5);
    var (received, s) :- ReadFixed(s, 32);
    if received != hash then Err(BindingMismatch) else
    if s != [] || FinishedPayload(binding, role, hash) != bytes then Err(Malformed)
    else if role <= 1 then Ok(role) else Err(Malformed)
  }

  lemma FinishedReads(binding: SessionBinding, role: byte, hash: Bytes32)
    requires role <= 1
    ensures ParseFinished(FinishedPayload(binding, role, hash), binding, hash) == Ok(role)
  {
    hide Cbor.Encode, Cbor.After, Cbor.EncodeItem, Cbor.ReadHead, Cbor.Head, Cbor.ReadU8, Cbor.ReadU64,
         Cbor.ReadBytes, Cbor.ExpectMap;
    var items := FinishedItems(binding, role, hash);
    AfterEnds(items);
    ReadsItem(items, 0);
    ReadsItem(items, 1);
    ReadsItem(items, 2);
    ReadsItem(items, 3);
    ReadsItem(items, 4);
    ReadsItem(items, 5);
    ReadsItem(items, 6);
    ReadsItem(items, 7);
    ReadsItem(items, 8);
    ReadsItem(items, 9);
    ReadsItem(items, 10);
    ReadsItem(items, 11);
    ReadsItem(items, 12);
  }

  lemma FinishedExact(bytes: seq<byte>, binding: SessionBinding, hash: Bytes32, role: byte)
    ensures ParseFinished(bytes, binding, hash) == Ok(role) <==>
            role <= 1 && bytes == FinishedPayload(binding, role, hash)
  {
    hide FinishedItems, FinishedPayload;
    hide Cbor.Encode, Cbor.ReadU8, Cbor.ReadU16, Cbor.ReadU64, Cbor.ReadBytes, Cbor.ReadFixed, Cbor.ReadText,
         Cbor.ExpectU8, Cbor.ExpectMap;
    if role <= 1 {
      FinishedReads(binding, role, hash);
    }
  }

  lemma FinishedLength(binding: SessionBinding, role: byte, hash: Bytes32)
    ensures |FinishedPayload(binding, role, hash)| <= 200
  {
    hide Cbor.Head, Cbor.EncodeItem, Cbor.Encode, Cbor.After;
    var items := FinishedItems(binding, role, hash);
    AfterEnds(items);
    SmallItem(items, 0);
    SmallItem(items, 1);
    SmallItem(items, 2);
    SmallItem(items, 3);
    SmallItem(items, 4);
    SmallItem(items, 5);
    SmallItem(items, 6);
    SmallItem(items, 7);
    SmallItem(items, 8);
    SmallItem(items, 9);
    SmallItem(items, 10);
    SmallItem(items, 11);
    SmallItem(items, 12);
  }

  lemma SmallItem(items: seq<Item>, k: nat)
    requires k < |items|
    ensures |After(items, k)| <= |After(items, k + 1)| + 9 + if items[k].Bytes? then |items[k].bytes|
                                                             else if items[k].Text? then |items[k].text| else 0
  {
    assert items[k..][1..] == items[k + 1..];
  }

  // ---- Heartbeat ------------------------------------------------------

  function HeartbeatItems(role: byte, binding: LeaseBinding, counter: u64): seq<Item> {
    [MapOf(5), UInt(0), UInt(role), UInt(1), Bytes(binding.leaseId), UInt(2), UInt(binding.generation),
     UInt(3), UInt(binding.epoch), UInt(4), UInt(counter)]
  }

  function HeartbeatPayload(role: byte, binding: LeaseBinding, counter: u64): Result<seq<byte>, CloseReason> {
    if (role != 1 && role != 2) || counter == 0 then Err(SequenceViolation)
    else Ok(Encode(HeartbeatItems(role, binding, counter)))
  }

  function ParseHeartbeat(bytes: seq<byte>, role: byte, binding: LeaseBinding): Result<u64, CloseReason> {
    var s :- ExpectMap(bytes, 5);
    var s :- ExpectU8(s, 0);
    var s :- ExpectU8(s, role);
    var s :- ExpectU8(s, 1);
    var (lease, s) :- ReadFixed(s, 16);
    var s :- ExpectU8(s, 2);
    var (generation, s) :- ReadU64(s);
    var s :- ExpectU8(s, 3);
    var (epoch, s) :- ReadU64(s);
    var s :- ExpectU8(s, 4);
    var (counter, s) :- ReadU64(s);
    if lease != binding.leaseId || generation != binding.generation || epoch != binding.epoch
    then Err(BindingMismatch)
    else if counter == 0 || s != [] then Err(Malformed)
    else
      var canonical :- HeartbeatPayload(role, binding, counter);
      if canonical != bytes then Err(Malformed) else Ok(counter)
  }

  lemma HeartbeatReads(role: byte, binding: LeaseBinding, counter: u64)
    requires 1 <= role <= 2 && counter > 0
    ensures ParseHeartbeat(Encode(HeartbeatItems(role, binding, counter)), role, binding) == Ok(counter)
  {
    hide Cbor.Encode, Cbor.After, Cbor.EncodeItem, Cbor.ReadHead, Cbor.Head, Cbor.ReadU8, Cbor.ReadU64,
         Cbor.ReadBytes, Cbor.ExpectMap;
    var items := HeartbeatItems(role, binding, counter);
    AfterEnds(items);
    ReadsItem(items, 0);
    ReadsItem(items, 1);
    ReadsItem(items, 2);
    ReadsItem(items, 3);
    ReadsItem(items, 4);
    ReadsItem(items, 5);
    ReadsItem(items, 6);
    ReadsItem(items, 7);
    ReadsItem(items, 8);
    ReadsItem(items, 9);
    ReadsItem(items, 10);
  }

  lemma HeartbeatExact(bytes: seq<byte>, role: byte, binding: LeaseBinding, counter: u64)
    ensures ParseHeartbeat(bytes, role, binding) == Ok(counter) <==>
            HeartbeatPayload(role, binding, counter) == Ok(bytes)
  {
    hide HeartbeatItems;
    hide Cbor.Encode, Cbor.ReadU8, Cbor.ReadU16, Cbor.ReadU64, Cbor.ReadBytes, Cbor.ReadFixed, Cbor.ReadText,
         Cbor.ExpectU8, Cbor.ExpectMap;
    if 1 <= role <= 2 && counter > 0 {
      HeartbeatReads(role, binding, counter);
    }
  }

  lemma HeartbeatLength(role: byte, binding: LeaseBinding, counter: u64)
    ensures |Encode(HeartbeatItems(role, binding, counter))| <= 200
  {
    hide Cbor.Head, Cbor.EncodeItem, Cbor.Encode, Cbor.After;
    var items := HeartbeatItems(role, binding, counter);
    AfterEnds(items);
    SmallItem(items, 0);
    SmallItem(items, 1);
    SmallItem(items, 2);
    SmallItem(items, 3);
    SmallItem(items, 4);
    SmallItem(items, 5);
    SmallItem(items, 6);
    SmallItem(items, 7);
    SmallItem(items, 8);
    SmallItem(items, 9);
    SmallItem(items, 10);
  }

  // ---- Bootstrap acknowledgement --------------------------------------

  function AckItems(ack: BootstrapAck): seq<Item> {
    [MapOf(6), UInt(0), UInt(1), UInt(1), Bytes(ack.referenceDigest), UInt(2), Bytes(ack.leaseId),
     UInt(3), UInt(ack.generation), UInt(4), UInt(ack.epoch), UInt(5), Bytes(ack.nkHash)]
  }

  function AckPayload(ack: BootstrapAck): seq<byte> {
    Encode(AckItems(ack))
  }

  function ParseAck(bytes: seq<byte>, binding: BootstrapBinding, hash: Bytes32): Result<BootstrapAck, CloseReason> {
    var s :- ExpectMap(bytes, 6);
    var s :- ExpectU8(s, 0);
    var s :- ExpectU8(s, 1);
    var s :- ExpectU8(s, 1);
    var (digest, s) :- ReadFixed(s, 32);
    var s :- ExpectU8(s, 2);
    var (lease, s) :- ReadFixed(s, 16);
    var s :- ExpectU8(s, 3);
    var (generation, s) :- ReadU64(s);
    var s :- ExpectU8(s, 4);
    var (epoch, s) :- ReadU64(s);
    var s :- ExpectU8(s, 5);
    var (received, s) :- ReadFixed(s, 32);
    if s != [] then Err(Malformed)
    else if
      || digest != binding.referenceDigest || lease != binding.leaseId || received != hash
      || !ValidGeneration(generation) || epoch != 1
    then Err(BindingMismatch)
    else
      var ack := BootstrapAck(binding.referenceDigest, binding.leaseId, generation, epoch, hash);
      if AckPayload(ack) != bytes then Err(Malformed) else Ok(ack)
  }

  /** The acknowledgements the Broker is waiting for. */
  predicate Acknowledges(ack: BootstrapAck, binding: BootstrapBinding, hash: Bytes32) {
    && ack.referenceDigest == binding.referenceDigest
    && ack.leaseId == binding.leaseId
    && ack.nkHash == hash
    && ValidGeneration(ack.generation)
    && ack.epoch == 1
  }

  lemma AckLength(ack: BootstrapAck)
    ensures |AckPayload(ack)| <= 200
  {
    hide Cbor.Head, Cbor.EncodeItem, Cbor.Encode, Cbor.After;
    var items := AckItems(ack);
    AfterEnds(items);
    SmallItem(items, 0);
    SmallItem(items, 1);
    SmallItem(items, 2);
    SmallItem(items, 3);
    SmallItem(items, 4);
    SmallItem(items, 5);
    SmallItem(items, 6);
    SmallItem(items, 7);
    SmallItem(items, 8);
    SmallItem(items, 9);
    SmallItem(items, 10);
    SmallItem(items, 11);
    SmallItem(items, 12);
  }

  lemma AckReads(ack: BootstrapAck, binding: BootstrapBinding, hash: Bytes32)
    requires Acknowledges(ack, binding, hash)
    ensures ParseAck(AckPayload(ack), binding, hash) == Ok(ack)
  {
    hide Cbor.Encode, Cbor.After, Cbor.EncodeItem, Cbor.ReadHead, Cbor.Head, Cbor.ReadU8, Cbor.ReadU64,
         Cbor.ReadBytes, Cbor.ExpectMap;
    var items := AckItems(ack);
    AfterEnds(items);
    ReadsItem(items, 0);
    ReadsItem(items, 1);
    ReadsItem(items, 2);
    ReadsItem(items, 3);
    ReadsItem(items, 4);
    ReadsItem(items, 5);
    ReadsItem(items, 6);
    ReadsItem(items, 7);
    ReadsItem(items, 8);
    ReadsItem(items, 9);
    ReadsItem(items, 10);
    ReadsItem(items, 11);
    ReadsItem(items, 12);
  }

  lemma AckExact(bytes: seq<byte>, binding: BootstrapBinding, hash: Bytes32, ack: BootstrapAck)
    ensures ParseAck(bytes, binding, hash) == Ok(ack) <==>
            Acknowledges(ack, binding, hash) && bytes == AckPayload(ack)
  {
    hide AckItems, AckPayload;
    hide Cbor.Encode, Cbor.ReadU8, Cbor.ReadU16, Cbor.ReadU64, Cbor.ReadBytes, Cbor.ReadFixed, Cbor.ReadText,
         Cbor.ExpectU8, Cbor.ExpectMap;
    if Acknowledges(ack, binding, hash) {
      AckReads(ack, binding, hash);
    }
  }

  // ---- Bootstrap message 2 --------------------------------------------

  function M2Items(binding: BootstrapBinding, secret: Bytes32): seq<Item> {
    [MapOf(7), UInt(0), UInt(1), UInt(1), Bytes(secret), UInt(2), Bytes(binding.referenceDigest),
     UInt(3), Bytes(binding.leaseId), UInt(4), Bytes(binding.targetNonce), UInt(5), UInt(binding.expiryMs),
     UInt(6), Bytes(binding.artifactDigest)]
  }

  function M2Payload(binding: BootstrapBinding, secret: Bytes32): seq<byte> {
    Encode(M2Items(binding, secret))
  }

  function ParseM2(bytes: seq<byte>, binding: BootstrapBinding): Result<Bytes32, CloseReason> {
    var s :- ExpectMap(bytes, 7);
    var s :- ExpectU8(s, 0);
    var (version, s) :- ReadU8(s);
    var s :- ExpectU8(s, 1);
    var (secret, s) :- ReadFixed(s, 32);
    var s :- ExpectU8(s, 2);
    var (digest, s) :- ReadFixed(s, 32);
    var s :- ExpectU8(s, 3);
    var (lease, s) :- ReadFixed(s, 16);
    var s :- ExpectU8(s, 4);
    var (nonce, s) :- ReadFixed(s, 32);
    var s :- ExpectU8(s, 5);
    var (expiry, s) :- ReadU64(s);
    var s :- ExpectU8(s, 6);
    var (artifact, s) :- ReadFixed(s, 32);
    if s != [] || version != 1 || |secret| != 32 then Err(Malformed)
    else if
      || digest != binding.referenceDigest || lease != binding.leaseId || nonce != binding.targetNonce
      || expiry != binding.expiryMs || artifact != binding.artifactDigest
    then Err(BindingMismatch)
    else if M2Payload(binding, secret) != bytes then Err(Malformed)
    else Ok(secret)
  }

  lemma M2Reads(binding: BootstrapBinding, secret: Bytes32)
    ensures ParseM2(M2Payload(binding, secret), binding) == Ok(secret)
  {
    hide Cbor.Encode, Cbor.After, Cbor.EncodeItem, Cbor.ReadHead, Cbor.Head, Cbor.ReadU8, Cbor.ReadU64,
         Cbor.ReadBytes, Cbor.ExpectMap;
    var items := M2Items(binding, secret);
    AfterEnds(items);
    ReadsItem(items, 0);
    ReadsItem(items, 1);
    ReadsItem(items, 2);
    ReadsItem(items, 3);
    ReadsItem(items, 4);
    ReadsItem(items, 5);
    ReadsItem(items, 6);
    ReadsItem(items, 7);
    ReadsItem(items, 8);
    ReadsItem(items, 9);
    ReadsItem(items, 10);
    ReadsItem(items, 11);
    ReadsItem(items, 12);
    ReadsItem(items, 13);
    ReadsItem(items, 14);
  }

  lemma M2Exact(bytes: seq<byte>, binding: BootstrapBinding, secret: Bytes32)
    ensures ParseM2(bytes, binding) == Ok(secret) <==> bytes == M2Payload(binding, secret)
  {
    hide M2Items, M2Payload;
    hide Cbor.Encode, Cbor.ReadU8, Cbor.ReadU16, Cbor.ReadU64, Cbor.ReadBytes, Cbor.ReadFixed, Cbor.ReadText,
         Cbor.ExpectU8, Cbor.ExpectMap;
    M2Reads(binding, secret);
  }

  // ---- Launch descriptor ----------------------------------------------

  const DESCRIPTOR_MAX := 8_192

  datatype Endpoint = Ios(port: u16) | Android(name: seq<byte>)

  datatype Descriptor = Descriptor(binding: BootstrapBinding, brokerKey: Bytes32, endpoint: Endpoint)

  predicate ValidEndpoint(endpoint: Endpoint) {
    match endpoint
    case Ios(port) => port >= 49_152
    case Android(name) => 32 <= |name| <= 96 && Utf8.Valid(name) && 0 !in name
  }

  predicate ValidDescriptor(d: Descriptor) {
    ValidEndpoint(d.endpoint) && ValidGeneration(d.binding.expiryMs)
  }

  const LOOPBACK: seq<byte> := [0x31, 0x32, 0x37, 0x2E, 0x30, 0x2E, 0x30, 0x2E, 0x31]

  lemma LoopbackIsText()
    ensures Utf8.Valid(LOOPBACK)
  {
    hide Utf8.Valid, Utf8.ScalarLength;
    AsciiIsText(LOOPBACK);
  }

  lemma {:induction false} AsciiIsText(s: seq<byte>)
    requires forall i :: 0 <= i < |s| ==> s[i] < 0x80
    ensures Utf8.Valid(s)
    decreases |s|
  {
    if s != [] {
      AsciiIsText(s[1..]);
    }
  }

  function EndpointItems(endpoint: Endpoint): seq<Item>
    requires ValidEndpoint(endpoint)
  {
    LoopbackIsText();
    match endpoint
    case Ios(port) => [MapOf(2), UInt(0), Text(LOOPBACK), UInt(1), UInt(port)]
    case Android(name) => [MapOf(1), UInt(0), Text(name)]
  }

  function DescriptorItems(d: Descriptor): seq<Item>
    requires ValidDescriptor(d)
  {
    [MapOf(9), UInt(0), UInt(1), UInt(1), UInt(if d.endpoint.Ios? then 0 else 1),
     UInt(2), Bytes(d.binding.leaseId), UInt(3), Bytes(d.binding.targetNonce),
     UInt(4), Bytes(d.binding.artifactDigest), UInt(5), Bytes(d.brokerKey), UInt(6)]
    + EndpointItems(d.endpoint)
    + [UInt(7), UInt(d.binding.expiryMs), UInt(8), Bytes(d.binding.referenceDigest)]
  }

  function EncodeDescriptor(d: Descriptor): seq<byte>
    requires ValidDescriptor(d)
  {
    Encode(DescriptorItems(d))
  }

  /** Every parse failure is reported as an invalid argument; the reason carried here is not used. */
  function ParseEndpoint(s: seq<byte>, platform: byte): (r: Result<(Endpoint, seq<byte>), CloseReason>)
    ensures r.Ok? ==> ValidEndpoint(r.value.0)
  {
    if platform == 0 then
      var s :- ExpectMap(s, 2);
      var s :- ExpectU8(s, 0);
      var (host, s) :- ReadText(s);
      if host != LOOPBACK then Err(Malformed) else
      var s :- ExpectU8(s, 1);
      var (port, s) :- ReadU16(s);
      if port < 49_152 then Err(Malformed) else Ok((Ios(port), s))
    else if platform == 1 then
      var s :- ExpectMap(s, 1);
      var s :- ExpectU8(s, 0);
      var (name, s) :- ReadText(s);
      if |name| < 32 || |name| > 96 || 0 in name then Err(Malformed) else Ok((Android(name), s))
    else Err(Malformed)
  }

  function ParseDescriptor(bytes: seq<byte>): Result<Descriptor, CloseReason> {
    if bytes == [] || |bytes| > DESCRIPTOR_MAX then Err(Malformed) else
    var s :- ExpectMap(bytes, 9);
    var s :- ExpectU8(s, 0);
    var s :- ExpectU8(s, 1);
    var s :- ExpectU8(s, 1);
    var (platform, s) :- ReadU8(s);
    if platform > 1 then Err(Malformed) else
    var s :- ExpectU8(s, 2);
    var (lease, s) :- ReadFixed(s, 16);
    var s :- ExpectU8(s, 3);
    var (nonce, s) :- ReadFixed(s, 32);
    var s :- ExpectU8(s, 4);
    var (artifact, s) :- ReadFixed(s, 32);
    var s :- ExpectU8(s, 5);
    var (key, s) :- ReadFixed(s, 32);
    var s :- ExpectU8(s, 6);
    var (endpoint, s) :- ParseEndpoint(s, platform);
    var s :- ExpectU8(s, 7);
    var (expiry, s) :- ReadU64(s);
    if !ValidGeneration(expiry) then Err(Malformed) else
    var s :- ExpectU8(s, 8);
    var (digest, s) :- ReadFixed(s, 32);
    if s != [] then Err(Malformed) else
    var parsed := Descriptor(BootstrapBinding(digest, lease, nonce, artifact, expiry), key, endpoint);
    if EncodeDescriptor(parsed) != bytes then Err(Malformed) else Ok(parsed)
  }

  lemma EndpointReads(items: seq<Item>, k: nat, endpoint: Endpoint)
    requires ValidEndpoint(endpoint)
    requires k + |EndpointItems(endpoint)| <= |items|
    requires forall i :: 0 <= i < |EndpointItems(endpoint)| ==> items[k + i] == EndpointItems(endpoint)[i]
    ensures ParseEndpoint(After(items, k), if endpoint.Ios? then 0 else 1) ==
            Ok((endpoint, After(items, k + |EndpointItems(endpoint)|)))
  {
    hide Utf8.Valid, LOOPBACK;
    hide Cbor.Encode, Cbor.After, Cbor.EncodeItem, Cbor.ReadHead, Cbor.Head, Cbor.ReadU8, Cbor.ReadU64,
         Cbor.ReadBytes, Cbor.ExpectMap, Cbor.ReadText, Cbor.ReadU16;
    var own := EndpointItems(endpoint);
    assert items[k] == own[0] && items[k + 1] == own[1] && items[k + 2] == own[2];
    assert endpoint.Ios? ==> items[k + 3] == own[3] && items[k + 4] == own[4];
    LoopbackIsText();
    ReadsItem(items, k);
    ReadsItem(items, k + 1);
    ReadsItem(items, k + 2);
    if endpoint.Ios? {
      ReadsItem(items, k + 3);
      ReadsItem(items, k + 4);
    }
  }

  lemma DescriptorLayout(d: Descriptor)
    requires ValidDescriptor(d)
    ensures var items := DescriptorItems(d);
            var own := EndpointItems(d.endpoint);
            var k := 14 + |own|;
            && |items| == k + 4
            && items[0] == MapOf(9) && items[1] == UInt(0) && items[2] == UInt(1) && items[3] == UInt(1)
            && items[4] == UInt(if d.endpoint.Ios? then 0 else 1)
            && items[5] == UInt(2) && items[6] == Bytes(d.binding.leaseId)
            && items[7] == UInt(3) && items[8] == Bytes(d.binding.targetNonce)
            && items[9] == UInt(4) && items[10] == Bytes(d.binding.artifactDigest)
            && items[11] == UInt(5) && items[12] == Bytes(d.brokerKey) && items[13] == UInt(6)
            && (forall i :: 0 <= i < |own| ==> items[14 + i] == own[i])
            && items[k] == UInt(7) && items[k + 1] == UInt(d.binding.expiryMs)
            && items[k + 2] == UInt(8) && items[k + 3] == Bytes(d.binding.referenceDigest)
    ensures EncodeDescriptor(d) != []
  {
    assert |EncodeItem(DescriptorItems(d)[0])| > 0;
  }

  lemma DescriptorReads(d: Descriptor)
    requires ValidDescriptor(d)
    requires |EncodeDescriptor(d)| <= DESCRIPTOR_MAX
    ensures ParseDescriptor(EncodeDescriptor(d)) == Ok(d)
  {
    hide Utf8.Valid, EndpointItems, ParseEndpoint, DescriptorItems;
    hide Cbor.Encode, Cbor.After, Cbor.EncodeItem, Cbor.ReadHead, Cbor.Head, Cbor.ReadU8, Cbor.ReadU64,
         Cbor.ReadBytes, Cbor.ExpectMap;
    var items := DescriptorItems(d);
    var k := 14 + |EndpointItems(d.endpoint)|;
    DescriptorLayout(d);
    AfterEnds(items);
    EndpointReads(items, 14, d.endpoint);
    ReadsItem(items, 0);
    ReadsItem(items, 1);
    ReadsItem(items, 2);
    ReadsItem(items, 3);
    ReadsItem(items, 4);
    ReadsItem(items, 5);
    ReadsItem(items, 6);
    ReadsItem(items, 7);
    ReadsItem(items, 8);
    ReadsItem(items, 9);
    ReadsItem(items, 10);
    ReadsItem(items, 11);
    ReadsItem(items, 12);
    ReadsItem(items, 13);
    ReadsItem(items, k);
    ReadsItem(items, k + 1);
    ReadsItem(items, k + 2);
    ReadsItem(items, k + 3);
  }

  lemma DescriptorExact(bytes: seq<byte>, d: Descriptor)
    ensures ParseDescriptor(bytes) == Ok(d) <==>
            ValidDescriptor(d) && |bytes| <= DESCRIPTOR_MAX && bytes == EncodeDescriptor(d)
  {
    hide DescriptorItems, EncodeDescriptor, ParseEndpoint;
    hide Cbor.Encode, Cbor.ReadU8, Cbor.ReadU16, Cbor.ReadU64, Cbor.ReadBytes, Cbor.ReadFixed, Cbor.ReadText,
         Cbor.ExpectU8, Cbor.ExpectMap;
    if ValidDescriptor(d) && |bytes| <= DESCRIPTOR_MAX && bytes == EncodeDescriptor(d) {
      DescriptorReads(d);
    }
  }
}
