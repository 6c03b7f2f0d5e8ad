/** Messages that are well formed but meant for somebody else: they are told apart
    from garbage, by their own reason. */
module Mismatches {
  import opened Common
  import opened Terms
  import opened Cbor
  import opened Payloads

  /** A Finished of another lease, generation, epoch or handshake. */
  lemma FinishedElsewhere(own: SessionBinding, hash: Bytes32, other: SessionBinding, role: byte, theirs: Bytes32)
    requires (own.leaseId, own.generation, own.epoch, hash) != (other.leaseId, other.generation, other.epoch, theirs)
    ensures ParseFinished(FinishedPayload(other, role, theirs), own, hash) == Err(BindingMismatch)
  {
    hide Cbor.Encode, Cbor.After, Cbor.EncodeItem, Cbor.ReadHead, Cbor.Head, Cbor.ReadU8, Cbor.ReadU64,
         Cbor.ReadBytes, Cbor.ExpectMap;
    var items := FinishedItems(other, role, theirs);
    assert FinishedPayload(other, role, theirs) == Encode(items);
    hide FinishedPayload;
    AfterEnds(items);
    ReadsItem(items, 0);
    ReadsItem(items, 1);
    ReadsItem(items, 2);
    ReadsItem(items, 3);
    ReadsItem(items, 4);
    ReadsItem(items, 5);
    ReadsItem(items, 6);
    ReadsItem(items, 7);
    ReadsItem(items, 8);
    ReadsItem(items, 9);
    ReadsItem(items, 10);
    ReadsItem(items, 11);
    ReadsItem(items, 12);
  }

  /** A heartbeat of another lease, generation or epoch. */
  lemma HeartbeatElsewhere(own: LeaseBinding, other: LeaseBinding, role: byte, counter: u64)
    requires own != other && 1 <= role <= 2 && counter > 0
    ensures ParseHeartbeat(HeartbeatPayload(role, other, counter).value, role, own) == Err(BindingMismatch)
  {
    hide Cbor.Encode, Cbor.After, Cbor.EncodeItem, Cbor.ReadHead, Cbor.Head, Cbor.ReadU8, Cbor.ReadU64,
         Cbor.ReadBytes, Cbor.ExpectMap;
    var items := HeartbeatItems(role, other, counter);
    AfterEnds(items);
    ReadsItem(items, 0);
    ReadsItem(items, 1);
    ReadsItem(items, 2);
    ReadsItem(items, 3);
    ReadsItem(items, 4);
    ReadsItem(items, 5);
    ReadsItem(items, 6);
    ReadsItem(items, 7);
    ReadsItem(items, 8);
    ReadsItem(items, 9);
    ReadsItem(items, 10);
  }

  /** A heartbeat of the other direction is not one at all. */
  lemma HeartbeatReversed(own: LeaseBinding, other: LeaseBinding, role: byte, counter: u64)
    requires 1 <= role <= 2 && counter > 0
    ensures ParseHeartbeat(HeartbeatPayload(role, other, counter).value, 3 - role, own) == Err(Malformed)
  {
    hide Cbor.Encode, Cbor.After, Cbor.EncodeItem, Cbor.ReadHead, Cbor.Head, Cbor.ReadU8, Cbor.ReadU64,
         Cbor.ReadBytes, Cbor.ExpectMap;
    var items := HeartbeatItems(role, other, counter);
    AfterEnds(items);
    ReadsItem(items, 0);
    ReadsItem(items, 1);
    ReadsItem(items, 2);
  }

  /** An acknowledgement the Broker is not waiting for. */
  lemma AckElsewhere(ack: BootstrapAck, binding: BootstrapBinding, hash: Bytes32)
    requires !Acknowledges(ack, binding, hash)
    ensures ParseAck(AckPayload(ack), binding, hash) == Err(BindingMismatch)
  {
    hide Cbor.Encode, Cbor.After, Cbor.EncodeItem, Cbor.ReadHead, Cbor.Head, Cbor.ReadU8, Cbor.ReadU64,
         Cbor.ReadBytes, Cbor.ExpectMap;
    var items := AckItems(ack);
    assert AckPayload(ack) == Encode(items);
    hide AckPayload;
    AfterEnds(items);
    ReadsItem(items, 0);
    ReadsItem(items, 1);
    ReadsItem(items, 2);
    ReadsItem(items, 3);
    ReadsItem(items, 4);
    ReadsItem(items, 5);
    ReadsItem(items, 6);
    ReadsItem(items, 7);
    ReadsItem(items, 8);
    ReadsItem(items, 9);
    ReadsItem(items, 10);
    ReadsItem(items, 11);
    ReadsItem(items, 12);
  }

  /** A second bootstrap message for another binding. */
  lemma M2Elsewhere(own: BootstrapBinding, other: BootstrapBinding, secret: Bytes32)
    requires own != other
    ensures ParseM2(M2Payload(other, secret), own) == Err(BindingMismatch)
  {
    hide Cbor.Encode, Cbor.After, Cbor.EncodeItem, Cbor.ReadHead, Cbor.Head, Cbor.ReadU8, Cbor.ReadU64,
         Cbor.ReadBytes, Cbor.ExpectMap;
    var items := M2Items(other, secret);
    assert M2Payload(other, secret) == Encode(items);
    hide M2Payload;
    AfterEnds(items);
    ReadsItem(items, 0);
    ReadsItem(items, 1);
    ReadsItem(items, 2);
    ReadsItem(items, 3);
    ReadsItem(items, 4);
    ReadsItem(items, 5);
    ReadsItem(items, 6);
    ReadsItem(items, 7);
    ReadsItem(items, 8);
    ReadsItem(items, 9);
    ReadsItem(items, 10);
    ReadsItem(items, 11);
    ReadsItem(items, 12);
    ReadsItem(items, 13);
    ReadsItem(items, 14);
  }
}
