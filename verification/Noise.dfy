/** An ideal Noise channel.  A frame opens only for the peer that shares the
    context or the transcript hash, in the right direction and at the next
    nonce; the transcript hash itself is supplied by whoever writes message 2. */
module Noise {
  import opened Common
  import opened Terms
  import opened Payloads

  /** What both prologues and the pre-shared key commit to. */
  datatype Context = Context(binding: SessionBinding, psk: Bytes32)

  datatype Frame =
    | Message1(ctx: Context, payload: seq<byte>)
    | Message2(ctx: Context, payload: seq<byte>, hash: Bytes32)
    | Sealed(key: Bytes32, fromInitiator: bool, nonce: nat, plaintext: seq<byte>)

  /** `step` counts the handshake messages processed; `hash` means something from step 2 on. */
  datatype Handshake = Handshake(initiator: bool, ctx: Context, step: nat, hash: Bytes32)

  datatype Transport = Transport(key: Bytes32, initiator: bool, sendNonce: nat, recvNonce: nat)

  function NoHash(): Bytes32 {
    seq(32, _ => 0)
  }

  function NewHandshake(initiator: bool, ctx: Context): Handshake {
    Handshake(initiator, ctx, 0, NoHash())
  }

  datatype Wrote = Wrote(next: Handshake, frame: Frame)
  datatype Read = Read(next: Handshake, payload: seq<byte>)

  function WriteMessage(h: Handshake, payload: seq<byte>, hash: Bytes32): Result<Wrote, CloseReason> {
    if h.initiator && h.step == 0 then Ok(Wrote(h.(step := 1), Message1(h.ctx, payload)))
    else if !h.initiator && h.step == 1 then Ok(Wrote(h.(step := 2, hash := hash), Message2(h.ctx, payload, hash)))
    else Err(AuthenticationFailed)
  }

  function ReadMessage(h: Handshake, frame: Frame): Result<Read, CloseReason> {
    if !h.initiator && h.step == 0 && frame.Message1? && frame.ctx == h.ctx
    then Ok(Read(h.(step := 1), frame.payload))
    else if h.initiator && h.step == 1 && frame.Message2? && frame.ctx == h.ctx
    then Ok(Read(h.(step := 2, hash := frame.hash), frame.payload))
    else Err(AuthenticationFailed)
  }

  function IntoTransport(h: Handshake): Result<Transport, CloseReason> {
    if h.step == 2 then Ok(Transport(h.hash, h.initiator, 0, 0)) else Err(AuthenticationFailed)
  }

  /** Sealing; a frame of more than 65535 bytes cannot be expressed. */
  function SealFrame(t: Transport, plaintext: seq<byte>): Frame
    requires |plaintext| + TAG_LEN <= 65_535
  {
    Sealed(t.key, t.initiator, t.sendNonce, plaintext)
  }

  function AfterSeal(t: Transport): Transport {
    t.(sendNonce := t.sendNonce + 1)
  }

  predicate Opens(t: Transport, frame: Frame) {
    && frame.Sealed?
    && frame.key == t.key
    && frame.fromInitiator == !t.initiator
    && frame.nonce == t.recvNonce
  }

  function AfterOpen(t: Transport): Transport {
    t.(recvNonce := t.recvNonce + 1)
  }

  predicate Sealable(plains: seq<seq<byte>>) {
    forall i :: 0 <= i < |plains| ==> |plains[i]| + TAG_LEN <= 65_535
  }

  /** The frames of a list of plaintexts, at consecutive nonces. */
  function SealAll(t: Transport, plains: seq<seq<byte>>): (frames: seq<Frame>)
    requires Sealable(plains)
    ensures |frames| == |plains|
    decreases |plains|
  {
    if plains == [] then [] else [SealFrame(t, plains[0])] + SealAll(AfterSeal(t), plains[1..])
  }
}
