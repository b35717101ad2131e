/** How the depository reads the Ed25519 instruction in front of an execution. */
module Ed25519Check {
  import opened ByteCodec
  import opened RelayBytes
  import opened Wrappers

  datatype Instruction = Instruction(isEd25519: bool, accounts: nat, data: Bytes)

  datatype SignatureError =
    | MissingSignature
    | MalformedEd25519Data
    | AllocatorSignerMismatch
    | MessageMismatch

  function U16(data: Bytes, i: nat): nat
    requires i + 2 <= |data|
  {
    var low: int, high: int := data[i], data[i + 1];
    low + 256 * high
  }

  const NO_INSTRUCTION: nat := 0xffff

  function MessageStart(data: Bytes): nat
    requires |data| == 144
  {
    U16(data, 10)
  }

  function MessageLength(data: Bytes): nat
    requires |data| == 144
  {
    U16(data, 12)
  }

  /** One signature whose key and signature bytes stand at 16 and 48 of this same instruction. */
  predicate HeaderOk(data: Bytes)
    requires |data| == 144
  {
    && data[0] == 1
    && data[1] == 0
    && U16(data, 4) == NO_INSTRUCTION
    && U16(data, 8) == NO_INSTRUCTION
    && U16(data, 14) == NO_INSTRUCTION
    && U16(data, 6) == 16
    && U16(data, 2) == 48
  }

  /** The checks in their order; `None` accepts. */
  function Validate(ix: Instruction, signer: Key, requestHash: Key): Option<SignatureError> {
    if !ix.isEd25519 then Some(MissingSignature)
    else if ix.accounts != 0 || |ix.data| != 144 then Some(MalformedEd25519Data)
    else if !HeaderOk(ix.data) then Some(MalformedEd25519Data)
    else if MessageStart(ix.data) + MessageLength(ix.data) > 144 then Some(MalformedEd25519Data)
    else if ix.data[16..48] != signer then Some(AllocatorSignerMismatch)
    else if ix.data[MessageStart(ix.data)..MessageStart(ix.data) + MessageLength(ix.data)]
            != requestHash then Some(MessageMismatch)
    else None
  }

  /**
    What the signature program itself has established once this instruction has run: with every
    instruction index unset it verified the bytes of the instruction's own data.
   */
  ghost predicate PrecompileAccepted(ix: Instruction, verifies: (Bytes, Bytes, Bytes) -> bool) {
    ix.isEd25519 && |ix.data| == 144 && HeaderOk(ix.data) ==>
      var start, end := MessageStart(ix.data), MessageStart(ix.data) + MessageLength(ix.data);
      end <= 144 ==> verifies(ix.data[16..48], ix.data[start..end], ix.data[48..112])
  }

  ghost predicate SignedBy(signer: Key, message: Bytes, verifies: (Bytes, Bytes, Bytes) -> bool) {
    exists signature: Bytes :: |signature| == 64 && verifies(signer, message, signature)
  }

  /** Accepting means that this signer signed exactly this hash, wherever the message stands. */
  lemma AcceptedMeansSigned(
      ix: Instruction, signer: Key, requestHash: Key, verifies: (Bytes, Bytes, Bytes) -> bool)
    requires Validate(ix, signer, requestHash) == None && PrecompileAccepted(ix, verifies)
    ensures SignedBy(signer, requestHash, verifies)
    ensures MessageLength(ix.data) == 32
  {
    assert |ix.data[48..112]| == 64;
  }

  /** The layout every signing tool writes: key at 16, signature at 48, message at 112. */
  function StandardData(signer: Key, signature: Bytes, message: Key): (data: Bytes)
    requires |signature| == 64
    ensures |data| == 144
  {
    [1, 0, 48, 0, 255, 255, 16, 0, 255, 255, 112, 0, 32, 0, 255, 255]
      + signer + signature + message
  }

  lemma StandardDataAccepted(signer: Key, signature: Bytes, message: Key)
    requires |signature| == 64
    ensures Validate(Instruction(true, 0, StandardData(signer, signature, message)), signer, message)
      == None
  {
    var data := StandardData(signer, signature, message);
    assert data[16..48] == signer && data[112..144] == message;
  }
}
