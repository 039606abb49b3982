/** The network's side of the cryptography of LoRaWAN 1.0.3, block by block as
    the standard lays them out, byte by byte. None of it is the device's. */
module LoRaNetwork {
  import opened BitMath
  import opened LoRaCrypto

  /** Byte `k` of a number, the lowest being byte 0. */
  function NthByte(v: nat, k: nat): Byte
    decreases k
  {
    if k == 0 then Low8(v) else NthByte(High8(v), k - 1)
  }

  /** What the bytes add up to. */
  lemma BytesAddUp(v: nat)
    ensures var b0: int, b1: int, b2: int := NthByte(v, 0), NthByte(v, 1), NthByte(v, 2);
      (v < 0x10000 ==> b0 + 0x100 * b1 == v) && (v < 0x100_0000 ==> b0 + 0x100 * b1 + 0x1_0000 * b2 == v)
  {
    LowHigh8(v);
    LowHigh8(High8(v));
    LowHigh8(High8(High8(v)));
  }

  // ---- Session keys: section 6.2.5 --------------------------------------------------

  /** The block a session key is the encryption of. */
  function KeyBlock(kind: Byte, appNonce: Bytes, netId: Bytes, devNonce: nat): (b: Bytes)
    requires |appNonce| == 3 && |netId| == 3
    ensures |b| == 16
  {
    seq(16, k requires 0 <= k < 16 =>
      if k == 0 then kind
      else if k < 4 then appNonce[k - 1]
      else if k < 7 then netId[k - 4]
      else if k < 9 then NthByte(devNonce, k - 7)
      else 0)
  }

  function SessionKey(aes: Aes, appKey: Bytes, kind: Byte, appNonce: Bytes, netId: Bytes, devNonce: nat): Bytes
    requires |appNonce| == 3 && |netId| == 3
  {
    aes.encrypt(appKey, KeyBlock(kind, appNonce, netId, devNonce))
  }

  /** The places of the key block: type, AppNonce, NetID, DevNonce, zeros. */
  lemma KeyBlockPlaces(kind: Byte, appNonce: Bytes, netId: Bytes, devNonce: nat)
    requires |appNonce| == 3 && |netId| == 3 && devNonce <= 0xFFFF
    ensures var b := KeyBlock(kind, appNonce, netId, devNonce); var low: int, high: int := b[7], b[8];
      && b[0] == kind && b[1..4] == appNonce && b[4..7] == netId
      && low + 256 * high == devNonce
      && forall k :: 9 <= k < 16 ==> b[k] == 0
  {
    BytesAddUp(devNonce);
  }

  /** The device derives the key of that block. */
  lemma KeyAgrees(aes: Aes, appKey: Bytes, kind: Byte, appNonce: Bytes, netId: Bytes, devNonce: nat)
    requires aes.Lawful() && |appNonce| == 3 && |netId| == 3
    ensures DerivedKey(aes, appKey, kind, appNonce, netId, devNonce) == SessionKey(aes, appKey, kind, appNonce, netId, devNonce)
  {
    assert Le16(devNonce) == [NthByte(devNonce, 0), NthByte(devNonce, 1)];
    assert [kind] + appNonce + netId + Le16(devNonce) + [0, 0, 0, 0, 0, 0, 0] == KeyBlock(kind, appNonce, netId, devNonce);
  }

  // ---- Frames: sections 4.3.3 and 4.4 --------------------------------------------------

  /** The blocks of the key stream and of the MIC are laid out alike: a tag,
      four zeros, the direction, the address, the counter, a zero, and a last
      byte. */
  function Block(tag: Byte, direction: Byte, devAddr: Bytes, counter: nat, last: Byte): (b: Bytes)
    requires |devAddr| == 4
    ensures |b| == 16
  {
    seq(16, k requires 0 <= k < 16 =>
      if k == 0 then tag
      else if k == 5 then direction
      else if 6 <= k < 10 then devAddr[k - 6]
      else if 10 <= k < 14 then NthByte(counter, k - 10)
      else if k == 15 then last
      else 0)
  }

  function Ciphered(aes: Aes, key: Bytes, devAddr: Bytes, counter: nat, direction: Byte, data: Bytes): (c: Bytes)
    requires aes.Lawful() && |devAddr| == 4 && |data| <= 255 * 16
    ensures |c| == |data|
  {
    seq(|data|, j requires 0 <= j < |data| =>
      Masked(data[j], aes.encrypt(key, Block(0x01, direction, devAddr, counter, j / 16 + 1))[j % 16]))
  }

  /** The first four bytes of the digest. */
  function Seal(aes: Aes, key: Bytes, message: Bytes): (m: Bytes)
    requires aes.Lawful()
    ensures |m| == 4
  {
    var digest := aes.cmac(key, message);
    [digest[0], digest[1], digest[2], digest[3]]
  }

  function FrameSeal(aes: Aes, key: Bytes, devAddr: Bytes, counter: nat, direction: Byte, frame: Bytes): (m: Bytes)
    requires aes.Lawful() && |devAddr| == 4
    ensures |m| == 4
  {
    Seal(aes, key, Block(0x49, direction, devAddr, counter, NthByte(|frame|, 0)) + frame)
  }

  lemma {:induction false} CounterBytes(v: nat, n: nat, k: nat)
    requires k < n
    ensures LeBytes(v, n)[k] == NthByte(v, k)
    decreases k
  {
    if k > 0 {
      CounterBytes(High8(v), n - 1, k - 1);
    }
  }

  lemma Counter32Agrees(devAddr: Bytes, counter: nat)
    requires |devAddr| == 4
    ensures forall k :: 0 <= k < 4 ==> Counter32(devAddr, counter)[k] == NthByte(counter, k)
  {
    forall k | 0 <= k < 4 ensures Counter32(devAddr, counter)[k] == NthByte(counter, k) {
      CounterBytes(counter, |devAddr|, k);
    }
  }

  lemma BlockAgrees(tag: Byte, direction: Byte, devAddr: Bytes, counter: nat, last: Byte)
    requires |devAddr| == 4
    ensures [tag, 0, 0, 0, 0, direction] + devAddr + Counter32(devAddr, counter) + [0, last]
         == Block(tag, direction, devAddr, counter, last)
  {
    Counter32Agrees(devAddr, counter);
  }

  lemma SealAgrees(aes: Aes, key: Bytes, message: Bytes)
    requires aes.Lawful()
    ensures Mic(aes, key, message) == Seal(aes, key, message)
  {}

  /** The device seals and ciphers frames as the network does. */
  lemma FrameSealAgrees(aes: Aes, key: Bytes, devAddr: Bytes, counter: nat, direction: Byte, frame: Bytes)
    requires aes.Lawful() && |devAddr| == 4
    ensures FrameMic(aes, key, devAddr, counter, frame, direction) == FrameSeal(aes, key, devAddr, counter, direction, frame)
  {
    var last := Low8(|frame|);
    BlockAgrees(0x49, direction, devAddr, counter, last);
    SealAgrees(aes, key, Block(0x49, direction, devAddr, counter, last) + frame);
  }

  lemma CipherAgrees(aes: Aes, key: Bytes, devAddr: Bytes, counter: nat, direction: Byte, data: Bytes)
    requires Encryptable(aes, devAddr, data)
    ensures Encrypted(aes, key, devAddr, counter, data, direction) == Ciphered(aes, key, devAddr, counter, direction, data)
  {
    forall j | 0 <= j < |data|
      ensures StreamByte(aes, key, devAddr, counter, direction, j)
           == aes.encrypt(key, Block(0x01, direction, devAddr, counter, j / 16 + 1))[j % 16]
    {
      BlockAgrees(0x01, direction, devAddr, counter, j / 16 + 1);
    }
  }

  // ---- JoinAccept: section 6.2.5 ------------------------------------------------------------

  /** Block `b` of a sequence, zeros where it has ended. */
  function BlockAt(data: Bytes, b: nat): (block: Bytes)
    ensures |block| == 16
  {
    seq(16, k requires 0 <= k < 16 => if 16 * b + k < |data| then data[16 * b + k] else 0)
  }

  /** A JoinAccept in the clear: each block encrypted once more. */
  function Cleared(aes: Aes, key: Bytes, data: Bytes): (clear: Bytes)
    requires aes.Lawful()
    ensures |clear| == |data|
  {
    seq(|data|, j requires 0 <= j < |data| => aes.encrypt(key, BlockAt(data, j / 16))[j % 16])
  }

  lemma {:induction false} BlocksAt(aes: Aes, key: Bytes, data: Bytes, j: nat)
    requires aes.Lawful() && |data| % 16 == 0 && j < |data|
    ensures EncryptBlocks(aes, key, data)[j] == aes.encrypt(key, BlockAt(data, j / 16))[j % 16]
    decreases |data|
  {
    var rest := data[16..];
    if j < 16 {
      assert BlockAt(data, 0) == data[..16];
    } else {
      BlocksAt(aes, key, rest, j - 16);
      assert BlockAt(rest, (j - 16) / 16) == BlockAt(data, j / 16);
    }
  }

  /** What the device recovers is that. */
  lemma ClearAgrees(aes: Aes, key: Bytes, data: Bytes)
    requires aes.Lawful()
    ensures Recovered(aes, key, data) == Cleared(aes, key, data)
  {
    var padded := Padded(data);
    forall j | 0 <= j < |data| ensures Recovered(aes, key, data)[j] == Cleared(aes, key, data)[j] {
      BlocksAt(aes, key, padded, j);
      PaddedBlocks(data, j / 16);
    }
  }

  lemma PaddedBlocks(data: Bytes, b: nat)
    ensures BlockAt(Padded(data), b) == BlockAt(data, b)
  {}

  // ---- Channel mask fields ----------------------------------------------------------------

  /** The number whose binary digits, lowest first, are these. */
  function Field(bits: seq<bool>): nat
    decreases |bits|
  {
    if bits == [] then 0 else (if bits[0] then 1 else 0) + 2 * Field(bits[1..])
  }

  lemma {:induction false} FieldDigit(bits: seq<bool>, k: nat)
    requires k < |bits|
    ensures Above(Field(bits), k) % 2 == (if bits[k] then 1 else 0)
    decreases k
  {
    Halves(if bits[0] then 1 else 0, Field(bits[1..]));
    if k > 0 {
      FieldDigit(bits[1..], k - 1);
    }
  }

  lemma Halves(low: nat, rest: nat)
    requires low < 2
    ensures (low + 2 * rest) / 2 == rest && (low + 2 * rest) % 2 == low
  {}

  lemma {:induction false} FieldBound(bits: seq<bool>)
    ensures Field(bits) < Pow2(|bits|)
    decreases |bits|
  {
    if bits != [] {
      FieldBound(bits[1..]);
    }
  }

  /** Sixteen channels in two bytes are read back as their field. */
  lemma FieldBytes(bits: seq<bool>)
    requires |bits| == 16
    ensures FromLe16(NthByte(Field(bits), 0), NthByte(Field(bits), 1)) == Field(bits)
  {
    FieldBound(bits);
    assert Pow2(8) == 256 && Pow2(16) == 0x10000;
    BytesAddUp(Field(bits));
  }

  /** Every number is the field of its digits, and every byte a byte of what
      they add up to. */
  lemma {:induction false} FieldOfDigits(v: nat, n: nat)
    requires v < Pow2(n)
    ensures Field(Digits(v, n)) == v
    decreases n
  {
    if n > 0 {
      FieldOfDigits(v / 2, n - 1);
      assert Digits(v, n)[1..] == Digits(v / 2, n - 1);
    }
  }

  lemma FieldOf(v: nat, n: nat) returns (bits: seq<bool>)
    requires v < Pow2(n)
    ensures |bits| == n && Field(bits) == v
  {
    bits := Digits(v, n);
    FieldOfDigits(v, n);
  }

  lemma BytesOf(b0: Byte, b1: Byte, b2: Byte)
    ensures var low: int, mid: int, high: int := b0, b1, b2; var v := low + 0x100 * mid + 0x1_0000 * high;
      NthByte(v, 0) == b0 && NthByte(v, 1) == b1 && NthByte(v, 2) == b2
  {
    var low: int, mid: int, high: int := b0, b1, b2;
    var v := low + 0x100 * mid + 0x1_0000 * high;
    assert v == 0x100 * (0x100 * high + mid) + low;
    Quotient(low, 0x100 * high + mid);
    Quotient(mid, high);
    Quotient(high, 0);
  }

  lemma Quotient(low: Byte, rest: nat)
    ensures Low8(0x100 * rest + low) == low && High8(0x100 * rest + low) == rest
  {
    LowHigh8(0x100 * rest + low);
  }
}
