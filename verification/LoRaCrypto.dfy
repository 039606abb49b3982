/** The cryptographic framing of LoRaWAN 1.0.3 over an abstract AES: a family
    of permutations of 16-byte blocks, and a keyed digest. */
module LoRaCrypto {
  import opened Wrappers
  import opened BitMath

  type Bytes = seq<Byte>

  /** `encrypt` and `decrypt` are one block; `cmac` digests any message. */
  datatype Aes = Aes(encrypt: (Bytes, Bytes) -> Bytes, decrypt: (Bytes, Bytes) -> Bytes, cmac: (Bytes, Bytes) -> Bytes)
  {
    /** What the protocol needs of AES: blocks map to blocks, and encryption
        undoes decryption. */
    ghost predicate Lawful() {
      && (forall k: Bytes, b: Bytes :: |b| == 16 ==> |encrypt(k, b)| == 16)
      && (forall k: Bytes, b: Bytes :: |b| == 16 ==> |decrypt(k, b)| == 16 && encrypt(k, decrypt(k, b)) == b)
      && (forall k: Bytes, m: Bytes :: |cmac(k, m)| == 16)
    }
  }

  // ---- Little-endian integers ---------------------------------------------------

  function Le16(v: nat): (b: Bytes)
    ensures |b| == 2
  {
    [Low8(v), Low8(High8(v))]
  }

  /** The low `n` bytes of `v`, lowest first. */
  function LeBytes(v: nat, n: nat): (b: Bytes)
    ensures |b| == n
    decreases n
  {
    if n == 0 then [] else [Low8(v)] + LeBytes(High8(v), n - 1)
  }

  function Pow256(n: nat): nat
    decreases n
  {
    if n == 0 then 1 else 256 * Pow256(n - 1)
  }

  /** `n` bytes forget whole turns. */
  lemma {:induction false} LeBytesWrap(v: nat, n: nat)
    ensures LeBytes(v + Pow256(n), n) == LeBytes(v, n)
    decreases n
  {
    if n > 0 {
      var turn := Pow256(n - 1);
      assert (v + 256 * turn) / 256 == v / 256 + turn && (v + 256 * turn) % 256 == v % 256;
      LeBytesWrap(v / 256, n - 1);
      LowHigh8(v);
      LowHigh8(v + Pow256(n));
    }
  }

  /** A 32-bit counter in a block: four bytes, as wide as the address. */
  function Counter32(devAddr: Bytes, fcnt: nat): (b: Bytes)
    ensures |b| == |devAddr|
  {
    LeBytes(fcnt, |devAddr|)
  }

  function FromLe16(lo: Byte, hi: Byte): (v: nat)
    ensures v < 0x10000
  {
    var h: int := hi;
    lo + 256 * h
  }

  lemma Le16RoundTrip(v: nat)
    ensures FromLe16(Le16(v)[0], Le16(v)[1]) == v % 0x10000
  {
    LowHigh8(v);
    LowHigh8(High8(v));
    var high := v / 256;
    assert v == 0x10000 * (high / 256) + (256 * (high % 256) + v % 256);
    LowWord(v, high / 256, 256 * (high % 256) + v % 256);
  }

  lemma LowWord(v: nat, turns: nat, low: nat)
    requires v == 0x10000 * turns + low && low < 0x10000
    ensures v % 0x10000 == low
  {}

  lemma CounterWraps(devAddr: Bytes, fcnt: nat)
    requires |devAddr| == 4
    ensures Counter32(devAddr, fcnt + 0x1_0000_0000) == Counter32(devAddr, fcnt)
  {
    var n := |devAddr|;
    assert Pow256(n) == 256 * Pow256(n - 1) == 0x10000 * Pow256(n - 2) == 0x100_0000 * Pow256(n - 3);
    LeBytesWrap(fcnt, n);
  }

  // ---- Payload encryption: section 4.3.3 --------------------------------------------

  /** Block `i`, counted from 1, of the key stream's input. */
  function StreamInput(devAddr: Bytes, fcnt: nat, direction: Byte, i: Byte): (a: Bytes)
    requires |devAddr| == 4
    ensures |a| == 16
  {
    [1, 0, 0, 0, 0, direction] + devAddr + Counter32(devAddr, fcnt) + [0, i]
  }

  /** Byte `j` of the key stream. */
  function StreamByte(aes: Aes, key: Bytes, devAddr: Bytes, fcnt: nat, direction: Byte, j: nat): Byte
    requires aes.Lawful() && |devAddr| == 4 && j < 255 * 16
  {
    aes.encrypt(key, StreamInput(devAddr, fcnt, direction, j / 16 + 1))[j % 16]
  }

  function Masked(a: Byte, b: Byte): (c: Byte)
    ensures c == Xor(a, b)
  {
    XorByte(a, b);
    Xor(a, b)
  }

  /** One byte counts the blocks, so a payload has at most 255 of them. */
  ghost predicate Encryptable(aes: Aes, devAddr: Bytes, payload: Bytes) {
    aes.Lawful() && |devAddr| == 4 && |payload| <= 255 * 16
  }

  function Encrypted(aes: Aes, key: Bytes, devAddr: Bytes, fcnt: nat, payload: Bytes, direction: Byte): (e: Bytes)
    requires Encryptable(aes, devAddr, payload)
    ensures |e| == |payload|
  {
    seq(|payload|, j requires 0 <= j < |payload| =>
      Masked(payload[j], StreamByte(aes, key, devAddr, fcnt, direction, j)))
  }

  method EncryptPayload(aes: Aes, key: Bytes, devAddr: Bytes, fcnt: nat, payload: Bytes, direction: Byte)
    returns (result: Bytes)
    requires Encryptable(aes, devAddr, payload)
    ensures result == Encrypted(aes, key, devAddr, fcnt, payload, direction)
  {
    result := [];
    var blocks := (|payload| + 15) / 16;
    for i := 0 to blocks
      invariant |result| == if 16 * i < |payload| then 16 * i else |payload|
      invariant result == Encrypted(aes, key, devAddr, fcnt, payload, direction)[..|result|]
    {
      var block := aes.encrypt(key, StreamInput(devAddr, fcnt, direction, i + 1));
      for j := 0 to 16
        invariant |result| == if 16 * i + j < |payload| then 16 * i + j else |payload|
        invariant result == Encrypted(aes, key, devAddr, fcnt, payload, direction)[..|result|]
      {
        var idx := 16 * i + j;
        if idx < |payload| {
          result := result + [Masked(payload[idx], block[j])];
        }
      }
    }
  }

  /** The same operation decrypts, for every key, address and counter. */
  lemma EncryptionIsItsOwnInverse(aes: Aes, key: Bytes, devAddr: Bytes, fcnt: nat, payload: Bytes, direction: Byte)
    requires Encryptable(aes, devAddr, payload)
    ensures var e := Encrypted(aes, key, devAddr, fcnt, payload, direction);
      Encrypted(aes, key, devAddr, fcnt, e, direction) == payload
  {
    var e := Encrypted(aes, key, devAddr, fcnt, payload, direction);
    var d := Encrypted(aes, key, devAddr, fcnt, e, direction);
    forall j | 0 <= j < |payload| ensures d[j] == payload[j] {
      XorCancel(payload[j], StreamByte(aes, key, devAddr, fcnt, direction, j));
    }
  }

  // ---- Message integrity: sections 4.4 and 6.2 ------------------------------------------

  function Mic(aes: Aes, key: Bytes, data: Bytes): (m: Bytes)
    requires aes.Lawful()
    ensures |m| == 4
  {
    aes.cmac(key, data)[..4]
  }

  function FrameMic(aes: Aes, key: Bytes, devAddr: Bytes, fcnt: nat, frame: Bytes, direction: Byte): (m: Bytes)
    requires aes.Lawful() && |devAddr| == 4
    ensures |m| == 4
  {
    Mic(aes, key, [0x49, 0, 0, 0, 0, direction] + devAddr + Counter32(devAddr, fcnt) + [0, Low8(|frame|)] + frame)
  }

  function DerivedKey(aes: Aes, appKey: Bytes, keyType: Byte, appNonce: Bytes, netId: Bytes, devNonce: nat): (k: Bytes)
    requires aes.Lawful() && |appNonce| == 3 && |netId| == 3
    ensures |k| == 16
  {
    aes.encrypt(appKey, [keyType] + appNonce + netId + Le16(devNonce) + [0, 0, 0, 0, 0, 0, 0])
  }

  // ---- JoinAccept encryption: section 6.2.5 ----------------------------------------------

  /** Block by block, the way the network prepares a JoinAccept. */
  function DecryptBlocks(aes: Aes, key: Bytes, data: Bytes): (d: Bytes)
    requires aes.Lawful() && |data| % 16 == 0
    ensures |d| == |data|
    decreases |data|
  {
    if data == [] then [] else aes.decrypt(key, data[..16]) + DecryptBlocks(aes, key, data[16..])
  }

  function EncryptBlocks(aes: Aes, key: Bytes, data: Bytes): (d: Bytes)
    requires aes.Lawful() && |data| % 16 == 0
    ensures |d| == |data|
    decreases |data|
  {
    if data == [] then [] else aes.encrypt(key, data[..16]) + EncryptBlocks(aes, key, data[16..])
  }

  lemma {:induction false} BlocksRecovered(aes: Aes, key: Bytes, data: Bytes)
    requires aes.Lawful() && |data| % 16 == 0
    ensures EncryptBlocks(aes, key, DecryptBlocks(aes, key, data)) == data
    decreases |data|
  {
    if data != [] {
      var d := DecryptBlocks(aes, key, data);
      assert d[..16] == aes.decrypt(key, data[..16]) && d[16..] == DecryptBlocks(aes, key, data[16..]);
      BlocksRecovered(aes, key, data[16..]);
      assert data == data[..16] + data[16..];
    }
  }

  /** Zeros up to a whole block. */
  function Padded(data: Bytes): (p: Bytes)
    ensures |p| % 16 == 0 && data <= p && (|data| % 16 == 0 ==> p == data)
    ensures forall k :: |data| <= k < |p| ==> p[k] == 0
  {
    var blocks := (|data| + 15) / 16;
    WholeBlocks(blocks);
    data + seq(16 * blocks - |data|, _ => 0)
  }

  lemma WholeBlocks(blocks: nat)
    ensures (16 * blocks) % 16 == 0
  {}

  /** The device pads to whole blocks, encrypts them, and drops the padding. */
  function Recovered(aes: Aes, key: Bytes, data: Bytes): (d: Bytes)
    requires aes.Lawful()
    ensures |d| == |data|
  {
    EncryptBlocks(aes, key, Padded(data))[..|data|]
  }

  lemma EncryptStep(aes: Aes, key: Bytes, data: Bytes, i: nat, b: nat, n: nat)
    requires aes.Lawful() && i == 16 * b && b < n && |data| == 16 * n
    ensures |data[i..]| % 16 == 0 && |data[i + 16..]| % 16 == 0
    ensures EncryptBlocks(aes, key, data[i..]) == aes.encrypt(key, data[i..i + 16]) + EncryptBlocks(aes, key, data[i + 16..])
  {
    WholeBlocks(n - b);
    WholeBlocks(n - b - 1);
    assert data[i..][..16] == data[i..i + 16] && data[i..][16..] == data[i + 16..];
  }

  /** The loop over whole blocks. */
  method EncryptEach(aes: Aes, key: Bytes, padded: Bytes) returns (buf: Bytes)
    requires aes.Lawful() && |padded| % 16 == 0
    ensures buf == EncryptBlocks(aes, key, padded)
  {
    buf := [];
    var i := 0;
    ghost var all, b, n := EncryptBlocks(aes, key, padded), 0, |padded| / 16;
    assert padded[0..] == padded;
    while i < |padded|
      invariant b <= n && i == 16 * b && |padded| == 16 * n && |padded[i..]| % 16 == 0
      invariant all == buf + EncryptBlocks(aes, key, padded[i..])
    {
      var block := aes.encrypt(key, padded[i..i + 16]);
      EncryptStep(aes, key, padded, i, b, n);
      b := b + 1;
      Regroup(buf, block, EncryptBlocks(aes, key, padded[i + 16..]));
      buf := buf + block;
      i := i + 16;
    }
    assert padded[i..] == [];
  }

  method RecoverJoinAccept(aes: Aes, key: Bytes, data: Bytes) returns (out: Bytes)
    requires aes.Lawful()
    ensures out == Recovered(aes, key, data)
  {
    var buf := EncryptEach(aes, key, Padded(data));
    out := buf[..|data|];
  }
}
