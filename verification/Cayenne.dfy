/** The Cayenne LPP payload codec. Readings are exact reals; `Round` is
    Python's round-half-to-even. */
module Cayenne {
  import opened BitMath

  datatype Key = TempC | Ph | TdsPpm | TurbidityNtu | OrpMv | ChlorineMgl
               | ConductivityUscm | SalinityPpt | FlowRateGpm | FlowTotalGal

  datatype Position = Lat | Lon | AltM

  /** One cycle's reading: the scalar columns that hold a number, and the fix. */
  datatype Reading = Reading(scalars: map<Key, real>, fix: map<Position, real>)

  type Short = v: int | -32768 <= v <= 32767

  /** A reading in counts: what goes on the air. */
  datatype Sample = Sample(counts: map<Key, Short>, fix: FixCounts)

  datatype FixCounts = NoFix | Fixed(lat: int, lon: int, alt: int)

  /** The names a decoded payload can carry. */
  datatype Name = Scalar(key: Key) | Fix(axis: Position) | Unmapped(channel: Byte)

  /** A decoded number, exactly: a count of some unit. */
  datatype Measure = Measure(count: int, unit: real) {
    function Value(): real { count as real * unit }
  }

  type Decoded = map<Name, Measure>

  const LPP_TEMPERATURE := 0x67
  const LPP_ANALOG_INPUT := 0x02
  const LPP_GPS := 0x88
  const CH_GPS := 6

  /** The order in which `encode` looks at the columns. */
  const ORDER: seq<Key> := [TempC, Ph, TdsPpm, TurbidityNtu, OrpMv, ChlorineMgl,
                            ConductivityUscm, SalinityPpt, FlowRateGpm, FlowTotalGal]

  function Channel(k: Key): Byte {
    match k
    case TempC => 1
    case Ph => 2
    case TdsPpm => 3
    case TurbidityNtu => 4
    case OrpMv => 5
    case ChlorineMgl => 10
    case ConductivityUscm => 11
    case SalinityPpt => 12
    case FlowRateGpm => 13
    case FlowTotalGal => 14
  }

  function NameOf(channel: Byte): Name {
    if channel == 1 then Scalar(TempC)
    else if channel == 2 then Scalar(Ph)
    else if channel == 3 then Scalar(TdsPpm)
    else if channel == 4 then Scalar(TurbidityNtu)
    else if channel == 5 then Scalar(OrpMv)
    else if channel == 10 then Scalar(ChlorineMgl)
    else if channel == 11 then Scalar(ConductivityUscm)
    else if channel == 12 then Scalar(SalinityPpt)
    else if channel == 13 then Scalar(FlowRateGpm)
    else if channel == 14 then Scalar(FlowTotalGal)
    else Unmapped(channel)
  }

  /** Counts on the air per reading unit. Conductivity rides in mS/cm and the
      totalizer in kilogallons, both in hundredths. */
  function PerUnit(k: Key): real {
    match k
    case TempC => 10.0
    case ConductivityUscm => 0.1
    case FlowTotalGal => 0.1
    case _ => 100.0
  }

  /** Reading units per count. */
  function Quantum(k: Key): real {
    match k
    case TempC => 0.1
    case ConductivityUscm => 10.0
    case FlowTotalGal => 10.0
    case _ => 0.01
  }

  function AxisPerUnit(a: Position): real {
    if a == AltM then 100.0 else 10000.0
  }

  function AxisQuantum(a: Position): real {
    if a == AltM then 0.01 else 0.0001
  }

  // ---- Integers on the air -----------------------------------------------

  function Round(x: real): int {
    var f := x.Floor;
    var d := x - f as real;
    if d < 0.5 then f
    else if d > 0.5 then f + 1
    else if f % 2 == 0 then f
    else f + 1
  }

  function Clamp(v: int): Short {
    if v > 32767 then 32767 else if v < -32768 then -32768 else v
  }

  function Int16(v: Short): (b: seq<Byte>)
    ensures |b| == 2
  {
    var u: int := v % 65536;
    [u / 256, u % 256]
  }

  function FromInt16(hi: Byte, lo: Byte): int {
    var h: int := hi;
    var u := h * 256 + lo;
    if u >= 32768 then u - 65536 else u
  }

  const TWO24 := 0x100_0000

  /** Three bytes, high first: the value modulo two to the 24th. */
  function Int24(v: int): (b: seq<Byte>)
    ensures |b| == 3
  {
    var u: int := v % TWO24;
    [u / 65536, u % 65536 / 256, u % 256]
  }

  function FromInt24(b0: Byte, b1: Byte, b2: Byte): int {
    var h: int := b0;
    var m: int := b1;
    var u := h * 65536 + m * 256 + b2;
    if u >= 0x80_0000 then u - TWO24 else u
  }

  // ---- Encoding -----------------------------------------------------------

  function Count(k: Key, x: real): Short { Clamp(Round(x * PerUnit(k))) }

  function AxisCount(a: Position, x: real): int { Round(x * AxisPerUnit(a)) }

  function Altitude(fix: map<Position, real>): real { if AltM in fix then fix[AltM] else 0.0 }

  function Quantised(r: Reading): Sample {
    Sample(map k | k in r.scalars :: Count(k, r.scalars[k]), QuantisedFix(r.fix))
  }

  /** A fix needs both coordinates; a missing altitude counts as zero. */
  function QuantisedFix(fix: map<Position, real>): FixCounts {
    if Lat in fix && Lon in fix then
      Fixed(AxisCount(Lat, fix[Lat]), AxisCount(Lon, fix[Lon]), AxisCount(AltM, Altitude(fix)))
    else NoFix
  }

  function Header(k: Key): seq<Byte> {
    [Channel(k), if k == TempC then LPP_TEMPERATURE else LPP_ANALOG_INPUT]
  }

  function Field(k: Key, count: Short): (b: seq<Byte>)
    ensures |b| == 4
  {
    Header(k) + Int16(count)
  }

  function Fields(counts: map<Key, Short>, keys: seq<Key>): seq<Byte>
    decreases |counts|, |keys|
  {
    if keys == [] then []
    else (if keys[0] in counts then Field(keys[0], counts[keys[0]]) else []) + Fields(counts, keys[1..])
  }

  function FixField(fix: FixCounts): seq<Byte> {
    match fix
    case NoFix => []
    case Fixed(lat, lon, alt) => [CH_GPS, LPP_GPS] + Int24(lat) + Int24(lon) + Int24(alt)
  }

  /** The payload of a sample, columns in the order `encode` looks at them. */
  function Wire(s: Sample): seq<Byte> { Fields(s.counts, ORDER) + FixField(s.fix) }

  method EncodeScalars(scalars: map<Key, real>, keys: seq<Key>, ghost counts: map<Key, Short>)
    returns (buf: seq<Byte>)
    requires forall k :: k in scalars <==> k in counts
    requires forall k :: k in scalars ==> counts[k] == Count(k, scalars[k])
    ensures buf == Fields(counts, keys)
    ensures |buf| <= 4 * |keys|
  {
    buf := [];
    for i := 0 to |keys|
      invariant Fields(counts, keys) == buf + Fields(counts, keys[i..])
      invariant |buf| <= 4 * i
    {
      var k := keys[i];
      assert keys[i..][1..] == keys[i + 1..];
      if k in scalars {
        var val := Count(k, scalars[k]);
        FieldsStep(buf, counts, keys[i..], val);
        buf := buf + Header(k) + Int16(val);
      }
    }
  }

  lemma FieldsStep(buf: seq<Byte>, counts: map<Key, Short>, keys: seq<Key>, count: Short)
    requires keys != [] && keys[0] in counts && counts[keys[0]] == count
    ensures buf + Fields(counts, keys) == buf + Header(keys[0]) + Int16(count) + Fields(counts, keys[1..])
  {}

  method EncodeFix(fix: map<Position, real>) returns (buf: seq<Byte>)
    ensures buf == FixField(QuantisedFix(fix))
    ensures |buf| <= 11
  {
    buf := [];
    if Lat in fix && Lon in fix {
      buf := buf + [CH_GPS, LPP_GPS];
      buf := buf + Int24(AxisCount(Lat, fix[Lat]));
      buf := buf + Int24(AxisCount(Lon, fix[Lon]));
      buf := buf + Int24(AxisCount(AltM, Altitude(fix)));
    }
  }

  method Encode(r: Reading) returns (buf: seq<Byte>)
    ensures buf == Wire(Quantised(r))
    ensures |buf| <= 51
  {
    var scalars := EncodeScalars(r.scalars, ORDER, Quantised(r).counts);
    var fix := EncodeFix(r.fix);
    buf := scalars + fix;
  }

  // ---- Decoding -----------------------------------------------------------

  /** Units per count for an analog field, which `decode` takes from the
      channel alone. */
  function AnalogUnit(channel: Byte): real {
    if channel == 11 || channel == 14 then 10.0 else 0.01
  }

  /** What `decode` adds to `acc` from position `i` on. */
  function DecodedFrom(p: seq<Byte>, i: nat, acc: Decoded): Decoded
    requires i <= |p|
    decreases |p| - i
  {
    if i + 1 >= |p| then acc
    else if p[i + 1] == LPP_TEMPERATURE && i + 4 <= |p| then
      DecodedFrom(p, i + 4, acc[NameOf(p[i]) := Measure(FromInt16(p[i + 2], p[i + 3]), 0.1)])
    else if p[i + 1] == LPP_ANALOG_INPUT && i + 4 <= |p| then
      DecodedFrom(p, i + 4, acc[NameOf(p[i]) := Measure(FromInt16(p[i + 2], p[i + 3]), AnalogUnit(p[i]))])
    else if p[i + 1] == LPP_GPS && i + 11 <= |p| then
      DecodedFrom(p, i + 11, acc
        [Fix(Lat) := Measure(FromInt24(p[i + 2], p[i + 3], p[i + 4]), AxisQuantum(Lat))]
        [Fix(Lon) := Measure(FromInt24(p[i + 5], p[i + 6], p[i + 7]), AxisQuantum(Lon))]
        [Fix(AltM) := Measure(FromInt24(p[i + 8], p[i + 9], p[i + 10]), AxisQuantum(AltM))])
    else acc
  }

  function DecodedOf(p: seq<Byte>): Decoded { DecodedFrom(p, 0, map[]) }

  method Decode(payload: seq<Byte>) returns (result: Decoded)
    ensures result == DecodedOf(payload)
  {
    result := map[];
    var i := 0;
    while i + 1 < |payload|
      invariant 0 <= i <= |payload|
      invariant DecodedFrom(payload, i, result) == DecodedOf(payload)
      decreases |payload| - i
    {
      var channel, lppType := payload[i], payload[i + 1];
      i := i + 2;
      if lppType == LPP_TEMPERATURE && i + 2 <= |payload| {
        result := result[NameOf(channel) := Measure(FromInt16(payload[i], payload[i + 1]), 0.1)];
        i := i + 2;
      } else if lppType == LPP_ANALOG_INPUT && i + 2 <= |payload| {
        var val := Measure(FromInt16(payload[i], payload[i + 1]), 0.01);
        if channel == 11 {
          val := val.(unit := val.unit * 1000.0);
        } else if channel == 14 {
          val := val.(unit := val.unit * 1000.0);
        }
        result := result[NameOf(channel) := val];
        i := i + 2;
      } else if lppType == LPP_GPS && i + 9 <= |payload| {
        result := result[Fix(Lat) := Measure(FromInt24(payload[i], payload[i + 1], payload[i + 2]), AxisQuantum(Lat))];
        result := result[Fix(Lon) := Measure(FromInt24(payload[i + 3], payload[i + 4], payload[i + 5]), AxisQuantum(Lon))];
        result := result[Fix(AltM) := Measure(FromInt24(payload[i + 6], payload[i + 7], payload[i + 8]), AxisQuantum(AltM))];
        i := i + 9;
      } else {
        return;
      }
    }
  }

  // ---- Round trip -----------------------------------------------------------

  lemma RoundNear(x: real)
    ensures -0.5 <= Round(x) as real - x <= 0.5
  {}

  lemma RoundMonotone(x: real, n: int)
    ensures x >= n as real ==> Round(x) >= n
    ensures x <= n as real ==> Round(x) <= n
  {}

  lemma Int16RoundTrip(v: int)
    requires -32768 <= v <= 32767
    ensures FromInt16(Int16(v)[0], Int16(v)[1]) == v
  {}

  /** A value after its trip through three bytes: its signed residue. */
  function Wire24(v: int): int {
    var u := v % TWO24;
    if u >= 0x80_0000 then u - TWO24 else u
  }

  lemma Int24RoundTrip(v: int)
    ensures var b := Int24(v);
      FromInt24(b[0], b[1], b[2]) == Wire24(v)
  {
    var u := v % TWO24;
    var hi, rest := u / 65536, u % 65536;
    assert u == hi * 65536 + rest && u % 256 == rest % 256;
  }

  /** Three bytes hold a value exactly when it is a signed 24-bit integer;
      any other value comes back whole turns away. */
  lemma Wire24Exact(v: int)
    ensures Wire24(v) == v <==> -0x80_0000 <= v < 0x80_0000
    ensures exists turns :: Wire24(v) == v + turns * TWO24
  {
    var q, u := v / TWO24, v % TWO24;
    var turns := if u >= 0x80_0000 then -q - 1 else -q;
    assert Wire24(v) == v + turns * TWO24;
  }

  function OneMeaning(k: Key, count: Short): Decoded {
    map[Scalar(k) := Measure(count, Quantum(k))]
  }

  function ScalarsMeaning(counts: map<Key, Short>, keys: seq<Key>): Decoded
    decreases |counts|, |keys|
  {
    if keys == [] then map[]
    else (if keys[0] in counts then OneMeaning(keys[0], counts[keys[0]]) else map[])
         + ScalarsMeaning(counts, keys[1..])
  }

  function FixMap(lat: Measure, lon: Measure, alt: Measure): Decoded {
    map[Fix(Lat) := lat, Fix(Lon) := lon, Fix(AltM) := alt]
  }

  function FixMeaning(fix: FixCounts): Decoded {
    match fix
    case NoFix => map[]
    case Fixed(lat, lon, alt) =>
      FixMap(Measure(lat, AxisQuantum(Lat)), Measure(lon, AxisQuantum(Lon)), Measure(alt, AxisQuantum(AltM)))
  }

  /** What a sample says: every scalar column in it, and all three coordinates
      of its fix. */
  function Meaning(s: Sample): Decoded { CountsMeaning(s.counts) + FixMeaning(s.fix) }

  function CountsMeaning(counts: map<Key, Short>): Decoded {
    map k | k in counts :: Scalar(k) := Measure(counts[k], Quantum(k))
  }

  /** The sample a receiver holds: coordinates have been through three bytes. */
  function Arrived(s: Sample): Sample { s.(fix := FixArrived(s.fix)) }

  function FixArrived(fix: FixCounts): FixCounts {
    match fix
    case NoFix => NoFix
    case Fixed(lat, lon, alt) => Fixed(Wire24(lat), Wire24(lon), Wire24(alt))
  }

  lemma FieldDecodes(p: seq<Byte>, i: nat, acc: Decoded, k: Key, count: Short)
    requires i + 4 <= |p| && p[i..i + 4] == Field(k, count)
    ensures DecodedFrom(p, i, acc) == DecodedFrom(p, i + 4, acc + OneMeaning(k, count))
  {
    var f := Field(k, count);
    forall j | 0 <= j < 4 ensures p[i + j] == f[j] { assert p[i..i + 4][j] == p[i + j]; }
    assert p[i] == p[i + 0] && p[i + 1] == f[1];
    Int16RoundTrip(count);
    assert f[2] == Int16(count)[0] && f[3] == Int16(count)[1];
    NameOfChannel(k);
    var x := Measure(count, Quantum(k));
    assert acc[Scalar(k) := x] == acc + map[Scalar(k) := x];
  }

  lemma NameOfChannel(k: Key)
    ensures NameOf(Channel(k)) == Scalar(k)
    ensures k != TempC ==> AnalogUnit(Channel(k)) == Quantum(k)
  {
    match k
    case TempC =>
    case _ =>
  }

  lemma {:induction false} FieldsDecode(p: seq<Byte>, i: nat, acc: Decoded, counts: map<Key, Short>,
                                        keys: seq<Key>, n: nat)
    requires n == |Fields(counts, keys)| && i + n <= |p|
    requires p[i..i + n] == Fields(counts, keys)
    ensures DecodedFrom(p, i, acc) == DecodedFrom(p, i + n, acc + ScalarsMeaning(counts, keys))
    decreases |keys|
  {
    if keys == [] {
      assert acc + ScalarsMeaning(counts, keys) == acc;
    } else if keys[0] in counts {
      FirstFieldDecodes(p, i, acc, counts, keys, n);
      FieldsDecode(p, i + 4, acc + OneMeaning(keys[0], counts[keys[0]]), counts, keys[1..], n - 4);
    } else {
      FieldsDecode(p, i, acc, counts, keys[1..], n);
      assert map[] + ScalarsMeaning(counts, keys[1..]) == ScalarsMeaning(counts, keys[1..]);
    }
  }

  /** The first field decoded, the rest of the bytes are the rest of the fields. */
  lemma FirstFieldDecodes(p: seq<Byte>, i: nat, acc: Decoded, counts: map<Key, Short>, keys: seq<Key>, n: nat)
    requires keys != [] && keys[0] in counts && n == |Fields(counts, keys)| && i + n <= |p|
    requires p[i..i + n] == Fields(counts, keys)
    ensures n == 4 + |Fields(counts, keys[1..])| && p[i + 4..i + n] == Fields(counts, keys[1..])
    ensures DecodedFrom(p, i, acc) == DecodedFrom(p, i + 4, acc + OneMeaning(keys[0], counts[keys[0]]))
    ensures acc + OneMeaning(keys[0], counts[keys[0]]) + ScalarsMeaning(counts, keys[1..]) == acc + ScalarsMeaning(counts, keys)
  {
    var k, rest := keys[0], keys[1..];
    SliceParts(p, i, Field(k, counts[k]), Fields(counts, rest));
    FieldDecodes(p, i, acc, k, counts[k]);
    MapPlusAssoc(acc, OneMeaning(k, counts[k]), ScalarsMeaning(counts, rest));
  }

  lemma MapPlusAssoc(a: Decoded, b: Decoded, c: Decoded)
    ensures (a + b) + c == a + (b + c)
  {}

  lemma SliceParts(p: seq<Byte>, i: nat, f: seq<Byte>, g: seq<Byte>)
    requires i + |f| + |g| <= |p| && p[i..i + |f| + |g|] == f + g
    ensures p[i..i + |f|] == f && p[i + |f|..i + |f| + |g|] == g
  {
    var both := p[i..i + |f| + |g|];
    assert p[i..i + |f|] == both[..|f|] && p[i + |f|..i + |f| + |g|] == both[|f|..];
  }

  lemma TriplesDecode(p: seq<Byte>, i: nat, acc: Decoded, a: seq<Byte>, b: seq<Byte>, c: seq<Byte>)
    requires |a| == |b| == |c| == 3 && i <= |p| && p[i..] == [CH_GPS, LPP_GPS] + a + b + c
    ensures DecodedFrom(p, i, acc) == acc + FixMap(
      Measure(FromInt24(a[0], a[1], a[2]), AxisQuantum(Lat)),
      Measure(FromInt24(b[0], b[1], b[2]), AxisQuantum(Lon)),
      Measure(FromInt24(c[0], c[1], c[2]), AxisQuantum(AltM)))
  {
    var f := p[i..];
    assert |p| == i + 11 && p[i + 1] == f[1];
    assert p[i + 2] == f[2] && p[i + 3] == f[3] && p[i + 4] == f[4] && p[i + 5] == f[5] && p[i + 6] == f[6];
    assert p[i + 7] == f[7] && p[i + 8] == f[8] && p[i + 9] == f[9] && p[i + 10] == f[10];
    var x := Measure(FromInt24(a[0], a[1], a[2]), AxisQuantum(Lat));
    var y := Measure(FromInt24(b[0], b[1], b[2]), AxisQuantum(Lon));
    var z := Measure(FromInt24(c[0], c[1], c[2]), AxisQuantum(AltM));
    var next := acc[Fix(Lat) := x][Fix(Lon) := y][Fix(AltM) := z];
    assert DecodedFrom(p, i + 11, next) == next;
    MapThree(acc, x, y, z);
  }

  lemma MapThree(acc: Decoded, x: Measure, y: Measure, z: Measure)
    ensures acc[Fix(Lat) := x][Fix(Lon) := y][Fix(AltM) := z]
         == acc + FixMap(x, y, z)
  {}

  /** Scalar fields first: what follows them is decoded on top. */
  lemma ScalarsFirst(counts: map<Key, Short>, keys: seq<Key>, tail: seq<Byte>, p: seq<Byte>)
    requires p == Fields(counts, keys) + tail
    ensures DecodedOf(p) == DecodedFrom(p, |Fields(counts, keys)|, ScalarsMeaning(counts, keys))
    ensures p[|Fields(counts, keys)|..] == tail
  {
    var n, scalars := |Fields(counts, keys)|, ScalarsMeaning(counts, keys);
    assert p[0..n] == Fields(counts, keys);
    FieldsDecode(p, 0, map[], counts, keys, n);
    assert map[] + scalars == scalars;
  }

  /** Then a fix or none. */
  lemma FixDecodes(p: seq<Byte>, n: nat, acc: Decoded, fix: FixCounts)
    requires n <= |p| && p[n..] == FixField(fix)
    ensures DecodedFrom(p, n, acc) == acc + FixMeaning(FixArrived(fix))
  {
    match fix
    case NoFix =>
      assert acc + FixMeaning(FixArrived(fix)) == acc;
    case Fixed(lat, lon, alt) =>
      Int24RoundTrip(lat);
      Int24RoundTrip(lon);
      Int24RoundTrip(alt);
      TriplesDecode(p, n, acc, Int24(lat), Int24(lon), Int24(alt));
  }

  /** Decoding a payload gives back exactly the sample that was encoded. */
  lemma RoundTrip(s: Sample)
    ensures DecodedOf(Wire(s)) == Meaning(Arrived(s))
  {
    ScalarsFirst(s.counts, ORDER, FixField(s.fix), Wire(s));
    FixDecodes(Wire(s), |Fields(s.counts, ORDER)|, ScalarsMeaning(s.counts, ORDER), s.fix);
    forall k ensures k in ORDER { OrderComplete(k); }
    CompleteMeaning(s.counts, ORDER);
  }

  lemma {:induction false} ScalarsMeaningNames(counts: map<Key, Short>, keys: seq<Key>, n: Name)
    ensures n in ScalarsMeaning(counts, keys) <==> n.Scalar? && n.key in keys && n.key in counts
    ensures n in ScalarsMeaning(counts, keys) ==>
      ScalarsMeaning(counts, keys)[n] == Measure(counts[n.key], Quantum(n.key))
    decreases |keys|
  {
    if keys != [] {
      ScalarsMeaningNames(counts, keys[1..], n);
    }
  }

  /** Looking at the columns in an order that misses none misses nothing. */
  lemma CompleteMeaning(counts: map<Key, Short>, keys: seq<Key>)
    requires forall k :: k in keys
    ensures ScalarsMeaning(counts, keys) == CountsMeaning(counts)
  {
    var d := ScalarsMeaning(counts, keys);
    forall n ensures n in d <==> n in CountsMeaning(counts) {
      ScalarsMeaningNames(counts, keys, n);
    }
    forall n | n in d ensures d[n] == CountsMeaning(counts)[n] {
      ScalarsMeaningNames(counts, keys, n);
    }
  }

  lemma OrderComplete(k: Key)
    ensures k in ORDER
  {
    assert ORDER[0] == TempC && ORDER[1] == Ph && ORDER[2] == TdsPpm && ORDER[3] == TurbidityNtu;
    assert ORDER[4] == OrpMv && ORDER[5] == ChlorineMgl && ORDER[6] == ConductivityUscm;
    assert ORDER[7] == SalinityPpt && ORDER[8] == FlowRateGpm && ORDER[9] == FlowTotalGal;
  }

  function OnAir(k: Key, x: real): real { Count(k, x) as real * Quantum(k) }

  function AxisOnAir(a: Position, x: real): real {
    Wire24(AxisCount(a, x)) as real * AxisQuantum(a)
  }

  /** Every scalar arrives: exact to half a quantum inside the range of the
      field, and pinned to the nearer end outside it. */
  lemma ScalarAccuracy(k: Key, x: real)
    ensures -32768.0 * Quantum(k) <= x <= 32767.0 * Quantum(k) ==>
      -0.5 * Quantum(k) <= OnAir(k, x) - x <= 0.5 * Quantum(k)
    ensures x > 32767.0 * Quantum(k) ==> OnAir(k, x) == 32767.0 * Quantum(k)
    ensures x < -32768.0 * Quantum(k) ==> OnAir(k, x) == -32768.0 * Quantum(k)
  {
    var y := x * PerUnit(k);
    RoundNear(y);
    RoundMonotone(y, 32767);
    RoundMonotone(y, -32768);
    match k
    case TempC =>
    case ConductivityUscm =>
    case FlowTotalGal =>
    case _ =>
  }

  /** A coordinate arrives to half a quantum exactly when its count fits in 24
      bits; otherwise it is off by whole turns of the 24-bit counter. */
  lemma AxisAccuracy(a: Position, x: real)
    ensures -0x80_0000 <= AxisCount(a, x) < 0x80_0000 <==>
      -0.5 * AxisQuantum(a) <= AxisOnAir(a, x) - x <= 0.5 * AxisQuantum(a)
  {
    var count := AxisCount(a, x);
    Wire24Exact(count);
    var turns :| Wire24(count) == count + turns * TWO24;
    RoundNear(x * AxisPerUnit(a));
    assert turns == 0 || turns >= 1 || turns <= -1;
  }

  /** The reading `r` as an exact interval property of what is decoded. */
  ghost predicate Near(d: Decoded, n: Name, x: real, quantum: real) {
    n in d && -0.5 * quantum <= d[n].Value() - x <= 0.5 * quantum
  }

  predicate InRange(k: Key, x: real) { -32768.0 * Quantum(k) <= x <= 32767.0 * Quantum(k) }

  predicate AxisInRange(a: Position, x: real) { -0x80_0000 <= AxisCount(a, x) < 0x80_0000 }

  /** What a receiver decodes from the payload of reading `r`. */
  function Delivered(r: Reading): Decoded { DecodedOf(Wire(Quantised(r))) }

  lemma DeliveredMeaning(r: Reading, d: Decoded)
    requires d == Delivered(r)
    ensures d == Meaning(Arrived(Quantised(r)))
  {
    RoundTrip(Quantised(r));
  }

  lemma MeaningAt(counts: map<Key, Short>, fix: FixCounts, n: Name)
    ensures var d := CountsMeaning(counts) + FixMeaning(fix);
      (n in d <==> (n.Scalar? && n.key in counts) || (n.Fix? && fix.Fixed?)) &&
      (n.Scalar? && n.key in counts ==> d[n] == Measure(counts[n.key], Quantum(n.key))) &&
      (n.Fix? && fix.Fixed? ==> d[n] == Measure(AxisOf(fix, n.axis), AxisQuantum(n.axis)))
  {
    if n.Fix? && fix.Fixed? {
      FixNames(fix, n.axis);
    }
  }

  function AxisOf(fix: FixCounts, a: Position): int
    requires fix.Fixed?
  {
    match a case Lat => fix.lat case Lon => fix.lon case AltM => fix.alt
  }

  /** End to end over the codec: a column is decoded exactly when the reading
      had it, to half a quantum when it was in range. */
  lemma ScalarArrives(r: Reading, k: Key)
    ensures Scalar(k) in Delivered(r) <==> k in r.scalars
    ensures k in r.scalars && InRange(k, r.scalars[k]) ==>
      Near(Delivered(r), Scalar(k), r.scalars[k], Quantum(k))
  {
    var d := Delivered(r);
    ScalarDelivered(r, k, d);
    if k in r.scalars {
      ScalarNear(k, r.scalars[k], d);
    }
  }

  lemma ScalarDelivered(r: Reading, k: Key, d: Decoded)
    requires d == Delivered(r)
    ensures Scalar(k) in d <==> k in r.scalars
    ensures k in r.scalars ==> d[Scalar(k)] == Measure(Count(k, r.scalars[k]), Quantum(k))
  {
    DeliveredMeaning(r, d);
    MeaningAt(Quantised(r).counts, Arrived(Quantised(r)).fix, Scalar(k));
  }

  lemma ScalarNear(k: Key, x: real, d: Decoded)
    requires Scalar(k) in d && d[Scalar(k)] == Measure(Count(k, x), Quantum(k))
    ensures InRange(k, x) ==> Near(d, Scalar(k), x, Quantum(k))
  {
    ScalarAccuracy(k, x);
  }

  function AxisReading(r: Reading, a: Position): real
    requires Lat in r.fix && Lon in r.fix
  {
    match a case Lat => r.fix[Lat] case Lon => r.fix[Lon] case AltM => Altitude(r.fix)
  }

  lemma FixDelivered(r: Reading, a: Position)
    ensures Fix(a) in Delivered(r) <==> Lat in r.fix && Lon in r.fix
    ensures Lat in r.fix && Lon in r.fix ==>
      Delivered(r)[Fix(a)] == Measure(Wire24(AxisCount(a, AxisReading(r, a))), AxisQuantum(a))
  {
    var d := Delivered(r);
    DeliveredMeaning(r, d);
    var s := Quantised(r);
    MeaningAt(s.counts, Arrived(s).fix, Fix(a));
  }

  lemma AxisNear(a: Position, x: real, d: Decoded)
    requires Fix(a) in d && d[Fix(a)] == Measure(Wire24(AxisCount(a, x)), AxisQuantum(a))
    ensures AxisInRange(a, x) <==> Near(d, Fix(a), x, AxisQuantum(a))
  {
    AxisAccuracy(a, x);
  }

  /** The fix is decoded exactly when both coordinates were there, and each
      axis is right exactly when its count fits three bytes. */
  lemma FixArrives(r: Reading, a: Position, d: Decoded)
    requires d == Delivered(r)
    ensures Fix(a) in d <==> Lat in r.fix && Lon in r.fix
    ensures Lat in r.fix && Lon in r.fix ==>
      (AxisInRange(a, AxisReading(r, a)) <==> Near(d, Fix(a), AxisReading(r, a), AxisQuantum(a)))
  {
    FixDelivered(r, a);
    if Lat in r.fix && Lon in r.fix {
      AxisNear(a, AxisReading(r, a), d);
    }
  }

  lemma FixNames(fix: FixCounts, a: Position)
    requires fix.Fixed?
    ensures Fix(a) in FixMeaning(fix)
    ensures FixMeaning(fix)[Fix(a)] == Measure(AxisOf(fix, a), AxisQuantum(a))
  {
    match a
    case Lat => case Lon => case AltM =>
  }
}
