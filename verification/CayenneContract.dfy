/** The codec's bytes as the platform reads them: channels, types and units are
    its contract, not the codec's tables. */
module CayenneContract {
  import opened BitMath
  import opened Cayenne

  /** The platform's contract for a column: channel, type, counts per unit. */
  datatype Slot = Slot(channel: Byte, kind: Byte, perUnit: real)

  const SLOTS: map<Key, Slot> := map[
    TempC := Slot(1, 0x67, 10.0), Ph := Slot(2, 0x02, 100.0), TdsPpm := Slot(3, 0x02, 100.0),
    TurbidityNtu := Slot(4, 0x02, 100.0), OrpMv := Slot(5, 0x02, 100.0), ChlorineMgl := Slot(10, 0x02, 100.0),
    ConductivityUscm := Slot(11, 0x02, 0.1), SalinityPpt := Slot(12, 0x02, 100.0),
    FlowRateGpm := Slot(13, 0x02, 100.0), FlowTotalGal := Slot(14, 0x02, 0.1)]

  function Signed16(hi: Byte, lo: Byte): int {
    var h: int, l: int := hi, lo;
    256 * h + l - if h >= 128 then 65536 else 0
  }

  /** `v` is the count nearest to `x`, the even one of two, within sixteen bits. */
  predicate Nearest16(v: int, x: real) {
    && -32768 <= v <= 32767
    && (x > 32767.0 ==> v == 32767) && (x < -32768.0 ==> v == -32768)
    && (-32768.0 <= x <= 32767.0 ==>
          -0.5 <= v as real - x <= 0.5 && (v as real - x == 0.5 || v as real - x == -0.5 ==> v % 2 == 0))
  }

  lemma CountNearest(x: real)
    ensures Nearest16(Clamp(Round(x)), x)
  {}

  lemma SlotOf(k: Key)
    ensures k in SLOTS && SLOTS[k] == Slot(Channel(k), if k == TempC then 0x67 else 0x02, PerUnit(k))
  {}

  lemma {:induction false} FieldsOfOne(counts: map<Key, Short>, keys: seq<Key>, k: Key)
    requires counts.Keys == {k} && forall i, j :: 0 <= i < j < |keys| ==> keys[i] != keys[j]
    ensures Fields(counts, keys) == if k in keys then Field(k, counts[k]) else []
    decreases |keys|
  {
    if keys != [] {
      FieldsOfOne(counts, keys[1..], k);
    }
  }

  lemma OneWired(k: Key, n: Short, keys: seq<Key>)
    requires keys == ORDER
    ensures Wire(Sample(map[k := n], NoFix)) == Field(k, n)
  {
    KeysDistinct(keys);
    OrderComplete(k);
    FieldsOfOne(map[k := n], keys, k);
  }

  lemma KeysDistinct(keys: seq<Key>)
    requires keys == ORDER
    ensures forall i, j :: 0 <= i < j < |keys| ==> keys[i] != keys[j]
  {
    forall i, j | 0 <= i < j < |keys| ensures keys[i] != keys[j] { OrderDistinct(i, j); }
  }

  lemma OrderDistinct(i: nat, j: nat)
    requires i < j < |ORDER|
    ensures ORDER[i] != ORDER[j]
  {}

  lemma OneQuantised(k: Key, x: real, n: Short)
    requires n == Count(k, x)
    ensures Quantised(Reading(map[k := x], map[])) == Sample(map[k := n], NoFix)
  {}

  lemma CountOf(k: Key, x: real, perUnit: real)
    requires perUnit == PerUnit(k)
    ensures Nearest16(Count(k, x), x * perUnit)
  {
    CountNearest(x * perUnit);
  }

  /** The four bytes hold a column's channel, its type, and the count nearest
      to the value in the platform's units. */
  predicate Holds(b: seq<Byte>, slot: Slot, x: real) {
    |b| == 4 && b[0] == slot.channel && b[1] == slot.kind && Nearest16(Signed16(b[2], b[3]), x * slot.perUnit)
  }

  lemma FieldHolds(k: Key, x: real, slot: Slot, n: Short)
    requires slot == Slot(Channel(k), if k == TempC then 0x67 else 0x02, PerUnit(k)) && n == Count(k, x)
    ensures Holds(Field(k, n), slot, x)
  {
    CountOf(k, x, slot.perUnit);
    Int16RoundTrip(n);
  }

  /** A column alone on the air, as the platform reads it. */
  lemma ScalarOnTheAir(k: Key, x: real)
    ensures k in SLOTS && Holds(Wire(Quantised(Reading(map[k := x], map[]))), SLOTS[k], x)
  {
    SlotOf(k);
    var n := Count(k, x);
    FieldHolds(k, x, SLOTS[k], n);
    OneQuantised(k, x, n);
    OneWired(k, n, ORDER);
  }

  /** `v` is the count nearest to `x`, the even one of two. */
  predicate Nearest(v: int, x: real) {
    -0.5 <= v as real - x <= 0.5 && (v as real - x == 0.5 || v as real - x == -0.5 ==> v % 2 == 0)
  }

  /** Three bytes, high first, hold the nearest count but for whole turns of
      24 bits. */
  ghost predicate Holds24(b0: Byte, b1: Byte, b2: Byte, x: real) {
    var high: int, mid: int := b0, b1;
    exists v :: Nearest(v, x) && 65536 * high + 256 * mid + b2 == v % 0x100_0000
  }

  lemma AxisHolds(x: real, v: int)
    requires v == Round(x)
    ensures Holds24(Int24(v)[0], Int24(v)[1], Int24(v)[2], x)
  {
    assert Nearest(v, x);
    Residue(v % 0x100_0000);
  }

  lemma Residue(u: nat)
    requires u < 0x100_0000
    ensures 65536 * (u / 65536) + 256 * (u % 65536 / 256) + u % 256 == u
  {}

  lemma NoFields(counts: map<Key, Short>, keys: seq<Key>)
    requires counts == map[]
    ensures Fields(counts, keys) == []
  {}

  lemma FixAlone(fix: map<Position, real>)
    ensures Wire(Quantised(Reading(map[], fix))) == FixField(QuantisedFix(fix))
  {
    var s := Quantised(Reading(map[], fix));
    NoFields(s.counts, ORDER);
  }

  lemma ThreeTriples(x: seq<Byte>, y: seq<Byte>, z: seq<Byte>)
    requires |x| == |y| == |z| == 3
    ensures var b := [CH_GPS, LPP_GPS] + x + y + z;
      |b| == 11 && b[0] == 6 && b[1] == 0x88 && b[2] == x[0] && b[3] == x[1] && b[4] == x[2] &&
      b[5] == y[0] && b[6] == y[1] && b[7] == y[2] && b[8] == z[0] && b[9] == z[1] && b[10] == z[2]
  {}

  /** The eleven bytes of a fix: channel 6, type 0x88, and the three axes. */
  ghost predicate HoldsFix(b: seq<Byte>, lat: real, lon: real, alt: real) {
    && |b| == 11 && b[0] == 6 && b[1] == 0x88
    && Holds24(b[2], b[3], b[4], lat) && Holds24(b[5], b[6], b[7], lon) && Holds24(b[8], b[9], b[10], alt)
  }

  lemma FixHolds(lat: real, lon: real, alt: real)
    ensures HoldsFix(FixField(Fixed(Round(lat), Round(lon), Round(alt))), lat, lon, alt)
  {
    AxisHolds(lat, Round(lat));
    AxisHolds(lon, Round(lon));
    AxisHolds(alt, Round(alt));
    ThreeTriples(Int24(Round(lat)), Int24(Round(lon)), Int24(Round(alt)));
  }

  /** Coordinates in ten-thousandths of a degree and the altitude, zero when
      missing, in hundredths of a metre; nothing without both coordinates. */
  ghost predicate CarriesFix(b: seq<Byte>, fix: map<Position, real>) {
    if Lat in fix && Lon in fix then
      HoldsFix(b, fix[Lat] * 10000.0, fix[Lon] * 10000.0, if AltM in fix then fix[AltM] * 100.0 else 0.0)
    else b == []
  }

  lemma FieldCarries(fix: map<Position, real>)
    ensures CarriesFix(FixField(QuantisedFix(fix)), fix)
  {
    if Lat in fix && Lon in fix {
      FixHolds(fix[Lat] * 10000.0, fix[Lon] * 10000.0, Altitude(fix) * 100.0);
    }
  }

  /** A fix alone on the air, as the platform reads it. */
  lemma FixOnTheAir(fix: map<Position, real>)
    ensures CarriesFix(Wire(Quantised(Reading(map[], fix))), fix)
  {
    FixAlone(fix);
    FieldCarries(fix);
  }
}
