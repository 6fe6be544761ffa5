/**
 * The decision logic of the battery indicator shown for each UAV: the voltage
 * of one cell, the percentage estimated from it, the status level, the icon
 * chosen for the status or percentage, and the label text chosen according
 * to the user's display preference.
 */
module Battery {
  import opened Wrappers

  /** A numeric prop as the component receives it: absent, null, or a number. */
  datatype NumberProp = Undefined | Null | Number(value: real)

  /** lodash `isNil`: undefined or null. */
  predicate IsNil(x: NumberProp) {
    x.Undefined? || x.Null?
  }

  /** JavaScript truthiness of a numeric prop: only a nonzero number is truthy. */
  predicate Truthy(x: NumberProp) {
    x.Number? && x.value != 0.0
  }

  /** JavaScript's conversion to a number of a prop that is not undefined: null is 0. */
  function ToNumber(x: NumberProp): real
    requires !x.Undefined?
  {
    if x.Null? then 0.0 else x.value
  }

  /** `Math.round`: the nearest integer, with halves rounded up. */
  function Round(x: real): (r: int)
    ensures r as real - 0.5 <= x < r as real + 0.5
  {
    (x + 0.5).Floor
  }

  lemma RoundMonotone(x: real, y: real)
    requires x <= y
    ensures Round(x) <= Round(y)
  {
  }

  /** Per-cell voltage thresholds of a battery type. */
  datatype VoltageThresholds = VoltageThresholds(
    empty: real, critical: real, warning: real, ok: real, nearFull: real, full: real)

  /** The user's battery settings. */
  datatype Settings = Settings(
    defaultCellCount: real,
    voltageThresholds: Option<VoltageThresholds>,
    displayStyle: Option<string>)

  /** `settings.voltageThresholds`, when there are settings and they have thresholds. */
  function Thresholds(settings: Option<Settings>): Option<VoltageThresholds> {
    if settings.Some? then settings.value.voltageThresholds else None
  }

  // ---------------------------------------------------------------------
  // Voltage per cell and estimated percentage

  /** The cell count after defaulting: the settings' default, or 3 without settings. */
  function CellCount(cellCount: NumberProp, settings: Option<Settings>): real {
    if cellCount.Undefined? then
      (if settings.Some? then settings.value.defaultCellCount else 3.0)
    else
      ToNumber(cellCount)
  }

  /**
   * The voltage of one cell: the battery voltage shared among the cells, or 0
   * without a voltage or with fewer than one cell.
   */
  function VoltagePerCell(voltage: NumberProp, cellCount: NumberProp, settings: Option<Settings>): (r: real)
    ensures IsNil(voltage) || CellCount(cellCount, settings) < 1.0 ==> r == 0.0
    ensures voltage.Number? && CellCount(cellCount, settings) >= 1.0 ==>
              r * CellCount(cellCount, settings) == voltage.value
    ensures voltage.Number? && voltage.value >= 0.0 ==> 0.0 <= r <= voltage.value
  {
    var count := CellCount(cellCount, settings);
    if voltage.Undefined? || count < 1.0 then
      0.0
    else
      assert ToNumber(voltage) >= 0.0 ==> 0.0 <= ToNumber(voltage) / count <= ToNumber(voltage) by {
        if ToNumber(voltage) >= 0.0 { QuotientBounds(ToNumber(voltage), count); }
      }
      ToNumber(voltage) / count
  }

  lemma QuotientBounds(x: real, d: real)
    requires x >= 0.0 && d >= 1.0
    ensures 0.0 <= x / d <= x
  {
    var q := x / d;
    assert q * d == x;
    assert q * d - q == q * (d - 1.0);
    assert q * (d - 1.0) >= 0.0;
  }

  /** A higher battery voltage never gives a lower voltage per cell. */
  lemma VoltagePerCellMonotone(v: real, w: real, cellCount: NumberProp, settings: Option<Settings>)
    requires v <= w
    ensures VoltagePerCell(Number(v), cellCount, settings) <= VoltagePerCell(Number(w), cellCount, settings)
  {
    var count := CellCount(cellCount, settings);
    if count >= 1.0 {
      var a, b := VoltagePerCell(Number(v), cellCount, settings), VoltagePerCell(Number(w), cellCount, settings);
      assert a * count == v && b * count == w;
      assert (b - a) * count == w - v;
      FactorSign(b - a, count);
    }
  }

  /**
   * A crude percentage estimated from the voltage of one cell: none without
   * thresholds, 0 at or below `empty`, 100 at or above `full`, and the
   * rounded linear interpolation in between.
   */
  function EstimatePercentage(voltagePerCell: real, settings: Option<Settings>): (r: Option<int>)
    ensures r.None? <==> Thresholds(settings).None?
    ensures r.Some? ==> 0 <= r.value <= 100
    ensures r.Some? && voltagePerCell <= Thresholds(settings).value.empty ==> r.value == 0
    ensures r.Some? && Thresholds(settings).value.empty < voltagePerCell && Thresholds(settings).value.full <= voltagePerCell ==>
              r.value == 100
    ensures r.Some? && Thresholds(settings).value.empty < voltagePerCell < Thresholds(settings).value.full ==>
              var t := Thresholds(settings).value;
              var exact := (voltagePerCell - t.empty) / (t.full - t.empty) * 100.0;
              r.value as real - 0.5 <= exact < r.value as real + 0.5
  {
    match Thresholds(settings)
    case None => None
    case Some(t) =>
      if voltagePerCell <= t.empty then
        Some(0)
      else if voltagePerCell >= t.full then
        Some(100)
      else
        var fraction := (voltagePerCell - t.empty) / (t.full - t.empty);
        assert 0.0 < fraction < 1.0 by { FractionBounds(voltagePerCell, t.empty, t.full); }
        Some(Round(fraction * 100.0))
  }

  lemma FractionBounds(v: real, lo: real, hi: real)
    requires lo < v < hi
    ensures 0.0 < (v - lo) / (hi - lo) < 1.0
  {
    var d := hi - lo;
    var f := (v - lo) / d;
    assert f * d == v - lo;
    var e := 1.0 - f;
    assert e * d == d - f * d;
    assert d - f * d == hi - v;
    assert e * d == hi - v;
    assert e * d > 0.0;
    FactorSign(e, d);
  }

  /** With a positive factor `d`, the product `a * d` has the sign of `a`. */
  lemma FactorSign(a: real, d: real)
    requires d > 0.0
    ensures a * d > 0.0 ==> a > 0.0
    ensures a * d >= 0.0 ==> a >= 0.0
  {
  }

  /** A higher voltage per cell never gives a lower estimated percentage. */
  lemma EstimatePercentageMonotone(v: real, w: real, settings: Option<Settings>)
    requires v <= w
    requires Thresholds(settings).Some?
    ensures EstimatePercentage(v, settings).value <= EstimatePercentage(w, settings).value
  {
    var t := Thresholds(settings).value;
    if t.empty < v && w < t.full {
      var d := t.full - t.empty;
      var a, b := (v - t.empty) / d, (w - t.empty) / d;
      assert a * d == v - t.empty && b * d == w - t.empty;
      assert (b - a) * d == w - v;
      FactorSign(b - a, d);
      RoundMonotone(a * 100.0, b * 100.0);
    }
  }

  // ---------------------------------------------------------------------
  // Status

  datatype Status = Full | NearFull | Ok | Warning | Error | Unknown

  /** How good a known status is: Error lowest, Full highest. */
  function Rank(s: Status): nat
    requires s != Unknown
  {
    match s
    case Error => 0
    case Warning => 1
    case Ok => 2
    case NearFull => 3
    case Full => 4
  }

  /** The percentage thresholds above which a status is reached (`percentageThresholds`). */
  const FullPercentage := 95.0
  const NearFullPercentage := 60.0
  const OkPercentage := 20.0
  const WarningPercentage := 10.0

  /** The status for a known percentage: the band of the thresholds it lies in. */
  function StatusOfPercentage(p: real): (r: Status)
    ensures r == Full <==> p > 95.0
    ensures r == NearFull <==> 60.0 < p <= 95.0
    ensures r == Ok <==> 20.0 < p <= 60.0
    ensures r == Warning <==> 10.0 < p <= 20.0
    ensures r == Error <==> p <= 10.0
  {
    if p > FullPercentage then Full
    else if p > NearFullPercentage then NearFull
    else if p > OkPercentage then Ok
    else if p > WarningPercentage then Warning
    else Error
  }

  /** The status for a voltage per cell; the test for Full is strict, the others are not. */
  function StatusOfVoltagePerCell(v: real, t: VoltageThresholds): (r: Status)
    ensures r != Unknown
    ensures r == Full <==> v > t.nearFull
    ensures r == Error ==> v < t.critical
  {
    if v > t.nearFull then Full
    else if v >= t.ok then NearFull
    else if v >= t.warning then Ok
    else if v >= t.critical then Warning
    else Error
  }

  /** With thresholds in their natural order, each status is one band of voltages. */
  lemma VoltageBands(v: real, t: VoltageThresholds)
    requires t.critical <= t.warning <= t.ok <= t.nearFull
    ensures StatusOfVoltagePerCell(v, t) == NearFull <==> t.ok <= v <= t.nearFull
    ensures StatusOfVoltagePerCell(v, t) == Ok <==> t.warning <= v < t.ok
    ensures StatusOfVoltagePerCell(v, t) == Warning <==> t.critical <= v < t.warning
    ensures StatusOfVoltagePerCell(v, t) == Error <==> v < t.critical
  {
  }

  /** A higher percentage never gives a worse status. */
  lemma StatusOfPercentageMonotone(p: real, q: real)
    requires p <= q
    ensures Rank(StatusOfPercentage(p)) <= Rank(StatusOfPercentage(q))
  {
  }

  /** A higher voltage per cell never gives a worse status, whatever the thresholds. */
  lemma StatusOfVoltagePerCellMonotone(v: real, w: real, t: VoltageThresholds)
    requires v <= w
    ensures Rank(StatusOfVoltagePerCell(v, t)) <= Rank(StatusOfVoltagePerCell(w, t))
  {
  }

  /**
   * The battery status: from a truthy percentage when there is one; otherwise
   * from the voltage per cell when the settings have thresholds; otherwise
   * unknown. A percentage of 0 counts as no percentage.
   */
  function BatteryStatus(voltage: NumberProp, percentage: NumberProp, cellCount: NumberProp, settings: Option<Settings>): (r: Status)
    ensures r == Unknown <==> !Truthy(percentage) && Thresholds(settings).None?
    ensures Truthy(percentage) ==> r == StatusOfPercentage(percentage.value)
    ensures !Truthy(percentage) && Thresholds(settings).Some? ==>
              r == StatusOfVoltagePerCell(VoltagePerCell(voltage, cellCount, settings), Thresholds(settings).value)
  {
    if Truthy(percentage) then
      StatusOfPercentage(percentage.value)
    else if settings.None? || settings.value.voltageThresholds.None? then
      Unknown
    else
      StatusOfVoltagePerCell(VoltagePerCell(voltage, cellCount, settings), settings.value.voltageThresholds.value)
  }

  /** With a percentage, a higher percentage never gives a worse status. */
  lemma BatteryStatusMonotoneInPercentage(voltage: NumberProp, p: real, q: real, cellCount: NumberProp, settings: Option<Settings>)
    requires p != 0.0 && q != 0.0 && p <= q
    ensures Rank(BatteryStatus(voltage, Number(p), cellCount, settings)) <= Rank(BatteryStatus(voltage, Number(q), cellCount, settings))
  {
    StatusOfPercentageMonotone(p, q);
  }

  /** Without a percentage, a higher voltage never gives a worse status. */
  lemma BatteryStatusMonotoneInVoltage(v: real, w: real, percentage: NumberProp, cellCount: NumberProp, settings: Option<Settings>)
    requires v <= w && !Truthy(percentage) && Thresholds(settings).Some?
    ensures Rank(BatteryStatus(Number(v), percentage, cellCount, settings)) <= Rank(BatteryStatus(Number(w), percentage, cellCount, settings))
  {
    VoltagePerCellMonotone(v, w, cellCount, settings);
    StatusOfVoltagePerCellMonotone(
      VoltagePerCell(Number(v), cellCount, settings), VoltagePerCell(Number(w), cellCount, settings), Thresholds(settings).value);
  }

  // ---------------------------------------------------------------------
  // Icon

  /** The icons: an alert sign, a battery filled to a level (charging or not), or a blank. */
  datatype Icon = Alert | Level(percent: nat) | ChargingLevel(percent: nat) | Blank

  /** The icons of a battery that is not charging, by index 0 to 11. */
  const BatteryIcons: seq<Icon> := [
    Alert, Alert, Level(20), Level(30), Level(50), Level(50),
    Level(60), Level(80), Level(80), Level(90), Level(100), Blank]

  /** The icons of a charging battery, by index 0 to 11. */
  const ChargingBatteryIcons: seq<Icon> := [
    ChargingLevel(20), ChargingLevel(20), ChargingLevel(20), ChargingLevel(30), ChargingLevel(50), ChargingLevel(50),
    ChargingLevel(60), ChargingLevel(80), ChargingLevel(80), ChargingLevel(90), ChargingLevel(100), Blank]

  /** The icon index of each status (`batteryIconIndexByStatus`). */
  function IconIndexOfStatus(s: Status): (i: nat)
    ensures i < |BatteryIcons| && i < |ChargingBatteryIcons|
    ensures BatteryIcons[i] == Blank <==> s == Unknown
  {
    match s
    case Full => 10
    case NearFull => 9
    case Ok => 8
    case Warning => 3
    case Error => 0
    case Unknown => 11
  }

  /** `Math.min(Math.max(p, 0), 100)`. */
  function Clamp(p: real): (r: real)
    ensures 0.0 <= r <= 100.0
    ensures 0.0 <= p <= 100.0 ==> r == p
    ensures p < 0.0 ==> r == 0.0
    ensures p > 100.0 ==> r == 100.0
  {
    var atLeastZero := if p > 0.0 then p else 0.0;
    if atLeastZero < 100.0 then atLeastZero else 100.0
  }

  /**
   * The icon index: from the status when the percentage is undefined,
   * otherwise the clamped percentage in tens, rounded. Null counts as 0.
   */
  function IconIndex(percentage: NumberProp, status: Status): (i: int)
    ensures 0 <= i < |BatteryIcons| && i < |ChargingBatteryIcons|
    ensures percentage.Undefined? ==> i == IconIndexOfStatus(status)
    ensures !percentage.Undefined? ==>
              i <= 10 && i as real - 0.5 <= Clamp(ToNumber(percentage)) / 10.0 < i as real + 0.5
  {
    if percentage.Undefined? then
      IconIndexOfStatus(status)
    else
      Round(Clamp(ToNumber(percentage)) / 10.0)
  }

  /** A higher percentage never shows a lower icon index. */
  lemma IconIndexMonotone(p: real, q: real, status: Status)
    requires p <= q
    ensures IconIndex(Number(p), status) <= IconIndex(Number(q), status)
  {
    RoundMonotone(Clamp(p) / 10.0, Clamp(q) / 10.0);
  }

  /** The icon shown: an entry of the charging or the plain icon table. */
  function BatteryIcon(percentage: NumberProp, status: Status, charging: bool): (icon: Icon)
    ensures icon == Blank <==> percentage.Undefined? && status == Unknown
    ensures charging ==> icon.ChargingLevel? || icon == Blank
    ensures !charging ==> !icon.ChargingLevel?
  {
    var icons := if charging then ChargingBatteryIcons else BatteryIcons;
    icons[IconIndex(percentage, status)]
  }

  // ---------------------------------------------------------------------
  // Label

  /** The label text: "???", a voltage with the unit V, or a percentage with %. */
  datatype Label = NoData | Volts(voltage: real) | Percent(percentage: real)

  /** The percentage estimated from a battery voltage, via its voltage per cell. */
  function EstimateFromVoltage(voltage: NumberProp, cellCount: NumberProp, settings: Option<Settings>): (r: Option<int>)
    ensures r.None? <==> Thresholds(settings).None?
    ensures r.Some? ==> 0 <= r.value <= 100
  {
    EstimatePercentage(VoltagePerCell(voltage, cellCount, settings), settings)
  }

  /** `settings.displayStyle`, defaulting to "voltage". */
  function DisplayStyle(settings: Option<Settings>): string {
    if settings.Some? && settings.value.displayStyle.Some? then settings.value.displayStyle.value else "voltage"
  }

  /**
   * The label: nothing known gives "???"; a voltage alone is shown as it is,
   * or as the estimated percentage when the user forces percentages and an
   * estimate exists; a percentage is shown unless the user prefers voltages
   * and there is a voltage.
   */
  function BatteryLabel(voltage: NumberProp, percentage: NumberProp, cellCount: NumberProp, settings: Option<Settings>): (r: Label)
    ensures r == NoData <==> IsNil(percentage) && IsNil(voltage)
    ensures r.Volts? ==> voltage == Number(r.voltage)
    ensures r.Percent? && !IsNil(percentage) ==> percentage == Number(r.percentage)
    ensures r.Percent? && IsNil(percentage) ==>
              DisplayStyle(settings) == "forcedPercentage" && 0.0 <= r.percentage <= 100.0
    ensures r.Percent? && IsNil(percentage) ==>
              EstimateFromVoltage(voltage, cellCount, settings).Some? &&
              r.percentage == EstimateFromVoltage(voltage, cellCount, settings).value as real
    ensures IsNil(percentage) && voltage.Number? ==>
              (r.Percent? <==> DisplayStyle(settings) == "forcedPercentage" && Thresholds(settings).Some?)
    ensures percentage.Number? && voltage.Number? ==> (r.Volts? <==> DisplayStyle(settings) == "voltage")
    ensures percentage.Number? && IsNil(voltage) ==> r.Percent?
  {
    var displayStyle := DisplayStyle(settings);
    if IsNil(percentage) then
      if IsNil(voltage) then
        NoData
      else if displayStyle == "forcedPercentage" then
        var estimated := EstimateFromVoltage(voltage, cellCount, settings);
        if estimated.None? then Volts(voltage.value) else Percent(estimated.value as real)
      else
        Volts(voltage.value)
    else if displayStyle != "voltage" || IsNil(voltage) then
      Percent(percentage.value)
    else
      Volts(voltage.value)
  }

  // ---------------------------------------------------------------------
  // The indicator

  /** What the indicator shows: its status (which picks the colours), its icon and its label. */
  datatype Indication = Indication(status: Status, icon: Icon, text: Label)

  /** The indicator combines the status, the icon chosen for it and the label. */
  function Indicator(charging: bool, cellCount: NumberProp, percentage: NumberProp, settings: Option<Settings>, voltage: NumberProp): (r: Indication)
    ensures r.icon == Blank <==> percentage.Undefined? && Thresholds(settings).None?
    ensures percentage.Undefined? && Thresholds(settings).Some? ==> r.icon != Blank && r.status != Unknown
  {
    var status := BatteryStatus(voltage, percentage, cellCount, settings);
    Indication(status, BatteryIcon(percentage, status, charging), BatteryLabel(voltage, percentage, cellCount, settings))
  }
}
