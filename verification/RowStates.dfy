/** The classification of parsed rows: every one is a stop, suspicious or modelled, and the counts account for all. */
module RowStates {
  import opened Outcomes

  datatype RawRow = RawRow(i1: real, i2: real, i3: real, i4: real, zl: real, sd: real)

  datatype Thresholds = Thresholds(current: real, speed: real)

  predicate AllMotorsNearZero(row: RawRow, t: Thresholds) {
    row.i1 <= t.current && row.i2 <= t.current && row.i3 <= t.current && row.i4 <= t.current
  }

  predicate AnyMotorCurrent(row: RawRow, t: Thresholds) {
    row.i1 > t.current || row.i2 > t.current || row.i3 > t.current || row.i4 > t.current
  }

  /** Standing still without current. */
  predicate IsStop(row: RawRow, t: Thresholds) {
    row.sd <= t.speed && AllMotorsNearZero(row, t)
  }

  /** Moving without current, or current without moving. */
  predicate IsSuspicious(row: RawRow, t: Thresholds) {
    (row.sd > t.speed && AllMotorsNearZero(row, t)) || (row.sd <= t.speed && AnyMotorCurrent(row, t))
  }

  /** Moving with current. */
  predicate IsModelled(row: RawRow, t: Thresholds) {
    row.sd > t.speed && AnyMotorCurrent(row, t)
  }

  predicate HasMotorZero(row: RawRow, t: Thresholds) {
    row.i1 <= t.current || row.i2 <= t.current || row.i3 <= t.current
  }

  function CountWhere(rows: seq<RawRow>, holds: RawRow -> bool): nat {
    if rows == [] then 0
    else CountWhere(rows[..|rows| - 1], holds) + if holds(rows[|rows| - 1]) then 1 else 0
  }

  function Modelled(rows: seq<RawRow>, t: Thresholds): seq<RawRow> {
    if rows == [] then []
    else Modelled(rows[..|rows| - 1], t) + if IsModelled(rows[|rows| - 1], t) then [rows[|rows| - 1]] else []
  }

  function StopIn(t: Thresholds): RawRow -> bool { row => IsStop(row, t) }
  function SuspiciousIn(t: Thresholds): RawRow -> bool { row => IsSuspicious(row, t) }

  /** Exactly one of the three holds of any row. */
  lemma StatesPartition(row: RawRow, t: Thresholds)
    ensures IsStop(row, t) || IsSuspicious(row, t) || IsModelled(row, t)
    ensures !(IsStop(row, t) && IsSuspicious(row, t)) && !(IsStop(row, t) && IsModelled(row, t))
    ensures !(IsSuspicious(row, t) && IsModelled(row, t))
  {
  }

  /** The currents that decide the state of a row; the first three also decide its flag. */
  function Currents(row: RawRow): seq<real> {
    [row.i1, row.i2, row.i3, row.i4]
  }

  /** A row is modelled if it moves and some motor draws, a stop if neither; it is flagged if one of three is idle. */
  lemma ReadingsDecide(row: RawRow, t: Thresholds)
    ensures var moves := row.sd > t.speed;
      var draws := exists k :: 0 <= k < 4 && Currents(row)[k] > t.current;
      && (IsModelled(row, t) <==> moves && draws)
      && (IsStop(row, t) <==> !moves && !draws)
      && (IsSuspicious(row, t) <==> moves != draws)
      && (HasMotorZero(row, t) <==> exists k :: 0 <= k < 3 && Currents(row)[k] <= t.current)
  {
    assert forall k :: 0 <= k < 4 ==> Currents(row)[k] in {row.i1, row.i2, row.i3, row.i4};
    assert Currents(row)[0] == row.i1 && Currents(row)[1] == row.i2;
    assert Currents(row)[2] == row.i3 && Currents(row)[3] == row.i4;
  }

  /** Nothing is counted twice and nothing is lost. */
  lemma {:induction false} CountsConserveRows(rows: seq<RawRow>, t: Thresholds)
    ensures CountWhere(rows, StopIn(t)) + CountWhere(rows, SuspiciousIn(t)) + |Modelled(rows, t)| == |rows|
  {
    if rows != [] {
      hide IsStop, IsSuspicious, IsModelled;
      CountsConserveRows(rows[..|rows| - 1], t);
      StatesPartition(rows[|rows| - 1], t);
    }
  }

  /** The loop as the source writes it, with its flags; a recording without a modelled row is rejected. */
  method Classify(rows: seq<RawRow>, t: Thresholds)
    returns (r: Result<seq<RawRow>>, motorZero: seq<bool>, stops: nat, suspicious: nat)
    ensures r.Ok? <==> exists k :: 0 <= k < |rows| && IsModelled(rows[k], t)
    ensures r.Ok? ==> r.value == Modelled(rows, t)
    ensures r.Ok? ==>
      && |motorZero| == |r.value|
      && forall k :: 0 <= k < |motorZero| ==> motorZero[k] == HasMotorZero(r.value[k], t)
    ensures stops == CountWhere(rows, StopIn(t)) && suspicious == CountWhere(rows, SuspiciousIn(t))
    ensures r.Ok? ==> |r.value| + stops + suspicious == |rows|
  {
    var modelling: seq<RawRow> := [];
    motorZero, stops, suspicious := [], 0, 0;
    for i := 0 to |rows|
      invariant modelling == Modelled(rows[..i], t)
      invariant stops == CountWhere(rows[..i], StopIn(t)) && suspicious == CountWhere(rows[..i], SuspiciousIn(t))
      invariant |motorZero| == |modelling|
        && forall k :: 0 <= k < |motorZero| ==> motorZero[k] == HasMotorZero(modelling[k], t)
      invariant modelling != [] <==> exists k :: 0 <= k < i && IsModelled(rows[k], t)
    {
      assert rows[..i + 1][..i] == rows[..i];
      var row := rows[i];
      var nearZero, current := AllMotorsNearZero(row, t), AnyMotorCurrent(row, t);
      var isStop := row.sd <= t.speed && nearZero;
      var isRunning := row.sd > t.speed || current;
      var runWithoutCurrent := row.sd > t.speed && nearZero;
      var zeroSpeedWithCurrent := row.sd <= t.speed && current;
      if isStop {
        stops := stops + 1;
      }
      if runWithoutCurrent || zeroSpeedWithCurrent {
        suspicious := suspicious + 1;
      }
      if isRunning && !runWithoutCurrent && !zeroSpeedWithCurrent {
        modelling := modelling + [row];
        motorZero := motorZero + [HasMotorZero(row, t)];
      }
    }
    assert rows[..|rows|] == rows;
    CountsConserveRows(rows, t);
    r := if modelling == [] then Failed("INSUFFICIENT_SAMPLES") else Ok(modelling);
  }
}
