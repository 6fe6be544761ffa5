/**
 * The count monitor: how many UAVs are selected, and how the UAVs split into
 * normal, away, errored and lost ones by the age of their last status update,
 * together with which count badges are shown.
 */
module CountMonitor {

  /** Milliseconds without an update after which a UAV is away. */
  const AwayTimeout := 5 * 1000
  /** Milliseconds without an update after which a UAV is lost. */
  const LostTimeout := 60 * 1000
  /** The errored count, held at a constant so that its badge is always displayed. */
  const ErroredCount := 1

  /** The number of UAVs whose last update is more than `timeout` ms before `now`. */
  function CountOlderThan(now: int, lastUpdated: seq<int>, timeout: int): (n: nat)
    ensures n <= |lastUpdated|
    ensures n == 0 <==> forall i :: 0 <= i < |lastUpdated| ==> now - lastUpdated[i] <= timeout
    ensures n == |lastUpdated| <==> forall i :: 0 <= i < |lastUpdated| ==> now - lastUpdated[i] > timeout
  {
    if lastUpdated == [] then
      0
    else
      var rest := CountOlderThan(now, lastUpdated[1..], timeout);
      assert forall i :: 1 <= i < |lastUpdated| ==> lastUpdated[i] == lastUpdated[1..][i - 1];
      (if now - lastUpdated[0] > timeout then 1 else 0) + rest
  }

  /** The number of UAVs whose age since the last update lies in (`lo`, `hi`]. */
  function CountAgedBetween(now: int, lastUpdated: seq<int>, lo: int, hi: int): nat {
    if lastUpdated == [] then
      0
    else
      var age := now - lastUpdated[0];
      (if lo < age <= hi then 1 else 0) + CountAgedBetween(now, lastUpdated[1..], lo, hi)
  }

  /** A longer timeout never counts more UAVs. */
  lemma {:induction false} CountOlderThanAntitone(now: int, lastUpdated: seq<int>, shorter: int, longer: int)
    requires shorter <= longer
    ensures CountOlderThan(now, lastUpdated, longer) <= CountOlderThan(now, lastUpdated, shorter)
  {
    if lastUpdated != [] {
      CountOlderThanAntitone(now, lastUpdated[1..], shorter, longer);
    }
  }

  /** Those older than the shorter timeout but not the longer are exactly those aged in between. */
  lemma {:induction false} CountOlderThanDifference(now: int, lastUpdated: seq<int>, shorter: int, longer: int)
    requires shorter <= longer
    ensures CountOlderThan(now, lastUpdated, shorter) - CountOlderThan(now, lastUpdated, longer)
            == CountAgedBetween(now, lastUpdated, shorter, longer)
  {
    if lastUpdated != [] {
      CountOlderThanDifference(now, lastUpdated[1..], shorter, longer);
    }
  }

  /** The counts shown by the monitor. */
  datatype Counts = Counts(selected: nat, normal: int, away: int, errored: int, lost: int)

  /**
   * The counts at time `now`, given the selected UAV ids and the time of the
   * last update of each UAV: lost ones are past the lost timeout, away ones
   * past the away timeout but not lost, the errored count is a constant, and
   * the normal count is what remains.
   */
  function Tally(now: int, selectedUAVIds: seq<string>, lastUpdated: seq<int>): (c: Counts)
    ensures c.selected == |selectedUAVIds|
    ensures c.errored == 1
    ensures 0 <= c.lost <= |lastUpdated|
    ensures c.normal + c.away + c.errored + c.lost == |lastUpdated|
    ensures c.lost == 0 <==> forall i :: 0 <= i < |lastUpdated| ==> now - lastUpdated[i] <= LostTimeout
  {
    var lostCount := CountOlderThan(now, lastUpdated, LostTimeout);
    var awayCount := CountOlderThan(now, lastUpdated, AwayTimeout) - lostCount;
    var normalCount := |lastUpdated| - awayCount - ErroredCount - lostCount;
    Counts(|selectedUAVIds|, normalCount, awayCount, ErroredCount, lostCount)
  }

  /**
   * The away count is never negative: it is the number of UAVs whose last
   * update is more than the away timeout and at most the lost timeout ago.
   */
  lemma AwayCountIsAgedBand(now: int, selectedUAVIds: seq<string>, lastUpdated: seq<int>)
    ensures Tally(now, selectedUAVIds, lastUpdated).away == CountAgedBetween(now, lastUpdated, AwayTimeout, LostTimeout)
    ensures Tally(now, selectedUAVIds, lastUpdated).away >= 0
  {
    CountOlderThanDifference(now, lastUpdated, AwayTimeout, LostTimeout);
  }

  /**
   * The normal count is one less than the number of UAVs updated within the
   * away timeout, because the errored count is a constant 1; it is -1 exactly
   * when no UAV is that fresh, in particular when there are no UAVs.
   */
  lemma NormalCountIsFreshMinusOne(now: int, selectedUAVIds: seq<string>, lastUpdated: seq<int>)
    ensures Tally(now, selectedUAVIds, lastUpdated).normal == |lastUpdated| - CountOlderThan(now, lastUpdated, AwayTimeout) - 1
    ensures Tally(now, selectedUAVIds, lastUpdated).normal == -1 <==>
              forall i :: 0 <= i < |lastUpdated| ==> now - lastUpdated[i] > AwayTimeout
    ensures Tally(now, selectedUAVIds, lastUpdated).normal >= -1
  {
  }

  /** Which count badges the monitor shows beside the selected and normal counts. */
  datatype Badges = Badges(away: bool, errored: bool, lost: bool)

  /**
   * The badges shown beside the selected and normal counts: each exactly when
   * its count is positive. So the errored badge is always shown, the lost badge
   * when some UAV is past the lost timeout, and the away badge when some UAV
   * is past the away timeout but not the lost one.
   */
  function ShownBadges(now: int, selectedUAVIds: seq<string>, lastUpdated: seq<int>): (b: Badges)
    ensures var c := Tally(now, selectedUAVIds, lastUpdated);
            (b.away <==> c.away > 0) && (b.errored <==> c.errored > 0) && (b.lost <==> c.lost > 0)
    ensures b.errored
    ensures b.lost <==> exists i :: 0 <= i < |lastUpdated| && now - lastUpdated[i] > LostTimeout
    ensures b.away <==> exists i :: 0 <= i < |lastUpdated| && AwayTimeout < now - lastUpdated[i] <= LostTimeout
  {
    var c := Tally(now, selectedUAVIds, lastUpdated);
    AwayCountIsAgedBand(now, selectedUAVIds, lastUpdated);
    AgedBetweenPositive(now, lastUpdated, AwayTimeout, LostTimeout);
    Badges(c.away > 0, c.errored > 0, c.lost > 0)
  }

  /** Some UAV is aged in the band exactly when the band's count is positive. */
  lemma {:induction false} AgedBetweenPositive(now: int, lastUpdated: seq<int>, lo: int, hi: int)
    ensures CountAgedBetween(now, lastUpdated, lo, hi) > 0 <==>
              exists i :: 0 <= i < |lastUpdated| && lo < now - lastUpdated[i] <= hi
  {
    if lastUpdated != [] {
      AgedBetweenPositive(now, lastUpdated[1..], lo, hi);
      if exists i :: 0 <= i < |lastUpdated[1..]| && lo < now - lastUpdated[1..][i] <= hi {
        var i :| 0 <= i < |lastUpdated[1..]| && lo < now - lastUpdated[1..][i] <= hi;
        assert lastUpdated[i + 1] == lastUpdated[1..][i];
      }
      if exists i :: 0 <= i < |lastUpdated| && lo < now - lastUpdated[i] <= hi {
        var i :| 0 <= i < |lastUpdated| && lo < now - lastUpdated[i] <= hi;
        if i > 0 {
          assert lastUpdated[1..][i - 1] == lastUpdated[i];
        }
      }
    }
  }
}
