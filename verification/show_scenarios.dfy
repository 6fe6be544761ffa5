/**
 * Concrete show specifications and what the validator makes of them: the
 * documented scenarios, and the corner cases of the JavaScript checks
 * (strict `=== 1`, `typeof null === 'object'`, an empty drone list).
 */
module ShowScenarios {
  import opened Wrappers
  import opened JsonValues
  import opened ShowProcessing

  function DroneWith(trajectory: Json): Json {
    Obj(map["settings" := Obj(map["trajectory" := trajectory])])
  }

  function ShowWith(version: Json, drones: seq<Json>): Json {
    Obj(map["version" := version, "swarm" := Obj(map["drones" := Arr(drones)])])
  }

  const GoodTrajectory: Json := Obj(map["version" := Num(1.0), "points" := Arr([])])

  /** A version 1 show with one version 1 trajectory is accepted unchanged. */
  lemma AcceptsMinimalShow()
    ensures Validate(ShowWith(Num(1.0), [DroneWith(GoodTrajectory)])) == Ok(ShowWith(Num(1.0), [DroneWith(GoodTrajectory)]))
  {
    assert AcceptedDrone(DroneWith(GoodTrajectory));
  }

  /** Version 2, and the string "1", are both refused before any drone is looked at. */
  lemma RefusesOtherVersions()
    ensures Validate(ShowWith(Num(2.0), [Null])) == Fail(UnsupportedVersion)
    ensures Validate(ShowWith(Str("1"), [DroneWith(GoodTrajectory)])) == Fail(UnsupportedVersion)
    ensures Message(UnsupportedVersion) == "Only version 1 files are supported"
  {
  }

  /** A swarm without drones, a missing swarm and a drone object instead of an array are refused. */
  lemma RefusesMissingDrones()
    ensures Validate(Obj(map["version" := Num(1.0), "swarm" := Obj(map[])])) == Fail(NoDrones)
    ensures Validate(Obj(map["version" := Num(1.0)])) == Fail(NoDrones)
    ensures Validate(Obj(map["version" := Num(1.0), "swarm" := Obj(map["drones" := Obj(map[])])])) == Fail(NoDrones)
    ensures Message(NoDrones) == "Show specification contains no drones"
  {
    assert Field(Obj(map["version" := Num(1.0), "swarm" := Obj(map[])]), "version") == Some(Num(1.0));
    assert Field(Obj(map["version" := Num(1.0), "swarm" := Obj(map["drones" := Obj(map[])])]), "version") == Some(Num(1.0));
  }

  /** Only `Array.isArray` is tested, so an empty drone list passes. */
  lemma AcceptsEmptyDroneList()
    ensures Validate(ShowWith(Num(1.0), [])) == Ok(ShowWith(Num(1.0), []))
  {
  }

  /** A trajectory of version 2, or an array in its place, has an unsupported version. */
  lemma RefusesOtherTrajectoryVersions()
    ensures Validate(ShowWith(Num(1.0), [DroneWith(Obj(map["version" := Num(2.0)]))])) == Fail(UnsupportedTrajectoryVersion)
    ensures Validate(ShowWith(Num(1.0), [DroneWith(Arr([]))])) == Fail(UnsupportedTrajectoryVersion)
    ensures Message(UnsupportedTrajectoryVersion) == "Only version 1 trajectories are supported"
  {
    assert !AcceptedDrone(DroneWith(Obj(map["version" := Num(2.0)])));
    assert !AcceptedDrone(DroneWith(Arr([])));
  }

  /** A null trajectory passes the type check and then fails to be read; a null drone fails at once. */
  lemma NullEntriesFailOnRead()
    ensures Validate(ShowWith(Num(1.0), [DroneWith(Null)])) == Fail(NullPropertyRead("version"))
    ensures Validate(ShowWith(Num(1.0), [Null])) == Fail(NullPropertyRead("settings"))
  {
    assert Trajectory(DroneWith(Null)) == Some(Null);
  }

  /** The first drone that fails a check decides the error. */
  lemma FirstRejectedDroneDecides()
    ensures Validate(ShowWith(Num(1.0), [DroneWith(GoodTrajectory), Obj(map[]), DroneWith(Arr([]))])) == Fail(MissingTrajectory)
    ensures Validate(ShowWith(Num(1.0), [DroneWith(Arr([])), Obj(map[]), DroneWith(GoodTrajectory)])) == Fail(UnsupportedTrajectoryVersion)
  {
    var drones := [DroneWith(GoodTrajectory), Obj(map[]), DroneWith(Arr([]))];
    assert AcceptedDrone(DroneWith(GoodTrajectory));
    assert CheckDrone(Obj(map[])) == Fail(MissingTrajectory);
    assert drones[1..][0] == Obj(map[]);
    assert CheckDrones(drones) == CheckDrones(drones[1..]) == Fail(MissingTrajectory);
    assert !AcceptedDrone(DroneWith(Arr([])));
  }
}
