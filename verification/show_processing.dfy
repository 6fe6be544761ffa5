/**
 * Loading of a drone show packaged as a ZIP archive: the structural validator
 * of the show specification, the archive-backed reader of `zip:` references,
 * and the load pipeline that dereferences the root reference `zip:show.json`
 * and validates the result.
 *
 * The JSON Reference resolver itself is a foreign library; the pipeline takes
 * it as a parameter and assumes nothing about what it returns.
 */
module ShowProcessing {
  import opened Wrappers
  import opened JsonValues

  /** Why a load fails. */
  datatype Error =
    | UnsupportedVersion
    | NoDrones
    | MissingTrajectory
    | UnsupportedTrajectoryVersion
      /** A TypeError: the property `key` was read from null. */
    | NullPropertyRead(key: string)
    | UnsupportedProtocol(protocol: string)

  /** The message the error carries. */
  function Message(e: Error): (m: string)
    ensures e == UnsupportedVersion ==> m == "Only version 1 files are supported"
    ensures e == NoDrones ==> m == "Show specification contains no drones"
    ensures e == MissingTrajectory ==> m == "Found drone without trajectory in show specification"
    ensures e == UnsupportedTrajectoryVersion ==> m == "Only version 1 trajectories are supported"
    ensures e.UnsupportedProtocol? ==> m == "unsupported protocol: " + e.protocol
  {
    match e
    case UnsupportedVersion => "Only version 1 files are supported"
    case NoDrones => "Show specification contains no drones"
    case MissingTrajectory => "Found drone without trajectory in show specification"
    case UnsupportedTrajectoryVersion => "Only version 1 trajectories are supported"
    case NullPropertyRead(key) => "Cannot read properties of null (reading '" + key + "')"
    case UnsupportedProtocol(protocol) => "unsupported protocol: " + protocol
  }

  /** Different errors carry different messages, so the message tells the user which check failed. */
  lemma MessageIdentifiesError(e1: Error, e2: Error)
    requires Message(e1) == Message(e2)
    ensures e1 == e2
  {
    var m := Message(e1);
    MessageShape(e1);
    MessageShape(e2);
    if e1.UnsupportedProtocol? && e2.UnsupportedProtocol? {
      var prefix := "unsupported protocol: ";
      assert e1.protocol == m[|prefix|..];
      assert e2.protocol == m[|prefix|..];
    } else if e1.NullPropertyRead? && e2.NullPropertyRead? {
      var prefix := "Cannot read properties of null (reading '";
      assert e1.key == m[|prefix|..|m| - 2];
      assert e2.key == m[|prefix|..|m| - 2];
    }
  }

  /** The 21st character of each message, which differs from error kind to error kind. */
  lemma MessageShape(e: Error)
    ensures |Message(e)| > 20
    ensures Message(e)[20] == match e
      case UnsupportedVersion => ' '
      case NoDrones => 'o'
      case MissingTrajectory => 't'
      case UnsupportedTrajectoryVersion => 'c'
      case NullPropertyRead(_) => 'e'
      case UnsupportedProtocol(_) => ':'
  {
    match e
    case UnsupportedProtocol(protocol) =>
      assert Message(e) == "unsupported protocol: " + protocol;
    case NullPropertyRead(key) =>
      assert Message(e) == "Cannot read properties of null (reading '" + key + "')";
    case _ =>
  }

  datatype Result<T> = Ok(value: T) | Fail(error: Error)

  /**
   * The property read `v.key` on a value that is not undefined. Reading from
   * null throws; an object gives the stored value or undefined; booleans,
   * numbers, strings and arrays have none of the keys the loader reads.
   */
  function Prop(v: Json, key: string): (r: Result<Option<Json>>)
    ensures r.Fail? <==> v.Null?
    ensures r.Fail? ==> r.error == NullPropertyRead(key)
    ensures r.Ok? ==> r.value == Field(v, key)
  {
    match v
    case Null => Fail(NullPropertyRead(key))
    case Obj(m) => Ok(if key in m then Some(m[key]) else None)
    case _ => Ok(None)
  }

  // ---------------------------------------------------------------------
  // Declarative description of an accepted show

  /** `drone.settings.trajectory`, or undefined when there is none to read. */
  function Trajectory(drone: Json): Option<Json> {
    match Field(drone, "settings")
    case None => None
    case Some(settings) => Field(settings, "trajectory")
  }

  /** A drone whose settings hold a trajectory object of version 1. */
  predicate AcceptedDrone(drone: Json) {
    Trajectory(drone).Some? && Field(Trajectory(drone).value, "version") == Some(Num(1.0))
  }

  /** `spec.swarm.drones`, when it is present and an array. */
  function DroneList(spec: Json): Option<seq<Json>> {
    match Field(spec, "swarm")
    case None => None
    case Some(swarm) =>
      match Field(swarm, "drones")
      case Some(Arr(drones)) => Some(drones)
      case _ => None
  }

  /** A show of version 1 with a list of drones, each of which is accepted. */
  predicate ValidShow(spec: Json) {
    && Field(spec, "version") == Some(Num(1.0))
    && DroneList(spec).Some?
    && forall i :: 0 <= i < |DroneList(spec).value| ==> AcceptedDrone(DroneList(spec).value[i])
  }

  // ---------------------------------------------------------------------
  // The validator

  /**
   * The checks made on one drone: its settings must be a truthy value of type
   * object whose trajectory has type object, and that trajectory must have
   * version 1. A null drone or a null trajectory makes a property read fail.
   */
  function CheckDrone(drone: Json): (r: Result<()>)
    ensures r.Ok? <==> AcceptedDrone(drone)
    ensures drone.Null? ==> r == Fail(NullPropertyRead("settings"))
    ensures !drone.Null? && !IsTypeofObject(Trajectory(drone)) ==> r == Fail(MissingTrajectory)
    ensures IsTypeofObject(Trajectory(drone)) && Trajectory(drone).value.Null? ==>
              r == Fail(NullPropertyRead("version"))
    ensures IsTypeofObject(Trajectory(drone)) && !Trajectory(drone).value.Null? && !AcceptedDrone(drone) ==>
              r == Fail(UnsupportedTrajectoryVersion)
  {
    match Prop(drone, "settings")
    case Fail(e) => Fail(e)
    case Ok(settings) =>
      if !Truthy(settings) || !IsTypeofObject(settings) then
        Fail(MissingTrajectory)
      else
        // settings is an array or an object here, so the read cannot throw
        var trajectory := Prop(settings.value, "trajectory").value;
        if !IsTypeofObject(trajectory) then
          Fail(MissingTrajectory)
        else
          match Prop(trajectory.value, "version")
          case Fail(e) => Fail(e)
          case Ok(version) =>
            if IsOne(version) then Ok(()) else Fail(UnsupportedTrajectoryVersion)
  }

  /**
   * The loop over the drones, in array order: the first drone that fails a
   * check decides the error, and later drones are not looked at.
   */
  function CheckDrones(drones: seq<Json>): (r: Result<()>)
    ensures r.Ok? <==> forall i :: 0 <= i < |drones| ==> AcceptedDrone(drones[i])
    ensures r.Fail? ==>
              exists i :: 0 <= i < |drones| && CheckDrone(drones[i]) == r &&
                          forall j :: 0 <= j < i ==> AcceptedDrone(drones[j])
  {
    if drones == [] then
      Ok(())
    else
      match CheckDrone(drones[0])
      case Fail(e) => Fail(e)
      case Ok(_) =>
        var rest := CheckDrones(drones[1..]);
        assert forall i :: 1 <= i < |drones| ==> drones[i] == drones[1..][i - 1];
        if rest.Fail? then
          var k :| 0 <= k < |drones[1..]| && CheckDrone(drones[1..][k]) == rest &&
                   forall j :: 0 <= j < k ==> AcceptedDrone(drones[1..][j]);
          assert CheckDrone(drones[k + 1]) == rest;
          rest
        else
          rest
  }

  /**
   * The show validator: version first, then the drone list, then each drone.
   * It is a gate and never changes the tree: on success it hands back the
   * very tree it was given.
   */
  function Validate(spec: Json): (r: Result<Json>)
    ensures r.Ok? <==> ValidShow(spec)
    ensures r.Ok? ==> r.value == spec
  {
    match Prop(spec, "version")
    case Fail(e) => Fail(e)
    case Ok(version) =>
      if !IsOne(version) then
        Fail(UnsupportedVersion)
      else
        // spec is an object here, so the read cannot throw
        var swarm := Prop(spec, "swarm").value;
        if !Truthy(swarm) then
          Fail(NoDrones)
        else
          // a truthy swarm is not null, so the read cannot throw
          var drones := Prop(swarm.value, "drones").value;
          if !IsArray(drones) then
            Fail(NoDrones)
          else
            match CheckDrones(drones.value.items)
            case Fail(e) => Fail(e)
            case Ok(_) => Ok(spec)
  }

  /**
   * Which error the validator reports: the checks run in order and the first
   * one that fails decides; among the drones, the first rejected drone does.
   */
  lemma ValidateFailures(spec: Json)
    ensures spec.Null? ==> Validate(spec) == Fail(NullPropertyRead("version"))
    ensures !spec.Null? && Field(spec, "version") != Some(Num(1.0)) ==>
              Validate(spec) == Fail(UnsupportedVersion)
    ensures Field(spec, "version") == Some(Num(1.0)) && DroneList(spec).None? ==>
              Validate(spec) == Fail(NoDrones)
    ensures Field(spec, "version") == Some(Num(1.0)) && DroneList(spec).Some? && Validate(spec).Fail? ==>
              var drones := DroneList(spec).value;
              exists i :: 0 <= i < |drones| && CheckDrone(drones[i]) == Fail(Validate(spec).error) &&
                          forall j :: 0 <= j < i ==> AcceptedDrone(drones[j])
  {
    if Field(spec, "version") == Some(Num(1.0)) && DroneList(spec).Some? && Validate(spec).Fail? {
      var drones := DroneList(spec).value;
      assert CheckDrones(drones).Fail?;
      assert Fail(Validate(spec).error) == CheckDrones(drones);
    }
  }

  // ---------------------------------------------------------------------
  // The archive-backed reference reader

  /** A ZIP archive, as entry names mapped to their text. */
  type Archive = map<string, string>

  /** A reference locator after URL parsing: its protocol (with the colon) and its pathname. */
  datatype Url = Url(protocol: string, pathname: string)

  /** The ZIP reader is offered exactly the locators that start with `zip:`. */
  predicate CanRead(locator: string) {
    |locator| >= 4 && locator[..4] == "zip:"
  }

  /**
   * The ZIP reader: only the `zip:` protocol is accepted, and the entry read
   * is the one named by the pathname. An entry the archive lacks is a null
   * file object, whose read throws.
   */
  function ReadEntry(archive: Archive, url: Url): (r: Result<string>)
    ensures r.Ok? <==> url.protocol == "zip:" && url.pathname in archive
    ensures r.Ok? ==> r.value == archive[url.pathname]
    ensures url.protocol != "zip:" ==> r == Fail(UnsupportedProtocol(url.protocol))
    ensures url.protocol == "zip:" && url.pathname !in archive ==> r == Fail(NullPropertyRead("async"))
  {
    if url.protocol != "zip:" then
      Fail(UnsupportedProtocol(url.protocol))
    else if url.pathname !in archive then
      Fail(NullPropertyRead("async"))
    else
      Ok(archive[url.pathname])
  }

  /** The reader handed to the JSON Reference resolver for one archive. */
  function ZipReader(archive: Archive): Url -> Result<string> {
    url => ReadEntry(archive, url)
  }

  // ---------------------------------------------------------------------
  // The load pipeline

  /** The reference the whole show is dereferenced from. */
  const RootReference: Json := Obj(map["$ref" := Str("zip:show.json")])

  /**
   * The root reference is a locator the ZIP reader is offered, and reading
   * it (protocol `zip:`, pathname `show.json`) yields the archive's
   * `show.json` entry, or the failed read of a missing file.
   */
  lemma RootReferenceReadsShowJson(archive: Archive)
    ensures Field(RootReference, "$ref") == Some(Str("zip:show.json"))
    ensures CanRead(Field(RootReference, "$ref").value.s)
    ensures "show.json" in archive ==> ZipReader(archive)(Url("zip:", "show.json")) == Ok(archive["show.json"])
    ensures "show.json" !in archive ==> ZipReader(archive)(Url("zip:", "show.json")) == Fail(NullPropertyRead("async"))
  {
    assert "zip:show.json"[..4] == "zip:";
  }

  /**
   * Loads a show from an opened archive. `dereference` stands for the JSON
   * Reference resolver, called with the root reference and the ZIP reader:
   * its failure is the load's failure, and its result is validated and then
   * returned as it is.
   */
  function LoadShow(archive: Archive, dereference: (Json, Url -> Result<string>) -> Result<Json>): (r: Result<Json>)
    ensures var tree := dereference(RootReference, ZipReader(archive));
            && (tree.Fail? ==> r == tree)
            && (tree.Ok? ==> r == Validate(tree.value))
            && (r.Ok? <==> tree.Ok? && ValidShow(tree.value))
            && (r.Ok? ==> r.value == tree.value)
  {
    match dereference(RootReference, ZipReader(archive))
    case Fail(e) => Fail(e)
    case Ok(tree) => Validate(tree)
  }
}
