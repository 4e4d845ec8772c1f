/**
 * The complete build (`dist/index-CkJHHUoa.js`): per-car engine sessions
 * that toggle the car's go/back buttons and reject on a failed start or
 * drive, and the race coordinator over all rendered roads.
 */
module CompleteBuild {
  import opened Engine
  import opened Animations
  import opened Race

  /** One rendered road: the car's name as shown and its go and back buttons. */
  datatype Road = Road(name: string, goDisabled: bool, backDisabled: bool)

  /** A road once `startEngine` has begun: go disabled, back enabled. */
  function Started(road: Road): (r: Road)
    ensures r.name == road.name && r.goDisabled && !r.backDisabled
  {
    road.(goDisabled := true, backDisabled := false)
  }

  /** A road as `getCar` renders it and `resetCarAnimation` leaves it: go enabled, back disabled. */
  function Stopped(road: Road): (r: Road)
    ensures r.name == road.name && !r.goDisabled && r.backDisabled
  {
    road.(goDisabled := false, backDisabled := true)
  }

  /** How `drive` settles: an ok reply fulfils with the name, one that is not ok rejects, a thrown error is swallowed into `undefined`. */
  function DriveResult(name: string, reply: DriveReply): (r: SessionResult)
    ensures r.Rejected? <==> reply.DriveFailed?
    ensures r.Fulfilled? ==> (r.value == Name(name) <==> reply.DriveOk?)
  {
    match reply
    case DriveOk => Fulfilled(Name(name))
    case DriveFailed(_) => Rejected
    case DriveThrew => Fulfilled(Undefined)
  }

  /** How `startEngine` settles: a failed or thrown start rejects, otherwise as `drive` does. */
  function SessionResultOf(name: string, rp: Replies): (r: SessionResult)
    ensures r.Fulfilled? <==> rp.start.StartOk? && !rp.drive.DriveFailed?
    ensures r.Fulfilled? ==> r.value == (if rp.drive.DriveOk? then Name(name) else Undefined)
  {
    if rp.start.StartOk? then DriveResult(name, rp.drive) else Rejected
  }

  /** The map after `drive`: every reply but an ok one pauses the car's handle. */
  function DriveAnimations(reg: Registry, id: int, reply: DriveReply): (r: Registry)
    ensures r.live.Keys == reg.live.Keys && r.orphaned == reg.orphaned
    ensures id in reg.live ==> r.live[id].duration == reg.live[id].duration
    ensures id in reg.live ==> r.live[id].state == if reply.DriveOk? then reg.live[id].state else Paused
    ensures forall other :: other in reg.live && other != id ==> r.live[other] == reg.live[other]
  {
    if reply.DriveOk? then reg else Pause(reg, id)
  }

  /** The map after `startEngine`: a successful start stores a fresh handle, then `drive` runs. */
  function SessionAnimations(reg: Registry, id: int, rp: Replies): (r: Registry)
    ensures rp.start.StartOk? ==>
              id in r.live && r.live[id] == Handle(if rp.drive.DriveOk? then Running else Paused, rp.start.duration)
    ensures !rp.start.StartOk? ==> r == reg
  {
    match rp.start
    case StartOk(duration) => DriveAnimations(Store(reg, id, duration), id, rp.drive)
    case _ => reg
  }

  /** Two registries agree on the entry for `id`. */
  predicate SameEntry(a: Registry, b: Registry, id: int)
  {
    (id in a.live <==> id in b.live) && (id in a.live ==> a.live[id] == b.live[id])
  }

  /**
   * A session fulfils exactly when the start succeeds and `drive` does not
   * get a reply that is not ok; a successful start leaves a handle for the
   * car that runs on only after an ok drive reply; a failed start stores
   * nothing; other cars' entries are untouched.
   */
  lemma SessionOutcome(reg: Registry, id: int, name: string, rp: Replies)
    ensures SessionResultOf(name, rp).Fulfilled? <==> rp.start.StartOk? && !rp.drive.DriveFailed?
    ensures rp.start.StartOk? && rp.drive.DriveOk? ==> SessionResultOf(name, rp) == Fulfilled(Name(name))
    ensures rp.start.StartOk? && rp.drive.DriveThrew? ==> SessionResultOf(name, rp) == Fulfilled(Undefined)
    ensures rp.start.StartOk? ==>
              id in SessionAnimations(reg, id, rp).live &&
              SessionAnimations(reg, id, rp).live[id] ==
                Handle(if rp.drive.DriveOk? then Running else Paused, rp.start.duration)
    ensures !rp.start.StartOk? ==> SessionAnimations(reg, id, rp) == reg
    ensures forall other :: other != id ==> SameEntry(SessionAnimations(reg, id, rp), reg, other)
  {
  }

  /** A breakdown (status 500) and any other reply that is not ok end the session the same way; only the log line differs. */
  lemma BreakdownStatusOnlyLogs(reg: Registry, id: int, name: string, start: StartReply, status: int)
    ensures SessionResultOf(name, Replies(start, DriveFailed(DriveError))) == SessionResultOf(name, Replies(start, DriveFailed(status)))
    ensures SessionAnimations(reg, id, Replies(start, DriveFailed(DriveError))) == SessionAnimations(reg, id, Replies(start, DriveFailed(status)))
  {
  }

  /**
   * A drive request that throws is swallowed and fulfils with `undefined`:
   * when such a session settles first, the race declares `undefined` the
   * winner rather than passing on to a later finisher.
   */
  lemma ThrownDriveCountsAsFinish(name: string, duration: Duration, later: seq<SessionResult>)
    ensures WinnerText([SessionResultOf(name, Replies(StartOk(duration), DriveThrew))] + later)
            == "!!! undefined won the race !!!"
  {
    var settled := [SessionResultOf(name, Replies(StartOk(duration), DriveThrew))] + later;
    assert settled[0] == Fulfilled(Undefined);
    assert Any(settled) == Wrappers.Some(Undefined);
    assert "!!! " + Show(Undefined) + " won the race !!!" == "!!! undefined won the race !!!";
  }

  /** Ids with no repetition, as the roads of one page have: no id occurs again after its first place. */
  predicate Distinct(ids: seq<int>)
  {
    ids == [] || (ids[0] !in ids[1..] && Distinct(ids[1..]))
  }

  /** In distinct ids, no id occurs before position `i` that occurs at `i`. */
  lemma {:induction false} DistinctBefore(ids: seq<int>, i: nat)
    requires Distinct(ids) && i < |ids|
    ensures forall k :: 0 <= k < i ==> ids[k] != ids[i]
  {
    if i > 0 {
      DistinctBefore(ids[1..], i - 1);
      assert ids[i] == ids[1..][i - 1];
      assert forall k :: 1 <= k < i ==> ids[k] == ids[1..][k - 1];
      assert ids[1..][i - 1] in ids[1..];
    }
  }

  /** The map after the sessions for the first `n` cars of `ids` ran one after another, in order. */
  function RaceAnimations(reg: Registry, ids: seq<int>, rps: seq<Replies>, n: nat): Registry
    requires n <= |ids| == |rps|
  {
    if n == 0 then reg
    else SessionAnimations(RaceAnimations(reg, ids, rps, n - 1), ids[n - 1], rps[n - 1])
  }

  /** The cars among the first `n` of a race whose engine started. */
  function StartedIds(ids: seq<int>, rps: seq<Replies>, n: nat): set<int>
    requires n <= |ids| == |rps|
  {
    set k | 0 <= k < n && rps[k].start.StartOk? :: ids[k]
  }

  /** After a race the map holds the ids it held before and those of every car whose engine started. */
  lemma {:induction false} RaceAnimationsKeys(reg: Registry, ids: seq<int>, rps: seq<Replies>, n: nat)
    requires n <= |ids| == |rps|
    ensures RaceAnimations(reg, ids, rps, n).live.Keys == reg.live.Keys + StartedIds(ids, rps, n)
  {
    if n > 0 {
      RaceAnimationsKeys(reg, ids, rps, n - 1);
      var last := if rps[n - 1].start.StartOk? then {ids[n - 1]} else {};
      assert StartedIds(ids, rps, n) == StartedIds(ids, rps, n - 1) + last;
    }
  }

  /** Sessions for other cars leave a car's entry alone. */
  lemma {:induction false} RaceAnimationsOther(reg: Registry, ids: seq<int>, rps: seq<Replies>, n: nat, id: int)
    requires n <= |ids| == |rps| && forall k :: 0 <= k < n ==> ids[k] != id
    ensures SameEntry(RaceAnimations(reg, ids, rps, n), reg, id)
  {
    if n > 0 {
      RaceAnimationsOther(reg, ids, rps, n - 1, id);
      SessionOutcome(RaceAnimations(reg, ids, rps, n - 1), ids[n - 1], "", rps[n - 1]);
    }
  }

  /**
   * After a race over distinct cars, each car's entry is what its own
   * session left: a running or paused handle after a successful start,
   * the entry from before the race after a failed one.
   */
  lemma {:induction false} RaceAnimationsAt(reg: Registry, ids: seq<int>, rps: seq<Replies>, n: nat, k: nat)
    requires n <= |ids| == |rps| && Distinct(ids) && k < n
    ensures rps[k].start.StartOk? ==>
              ids[k] in RaceAnimations(reg, ids, rps, n).live &&
              RaceAnimations(reg, ids, rps, n).live[ids[k]] ==
                Handle(if rps[k].drive.DriveOk? then Running else Paused, rps[k].start.duration)
    ensures !rps[k].start.StartOk? ==> SameEntry(RaceAnimations(reg, ids, rps, n), reg, ids[k])
  {
    var before := RaceAnimations(reg, ids, rps, n - 1);
    SessionOutcome(before, ids[n - 1], "", rps[n - 1]);
    DistinctBefore(ids, n - 1);
    if k == n - 1 {
      RaceAnimationsOther(reg, ids, rps, n - 1, ids[k]);
    } else {
      RaceAnimationsAt(reg, ids, rps, n - 1, k);
    }
  }

  /** The two changes the per-road loops make to a road's buttons. */
  datatype Step = Start | Stop

  /** A road after a step: `Started` or `Stopped`. */
  function Apply(step: Step, road: Road): Road
  {
    match step
    case Start => Started(road)
    case Stop => Stopped(road)
  }

  /** The roads after `step` was applied, one id after another, to the road of each of the first `n` ids that has one. */
  function ApplyToRoads(roads: map<int, Road>, ids: seq<int>, step: Step, n: nat): (r: map<int, Road>)
    requires n <= |ids|
    ensures r.Keys == roads.Keys
  {
    if n == 0 then roads
    else
      var prev := ApplyToRoads(roads, ids, step, n - 1);
      if ids[n - 1] in prev then prev[ids[n - 1] := Apply(step, prev[ids[n - 1]])] else prev
  }

  /** A road whose id is not among the first `n` keeps its state. */
  lemma {:induction false} ApplyToRoadsOther(roads: map<int, Road>, ids: seq<int>, step: Step, n: nat, id: int)
    requires n <= |ids| && id in roads && forall k :: 0 <= k < n ==> ids[k] != id
    ensures ApplyToRoads(roads, ids, step, n)[id] == roads[id]
  {
    if n > 0 {
      ApplyToRoadsOther(roads, ids, step, n - 1, id);
    }
  }

  /** Over distinct ids, each listed road gets `step` applied once. */
  lemma {:induction false} ApplyToRoadsAt(roads: map<int, Road>, ids: seq<int>, step: Step, n: nat, k: nat)
    requires n <= |ids| && Distinct(ids) && k < n && ids[k] in roads
    ensures ApplyToRoads(roads, ids, step, n)[ids[k]] == Apply(step, roads[ids[k]])
  {
    DistinctBefore(ids, n - 1);
    if k == n - 1 {
      ApplyToRoadsOther(roads, ids, step, n - 1, ids[k]);
    } else {
      ApplyToRoadsAt(roads, ids, step, n - 1, k);
    }
  }

  /** The first `n` ids of a sequence. */
  function Listed(ids: seq<int>, n: nat): set<int>
    requires n <= |ids|
  {
    set k | 0 <= k < n :: ids[k]
  }

  /** Removing the first `i` ids and then the next one removes the first `i + 1`. */
  lemma CancelNext<V>(m: map<int, V>, ids: seq<int>, i: nat)
    requires i < |ids|
    ensures (m - Listed(ids, i)) - {ids[i]} == m - Listed(ids, i + 1)
  {
    assert Listed(ids, i + 1) == Listed(ids, i) + {ids[i]};
  }

  /** Every road with `step` applied to it. */
  function ApplyToAll(roads: map<int, Road>, step: Step): (r: map<int, Road>)
    ensures r.Keys == roads.Keys && forall id :: id in roads ==> r[id] == Apply(step, roads[id])
  {
    map id | id in roads :: Apply(step, roads[id])
  }

  /** When `ids` lists every road once, every road gets `step` applied. */
  lemma ApplyToAllRoads(roads: map<int, Road>, ids: seq<int>, step: Step)
    requires Distinct(ids) && roads.Keys == Listed(ids, |ids|)
    ensures ApplyToRoads(roads, ids, step, |ids|) == ApplyToAll(roads, step)
  {
    forall id | id in roads
      ensures ApplyToRoads(roads, ids, step, |ids|)[id] == Apply(step, roads[id])
    {
      var k :| 0 <= k < |ids| && ids[k] == id;
      ApplyToRoadsAt(roads, ids, step, |ids|, k);
    }
  }

  /**
   * The roads and the map after the sessions for the first `i` roads of
   * `ids` ran, with their results, starting from `roads0` and `animations0`.
   */
  ghost predicate SessionsRan(roads: map<int, Road>, animations: Registry, results: seq<SessionResult>,
                              roads0: map<int, Road>, animations0: Registry, ids: seq<int>, replies: seq<Replies>, i: nat)
    requires i <= |ids| == |replies| && roads0.Keys == Listed(ids, |ids|)
  {
    roads == ApplyToRoads(roads0, ids, Start, i) &&
    |results| == i &&
    (forall j :: 0 <= j < i ==> results[j] == SessionResultOf(roads0[ids[j]].name, replies[j])) &&
    animations == RaceAnimations(animations0, ids, replies, i)
  }

  /** One more session keeps the roads, the map and the results in step with the first `i + 1` roads. */
  lemma SessionsRanNext(roads: map<int, Road>, animations: Registry, results: seq<SessionResult>,
                        roads0: map<int, Road>, animations0: Registry, ids: seq<int>, replies: seq<Replies>, i: nat)
    requires i < |ids| == |replies| && Distinct(ids) && roads0.Keys == Listed(ids, |ids|)
    requires SessionsRan(roads, animations, results, roads0, animations0, ids, replies, i)
    ensures ids[i] in roads && roads[ids[i]] == roads0[ids[i]]
    ensures SessionsRan(roads[ids[i] := Started(roads[ids[i]])], SessionAnimations(animations, ids[i], replies[i]),
                        results + [SessionResultOf(roads0[ids[i]].name, replies[i])], roads0, animations0, ids, replies, i + 1)
  {
    assert ids[i] in Listed(ids, |ids|);
    DistinctBefore(ids, i);
    ApplyToRoadsOther(roads0, ids, Start, i, ids[i]);
  }

  /**
   * The garage page of the complete build: the `carAnimations` map, the
   * rendered roads with their buttons, and the global race controls.
   */
  class Garage {
    /** `carAnimations`. */
    var carAnimations: map<int, Handle>
    /** Handles that `carAnimations.set` replaced without cancelling them. */
    ghost var orphaned: seq<Handle>
    /** The ids of the rendered roads, in document order. */
    var order: seq<int>
    /** The rendered roads by id (`document.getElementById`). */
    var roads: map<int, Road>
    var generateDisabled: bool
    var resetDisabled: bool
    var raceDisabled: bool
    var winnerText: string

    ghost predicate Valid()
      reads this
    {
      Distinct(order) &&
      (forall k :: 0 <= k < |order| ==> order[k] in roads) &&
      roads.Keys == Listed(order, |order|)
    }

    ghost function Animations(): Registry
      reads this
    {
      Registry(carAnimations, orphaned)
    }

    function Controls(): Panel
      reads this
    {
      Panel(generateDisabled, resetDisabled, raceDisabled, winnerText)
    }

    /** The page as loaded: each car's road with go enabled and back disabled, the initial panel, no animations. */
    constructor (ids: seq<int>, names: map<int, string>)
      requires Distinct(ids) && names.Keys == Listed(ids, |ids|)
      ensures Valid() && order == ids
      ensures roads == map id | id in names :: Road(names[id], false, true)
      ensures Animations() == Empty && Controls() == InitialPanel
    {
      carAnimations := map[];
      orphaned := [];
      order := ids;
      roads := map id | id in names :: Road(names[id], false, true);
      assert forall k :: 0 <= k < |ids| ==> ids[k] in Listed(ids, |ids|);
      generateDisabled, resetDisabled, raceDisabled, winnerText := false, true, false, "";
    }

    /** `carAnimation`: start a handle for the car's road and store it, replacing any earlier one. */
    method CarAnimation(id: int, duration: Duration)
      requires id in roads
      modifies this`carAnimations, this`orphaned
      ensures Animations() == Store(old(Animations()), id, duration)
    {
      if id in carAnimations {
        orphaned := orphaned + [carAnimations[id]];
      }
      carAnimations := carAnimations[id := Handle(Running, duration)];
    }

    /** `stopCarAnimation`: pause the car's handle if it has one. */
    method StopCarAnimation(id: int)
      modifies this`carAnimations
      ensures Animations() == Pause(old(Animations()), id)
    {
      if id in carAnimations {
        carAnimations := carAnimations[id := carAnimations[id].(state := Paused)];
      }
    }

    /** `resetCarAnimation`: enable go, disable back, cancel and delete the car's handle if it has one. */
    method ResetCarAnimation(id: int)
      requires id in roads
      modifies this`carAnimations, this`roads
      ensures roads == old(roads)[id := Stopped(old(roads)[id])]
      ensures Animations() == Cancel(old(Animations()), id)
    {
      roads := roads[id := Stopped(roads[id])];
      if id in carAnimations {
        carAnimations := carAnimations - {id};
      }
    }

    /** `drive`: settle by the drive reply, pausing the car unless the reply is ok. */
    method Drive(id: int, name: string, reply: DriveReply) returns (r: SessionResult)
      modifies this`carAnimations
      ensures r == DriveResult(name, reply)
      ensures Animations() == DriveAnimations(old(Animations()), id, reply)
    {
      match reply
      case DriveOk =>
        r := Fulfilled(Name(name));
      case DriveFailed(status) =>
        StopCarAnimation(id);
        r := Rejected;
      case DriveThrew =>
        StopCarAnimation(id);
        r := Fulfilled(Undefined);
    }

    /**
     * `startEngine`: disable go and enable back before any request; a start
     * that fails rejects with nothing stored, otherwise animate and drive.
     */
    method StartEngine(id: int, name: string, rp: Replies) returns (r: SessionResult)
      requires id in roads
      modifies this`roads, this`carAnimations, this`orphaned
      ensures roads == old(roads)[id := Started(old(roads)[id])]
      ensures Animations() == SessionAnimations(old(Animations()), id, rp)
      ensures r == SessionResultOf(name, rp)
    {
      roads := roads[id := Started(roads[id])];
      match rp.start
      case StartOk(duration) =>
        CarAnimation(id, duration);
        r := Drive(id, name, rp.drive);
      case StartFailed(status) =>
        r := Rejected;
      case StartThrew =>
        r := Rejected;
    }

    /**
     * The sessions `startRace` spawns, one per road in document order: every
     * road ends with go disabled and back enabled, every result is its own
     * session's, and the map is what the sessions leave one after another.
     */
    method RunSessions(replies: seq<Replies>) returns (results: seq<SessionResult>)
      requires Valid() && |replies| == |order|
      modifies this`roads, this`carAnimations, this`orphaned
      ensures Valid()
      ensures |results| == |order|
      ensures forall i :: 0 <= i < |order| ==> results[i] == SessionResultOf(old(roads)[order[i]].name, replies[i])
      ensures roads == ApplyToAll(old(roads), Start)
      ensures Animations() == RaceAnimations(old(Animations()), order, replies, |order|)
    {
      var ids := order;
      ghost var roads0, animations0 := roads, Animations();
      results := [];
      var i := 0;
      while i < |ids|
        invariant 0 <= i <= |ids|
        invariant SessionsRan(roads, Animations(), results, roads0, animations0, ids, replies, i)
      {
        results := StartNext(roads0, animations0, ids, replies, i, results);
        i := i + 1;
      }
      assert roads == ApplyToRoads(roads0, ids, Start, |ids|);
      assert roads.Keys == roads0.Keys;
      ApplyToAllRoads(roads0, ids, Start);
    }

    /** One step of `startRace`'s sessions: the session for road `i`. */
    method StartNext(ghost roads0: map<int, Road>, ghost animations0: Registry, ids: seq<int>, replies: seq<Replies>,
                     i: nat, results: seq<SessionResult>) returns (results': seq<SessionResult>)
      requires i < |ids| == |replies| && Distinct(ids) && roads0.Keys == Listed(ids, |ids|)
      requires SessionsRan(roads, Animations(), results, roads0, animations0, ids, replies, i)
      modifies this`roads, this`carAnimations, this`orphaned
      ensures SessionsRan(roads, Animations(), results', roads0, animations0, ids, replies, i + 1)
    {
      var id := ids[i];
      SessionsRanNext(roads, Animations(), results, roads0, animations0, ids, replies, i);
      var r := StartEngine(id, roads[id].name, replies[i]);
      results' := results + [r];
    }

    /**
     * `startRace`: disable generate, reset and race, clear the winner, run
     * one session per road, then show the first fulfilment in settle order
     * (or the no-finisher text) and re-enable reset only.
     */
    method StartRace(replies: seq<Replies>, settleOrder: seq<nat>) returns (results: seq<SessionResult>)
      requires Valid() && |replies| == |order| && IsSettleOrder(settleOrder, |order|)
      modifies this
      ensures Valid() && order == old(order)
      ensures |results| == |order|
      ensures forall i :: 0 <= i < |order| ==> results[i] == SessionResultOf(old(roads)[order[i]].name, replies[i])
      ensures roads == ApplyToAll(old(roads), Start)
      ensures Animations() == RaceAnimations(old(Animations()), order, replies, |order|)
      ensures Controls() == FinishRace(BeginRace(old(Controls())), WinnerText(Settle(results, settleOrder)))
    {
      generateDisabled, resetDisabled, raceDisabled, winnerText := true, true, true, "";
      results := RunSessions(replies);
      winnerText, resetDisabled := WinnerText(Settle(results, settleOrder)), false;
    }

    /** The per-road loop of `resetRace`: reset every rendered car. */
    method ResetRoads()
      requires Valid()
      modifies this`roads, this`carAnimations
      ensures Valid()
      ensures roads == ApplyToAll(old(roads), Stop)
      ensures carAnimations == old(carAnimations) - Listed(order, |order|)
    {
      var ids := order;
      ghost var roads0, animations0 := roads, carAnimations;
      var i := 0;
      while i < |ids|
        invariant 0 <= i <= |ids|
        invariant roads == ApplyToRoads(roads0, ids, Stop, i)
        invariant carAnimations == animations0 - Listed(ids, i)
      {
        ResetNext(roads0, animations0, ids, i);
        i := i + 1;
      }
      assert roads.Keys == roads0.Keys;
      ApplyToAllRoads(roads0, ids, Stop);
    }

    /** One step of `resetRace`'s loop: reset the car of road `i`. */
    method ResetNext(ghost roads0: map<int, Road>, ghost animations0: map<int, Handle>, ids: seq<int>, i: nat)
      requires i < |ids| && Distinct(ids) && roads0.Keys == Listed(ids, |ids|)
      requires roads == ApplyToRoads(roads0, ids, Stop, i) && carAnimations == animations0 - Listed(ids, i)
      modifies this`roads, this`carAnimations
      ensures roads == ApplyToRoads(roads0, ids, Stop, i + 1) && carAnimations == animations0 - Listed(ids, i + 1)
    {
      var id := ids[i];
      assert id in Listed(ids, |ids|);
      DistinctBefore(ids, i);
      ApplyToRoadsOther(roads0, ids, Stop, i, id);
      ResetCarAnimation(id);
      CancelNext(animations0, ids, i);
    }

    /**
     * `resetRace`: clear the winner, enable generate and race, disable
     * reset, then reset every road's car: the map loses the entries of all
     * rendered cars and keeps the others.
     */
    method ResetRace()
      requires Valid()
      modifies this
      ensures Valid() && order == old(order)
      ensures Controls() == ResetPanel(old(Controls()))
      ensures roads == ApplyToAll(old(roads), Stop)
      ensures carAnimations == old(carAnimations) - Listed(order, |order|)
      ensures orphaned == old(orphaned)
    {
      winnerText := "";
      generateDisabled, raceDisabled, resetDisabled := false, false, true;
      ResetRoads();
    }
  }
}
