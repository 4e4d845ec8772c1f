/**
 * The earlier build (`dist/index-BCF2I0ra.js`): no race controls, no button
 * toggles, an animation stored only when the car element exists, and an
 * engine session that catches every error.
 */
module EarlierBuild {
  import opened Engine
  import opened Animations
  import CompleteBuild

  /** The map after this build's `drive`: only a breakdown (status 500) pauses the car. */
  function DriveAnimations(reg: Registry, id: int, reply: DriveReply): (r: Registry)
    ensures r.live.Keys == reg.live.Keys && r.orphaned == reg.orphaned
    ensures id in reg.live ==> r.live[id].duration == reg.live[id].duration
    ensures id in reg.live ==> r.live[id].state == if reply == DriveFailed(DriveError) then Paused else reg.live[id].state
    ensures forall other :: other in reg.live && other != id ==> r.live[other] == reg.live[other]
  {
    if reply == DriveFailed(DriveError) then Pause(reg, id) else reg
  }

  /**
   * The map after this build's `startEngine`: a successful start animates the
   * car when its element exists and drives; a start that fails or throws is
   * caught and pauses whatever handle the car already has.
   */
  function SessionAnimations(reg: Registry, cars: set<int>, id: int, rp: Replies): (r: Registry)
    ensures r.live.Keys == reg.live.Keys + (if rp.start.StartOk? && id in cars then {id} else {})
    ensures rp.start.StartOk? && id in cars ==> r.live[id].duration == rp.start.duration
    ensures !rp.start.StartOk? && id in reg.live ==> r.live[id] == reg.live[id].(state := Paused)
    ensures forall other :: other != id ==> CompleteBuild.SameEntry(r, reg, other)
  {
    match rp.start
    case StartOk(duration) =>
      DriveAnimations(if id in cars then Store(reg, id, duration) else reg, id, rp.drive)
    case _ => Pause(reg, id)
  }

  /**
   * With a successful start and the car on the page, the car ends paused
   * exactly when the drive reply is a breakdown: any other failure, and a
   * thrown error, leave it running.
   */
  lemma OnlyBreakdownPauses(reg: Registry, cars: set<int>, id: int, rp: Replies)
    requires rp.start.StartOk? && id in cars
    ensures id in SessionAnimations(reg, cars, id, rp).live
    ensures SessionAnimations(reg, cars, id, rp).live[id].state == Paused <==> rp.drive == DriveFailed(DriveError)
    ensures SessionAnimations(reg, cars, id, rp).live[id].duration == rp.start.duration
  {
  }

  /** A failed start stores nothing and pauses the handle an earlier run left, if any. */
  lemma FailedStartPausesEarlierHandle(reg: Registry, cars: set<int>, id: int, rp: Replies)
    requires !rp.start.StartOk?
    ensures SessionAnimations(reg, cars, id, rp).live.Keys == reg.live.Keys
    ensures id in reg.live ==> SessionAnimations(reg, cars, id, rp).live[id].state == Paused
  {
  }

  /** Without a car element nothing is stored: the map keeps its keys. */
  lemma MissingCarStoresNothing(reg: Registry, cars: set<int>, id: int, rp: Replies)
    requires id !in cars
    ensures SessionAnimations(reg, cars, id, rp).live.Keys == reg.live.Keys
  {
  }

  /** A session touches no other car's entry. */
  lemma SessionIsLocal(reg: Registry, cars: set<int>, id: int, rp: Replies, other: int)
    requires other != id
    ensures CompleteBuild.SameEntry(SessionAnimations(reg, cars, id, rp), reg, other)
  {
  }

  /**
   * The two builds agree when the engine starts and drives, and part on a
   * drive reply that is not ok and not a breakdown: the complete build
   * pauses the car, this one leaves it running.
   */
  lemma BuildsCompared(reg: Registry, id: int, duration: Duration, status: int)
    requires status != DriveError
    ensures SessionAnimations(reg, {id}, id, Replies(StartOk(duration), DriveOk)) ==
            CompleteBuild.SessionAnimations(reg, id, Replies(StartOk(duration), DriveOk))
    ensures SessionAnimations(reg, {id}, id, Replies(StartOk(duration), DriveFailed(status))).live[id].state == Running
    ensures CompleteBuild.SessionAnimations(reg, id, Replies(StartOk(duration), DriveFailed(status))).live[id].state == Paused
  {
  }

  /** The garage page of the earlier build: the `carAnimations` map and the cars present on the page. */
  class Garage {
    /** `carAnimations`. */
    var carAnimations: map<int, Handle>
    /** Handles that `carAnimations.set` replaced without cancelling them. */
    ghost var orphaned: seq<Handle>
    /** The ids whose road holds a car element. */
    var cars: set<int>

    ghost function Animations(): Registry
      reads this
    {
      Registry(carAnimations, orphaned)
    }

    constructor (cars: set<int>)
      ensures this.cars == cars && Animations() == Empty
    {
      carAnimations := map[];
      orphaned := [];
      this.cars := cars;
    }

    /** `carAnimation`: animate and store a handle only when the car element exists. */
    method CarAnimation(id: int, duration: Duration)
      modifies this`carAnimations, this`orphaned
      ensures Animations() == if id in cars then Store(old(Animations()), id, duration) else old(Animations())
    {
      if id in cars {
        if id in carAnimations {
          orphaned := orphaned + [carAnimations[id]];
        }
        carAnimations := carAnimations[id := Handle(Running, duration)];
      }
    }

    /** `stopCarAnimation`: pause the car's handle if it has one. */
    method StopCarAnimation(id: int)
      modifies this`carAnimations
      ensures Animations() == Pause(old(Animations()), id)
    {
      if id in carAnimations {
        carAnimations := carAnimations[id := carAnimations[id].(state := Paused)];
      }
    }

    /** `resetCarAnimation`: cancel and delete the car's handle if it has one; no button is touched. */
    method ResetCarAnimation(id: int)
      modifies this`carAnimations
      ensures Animations() == Cancel(old(Animations()), id)
    {
      if id in carAnimations {
        carAnimations := carAnimations - {id};
      }
    }

    /** `drive`: a breakdown pauses the car; every other failure is only logged. */
    method Drive(id: int, reply: DriveReply)
      modifies this`carAnimations
      ensures Animations() == DriveAnimations(old(Animations()), id, reply)
    {
      match reply
      case DriveFailed(status) =>
        if status == DriveError {
          StopCarAnimation(id);
        }
      case _ =>
    }

    /** `startEngine`: never rejects; a failed or thrown start is caught and pauses the car. */
    method StartEngine(id: int, rp: Replies) returns (r: SessionResult)
      modifies this`carAnimations, this`orphaned
      ensures r == Fulfilled(Undefined)
      ensures Animations() == SessionAnimations(old(Animations()), cars, id, rp)
    {
      match rp.start {
        case StartOk(duration) =>
          CarAnimation(id, duration);
          Drive(id, rp.drive);
        case _ =>
          StopCarAnimation(id);
      }
      r := Fulfilled(Undefined);
    }
  }
}
