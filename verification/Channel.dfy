/**
 What a channel shares with its worker, and the end-of-track callback's
 registration.
*/
module Channel {
  import opened Arithmetic
  import opened Wrappers
  import Scope

  class Shared {
    /** The clock: frames of the track heard, from its beginning. */
    var position: nat
    var active: bool
    /** The registered callback, by its registration number. */
    var onEnd: Option<nat>
    var nextRegistration: nat
    const scope: Scope.Scope
    /** How often the end was announced, and to whom. */
    ghost var ends: nat
    ghost var told: seq<nat>

    ghost predicate Valid()
      reads this`onEnd, this`nextRegistration
    {
      onEnd.Some? ==> onEnd.value < nextRegistration
    }

    constructor ()
      ensures Valid() && position == 0 && active && onEnd == None && ends == 0 && told == []
      ensures fresh(scope) && scope.Valid() && scope.all == [] && scope.outstanding == 0 && scope.fitted
    {
      position, active, onEnd, nextRegistration := 0, true, None, 0;
      scope := new Scope.Scope();
      ends, told := 0, [];
    }

    /** Publishes that `frames` more have played, up to `position`. */
    method Publish(frames: nat, position: nat)
      requires scope.Valid()
      modifies this`position, scope
      ensures this.position == position && scope.Valid() && scope.all == old(scope.all)
      ensures scope.fitted == old(scope.fitted)
      ensures scope.outstanding == Max(old(scope.outstanding), frames) - frames
    {
      scope.Played(frames);
      this.position := position;
    }

    /** Forgets what the visualizer showed and moves the clock, for a seek. */
    method Restart(position: nat)
      modifies this`position, scope
      ensures this.position == position
      ensures scope.Valid() && scope.all == [] && scope.outstanding == 0 && scope.fitted
    {
      scope.Clear();
      this.position := position;
    }

    method FireEnd()
      modifies this`ends, this`told
      ensures ends == old(ends) + 1
      ensures told == old(told) + (match onEnd case None => [] case Some(id) => [id])
    {
      ends := ends + 1;
      match onEnd {
        case None =>
        case Some(id) => told := told + [id];
      }
    }

    /** Registers a callback in place of any other. */
    method OnEnd() returns (registration: nat)
      requires Valid()
      modifies this`onEnd, this`nextRegistration
      ensures Valid() && onEnd == Some(registration) && registration == old(nextRegistration)
      ensures nextRegistration == registration + 1
    {
      registration := nextRegistration;
      nextRegistration := nextRegistration + 1;
      onEnd := Some(registration);
    }

    /** Dropping the guard of a registration that was replaced leaves the newer
        callback in place. */
    method DropGuard(registration: nat)
      requires Valid()
      modifies this`onEnd
      ensures Valid() && onEnd == if old(onEnd) == Some(registration) then None else old(onEnd)
    {
      if onEnd == Some(registration) {
        onEnd := None;
      }
    }
  }
}
