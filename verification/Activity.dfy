/**
 The server's table of devices: when each last asked for something, and a count of
 WebSocket connections that guards are meant to keep equal to those open.
*/
module Activity {
  import opened Wrappers

  const ACTIVE_WINDOW_SECS := 300
  const FORGET_AFTER_SECS := 86_400
  const COUNT_MAX := 0xFFFF_FFFF

  /** One device, and its track most recently asked for. */
  datatype Device = Device(lastRequest: int, openWebsockets: nat, lastTrack: Option<string>)

  predicate IsActive(device: Device, now: int) {
    device.openWebsockets > 0 || now - device.lastRequest <= ACTIVE_WINDOW_SECS
  }

  datatype Operation =
    | Touch(id: string, now: int)
    | TrackRequested(id: string, track: string)
    | Open(id: string)
    | Drop(id: string)

  type Devices = map<string, Device>

  /** Without the devices that are idle for too long. */
  function Swept(devices: Devices, now: int): Devices {
    map id | id in devices && (devices[id].openWebsockets > 0 || now - devices[id].lastRequest < FORGET_AFTER_SECS)
      :: devices[id]
  }

  function Touched(devices: Devices, id: string, now: int): Devices {
    var kept := if id in devices then devices else Swept(devices, now);
    var device := if id in kept then kept[id] else Device(0, 0, None);
    kept[id := device.(lastRequest := now)]
  }

  function Counted(devices: Devices, id: string, count: nat): Devices {
    if id in devices then devices[id := devices[id].(openWebsockets := count)] else devices
  }

  function Count(devices: Devices, id: string): nat {
    if id in devices then devices[id].openWebsockets else 0
  }

  function Up(count: nat): nat {
    if count < COUNT_MAX then count + 1 else count
  }

  function Down(count: nat): nat {
    if count > 0 then count - 1 else 0
  }

  function Applied(devices: Devices, op: Operation): Devices {
    match op
    case Touch(id, now) => Touched(devices, id, now)
    case TrackRequested(id, track) =>
      if id in devices then devices[id := devices[id].(lastTrack := Some(track))] else devices
    case Open(id) => Counted(devices, id, Up(Count(devices, id)))
    case Drop(id) => Counted(devices, id, Down(Count(devices, id)))
  }

  class ActivityTracker {
    var devices: Devices

    constructor ()
      ensures devices == map[]
    {
      devices := map[];
    }

    method Touch(id: string, now: int)
      modifies this
      ensures devices == Applied(old(devices), Operation.Touch(id, now))
    {
      if id !in devices {
        devices := map d | d in devices && (devices[d].openWebsockets > 0 || now - devices[d].lastRequest < FORGET_AFTER_SECS)
          :: devices[d];
      }
      if id !in devices {
        devices := devices[id := Device(0, 0, None)];
      }
      devices := devices[id := devices[id].(lastRequest := now)];
    }

    method TrackRequested(id: string, track: string)
      modifies this
      ensures devices == Applied(old(devices), Operation.TrackRequested(id, track))
    {
      if id in devices {
        devices := devices[id := devices[id].(lastTrack := Some(track))];
      }
    }

    method WebsocketOpened(id: string)
      modifies this
      ensures devices == Applied(old(devices), Open(id))
    {
      if id in devices {
        devices := devices[id := devices[id].(openWebsockets := Up(devices[id].openWebsockets))];
      }
    }

    method DropGuard(id: string)
      modifies this
      ensures devices == Applied(old(devices), Drop(id))
    {
      if id in devices {
        devices := devices[id := devices[id].(openWebsockets := Down(devices[id].openWebsockets))];
      }
    }
  }

  // ---- Runs, with the guards that are alive ----

  datatype State = State(devices: Devices, guards: multiset<string>)

  const START := State(map[], multiset{})

  /** A guard can be dropped only while it is alive. */
  predicate Possible(s: State, op: Operation) {
    op.Drop? ==> op.id in s.guards
  }

  function Next(s: State, op: Operation): State {
    State(Applied(s.devices, op),
          match op
          case Open(id) => s.guards + multiset{id}
          case Drop(id) => s.guards - multiset{id}
          case _ => s.guards)
  }

  ghost predicate PossibleRun(s: State, ops: seq<Operation>)
    decreases |ops|
  {
    ops == [] || (Possible(s, ops[0]) && PossibleRun(Next(s, ops[0]), ops[1..]))
  }

  function Run(s: State, ops: seq<Operation>): State
    decreases |ops|
  {
    if ops == [] then s else Run(Next(s, ops[0]), ops[1..])
  }

  /** Every device's count is the number of its guards. */
  ghost predicate Agrees(s: State) {
    forall id :: Count(s.devices, id) == s.guards[id]
  }

  /** Never more counted than there are guards. */
  ghost predicate NeverOver(s: State) {
    forall id :: Count(s.devices, id) <= s.guards[id]
  }

  ghost predicate AlwaysAgrees(s: State, ops: seq<Operation>)
    decreases |ops|
  {
    Agrees(s) && (ops == [] || AlwaysAgrees(Next(s, ops[0]), ops[1..]))
  }

  /** The operation, if it opens a connection, finds its device's entry, with
      room to count. */
  ghost predicate Countable(s: State, op: Operation) {
    op.Open? ==> op.id in s.devices && Count(s.devices, op.id) < COUNT_MAX
  }

  ghost predicate AlwaysCountable(s: State, ops: seq<Operation>)
    decreases |ops|
  {
    ops == [] || (Countable(s, ops[0]) && AlwaysCountable(Next(s, ops[0]), ops[1..]))
  }

  /** How an operation changes a count: the sweep changes none. */
  lemma CountAfter(s: State, op: Operation, id: string)
    ensures Count(Next(s, op).devices, id)
         == if op.id != id || id !in s.devices then Count(s.devices, id)
            else match op
              case Open(_) => Up(Count(s.devices, id))
              case Drop(_) => Down(Count(s.devices, id))
              case _ => Count(s.devices, id)
  {
  }

  lemma StepNeverOver(s: State, op: Operation)
    requires NeverOver(s) && Possible(s, op)
    ensures NeverOver(Next(s, op))
  {
    forall id ensures Count(Next(s, op).devices, id) <= Next(s, op).guards[id] {
      CountAfter(s, op, id);
    }
  }

  /** In any run whatever, a device is never counted for more connections than
      it holds. */
  lemma {:induction false} CountIsNeverOver(s: State, ops: seq<Operation>)
    requires NeverOver(s) && PossibleRun(s, ops)
    ensures NeverOver(Run(s, ops))
    decreases |ops|
  {
    if ops == [] {
    } else {
      StepNeverOver(s, ops[0]);
      CountIsNeverOver(Next(s, ops[0]), ops[1..]);
    }
  }

  lemma StepAgrees(s: State, op: Operation)
    requires Agrees(s) && Possible(s, op)
    ensures Agrees(Next(s, op)) <==> Countable(s, op)
  {
    forall id ensures Count(Next(s, op).devices, id) == Next(s, op).guards[id] <==> (id == op.id ==> Countable(s, op)) {
      CountAfter(s, op, id);
    }
  }

  /** The counts agree with the guards throughout a run if and only if every
      connection opened finds its device's entry. */
  lemma {:induction false} CountsAgreeExactly(s: State, ops: seq<Operation>)
    requires Agrees(s) && PossibleRun(s, ops)
    ensures AlwaysAgrees(s, ops) <==> AlwaysCountable(s, ops)
    decreases |ops|
  {
    if ops == [] {
    } else {
      StepAgrees(s, ops[0]);
      if Countable(s, ops[0]) {
        CountsAgreeExactly(Next(s, ops[0]), ops[1..]);
      }
    }
  }

  lemma {:induction false} AgreesAtTheEnd(s: State, ops: seq<Operation>)
    requires AlwaysAgrees(s, ops)
    ensures Agrees(Run(s, ops))
    decreases |ops|
  {
    if ops == [] {
    } else {
      AgreesAtTheEnd(Next(s, ops[0]), ops[1..]);
    }
  }

  /** Then, after any such run, a device with a live guard is not forgotten, is
      active at any time, and dropping one of its guards meets no count of zero. */
  lemma LiveGuardKeepsDevice(ops: seq<Operation>, id: string, now: int)
    requires PossibleRun(START, ops) && AlwaysCountable(START, ops)
    requires id in Run(START, ops).guards
    ensures id in Run(START, ops).devices && IsActive(Run(START, ops).devices[id], now)
    ensures Count(Run(START, ops).devices, id) == Run(START, ops).guards[id] > 0
  {
    assert Agrees(START);
    CountsAgreeExactly(START, ops);
    AgreesAtTheEnd(START, ops);
    assert Count(Run(START, ops).devices, id) == Run(START, ops).guards[id];
  }

  /** Without its entry a connection is not counted; dropping it then takes away
      another's count, and the device is forgotten with a guard alive. */
  lemma UncountedGuardHidesAnother()
    ensures var ops := [Open("a"), Touch("a", 0), Open("a"), Drop("a"), Touch("b", FORGET_AFTER_SECS)];
      && PossibleRun(START, ops)
      && "a" in Run(START, ops).guards && "a" !in Run(START, ops).devices
  {
    var one := Next(START, Open("a"));
    var two := Next(one, Touch("a", 0));
    var three := Next(two, Open("a"));
    var four := Next(three, Drop("a"));
    var five := Next(four, Touch("b", FORGET_AFTER_SECS));
    assert two.devices["a"] == Device(0, 0, None);
    assert four.devices["a"] == Device(0, 0, None) && "b" !in four.devices;
    assert "a" != "b";
    RunCons(START, Open("a"), [Touch("a", 0), Open("a"), Drop("a"), Touch("b", FORGET_AFTER_SECS)]);
    RunCons(one, Touch("a", 0), [Open("a"), Drop("a"), Touch("b", FORGET_AFTER_SECS)]);
    RunCons(two, Open("a"), [Drop("a"), Touch("b", FORGET_AFTER_SECS)]);
    RunCons(three, Drop("a"), [Touch("b", FORGET_AFTER_SECS)]);
    RunCons(four, Touch("b", FORGET_AFTER_SECS), []);
  }

  lemma RunCons(s: State, op: Operation, rest: seq<Operation>)
    ensures Run(s, [op] + rest) == Run(Next(s, op), rest)
    ensures PossibleRun(s, [op] + rest) <==> Possible(s, op) && PossibleRun(Next(s, op), rest)
  {
    assert ([op] + rest)[1..] == rest;
  }

  /** A device touched less than the forgetting time ago is still there: what
      the request before every connection sees to. */
  lemma {:induction false} TouchedIsRemembered(s: State, ops: seq<Operation>, id: string, since: int)
    requires id in s.devices && s.devices[id].lastRequest >= since
    requires forall i :: 0 <= i < |ops| && ops[i].Touch? ==> since <= ops[i].now < since + FORGET_AFTER_SECS
    ensures id in Run(s, ops).devices && Run(s, ops).devices[id].lastRequest >= since
    decreases |ops|
  {
    if ops == [] {
    } else {
      var next := Next(s, ops[0]);
      assert id in next.devices && next.devices[id].lastRequest >= since;
      TouchedIsRemembered(next, ops[1..], id, since);
    }
  }
  /** From its last request on, until another device's first one finds it idle for the
      forgetting time, a device is known by that request; and it is active for the window
      after it, or while a connection is counted, and not otherwise. */
  lemma {:induction false} LastTouchCounts(s: State, ops: seq<Operation>, id: string, t: int, now: int)
    requires forall i :: 0 <= i < |ops| && ops[i].Touch? ==> ops[i].id != id && ops[i].now < t + FORGET_AFTER_SECS
    ensures var devices := Run(Next(s, Touch(id, t)), ops).devices;
      && id in devices && devices[id].lastRequest == t
      && (IsActive(devices[id], now) <==> Count(devices, id) > 0 || now <= t + ACTIVE_WINDOW_SECS)
  {
    KnownByLast(Next(s, Touch(id, t)), ops, id, t);
  }

  lemma {:induction false} KnownByLast(s: State, ops: seq<Operation>, id: string, t: int)
    requires id in s.devices && s.devices[id].lastRequest == t
    requires forall i :: 0 <= i < |ops| && ops[i].Touch? ==> ops[i].id != id && ops[i].now < t + FORGET_AFTER_SECS
    ensures id in Run(s, ops).devices && Run(s, ops).devices[id].lastRequest == t
    decreases |ops|
  {
    if ops != [] {
      var next := Next(s, ops[0]);
      assert id in next.devices && next.devices[id].lastRequest == t;
      KnownByLast(next, ops[1..], id, t);
    }
  }

  /** Its track is the one last asked for, whatever else happens while it is known. */
  lemma {:induction false} LastTrackCounts(s: State, ops: seq<Operation>, id: string, track: string)
    requires id in s.devices && AlwaysKnown(Next(s, TrackRequested(id, track)), ops, id)
    requires forall i :: 0 <= i < |ops| && ops[i].TrackRequested? ==> ops[i].id != id
    ensures var devices := Run(Next(s, TrackRequested(id, track)), ops).devices;
      id in devices && devices[id].lastTrack == Some(track)
  {
    TrackStays(Next(s, TrackRequested(id, track)), ops, id);
  }

  ghost predicate AlwaysKnown(s: State, ops: seq<Operation>, id: string)
    decreases |ops|
  {
    id in s.devices && (ops == [] || AlwaysKnown(Next(s, ops[0]), ops[1..], id))
  }

  lemma {:induction false} TrackStays(s: State, ops: seq<Operation>, id: string)
    requires AlwaysKnown(s, ops, id)
    requires forall i :: 0 <= i < |ops| && ops[i].TrackRequested? ==> ops[i].id != id
    ensures id in Run(s, ops).devices && Run(s, ops).devices[id].lastTrack == s.devices[id].lastTrack
    decreases |ops|
  {
    if ops != [] {
      TrackStays(Next(s, ops[0]), ops[1..], id);
    }
  }

  /** A new device's first request forgets exactly the devices without a connection counted
      whose own last request is the forgetting time ago; any other request forgets none. */
  lemma ForgottenExactly(s: State, other: string, now: int, id: string)
    requires id in s.devices && id != other
    ensures id !in Next(s, Touch(other, now)).devices
       <==> other !in s.devices && Count(s.devices, id) == 0
            && now >= s.devices[id].lastRequest + FORGET_AFTER_SECS
    ensures id in Next(s, Touch(other, now)).devices ==> Next(s, Touch(other, now)).devices[id] == s.devices[id]
  {
  }
}
