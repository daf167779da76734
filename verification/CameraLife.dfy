/**
 * The life cycle of a camera object: operations mark it as used, and closing the connection or freeing the
 * object is put off while it is.
 */
module CameraLife {
  import opened Prelude

  // ------------------------------------------------------------------
  // What may happen to a camera
  // ------------------------------------------------------------------

  /** The driver's functions for an operation. */
  datatype Function = Before | Itself | After

  datatype Event =
    | Enter | Leave
    | Init(ok: bool)
    | Call(which: Function)
    | AskExit
    | DriverExit
    | Ref | Unref
    | Free

  /**
   * A connection is open or not, an operation runs or not and has called so many stages of the driver, an exit is
   * owed or not; and who holds the camera.
   */
  datatype Life = Life(open: bool, busy: bool, stage: nat, owed: bool, refs: nat, gone: bool)

  /**
   * The protocol. Operations do not overlap, and they need an open connection to call the driver: first the
   * function before the operation, if at all, then the operation itself, then the function after it; a connection
   * is never closed, nor the camera freed, while an operation runs; nobody starts an operation while a close or a
   * free is owed; only an exit asked for since the connection was opened is owed; nothing happens to a freed camera.
   */
  function Next(l: Life, e: Event): Option<Life> {
    if l.gone then None else
    match e
    case Enter => if !l.busy && !(l.owed && l.open) && l.refs > 0 then Some(l.(busy := true, stage := 0)) else None
    case Leave => if l.busy then Some(l.(busy := false)) else None
    case Init(ok) => if !l.open then Some(l.(open := ok, owed := false)) else None
    case Call(Before) => if l.busy && l.open && l.stage == 0 then Some(l.(stage := 1)) else None
    case Call(Itself) => if l.busy && l.open && l.stage <= 1 then Some(l.(stage := 2)) else None
    case Call(After) => if l.busy && l.open && l.stage == 2 then Some(l.(stage := 3)) else None
    case AskExit => if l.busy then Some(l.(owed := true)) else None
    case DriverExit => if !l.busy && l.open then Some(l.(open := false)) else None
    case Ref => Some(l.(refs := l.refs + 1))
    case Unref => if l.refs > 0 then Some(l.(refs := l.refs - 1)) else None
    case Free => if !l.busy && !l.open && l.refs == 0 then Some(l.(gone := true)) else None
  }

  function Replay(trace: seq<Event>): Option<Life> {
    if trace == [] then Some(Life(false, false, 0, false, 1, false))
    else match Replay(trace[..|trace| - 1])
      case None => None
      case Some(l) => Next(l, trace[|trace| - 1])
  }

  /** Nothing is owed: no connection that was asked to close is open, and a camera nobody holds is gone. */
  predicate Settled(l: Life) {
    !l.busy && !(l.owed && l.open) && (l.refs == 0 <==> l.gone)
  }

  lemma ReplayOne(trace: seq<Event>, e: Event)
    ensures Replay(trace + [e]) == match Replay(trace) case None => None case Some(l) => Next(l, e)
  {
    assert (trace + [e])[..|trace|] == trace;
  }

  function Count(trace: seq<Event>, e: Event): nat {
    if trace == [] then 0 else Count(trace[..|trace| - 1], e) + (if trace[|trace| - 1] == e then 1 else 0)
  }

  /** How many calls of the driver's functions there are. */
  function CallsIn(trace: seq<Event>): nat {
    if trace == [] then 0 else CallsIn(trace[..|trace| - 1]) + (if trace[|trace| - 1].Call? then 1 else 0)
  }

  /** In a legal trace a camera is freed at most once, and exactly if it is gone. */
  lemma {:induction false} FreedOnce(trace: seq<Event>)
    requires Replay(trace).Some?
    ensures Count(trace, Free) == if Replay(trace).value.gone then 1 else 0
  {
    if trace != [] {
      FreedOnce(trace[..|trace| - 1]);
    }
  }

  /** In a legal trace every operation that began has ended, except the one that runs. */
  lemma {:induction false} EntersAndLeaves(trace: seq<Event>)
    requires Replay(trace).Some?
    ensures Count(trace, Enter) == Count(trace, Leave) + if Replay(trace).value.busy then 1 else 0
  {
    if trace != [] {
      EntersAndLeaves(trace[..|trace| - 1]);
    }
  }

  lemma StaysBusy(l: Life, e: Event)
    requires Next(l, e).Some? && e != Leave && (e == Enter || l.busy)
    ensures Next(l, e).value.busy && (e == Enter || (e != DriverExit && e != Free))
  {
  }

  /** While an operation runs the camera is neither closed nor freed. */
  lemma {:induction false} NotClosedWhileBusy(trace: seq<Event>, i: nat, j: nat)
    requires Replay(trace).Some? && i < j <= |trace| && trace[i] == Enter
    requires forall k :: i < k < j ==> trace[k] != Leave
    ensures Replay(trace[..j]).Some? && Replay(trace[..j]).value.busy
    ensures forall k :: i < k < j ==> trace[k] != DriverExit && trace[k] != Free
    decreases j
  {
    hide Next;
    ReplayPrefix(trace, j);
    ReplayPrefix(trace, j - 1);
    assert trace[..j][..j - 1] == trace[..j - 1];
    if i + 1 < j {
      NotClosedWhileBusy(trace, i, j - 1);
    }
    StaysBusy(Replay(trace[..j - 1]).value, trace[j - 1]);
  }

  lemma {:induction false} ReplayPrefix(trace: seq<Event>, j: nat)
    requires Replay(trace).Some? && j <= |trace|
    ensures Replay(trace[..j]).Some?
    decreases |trace|
  {
    if j < |trace| {
      ReplayPrefix(trace[..|trace| - 1], j);
      assert trace[..|trace| - 1][..j] == trace[..j];
    } else {
      assert trace[..j] == trace;
    }
  }

  // ------------------------------------------------------------------
  // The camera object
  // ------------------------------------------------------------------

  /** What a driver function may do to the camera while it runs. */
  datatype Act =
    | CallExit
    | CallRef
    | CallUnref
    | CallOperation(driver: Driver)
    | StartTimeout(number: int)
    | StopTimeout(id: nat)

  /** One call of a driver function. */
  datatype DriverCall = DriverCall(acts: seq<Act>, ok: bool)

  /** What a driver does in one operation. */
  datatype Driver = Driver(portOpens: bool, init: DriverCall, supported: bool,
                           pre: Option<DriverCall>, body: DriverCall, post: Option<DriverCall>)

  datatype Result = Ok | Busy | InitError | NotSupported | DriverError

  class Camera {
    var used: nat
    var refCount: nat
    var exitRequested: bool
    /** Whether the library counts as loaded. */
    var lh: bool
    /** Whether the driver has filled in its functions. */
    var functions: bool
    var timeoutIds: seq<nat>
    /** Whether the frontend supplied functions to start and to stop timeouts. */
    const timeouts: bool
    var freed: bool
    ghost var trace: seq<Event>
    ghost var running: multiset<nat>
    /** How far the operation that runs has come with the driver's functions. */
    ghost var stage: nat

    /** The camera as the protocol sees it. */
    ghost function Abs(): Life
      reads this
    {
      Life(functions, used > 0, stage, exitRequested, refCount, freed)
    }

    /** How often a function of the driver has been called for an operation. */
    ghost function Calls(): nat
      reads this
    {
      CallsIn(trace)
    }

    /** The trace is legal and has led here; at most one operation runs; the timeouts known are those that run. */
    ghost predicate Valid()
      reads this
    {
      && Replay(trace) == Some(Abs())
      && used <= 1 && (functions ==> lh) && (freed ==> used == 0 && refCount == 0 && !lh)
      && running == multiset(timeoutIds) && (timeoutIds != [] ==> timeouts)
    }

    lemma Known()
      requires Valid()
      ensures running == multiset(timeoutIds) && (functions ==> lh) && (freed ==> !lh)
    {
    }

    /** Between operations. */
    ghost predicate Idle()
      reads this
    {
      Valid() && !freed && used == 0 && refCount > 0 && (exitRequested ==> !lh)
    }

    /** In an operation. */
    ghost predicate InUse()
      reads this
    {
      Valid() && !freed && used == 1
    }

    constructor (timeouts: bool)
      ensures Idle() && !lh && this.timeouts == timeouts && timeoutIds == [] && Calls() == 0
    {
      used, refCount, exitRequested, lh, functions, timeoutIds := 0, 1, false, false, false, [];
      this.timeouts := timeouts;
      freed, trace, running, stage := false, [], multiset{}, 0;
    }

    /** Notes an event. */
    ghost method Note(e: Event)
      requires Replay(trace).Some?
      modifies this`trace
      ensures trace == old(trace) + [e]
      ensures Replay(trace) == Next(Replay(old(trace)).value, e)
      ensures Calls() == old(Calls()) + if e.Call? then 1 else 0
    {
      ReplayOne(trace, e);
      trace := trace + [e];
      assert trace[..|trace| - 1] == old(trace);
    }

    // ----------------------------------------------------------------
    // Timeouts
    // ----------------------------------------------------------------

    /** Starts a timeout, if there are timeouts and the frontend gives a number for it. */
    method BeginTimeout(id: int)
      requires Valid()
      modifies this`timeoutIds, this`running
      ensures Valid() && timeoutIds == if timeouts && id >= 0 then old(timeoutIds) + [id] else old(timeoutIds)
      ensures running == if timeouts && id >= 0 then old(running) + multiset{id} else old(running)
    {
      hide Replay, Next;
      if !timeouts || id < 0 {
        return;
      }
      timeoutIds := timeoutIds + [id];
      running := running + multiset{id};
    }

    method FindTimeout(id: nat) returns (i: nat)
      ensures if id in timeoutIds then i < |timeoutIds| && timeoutIds[i] == id else i == |timeoutIds|
    {
      i := 0;
      while i < |timeoutIds|
        invariant i <= |timeoutIds| && id !in timeoutIds[..i]
      {
        if timeoutIds[i] == id {
          return;
        }
        i := i + 1;
      }
      assert timeoutIds[..i] == timeoutIds;
    }

    /** Stops the first timeout of a number. */
    method EndTimeout(id: nat)
      requires Valid()
      modifies this`timeoutIds, this`running
      ensures Valid()
      ensures !timeouts || id !in old(timeoutIds) ==> timeoutIds == old(timeoutIds)
      ensures timeouts && id in old(timeoutIds) ==>
        |timeoutIds| == |old(timeoutIds)| - 1 && multiset(timeoutIds) == multiset(old(timeoutIds)) - multiset{id}
      ensures running == old(running) - multiset{id}
    {
      hide Replay, Next, Count;
      if !timeouts {
        return;
      }
      var i := FindTimeout(id);
      if i == |timeoutIds| {
        MinusAbsent(running, id);
        return;
      }
      WithoutOne(timeoutIds, i);
      timeoutIds := timeoutIds[..i] + timeoutIds[i + 1..];
      running := running - multiset{id};
    }

    // ----------------------------------------------------------------
    // Closing and freeing
    // ----------------------------------------------------------------

    /** Closes the connection, or has it closed when the operation that runs ends. */
    method Exit()
      requires Idle() || InUse()
      modifies this
      ensures old(trace) <= trace && Calls() == old(Calls())
      ensures old(InUse()) ==>
        InUse() && exitRequested && lh == old(lh) && functions == old(functions) && refCount == old(refCount)
      ensures old(InUse()) ==> running == old(running) && stage == old(stage)
      ensures old(Idle()) ==> Idle() && !lh && timeoutIds == [] && running == multiset{} && refCount == old(refCount)
    {
      hide Replay, CallsIn;
      if used > 0 {
        Note(AskExit);
        exitRequested := true;
        return;
      }
      CloseNow();
    }

    /** Stops every timeout. */
    method StopTimeouts()
      requires Valid()
      modifies this`timeoutIds, this`running
      ensures Valid() && timeoutIds == [] && running == multiset{}
    {
      hide Next, Replay, CallsIn;
      while |timeoutIds| > 0
        invariant Valid()
        decreases |timeoutIds|
      {
        EndTimeout(timeoutIds[0]);
      }
    }

    /** Closes the connection between operations. */
    method CloseNow()
      requires Valid() && !freed && used == 0
      modifies this
      ensures Valid() && !freed && used == 0 && !lh && timeoutIds == [] && running == multiset{}
      ensures refCount == old(refCount) && exitRequested == old(exitRequested)
      ensures old(trace) <= trace && Calls() == old(Calls())
    {
      hide Replay, CallsIn;
      StopTimeouts();
      if functions {
        Note(DriverExit);
      }
      functions := false;
      lh := false;
    }

    /** Frees the camera, after closing its connection. */
    method FreeNow()
      requires Valid() && !freed && used == 0 && refCount == 0
      modifies this
      ensures Valid() && freed && !lh && old(trace) <= trace && Calls() == old(Calls())
    {
      hide Replay, CallsIn;
      if lh {
        CloseNow();
      }
      Note(Free);
      freed := true;
    }

    method AddRef()
      requires Idle() || InUse()
      modifies this`refCount, this`trace
      ensures refCount == old(refCount) + 1 && old(trace) <= trace && Calls() == old(Calls())
      ensures (old(Idle()) ==> Idle()) && (old(InUse()) ==> InUse())
    {
      hide Replay, CallsIn;
      Note(Ref);
      refCount := refCount + 1;
    }

    /** Gives up a reference. The last one frees the camera, at once or when the operation that runs ends. */
    method Release() returns (ok: bool)
      requires Idle() || InUse()
      modifies this
      ensures ok == (old(refCount) > 0) && old(trace) <= trace && Calls() == old(Calls())
      ensures old(InUse()) ==> InUse() && refCount == (if ok then old(refCount) - 1 else 0)
      ensures old(InUse()) ==> running == old(running) && stage == old(stage)
      ensures old(InUse()) ==> lh == old(lh) && functions == old(functions) && exitRequested == old(exitRequested)
      ensures old(Idle()) ==> if old(refCount) > 1 then Idle() && refCount == old(refCount) - 1 else Valid() && freed
    {
      hide Replay, CallsIn;
      if refCount == 0 {
        return false;
      }
      Note(Unref);
      refCount := refCount - 1;
      if refCount == 0 && used == 0 {
        FreeNow();
      }
      return true;
    }

    // ----------------------------------------------------------------
    // Operations
    // ----------------------------------------------------------------

    /** A driver function calls back. */
    method Do(act: Act)
      requires InUse()
      modifies this
      ensures InUse() && lh == old(lh) && functions == old(functions) && stage == old(stage)
      ensures old(trace) <= trace && Calls() == old(Calls())
      ensures exitRequested <==> act == CallExit || old(exitRequested)
      ensures running == TimeoutsAfterAct(old(running), act, timeouts)
      decreases 0, 1
    {
      hide Next, Replay, CallsIn, Camera.Valid, Camera.Idle, Performed, TimeoutsAfter, Quiet;
      match act {
        case CallExit => Exit();
        case CallRef => AddRef();
        case CallUnref => var _ := Release();
        case CallOperation(driver) => var _ := Operation(driver);
        case StartTimeout(id) => BeginTimeout(id);
        case StopTimeout(id) => EndTimeout(id);
      }
    }

    /** A driver function runs. */
    method Perform(call: DriverCall)
      requires InUse()
      modifies this
      ensures InUse() && lh == old(lh) && functions == old(functions) && stage == old(stage)
      ensures old(trace) <= trace && Calls() == old(Calls())
      ensures exitRequested <==> CallExit in call.acts || old(exitRequested)
      ensures running == TimeoutsAfter(old(running), call.acts, timeouts)
      ensures call.acts == [] ==> refCount == old(refCount) && trace == old(trace)
      decreases 0, 2
    {
      hide Next, Replay, CallsIn, Camera.Valid, TimeoutsAfter, TimeoutsAfterAct;
      TimeoutsAfterNone(running, timeouts);
      var i := 0;
      while i < |call.acts|
        invariant i <= |call.acts| && InUse() && lh == old(lh) && functions == old(functions) && stage == old(stage)
        invariant old(trace) <= trace && Calls() == old(Calls())
        invariant exitRequested <==> CallExit in call.acts[..i] || old(exitRequested)
        invariant running == TimeoutsAfter(old(running), call.acts[..i], timeouts)
        invariant call.acts == [] ==> refCount == old(refCount) && trace == old(trace)
      {
        TimeoutsAfterOne(old(running), call.acts, i, timeouts);
        assert call.acts[..i + 1] == call.acts[..i] + [call.acts[i]];
        Do(call.acts[i]);
        i := i + 1;
      }
      assert call.acts[..i] == call.acts;
    }

    /** Opens the connection. The library counts as loaded from the start, also if this fails. */
    method InitNow(driver: Driver) returns (ok: bool)
      requires InUse() && !lh
      modifies this
      ensures InUse() && lh && ok == (driver.portOpens && driver.init.ok) && functions == ok && stage == old(stage)
      ensures old(trace) <= trace && Calls() == old(Calls())
      ensures exitRequested <==> driver.portOpens && CallExit in driver.init.acts
      ensures running == TimeoutsAfter(old(running), if driver.portOpens then driver.init.acts else [], timeouts)
      ensures driver.init.acts == [] || !driver.portOpens ==>
        refCount == old(refCount) && trace == old(trace) + [Init(ok)]
      decreases 0, 3
    {
      hide Next, Replay, CallsIn, Camera.Valid;
      if !driver.portOpens {
        Loaded(false);
        return false;
      }
      Loaded(driver.init.ok);
      Perform(driver.init);
      return driver.init.ok;
    }

    /** The library is loaded, an earlier request for an exit forgotten, and the driver's functions are there or not. */
    method Loaded(ok: bool)
      requires InUse() && !lh
      modifies this
      ensures InUse() && lh && functions == ok && !exitRequested && refCount == old(refCount) && stage == old(stage)
      ensures trace == old(trace) + [Init(ok)] && Calls() == old(Calls()) && running == old(running)
    {
      hide Replay, CallsIn;
      exitRequested := false;
      lh := true;
      Note(Init(ok));
      functions := ok;
    }

    /** The operation ends; what was put off is done now. */
    method Unused()
      requires InUse()
      modifies this
      ensures Valid() && old(trace) <= trace && Calls() == old(Calls())
      ensures if old(refCount) > 0 then Idle() && refCount == old(refCount) else freed
      ensures !old(exitRequested) && !freed ==> running == old(running)
      ensures old(exitRequested) ==> !lh
      ensures !old(exitRequested) && !freed ==> lh == old(lh) && functions == old(functions)
      ensures used == 0 && (freed || Idle())
      ensures !old(exitRequested) && old(refCount) > 0 ==> trace == old(trace) + [Leave]
    {
      hide Replay, CallsIn;
      Note(Leave);
      used := used - 1;
      if exitRequested {
        CloseNow();
      }
      if refCount == 0 {
        FreeNow();
      }
    }

    /** A function of the driver is called. */
    method CallDriver(which: Function, call: DriverCall)
      requires InUse() && functions
      requires match which case Before => stage == 0 case Itself => stage <= 1 case After => stage == 2
      modifies this
      ensures InUse() && functions && lh == old(lh) && old(trace) <= trace && Calls() == old(Calls()) + 1
      ensures stage == match which case Before => 1 case Itself => 2 case After => 3
      ensures exitRequested <==> CallExit in call.acts || old(exitRequested)
      ensures running == TimeoutsAfter(old(running), call.acts, timeouts)
      ensures call.acts == [] ==> refCount == old(refCount) && trace == old(trace) + [Call(which)]
      decreases 0, 3
    {
      hide Replay, CallsIn;
      Note(Call(which));
      stage := match which case Before => 1 case Itself => 2 case After => 3;
      Perform(call);
    }

    /** The operation begins. */
    method Begin()
      requires Idle()
      modifies this`used, this`trace, this`stage
      ensures InUse() && stage == 0 && trace == old(trace) + [Enter] && Calls() == old(Calls())
    {
      hide Replay, CallsIn;
      Note(Enter);
      used, stage := used + 1, 0;
    }

    /**
     * A wrapped operation: it opens the connection if need be, and runs the driver's functions. It succeeds exactly
     * if the connection is there, the operation is supported, and every function that is called succeeds; unless
     * the connection is there and the operation supported, none is called. From within another operation it is
     * turned away. Unless somebody asks for an exit or the camera is freed, only the driver stops timeouts.
     */
    method Operation(driver: Driver) returns (r: Result)
      requires Idle() || InUse()
      modifies this
      ensures Valid() && old(trace) <= trace
      ensures old(InUse()) ==> r == Busy && unchanged(this)
      ensures old(Idle()) ==> (freed || Idle()) && used == 0
      ensures old(Idle()) ==>
        var opens := driver.portOpens && driver.init.ok;
        var usable := if old(lh) then old(functions) else opens;
        && (r == InitError <==> !old(lh) && !opens)
        && (r == NotSupported <==> (old(lh) && !old(functions)) || (usable && !driver.supported))
        && (r == Ok <==>
              && usable && driver.supported && driver.body.ok
              && (driver.pre.Some? ==> driver.pre.value.ok) && (driver.post.Some? ==> driver.post.value.ok))
        && (r == DriverError <==>
              && usable && driver.supported
              && (!driver.body.ok || (driver.pre.Some? && !driver.pre.value.ok)
                  || (driver.post.Some? && !driver.post.value.ok)))
      ensures old(Idle()) ==>
        Calls() == old(Calls()) +
          if r == InitError || r == NotSupported then 0
          else if driver.pre.Some? && !driver.pre.value.ok then 1
          else 1 + (if driver.pre.Some? then 1 else 0) + if driver.post.Some? then 1 else 0
      ensures old(Idle()) ==> lh == (!freed && CallExit !in Performed(driver, old(lh), old(functions)))
      ensures old(Idle()) ==> functions == (lh && if old(lh) then old(functions) else r != InitError)
      ensures old(Idle()) && lh ==>
        multiset(timeoutIds)
        == TimeoutsAfter(multiset(old(timeoutIds)), Performed(driver, old(lh), old(functions)), timeouts)
      ensures old(Idle()) && Quiet(driver) ==>
        && Idle() && lh && functions == (if old(lh) then old(functions) else r != InitError)
        && trace == old(trace) + QuietTrace(driver, old(lh), old(functions))
      decreases if used > 0 then 0 else 1, 0
    {
      hide Next, Replay, CallsIn, Camera.Valid, Camera.Calls, Served, Performed, TimeoutsAfter;
      if used > 0 {
        return Busy;
      }
      Known();
      Begin();
      r := Serve(driver);
      Unused();
      Known();
    }

    /** What an operation does between its beginning and its end. */
    method Serve(driver: Driver) returns (r: Result)
      requires InUse() && stage == 0 && !(exitRequested && lh)
      modifies this
      ensures InUse() && lh && old(trace) <= trace
      ensures r != Busy && (r == InitError <==> !old(lh) && !(driver.portOpens && driver.init.ok))
      ensures functions == if old(lh) then old(functions) else r != InitError
      ensures r == NotSupported <==> r != InitError && !(functions && driver.supported)
      ensures r == Ok || r == DriverError ==> (r == Ok <==> Succeeds(driver))
      ensures Calls() == old(Calls()) + if r == InitError || r == NotSupported then 0 else CallCount(driver)
      ensures exitRequested <==> CallExit in Performed(driver, old(lh), old(functions))
      ensures running == TimeoutsAfter(old(running), Performed(driver, old(lh), old(functions)), timeouts)
      ensures Quiet(driver) ==> refCount == old(refCount) && !exitRequested
      ensures Quiet(driver) ==> trace == old(trace) + Served(driver, old(lh), old(functions))
      decreases 0, 5
    {
      hide Next, Replay, CallsIn, CallsOf, Camera.Valid, TimeoutsAfter, Succeeds, CallCount, ActsOf;
      if Quiet(driver) {
        QuietDoesNothing(driver, lh, functions);
      }
      ghost var opening := if !lh && driver.portOpens then driver.init.acts else [];
      TimeoutsAfterBoth(running, opening, ActsOf(driver), timeouts);
      TimeoutsAfterNone(running, timeouts);
      if !lh {
        var ok := InitNow(driver);
        if !ok {
          assert Performed(driver, false, old(functions)) == opening;
          return InitError;
        }
      }
      if !functions || !driver.supported {
        assert Performed(driver, old(lh), old(functions)) == opening;
        return NotSupported;
      }
      assert Performed(driver, old(lh), old(functions)) == opening + ActsOf(driver);
      var ok := CallAll(driver);
      return if ok then Ok else DriverError;
    }

    /** The driver's functions for an operation: the one before it, the operation itself, the one after it. */
    method CallAll(driver: Driver) returns (ok: bool)
      requires InUse() && functions && stage == 0
      modifies this
      ensures InUse() && functions && lh == old(lh) && old(trace) <= trace
      ensures ok == Succeeds(driver) && Calls() == old(Calls()) + CallCount(driver)
      ensures exitRequested <==> old(exitRequested) || CallExit in ActsOf(driver)
      ensures running == TimeoutsAfter(old(running), ActsOf(driver), timeouts)
      ensures Quiet(driver) ==> refCount == old(refCount)
      ensures Quiet(driver) ==> trace == old(trace) + CallsOf(driver)
      decreases 0, 4
    {
      hide Valid, Next, Replay, CallsIn, TimeoutsAfter, ActsOf;
      ActsInTurn(driver, running, timeouts);
      if driver.pre.Some? {
        CallDriver(Before, driver.pre.value);
        if !driver.pre.value.ok {
          return false;
        }
      }
      CallDriver(Itself, driver.body);
      if driver.post.Some? {
        CallDriver(After, driver.post.value);
      }
      return driver.body.ok && (driver.post.Some? ==> driver.post.value.ok);
    }
  }

  /** Whether the driver's function before an operation lets it go on. */
  predicate Prepared(driver: Driver) {
    driver.pre.Some? ==> driver.pre.value.ok
  }

  /** Whether all the driver's functions that are called for an operation succeed. */
  predicate Succeeds(driver: Driver) {
    Prepared(driver) && driver.body.ok && (driver.post.Some? ==> driver.post.value.ok)
  }

  /** How many of the driver's functions are called for an operation. */
  function CallCount(driver: Driver): nat {
    (if driver.pre.Some? then 1 else 0) + if !Prepared(driver) then 0 else 1 + if driver.post.Some? then 1 else 0
  }

  /** What the driver's functions that are called for an operation do to the camera. */
  function ActsOf(driver: Driver): seq<Act> {
    (if driver.pre.Some? then driver.pre.value.acts else [])
    + (if !Prepared(driver) then []
       else driver.body.acts + if driver.post.Some? then driver.post.value.acts else [])
  }

  /** What the driver does to the camera in the course of an operation, be it while the connection is opened. */
  function Performed(driver: Driver, lh: bool, functions: bool): seq<Act> {
    (if !lh && driver.portOpens then driver.init.acts else [])
    + (if (if lh then functions else driver.portOpens && driver.init.ok) && driver.supported then ActsOf(driver)
       else [])
  }

  /** The timeouts that run after an act of the driver in an operation. */
  function TimeoutsAfterAct(running: multiset<nat>, act: Act, timeouts: bool): multiset<nat> {
    match act
    case StartTimeout(id) => if timeouts && id >= 0 then running + multiset{id} else running
    case StopTimeout(id) => running - multiset{id}
    case _ => running
  }

  /** The timeouts that run after some acts. */
  function TimeoutsAfter(running: multiset<nat>, acts: seq<Act>, timeouts: bool): multiset<nat> {
    if acts == [] then running
    else
      var before := TimeoutsAfter(running, acts[..|acts| - 1], timeouts);
      TimeoutsAfterAct(before, acts[|acts| - 1], timeouts)
  }

  lemma TimeoutsAfterNone(running: multiset<nat>, timeouts: bool)
    ensures TimeoutsAfter(running, [], timeouts) == running
  {
  }

  lemma TimeoutsAfterOne(running: multiset<nat>, acts: seq<Act>, i: nat, timeouts: bool)
    requires i < |acts|
    ensures TimeoutsAfter(running, acts[..i + 1], timeouts)
         == TimeoutsAfterAct(TimeoutsAfter(running, acts[..i], timeouts), acts[i], timeouts)
  {
    assert acts[..i + 1][..i] == acts[..i];
  }

  lemma {:induction false} TimeoutsAfterBoth(running: multiset<nat>, a: seq<Act>, b: seq<Act>, timeouts: bool)
    ensures TimeoutsAfter(running, a + b, timeouts) == TimeoutsAfter(TimeoutsAfter(running, a, timeouts), b, timeouts)
  {
    if b == [] {
      assert a + b == a;
    } else {
      TimeoutsAfterBoth(running, a, b[..|b| - 1], timeouts);
      assert (a + b)[..|a + b| - 1] == a + b[..|b| - 1];
    }
  }

  /** What the driver's functions do, one after the other. */
  lemma ActsInTurn(driver: Driver, running: multiset<nat>, timeouts: bool)
    ensures CallExit in ActsOf(driver) <==>
      || (driver.pre.Some? && CallExit in driver.pre.value.acts)
      || (Prepared(driver) && CallExit in driver.body.acts)
      || (Prepared(driver) && driver.post.Some? && CallExit in driver.post.value.acts)
    ensures var first := if driver.pre.Some? then TimeoutsAfter(running, driver.pre.value.acts, timeouts) else running;
      var second := TimeoutsAfter(first, driver.body.acts, timeouts);
      TimeoutsAfter(running, ActsOf(driver), timeouts)
      == if !Prepared(driver) then first
         else if driver.post.Some? then TimeoutsAfter(second, driver.post.value.acts, timeouts)
         else second
  {
    hide TimeoutsAfter;
    var a := if driver.pre.Some? then driver.pre.value.acts else [];
    var c := if driver.post.Some? then driver.post.value.acts else [];
    var first := TimeoutsAfter(running, a, timeouts);
    TimeoutsAfterNone(running, timeouts);
    if Prepared(driver) {
      TimeoutsAfterBoth(running, a, driver.body.acts + c, timeouts);
      TimeoutsAfterBoth(first, driver.body.acts, c, timeouts);
      TimeoutsAfterNone(TimeoutsAfter(first, driver.body.acts, timeouts), timeouts);
    } else {
      assert ActsOf(driver) == a;
    }
  }

  lemma QuietDoesNothing(driver: Driver, lh: bool, functions: bool)
    requires Quiet(driver)
    ensures Performed(driver, lh, functions) == []
  {
  }

  /** A timeout that the driver does not stop keeps running. */
  lemma {:induction false} TimeoutsKept(running: multiset<nat>, acts: seq<Act>, timeouts: bool, id: nat)
    requires StopTimeout(id) !in acts
    ensures TimeoutsAfter(running, acts, timeouts)[id] >= running[id]
  {
    if acts != [] {
      TimeoutsKept(running, acts[..|acts| - 1], timeouts, id);
      assert acts[|acts| - 1] != StopTimeout(id);
    }
  }

  /** What happens in an operation whose driver does not call back. */
  function QuietTrace(driver: Driver, lh: bool, functions: bool): seq<Event> {
    [Enter] + Served(driver, lh, functions) + [Leave]
  }

  /** What happens in it between its beginning and its end. */
  function Served(driver: Driver, lh: bool, functions: bool): seq<Event> {
    var opens := driver.portOpens && driver.init.ok;
    (if lh then [] else [Init(opens)])
    + (if (if lh then functions else opens) && driver.supported then CallsOf(driver) else [])
  }

  /** Calls of the driver's functions: the one before the operation, the operation itself, the one after it. */
  function CallsOf(driver: Driver): seq<Event> {
    (if driver.pre.Some? then [Call(Before)] else [])
    + (if !Prepared(driver) then []
       else [Call(Itself)] + if driver.post.Some? then [Call(After)] else [])
  }

  /** A driver that does not call back. */
  predicate Quiet(driver: Driver) {
    && driver.init.acts == [] && driver.body.acts == []
    && (driver.pre.Some? ==> driver.pre.value.acts == []) && (driver.post.Some? ==> driver.post.value.acts == [])
  }

  lemma MinusAbsent(m: multiset<nat>, id: nat)
    requires id !in m
    ensures m - multiset{id} == m
  {
  }

  lemma WithoutOne(s: seq<nat>, i: nat)
    requires i < |s|
    ensures multiset(s[..i] + s[i + 1..]) == multiset(s) - multiset{s[i]}
  {
    assert s == s[..i] + [s[i]] + s[i + 1..];
  }

  // ------------------------------------------------------------------
  // Whole lives
  // ------------------------------------------------------------------

  datatype Command = Do(driver: Driver) | Close | Hold | LetGo

  /**
   * A life: whatever operations are done, whatever their drivers do meanwhile, and however the camera is held,
   * let go and closed, its trace follows the protocol and leaves nothing owed.
   */
  method Live(c: Camera, commands: seq<Command>) returns (done: nat)
    requires c.Idle()
    modifies c
    ensures Replay(c.trace).Some? && Settled(Replay(c.trace).value) && old(c.trace) <= c.trace
    ensures c.used == 0 && (done == |commands| || (done < |commands| && c.freed))
    ensures if c.freed then c.refCount == 0 && !c.lh else c.Idle()
    ensures Count(c.trace, Enter) == Count(c.trace, Leave)
    ensures Count(c.trace, Free) == if c.freed then 1 else 0
  {
    hide Next, Replay, Count;
    done := 0;
    while done < |commands| && !c.freed
      invariant done <= |commands| && c.Valid() && (c.freed || c.Idle()) && c.used == 0
      invariant c.freed ==> c.refCount == 0
      invariant old(c.trace) <= c.trace
    {
      match commands[done] {
        case Do(driver) => var _ := c.Operation(driver);
        case Close => c.Exit();
        case Hold => c.AddRef();
        case LetGo => var _ := c.Release();
      }
      done := done + 1;
    }
    FreedOnce(c.trace);
    EntersAndLeaves(c.trace);
  }

  /** A driver that works. */
  function Working(): Driver {
    Driver(true, DriverCall([], true), true, None, DriverCall([], true), None)
  }

  /** A failed opening counts as open: the camera is not opened again, not even once the driver would work. */
  method StuckAfterFailedInit() returns (first: Result, second: Result, third: Result)
    ensures first == InitError && second == NotSupported && third == Ok
  {
    var c := new Camera(true);
    first := c.Operation(Working().(portOpens := false));
    second := c.Operation(Working());
    c.Exit();
    third := c.Operation(Working());
  }

  /** A failure of any of the driver's functions is reported, and a failure of the first prevents the others. */
  method FailuresAreReported() returns (results: seq<Result>, ghost calls: seq<nat>)
    ensures results == [DriverError, DriverError, DriverError] && calls == [1, 4, 7]
  {
    hide Camera.Valid, Camera.Idle, Camera.Calls, QuietTrace, Performed, TimeoutsAfter;
    var fails, works := DriverCall([], false), DriverCall([], true);
    var c := new Camera(true);
    var first := c.Operation(Working().(pre := Some(fails), post := Some(works)));
    calls := [c.Calls()];
    var second := c.Operation(Working().(pre := Some(works), body := fails, post := Some(works)));
    calls := calls + [c.Calls()];
    var third := c.Operation(Working().(pre := Some(works), post := Some(fails)));
    calls := calls + [c.Calls()];
    results := [first, second, third];
  }
}
