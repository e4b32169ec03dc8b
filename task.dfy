/** The asynchronous `Task` reactive controller of the lit.dev documentation's
    controller samples.

    A task runs a caller-supplied operation whenever the tuple of dependency
    values it reads at each host update differs from the tuple it read the
    time before. Its status moves through INITIAL, PENDING, COMPLETE and
    ERROR, and a generation counter (`callId`) makes sure that only the most
    recently started call can commit its outcome.

    The `await` in the middle of the source's `_completeTask` splits it into
    two events: `HostUpdated` runs it up to the `await` and returns the key of
    the call it started, and `Settle` runs what follows the `await` once the
    call with that key has finished. Any interleaving of those events is a
    run of the controller. */
module TaskController {
  import opened Wrappers

  /** JavaScript values as far as the controller tells them apart: the value
      `undefined`, the number NaN, the `initialState` symbol, and every other
      value (a primitive or an object reference) identified by `id`. */
  datatype JsValue = Undefined | NaN | InitialState | Data(id: int)

  /** Strict equality `===`: the same value, except that NaN is not equal to
      itself. */
  predicate StrictEquals(a: JsValue, b: JsValue) {
    a == b && a != NaN
  }

  /** `===` is symmetric, and NaN is the one value it does not find equal
      to itself. */
  lemma StrictEqualsOnlyFailsOnNaN(a: JsValue, b: JsValue)
    ensures StrictEquals(a, b) <==> StrictEquals(b, a)
    ensures !StrictEquals(a, a) <==> a == NaN
    ensures StrictEquals(a, b) ==> a == b
  {
  }

  /** The `notEqual` change test of the reactive element library: the two
      differ under `===` and are not both NaN. */
  function NotEqual(value: JsValue, previous: JsValue): (r: bool)
    ensures r <==> value != previous
  {
    !StrictEquals(previous, value) && (StrictEquals(previous, previous) || StrictEquals(value, value))
  }

  /** The four states of `TaskStatus`, named as in the source. */
  datatype TaskStatus = INITIAL | PENDING | COMPLETE | ERROR

  /** How an awaited call of the operation ended: it resolved with a value
      (possibly the `initialState` symbol), or it threw (or rejected with) a
      value, possibly `undefined`. */
  datatype Settlement = Resolved(result: JsValue) | Threw(thrown: JsValue)

  /** The optional callbacks handed to `render`. */
  datatype StatusRenderer = StatusRenderer(
    initial: Option<() -> JsValue>,
    pending: Option<() -> JsValue>,
    complete: Option<JsValue -> JsValue>,
    error: Option<JsValue -> JsValue>)

  /** A previous dependency tuple read at index `i` as JavaScript reads an
      array: past its end the element is `undefined`. */
  function At(previous: seq<JsValue>, i: nat): (v: JsValue) {
    if i < |previous| then previous[i] else Undefined
  }

  /** Some position of the new tuple holds a value that `notEqual` tells
      apart from the previous tuple's value at that position. */
  predicate Changed(deps: seq<JsValue>, previous: seq<JsValue>) {
    exists i :: 0 <= i < |deps| && NotEqual(deps[i], At(previous, i))
  }

  /** The host element: `requestUpdate` is all the controller uses, and the
      model counts its calls. */
  class Host {
    var updateRequests: nat

    constructor ()
      ensures updateRequests == 0
    {
      updateRequests := 0;
    }

    method RequestUpdate()
      modifies this
      ensures updateRequests == old(updateRequests) + 1
    {
      updateRequests := updateRequests + 1;
    }
  }

  class Task {
    const host: Host
    var previousDeps: seq<JsValue>
    var callId: nat
    var value: JsValue
    var error: JsValue
    var status: TaskStatus

    /** Keys of the started calls whose continuation after the `await` has
        not yet run. */
    ghost var Suspended: set<nat>
    /** The dependency tuples the operation has been called with, in order. */
    ghost var Calls: seq<seq<JsValue>>

    /** The controller's invariant. Every started call took a fresh key, and
        the status is PENDING exactly while the newest call is outstanding.
        At most one of `value` and `error` is defined: neither is while the
        status is INITIAL or PENDING, and on ERROR only `error` is. */
    ghost predicate Valid()
      reads this
    {
      && |Calls| == callId
      && (forall k :: k in Suspended ==> 1 <= k <= callId)
      && (status == PENDING <==> callId in Suspended)
      && (status == INITIAL || status == PENDING ==> value == Undefined && error == Undefined)
      && (status == COMPLETE ==> error == Undefined)
      && (status == ERROR ==> value == Undefined && error != Undefined)
    }

    constructor (host: Host)
      ensures Valid()
      ensures this.host == host
      ensures status == INITIAL && callId == 0 && previousDeps == []
      ensures value == Undefined && error == Undefined
      ensures Suspended == {} && Calls == []
    {
      this.host := host;
      previousDeps := [];
      callId := 0;
      value := Undefined;
      error := Undefined;
      status := INITIAL;
      Suspended := {};
      Calls := [];
    }

    /** The dirty check. The new tuple always replaces the previous one; the
        answer is whether some position changed. */
    method IsDirty(deps: seq<JsValue>) returns (dirty: bool)
      modifies this`previousDeps
      ensures previousDeps == deps
      ensures dirty == Changed(deps, old(previousDeps))
    {
      var i := 0;
      var previous := previousDeps;
      previousDeps := deps;
      while i < |deps|
        invariant 0 <= i <= |deps|
        invariant forall j :: 0 <= j < i ==> !NotEqual(deps[j], At(previous, j))
      {
        if NotEqual(deps[i], At(previous, i)) {
          return true;
        }
        i := i + 1;
      }
      return false;
    }

    /** A host update: when the dependencies changed, start a new call of the
        operation and return its key. */
    method HostUpdated(deps: seq<JsValue>) returns (key: Option<nat>)
      requires Valid()
      modifies this, host
      ensures Valid()
      ensures previousDeps == deps
      ensures key.Some? <==> Changed(deps, old(previousDeps))
      ensures key.None? ==>
        && status == old(status) && value == old(value) && error == old(error)
        && callId == old(callId) && Suspended == old(Suspended) && Calls == old(Calls)
        && host.updateRequests == old(host.updateRequests)
      ensures key.Some? ==>
        && status == PENDING && value == Undefined && error == Undefined
        && host.updateRequests == old(host.updateRequests) + 1
        && callId == old(callId) + 1 && key.value == callId
        && Suspended == old(Suspended) + {callId}
        && Calls == old(Calls) + [deps]
    {
      var dirty := IsDirty(deps);
      if dirty {
        status := PENDING;
        error := Undefined;
        value := Undefined;
        host.RequestUpdate();
        callId := callId + 1;
        key := Some(callId);
        Calls := Calls + [deps];
        Suspended := Suspended + {callId};
      } else {
        key := None;
      }
    }

    /** The continuation after the `await` of the call with the given key.
        Only the newest call commits its outcome and asks the host to update;
        an older one changes nothing. */
    method Settle(key: nat, outcome: Settlement)
      requires Valid()
      requires key in Suspended
      modifies this, host
      ensures Valid()
      ensures Suspended == old(Suspended) - {key}
      ensures callId == old(callId) && previousDeps == old(previousDeps) && Calls == old(Calls)
      ensures key != callId ==>
        && status == old(status) && value == old(value) && error == old(error)
        && host.updateRequests == old(host.updateRequests)
      ensures key == callId ==> host.updateRequests == old(host.updateRequests) + 1
      ensures key == callId && outcome == Resolved(InitialState) ==>
        status == INITIAL && value == Undefined && error == Undefined
      ensures key == callId && outcome.Resolved? && outcome.result != InitialState ==>
        status == COMPLETE && value == outcome.result && error == Undefined
      ensures key == callId && outcome.Threw? ==>
        && value == Undefined && error == outcome.thrown
        && (status == ERROR <==> outcome.thrown != Undefined)
        && (status == COMPLETE <==> outcome.thrown == Undefined)
    {
      Suspended := Suspended - {key};
      var result := if outcome.Resolved? then outcome.result else Undefined;
      var thrown := if outcome.Threw? then outcome.thrown else Undefined;
      if callId == key {
        if result == InitialState {
          status := INITIAL;
        } else {
          status := if thrown == Undefined then COMPLETE else ERROR;
          value := result;
          error := thrown;
        }
        host.RequestUpdate();
      }
    }

    /** The `value` getter: defined only while COMPLETE, and never together
        with an error. */
    function Value(): (r: JsValue)
      requires Valid()
      reads this
      ensures status != COMPLETE ==> r == Undefined
      ensures r == Undefined || error == Undefined
    {
      value
    }

    /** The `error` getter: defined exactly while the status is ERROR. */
    function Error(): (r: JsValue)
      requires Valid()
      reads this
      ensures r != Undefined <==> status == ERROR
    {
      error
    }

    /** `render`: the result of the callback for the current status, given
        the value on COMPLETE and the error on ERROR, or `undefined` when that
        callback is absent. The ensures spell out the match, for
        `RenderPassesOutcome` and `RenderUsesOnlyCurrentCallback` to use. */
    function Render(renderer: StatusRenderer): (r: JsValue)
      reads this
      ensures status == INITIAL ==> r == (if renderer.initial.Some? then renderer.initial.value() else Undefined)
      ensures status == PENDING ==> r == (if renderer.pending.Some? then renderer.pending.value() else Undefined)
      ensures status == COMPLETE ==> r == (if renderer.complete.Some? then renderer.complete.value(value) else Undefined)
      ensures status == ERROR ==> r == (if renderer.error.Some? then renderer.error.value(error) else Undefined)
    {
      match status
      case INITIAL => if renderer.initial.Some? then renderer.initial.value() else Undefined
      case PENDING => if renderer.pending.Some? then renderer.pending.value() else Undefined
      case COMPLETE => if renderer.complete.Some? then renderer.complete.value(value) else Undefined
      case ERROR => if renderer.error.Some? then renderer.error.value(error) else Undefined
    }
  }

  /** Two renderers that agree on the callback for the task's current status
      render the same result: `render` consults no other callback. */
  ghost predicate SameCallback(status: TaskStatus, a: StatusRenderer, b: StatusRenderer) {
    match status
    case INITIAL => a.initial == b.initial
    case PENDING => a.pending == b.pending
    case COMPLETE => a.complete == b.complete
    case ERROR => a.error == b.error
  }

  lemma RenderUsesOnlyCurrentCallback(t: Task, a: StatusRenderer, b: StatusRenderer)
    requires SameCallback(t.status, a, b)
    ensures t.Render(a) == t.Render(b)
  {
  }

  /** What `render` hands its callbacks, read through the getters: the
      `complete` callback receives the task's value, the `error` callback
      receives an error that is always defined, the `initial` and `pending`
      callbacks run while neither a value nor an error is available, and an
      absent callback renders as `undefined`. */
  lemma RenderPassesOutcome(t: Task, r: StatusRenderer)
    requires t.Valid()
    ensures t.status == COMPLETE ==>
      t.Render(r) == (if r.complete.Some? then r.complete.value(t.Value()) else Undefined)
    ensures t.status == ERROR ==>
      t.Error() != Undefined && t.Value() == Undefined
      && t.Render(r) == (if r.error.Some? then r.error.value(t.Error()) else Undefined)
    ensures t.status == INITIAL || t.status == PENDING ==>
      t.Value() == Undefined && t.Error() == Undefined
    ensures t.status == INITIAL ==> t.Render(r) == (if r.initial.Some? then r.initial.value() else Undefined)
    ensures t.status == PENDING ==> t.Render(r) == (if r.pending.Some? then r.pending.value() else Undefined)
  {
  }

  /** A new tuple that holds the same values as the previous one (NaN
      included) does not restart the task, and neither does a tuple that
      only appends `undefined` to it. */
  lemma UnchangedDepsAreClean(previous: seq<JsValue>, extra: nat)
    ensures !Changed(previous + seq(extra, _ => Undefined), previous)
  {
    var deps := previous + seq(extra, _ => Undefined);
    forall i | 0 <= i < |deps|
      ensures !NotEqual(deps[i], At(previous, i))
    {
      if i >= |previous| {
        assert deps[i] == Undefined;
      }
    }
  }

  /** A first host update with a non-empty tuple always starts the task. */
  lemma FirstNonEmptyDepsAreDirty(deps: seq<JsValue>)
    requires deps != [] && deps[0] != Undefined
    ensures Changed(deps, [])
  {
    assert NotEqual(deps[0], At([], 0));
  }

  /** Two overlapping calls: the older one settles last and is ignored. */
  method StaleOutcomeIsDropped() {
    var host := new Host();
    var task := new Task(host);
    FirstNonEmptyDepsAreDirty([Data(1)]);
    var first := task.HostUpdated([Data(1)]);
    assert NotEqual(Data(2), At([Data(1)], 0));
    var second := task.HostUpdated([Data(2)]);
    assert first == Some(1) && second == Some(2);
    task.Settle(2, Resolved(Data(20)));
    assert task.status == COMPLETE && task.Value() == Data(20);
    task.Settle(1, Resolved(Data(10)));
    assert task.status == COMPLETE && task.Value() == Data(20);
    assert host.updateRequests == 3;
  }

  /** A call that throws leaves the task in ERROR; a later call that resolves
      with `initialState` takes it back to INITIAL. */
  method ErrorThenReset() {
    var host := new Host();
    var task := new Task(host);
    FirstNonEmptyDepsAreDirty([Data(1)]);
    var first := task.HostUpdated([Data(1)]);
    task.Settle(1, Threw(Data(7)));
    assert task.status == ERROR && task.Error() == Data(7) && task.Value() == Undefined;
    UnchangedDepsAreClean([Data(1)], 0);
    assert [Data(1)] + seq(0, _ => Undefined) == [Data(1)];
    var again := task.HostUpdated([Data(1)]);
    assert again == None && task.status == ERROR;
    assert NotEqual(Data(3), At([Data(1)], 0));
    var third := task.HostUpdated([Data(3)]);
    task.Settle(2, Resolved(InitialState));
    assert task.status == INITIAL && task.Value() == Undefined && task.Error() == Undefined;
  }

  /** NaN dependencies compare equal to NaN, so they trigger no new call. */
  method NaNDepsAreStable() {
    var host := new Host();
    var task := new Task(host);
    FirstNonEmptyDepsAreDirty([NaN]);
    var first := task.HostUpdated([NaN]);
    UnchangedDepsAreClean([NaN], 0);
    assert [NaN] + seq(0, _ => Undefined) == [NaN];
    var second := task.HostUpdated([NaN]);
    assert first == Some(1) && second == None;
    assert task.status == PENDING && task.callId == 1;
  }
}
