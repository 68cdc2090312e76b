/** The debounced local-storage binding: an in-memory value, at most one
    pending write (the timer and the value it will store), and the durable
    slot. Timer expiry, cancellation on unmount and the mount-time reload are
    explicit events instead of wall-clock time. */
module LocalStorage {
  import opened Types

  /** What reading the durable slot yields: no entry (or an empty one), an
      entry that fails to read or parse, or a stored value. */
  datatype Slot<T> = Absent | Corrupt | Holds(stored: T)

  /** The argument of setValue: a plain value, or an updater of the current value. */
  datatype SetArg<!T> = Value(v: T) | Updater(f: T -> T)

  /** `pending` is the value captured by the scheduled timer, None when no timer is scheduled. */
  datatype StoreState<T> = StoreState(value: T, pending: Option<T>, slot: Slot<T>)

  datatype Event<!T> =
    | Set(arg: SetArg<T>)      // setValue
    | Fire(writeOk: bool)      // the pending timer expires; writeOk is false when setItem throws
    | Unmount                  // the cleanup effect
    | Mount                    // the mount effect that re-reads the slot

  /** The initial value: the stored entry when there is one that parses,
      otherwise `initial`; a read error never reaches the caller. */
  function Load<T>(slot: Slot<T>, initial: T): (r: T)
    ensures slot.Holds? ==> r == slot.stored
    ensures !slot.Holds? ==> r == initial
  {
    match slot
    case Holds(v) => v
    case _ => initial
  }

  function Init<T>(slot: Slot<T>, initial: T): StoreState<T> {
    StoreState(Load(slot, initial), None, slot)
  }

  function Resolve<T>(arg: SetArg<T>, current: T): T {
    match arg
    case Value(v) => v
    case Updater(f) => f(current)
  }

  /** One event of the hook. A set replaces the value and leaves exactly one
      pending write, carrying the new value; only an expiring timer whose
      write succeeds changes the slot; unmount drops the pending write; mount
      only reloads the value. */
  function Step<T>(s: StoreState<T>, e: Event<T>): (r: StoreState<T>)
    ensures e.Set? ==> r.value == Resolve(e.arg, s.value) && r.pending == Some(r.value) && r.slot == s.slot
    ensures e.Fire? ==> r.value == s.value && r.pending.None?
    ensures e.Fire? && e.writeOk && s.pending.Some? ==> r.slot == Holds(s.pending.value)
    ensures (e.Fire? && (!e.writeOk || s.pending.None?)) || e.Unmount? || e.Mount? ==> r.slot == s.slot
    ensures e.Unmount? ==> r.value == s.value && r.pending.None?
    ensures e.Mount? ==> r.pending == s.pending && r.value == Load(s.slot, s.value)
  {
    match e
    case Set(arg) =>
      var v := Resolve(arg, s.value);
      StoreState(v, Some(v), s.slot)
    case Fire(ok) =>
      if s.pending.None? then s
      else s.(pending := None, slot := if ok then Holds(s.pending.value) else s.slot)
    case Unmount =>
      s.(pending := None)
    case Mount =>
      if s.slot.Holds? then s.(value := s.slot.stored) else s
  }

  function Run<T>(s: StoreState<T>, events: seq<Event<T>>): StoreState<T>
    decreases |events|
  {
    if events == [] then s else Run(Step(s, events[0]), events[1..])
  }

  function SetsOf<T>(args: seq<SetArg<T>>): (r: seq<Event<T>>)
    ensures |r| == |args| && forall i :: 0 <= i < |args| ==> r[i] == Set(args[i])
  {
    seq(|args|, i requires 0 <= i < |args| => Set(args[i]))
  }

  // ---------------------------------------------------------------------------
  // Properties of the store
  // ---------------------------------------------------------------------------

  /** A set is visible at once (a plain value becomes the value, an updater is
      applied to the current value), replaces any pending write by one
      carrying the new value, and does not touch the slot. */
  lemma SetIsImmediate<T>(s: StoreState<T>, arg: SetArg<T>)
    ensures arg.Value? ==> Step(s, Set(arg)).value == arg.v
    ensures arg.Updater? ==> Step(s, Set(arg)).value == arg.f(s.value)
    ensures Step(s, Set(arg)).pending == Some(Step(s, Set(arg)).value)
    ensures Step(s, Set(arg)).slot == s.slot
  {
  }

  /** A failed write is swallowed: the value is unchanged and so is the slot. */
  lemma FailedWriteKeepsValue<T>(s: StoreState<T>)
    ensures Step(s, Fire(false)).value == s.value
    ensures Step(s, Fire(false)).slot == s.slot
    ensures Step(s, Fire(false)).pending.None?
  {
  }

  /** On mount the value is replaced only by a stored entry that parses. */
  lemma MountReloads<T>(s: StoreState<T>)
    ensures s.slot.Holds? ==> Step(s, Mount).value == s.slot.stored
    ensures !s.slot.Holds? ==> Step(s, Mount).value == s.value
    ensures Step(s, Mount).pending == s.pending && Step(s, Mount).slot == s.slot
  {
  }

  /** A burst of sets writes nothing while it lasts and leaves one pending
      write carrying the value of the most recent set; when that timer fires,
      the slot receives exactly that value. */
  lemma {:induction false} BurstCoalesces<T>(s: StoreState<T>, burst: seq<SetArg<T>>)
    requires burst != []
    ensures Run(s, SetsOf(burst)).slot == s.slot
    ensures Run(s, SetsOf(burst)).pending == Some(Run(s, SetsOf(burst)).value)
    ensures burst[|burst| - 1].Value? ==> Run(s, SetsOf(burst)).value == burst[|burst| - 1].v
    ensures Step(Run(s, SetsOf(burst)), Fire(true)).slot == Holds(Run(s, SetsOf(burst)).value)
    decreases |burst|
  {
    var s1 := Step(s, Set(burst[0]));
    assert SetsOf(burst)[1..] == SetsOf(burst[1..]);
    if |burst| > 1 {
      BurstCoalesces(s1, burst[1..]);
      assert burst[1..][|burst[1..]| - 1] == burst[|burst| - 1];
    } else {
      assert SetsOf(burst[1..]) == [];
    }
  }

  predicate OnlyFires<T>(events: seq<Event<T>>) {
    forall i :: 0 <= i < |events| ==> events[i].Fire?
  }

  /** Unmount cancels the pending write: no later timer expiry changes the slot. */
  lemma {:induction false} UnmountCancelsPending<T>(s: StoreState<T>, later: seq<Event<T>>)
    requires OnlyFires(later)
    ensures Run(Step(s, Unmount), later).slot == s.slot
    ensures Run(Step(s, Unmount), later).pending.None?
    decreases |later|
  {
    if later != [] {
      assert later[0].Fire?;
      assert Step(Step(s, Unmount), later[0]) == Step(s, Unmount);
      assert Step(s, Unmount) == Step(Step(s, Unmount), Unmount);
      UnmountCancelsPending(Step(s, Unmount), later[1..]);
    }
  }

  /** The pending write, if any, carries the current value. */
  ghost predicate Coherent<T>(s: StoreState<T>) {
    s.pending.Some? ==> s.pending.value == s.value
  }

  predicate NoMount<T>(events: seq<Event<T>>) {
    forall i :: 0 <= i < |events| ==> !events[i].Mount?
  }

  /** Without a mount-time reload in between, the store never writes a value
      older than the current one: a pending write always carries the latest
      set, and a successful expiry makes the slot equal to the current value. */
  lemma {:induction false} NeverWritesStale<T>(s: StoreState<T>, events: seq<Event<T>>)
    requires Coherent(s) && NoMount(events)
    ensures Coherent(Run(s, events))
    decreases |events|
  {
    if events != [] {
      assert !events[0].Mount?;
      NeverWritesStale(Step(s, events[0]), events[1..]);
    }
  }

  /** After the pending write lands, a fresh load of the page sees the latest value. */
  lemma ReloadSeesSavedValue<T>(s: StoreState<T>, initial: T)
    requires Coherent(s) && s.pending.Some?
    ensures Init(Step(s, Fire(true)).slot, initial).value == s.value
  {
  }

  // ---------------------------------------------------------------------------
  // The hook's state, updated in place by its event handlers
  // ---------------------------------------------------------------------------

  class LocalStore<T> {
    var value: T
    var pending: Option<T>
    var slot: Slot<T>

    function State(): StoreState<T>
      reads this
    {
      StoreState(value, pending, slot)
    }

    /** Mounting the hook: the initial value is loaded from the slot. */
    constructor (stored: Slot<T>, initial: T)
      ensures State() == Init(stored, initial)
    {
      value := Load(stored, initial);
      pending := None;
      slot := stored;
    }

    /** setValue: compute the new value, cancel any pending write, schedule one. */
    method SetValue(arg: SetArg<T>)
      modifies this
      ensures State() == Step(old(State()), Set(arg))
      ensures value == Resolve(arg, old(value)) && pending == Some(value) && slot == old(slot)
    {
      var toStore := match arg case Value(v) => v case Updater(f) => f(value);
      value := toStore;
      // the source clears the scheduled timer before scheduling the next one
      if pending.Some? {
        pending := None;
      }
      pending := Some(toStore);
    }

    /** The pending timer expires: the captured value goes to the slot unless the write throws. */
    method TimerFired(writeOk: bool)
      modifies this
      ensures State() == Step(old(State()), Fire(writeOk))
    {
      if pending.Some? {
        if writeOk {
          slot := Holds(pending.value);
        }
        pending := None;
      }
    }

    /** The mount effect: re-read the slot; a missing or unparseable entry changes nothing. */
    method ReloadOnMount()
      modifies this
      ensures State() == Step(old(State()), Mount)
    {
      if slot.Holds? {
        value := slot.stored;
      }
    }

    /** The unmount cleanup: cancel the pending write; the slot keeps its contents. */
    method CleanUp()
      modifies this
      ensures State() == Step(old(State()), Unmount)
    {
      // clearTimeout runs only when a timer is scheduled
      if pending.Some? {
        pending := None;
      }
    }
  }
}
