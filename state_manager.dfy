/**
 * The external store: one state slot, an ordered list of listeners, and the
 * write / read / subscribe / notify protocol of `StateManager<T>`.
 *
 * Listeners are opaque ids; invoking one is recorded in the ghost field `log`,
 * and each notification cycle's snapshot in the ghost field `cycles`.
 */
module Store {
  import opened Listeners

  /** The argument of `setState`: a replacement value, or an updater mapping
      the previous state to the new one. The tag replaces the source's
      run-time test of whether the argument is callable. */
  datatype Update<!T> = Value(value: T) | Updater(fn: T -> T)

  /** The state that `setState(u)` installs when the current state is `prev`. */
  function NextState<T>(u: Update<T>, prev: T): (r: T)
    ensures u.Value? ==> r == u.value
    ensures u.Updater? ==> r == u.fn(prev)
  {
    match u
    case Value(v) => v
    case Updater(f) => f(prev)
  }

  /** A plain value and the constant updater returning it install the same state. */
  lemma ValueMatchesConstantUpdater<T>(v: T, prev: T)
    ensures NextState(Value(v), prev) == NextState(Updater(_ => v), prev) == v
  {
  }

  /** The closure returned by `subscribe`: it captures the store it was
      created by and the listener it removes from that store. */
  datatype Unsubscriber = Unsubscriber(ghost store: object, listener: ListenerId)

  class StateManager<T> {
    /** The current state. */
    var state: T
    /** The registered listeners, in subscription order, duplicates kept. */
    var listeners: seq<ListenerId>
    /** Every listener invocation so far, in delivery order. */
    ghost var log: seq<ListenerId>
    /** The snapshot delivered by each notification cycle so far. */
    ghost var cycles: seq<seq<ListenerId>>

    /** The invocation record is the concatenation of the delivered cycles:
        the methods below state what happens to `cycles`, and this invariant
        gives the resulting sequence of listener calls. */
    ghost predicate Valid()
      reads this
    {
      log == Concat(cycles)
    }

    constructor (initialState: T)
      ensures Valid()
      ensures state == initialState && listeners == []
      ensures log == [] && cycles == []
    {
      state := initialState;
      listeners := [];
      log := [];
      cycles := [];
    }

    /** Installs the new state and then runs exactly one notification cycle
        over the listeners, even when the state did not change. */
    method SetState(u: Update<T>)
      requires Valid()
      modifies this
      ensures Valid()
      ensures state == NextState(u, old(state))
      ensures listeners == old(listeners)
      ensures cycles == old(cycles) + [old(listeners)]
    {
      match u {
        case Value(v) =>
          state := v;
        case Updater(f) =>
          var newState := f(state);
          state := newState;
      }
      EmitChange();
    }

    /** Reads the state; changes nothing. */
    method GetState() returns (s: T)
      ensures s == state
    {
      s := state;
    }

    /** Appends `l` (copy-on-write) and returns the handle that removes it. */
    method Subscribe(l: ListenerId) returns (h: Unsubscriber)
      requires Valid()
      modifies this
      ensures Valid()
      ensures listeners == old(listeners) + [l]
      ensures h.store == this && h.listener == l
      ensures state == old(state) && log == old(log) && cycles == old(cycles)
    {
      listeners := listeners + [l];
      h := Unsubscriber(this, l);
    }

    /** Runs the closure `h`: drops every entry identical to its listener. */
    method Unsubscribe(h: Unsubscriber)
      requires Valid() && h.store == this
      modifies this
      ensures Valid()
      ensures listeners == Without(old(listeners), h.listener)
      ensures state == old(state) && log == old(log) && cycles == old(cycles)
    {
      listeners := Without(listeners, h.listener);
    }

    /** One notification cycle: invokes each entry of the listener list as it
        was at the start of the cycle, once per occurrence, in order. */
    method EmitChange()
      requires Valid()
      modifies this
      ensures Valid()
      ensures cycles == old(cycles) + [old(listeners)]
      ensures state == old(state) && listeners == old(listeners)
    {
      var snapshot := listeners;
      var i := 0;
      while i < |snapshot|
        invariant 0 <= i <= |snapshot|
        invariant log == old(log) + snapshot[..i]
        invariant state == old(state) && listeners == old(listeners) && cycles == old(cycles)
      {
        log := log + [snapshot[i]];
        i := i + 1;
      }
      assert snapshot[..i] == snapshot;
      ConcatAppend(cycles, snapshot);
      cycles := cycles + [snapshot];
    }
  }

  /** A callback whose handle has been called is not invoked by a later write. */
  method UnsubscribedListenerIsNotNotified<T>(m: StateManager<T>, h: Unsubscriber, u: Update<T>)
    requires m.Valid() && h.store == m
    modifies m
    ensures m.Valid()
    ensures m.log == old(m.log) + Without(old(m.listeners), h.listener)
    ensures h.listener !in m.log[|old(m.log)|..]
    ensures m.state == NextState(u, old(m.state))
  {
    m.Unsubscribe(h);
    m.SetState(u);
    ConcatAppend(old(m.cycles), Without(old(m.listeners), h.listener));
    assert m.log[|old(m.log)|..] == Without(old(m.listeners), h.listener);
  }

  /** Subscribing a new callback and calling its handle at once leaves the
      store as it was; a later write does not invoke that callback. */
  method SubscribeUnsubscribeThenSet<T>(m: StateManager<T>, l: ListenerId, u: Update<T>)
    requires m.Valid() && l !in m.listeners
    modifies m
    ensures m.Valid()
    ensures m.listeners == old(m.listeners)
    ensures m.log == old(m.log) + old(m.listeners)
    ensures l !in m.log[|old(m.log)|..]
  {
    var h := m.Subscribe(l);
    m.Unsubscribe(h);
    SubscribeThenUnsubscribe(old(m.listeners), l);
    m.SetState(u);
    ConcatAppend(old(m.cycles), old(m.listeners));
    assert m.log[|old(m.log)|..] == old(m.listeners);
  }

  /** A handle filters the list as it is when it is called: called again
      after its callback was subscribed anew, it removes the new entry too. */
  method StaleHandleRemovesResubscription<T>(m: StateManager<T>, l: ListenerId)
    requires m.Valid()
    modifies m
    ensures m.Valid()
    ensures m.listeners == Without(old(m.listeners), l) && l !in m.listeners
    ensures m.state == old(m.state) && m.log == old(m.log)
  {
    var h := m.Subscribe(l);
    m.Unsubscribe(h);
    var _ := m.Subscribe(l);
    m.Unsubscribe(h);
    UnsubscribeRemovesEarlierCopies(old(m.listeners), l);
    UnsubscribeRemovesEarlierCopies(Without(old(m.listeners), l), l);
    WithoutIdempotent(old(m.listeners), l);
  }

  /** Two callbacks subscribed in the order a, b are invoked a then b by one
      write, each once, and the write installs the value. */
  method NotifiesInSubscriptionOrder<T>(init: T, v: T, a: ListenerId, b: ListenerId)
    returns (m: StateManager<T>)
    ensures fresh(m) && m.Valid()
    ensures m.state == v && m.listeners == [a, b]
    ensures m.log == [a, b] && |m.cycles| == 1
  {
    m := new StateManager(init);
    var _ := m.Subscribe(a);
    var _ := m.Subscribe(b);
    m.SetState(Value(v));
    ConcatAppend([], [a, b]);
  }

  /** An updater is applied to the state it finds: incrementing 5 gives 6. */
  method IncrementFromFive() returns (m: StateManager<int>, s: int)
    ensures fresh(m) && m.Valid()
    ensures s == 6 && m.state == 6
  {
    m := new StateManager(5);
    m.SetState(Updater(x => x + 1));
    s := m.GetState();
  }
}
