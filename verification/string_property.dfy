/**
 The state machine of a String-valued property: its stored value, its
 validity flag, the observable it may be bound to, and the single weak
 listener it reuses for every binding.

 The world holds the property and the observables it can be bound to. Each
 observable is abstract: a current value and the list of invalidation
 listeners registered on it. The property's own weak listener appears in
 those lists as `Own`; any other listener is `Foreign` and opaque. Whether
 the property's owner is still reachable (the referent of the weak
 reference) is the explicit flag `ownerAlive`.

 Every operation returns the events it emits, in order: `Hook` is the
 overridable `invalidated()` callback (a layout container requests a new
 layout there), `Fire` is one value-changed event sent to the property's own
 listeners.
 */
module StringProperty {
  import opened Outcomes
  import opened Listeners

  /** A Java String reference: null, or a sequence of characters. */
  datatype JString = Null | Str(chars: string)

  type SourceId = nat

  datatype ListenerRef = Own | Foreign(id: nat)

  /** An observable value the property can be bound to. */
  datatype Observable = Observable(value: JString, listeners: seq<ListenerRef>)

  datatype Property = Property(
    value: JString,
    valid: bool,
    source: Option<SourceId>,
    listenerCreated: bool,
    ownerAlive: bool)

  datatype Event = Hook | Fire

  datatype World = World(prop: Property, sources: map<SourceId, Observable>)

  /** The world after an operation, with the events it emitted. */
  datatype Step = Step(world: World, events: seq<Event>)

  /** The property after `markInvalid`, with the events it emitted. */
  datatype Marked = Marked(prop: Property, events: seq<Event>)

  /** The result of `get()`: the world afterwards and the value read. */
  datatype Read = Read(world: World, result: JString)

  /** The bound observable, if any, is one of the world's observables. */
  ghost predicate Wf(w: World) {
    w.prop.source.Some? ==> w.prop.source.value in w.sources
  }

  /** How often this property's own listener is registered on observable `s`. */
  function OwnCount(w: World, s: SourceId): nat
    requires s in w.sources
  {
    multiset(w.sources[s].listeners)[Own]
  }

  /**
   The binding invariant: only the bound observable may carry this property's
   listener, and it carries it at most once (exactly once while the owner is
   alive, since only a dead owner's listener removes itself); a bound
   property has created its listener.
   */
  ghost predicate Inv(w: World) {
    && Wf(w)
    && (forall t :: t in w.sources && w.prop.source != Some(t) ==> Own !in w.sources[t].listeners)
    && (w.prop.source.Some? ==>
          && w.prop.listenerCreated
          && OwnCount(w, w.prop.source.value) <= 1
          && (w.prop.ownerAlive ==> OwnCount(w, w.prop.source.value) == 1))
  }

  /** A fresh property: valid, unbound, no listener yet, with the given initial value. */
  function NewProperty(initialValue: JString): (p: Property)
    ensures p.value == initialValue && p.valid && p.source.None? && !p.listenerCreated && p.ownerAlive
  {
    Property(initialValue, true, None, false, true)
  }

  /**
   Whether `set` sees a new value: a null stored value differs from every
   non-null one, otherwise String.equals decides, which compares contents.
   */
  function Differs(value: JString, newValue: JString): (d: bool)
    ensures d <==> value != newValue
  {
    if value.Null? then newValue != Null
    else !(newValue.Str? && value.chars == newValue.chars)
  }

  /** `isBound()`: whether an observable is stored. */
  function IsBound(p: Property): (b: bool)
    ensures b <==> p.source != None
  {
    p.source.Some?
  }

  /**
   The lazy double gate: only a valid property becomes invalid, calls its
   hook and fires; an invalid one already has a notification pending.
   */
  function MarkInvalid(p: Property): (r: Marked)
    ensures !r.prop.valid
    ensures r.prop.(valid := p.valid) == p
    ensures p.valid ==> r.events == [Hook, Fire]
    ensures !p.valid ==> r.events == []
  {
    if p.valid then Marked(p.(valid := false), [Hook, Fire]) else Marked(p, [])
  }

  /** `set(newValue)` */
  function Set(w: World, newValue: JString): (r: Result<Step>)
    ensures r.Err? <==> IsBound(w.prop)
    ensures r.Err? ==> r.error == CannotSetBound
    ensures r.Ok? ==> r.value.world.sources == w.sources
    ensures r.Ok? && newValue == w.prop.value ==> r.value == Step(w, [])
    ensures r.Ok? && newValue != w.prop.value ==>
      && r.value.world.prop == w.prop.(value := newValue, valid := false)
      && r.value.events == (if w.prop.valid then [Hook, Fire] else [])
  {
    if IsBound(w.prop) then Err(CannotSetBound)
    else if Differs(w.prop.value, newValue) then
      var m := MarkInvalid(w.prop.(value := newValue));
      Ok(Step(w.(prop := m.prop), m.events))
    else Ok(Step(w, []))
  }

  /** `get()`: a bound property reads its observable, without storing the value. */
  function Get(w: World): (r: Read)
    requires Wf(w)
    ensures r.world == w.(prop := w.prop.(valid := true))
    ensures w.prop.source.None? ==> r.result == w.prop.value
    ensures w.prop.source.Some? ==> r.result == w.sources[w.prop.source.value].value
  {
    Read(w.(prop := w.prop.(valid := true)),
         match w.prop.source
         case None => w.prop.value
         case Some(s) => w.sources[s].value)
  }

  /** `unbind()`: keeps the observable's last value and detaches, without notifying. */
  function Unbind(w: World): (r: World)
    requires Wf(w)
    ensures !IsBound(r.prop) && Wf(r)
    ensures r.sources.Keys == w.sources.Keys
    ensures r.prop.valid == w.prop.valid && r.prop.ownerAlive == w.prop.ownerAlive
    ensures r.prop.listenerCreated == w.prop.listenerCreated
    ensures w.prop.source.None? ==> r == w
    ensures w.prop.source.Some? ==>
      var s := w.prop.source.value;
      && r.prop.value == w.sources[s].value
      && multiset(r.sources[s].listeners) == multiset(w.sources[s].listeners) - multiset{Own}
      && r.sources[s].value == w.sources[s].value
      && (forall t :: t in w.sources && t != s ==> r.sources[t] == w.sources[t])
  {
    match w.prop.source
    case None => w
    case Some(s) =>
      var o := w.sources[s];
      World(w.prop.(value := o.value, source := None),
            w.sources[s := o.(listeners := RemoveFirst(o.listeners, Own))])
  }

  /**
   `bind(source)`: a null source is refused; the current source again is a
   no-op; otherwise the old binding is dropped, the one listener (created on
   first use) is added to the new observable, and the property is marked
   invalid.
   */
  function Bind(w: World, source: Option<SourceId>): (r: Result<Step>)
    requires Wf(w)
    requires source.Some? ==> source.value in w.sources
    ensures r.Err? <==> source.None?
    ensures r.Err? ==> r.error == NullArgument
    ensures source.Some? && source == w.prop.source ==> r == Ok(Step(w, []))
    ensures r.Ok? ==> r.value.world.prop.source == source && Wf(r.value.world)
    ensures r.Ok? ==> r.value.world.sources.Keys == w.sources.Keys
    ensures r.Ok? && source != w.prop.source ==>
      && r.value.world.prop.listenerCreated
      && !r.value.world.prop.valid
      && r.value.events == (if w.prop.valid then [Hook, Fire] else [])
      && r.value.world.sources[source.value].listeners
           == Unbind(w).sources[source.value].listeners + [Own]
      && r.value.world.sources[source.value].value == w.sources[source.value].value
      && (forall t :: t in w.sources && t != source.value ==> r.value.world.sources[t] == Unbind(w).sources[t])
      && r.value.world.prop.value == Unbind(w).prop.value
      && r.value.world.prop.ownerAlive == w.prop.ownerAlive
  {
    match source
    case None => Err(NullArgument)
    case Some(s) =>
      if source == w.prop.source then Ok(Step(w, []))
      else
        var u := Unbind(w);
        var o := u.sources[s];
        var m := MarkInvalid(u.prop.(source := Some(s), listenerCreated := true));
        Ok(Step(World(m.prop, u.sources[s := o.(listeners := o.listeners + [Own])]), m.events))
  }

  /** `wasGarbageCollected()` of the weak listener. */
  function WasGarbageCollected(p: Property): (gone: bool)
    ensures gone <==> !p.ownerAlive
  {
    !p.ownerAlive
  }

  /** The owner of the property becomes unreachable. */
  function Collect(w: World): (r: World)
    ensures WasGarbageCollected(r.prop)
    ensures r.prop.(ownerAlive := w.prop.ownerAlive) == w.prop && r.sources == w.sources
  {
    w.(prop := w.prop.(ownerAlive := false))
  }

  /**
   Observable `s` notifies one listener. The weak listener removes itself
   from `s` when its owner is gone and forwards nothing; otherwise it marks
   the property invalid. Other listeners are outside this model.
   */
  function Deliver(w: World, s: SourceId, l: ListenerRef): (r: Step)
    requires s in w.sources
    ensures r.world.sources.Keys == w.sources.Keys
    ensures r.world.prop.source == w.prop.source
    ensures forall t :: t in w.sources ==> r.world.sources[t].value == w.sources[t].value
    ensures l.Foreign? ==> r == Step(w, [])
    ensures l == Own && !WasGarbageCollected(w.prop) ==>
      r.world.sources == w.sources && r.world.prop == MarkInvalid(w.prop).prop && r.events == MarkInvalid(w.prop).events
    ensures l == Own && WasGarbageCollected(w.prop) ==>
      && r.world.prop == w.prop && r.events == []
      && multiset(r.world.sources[s].listeners) == multiset(w.sources[s].listeners) - multiset{Own}
      && (forall t :: t in w.sources && t != s ==> r.world.sources[t] == w.sources[t])
  {
    match l
    case Foreign(_) => Step(w, [])
    case Own =>
      if WasGarbageCollected(w.prop) then
        var o := w.sources[s];
        Step(w.(sources := w.sources[s := o.(listeners := RemoveFirst(o.listeners, Own))]), [])
      else
        var m := MarkInvalid(w.prop);
        Step(w.(prop := m.prop), m.events)
  }

  /** Observable `s` notifies, in order, the listeners of a snapshot of its list. */
  function NotifyAll(w: World, s: SourceId, snapshot: seq<ListenerRef>): (r: Step)
    requires s in w.sources
    ensures r.world.sources.Keys == w.sources.Keys
    ensures r.world.prop.source == w.prop.source
    ensures forall t :: t in w.sources ==> r.world.sources[t].value == w.sources[t].value
    ensures r.world.prop == w.prop.(valid := r.world.prop.valid)
    ensures forall t :: t in w.sources && t != s ==> r.world.sources[t] == w.sources[t]
    ensures Own !in snapshot ==> r == Step(w, [])
    decreases |snapshot|
  {
    if snapshot == [] then Step(w, [])
    else
      var first := Deliver(w, s, snapshot[0]);
      var rest := NotifyAll(first.world, s, snapshot[1..]);
      Step(rest.world, first.events + rest.events)
  }

  /** Observable `s` takes a new value and notifies the listeners registered at that moment. */
  function SourceChanged(w: World, s: SourceId, v: JString): (r: Step)
    requires s in w.sources
    ensures r.world.sources.Keys == w.sources.Keys
    ensures r.world.prop.source == w.prop.source
    ensures r.world.sources[s].value == v
    ensures r.world.prop == w.prop.(valid := r.world.prop.valid)
    ensures forall t :: t in w.sources && t != s ==> r.world.sources[t] == w.sources[t]
    ensures Own !in w.sources[s].listeners ==> r == Step(w.(sources := w.sources[s := w.sources[s].(value := v)]), [])
  {
    var o := w.sources[s];
    var w1 := w.(sources := w.sources[s := o.(value := v)]);
    NotifyAll(w1, s, o.listeners)
  }
}
