/**
 Sequences of operations on the String property and its observables. An
 operation that throws leaves the world as it was. Over any such sequence
 the value-changed events are bounded by the reads: each `get` re-arms the
 gate once, so a burst of changes between two reads is announced once.
 */
module StringPropertyTrace {
  import opened Outcomes
  import opened StringProperty
  import opened StringPropertyLaws

  datatype Command =
    | SetTo(v: JString)
    | GetValue
    | BindTo(source: Option<SourceId>)
    | UnbindSource
    | ChangeSource(s: SourceId, v: JString)
    | CollectOwner

  /** Every observable a command names exists in the world's observables. */
  ghost predicate Names(keys: set<SourceId>, c: Command) {
    match c
    case BindTo(Some(s)) => s in keys
    case ChangeSource(s, _) => s in keys
    case _ => true
  }

  function Apply(w: World, c: Command): (r: Step)
    requires Wf(w) && Names(w.sources.Keys, c)
    ensures Wf(r.world) && r.world.sources.Keys == w.sources.Keys
  {
    match c
    case SetTo(v) =>
      (match Set(w, v) case Ok(st) => st case Err(_) => Step(w, []))
    case GetValue => Step(Get(w).world, [])
    case BindTo(s) =>
      (match Bind(w, s) case Ok(st) => st case Err(_) => Step(w, []))
    case UnbindSource => Step(Unbind(w), [])
    case ChangeSource(s, v) => SourceChanged(w, s, v)
    case CollectOwner => Step(Collect(w), [])
  }

  function Run(w: World, cs: seq<Command>): (r: Step)
    requires Wf(w) && forall i :: 0 <= i < |cs| ==> Names(w.sources.Keys, cs[i])
    ensures Wf(r.world) && r.world.sources.Keys == w.sources.Keys
    decreases |cs|
  {
    if cs == [] then Step(w, [])
    else
      var first := Apply(w, cs[0]);
      var rest := Run(first.world, cs[1..]);
      Step(rest.world, first.events + rest.events)
  }

  function Fires(events: seq<Event>): nat {
    multiset(events)[Fire]
  }

  function Reads(cs: seq<Command>): nat {
    multiset(cs)[GetValue]
  }

  function ValidBit(p: Property): nat {
    if p.valid then 1 else 0
  }

  lemma ApplyKeepsInv(w: World, c: Command)
    requires Inv(w) && Names(w.sources.Keys, c)
    ensures Inv(Apply(w, c).world)
  {
    match c
    case SetTo(v) => SetKeepsInv(w, v);
    case GetValue => GetKeepsInv(w);
    case BindTo(s) => if s.Some? { BindAttachesOneListener(w, s.value); }
    case UnbindSource => UnbindDetaches(w);
    case ChangeSource(s, v) => SourceChangedKeepsInv(w, s, v);
    case CollectOwner => CollectKeepsInv(w);
  }

  /** Every sequence of operations keeps the binding invariant. */
  lemma {:induction false} RunKeepsInv(w: World, cs: seq<Command>)
    requires Inv(w) && forall i :: 0 <= i < |cs| ==> Names(w.sources.Keys, cs[i])
    ensures Inv(Run(w, cs).world)
    decreases |cs|
  {
    if cs != [] {
      ApplyKeepsInv(w, cs[0]);
      var first := Apply(w, cs[0]);
      assert forall i :: 0 <= i < |cs[1..]| ==> Names(first.world.sources.Keys, cs[1..][i]);
      RunKeepsInv(first.world, cs[1..]);
    }
  }

  /** Every operation but `get` passes the double gate; `get` emits nothing. */
  lemma ApplyGated(w: World, c: Command)
    requires Wf(w) && Names(w.sources.Keys, c)
    ensures c != GetValue ==> Gated(w.prop, Apply(w, c).world.prop, Apply(w, c).events)
    ensures c == GetValue ==> Apply(w, c).events == []
  {
    match c
    case SetTo(v) => SetGated(w, v);
    case GetValue =>
    case BindTo(s) => BindGated(w, s);
    case UnbindSource =>
    case ChangeSource(s, v) =>
      var o := w.sources[s];
      NotifyAllGated(w.(sources := w.sources[s := o.(value := v)]), s, o.listeners);
    case CollectOwner =>
  }

  /**
   The events a sequence emits plus the final validity never exceed the reads
   it performs plus the initial validity: a property announces a change at
   most once more than it is read.
   */
  lemma {:induction false} FiresBoundedByReads(w: World, cs: seq<Command>)
    requires Wf(w) && forall i :: 0 <= i < |cs| ==> Names(w.sources.Keys, cs[i])
    ensures Fires(Run(w, cs).events) + ValidBit(Run(w, cs).world.prop) <= Reads(cs) + ValidBit(w.prop)
    decreases |cs|
  {
    if cs != [] {
      var first := Apply(w, cs[0]);
      ApplyGated(w, cs[0]);
      assert forall i :: 0 <= i < |cs[1..]| ==> Names(first.world.sources.Keys, cs[1..][i]);
      FiresBoundedByReads(first.world, cs[1..]);
      assert cs == [cs[0]] + cs[1..];
      assert multiset(cs) == multiset{cs[0]} + multiset(cs[1..]);
    }
  }

  /**
   Between two reads a valid property announces any number of changes (sets,
   rebinding, source changes) once, and an invalid one not at all.
   */
  lemma NoReadsNotifyAtMostOnce(w: World, cs: seq<Command>)
    requires Wf(w) && forall i :: 0 <= i < |cs| ==> Names(w.sources.Keys, cs[i])
    requires GetValue !in cs
    ensures Fires(Run(w, cs).events) <= ValidBit(w.prop)
  {
    FiresBoundedByReads(w, cs);
  }

  /**
   The overridable `invalidated()` hook runs once for every value-changed
   event, immediately before it: a container that requests a layout there
   requests exactly as many layouts as the property announces changes.
   */
  lemma {:induction false} HookPrecedesEveryFire(w: World, cs: seq<Command>)
    requires Wf(w) && forall i :: 0 <= i < |cs| ==> Names(w.sources.Keys, cs[i])
    ensures multiset(Run(w, cs).events)[Hook] == Fires(Run(w, cs).events)
    ensures forall i :: 0 <= i < |Run(w, cs).events| && Run(w, cs).events[i] == Fire ==>
              0 < i && Run(w, cs).events[i - 1] == Hook
    decreases |cs|
  {
    if cs != [] {
      var first := Apply(w, cs[0]);
      var rest := Run(first.world, cs[1..]);
      ApplyGated(w, cs[0]);
      assert forall i :: 0 <= i < |cs[1..]| ==> Names(first.world.sources.Keys, cs[1..][i]);
      HookPrecedesEveryFire(first.world, cs[1..]);
      var e := first.events + rest.events;
      assert first.events == [] || first.events == [Hook, Fire];
      forall i | 0 <= i < |e| && e[i] == Fire
        ensures 0 < i && e[i - 1] == Hook
      {
        if i >= |first.events| {
          assert rest.events[i - |first.events|] == Fire;
        }
      }
    }
  }
}
