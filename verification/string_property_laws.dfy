/**
 Laws of the String property state machine: every operation keeps the
 binding invariant (one listener, on the bound observable only), every
 operation other than `get` passes the lazy double gate, and over any
 sequence of operations the value-changed events never outnumber the reads
 that re-validated the property, plus one.
 */
module StringPropertyLaws {
  import opened Outcomes
  import opened StringProperty

  /**
   The double gate between two property states: either nothing was emitted
   and the property did not become valid, or the hook and one event were
   emitted on the valid-to-invalid edge.
   */
  ghost predicate Gated(before: Property, after: Property, events: seq<Event>) {
    || (events == [] && (after.valid ==> before.valid))
    || (events == [Hook, Fire] && before.valid && !after.valid)
  }

  lemma GatedCompose(a: Property, b: Property, c: Property, e1: seq<Event>, e2: seq<Event>)
    requires Gated(a, b, e1) && Gated(b, c, e2)
    ensures Gated(a, c, e1 + e2)
  {
    if e1 == [] {
      assert e1 + e2 == e2;
    } else {
      assert e2 == [];
      assert e1 + e2 == e1;
    }
  }

  // ---------------------------------------------------------------------
  // The binding invariant
  // ---------------------------------------------------------------------

  lemma NewWorldInv(initialValue: JString, sources: map<SourceId, Observable>)
    requires forall t :: t in sources ==> Own !in sources[t].listeners
    ensures Inv(World(NewProperty(initialValue), sources))
  {
  }

  lemma SetKeepsInv(w: World, v: JString)
    requires Inv(w)
    ensures Set(w, v).Ok? ==> Inv(Set(w, v).value.world)
  {
  }

  lemma GetKeepsInv(w: World)
    requires Inv(w)
    ensures Inv(Get(w).world)
  {
  }

  lemma CollectKeepsInv(w: World)
    requires Inv(w)
    ensures Inv(Collect(w))
  {
  }

  /** After `unbind()` this property's listener sits on no observable. */
  lemma UnbindDetaches(w: World)
    requires Inv(w)
    ensures Inv(Unbind(w))
    ensures forall t :: t in Unbind(w).sources ==> Own !in Unbind(w).sources[t].listeners
  {
    var u := Unbind(w);
    if w.prop.source.Some? {
      var s := w.prop.source.value;
      assert multiset(u.sources[s].listeners)[Own] == 0;
    }
  }

  /**
   After `bind(s)` with a new observable the property is bound to `s`, the
   invariant holds again, and `s` carries exactly one listener of this
   property; a second `bind(s)` changes nothing.
   */
  lemma BindAttachesOneListener(w: World, s: SourceId)
    requires Inv(w) && s in w.sources
    ensures Bind(w, Some(s)).Ok?
    ensures Inv(Bind(w, Some(s)).value.world)
    ensures w.prop.source != Some(s) ==> OwnCount(Bind(w, Some(s)).value.world, s) == 1
    ensures var w1 := Bind(w, Some(s)).value.world;
            Bind(w1, Some(s)) == Ok(Step(w1, []))
  {
    if w.prop.source != Some(s) {
      var u := Unbind(w);
      UnbindDetaches(w);
      assert Own !in u.sources[s].listeners;
      var w1 := Bind(w, Some(s)).value.world;
      assert w1.sources[s].listeners == u.sources[s].listeners + [Own];
      assert multiset(w1.sources[s].listeners)[Own] == 1;
      forall t | t in w1.sources && w1.prop.source != Some(t)
        ensures Own !in w1.sources[t].listeners
      {
        assert w1.sources[t] == u.sources[t];
      }
    }
  }

  lemma DeliverKeepsInv(w: World, s: SourceId, l: ListenerRef)
    requires Inv(w) && s in w.sources
    ensures Inv(Deliver(w, s, l).world)
  {
    if l == Own && WasGarbageCollected(w.prop) {
      var r := Deliver(w, s, l).world;
      assert multiset(r.sources[s].listeners)[Own] <= multiset(w.sources[s].listeners)[Own];
      forall t | t in r.sources && r.prop.source != Some(t)
        ensures Own !in r.sources[t].listeners
      {
        if t == s {
          assert multiset(r.sources[s].listeners)[Own] == 0;
        }
      }
    }
  }

  lemma {:induction false} NotifyAllKeepsInv(w: World, s: SourceId, snapshot: seq<ListenerRef>)
    requires Inv(w) && s in w.sources
    ensures Inv(NotifyAll(w, s, snapshot).world)
    decreases |snapshot|
  {
    if snapshot != [] {
      DeliverKeepsInv(w, s, snapshot[0]);
      NotifyAllKeepsInv(Deliver(w, s, snapshot[0]).world, s, snapshot[1..]);
    }
  }

  lemma SourceChangedKeepsInv(w: World, s: SourceId, v: JString)
    requires Inv(w) && s in w.sources
    ensures Inv(SourceChanged(w, s, v).world)
  {
    var o := w.sources[s];
    var w1 := w.(sources := w.sources[s := o.(value := v)]);
    assert Inv(w1) by {
      if w.prop.source.Some? {
        assert OwnCount(w1, w.prop.source.value) == OwnCount(w, w.prop.source.value);
      }
    }
    NotifyAllKeepsInv(w1, s, o.listeners);
  }

  // ---------------------------------------------------------------------
  // The lazy double gate
  // ---------------------------------------------------------------------

  lemma SetGated(w: World, v: JString)
    ensures Set(w, v).Ok? ==> Gated(w.prop, Set(w, v).value.world.prop, Set(w, v).value.events)
  {
  }

  lemma BindGated(w: World, s: Option<SourceId>)
    requires Wf(w) && (s.Some? ==> s.value in w.sources)
    ensures Bind(w, s).Ok? ==> Gated(w.prop, Bind(w, s).value.world.prop, Bind(w, s).value.events)
  {
  }

  lemma DeliverGated(w: World, s: SourceId, l: ListenerRef)
    requires s in w.sources
    ensures Gated(w.prop, Deliver(w, s, l).world.prop, Deliver(w, s, l).events)
  {
  }

  lemma {:induction false} NotifyAllGated(w: World, s: SourceId, snapshot: seq<ListenerRef>)
    requires s in w.sources
    ensures Gated(w.prop, NotifyAll(w, s, snapshot).world.prop, NotifyAll(w, s, snapshot).events)
    decreases |snapshot|
  {
    if snapshot != [] {
      var first := Deliver(w, s, snapshot[0]);
      var rest := NotifyAll(first.world, s, snapshot[1..]);
      DeliverGated(w, s, snapshot[0]);
      NotifyAllGated(first.world, s, snapshot[1..]);
      GatedCompose(w.prop, first.world.prop, rest.world.prop, first.events, rest.events);
    }
  }

  /**
   Several invalidations before a read collapse into one notification: two
   `set`s of new values with no `get` between them emit the hook and the
   value-changed event once, on the first.
   */
  lemma TwoSetsNotifyOnce(w: World, a: JString, b: JString)
    requires !IsBound(w.prop) && w.prop.valid
    requires a != w.prop.value && b != a
    ensures Set(w, a).Ok?
    ensures var w1 := Set(w, a).value;
            && Set(w1.world, b).Ok?
            && w1.events + Set(w1.world, b).value.events == [Hook, Fire]
            && Set(w1.world, b).value.world.prop.value == b
  {
    var w1 := Set(w, a).value;
    assert w1.events == [Hook, Fire];
    assert !w1.world.prop.valid;
    assert Set(w1.world, b).value.events == [];
  }

  // ---------------------------------------------------------------------
  // The weak listener
  // ---------------------------------------------------------------------

  /**
   While the owner is gone, a notification round removes the listener from
   the notifying observable (given the round's snapshot holds it at least as
   often as the list does) and forwards nothing.
   */
  lemma {:induction false} DeadListenerRound(w: World, s: SourceId, snapshot: seq<ListenerRef>)
    requires s in w.sources && WasGarbageCollected(w.prop)
    requires multiset(w.sources[s].listeners)[Own] <= multiset(snapshot)[Own]
    ensures var r := NotifyAll(w, s, snapshot);
            && r.events == []
            && r.world.prop == w.prop
            && Own !in r.world.sources[s].listeners
    decreases |snapshot|
  {
    var r := NotifyAll(w, s, snapshot);
    if snapshot == [] {
      assert multiset(w.sources[s].listeners)[Own] == 0;
    } else {
      assert snapshot == [snapshot[0]] + snapshot[1..];
      var first := Deliver(w, s, snapshot[0]);
      if snapshot[0] == Own {
        assert multiset(first.world.sources[s].listeners)[Own]
            == multiset(w.sources[s].listeners)[Own] - (if Own in w.sources[s].listeners then 1 else 0);
        if Own !in w.sources[s].listeners {
          assert multiset(w.sources[s].listeners)[Own] == 0;
        }
      }
      DeadListenerRound(first.world, s, snapshot[1..]);
      assert r.events == first.events + NotifyAll(first.world, s, snapshot[1..]).events;
    }
  }

  /**
   Once the owner is gone, the next change of the bound observable leaves no
   listener of this property behind on it and notifies nothing.
   */
  lemma CollectedListenerDetaches(w: World, v: JString)
    requires Inv(w) && IsBound(w.prop)
    ensures var s := w.prop.source.value;
            var r := SourceChanged(Collect(w), s, v);
            && r.events == []
            && Own !in r.world.sources[s].listeners
            && Inv(r.world)
  {
    var s := w.prop.source.value;
    var c := Collect(w);
    var o := c.sources[s];
    var w1 := c.(sources := c.sources[s := o.(value := v)]);
    DeadListenerRound(w1, s, o.listeners);
    CollectKeepsInv(w);
    SourceChangedKeepsInv(c, s, v);
  }

  /**
   A live owner's listener forwards one notification round as one call of
   `markInvalid`: the property ends invalid and emits the hook and one event
   exactly when it was valid.
   */
  lemma {:induction false} LiveListenerRound(w: World, s: SourceId, snapshot: seq<ListenerRef>)
    requires s in w.sources && !WasGarbageCollected(w.prop)
    ensures var r := NotifyAll(w, s, snapshot);
            && r.world.prop.(valid := w.prop.valid) == w.prop
            && r.world.sources == w.sources
            && (Own in snapshot ==> !r.world.prop.valid && r.events == (if w.prop.valid then [Hook, Fire] else []))
            && (Own !in snapshot ==> r.world.prop == w.prop && r.events == [])
    decreases |snapshot|
  {
    if snapshot != [] {
      var first := Deliver(w, s, snapshot[0]);
      var rest := NotifyAll(first.world, s, snapshot[1..]);
      LiveListenerRound(first.world, s, snapshot[1..]);
      assert snapshot == [snapshot[0]] + snapshot[1..];
      if snapshot[0] == Own {
        assert !first.world.prop.valid;
        assert Own in snapshot[1..] ==> rest.events == [];
        if Own !in snapshot[1..] {
          assert rest.events == [];
        }
      }
    }
  }

  /**
   A bound property follows its observable: after the observable changes, a
   read returns the new value and re-validates the property; the change
   itself was announced once if the property was valid.
   */
  lemma BoundReadFollowsSource(w: World, v: JString)
    requires Inv(w) && IsBound(w.prop) && !WasGarbageCollected(w.prop)
    ensures var s := w.prop.source.value;
            var r := SourceChanged(w, s, v);
            && r.events == (if w.prop.valid then [Hook, Fire] else [])
            && !r.world.prop.valid
            && Get(r.world).result == v
            && Get(r.world).world.prop.valid
  {
    var s := w.prop.source.value;
    var o := w.sources[s];
    var w1 := w.(sources := w.sources[s := o.(value := v)]);
    assert multiset(o.listeners)[Own] == 1;
    LiveListenerRound(w1, s, o.listeners);
    SourceChangedKeepsInv(w, s, v);
  }

  /**
   `unbind()` keeps the last value of the observable: a read straight after
   returns what a read straight before returned, and no event is emitted.
   */
  lemma UnbindKeepsLastValue(w: World)
    requires Inv(w)
    ensures Get(Unbind(w)).result == Get(w).result
    ensures Unbind(w).prop.valid == w.prop.valid
  {
  }

  /**
   `isBound()` follows the binding calls: true after `bind(s)`, false after
   `unbind()`, and exactly when `set` is refused.
   */
  lemma IsBoundTracksBinding(w: World, s: SourceId, v: JString)
    requires Inv(w) && s in w.sources
    ensures IsBound(Bind(w, Some(s)).value.world.prop)
    ensures !IsBound(Unbind(w).prop)
    ensures IsBound(w.prop) <==> Set(w, v) == Err(CannotSetBound)
  {
  }

  /** `set` is refused exactly while the property is bound, whatever the value. */
  lemma BoundRefusesSet(w: World, s: SourceId, v: JString)
    requires Inv(w) && s in w.sources
    ensures Set(Bind(w, Some(s)).value.world, v) == Err(CannotSetBound)
    ensures Set(Unbind(Bind(w, Some(s)).value.world), v).Ok?
  {
    BindAttachesOneListener(w, s);
  }
}
