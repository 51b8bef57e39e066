/**
 Listener registration on a read-only set property, as exercised through a
 minimal property whose private `set` stores a new set reference and fires
 one value-changed event unconditionally. Values are nullable set
 references; listeners are abstract handles.
 */
module SetPropertyListeners {
  import opened Outcomes
  import opened Listeners

  datatype MockProperty<V, L> = MockProperty(value: Option<V>, registry: Registry<L>)

  datatype Fired<V, L> = Fired(prop: MockProperty<V, L>, notes: seq<Notification<L, Option<V>>>)

  /** `get()` returns the stored reference and changes nothing. */
  function Get<V, L>(m: MockProperty<V, L>): (v: Option<V>)
    ensures v == m.value
  {
    m.value
  }

  /**
   The property's `set`: store the reference, then fire. Every invalidation
   listener hears of it; change listeners hear of it with the old and the
   new reference when they differ.
   */
  function SetAndFire<V(==), L>(m: MockProperty<V, L>, v: Option<V>): (r: Fired<V, L>)
    ensures Get(r.prop) == v && r.prop.registry == m.registry
    ensures |r.notes| == |m.registry.invalidation| + (if m.value != v then |m.registry.change| else 0)
    ensures forall i :: 0 <= i < |m.registry.invalidation| ==> r.notes[i] == Invalidation(m.registry.invalidation[i])
    ensures m.value != v ==> forall j :: 0 <= j < |m.registry.change| ==>
      r.notes[|m.registry.invalidation| + j] == Change(m.registry.change[j], m.value, v)
  {
    Fired(m.(value := v), FireValueChanged(m.registry, m.value, v))
  }

  /**
   An invalidation listener added and then read past hears exactly one
   notification of a change; once removed it hears none of the next.
   */
  lemma InvalidationListenerScenario<V, L>(m: MockProperty<V, L>, l: L, v1: Option<V>, v2: Option<V>)
    requires l !in m.registry.invalidation && l !in m.registry.change
    ensures var m1 := m.(registry := AddInvalidationListener(m.registry, l));
            var f1 := SetAndFire(m1, v1);
            && NotesFor(f1.notes, l) == 1
            && Invalidation(l) in f1.notes
            && var m2 := f1.prop.(registry := RemoveInvalidationListener(f1.prop.registry, l));
               NotesFor(SetAndFire(m2, v2).notes, l) == 0
  {
    var reg1 := AddInvalidationListener(m.registry, l);
    assert multiset(reg1.invalidation)[l] == 1;
    var m1 := m.(registry := reg1);
    var f1 := SetAndFire(m1, v1);
    FireValueChangedCounts(reg1, m.value, v1, l);
    var idx := |m.registry.invalidation|;
    assert f1.notes[idx] == Invalidation(l);
    var reg2 := RemoveInvalidationListener(reg1, l);
    FireValueChangedCounts(reg2, v1, v2, l);
  }

  /**
   A change listener hears exactly one change, from the old reference to the
   new one, and nothing after its removal.
   */
  lemma ChangeListenerScenario<V, L>(m: MockProperty<V, L>, l: L, v1: Option<V>, v2: Option<V>)
    requires l !in m.registry.invalidation && l !in m.registry.change
    requires v1 != m.value
    ensures var m1 := m.(registry := AddChangeListener(m.registry, l));
            var f1 := SetAndFire(m1, v1);
            && NotesFor(f1.notes, l) == 1
            && Change(l, m.value, v1) in f1.notes
            && var m2 := f1.prop.(registry := RemoveChangeListener(f1.prop.registry, l));
               NotesFor(SetAndFire(m2, v2).notes, l) == 0
  {
    var reg1 := AddChangeListener(m.registry, l);
    assert multiset(reg1.change)[l] == 1;
    var f1 := SetAndFire(m.(registry := reg1), v1);
    FireValueChangedCounts(reg1, m.value, v1, l);
    var idx := |reg1.invalidation| + |m.registry.change|;
    assert f1.notes[idx] == Change(l, m.value, v1);
    var reg2 := RemoveChangeListener(reg1, l);
    FireValueChangedCounts(reg2, v1, v2, l);
  }
}
