/**
 Listener lists as the property classes keep them: ordered sequences in which
 the same listener may occur more than once, where adding appends and removing
 takes out the first matching entry only. The registry of a property (its
 invalidation listeners and its change listeners) and the notifications one
 fired value-changed event delivers are modelled here as well.
 */
module Listeners {

  /** Index of the first occurrence of `x` in `xs`. */
  function FirstIndex<L(==)>(xs: seq<L>, x: L): (i: nat)
    requires x in xs
    ensures i < |xs| && xs[i] == x
    ensures x !in xs[..i]
  {
    if xs[0] == x then 0 else 1 + FirstIndex(xs[1..], x)
  }

  /** Removes the first entry equal to `x`; a list without `x` is returned as it is. */
  function RemoveFirst<L(==)>(xs: seq<L>, x: L): (r: seq<L>)
    ensures multiset(r) == multiset(xs) - multiset{x}
    ensures x !in xs ==> r == xs
    ensures x in xs ==> r == xs[..FirstIndex(xs, x)] + xs[FirstIndex(xs, x) + 1..]
  {
    if x in xs then
      var i := FirstIndex(xs, x);
      assert xs == xs[..i] + [xs[i]] + xs[i + 1..];
      xs[..i] + xs[i + 1..]
    else
      xs
  }

  /** The listeners registered on one observable, in registration order. */
  datatype Registry<L> = Registry(invalidation: seq<L>, change: seq<L>)

  /** What a listener receives: an invalidation, or a change with old and new value. */
  datatype Notification<L, V> =
    | Invalidation(listener: L)
    | Change(listener: L, oldValue: V, newValue: V)
  {
    function Target(): L {
      match this
      case Invalidation(l) => l
      case Change(l, _, _) => l
    }
  }

  function AddInvalidationListener<L>(reg: Registry<L>, l: L): (r: Registry<L>)
    ensures r.invalidation == reg.invalidation + [l] && r.change == reg.change
  {
    reg.(invalidation := reg.invalidation + [l])
  }

  function RemoveInvalidationListener<L(==)>(reg: Registry<L>, l: L): (r: Registry<L>)
    ensures r.invalidation == RemoveFirst(reg.invalidation, l)
    ensures multiset(r.invalidation) == multiset(reg.invalidation) - multiset{l}
    ensures r.change == reg.change
  {
    reg.(invalidation := RemoveFirst(reg.invalidation, l))
  }

  function AddChangeListener<L>(reg: Registry<L>, l: L): (r: Registry<L>)
    ensures r.change == reg.change + [l] && r.invalidation == reg.invalidation
  {
    reg.(change := reg.change + [l])
  }

  function RemoveChangeListener<L(==)>(reg: Registry<L>, l: L): (r: Registry<L>)
    ensures r.change == RemoveFirst(reg.change, l)
    ensures multiset(r.change) == multiset(reg.change) - multiset{l}
    ensures r.invalidation == reg.invalidation
  {
    reg.(change := RemoveFirst(reg.change, l))
  }

  function InvalidationNotes<L, V>(ls: seq<L>): (r: seq<Notification<L, V>>)
    ensures |r| == |ls|
    ensures forall i :: 0 <= i < |ls| ==> r[i] == Invalidation(ls[i])
  {
    if ls == [] then [] else [Invalidation(ls[0])] + InvalidationNotes(ls[1..])
  }

  function ChangeNotes<L, V>(ls: seq<L>, oldValue: V, newValue: V): (r: seq<Notification<L, V>>)
    ensures |r| == |ls|
    ensures forall i :: 0 <= i < |ls| ==> r[i] == Change(ls[i], oldValue, newValue)
  {
    if ls == [] then [] else [Change(ls[0], oldValue, newValue)] + ChangeNotes(ls[1..], oldValue, newValue)
  }

  /**
   One value-changed event: every invalidation listener is told, in
   registration order, then every change listener, in registration order,
   receives the old and the new value when the two differ.
   */
  function FireValueChanged<L, V(==)>(reg: Registry<L>, oldValue: V, newValue: V): (r: seq<Notification<L, V>>)
    ensures |r| == |reg.invalidation| + (if oldValue != newValue then |reg.change| else 0)
    ensures forall i :: 0 <= i < |reg.invalidation| ==> r[i] == Invalidation(reg.invalidation[i])
    ensures oldValue != newValue ==>
      forall j :: 0 <= j < |reg.change| ==> r[|reg.invalidation| + j] == Change(reg.change[j], oldValue, newValue)
  {
    InvalidationNotes(reg.invalidation)
      + (if oldValue != newValue then ChangeNotes(reg.change, oldValue, newValue) else [])
  }

  /** How many of `notes` are addressed to listener `l`. */
  function NotesFor<L(==), V>(notes: seq<Notification<L, V>>, l: L): nat
  {
    if notes == [] then 0
    else (if notes[0].Target() == l then 1 else 0) + NotesFor(notes[1..], l)
  }

  lemma {:induction false} NotesForConcat<L, V>(a: seq<Notification<L, V>>, b: seq<Notification<L, V>>, l: L)
    ensures NotesFor(a + b, l) == NotesFor(a, l) + NotesFor(b, l)
  {
    if a == [] {
      assert a + b == b;
    } else {
      assert (a + b)[1..] == a[1..] + b;
      NotesForConcat(a[1..], b, l);
    }
  }

  lemma {:induction false} InvalidationNotesFor<L, V>(ls: seq<L>, l: L)
    ensures NotesFor(InvalidationNotes<L, V>(ls), l) == multiset(ls)[l]
  {
    if ls != [] {
      assert ls == [ls[0]] + ls[1..];
      InvalidationNotesFor<L, V>(ls[1..], l);
    }
  }

  lemma {:induction false} ChangeNotesFor<L, V>(ls: seq<L>, oldValue: V, newValue: V, l: L)
    ensures NotesFor(ChangeNotes(ls, oldValue, newValue), l) == multiset(ls)[l]
  {
    if ls != [] {
      assert ls == [ls[0]] + ls[1..];
      ChangeNotesFor(ls[1..], oldValue, newValue, l);
    }
  }

  /**
   A listener registered k times hears k invalidations per event, and k
   changes when the value differs: the registry does not de-duplicate.
   */
  lemma FireValueChangedCounts<L, V>(reg: Registry<L>, oldValue: V, newValue: V, l: L)
    ensures NotesFor(FireValueChanged(reg, oldValue, newValue), l)
         == multiset(reg.invalidation)[l] + (if oldValue != newValue then multiset(reg.change)[l] else 0)
  {
    var inv := InvalidationNotes<L, V>(reg.invalidation);
    var chg: seq<Notification<L, V>> := if oldValue != newValue then ChangeNotes(reg.change, oldValue, newValue) else [];
    NotesForConcat(inv, chg, l);
    InvalidationNotesFor<L, V>(reg.invalidation, l);
    if oldValue != newValue {
      ChangeNotesFor(reg.change, oldValue, newValue, l);
    }
  }
}
