# Property and content-binding core of the JavaFX beans layer, in Dafny

This project models three pieces of the JavaFX property engine and proves
properties of them.

- **The String property** (`StringPropertyBase`). Its state is the stored
  value, the `valid` flag, the observable it may be bound to, and the one
  weak listener it reuses for every binding. `set`, `get`, `bind`, `unbind`,
  `isBound` and `markInvalid` are pure transitions over a world. The world
  holds the property and the observables it can bind to. Each observable is
  a value plus an ordered listener list. A transition returns the new world
  and the events it emitted, in order. `Hook` is the overridable
  `invalidated()` callback; a layout container such as `HBox` requests a
  new layout there. `Fire` is one value-changed event. The weak reference
  becomes an explicit "owner alive" flag. The listener either removes itself
  from the observable that notified it or forwards to `markInvalid`.
- **Set value semantics** (`ReadOnlySetProperty.equals` and `hashCode`).
  `equals` is "same object, or a set of the same size all of whose elements
  this set contains", where a throwing membership test counts as `false`.
  `hashCode` sums the element hashes with Java's 32-bit wrap-around.
- **Content binding** of a set property. It is modelled as a mode per
  property: `Unbound`, `ContentBound(source)` or `BidiBound(partners)`.
  The transitions are `bindContent`, `unbindContent` (both overloads),
  `bindContentBidirectional`, `unbindContentBidirectional` (both overloads)
  and `isContentBound`. Mutations of a source, a partner or the target itself
  complete the model. `ReadOnlySetProperty` itself keeps its defaults: it
  refuses content binding and reports no binding. The subclass behaviour is
  taken from the documentation and the tests.

Modules: `Outcomes` (error tags, `Option`, `Result`), `Listeners` (listener
lists and registries), `StringProperty`, `StringPropertyLaws`,
`StringPropertyTrace`, `SetValue`, `ContentBinding`, `ContentBindingLaws`,
`SetPropertyListeners`.

Three behaviours of `StringPropertyBase` shape the model:

- `get()` on a bound property returns the observable's value without
  storing it. The stored `value` is only refreshed by `unbind()`.
- `bind(s)` with the current source does nothing.
- A `set` of a new value notifies only on the valid-to-invalid edge. Two sets
  with no read in between notify once, provided no listener reads the
  property while it is being notified (a change listener does; see
  "Left out").

## Model

| member | source | states |
|---|---|---|
| Listeners.RemoveFirst | modules/javafx.base/src/main/java/javafx/beans/property/StringPropertyBase.java:181-187 | removing a listener takes out its first registration only and keeps the order of the others; a listener that is not registered leaves the list unchanged |
| Listeners.AddInvalidationListener | modules/javafx.base/src/main/java/javafx/beans/property/StringPropertyBase.java:76-79 | adding an invalidation listener appends it to the invalidation list and leaves the change list alone |
| Listeners.RemoveInvalidationListener | modules/javafx.base/src/main/java/javafx/beans/property/StringPropertyBase.java:81-84 | removing an invalidation listener takes its first registration out of the invalidation list, keeps the order of the others, and leaves the change list alone |
| Listeners.AddChangeListener | modules/javafx.base/src/main/java/javafx/beans/property/StringPropertyBase.java:86-89 | adding a change listener appends it to the change list and leaves the invalidation list alone |
| Listeners.RemoveChangeListener | modules/javafx.base/src/main/java/javafx/beans/property/StringPropertyBase.java:91-94 | removing a change listener takes its first registration out of the change list, keeps the order of the others, and leaves the invalidation list alone |
| Listeners.FireValueChanged | modules/javafx.base/src/main/java/javafx/beans/property/StringPropertyBase.java:105-107 | one value-changed event tells every invalidation listener in registration order, then every change listener (old and new value) when the value differs |
| Listeners.FireValueChangedCounts | modules/javafx.base/src/main/java/javafx/beans/property/StringPropertyBase.java:96-107 | a listener registered k times hears k notifications per event, because the lists are not de-duplicated |
| StringProperty.NewProperty | modules/javafx.base/src/main/java/javafx/beans/property/StringPropertyBase.java:54-74 | a new property is valid and unbound, has no listener yet and holds its initial value |
| StringProperty.Differs | modules/javafx.base/src/main/java/javafx/beans/property/StringPropertyBase.java:145 | the change test of `set` (null against non-null, else String.equals) is exactly value inequality |
| StringProperty.MarkInvalid | modules/javafx.base/src/main/java/javafx/beans/property/StringPropertyBase.java:109-115 | only a valid property turns invalid and emits the hook and then one event; an invalid one emits nothing; nothing else changes |
| StringProperty.Set | modules/javafx.base/src/main/java/javafx/beans/property/StringPropertyBase.java:140-149 | fails with CannotSetBound exactly when bound; an equal value changes nothing and emits nothing; a new value is stored, the property ends invalid, and it notifies only if it was valid |
| StringProperty.Get | modules/javafx.base/src/main/java/javafx/beans/property/StringPropertyBase.java:131-134 | a read always validates; it returns the observable's current value when bound and the stored value otherwise; nothing else changes |
| StringProperty.Unbind | modules/javafx.base/src/main/java/javafx/beans/property/StringPropertyBase.java:181-187 | afterwards the property is unbound and holds the observable's last value; one registration of its listener is gone from that observable; validity and other observables are untouched; an unbound property is unchanged |
| StringProperty.Bind | modules/javafx.base/src/main/java/javafx/beans/property/StringPropertyBase.java:163-175 | a null source fails with NullArgument; the current source again is a no-op; a new source detaches the old one (its value is kept and one registration of the listener is removed from it), appends the listener to the new one, leaves every other observable as it was, leaves the property bound and invalid with the owner flag unchanged, and notifies only if it was valid |
| StringProperty.IsBound | modules/javafx.base/src/main/java/javafx/beans/property/StringPropertyBase.java:155-157 | `isBound()` holds exactly when an observable is stored |
| StringProperty.WasGarbageCollected | modules/javafx.base/src/main/java/javafx/beans/property/StringPropertyBase.java:216-219 | `wasGarbageCollected()` holds exactly when the owner is gone |
| StringProperty.Collect | modules/javafx.base/src/main/java/javafx/beans/property/StringPropertyBase.java:198-204 | after the owner is collected `wasGarbageCollected` holds and nothing else changes |
| StringProperty.Deliver | modules/javafx.base/src/main/java/javafx/beans/property/StringPropertyBase.java:206-214 | the weak listener, told by an observable: with the owner alive it runs `markInvalid` and touches no observable; with the owner gone it removes one registration of itself from that observable and forwards nothing; other listeners change nothing |
| StringProperty.SourceChanged | modules/javafx.base/src/main/java/javafx/beans/property/StringPropertyBase.java:206-214 | an observable change stores the new value and notifies the listeners registered at that moment; only the property's valid flag can change, every other observable is untouched, and an observable that does not carry the property's listener changes nothing else and emits nothing |
| StringPropertyLaws.UnbindDetaches | modules/javafx.base/src/main/java/javafx/beans/property/StringPropertyBase.java:181-187 | after `unbind()` no observable carries this property's listener |
| StringPropertyLaws.BindAttachesOneListener | modules/javafx.base/src/main/java/javafx/beans/property/StringPropertyBase.java:166-174 | after `bind(s)` with a new source, `s` carries exactly one listener of this property and no other observable carries any; `bind(s)` again changes nothing |
| StringPropertyLaws.SetKeepsInv | modules/javafx.base/src/main/java/javafx/beans/property/StringPropertyBase.java:140-149 | `set` keeps the binding invariant |
| StringPropertyLaws.DeliverKeepsInv | modules/javafx.base/src/main/java/javafx/beans/property/StringPropertyBase.java:206-214 | one listener notification keeps the binding invariant, including self-removal of a dead owner's listener |
| StringPropertyLaws.SourceChangedKeepsInv | modules/javafx.base/src/main/java/javafx/beans/property/StringPropertyBase.java:206-214 | a change of any observable keeps the binding invariant |
| StringPropertyLaws.NotifyAllGated | modules/javafx.base/src/main/java/javafx/beans/property/StringPropertyBase.java:109-115 | a whole notification round emits at most one hook and one event, and only on the valid-to-invalid edge |
| StringPropertyLaws.TwoSetsNotifyOnce | modules/javafx.base/src/main/java/javafx/beans/property/StringPropertyBase.java:145-148 | two sets of new values with no read between them emit the hook and the event once, and the second value is stored |
| StringPropertyLaws.DeadListenerRound | modules/javafx.base/src/main/java/javafx/beans/property/StringPropertyBase.java:207-210 | with the owner gone, a notification round forwards nothing and leaves the listener off the notifying observable |
| StringPropertyLaws.CollectedListenerDetaches | modules/javafx.base/src/main/java/javafx/beans/property/StringPropertyBase.java:206-219 | after the owner of a bound property is collected, the next change of its observable removes the listener and notifies nothing |
| StringPropertyLaws.LiveListenerRound | modules/javafx.base/src/main/java/javafx/beans/property/StringPropertyBase.java:211-213 | with the owner alive, a round that reaches the listener marks the property invalid once; a round that does not reach it changes nothing |
| StringPropertyLaws.BoundReadFollowsSource | modules/javafx.base/src/main/java/javafx/beans/property/StringPropertyBase.java:131-134 | a bound property follows its observable: after a change the next read returns the new value, and the change was announced once if the property was valid |
| StringPropertyLaws.UnbindKeepsLastValue | modules/javafx.base/src/main/java/javafx/beans/property/StringPropertyBase.java:181-187 | a read after `unbind()` returns what a read before it returned, and validity is unchanged |
| StringPropertyLaws.IsBoundTracksBinding | modules/javafx.base/src/main/java/javafx/beans/property/StringPropertyBase.java:155-157 | `isBound()` is true after `bind(s)`, false after `unbind()`, and true exactly when `set` is refused |
| StringPropertyLaws.BoundRefusesSet | modules/javafx.base/src/main/java/javafx/beans/property/StringPropertyBase.java:141-143 | once bound, every `set` fails with CannotSetBound; after unbinding, `set` succeeds again |
| StringPropertyTrace.RunKeepsInv | modules/javafx.base/src/main/java/javafx/beans/property/StringPropertyBase.java:163-187 | any sequence of set, get, bind, unbind, observable changes and collection keeps at most one listener of the property, on the bound observable only |
| StringPropertyTrace.FiresBoundedByReads | modules/javafx.base/src/main/java/javafx/beans/property/StringPropertyBase.java:109-134 | over any sequence of operations the value-changed events never exceed the reads plus one |
| StringPropertyTrace.NoReadsNotifyAtMostOnce | modules/javafx.base/src/main/java/javafx/beans/property/StringPropertyBase.java:109-115 | a sequence with no read notifies at most once, and never if the property starts invalid |
| StringPropertyTrace.HookPrecedesEveryFire | modules/javafx.base/src/main/java/javafx/beans/property/StringPropertyBase.java:109-125 | the `invalidated()` hook runs exactly as often as events fire, each time immediately before the event |
| SetValue.ContainsAll | modules/javafx.base/src/main/java/javafx/beans/property/ReadOnlySetProperty.java:190-194 | `containsAll` behind the exception handler is true exactly when every element of the argument is accepted and contained |
| SetValue.Equals | modules/javafx.base/src/main/java/javafx/beans/property/ReadOnlySetProperty.java:182-195 | true for the same object; false for a non-set or a set of another size; otherwise true exactly when the sizes agree and every element of the other set is accepted and contained |
| SetValue.EqualsIsSetEquality | modules/javafx.base/src/main/java/javafx/beans/property/ReadOnlySetProperty.java:186-194 | between two genuine sets whose elements are accepted, `equals` coincides with mathematical set equality, in both directions |
| SetValue.EqualsSymmetric | modules/javafx.base/src/main/java/javafx/beans/property/ReadOnlySetProperty.java:181-195 | `equals` between genuine sets is symmetric |
| SetValue.SumHashesPermutation | modules/javafx.base/src/main/java/javafx/beans/property/ReadOnlySetProperty.java:202-209 | the hash sum does not depend on iteration order: permutations give the same sum |
| SetValue.HashCode | modules/javafx.base/src/main/java/javafx/beans/property/ReadOnlySetProperty.java:202-209 | the loop result is the sum of the non-null element hashes, truncated to a Java int |
| SetValue.EqualSetsHashEqually | modules/javafx.base/src/main/java/javafx/beans/property/ReadOnlySetProperty.java:197-209 | sets that `equals` relates have equal hash codes |
| ContentBinding.CheckArg | modules/javafx.base/src/main/java/javafx/beans/property/ReadOnlySetProperty.java:131-133 | a null argument is NullArgument and the property's own set is IllegalArgument; any other set passes |
| ContentBinding.IsContentBound | modules/javafx.base/src/main/java/javafx/beans/property/ReadOnlySetProperty.java:167-179 | true exactly for a unidirectional content binding; always false for the base class |
| ContentBinding.BindContent | modules/javafx.base/src/main/java/javafx/beans/property/ReadOnlySetProperty.java:116-137 | the base class fails with Unsupported; otherwise null and self are refused, a bidirectional binding conflicts (ConflictUnidirectional), and on success the property is content-bound to the source and holds its elements |
| ContentBinding.UnbindContent | modules/javafx.base/src/main/java/javafx/beans/property/ReadOnlySetProperty.java:139-149 | the base class fails with Unsupported; otherwise the content binding is gone, the content, id and kind of the property are unchanged, and an unbound property is left as it is |
| ContentBinding.UnbindContentFrom | modules/javafx.base/src/main/java/javafx/beans/property/ReadOnlySetProperty.java:151-165 | the deprecated overload fails with Unsupported in the base class; otherwise it refuses null and self, then acts as `unbindContent()` |
| ContentBinding.BindContentBidirectional | modules/javafx.base/src/main/java/javafx/beans/property/ReadOnlySetProperty.java:55-68 | null and self are refused; a content-bound property conflicts (ConflictBidirectional); otherwise the set is added to the partners and the property and all its partners hold the same elements |
| ContentBinding.UnbindContentBidirectional | modules/javafx.base/src/main/java/javafx/beans/property/ReadOnlySetProperty.java:70-89 | null and self are refused; called on either end, it removes the binding between the two sets; contents, and the property's id and kind, are unchanged; an unrelated pair is left alone |
| ContentBinding.UnbindContentBidirectionalObject | modules/javafx.base/src/main/java/javafx/beans/property/ReadOnlySetProperty.java:108-114 | null fails with NullArgument; a non-set argument has no effect; an observable set delegates to the typed overload |
| ContentBinding.SourceAdd | modules/javafx.base/src/main/java/javafx/beans/property/ReadOnlySetProperty.java:120-122 | the changed set gains the element; a target bound to it takes the element too, with one change event if it was new to the target, and its other bidirectional partners end with the target's content; every other set, and a target bound elsewhere, is untouched; the target's mode, id and kind never change |
| ContentBinding.SourceRemove | modules/javafx.base/src/main/java/javafx/beans/property/ReadOnlySetProperty.java:120-122 | the changed set loses the element; a target bound to it loses the element too, with one change event if it held it, and its other bidirectional partners end with the target's content; every other set, and a target bound elsewhere, is untouched; the target's mode, id and kind never change |
| ContentBinding.TargetAdd | modules/javafx.base/src/main/java/javafx/beans/property/ReadOnlySetProperty.java:126-129 | a direct addition to the target stores the element with one change event if it is new; a content binding is removed and every set left as it was; a bidirectional binding stays and every partner takes the new content; other sets, id and kind are unchanged |
| ContentBinding.TargetRemove | modules/javafx.base/src/main/java/javafx/beans/property/ReadOnlySetProperty.java:126-129 | a direct removal from the target drops the element with one change event if it was held; a content binding is removed and every set left as it was; a bidirectional binding stays and every partner takes the new content; other sets, id and kind are unchanged |
| ContentBindingLaws.ContentBoundRefusesBidirectional | modules/javafx.base/src/test/java/test/javafx/beans/property/ReadOnlySetPropertyBaseTest.java:134-141 | after `bindContent(source)`, `bindContentBidirectional` fails with ConflictBidirectional |
| ContentBindingLaws.BidirectionalRefusesContentBinding | modules/javafx.base/src/test/java/test/javafx/beans/property/ReadOnlySetPropertyBaseTest.java:143-150 | after `bindContentBidirectional(other)`, `bindContent` fails with ConflictUnidirectional |
| ContentBindingLaws.ContentBindingIsReplaced | modules/javafx.base/src/test/java/test/javafx/beans/property/ReadOnlySetPropertyBaseTest.java:152-164 | `bindContent(s)` twice is `bindContent(s)` once; one new element of `s` then raises exactly one change event on the target |
| ContentBindingLaws.ContentBindingIsRemoved | modules/javafx.base/src/test/java/test/javafx/beans/property/ReadOnlySetPropertyBaseTest.java:166-177 | while bound an addition to the source reaches the target; after `unbindContent()` the content is kept and further additions do not reach it |
| ContentBindingLaws.BidirectionalBindingIsReplaced | modules/javafx.base/src/test/java/test/javafx/beans/property/ReadOnlySetPropertyBaseTest.java:179-191 | `bindContentBidirectional(o)` twice is the same as once; one new element of `o` then raises exactly one change event on the target |
| ContentBindingLaws.BidirectionalBindingIsRemoved | modules/javafx.base/src/test/java/test/javafx/beans/property/ReadOnlySetPropertyBaseTest.java:193-204 | after `unbindContentBidirectional(o)` the target keeps its content and further additions to `o` do not reach it |
| ContentBindingLaws.EitherEndUnbinds | modules/javafx.base/src/main/java/javafx/beans/property/ReadOnlySetProperty.java:73-78 | removing a bidirectional binding from the property and from the other set has the same result |
| ContentBindingLaws.UnboundPairUnbindIsNoOp | modules/javafx.base/src/main/java/javafx/beans/property/ReadOnlySetProperty.java:79-80 | unbinding a set that is not a bidirectional partner has no effect |
| ContentBindingLaws.BidirectionalIsNotContentBound | modules/javafx.base/src/main/java/javafx/beans/property/ReadOnlySetProperty.java:171-172 | `isContentBound()` stays false under a bidirectional binding |
| ContentBindingLaws.DirectMutationUnbinds | modules/javafx.base/src/main/java/javafx/beans/property/ReadOnlySetProperty.java:126-129 | after the content-bound target is mutated directly it is no longer content-bound, and a later source change does not reach it |
| ContentBindingLaws.RunKeepsInSync | modules/javafx.base/src/main/java/javafx/beans/property/ReadOnlySetProperty.java:116-122 | after any sequence of operations a content-bound target holds exactly its source's elements, and a bidirectionally bound one exactly each partner's |
| ContentBindingLaws.OneEventPerMutation | modules/javafx.base/src/test/java/test/javafx/beans/property/ReadOnlySetPropertyBaseTest.java:152-164 | n single-element mutations of the target or of other sets raise at most n change events on the target |
| SetPropertyListeners.Get | modules/javafx.base/src/test/java/test/javafx/beans/property/ReadOnlySetPropertyBaseTest.java:116-119 | the test property's `get()` returns the stored reference |
| SetPropertyListeners.SetAndFire | modules/javafx.base/src/test/java/test/javafx/beans/property/ReadOnlySetPropertyBaseTest.java:111-119 | the test property's `set` stores the reference, notifies every invalidation listener in registration order, then, when the reference changed, every change listener in order with the previous and the new reference |
| SetPropertyListeners.InvalidationListenerScenario | modules/javafx.base/src/test/java/test/javafx/beans/property/ReadOnlySetPropertyBaseTest.java:62-73 | an added invalidation listener hears exactly one notification of a change and none after its removal |
| SetPropertyListeners.ChangeListenerScenario | modules/javafx.base/src/test/java/test/javafx/beans/property/ReadOnlySetPropertyBaseTest.java:75-86 | an added change listener hears exactly one change, from the old to the new reference, and none after its removal |

## Left out

- Garbage collection and `WeakReference`: modelled as the `ownerAlive` flag, cleared by `Collect`.
- `ExpressionHelper` is not part of this model. The property's own listener registry is the generic `Listeners.Registry`. One `Fire` event stands for one `fireValueChangedEvent`. The registry's protection against mutation during notification is not modelled.
- `PropertyHelper.checkBind` and `PropertyHelper.toString` are not part of this model. Only the null check of `checkBind` is modelled (`NullArgument`). Detection of binding cycles and `toString` are left out.
- Listeners other than the property's own weak listener are opaque (`Foreign`). Notifying them has no modelled effect.
- Observables are compared by identity (a number). A source class with an unusual `equals` is not modelled.
- StringProperty.SourceChanged: an observable is assumed to notify every listener on each change. When an observable does or does not notify is its own business and is not modelled.
- `BidirectionalContentBinding` and `ReadOnlySetPropertyBase` are not part of this model. Content binding is stated as its effect on modes and contents only. Event replay and its re-entrancy guard are left out.
- StringPropertyLaws.TwoSetsNotifyOnce: property listeners are assumed not to call `get()` while they are notified. A change listener does: `ExpressionHelper` reads the new value for it, and that read re-validates the property. With a change listener attached, every `set` of a new value therefore notifies again.
- StringPropertyTrace.FiresBoundedByReads: the same assumption applies. Reads made by change listeners during notification are not among the counted reads.
- StringPropertyTrace.NoReadsNotifyAtMostOnce: the same assumption applies. A change listener's read during notification re-arms the gate.
- ContentBindingLaws.OneEventPerMutation: the bound covers single-element mutations only. A binding call's initial copy raises change events in the program, and those events are not modelled.
- ContentBinding.BindContent: the change events raised by the initial copy are not modelled, only the resulting content.
- ContentBinding.BindContentBidirectional: the documentation only promises that both sets end with the same content. The model has the property take the other set's content. The change events of that copy are not modelled either.
- Content binding is seen from one property. The partner's own mode, and any conflict it may raise, is undocumented and left out. The argument checks run in this order: null, then self, then conflict.
- ContentBinding.UnbindContentFrom: on a subclass only the documented behaviour is modelled (null and self refused, then unbind).
- ContentBinding.TargetAdd: the documentation says any mutating call tears down a content binding. The model does so even when the call changes nothing.
- SetValue.Equals: the wrapped set is its element sequence. `SetExpression`'s handling of a null wrapped set is not part of this model. Which membership tests throw is the abstract `containsThrows`.
- SetValue.HashCode: element hash codes are an abstract function into Java ints. `Object.hashCode` itself is not modelled.
- SetPropertyListeners.SetAndFire: the change listener's old/new comparison belongs to `ExpressionHelper`. Here it compares with the previously stored reference.
- `HBox` layout code is left out (floating-point layout arithmetic, CSS metadata, scene-graph queries). Its only link to the core is the `invalidated()` override that requests a layout. That override is the `Hook` event.
- Threads: everything is single-threaded.
- Exception message texts: each exception is a tag in `Outcomes.Error`.
