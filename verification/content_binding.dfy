/**
 Content binding of a set property, seen from one property (the target):
 its content-binding mode, its elements, and the other observable sets of
 the world, identified by number.

 `bindContent(source)` makes the target a copy of `source` and keeps it one;
 `bindContentBidirectional(other)` does the same in both directions, and a
 property may be bidirectionally bound to several partners at once. The two
 kinds exclude each other: asking for one while the other holds is an error.
 Unbinding never rolls the content back. Mutating the target directly while
 it is content-bound tears the content binding down.

 `ReadOnlySetProperty` itself refuses content binding (`bindContent` and both
 `unbindContent` throw, `isContentBound` is false); the subclasses that
 implement it are the `Bindable` kind. Bidirectional binding is available to
 both kinds.

 Only the effect on contents and modes is modelled, with the change events a
 single-element mutation raises on the target's set-change listeners.
 */
module ContentBinding {
  import opened Outcomes

  type SetId = nat

  datatype Mode =
    | Unbound
    | ContentBound(source: SetId)
    | BidiBound(partners: set<SetId>)

  datatype Kind = BaseDefaults | Bindable

  datatype Target<E> = Target(id: SetId, kind: Kind, mode: Mode, content: set<E>)

  datatype World<E> = World(target: Target<E>, sets: map<SetId, set<E>>)

  /** One event on the target's set-change listeners. */
  datatype Change<E> = Added(element: E) | Removed(element: E)

  datatype Step<E> = Step(world: World<E>, changes: seq<Change<E>>)

  /** The argument of the deprecated `unbindContentBidirectional(Object)`. */
  datatype Arg = NullRef | NotASet | ObservableSet(id: SetId)

  /**
   Well-formed world: the target is not one of the other sets, the sets its
   mode names exist, a bidirectional mode has a partner, and only a
   `Bindable` property can be content-bound.
   */
  ghost predicate Wf<E>(w: World<E>) {
    && w.target.id !in w.sets
    && (w.target.mode.ContentBound? ==> w.target.mode.source in w.sets && w.target.kind == Bindable)
    && (w.target.mode.BidiBound? ==> w.target.mode.partners != {} && w.target.mode.partners <= w.sets.Keys)
  }

  /** Bound sets agree with their sources and partners. */
  ghost predicate InSync<E>(w: World<E>) {
    && Wf(w)
    && (w.target.mode.ContentBound? ==> w.sets[w.target.mode.source] == w.target.content)
    && (w.target.mode.BidiBound? ==> forall p :: p in w.target.mode.partners ==> w.sets[p] == w.target.content)
  }

  /** An argument naming an observable set: null, the target's own set, or one of the others. */
  ghost predicate Names<E>(w: World<E>, arg: Option<SetId>) {
    arg.Some? && arg.value != w.target.id ==> arg.value in w.sets
  }

  /** The argument checks shared by the binding calls: null first, then the target's own set. */
  function CheckArg<E>(w: World<E>, arg: Option<SetId>): (r: Option<Error>)
    ensures r == None <==> arg.Some? && arg.value != w.target.id
    ensures arg.None? ==> r == Some(NullArgument)
    ensures arg.Some? && arg.value == w.target.id ==> r == Some(IllegalArgument)
  {
    match arg
    case None => Some(NullArgument)
    case Some(id) => if id == w.target.id then Some(IllegalArgument) else None
  }

  /** `isContentBound()` */
  function IsContentBound<E>(w: World<E>): (b: bool)
    requires Wf(w)
    ensures w.target.kind == BaseDefaults ==> !b
    ensures b <==> w.target.mode.ContentBound?
  {
    match w.target.kind
    case BaseDefaults => false
    case Bindable => w.target.mode.ContentBound?
  }

  /** `bindContent(source)` */
  function BindContent<E>(w: World<E>, source: Option<SetId>): (r: Result<World<E>>)
    requires Wf(w) && Names(w, source)
    ensures w.target.kind == BaseDefaults ==> r == Err(Unsupported)
    ensures w.target.kind == Bindable && CheckArg(w, source).Some? ==> r == Err(CheckArg(w, source).value)
    ensures w.target.kind == Bindable && CheckArg(w, source).None? ==>
      if w.target.mode.BidiBound? then r == Err(ConflictUnidirectional)
      else
        && r.Ok?
        && r.value.target == w.target.(mode := ContentBound(source.value), content := w.sets[source.value])
        && r.value.sets == w.sets
    ensures r.Ok? ==> InSync(r.value)
  {
    if w.target.kind == BaseDefaults then Err(Unsupported)
    else
      match CheckArg(w, source)
      case Some(e) => Err(e)
      case None =>
        if w.target.mode.BidiBound? then Err(ConflictUnidirectional)
        else
          var s := source.value;
          Ok(w.(target := w.target.(mode := ContentBound(s), content := w.sets[s])))
  }

  /** `unbindContent()`: the content stays as it is. */
  function UnbindContent<E>(w: World<E>): (r: Result<World<E>>)
    requires Wf(w)
    ensures w.target.kind == BaseDefaults <==> r.Err?
    ensures r.Err? ==> r.error == Unsupported
    ensures r.Ok? ==> r.value.target.content == w.target.content && r.value.sets == w.sets
    ensures r.Ok? ==> Wf(r.value) && !IsContentBound(r.value)
    ensures r.Ok? && !w.target.mode.ContentBound? ==> r.value == w
    ensures r.Ok? && w.target.mode.ContentBound? ==> r.value.target.mode == Unbound
    ensures r.Ok? ==> r.value.target == w.target.(mode := r.value.target.mode)
  {
    if w.target.kind == BaseDefaults then Err(Unsupported)
    else if w.target.mode.ContentBound? then Ok(w.(target := w.target.(mode := Unbound)))
    else Ok(w)
  }

  /** The deprecated `unbindContent(Object)` */
  function UnbindContentFrom<E>(w: World<E>, source: Option<SetId>): (r: Result<World<E>>)
    requires Wf(w)
    ensures w.target.kind == BaseDefaults ==> r == Err(Unsupported)
    ensures w.target.kind == Bindable && CheckArg(w, source).Some? ==> r == Err(CheckArg(w, source).value)
    ensures w.target.kind == Bindable && CheckArg(w, source).None? ==> r == UnbindContent(w)
  {
    if w.target.kind == BaseDefaults then Err(Unsupported)
    else
      match CheckArg(w, source)
      case Some(e) => Err(e)
      case None => UnbindContent(w)
  }

  /**
   `bindContentBidirectional(other)`: the target takes the content of
   `other`, and so do its existing partners, through their bindings.
   */
  function BindContentBidirectional<E>(w: World<E>, other: Option<SetId>): (r: Result<World<E>>)
    requires Wf(w) && Names(w, other)
    ensures CheckArg(w, other).Some? ==> r == Err(CheckArg(w, other).value)
    ensures CheckArg(w, other).None? && w.target.mode.ContentBound? ==> r == Err(ConflictBidirectional)
    ensures CheckArg(w, other).None? && !w.target.mode.ContentBound? ==>
      && r.Ok?
      && r.value.target.mode == BidiBound(Partners(w.target.mode) + {other.value})
      && r.value.target.content == w.sets[other.value]
      && r.value.target.kind == w.target.kind && r.value.target.id == w.target.id
      && r.value.sets.Keys == w.sets.Keys
      && (forall t :: t in w.sets && t !in Partners(w.target.mode) ==> r.value.sets[t] == w.sets[t])
    ensures r.Ok? ==> InSync(r.value)
  {
    match CheckArg(w, other)
    case Some(e) => Err(e)
    case None =>
      if w.target.mode.ContentBound? then Err(ConflictBidirectional)
      else
        var o := other.value;
        var ps := Partners(w.target.mode) + {o};
        var c := w.sets[o];
        Ok(World(w.target.(mode := BidiBound(ps), content := c),
                 map t | t in w.sets :: if t in ps then c else w.sets[t]))
  }

  function Partners(m: Mode): set<SetId> {
    if m.BidiBound? then m.partners else {}
  }

  /** The mode once the bidirectional binding with `other` is gone. */
  function WithoutPartner(m: Mode, other: SetId): (r: Mode)
    ensures Partners(r) == Partners(m) - {other}
    ensures !m.BidiBound? ==> r == m
    ensures r.BidiBound? ==> r.partners != {}
  {
    if m.BidiBound? then
      (if m.partners - {other} == {} then Unbound else BidiBound(m.partners - {other}))
    else m
  }

  /**
   `caller.unbindContentBidirectional(other)`, called on the target or on
   another set: the binding between the two is gone whichever end asks,
   the contents stay, and a pair that is not bound is left alone.
   */
  function UnbindContentBidirectional<E>(w: World<E>, caller: SetId, other: Option<SetId>): (r: Result<World<E>>)
    requires Wf(w)
    ensures other.None? ==> r == Err(NullArgument)
    ensures other.Some? && other.value == caller ==> r == Err(IllegalArgument)
    ensures other.Some? && other.value != caller ==>
      && r.Ok?
      && r.value.sets == w.sets
      && r.value.target.content == w.target.content
      && (caller == w.target.id ==> r.value.target.mode == WithoutPartner(w.target.mode, other.value))
      && (other.value == w.target.id ==> r.value.target.mode == WithoutPartner(w.target.mode, caller))
      && (caller != w.target.id && other.value != w.target.id ==> r.value == w)
    ensures r.Ok? ==> Wf(r.value)
    ensures r.Ok? && InSync(w) ==> InSync(r.value)
    ensures r.Ok? ==> r.value.target == w.target.(mode := r.value.target.mode)
  {
    match other
    case None => Err(NullArgument)
    case Some(o) =>
      if o == caller then Err(IllegalArgument)
      else if caller == w.target.id then Ok(w.(target := w.target.(mode := WithoutPartner(w.target.mode, o))))
      else if o == w.target.id then Ok(w.(target := w.target.(mode := WithoutPartner(w.target.mode, caller))))
      else Ok(w)
  }

  /** The deprecated `unbindContentBidirectional(Object)` on the target. */
  function UnbindContentBidirectionalObject<E>(w: World<E>, other: Arg): (r: Result<World<E>>)
    requires Wf(w)
    ensures other.NullRef? ==> r == Err(NullArgument)
    ensures other.NotASet? ==> r == Ok(w)
    ensures other.ObservableSet? ==> r == UnbindContentBidirectional(w, w.target.id, Some(other.id))
  {
    match other
    case NullRef => Err(NullArgument)
    case NotASet => Ok(w)
    case ObservableSet(id) => UnbindContentBidirectional(w, w.target.id, Some(id))
  }

  /** Whether the target follows changes of set `s`. */
  predicate Follows(m: Mode, s: SetId) {
    m == ContentBound(s) || s in Partners(m)
  }

  /** The change events of adding `x` to a set that held `before`. */
  function AddEvents<E>(before: set<E>, x: E): seq<Change<E>> {
    if x in before then [] else [Added(x)]
  }

  function RemoveEvents<E>(before: set<E>, x: E): seq<Change<E>> {
    if x in before then [Removed(x)] else []
  }

  /**
   Every partner of a bidirectionally bound target takes the content `c`;
   other sets keep theirs.
   */
  function SyncPartners<E>(sets: map<SetId, set<E>>, m: Mode, c: set<E>): (r: map<SetId, set<E>>)
    ensures r.Keys == sets.Keys
    ensures forall t :: t in sets ==> r[t] == if t in Partners(m) then c else sets[t]
  {
    map t | t in sets :: if t in Partners(m) then c else sets[t]
  }

  /**
   Element `x` is added to the other set `s`. A target that follows `s`
   takes it too (raising one change event if it is new), and a
   bidirectionally bound target passes it on to its other partners.
   */
  function SourceAdd<E>(w: World<E>, s: SetId, x: E): (r: Step<E>)
    requires Wf(w) && s in w.sets
    ensures r.world.target.mode == w.target.mode && Wf(r.world)
    ensures r.world.sets.Keys == w.sets.Keys
    ensures x in r.world.sets[s]
    ensures s !in Partners(w.target.mode) ==> r.world.sets[s] == w.sets[s] + {x}
    ensures forall p :: p in Partners(w.target.mode) && Follows(w.target.mode, s) ==> r.world.sets[p] == r.world.target.content
    ensures forall t :: t in w.sets && t != s && (t !in Partners(w.target.mode) || !Follows(w.target.mode, s)) ==>
      r.world.sets[t] == w.sets[t]
    ensures Follows(w.target.mode, s) ==>
      r.world.target.content == w.target.content + {x} && r.changes == AddEvents(w.target.content, x)
    ensures !Follows(w.target.mode, s) ==> r.world.target == w.target && r.changes == []
    ensures r.world.target == w.target.(content := r.world.target.content)
  {
    var after := w.sets[s] + {x};
    if Follows(w.target.mode, s) then
      var c := w.target.content + {x};
      Step(World(w.target.(content := c), SyncPartners(w.sets[s := after], w.target.mode, c)),
           AddEvents(w.target.content, x))
    else
      Step(w.(sets := w.sets[s := after]), [])
  }

  /** Element `x` is removed from the other set `s`; the mirror image of `SourceAdd`. */
  function SourceRemove<E>(w: World<E>, s: SetId, x: E): (r: Step<E>)
    requires Wf(w) && s in w.sets
    ensures r.world.target.mode == w.target.mode && Wf(r.world)
    ensures r.world.sets.Keys == w.sets.Keys
    ensures x !in r.world.sets[s]
    ensures s !in Partners(w.target.mode) ==> r.world.sets[s] == w.sets[s] - {x}
    ensures forall p :: p in Partners(w.target.mode) && Follows(w.target.mode, s) ==> r.world.sets[p] == r.world.target.content
    ensures forall t :: t in w.sets && t != s && (t !in Partners(w.target.mode) || !Follows(w.target.mode, s)) ==>
      r.world.sets[t] == w.sets[t]
    ensures Follows(w.target.mode, s) ==>
      r.world.target.content == w.target.content - {x} && r.changes == RemoveEvents(w.target.content, x)
    ensures !Follows(w.target.mode, s) ==> r.world.target == w.target && r.changes == []
    ensures r.world.target == w.target.(content := r.world.target.content)
  {
    var after := w.sets[s] - {x};
    if Follows(w.target.mode, s) then
      var c := w.target.content - {x};
      Step(World(w.target.(content := c), SyncPartners(w.sets[s := after], w.target.mode, c)),
           RemoveEvents(w.target.content, x))
    else
      Step(w.(sets := w.sets[s := after]), [])
  }

  /**
   A mutating call on the target itself adds `x`. A unidirectional content
   binding is torn down, since the target may now differ from its source;
   bidirectional partners take the new element.
   */
  function TargetAdd<E>(w: World<E>, x: E): (r: Step<E>)
    requires Wf(w)
    ensures r.world.target.content == w.target.content + {x}
    ensures r.changes == AddEvents(w.target.content, x)
    ensures w.target.mode.ContentBound? ==> r.world.target.mode == Unbound && r.world.sets == w.sets
    ensures !w.target.mode.ContentBound? ==> r.world.target.mode == w.target.mode
    ensures r.world.target.id == w.target.id && r.world.target.kind == w.target.kind
    ensures r.world.sets.Keys == w.sets.Keys
    ensures forall t :: t in w.sets ==>
      r.world.sets[t] == if t in Partners(w.target.mode) then r.world.target.content else w.sets[t]
    ensures Wf(r.world)
  {
    var c := w.target.content + {x};
    var m := if w.target.mode.ContentBound? then Unbound else w.target.mode;
    Step(World(w.target.(mode := m, content := c), SyncPartners(w.sets, m, c)), AddEvents(w.target.content, x))
  }

  /** A mutating call on the target itself removes `x`; the mirror image of `TargetAdd`. */
  function TargetRemove<E>(w: World<E>, x: E): (r: Step<E>)
    requires Wf(w)
    ensures r.world.target.content == w.target.content - {x}
    ensures r.changes == RemoveEvents(w.target.content, x)
    ensures w.target.mode.ContentBound? ==> r.world.target.mode == Unbound && r.world.sets == w.sets
    ensures !w.target.mode.ContentBound? ==> r.world.target.mode == w.target.mode
    ensures r.world.target.id == w.target.id && r.world.target.kind == w.target.kind
    ensures r.world.sets.Keys == w.sets.Keys
    ensures forall t :: t in w.sets ==>
      r.world.sets[t] == if t in Partners(w.target.mode) then r.world.target.content else w.sets[t]
    ensures Wf(r.world)
  {
    var c := w.target.content - {x};
    var m := if w.target.mode.ContentBound? then Unbound else w.target.mode;
    Step(World(w.target.(mode := m, content := c), SyncPartners(w.sets, m, c)), RemoveEvents(w.target.content, x))
  }
}
