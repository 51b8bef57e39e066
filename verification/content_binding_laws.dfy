/**
 Laws of content binding: the two binding kinds refuse each other, binding
 the same set again replaces the binding (one event per source change),
 unbinding keeps the content and stops propagation, either end may remove a
 bidirectional binding, and every operation keeps bound sets in step.
 */
module ContentBindingLaws {
  import opened Outcomes
  import opened ContentBinding

  /** A content-bound property refuses a bidirectional binding to its source (or to any set). */
  lemma ContentBoundRefusesBidirectional<E>(w: World<E>, source: SetId, other: SetId)
    requires Wf(w) && w.target.kind == Bindable && !w.target.mode.BidiBound?
    requires source in w.sets && other in w.sets
    ensures BindContent(w, Some(source)).Ok?
    ensures BindContentBidirectional(BindContent(w, Some(source)).value, Some(other)) == Err(ConflictBidirectional)
  {
  }

  /** A bidirectionally bound property refuses a content binding to its partner (or to any set). */
  lemma BidirectionalRefusesContentBinding<E>(w: World<E>, other: SetId, source: SetId)
    requires Wf(w) && w.target.kind == Bindable && !w.target.mode.ContentBound?
    requires other in w.sets && source in w.sets
    ensures BindContentBidirectional(w, Some(other)).Ok?
    ensures BindContent(BindContentBidirectional(w, Some(other)).value, Some(source)) == Err(ConflictUnidirectional)
  {
  }

  /**
   Binding the content to the same source twice is binding it once: a new
   element of the source then raises exactly one change event on the target.
   */
  lemma ContentBindingIsReplaced<E>(w: World<E>, source: SetId, x: E)
    requires Wf(w) && w.target.kind == Bindable && !w.target.mode.BidiBound?
    requires source in w.sets && x !in w.sets[source]
    ensures BindContent(w, Some(source)).Ok?
    ensures var w1 := BindContent(w, Some(source)).value;
            && BindContent(w1, Some(source)) == Ok(w1)
            && SourceAdd(w1, source, x).changes == [Added(x)]
  {
  }

  /**
   While content-bound the target receives what is added to the source;
   after `unbindContent()` it keeps that content and receives nothing more.
   */
  lemma ContentBindingIsRemoved<E>(w: World<E>, source: SetId, x: E, y: E)
    requires Wf(w) && w.target.kind == Bindable && !w.target.mode.BidiBound?
    requires source in w.sets
    ensures BindContent(w, Some(source)).Ok?
    ensures var w1 := SourceAdd(BindContent(w, Some(source)).value, source, x).world;
            && w1.target.content == w.sets[source] + {x}
            && UnbindContent(w1).Ok?
            && var w2 := UnbindContent(w1).value;
               && w2.target.content == w1.target.content
               && SourceAdd(w2, source, y).world.target.content == w1.target.content
               && SourceAdd(w2, source, y).changes == []
  {
  }

  /**
   Binding bidirectionally to the same set twice is binding once: a new
   element of the partner raises exactly one change event on the target.
   */
  lemma BidirectionalBindingIsReplaced<E>(w: World<E>, other: SetId, x: E)
    requires Wf(w) && !w.target.mode.ContentBound?
    requires other in w.sets && x !in w.sets[other]
    ensures BindContentBidirectional(w, Some(other)).Ok?
    ensures var w1 := BindContentBidirectional(w, Some(other)).value;
            && BindContentBidirectional(w1, Some(other)) == Ok(w1)
            && SourceAdd(w1, other, x).changes == [Added(x)]
  {
    var w1 := BindContentBidirectional(w, Some(other)).value;
    var w2 := BindContentBidirectional(w1, Some(other)).value;
    assert w2.target == w1.target;
    assert w2.sets == w1.sets;
  }

  /**
   After `unbindContentBidirectional(other)` the target keeps what it had and
   additions to the former partner no longer reach it.
   */
  lemma BidirectionalBindingIsRemoved<E>(w: World<E>, other: SetId, x: E, y: E)
    requires Wf(w) && !w.target.mode.ContentBound?
    requires other in w.sets && Partners(w.target.mode) <= {other}
    ensures BindContentBidirectional(w, Some(other)).Ok?
    ensures var w1 := SourceAdd(BindContentBidirectional(w, Some(other)).value, other, x).world;
            && w1.target.content == w.sets[other] + {x}
            && UnbindContentBidirectional(w1, w.target.id, Some(other)).Ok?
            && var w2 := UnbindContentBidirectional(w1, w.target.id, Some(other)).value;
               && w2.target.mode == Unbound
               && w2.target.content == w1.target.content
               && SourceAdd(w2, other, y).world.target.content == w1.target.content
  {
  }

  /** A bidirectional binding is removed the same way from either of its two ends. */
  lemma EitherEndUnbinds<E>(w: World<E>, other: SetId)
    requires Wf(w) && other in w.sets
    ensures UnbindContentBidirectional(w, w.target.id, Some(other))
         == UnbindContentBidirectional(w, other, Some(w.target.id))
  {
  }

  /** Unbinding a pair that is not bidirectionally bound has no effect. */
  lemma UnboundPairUnbindIsNoOp<E>(w: World<E>, other: SetId)
    requires Wf(w) && other in w.sets && other !in Partners(w.target.mode)
    ensures UnbindContentBidirectional(w, w.target.id, Some(other)) == Ok(w)
  {
    if w.target.mode.BidiBound? {
      assert w.target.mode.partners - {other} == w.target.mode.partners;
    }
  }

  /** `isContentBound()` reports a unidirectional binding only, never a bidirectional one. */
  lemma BidirectionalIsNotContentBound<E>(w: World<E>, other: SetId)
    requires Wf(w) && !w.target.mode.ContentBound? && other in w.sets
    ensures BindContentBidirectional(w, Some(other)).Ok?
    ensures !IsContentBound(BindContentBidirectional(w, Some(other)).value)
  {
  }

  /**
   Mutating the content-bound target directly removes the content binding:
   it is no longer content-bound and later changes of the source pass it by.
   */
  lemma DirectMutationUnbinds<E>(w: World<E>, x: E, y: E)
    requires Wf(w) && w.target.mode.ContentBound?
    ensures var w1 := TargetAdd(w, x).world;
            && !IsContentBound(w1)
            && w1.target.content == w.target.content + {x}
            && SourceAdd(w1, w.target.mode.source, y).world.target == w1.target
  {
  }

  // ---------------------------------------------------------------------
  // Sequences of operations keep bound sets in step
  // ---------------------------------------------------------------------

  datatype Command<E> =
    | BindContentTo(source: Option<SetId>)
    | UnbindContentAll
    | UnbindContentOf(source: Option<SetId>)
    | BindBidirectional(other: Option<SetId>)
    | UnbindBidirectional(caller: SetId, other: Option<SetId>)
    | UnbindBidirectionalObject(arg: Arg)
    | AddToSet(s: SetId, x: E)
    | RemoveFromSet(s: SetId, x: E)
    | AddToTarget(x: E)
    | RemoveFromTarget(x: E)

  /** Every set a command names exists (the target's own set may be named as an argument). */
  ghost predicate Valid<E>(w: World<E>, c: Command<E>) {
    match c
    case BindContentTo(a) => Names(w, a)
    case BindBidirectional(a) => Names(w, a)
    case UnbindBidirectional(caller, _) => caller == w.target.id || caller in w.sets
    case AddToSet(s, _) => s in w.sets
    case RemoveFromSet(s, _) => s in w.sets
    case _ => true
  }

  /** The world after one command; a command that throws changes nothing. */
  function Apply<E>(w: World<E>, c: Command<E>): (r: Step<E>)
    requires Wf(w) && Valid(w, c)
    ensures Wf(r.world) && r.world.sets.Keys == w.sets.Keys && r.world.target.id == w.target.id
  {
    match c
    case BindContentTo(a) => Commit(w, BindContent(w, a))
    case UnbindContentAll => Commit(w, UnbindContent(w))
    case UnbindContentOf(a) => Commit(w, UnbindContentFrom(w, a))
    case BindBidirectional(a) => Commit(w, BindContentBidirectional(w, a))
    case UnbindBidirectional(caller, a) => Commit(w, UnbindContentBidirectional(w, caller, a))
    case UnbindBidirectionalObject(a) => Commit(w, UnbindContentBidirectionalObject(w, a))
    case AddToSet(s, x) => SourceAdd(w, s, x)
    case RemoveFromSet(s, x) => SourceRemove(w, s, x)
    case AddToTarget(x) => TargetAdd(w, x)
    case RemoveFromTarget(x) => TargetRemove(w, x)
  }

  /**
   The state a binding call leaves behind. The change events of the initial
   copy a successful binding call makes are not modelled: its step carries
   none.
   */
  function Commit<E>(w: World<E>, r: Result<World<E>>): (st: Step<E>)
    requires Wf(w) && (r.Ok? ==> Wf(r.value) && r.value.sets.Keys == w.sets.Keys && r.value.target.id == w.target.id)
    ensures st.changes == [] && Wf(st.world)
    ensures r.Err? ==> st.world == w
    ensures r.Ok? ==> st.world == r.value
  {
    match r
    case Ok(v) => Step(v, [])
    case Err(_) => Step(w, [])
  }

  lemma ApplyKeepsInSync<E>(w: World<E>, c: Command<E>)
    requires InSync(w) && Valid(w, c)
    ensures InSync(Apply(w, c).world)
  {
  }

  function Run<E>(w: World<E>, cs: seq<Command<E>>): (r: Step<E>)
    requires Wf(w) && AllValid(w.target.id, w.sets.Keys, cs)
    ensures Wf(r.world)
    decreases |cs|
  {
    if cs == [] then Step(w, [])
    else
      var first := Apply(w, cs[0]);
      var rest := Run(first.world, cs[1..]);
      Step(rest.world, first.changes + rest.changes)
  }

  /** Every command names existing sets; this depends only on the ids, which no command changes. */
  ghost predicate AllValid<E>(self: SetId, keys: set<SetId>, cs: seq<Command<E>>) {
    forall i :: 0 <= i < |cs| ==> ValidIn(self, keys, cs[i])
  }

  ghost predicate ValidIn<E>(self: SetId, keys: set<SetId>, c: Command<E>) {
    match c
    case BindContentTo(a) => a.Some? && a.value != self ==> a.value in keys
    case BindBidirectional(a) => a.Some? && a.value != self ==> a.value in keys
    case UnbindBidirectional(caller, _) => caller == self || caller in keys
    case AddToSet(s, _) => s in keys
    case RemoveFromSet(s, _) => s in keys
    case _ => true
  }

  lemma ValidInIsValid<E>(w: World<E>, c: Command<E>)
    requires ValidIn(w.target.id, w.sets.Keys, c)
    ensures Valid(w, c)
  {
  }

  /**
   After any sequence of operations, a content-bound target holds exactly
   its source's elements and a bidirectionally bound target exactly each
   partner's: bound sets never drift apart between operations.
   */
  lemma {:induction false} RunKeepsInSync<E>(w: World<E>, cs: seq<Command<E>>)
    requires InSync(w) && AllValid(w.target.id, w.sets.Keys, cs)
    ensures InSync(Run(w, cs).world)
    decreases |cs|
  {
    if cs != [] {
      ValidInIsValid(w, cs[0]);
      ApplyKeepsInSync(w, cs[0]);
      var first := Apply(w, cs[0]);
      assert AllValid(first.world.target.id, first.world.sets.Keys, cs[1..]) by {
        forall i | 0 <= i < |cs[1..]| ensures ValidIn(w.target.id, w.sets.Keys, cs[1..][i]) {
          assert cs[1..][i] == cs[i + 1];
        }
      }
      RunKeepsInSync(first.world, cs[1..]);
    }
  }

  /** A single-element mutation of the target or of another set. */
  predicate IsMutation<E>(c: Command<E>) {
    c.AddToSet? || c.RemoveFromSet? || c.AddToTarget? || c.RemoveFromTarget?
  }

  /**
   A single-element mutation raises at most one change event on the target,
   so a sequence of n mutations raises at most n, whichever sets they touch
   and whether or not they tear a binding down.
   */
  lemma {:induction false} OneEventPerMutation<E>(w: World<E>, cs: seq<Command<E>>)
    requires Wf(w) && AllValid(w.target.id, w.sets.Keys, cs)
    requires forall i :: 0 <= i < |cs| ==> IsMutation(cs[i])
    ensures |Run(w, cs).changes| <= |cs|
    decreases |cs|
  {
    if cs != [] {
      ValidInIsValid(w, cs[0]);
      var first := Apply(w, cs[0]);
      assert |first.changes| <= 1;
      assert AllValid(first.world.target.id, first.world.sets.Keys, cs[1..]) by {
        forall i | 0 <= i < |cs[1..]| ensures ValidIn(w.target.id, w.sets.Keys, cs[1..][i]) {
          assert cs[1..][i] == cs[i + 1];
        }
      }
      OneEventPerMutation(first.world, cs[1..]);
    }
  }
}
