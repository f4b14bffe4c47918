/** The generic transition table with roles and guards. */
module StateMachine {
  import opened Common

  datatype Context<+P> = Context(actorRole: PlatformRole, payload: P)

  /** A guard answers "true" or the reason of the refusal. */
  datatype GuardResult = Passed | Refused(reason: string)

  /** One arc. No roles means that any role may take it; no guard means that it always passes. */
  datatype Transition<S, !P> = Transition(
    source: S,
    target: S,
    allowedRoles: seq<PlatformRole>,
    guard: Option<Context<P> -> GuardResult>)

  function Require(condition: bool, reason: string): GuardResult {
    if condition then Passed else Refused(reason)
  }

  function Arc<S, P>(source: S, target: S, roles: seq<PlatformRole>): Transition<S, P> {
    Transition(source, target, roles, None)
  }

  function Guarded<S, P>(source: S, target: S, roles: seq<PlatformRole>, guard: Context<P> -> GuardResult): Transition<S, P> {
    Transition(source, target, roles, Some(guard))
  }

  datatype Verdict = Allowed | Denied(reasons: seq<string>)

  datatype TransitionError = IllegalTransition | GuardFailed

  predicate RoleMayTake<S, P>(t: Transition<S, P>, ctx: Context<P>) {
    |t.allowedRoles| == 0 || ctx.actorRole in t.allowedRoles
  }

  function GuardOf<S, P>(t: Transition<S, P>, ctx: Context<P>): GuardResult {
    match t.guard
    case None => Passed
    case Some(g) => g(ctx)
  }

  /** Without roles anyone may take an arc, without a guard it always passes. */
  lemma Unrestricted<S, P>(t: Transition<S, P>, ctx: Context<P>)
    ensures t.allowedRoles == [] && t.guard.None? ==> Takes(t, ctx)
    ensures t.allowedRoles != [] && ctx.actorRole !in t.allowedRoles ==> !Takes(t, ctx)
    ensures t.guard.Some? && t.guard.value(ctx).Refused? ==> !Takes(t, ctx)
  {
  }

  predicate Takes<S, P>(t: Transition<S, P>, ctx: Context<P>) {
    RoleMayTake(t, ctx) && GuardOf(t, ctx).Passed?
  }

  /** The table has an arc, whatever its roles and guard. */
  ghost predicate HasArc<S, P>(table: seq<Transition<S, P>>, source: S, target: S) {
    exists i :: 0 <= i < |table| && table[i].source == source && table[i].target == target
  }

  /** The table lets this actor go from one state to the other here and now. */
  ghost predicate Permits<S, P>(table: seq<Transition<S, P>>, source: S, target: S, ctx: Context<P>) {
    exists i :: 0 <= i < |table| && table[i].source == source && table[i].target == target && Takes(table[i], ctx)
  }

  /** The arcs of a table that leave one state, in table order: what the index holds for that state. */
  ghost function Leaving<S, P>(table: seq<Transition<S, P>>, source: S): seq<Transition<S, P>> {
    if table == [] then []
    else
      var last := table[|table| - 1];
      Leaving(table[..|table| - 1], source) + (if last.source == source then [last] else [])
  }

  lemma {:induction false} LeavingIsExact<S, P>(table: seq<Transition<S, P>>, source: S)
    ensures forall t :: t in Leaving(table, source) <==> t in table && t.source == source
  {
    if table != [] {
      LeavingIsExact(table[..|table| - 1], source);
      assert table == table[..|table| - 1] + [table[|table| - 1]];
    }
  }

  class Machine<S(==, !new), P> {
    const transitions: seq<Transition<S, P>>
    const terminalStates: seq<S>
    var index: map<S, seq<Transition<S, P>>>

    /** Every state's entry in the index is exactly the table's arcs out of that state. */
    ghost predicate Valid()
      reads this
    {
      forall s: S ::
        (s in index ==> index[s] == Leaving(transitions, s)) && (s !in index ==> Leaving(transitions, s) == [])
    }

    constructor (transitions: seq<Transition<S, P>>, terminalStates: seq<S>)
      ensures Valid()
      ensures this.transitions == transitions && this.terminalStates == terminalStates
    {
      this.transitions := transitions;
      this.terminalStates := terminalStates;
      index := map[];
      new;
      var i := 0;
      while i < |transitions|
        invariant 0 <= i <= |transitions|
        invariant forall s: S ::
                    (s in index ==> index[s] == Leaving(transitions[..i], s)) &&
                    (s !in index ==> Leaving(transitions[..i], s) == [])
      {
        var transition := transitions[i];
        var existing := if transition.source in index then index[transition.source] else [];
        assert transitions[..i + 1][..i] == transitions[..i];
        index := index[transition.source := existing + [transition]];
        i := i + 1;
      }
      assert transitions[..i] == transitions;
    }

    function From(source: S): seq<Transition<S, P>>
      reads this
    {
      if source in index then index[source] else []
    }

    /** Whether the arc exists, without looking at roles and guards. */
    method HasTransition(source: S, target: S) returns (found: bool)
      requires Valid()
      ensures found <==> HasArc(transitions, source, target)
    {
      LeavingIsExact(transitions, source);
      var candidates := From(source);
      found := exists i :: 0 <= i < |candidates| && candidates[i].target == target;
      if found {
        var i :| 0 <= i < |candidates| && candidates[i].target == target;
        assert candidates[i] in transitions;
      }
      if HasArc(transitions, source, target) {
        ghost var j :| 0 <= j < |transitions| && transitions[j].source == source && transitions[j].target == target;
        assert transitions[j] in candidates;
      }
    }

    /** Tries the candidate arcs in order and collects one reason per refusal; a missing arc is a reason of its own. */
    method CanTransition(source: S, target: S, ctx: Context<P>) returns (verdict: Verdict)
      requires Valid()
      ensures verdict.Allowed? <==> Permits(transitions, source, target, ctx)
      ensures verdict.Denied? ==> |verdict.reasons| > 0
    {
      LeavingIsExact(transitions, source);
      var candidates := From(source);
      var found := HasTransition(source, target);
      if !found {
        return Denied(["no such transition"]);
      }
      var rejections: seq<string> := [];
      var i := 0;
      while i < |candidates|
        invariant 0 <= i <= |candidates|
        invariant forall k :: 0 <= k < i && candidates[k].target == target ==> !Takes(candidates[k], ctx)
        invariant (exists k :: 0 <= k < i && candidates[k].target == target) ==> |rejections| > 0
      {
        var candidate := candidates[i];
        if candidate.target == target {
          if !RoleMayTake(candidate, ctx) {
            rejections := rejections + ["role"];
          } else {
            var guardResult := GuardOf(candidate, ctx);
            if guardResult.Refused? {
              rejections := rejections + [guardResult.reason];
            } else {
              assert candidate in transitions;
              return Allowed;
            }
          }
        }
        i := i + 1;
      }
      forall j | 0 <= j < |transitions| && transitions[j].source == source && transitions[j].target == target
        ensures !Takes(transitions[j], ctx)
        ensures |rejections| > 0
      {
        assert transitions[j] in candidates;
      }
      verdict := Denied(rejections);
    }

    /** The only way to change state: it answers the target exactly when the table permits the move. */
    method Transition(source: S, target: S, ctx: Context<P>) returns (result: S, error: Option<TransitionError>)
      requires Valid()
      ensures error.None? <==> Permits(transitions, source, target, ctx)
      ensures error.None? ==> result == target
      ensures error == Some(IllegalTransition) <==> !HasArc(transitions, source, target)
    {
      result := source;
      var exists_ := HasTransition(source, target);
      if !exists_ {
        return source, Some(IllegalTransition);
      }
      var verdict := CanTransition(source, target, ctx);
      if verdict.Denied? {
        return source, Some(GuardFailed);
      }
      return target, None;
    }
  }
}
