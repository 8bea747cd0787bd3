/** Running a rule's linked actions. Unlike an action's own execution, this
    loop catches nothing: a linked id that is not stored (or whose stored
    tag is unknown) raises out of the loop, after the actions before it have
    run and left their effects. */
module RuleExec {
  import opened Wrappers
  import opened Platform
  import Users
  import Actions
  import opened ActionExec

  /** The state after running linked actions, the caller's user object as
      it is now, and the exception that stopped the loop, if any. */
  datatype Run = Run(st: State, held: Option<Users.User>, fault: Option<Fault>)

  /** An id names a stored action with a known tag. */
  predicate Runnable(t: Actions.ActionTable, id: int) {
    Actions.GetById(t, id).Ok? && Actions.GetById(t, id).value.Some?
  }

  /** `rule.execute(...)`: the linked actions, each once, in list order, all
      sharing the caller's user object. */
  function RunActions(env: Env, st: State, ids: seq<int>, call: Call, held: Option<Users.User>, fuel: nat): (r: Run)
    ensures r.st.world.actions == st.world.actions
    ensures held.None? ==> r.held.None?
    ensures r.fault.None? <==> forall i :: 0 <= i < |ids| ==> Runnable(st.world.actions, ids[i])
    ensures r.fault.Some? ==> r.fault.value == ValueError || r.fault.value == AttributeError
    decreases |ids|
  {
    if |ids| == 0 then Run(st, held, None)
    else
      match Actions.GetById(st.world.actions, ids[0])
      case Err(e) =>
        assert e == ValueError;
        Run(st, held, Some(e))
      case Ok(None) => Run(st, held, Some(AttributeError))
      case Ok(Some(a)) =>
        var o := Execute(env, st, a, call, held, fuel);
        var r := RunActions(env, o.st, ids[1..], call, o.held, fuel);
        assert forall i :: 1 <= i < |ids| ==> ids[1..][i - 1] == ids[i];
        r
  }

  /** A single linked action runs exactly as the action's own execution. */
  lemma RunOne(env: Env, st: State, id: int, a: Actions.Action, call: Call, held: Option<Users.User>, fuel: nat)
    requires Actions.GetById(st.world.actions, id) == Ok(Some(a))
    ensures var o := Execute(env, st, a, call, held, fuel);
      RunActions(env, st, [id], call, held, fuel) == Run(o.st, o.held, None)
  {
    var o := Execute(env, st, a, call, held, fuel);
    assert RunActions(env, o.st, [id][1..], call, o.held, fuel) == Run(o.st, o.held, None);
  }

  /** Running `xs + ys` runs `xs` first and then, only if nothing was
      raised, `ys` from where `xs` left off. */
  lemma {:induction false} RunInOrder(env: Env, st: State, xs: seq<int>, ys: seq<int>, call: Call, held: Option<Users.User>, fuel: nat)
    ensures var first := RunActions(env, st, xs, call, held, fuel);
      RunActions(env, st, xs + ys, call, held, fuel)
        == if first.fault.Some? then first else RunActions(env, first.st, ys, call, first.held, fuel)
    decreases |xs|
  {
    if |xs| == 0 {
      assert xs + ys == ys;
    } else {
      assert (xs + ys)[0] == xs[0];
      assert (xs + ys)[1..] == xs[1..] + ys;
      match Actions.GetById(st.world.actions, xs[0])
      case Err(_) =>
      case Ok(None) =>
      case Ok(Some(a)) =>
        var o := Execute(env, st, a, call, held, fuel);
        RunInOrder(env, o.st, xs[1..], ys, call, o.held, fuel);
    }
  }
}
