/** What executing an action does to the ledger and the trace. */
module ActionExecProps {
  import opened Wrappers
  import opened Text
  import opened DocStore
  import opened Platform
  import Users
  import opened Actions
  import ActionText
  import Voting
  import Utils
  import opened ActionExec

  /** Everything in a ledger that `get_by_id` can observe. */
  ghost predicate SameUsers(a: Users.Ledger, b: Users.Ledger) {
    forall x :: Users.GetById(a, x) == Users.GetById(b, x)
  }

  /** Re-saving a record exactly as stored changes nothing observable. */
  lemma ResaveUnchanged(ledger: Users.Ledger, u: Users.User)
    requires Users.GetById(ledger, u.id) == Some(u)
    ensures SameUsers(Users.Save(ledger, u), ledger)
  {
    forall x ensures Users.GetById(Users.Save(ledger, u), x) == Users.GetById(ledger, x) {
      Users.SaveThenGet(ledger, u, x);
    }
  }

  /** Executing an action of a given kind is entering it, taking that
      kind's step, and leaving. */
  lemma UnfoldAddPoints(env: Env, st: State, a: Action, call: Call, held: Option<Users.User>, fuel: nat)
    requires a.kind == AddPoints
    ensures Execute(env, st, a, call, held, fuel)
      == Finish(AddPointsStep(env, Start(env, st, a, call, held), a, WithChannel(env, call)))
  {
  }

  lemma UnfoldBan(env: Env, st: State, a: Action, call: Call, held: Option<Users.User>, fuel: nat)
    requires a.kind == Ban
    ensures Execute(env, st, a, call, held, fuel)
      == Finish(BanStep(env, Start(env, st, a, call, held), a, WithChannel(env, call)))
  {
  }

  lemma UnfoldRandom(env: Env, st: State, a: Action, call: Call, held: Option<Users.User>, fuel: nat)
    requires a.kind == Random
    ensures Execute(env, st, a, call, held, fuel)
      == Finish(RandomStep(env, Start(env, st, a, call, held), a, WithChannel(env, call), fuel))
  {
  }

  lemma UnfoldChain(env: Env, st: State, a: Action, call: Call, held: Option<Users.User>, fuel: nat)
    requires a.kind == Chain
    ensures Execute(env, st, a, call, held, fuel)
      == Finish(ActionExec.ExecChain(env, Start(env, st, a, call, held), a.value, WithChannel(env, call), fuel))
  {
  }

  lemma UnfoldPoll(env: Env, st: State, a: Action, call: Call, held: Option<Users.User>, fuel: nat)
    requires a.kind == Poll
    ensures Execute(env, st, a, call, held, fuel)
      == Finish(PollStep(env, Start(env, st, a, call, held), a, WithChannel(env, call), fuel))
  {
  }

  /** Saving a record makes it the one read back and leaves the others. */
  lemma SaveOverwrites(ledger: Users.Ledger, u: Users.User)
    ensures Users.GetById(Users.Save(ledger, u), u.id) == Some(u)
    ensures forall x :: x != u.id ==> Users.GetById(Users.Save(ledger, u), x) == Users.GetById(ledger, x)
  {
    forall x ensures x != u.id ==> Users.GetById(Users.Save(ledger, u), x) == Users.GetById(ledger, x) {
      Users.SaveThenGet(ledger, u, x);
    }
  }

  /** The add-points branch without a target credits the held record
      and touches nothing else. */
  lemma AddPointsStepCredits(env: Env, st: State, a: Action, m: Member, channel: Option<ChannelRef>, n: int, u: Users.User)
    requires a.kind == AddPoints && |a.target| == 0 && |a.value| > 0
    requires ParseInt(a.value[0]) == Some(n)
    requires Users.GetById(st.world.users, m.id) == Some(u)
    ensures var call := Call(Some(m), channel, None);
      var s := AddPointsStep(env, Start(env, st, a, call, None), a, WithChannel(env, call));
      && s.fault.None?
      && s.frame.local == Some(u.(points := u.points + n))
      && s.frame.st == Start(env, st, a, call, None).st
  {
  }

  /** Without a stored record the add-points branch does nothing. */
  lemma AddPointsStepNoRecord(env: Env, st: State, a: Action, m: Member, channel: Option<ChannelRef>)
    requires a.kind == AddPoints
    requires Users.GetById(st.world.users, m.id).None?
    ensures var call := Call(Some(m), channel, None);
      var f0 := Start(env, st, a, call, None);
      AddPointsStep(env, f0, a, WithChannel(env, call)) == Done(f0)
  {
  }

  /** Leaving an execution cleanly saves the held record over the ledger. */
  lemma FinishSaves(s: Step, u: Users.User)
    requires s.fault.None? && s.frame.local == Some(u)
    ensures Finish(s).st.world.users == Users.Save(s.frame.st.world.users, u)
    ensures Finish(s).st.trace == s.frame.st.trace
  {
  }

  /** Adding points without a target credits the actor's stored record by
      the parsed amount, and nobody else's record changes. */
  lemma AddPointsCreditsActor(env: Env, st: State, a: Action, m: Member, channel: Option<ChannelRef>, n: int, u: Users.User, fuel: nat)
    requires a.kind == AddPoints && |a.target| == 0 && |a.value| > 0
    requires ParseInt(a.value[0]) == Some(n)
    requires Users.GetById(st.world.users, m.id) == Some(u)
    ensures var o := Execute(env, st, a, Call(Some(m), channel, None), None, fuel);
      && o.st.trace == st.trace + [Ran(a.id)]
      && Users.GetById(o.st.world.users, m.id) == Some(u.(points := u.points + n))
      && (forall x :: x != m.id ==> Users.GetById(o.st.world.users, x) == Users.GetById(st.world.users, x))
  {
    var call := Call(Some(m), channel, None);
    var f0 := Start(env, st, a, call, None);
    var credited := u.(points := u.points + n);
    UnfoldAddPoints(env, st, a, call, None, fuel);
    AddPointsStepCredits(env, st, a, m, channel, n, u);
    FinishSaves(AddPointsStep(env, f0, a, WithChannel(env, call)), credited);
    SaveOverwrites(st.world.users, credited);
  }

  /** An actor with no ledger record gets none from adding points. */
  lemma AddPointsNeedsRecord(env: Env, st: State, a: Action, m: Member, channel: Option<ChannelRef>, fuel: nat)
    requires a.kind == AddPoints
    requires Users.GetById(st.world.users, m.id).None?
    ensures var o := Execute(env, st, a, Call(Some(m), channel, None), None, fuel);
      o.st.trace == st.trace + [Ran(a.id)] && o.st.world.users == st.world.users
  {
    UnfoldAddPoints(env, st, a, Call(Some(m), channel, None), None, fuel);
    AddPointsStepNoRecord(env, st, a, m, channel);
  }

  /** Adding points to a named target credits nobody: the target's record
      is loaded into a copy that is never saved, and the only write is the
      actor's unchanged record going back. */
  lemma AddPointsToTargetCreditsNobody(env: Env, st: State, a: Action, m: Member, channel: Option<ChannelRef>, fuel: nat)
    requires a.kind == AddPoints && |a.target| > 0
    ensures SameUsers(Execute(env, st, a, Call(Some(m), channel, None), None, fuel).st.world.users, st.world.users)
  {
    var call := Call(Some(m), channel, None);
    var f0 := Start(env, st, a, call, None);
    var s := AddPointsStep(env, f0, a, WithChannel(env, call));
    UnfoldAddPoints(env, st, a, call, None, fuel);
    var before := Users.GetById(st.world.users, m.id);
    if before.Some? {
      ResaveUnchanged(st.world.users, before.value);
    }
  }

  /** A linked action run with budget left starts right away. */
  lemma ChildRunsFirst(env: Env, f: Frame, b: Action, call: Call, fuel: nat)
    requires f.shared ==> f.local == f.obj
    requires fuel > 0
    ensures var s := RunChild(env, f, b, call, fuel);
      |s.frame.st.trace| > |f.st.trace| && s.frame.st.trace[|f.st.trace|] == Ran(b.id)
  {
    var o := Execute(env, f.st, b, call, f.local, fuel - 1);
    assert o.st.trace[..|f.st.trace| + 1] == f.st.trace + [Ran(b.id)];
    assert o.st.trace[|f.st.trace|] == (f.st.trace + [Ran(b.id)])[|f.st.trace|];
  }

  /** Once settled, a poll announces itself with the wait actually slept
      (the configured seconds reduced to within one day), closes as passed
      exactly when the net thumbs-up score is positive, and runs the linked
      action next when it passed and the recursion budget allows; a failed
      vote runs nothing. The linked action runs with the poll's target as
      its actor, on the target's stored record when the target is someone
      else and on the poll's own record otherwise, and the poll goes on
      holding whatever record that run leaves. */
  lemma PollVoteDecides(env: Env, f: Frame, p: PollPlan, actor: Member, channel: ChannelRef, fuel: nat)
    requires f.shared ==> f.local == f.obj
    ensures var s := PollVote(env, f, p, actor, channel, fuel);
      var n := |f.st.trace|;
      var passed := Voting.Net(env.votes(f.st.polls)) > 0;
      && |s.frame.st.trace| >= n + 2
      && s.frame.st.trace[n] == PollOpened(p.channel, p.target.id, p.prompt, p.seconds % SecondsPerDay)
      && s.frame.st.trace[n + 1] == PollClosed(p.channel, p.target.id, passed)
      && (passed && p.linked.Some? && fuel > 0 ==>
            |s.frame.st.trace| > n + 2 && s.frame.st.trace[n + 2] == Ran(p.linked.value.id))
      && (passed && p.linked.Some? && fuel > 0 ==>
            var held := if p.target.id != actor.id then Users.GetById(f.st.world.users, p.target.id) else f.local;
            var o := Execute(env, Announce(env, f, p).st, p.linked.value, Call(Some(p.target), Some(channel), None), held, fuel - 1);
            s.fault.None? && s.frame.st == o.st && s.frame.local == o.held)
      && (!passed ==> s.fault.None? && |s.frame.st.trace| == n + 2)
  {
    var passed := Voting.Net(env.votes(f.st.polls)) > 0;
    var n := |f.st.trace|;
    var f1 := Announce(env, f, p);
    if passed && p.linked.Some? {
      var f2 := if p.target.id != actor.id then Rebind(f1, Users.GetById(f1.st.world.users, p.target.id)) else f1;
      var c := Call(Some(p.target), Some(channel), None);
      var s := RunChild(env, f2, p.linked.value, c, fuel);
      assert s.frame.st.trace[..|f2.st.trace|] == f2.st.trace;
      assert s.frame.st.trace[n] == f2.st.trace[n] && s.frame.st.trace[n + 1] == f2.st.trace[n + 1];
      if fuel > 0 {
        ChildRunsFirst(env, f2, p.linked.value, c, fuel);
      }
    }
  }

  /** A poll against the member `target[1]` names, or against the actor
      when there is none: once its linked action, wait and description are
      settled, the vote announcement and result about that member follow
      the poll's own start marker, and the linked action runs next exactly
      on a passed vote. */
  lemma PollPassesOnPositiveNet(
    env: Env, st: State, a: Action, m: Member, ch: ChannelRef, tm: Member, b: Action, w: int, prompt: string, fuel: nat)
    requires a.kind == Poll
    requires (if |a.target| > 1 then Utils.MemberFromMention(env.guild, a.target[1]) else Ok(m)) == Ok(tm)
    requires PollLinked(st.world.actions, a.value) == Ok(Some(b))
    requires PollWait(env, a.value) == Ok(w)
    requires ActionText.Render(st.world.actions, b, fuel) == Ok(prompt)
    ensures var o := Execute(env, st, a, Call(Some(m), Some(ch), None), None, fuel);
      var n := |st.trace|;
      var pollChannel := if |a.target| > 0 then Strip(a.target[0], 2) else ch;
      var passed := Voting.Net(env.votes(st.polls)) > 0;
      && |o.st.trace| >= n + 3
      && o.st.trace[n + 1] == PollOpened(pollChannel, tm.id, Some(prompt), w % SecondsPerDay)
      && o.st.trace[n + 2] == PollClosed(pollChannel, tm.id, passed)
      && (passed && fuel > 0 ==> |o.st.trace| > n + 3 && o.st.trace[n + 3] == Ran(b.id))
      && (!passed ==> |o.st.trace| == n + 3)
  {
    var call := Call(Some(m), Some(ch), None);
    var f0 := Start(env, st, a, call, None);
    var pollChannel := if |a.target| > 0 then Strip(a.target[0], 2) else ch;
    var p := PollPlan(pollChannel, tm, Some(b), Some(prompt), w);
    assert PlanPoll(env, st.world.actions, a, m, ch, fuel) == Ok(p);
    UnfoldPoll(env, st, a, call, None, fuel);
    PollStepIsVote(env, f0, a, m, ch, fuel);
    PollVoteDecides(env, f0, p, m, ch, fuel);
    FinishExtends(PollVote(env, f0, p, m, ch, fuel));
  }

  /** Adding points without a target to a handed-down record credits that
      record, hands it back and saves it. */
  lemma AddPointsCreditsHeld(env: Env, st: State, b: Action, call: Call, u: Users.User, n: int, fuel: nat)
    requires b.kind == AddPoints && |b.target| == 0 && |b.value| > 0
    requires ParseInt(b.value[0]) == Some(n)
    ensures var o := Execute(env, st, b, call, Some(u), fuel);
      && o.held == Some(u.(points := u.points + n))
      && o.st.world.users == Users.Save(st.world.users, u.(points := u.points + n))
  {
    UnfoldAddPoints(env, st, b, call, Some(u), fuel);
  }

  /** A passed poll against someone else whose linked action adds points
      without a target credits the poll's target, not the actor: the
      target's record is loaded for the linked run, credited there and saved
      back, and every other record, the actor's included, reads as before. */
  lemma PollAgainstOtherCreditsTarget(
    env: Env, st: State, a: Action, m: Member, ch: ChannelRef, t: Member, u: Users.User,
    b: Action, n: int, fuel: nat)
    requires a.kind == Poll && |a.target| > 1
    requires Utils.MemberFromMention(env.guild, a.target[1]) == Ok(t) && t.id != m.id
    requires PollLinked(st.world.actions, a.value) == Ok(Some(b)) && PollWait(env, a.value).Ok?
    requires ActionText.Render(st.world.actions, b, fuel).Ok?
    requires b.kind == AddPoints && |b.target| == 0 && |b.value| > 0 && ParseInt(b.value[0]) == Some(n)
    requires Voting.Net(env.votes(st.polls)) > 0 && fuel > 0
    requires Users.GetById(st.world.users, t.id) == Some(u)
    ensures var o := Execute(env, st, a, Call(Some(m), Some(ch), None), None, fuel);
      && Users.GetById(o.st.world.users, t.id) == Some(u.(points := u.points + n))
      && (forall x :: x != t.id ==> Users.GetById(o.st.world.users, x) == Users.GetById(st.world.users, x))
  {
    var call := Call(Some(m), Some(ch), None);
    var f0 := Start(env, st, a, call, None);
    var pollChannel := if |a.target| > 0 then Strip(a.target[0], 2) else ch;
    var prompt := ActionText.Render(st.world.actions, b, fuel).value;
    var p := PollPlan(pollChannel, t, Some(b), Some(prompt), PollWait(env, a.value).value);
    assert PlanPoll(env, st.world.actions, a, m, ch, fuel) == Ok(p);
    UnfoldPoll(env, st, a, call, None, fuel);
    PollStepIsVote(env, f0, a, m, ch, fuel);
    PollVoteDecides(env, f0, p, m, ch, fuel);
    var f1 := Announce(env, f0, p);
    var credited := u.(points := u.points + n);
    var c := Call(Some(t), Some(ch), None);
    AddPointsCreditsHeld(env, f1.st, b, c, u, n, fuel - 1);
    var s := PollVote(env, f0, p, m, ch, fuel);
    assert s.fault.None? && s.frame.local == Some(credited);
    assert s.frame.st.world.users == Users.Save(st.world.users, credited);
    FinishSaves(s, credited);
    SaveOverwrites(st.world.users, credited);
    SaveOverwrites(Users.Save(st.world.users, credited), credited);
  }

  /** A poll whose wait overflows the interpreter's durations or dates
      raises before it opens: the error is logged, no poll is announced and
      the ledger reads as before. */
  lemma PollOverflowLogged(env: Env, st: State, a: Action, m: Member, ch: ChannelRef, fuel: nat)
    requires a.kind == Poll
    requires |a.target| > 1 ==> Utils.MemberFromMention(env.guild, a.target[1]).Ok?
    requires PollLinked(st.world.actions, a.value).Ok?
    requires PollSeconds(a.value).Ok? && PollWait(env, a.value).Err?
    ensures var o := Execute(env, st, a, Call(Some(m), Some(ch), None), None, fuel);
      && o.st.trace == st.trace + [Ran(a.id), Logged(OverflowError)]
      && SameUsers(o.st.world.users, st.world.users)
  {
    var call := Call(Some(m), Some(ch), None);
    UnfoldPoll(env, st, a, call, None, fuel);
    assert PlanPoll(env, st.world.actions, a, m, ch, fuel) == Err(OverflowError);
    var before := Users.GetById(st.world.users, m.id);
    if before.Some? {
      ResaveUnchanged(st.world.users, before.value);
    }
  }

  /** A poll step whose plan settles is the vote on that plan. */
  lemma PollStepIsVote(env: Env, f: Frame, a: Action, m: Member, ch: ChannelRef, fuel: nat)
    requires f.shared ==> f.local == f.obj
    requires a.kind == Poll
    requires PlanPoll(env, f.st.world.actions, a, m, ch, fuel).Ok?
    ensures PollStep(env, f, a, Call(Some(m), Some(ch), None), fuel)
      == PollVote(env, f, PlanPoll(env, f.st.world.actions, a, m, ch, fuel).value, m, ch, fuel)
  {
  }


  /** Leaving an execution never rewrites the trace so far. */
  lemma FinishExtends(s: Step)
    ensures |Finish(s).st.trace| >= |s.frame.st.trace|
    ensures Finish(s).st.trace[..|s.frame.st.trace|] == s.frame.st.trace
  {
  }

  /** The random branch runs the drawn entry's action, or raises what
      resolving that entry raises. */
  lemma RandomStepRuns(env: Env, f: Frame, a: Action, call: Call, fuel: nat, r: Result<Action>)
    requires f.shared ==> f.local == f.obj
    requires a.kind == Random && |a.value| > 0
    requires Resolve(f.st.world.actions, a.value[Draw(env, f.st, |a.value|)]) == r
    ensures var f1 := f.(st := f.st.(draws := f.st.draws + 1));
      RandomStep(env, f, a, call, fuel) == (if r.Ok? then RunChild(env, f1, r.value, call, fuel) else Raise(f1, r.fault))
  {
  }

  /** A random action runs one of the listed actions: the one whose id is
      the drawn entry of its value list, and it is the next thing the trace
      shows. */
  lemma RandomRunsDrawnEntry(env: Env, st: State, a: Action, call: Call, held: Option<Users.User>, fuel: nat, b: Action)
    requires a.kind == Random && |a.value| > 0 && fuel > 0
    requires Resolve(st.world.actions, a.value[Draw(env, st, |a.value|)]) == Ok(b)
    ensures b.id == Some(ParseInt(a.value[Draw(env, st, |a.value|)]).value)
    ensures var o := Execute(env, st, a, call, held, fuel);
      |o.st.trace| > |st.trace| + 1 && o.st.trace[|st.trace| + 1] == Ran(b.id)
  {
    var f0 := Start(env, st, a, call, held);
    var c := WithChannel(env, call);
    var f1 := f0.(st := f0.st.(draws := f0.st.draws + 1));
    UnfoldRandom(env, st, a, call, held, fuel);
    RandomStepRuns(env, f0, a, c, fuel, Ok(b));
    ChildRunsFirst(env, f1, b, c, fuel);
    FinishExtends(RunChild(env, f1, b, c, fuel));
  }

  /** A drawn entry that is not an integer or names no action ends the
      execution with that error logged and nothing run. */
  lemma RandomBadEntryLogged(env: Env, st: State, a: Action, call: Call, held: Option<Users.User>, fuel: nat, e: Fault)
    requires a.kind == Random && |a.value| > 0
    requires Resolve(st.world.actions, a.value[Draw(env, st, |a.value|)]) == Err(e)
    ensures Execute(env, st, a, call, held, fuel).st.trace == st.trace + [Ran(a.id), Logged(e)]
  {
    var f0 := Start(env, st, a, call, held);
    UnfoldRandom(env, st, a, call, held, fuel);
    RandomStepRuns(env, f0, a, WithChannel(env, call), fuel, Err(e));
  }

  /** A random action with nothing to choose from does nothing, apart from
      saving back the record it holds. */
  lemma RandomWithoutChoicesDoesNothing(env: Env, st: State, a: Action, call: Call, held: Option<Users.User>, fuel: nat)
    requires a.kind == Random && |a.value| == 0
    ensures var o := Execute(env, st, a, call, held, fuel);
      && o.st.trace == st.trace + [Ran(a.id)]
      && o.st.draws == st.draws && o.st.polls == st.polls
      && o.held == held
      && (held.Some? ==> o.st.world.users == Users.Save(st.world.users, held.value))
  {
    UnfoldRandom(env, st, a, call, held, fuel);
  }

  /** A chain whose first entry does not resolve runs none of its actions:
      the error is logged and the execution ends. */
  lemma ChainStopsAtBadHead(env: Env, st: State, a: Action, call: Call, held: Option<Users.User>, fuel: nat, e: Fault)
    requires a.kind == Chain && |a.value| > 0
    requires Resolve(st.world.actions, a.value[0]) == Err(e)
    ensures Execute(env, st, a, call, held, fuel).st.trace == st.trace + [Ran(a.id), Logged(e)]
  {
    UnfoldChain(env, st, a, call, held, fuel);
    ChainStepHead(env, Start(env, st, a, call, held), a.value, WithChannel(env, call), fuel, Err(e));
  }

  /** The chain branch runs its first entry's action first, or raises
      what resolving that entry raises. */
  lemma ChainStepHead(env: Env, f: Frame, ids: seq<string>, call: Call, fuel: nat, r: Result<Action>)
    requires f.shared ==> f.local == f.obj
    requires |ids| > 0 && Resolve(f.st.world.actions, ids[0]) == r
    ensures r.Err? ==> ExecChain(env, f, ids, call, fuel) == Raise(f, r.fault)
    ensures r.Ok? ==>
      var s1 := RunChild(env, f, r.value, call, fuel);
      ExecChain(env, f, ids, call, fuel) == if s1.fault.Some? then s1 else ExecChain(env, s1.frame, ids[1..], call, fuel)
  {
  }

  /** A chain runs its first entry's action before anything else happens. */
  lemma ChainRunsHeadFirst(env: Env, st: State, a: Action, call: Call, held: Option<Users.User>, fuel: nat, b: Action)
    requires a.kind == Chain && |a.value| > 0 && fuel > 0
    requires Resolve(st.world.actions, a.value[0]) == Ok(b)
    ensures var o := Execute(env, st, a, call, held, fuel);
      |o.st.trace| > |st.trace| + 1 && o.st.trace[|st.trace| + 1] == Ran(b.id)
  {
    var c := WithChannel(env, call);
    var f0 := Start(env, st, a, call, held);
    UnfoldChain(env, st, a, call, held, fuel);
    ChainStepHead(env, f0, a.value, c, fuel, Ok(b));
    var s1 := RunChild(env, f0, b, c, fuel);
    ChildRunsFirst(env, f0, b, c, fuel);
    var s := ExecChain(env, f0, a.value, c, fuel);
    assert s.frame.st.trace[..|s1.frame.st.trace|] == s1.frame.st.trace;
    FinishExtends(s);
  }

  /** A ban run directly on an event, with a ban role configured, deletes
      the ACTOR's ledger records, whoever the ban role went to, announces
      the actor's balance, and leaves every other record as it was. */
  lemma BanDeletesActorRecord(env: Env, st: State, a: Action, m: Member, ch: ChannelRef, target: Member, fuel: nat)
    requires a.kind == Ban
    requires TargetMember(env, m, a.target) == Ok(target)
    requires env.banRole.Some?
    requires Users.GetById(st.world.users, m.id).Some?
    requires UniqueIds(st.world.users)
    ensures var o := Execute(env, st, a, Call(Some(m), Some(ch), None), None, fuel);
      && o.st.trace == st.trace + [Ran(a.id), BanRoleAdded(target.id, env.banRole.value.id),
                                   BanAnnounced(ch, m.id, Users.GetById(st.world.users, m.id).value.points)]
      && Users.GetById(o.st.world.users, m.id).None?
      && (forall x :: x != m.id ==> Users.GetById(o.st.world.users, x) == Users.GetById(st.world.users, x))
  {
    var call := Call(Some(m), Some(ch), None);
    var f0 := Start(env, st, a, call, None);
    UnfoldBan(env, st, a, call, None, fuel);
    forall x | x != m.id ensures Users.GetById(RemoveId(st.world.users, m.id), x) == Users.GetById(st.world.users, x) {
      RemoveIdKeepsOthers(st.world.users, m.id, x);
    }
  }

  /** A ban hands back the caller's object untouched: it only forgets its
      own reference to it. */
  lemma BanKeepsCallerObject(env: Env, st: State, ban: Action, call: Call, u: Users.User, fuel: nat)
    requires ban.kind == Ban
    ensures Execute(env, st, ban, call, Some(u), fuel).held == Some(u)
  {
    UnfoldBan(env, st, ban, call, Some(u), fuel);
  }

  /** A ban with no ban role configured raises when the role is added: the
      error is logged, nothing is announced, and the ledger reads as
      before (the actor's unchanged record is only saved back). */
  lemma BanWithoutRoleLogged(env: Env, st: State, a: Action, m: Member, ch: ChannelRef, target: Member, fuel: nat)
    requires a.kind == Ban && env.banRole.None?
    requires TargetMember(env, m, a.target) == Ok(target)
    ensures var o := Execute(env, st, a, Call(Some(m), Some(ch), None), None, fuel);
      && o.st.trace == st.trace + [Ran(a.id), Logged(AttributeError)]
      && SameUsers(o.st.world.users, st.world.users)
  {
    UnfoldBan(env, st, a, Call(Some(m), Some(ch), None), None, fuel);
    var before := Users.GetById(st.world.users, m.id);
    if before.Some? {
      ResaveUnchanged(st.world.users, before.value);
    }
  }

  /** A delete or timeout whose `value[0]` is not a number `float()`
      accepts raises before anything reaches the platform: the error is
      logged and the ledger reads as before. */
  lemma NonNumericDelayLogged(env: Env, st: State, a: Action, m: Member, msg: Message, fuel: nat)
    requires a.kind == DeleteMessage || a.kind == Timeout
    requires |a.value| > 0 && !env.isFloat(a.value[0])
    ensures var o := Execute(env, st, a, Call(Some(m), None, Some(msg)), None, fuel);
      && o.st.trace == st.trace + [Ran(a.id), Logged(ValueError)]
      && SameUsers(o.st.world.users, st.world.users)
  {
    var before := Users.GetById(st.world.users, m.id);
    if before.Some? {
      ResaveUnchanged(st.world.users, before.value);
    }
  }

  /** A chain of one resolvable entry is that entry run as a linked
      action. */
  lemma ChainOfOne(env: Env, st: State, chain: Action, b: Action, call: Call, held: Option<Users.User>, fuel: nat)
    requires chain.kind == Chain && |chain.value| == 1 && fuel > 0
    requires Resolve(st.world.actions, chain.value[0]) == Ok(b)
    ensures Execute(env, st, chain, call, held, fuel)
      == Finish(RunChild(env, Start(env, st, chain, call, held), b, WithChannel(env, call), fuel))
  {
    var f0 := Start(env, st, chain, call, held);
    var c := WithChannel(env, call);
    UnfoldChain(env, st, chain, call, held, fuel);
    var s1 := RunChild(env, f0, b, c, fuel);
    assert chain.value[1..] == [];
    assert ExecChain(env, f0, chain.value, c, fuel) == ExecChain(env, s1.frame, [], c, fuel);
  }

  /** When a ban runs as the link of a chain that was handed the actor's
      record, the deletion does not stick: the ban drops only its own
      reference, the chain still holds the record and saves it back. */
  lemma BanInsideChainIsUndone(env: Env, st: State, chain: Action, ban: Action, call: Call, u: Users.User, fuel: nat)
    requires chain.kind == Chain && |chain.value| == 1 && fuel > 0
    requires Resolve(st.world.actions, chain.value[0]) == Ok(ban)
    requires ban.kind == Ban
    ensures var o := Execute(env, st, chain, call, Some(u), fuel);
      && Users.GetById(o.st.world.users, u.id) == Some(u)
      && o.held == Some(u)
  {
    var f0 := Start(env, st, chain, call, Some(u));
    var c := WithChannel(env, call);
    ChainOfOne(env, st, chain, ban, call, Some(u), fuel);
    BanKeepsCallerObject(env, f0.st, ban, c, u, fuel - 1);
    var s1 := RunChild(env, f0, ban, c, fuel);
    FinishSaves(s1, u);
    Users.SaveThenGet(s1.frame.st.world.users, u, u.id);
  }
}
