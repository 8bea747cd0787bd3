/** Executing an action against an event context.

    The platform is gone: sends, deletions, role changes, timeouts, kicks,
    renames and poll messages become `Effect` values appended to a trace, and
    the two stores the engine touches (actions, read only, and the ledger)
    are threaded through as values. Every exception raised inside an
    execution is caught there and logged, and the acting user's record, if
    the execution still holds one, is saved at the end.

    The acting user's record is a shared in-memory object: the caller hands
    its object down, linked actions mutate that same object, and a caller
    sees those mutations. A `Frame` tracks the caller's object (`obj`), the
    object the running execution holds (`local`) and whether the two are the
    same object (`shared`). Rebinding `local` (a ban clears it, a poll loads
    its target's record) ends the sharing; the caller's object lives on. */
module ActionExec {
  import opened Wrappers
  import opened Text
  import opened DocStore
  import opened Platform
  import Utils
  import Users
  import opened Actions
  import ActionText
  import Voting

  datatype World = World(actions: ActionTable, users: Users.Ledger)

  datatype Effect =
    | Ran(action: Option<int>)          // an action started executing (an observation of the model)
    | Sent(channel: ChannelRef, text: string)
    | MessageDeleted(message: int, delay: Option<string>)
    | RoleAdded(member: int, role: int)
    | RoleRemoved(member: int, role: int)
    | TimedOut(member: int, seconds: string)
    | Kicked(member: int)
    | BanRoleAdded(member: int, role: int)
    | BanAnnounced(channel: ChannelRef, member: int, points: int)
    | Renamed(member: int, nick: string)
    | PollOpened(channel: ChannelRef, target: int, linked: Option<string>, waitSeconds: int)
    | PollClosed(channel: ChannelRef, target: int, passed: bool)
    | Logged(fault: Fault)

  /** What the engine cannot compute itself: the server, the configured
      default channel and ban role, the reactions found on the k-th poll
      once its wait is over, the k-th random draw, which strings the
      interpreter's `float()` accepts, and whether the current time plus a
      number of seconds is still a date the interpreter can represent. */
  datatype Env = Env(
    guild: Guild,
    defaultChannel: Option<ChannelRef>,
    banRole: Option<Role>,
    votes: nat -> seq<Reaction>,
    pick: nat -> nat,
    isFloat: string -> bool,
    deadlineFits: int -> bool)

  /** Stores, trace, and how many polls and random draws have happened. */
  datatype State = State(world: World, trace: seq<Effect>, polls: nat, draws: nat)

  /** The event context an action runs in. */
  datatype Call = Call(member: Option<Member>, channel: Option<ChannelRef>, message: Option<Message>)

  datatype Frame = Frame(st: State, obj: Option<Users.User>, local: Option<Users.User>, shared: bool)

  /** The running execution's frame and the exception that ended it, if any. */
  datatype Step = Step(frame: Frame, fault: Option<Fault>)

  /** The state after an execution and the caller's object as it is now. */
  datatype Outcome = Outcome(st: State, held: Option<Users.User>)

  /** The poll wait: five minutes, or `value[1]` seconds; the wait that
      actually happens is the seconds-within-a-day part of that duration. */
  const DefaultPollSeconds: int := 300
  const SecondsPerDay: int := 86400

  /** The range of a `timedelta` in whole seconds: at most 999999999 days
      either way, the positive end including the last day's seconds. */
  const MinDeltaSeconds: int := -999999999 * SecondsPerDay
  const MaxDeltaSeconds: int := 999999999 * SecondsPerDay + SecondsPerDay - 1

  function Emit(f: Frame, es: seq<Effect>): Frame {
    f.(st := f.st.(trace := f.st.trace + es))
  }

  function Done(f: Frame): Step {
    Step(f, None)
  }

  function Raise(f: Frame, e: Fault): Step {
    Step(f, Some(e))
  }

  /** A mutation through the held object; the caller sees it when shared. */
  function SetLocal(f: Frame, u: Users.User): Frame {
    f.(local := Some(u), obj := if f.shared then Some(u) else f.obj)
  }

  /** Pointing the local variable at another object (or none). */
  function Rebind(f: Frame, v: Option<Users.User>): Frame {
    f.(local := v, shared := false)
  }

  /** The member an action targets: `target[0]` when given, else the actor. */
  function TargetMember(env: Env, actor: Member, target: seq<string>): Result<Member> {
    if |target| > 0 then Utils.MemberFromMention(env.guild, target[0]) else Ok(actor)
  }

  /** `get_by_id(int(idText))` where absence is fatal, as calling a method
      on the missing action raises. */
  function Resolve(t: ActionTable, idText: string): (r: Result<Action>)
    ensures ParseInt(idText).None? ==> r == Err(ValueError)
    ensures ParseInt(idText).Some? && !HasId(t, ParseInt(idText).value) ==> r == Err(AttributeError)
    ensures r.Ok? ==> ParseInt(idText).Some? && r.value.id == Some(ParseInt(idText).value)
  {
    match ActionText.Lookup(t, idText)
    case Err(e) => Err(e)
    case Ok(None) => Err(AttributeError)
    case Ok(Some(b)) => Ok(b)
  }

  /** `action.execute(...)`. */
  function Execute(env: Env, st: State, a: Action, call: Call, held: Option<Users.User>, fuel: nat): (o: Outcome)
    ensures held.None? ==> o.held.None?
    ensures |o.st.trace| > |st.trace| && o.st.trace[..|st.trace| + 1] == st.trace + [Ran(a.id)]
    ensures o.st.world.actions == st.world.actions
    decreases fuel, 4, 0
  {
    Finish(Body(env, Start(env, st, a, call, held), a, WithChannel(env, call), fuel))
  }

  /** The call with its channel defaulted to the configured one. */
  function WithChannel(env: Env, call: Call): Call {
    call.(channel := if call.channel.Some? then call.channel else env.defaultChannel)
  }

  /** Entering an execution: the record is the one handed down, else the
      actor's stored record when there is an actor. */
  function Start(env: Env, st: State, a: Action, call: Call, held: Option<Users.User>): (f: Frame)
    ensures f.shared <==> held.Some?
    ensures f.shared ==> f.local == f.obj
    ensures held.Some? ==> f.local == held
    ensures held.None? && call.member.Some? ==> f.local == Users.GetById(st.world.users, call.member.value.id)
    ensures held.None? && call.member.None? ==> f.local.None?
    ensures f.obj == held && f.st.world == st.world
    ensures f.st.trace == st.trace + [Ran(a.id)]
  {
    var local :=
      if held.Some? then held
      else if call.member.Some? then Users.GetById(st.world.users, call.member.value.id)
      else None;
    Frame(st.(trace := st.trace + [Ran(a.id)]), held, local, held.Some?)
  }

  /** Leaving an execution: an error is logged, then the record still held
      is saved. */
  function Finish(s: Step): (o: Outcome)
    ensures o.held == s.frame.obj
    ensures o.st.world.actions == s.frame.st.world.actions
    ensures s.fault.None? ==> o.st.trace == s.frame.st.trace
    ensures s.fault.Some? ==> o.st.trace == s.frame.st.trace + [Logged(s.fault.value)]
    ensures s.frame.local.None? ==> o.st.world.users == s.frame.st.world.users
    ensures s.frame.local.Some? ==> o.st.world.users == Users.Save(s.frame.st.world.users, s.frame.local.value)
  {
    var f := if s.fault.Some? then Emit(s.frame, [Logged(s.fault.value)]) else s.frame;
    var users := if f.local.Some? then Users.Save(f.st.world.users, f.local.value) else f.st.world.users;
    Outcome(f.st.(world := f.st.world.(users := users)), f.obj)
  }

  /** The `try` block: one branch per kind. */
  function Body(env: Env, f: Frame, a: Action, call: Call, fuel: nat): (s: Step)
    requires f.shared ==> f.local == f.obj
    ensures s.frame.shared ==> s.frame.local == s.frame.obj
    ensures f.obj.None? ==> s.frame.obj.None?
    ensures |s.frame.st.trace| >= |f.st.trace| && s.frame.st.trace[..|f.st.trace|] == f.st.trace
    ensures s.frame.st.world.actions == f.st.world.actions
    decreases fuel, 3, 0
  {
    match a.kind
    case AddPoints => AddPointsStep(env, f, a, call)
    case Ban => BanStep(env, f, a, call)
    case Poll => PollStep(env, f, a, call, fuel)
    case Random => RandomStep(env, f, a, call, fuel)
    case Chain => ExecChain(env, f, a.value, call, fuel)
    case _ => PlatformStep(env, f, a, call)
  }

  /** Kinds that only act on the platform. */
  function PlatformStep(env: Env, f: Frame, a: Action, call: Call): (s: Step)
    ensures s.frame == f.(st := s.frame.st)
    ensures s.frame.st.world == f.st.world && s.frame.st.polls == f.st.polls && s.frame.st.draws == f.st.draws
    ensures |s.frame.st.trace| >= |f.st.trace| && s.frame.st.trace[..|f.st.trace|] == f.st.trace
    ensures a.kind == DeleteMessage && call.message.Some? && |a.value| > 0 && !env.isFloat(a.value[0]) ==>
      s == Raise(f, ValueError)
    ensures a.kind == Timeout && call.member.Some? && |a.value| > 0 && !env.isFloat(a.value[0]) ==>
      s == Raise(f, ValueError)
  {
    match a.kind
    case SendMessage =>
      if |a.target| > 0 then
        if |a.value| == 0 then Raise(f, IndexError)
        else Done(Emit(f, seq(|a.target|, i requires 0 <= i < |a.target| => Sent(a.target[i], a.value[0]))))
      else if call.channel.Some? then
        if |a.value| == 0 then Raise(f, IndexError) else Done(Emit(f, [Sent(call.channel.value, a.value[0])]))
      else Done(f)
    case DeleteMessage =>
      if call.message.Some? then
        if |a.value| > 0 && !env.isFloat(a.value[0]) then Raise(f, ValueError)
        else Done(Emit(f, [MessageDeleted(call.message.value.id, if |a.value| > 0 then Some(a.value[0]) else None)]))
      else Done(f)
    case GiveRole => RoleStep(env, f, a, call, true)
    case RemoveRole => RoleStep(env, f, a, call, false)
    case Timeout =>
      if call.member.Some? && |a.value| > 0 then
        if !env.isFloat(a.value[0]) then Raise(f, ValueError)
        else
          match TargetMember(env, call.member.value, a.target)
          case Err(e) => Raise(f, e)
          case Ok(m) => Done(Emit(f, [TimedOut(m.id, a.value[0])]))
      else Done(f)
    case Kick =>
      if call.member.Some? then
        match TargetMember(env, call.member.value, a.target)
        case Err(e) => Raise(f, e)
        case Ok(m) => Done(Emit(f, [Kicked(m.id)]))
      else Done(f)
    case ChangeName =>
      if call.member.Some? && |a.value| > 0 then
        match TargetMember(env, call.member.value, a.target)
        case Err(e) => Raise(f, e)
        case Ok(m) => Done(Emit(f, [Renamed(m.id, a.value[0])]))
      else Done(f)
    case _ => Done(f)
  }

  /** Give or take the role named by `value[0]`: the role mention is read
      first, then the target; adding no role raises. */
  function RoleStep(env: Env, f: Frame, a: Action, call: Call, grant: bool): (s: Step)
    ensures s.frame == f.(st := s.frame.st)
    ensures s.frame.st.world == f.st.world && s.frame.st.polls == f.st.polls && s.frame.st.draws == f.st.draws
    ensures |s.frame.st.trace| >= |f.st.trace| && s.frame.st.trace[..|f.st.trace|] == f.st.trace
  {
    if call.member.Some? && |a.value| > 0 then
      match Utils.RoleFromMention(env.guild, a.value[0])
      case Err(e) => Raise(f, e)
      case Ok(role) =>
        match TargetMember(env, call.member.value, a.target)
        case Err(e) => Raise(f, e)
        case Ok(m) =>
          if role.None? then Raise(f, AttributeError)
          else Done(Emit(f, [if grant then RoleAdded(m.id, role.value.id) else RoleRemoved(m.id, role.value.id)]))
    else Done(f)
  }

  /** Add `int(value[0])` points. Without a target the held record is
      credited; with a target the target's record is loaded afresh and the
      credit lands on that copy, which nothing saves. */
  function AddPointsStep(env: Env, f: Frame, a: Action, call: Call): (s: Step)
    requires f.shared ==> f.local == f.obj
    ensures s.frame.shared ==> s.frame.local == s.frame.obj
    ensures s.frame.st == f.st && s.frame.shared == f.shared
    ensures f.obj.None? ==> s.frame.obj.None?
    ensures |a.target| > 0 ==> s.frame == f
    ensures f.local.None? || |a.value| == 0 ==> s == Done(f)
  {
    if f.local.Some? && |a.value| > 0 then
      if |a.target| > 0 then
        if call.member.None? then Raise(f, AttributeError)
        else
          match Utils.MemberFromMention(env.guild, a.target[0])
          case Err(e) => Raise(f, e)
          case Ok(m) =>
            match Users.GetById(f.st.world.users, m.id)
            case None => Raise(f, AttributeError)
            case Some(_) => if ParseInt(a.value[0]).None? then Raise(f, ValueError) else Done(f)
      else
        match ParseInt(a.value[0])
        case None => Raise(f, ValueError)
        case Some(n) => Done(SetLocal(f, f.local.value.(points := f.local.value.points + n)))
    else Done(f)
  }

  /** Ban: give the target (the actor unless `target[0]` names someone) the
      ban role, announce it with the actor's points, delete the actor's
      ledger record and drop the local reference so it is not saved back.
      Adding a missing ban role raises once the target is known. */
  function BanStep(env: Env, f: Frame, a: Action, call: Call): (s: Step)
    requires f.shared ==> f.local == f.obj
    ensures s.frame.shared ==> s.frame.local == s.frame.obj
    ensures s.frame.obj == f.obj
    ensures s.frame.st.world.actions == f.st.world.actions
    ensures |s.frame.st.trace| >= |f.st.trace| && s.frame.st.trace[..|f.st.trace|] == f.st.trace
    ensures call.member.Some? && TargetMember(env, call.member.value, a.target).Ok? && env.banRole.None? ==>
      s == Raise(f, AttributeError)
  {
    if call.member.Some? then
      match TargetMember(env, call.member.value, a.target)
      case Err(e) => Raise(f, e)
      case Ok(m) =>
        if env.banRole.None? then Raise(f, AttributeError)
        else
          var f1 := Emit(f, [BanRoleAdded(m.id, env.banRole.value.id)]);
          if call.channel.None? || f1.local.None? then Raise(f1, AttributeError)
          else
            var u := f1.local.value;
            var f2 := Emit(f1, [BanAnnounced(call.channel.value, call.member.value.id, u.points)]);
            var users := RemoveId(f2.st.world.users, u.id);
            Done(Rebind(f2.(st := f2.st.(world := f2.st.world.(users := users))), None))
    else Done(f)
  }

  /** The action a poll runs on success: none without `value[0]`. */
  function PollLinked(t: ActionTable, value: seq<string>): (r: Result<Option<Action>>)
    ensures |value| == 0 ==> r == Ok(None)
    ensures |value| > 0 ==> r == ActionText.Lookup(t, value[0])
  {
    if |value| == 0 then Ok(None) else ActionText.Lookup(t, value[0])
  }

  /** The configured poll duration in seconds. */
  function PollSeconds(value: seq<string>): (r: Result<int>)
    ensures |value| <= 1 ==> r == Ok(DefaultPollSeconds)
    ensures |value| > 1 ==> r == ToInt(value[1])
  {
    if |value| > 1 then ToInt(value[1]) else Ok(DefaultPollSeconds)
  }

  /** The configured wait made a `timedelta` and turned into a deadline: a
      duration outside the `timedelta` range, or a deadline past the dates
      the interpreter represents, raises OverflowError. */
  function PollWait(env: Env, value: seq<string>): (r: Result<int>)
    ensures PollSeconds(value).Err? ==> r == PollSeconds(value)
    ensures PollSeconds(value).Ok? ==>
      (r.Ok? <==> MinDeltaSeconds <= PollSeconds(value).value <= MaxDeltaSeconds && env.deadlineFits(PollSeconds(value).value))
    ensures PollSeconds(value).Ok? && r.Err? ==> r.fault == OverflowError
    ensures r.Ok? ==> r == PollSeconds(value)
  {
    var seconds :- PollSeconds(value);
    if seconds < MinDeltaSeconds || seconds > MaxDeltaSeconds || !env.deadlineFits(seconds) then Err(OverflowError)
    else Ok(seconds)
  }

  /** What a poll settles before it opens: where it runs, whom it is
      against, the action it runs on success with that action's description,
      and the configured wait in seconds. */
  datatype PollPlan = PollPlan(
    channel: ChannelRef,
    target: Member,
    linked: Option<Action>,
    prompt: Option<string>,
    seconds: int)

  /** Settling a poll: the channel is `target[0]` with its first two
      characters and last one dropped (else the current channel), the
      target member is `target[1]` (else the actor); each lookup, parse,
      the wait's range and the description can raise, in that order. */
  function PlanPoll(env: Env, t: ActionTable, a: Action, actor: Member, channel: ChannelRef, fuel: nat): (r: Result<PollPlan>)
    ensures r.Ok? ==> r.value.channel == (if |a.target| > 0 then Strip(a.target[0], 2) else channel)
    ensures r.Ok? && |a.target| <= 1 ==> r.value.target == actor
    ensures r.Ok? ==> Ok(r.value.linked) == PollLinked(t, a.value) && Ok(r.value.seconds) == PollSeconds(a.value)
    ensures r.Ok? ==> MinDeltaSeconds <= r.value.seconds <= MaxDeltaSeconds && env.deadlineFits(r.value.seconds)
    ensures r.Ok? ==> (r.value.prompt.Some? <==> r.value.linked.Some?)
    ensures r.Ok? && r.value.linked.Some? ==> ActionText.Render(t, r.value.linked.value, fuel) == Ok(r.value.prompt.value)
    ensures |a.target| <= 1 && PollLinked(t, a.value).Ok? && PollWait(env, a.value).Ok?
            && (PollLinked(t, a.value).value.Some? ==> ActionText.Render(t, PollLinked(t, a.value).value.value, fuel).Ok?)
            ==> r.Ok?
  {
    var pollChannel := if |a.target| > 0 then Strip(a.target[0], 2) else channel;
    var target :- if |a.target| > 1 then Utils.MemberFromMention(env.guild, a.target[1]) else Ok(actor);
    var linked :- PollLinked(t, a.value);
    var seconds :- PollWait(env, a.value);
    if linked.Some? then
      var prompt :- ActionText.Render(t, linked.value, fuel);
      Ok(PollPlan(pollChannel, target, linked, Some(prompt), seconds))
    else Ok(PollPlan(pollChannel, target, None, None, seconds))
  }

  /** Poll: announce the vote, wait, tally; on a positive net score run the
      linked action with the target as actor, and with the target's own
      record when the target is someone else. */
  function PollStep(env: Env, f: Frame, a: Action, call: Call, fuel: nat): (s: Step)
    requires f.shared ==> f.local == f.obj
    ensures s.frame.shared ==> s.frame.local == s.frame.obj
    ensures f.obj.None? ==> s.frame.obj.None?
    ensures |s.frame.st.trace| >= |f.st.trace| && s.frame.st.trace[..|f.st.trace|] == f.st.trace
    ensures s.frame.st.world.actions == f.st.world.actions
    decreases fuel, 2, 0
  {
    if call.member.Some? && call.channel.Some? then
      match PlanPoll(env, f.st.world.actions, a, call.member.value, call.channel.value, fuel)
      case Err(e) => Raise(f, e)
      case Ok(p) => PollVote(env, f, p, call.member.value, call.channel.value, fuel)
    else Done(f)
  }

  /** The poll itself once settled: the k-th poll's reactions decide it. */
  function PollVote(env: Env, f: Frame, p: PollPlan, actor: Member, channel: ChannelRef, fuel: nat): (s: Step)
    requires f.shared ==> f.local == f.obj
    ensures s.frame.shared ==> s.frame.local == s.frame.obj
    ensures f.obj.None? ==> s.frame.obj.None?
    ensures |s.frame.st.trace| >= |f.st.trace| && s.frame.st.trace[..|f.st.trace|] == f.st.trace
    ensures s.frame.st.world.actions == f.st.world.actions
    decreases fuel, 1, 1
  {
    var passed := Voting.Net(env.votes(f.st.polls)) > 0;
    var f1 := Announce(env, f, p);
    if passed && p.linked.Some? then
      var f2 := if p.target.id != actor.id then Rebind(f1, Users.GetById(f1.st.world.users, p.target.id)) else f1;
      RunChild(env, f2, p.linked.value, Call(Some(p.target), Some(channel), None), fuel)
    else Done(f1)
  }

  /** Opening and closing the k-th poll: both announcements, the vote
      counted. */
  function Announce(env: Env, f: Frame, p: PollPlan): (f1: Frame)
    ensures f1 == f.(st := f1.st)
    ensures f1.st.world == f.st.world && f1.st.draws == f.st.draws && f1.st.polls == f.st.polls + 1
    ensures f1.st.trace == f.st.trace
      + [PollOpened(p.channel, p.target.id, p.prompt, p.seconds % SecondsPerDay),
         PollClosed(p.channel, p.target.id, Voting.Net(env.votes(f.st.polls)) > 0)]
  {
    var passed := Voting.Net(env.votes(f.st.polls)) > 0;
    Emit(f.(st := f.st.(polls := f.st.polls + 1)),
         [PollOpened(p.channel, p.target.id, p.prompt, p.seconds % SecondsPerDay),
          PollClosed(p.channel, p.target.id, passed)])
  }

  /** Random: run the action whose id is the drawn element of `value`. */
  function RandomStep(env: Env, f: Frame, a: Action, call: Call, fuel: nat): (s: Step)
    requires f.shared ==> f.local == f.obj
    ensures s.frame.shared ==> s.frame.local == s.frame.obj
    ensures f.obj.None? ==> s.frame.obj.None?
    ensures |s.frame.st.trace| >= |f.st.trace| && s.frame.st.trace[..|f.st.trace|] == f.st.trace
    ensures s.frame.st.world.actions == f.st.world.actions
    ensures |a.value| == 0 ==> s == Done(f)
    decreases fuel, 2, 0
  {
    if |a.value| > 0 then
      var chosen := a.value[Draw(env, f.st, |a.value|)];
      var f1 := f.(st := f.st.(draws := f.st.draws + 1));
      match Resolve(f1.st.world.actions, chosen)
      case Err(e) => Raise(f1, e)
      case Ok(b) => RunChild(env, f1, b, call, fuel)
    else Done(f)
  }

  /** `random.choice` over a list of the given length. */
  function Draw(env: Env, st: State, n: nat): (k: nat)
    requires n > 0
    ensures k < n
  {
    env.pick(st.draws) % n
  }

  /** Chain: run the listed actions in order; an id that does not resolve
      raises and the rest of the list is skipped. */
  function ExecChain(env: Env, f: Frame, ids: seq<string>, call: Call, fuel: nat): (s: Step)
    requires f.shared ==> f.local == f.obj
    ensures s.frame.shared ==> s.frame.local == s.frame.obj
    ensures f.obj.None? ==> s.frame.obj.None?
    ensures |s.frame.st.trace| >= |f.st.trace| && s.frame.st.trace[..|f.st.trace|] == f.st.trace
    ensures s.frame.st.world.actions == f.st.world.actions
    decreases fuel, 2, |ids|
  {
    if |ids| == 0 then Done(f)
    else
      match Resolve(f.st.world.actions, ids[0])
      case Err(e) => Raise(f, e)
      case Ok(b) =>
        var s := RunChild(env, f, b, call, fuel);
        if s.fault.Some? then s else ExecChain(env, s.frame, ids[1..], call, fuel)
  }

  /** Run a linked action on the held object. The nested call needs one
      more level of the recursion budget; without it the call raises. */
  function RunChild(env: Env, f: Frame, b: Action, call: Call, fuel: nat): (s: Step)
    requires f.shared ==> f.local == f.obj
    ensures s.frame.shared ==> s.frame.local == s.frame.obj
    ensures f.obj.None? ==> s.frame.obj.None?
    ensures |s.frame.st.trace| >= |f.st.trace| && s.frame.st.trace[..|f.st.trace|] == f.st.trace
    ensures s.frame.st.world.actions == f.st.world.actions
    ensures fuel == 0 <==> s.fault.Some?
    decreases fuel, 1, 0
  {
    if fuel == 0 then Raise(f, RecursionError)
    else
      var o := Execute(env, f.st, b, call, f.local, fuel - 1);
      Done(f.(st := o.st, local := o.held, obj := if f.shared then o.held else f.obj))
  }
}
