/** Rule dispatch: which stored rules an event breaks, running their
    actions, and the acting user's last-activity stamp; the mapping from
    platform events to rule categories; and one pass of the periodic sweep
    over the ledger. */
module Dispatch {
  import opened Wrappers
  import opened DocStore
  import opened Platform
  import Users
  import opened Rules
  import opened ActionExec
  import opened RuleExec

  /** A stored rule as the dispatcher loads it. */
  function Load(d: Doc<RuleEntry>): Result<Rule> {
    FromEntry(d.id, d.body)
  }

  /** A stored document of the given category whose rule the check fires. */
  predicate Fires(matches: (string, string) -> bool, d: Doc<RuleEntry>, kind: RuleType, ctx: Context) {
    d.body.kind == Tag(kind) && Load(d).Ok? && Check(matches, Load(d).value, ctx) == Ok(true)
  }

  /** Two searches one after the other: the first exception wins, else
      the results are joined. */
  function Combine(a: Result<seq<Rule>>, b: Result<seq<Rule>>): (r: Result<seq<Rule>>)
    ensures r.Ok? <==> a.Ok? && b.Ok?
    ensures r.Ok? ==> r.value == a.value + b.value
    ensures a.Err? ==> r == a
  {
    match a
    case Err(e) => Err(e)
    case Ok(x) =>
      match b
      case Err(e) => Err(e)
      case Ok(y) => Ok(x + y)
  }

  lemma CombineAssoc(a: Result<seq<Rule>>, b: Result<seq<Rule>>, c: Result<seq<Rule>>)
    ensures Combine(a, Combine(b, c)) == Combine(Combine(a, b), c)
  {
    if a.Ok? && b.Ok? && c.Ok? {
      assert a.value + (b.value + c.value) == (a.value + b.value) + c.value;
    }
  }

  /** One stored document's part of a search: nothing unless it has the
      category; its rule when the check fires; the exception the load or
      the check raises. */
  function Step(matches: (string, string) -> bool, d: Doc<RuleEntry>, kind: RuleType, ctx: Context): (r: Result<seq<Rule>>)
    ensures r.Ok? <==> (d.body.kind == Tag(kind) ==> Load(d).Ok? && Check(matches, Load(d).value, ctx).Ok?)
    ensures r.Ok? ==> r.value == (if Fires(matches, d, kind, ctx) then [Load(d).value] else [])
    ensures r.Ok? ==> forall k :: 0 <= k < |r.value| ==>
      r.value[k].kind == kind && Check(matches, r.value[k], ctx) == Ok(true)
  {
    if d.body.kind != Tag(kind) then Ok([])
    else
      ParseTypeExact(d.body.kind, kind);
      match Load(d)
      case Err(e) => Err(e)
      case Ok(rule) =>
        match Check(matches, rule, ctx)
        case Err(e) => Err(e)
        case Ok(hit) => Ok(if hit then [rule] else [])
  }

  /** The rules of one category that fire, in store order. The first check
      that raises aborts the whole search. */
  function Matching(matches: (string, string) -> bool, docs: seq<Doc<RuleEntry>>, kind: RuleType, ctx: Context): (r: Result<seq<Rule>>)
    ensures r.Ok? ==> forall k :: 0 <= k < |r.value| ==>
      r.value[k].kind == kind && Check(matches, r.value[k], ctx) == Ok(true)
    decreases |docs|
  {
    if |docs| == 0 then Ok([])
    else
      Combine(Step(matches, docs[0], kind, ctx), Matching(matches, docs[1..], kind, ctx))
  }

  /** A search succeeds exactly when no check of the category raises, and
      then it finds every document of the category whose rule fires. */
  lemma {:induction false} MatchingComplete(matches: (string, string) -> bool, docs: seq<Doc<RuleEntry>>, kind: RuleType, ctx: Context)
    ensures Matching(matches, docs, kind, ctx).Ok? <==>
      forall i :: 0 <= i < |docs| && docs[i].body.kind == Tag(kind) ==>
        Load(docs[i]).Ok? && Check(matches, Load(docs[i]).value, ctx).Ok?
    ensures Matching(matches, docs, kind, ctx).Ok? ==>
      forall i :: 0 <= i < |docs| && Fires(matches, docs[i], kind, ctx) ==>
        Load(docs[i]).value in Matching(matches, docs, kind, ctx).value
    decreases |docs|
  {
    if |docs| > 0 {
      MatchingComplete(matches, docs[1..], kind, ctx);
      assert forall i :: 1 <= i < |docs| ==> docs[1..][i - 1] == docs[i];
    }
  }

  /** The rules that fire, category by category in the given order. */
  function Collect(matches: (string, string) -> bool, t: RuleTable, kinds: seq<RuleType>, ctx: Context): (r: Result<seq<Rule>>)
    ensures r.Ok? ==> forall k :: 0 <= k < |r.value| ==>
      r.value[k].kind in kinds && Check(matches, r.value[k], ctx) == Ok(true)
    decreases |kinds|
  {
    if |kinds| == 0 then Ok([])
    else Combine(Matching(matches, t.docs, kinds[0], ctx), Collect(matches, t, kinds[1..], ctx))
  }

  /** Each rule's linked actions, rule after rule. */
  function AllActions(rules: seq<Rule>): (ids: seq<int>)
    ensures |rules| == 1 ==> ids == rules[0].actions
  {
    if |rules| == 0 then [] else rules[0].actions + AllActions(rules[1..])
  }

  /** Executing the fired rules one after another; a rule that raises
      stops the loop. */
  function RunRules(env: Env, st: State, rules: seq<Rule>, call: Call, held: Option<Users.User>, fuel: nat): (r: Run)
    ensures r.st.world.actions == st.world.actions
    ensures held.None? ==> r.held.None?
    decreases |rules|
  {
    if |rules| == 0 then Run(st, held, None)
    else
      var first := RunActions(env, st, rules[0].actions, call, held, fuel);
      if first.fault.Some? then first
      else RunRules(env, first.st, rules[1..], call, first.held, fuel)
  }

  /** The result of a dispatch: the state, the rules that fired, the user
      object saved with the new timestamp, and the exception raised. */
  datatype Handled = Handled(st: State, fired: seq<Rule>, saved: Option<Users.User>, fault: Option<Fault>)

  /** The user the checks see: with an acting member, the member's stored
      record, whatever record the caller passed. */
  function Actor(st: State, call: Call, dbUser: Option<Users.User>): (u: Option<Users.User>)
    ensures call.member.Some? ==> u == Users.GetById(st.world.users, call.member.value.id)
    ensures call.member.None? ==> u == dbUser
  {
    if call.member.Some? then Users.GetById(st.world.users, call.member.value.id) else dbUser
  }

  function ContextOf(env: Env, st: State, call: Call, dbUser: Option<Users.User>, reaction: Option<Reaction>, now: int): Context {
    Context(env.guild, call.member, Actor(st, call, dbUser), call.message, reaction, now)
  }

  /** `handle_rules(...)`: collect the rules that fire, run their actions,
      and, when anything fired, stamp the user object with the current time
      and save it (raising if there is none). */
  function HandleRules(
    env: Env, matches: (string, string) -> bool, rules: RuleTable, st: State,
    kinds: seq<RuleType>, call: Call, dbUser: Option<Users.User>,
    reaction: Option<Reaction>, now: int, fuel: nat): (h: Handled)
    ensures h.st.world.actions == st.world.actions
    ensures h.saved.Some? <==> h.fault.None? && |h.fired| > 0
    ensures h.saved.Some? ==>
      h.saved.value.lastActivity == now && Users.GetById(h.st.world.users, h.saved.value.id) == h.saved
    ensures h.fault.None? && |h.fired| == 0 ==> h.st == st
    ensures h.saved.Some? ==> Actor(st, call, dbUser).Some?
  {
    var user := Actor(st, call, dbUser);
    match Collect(matches, rules, kinds, ContextOf(env, st, call, dbUser, reaction, now))
    case Err(e) => Handled(st, [], None, Some(e))
    case Ok(fired) =>
      var run := RunRules(env, st, fired, call, user, fuel);
      if run.fault.Some? then Handled(run.st, fired, None, run.fault)
      else if |fired| == 0 then Handled(st, fired, None, None)
      else
        match run.held
        case None => Handled(run.st, fired, None, Some(AttributeError))
        case Some(u) =>
          var stamped := u.(lastActivity := now);
          Users.SaveThenGet(run.st.world.users, stamped, stamped.id);
          Handled(run.st.(world := run.st.world.(users := Users.Save(run.st.world.users, stamped))), fired, Some(stamped), None)
  }

  // ---------------------------------------------------------------------------
  // Properties of a dispatch
  // ---------------------------------------------------------------------------

  /** Collecting over two lists of categories collects over the first,
      then over the second. */
  lemma {:induction false} CollectInOrder(matches: (string, string) -> bool, t: RuleTable, xs: seq<RuleType>, ys: seq<RuleType>, ctx: Context)
    ensures Collect(matches, t, xs + ys, ctx) == Combine(Collect(matches, t, xs, ctx), Collect(matches, t, ys, ctx))
    decreases |xs|
  {
    if |xs| == 0 {
      assert xs + ys == ys;
      var later := Collect(matches, t, ys, ctx);
      if later.Ok? {
        assert [] + later.value == later.value;
      }
    } else {
      assert (xs + ys)[0] == xs[0];
      assert (xs + ys)[1..] == xs[1..] + ys;
      CollectInOrder(matches, t, xs[1..], ys, ctx);
      CombineAssoc(Matching(matches, t.docs, xs[0], ctx), Collect(matches, t, xs[1..], ctx), Collect(matches, t, ys, ctx));
    }
  }

  /** Within one category the rules fire in store order: the documents
      split anywhere give the search split at the same place. */
  lemma {:induction false} MatchingInStoreOrder(matches: (string, string) -> bool, xs: seq<Doc<RuleEntry>>, ys: seq<Doc<RuleEntry>>, kind: RuleType, ctx: Context)
    ensures Matching(matches, xs + ys, kind, ctx) == Combine(Matching(matches, xs, kind, ctx), Matching(matches, ys, kind, ctx))
    decreases |xs|
  {
    if |xs| == 0 {
      assert xs + ys == ys;
      var later := Matching(matches, ys, kind, ctx);
      if later.Ok? {
        assert [] + later.value == later.value;
      }
    } else {
      assert (xs + ys)[0] == xs[0];
      assert (xs + ys)[1..] == xs[1..] + ys;
      MatchingInStoreOrder(matches, xs[1..], ys, kind, ctx);
      CombineAssoc(Step(matches, xs[0], kind, ctx), Matching(matches, xs[1..], kind, ctx), Matching(matches, ys, kind, ctx));
    }
  }

  /** Running the fired rules runs every linked action of every fired rule,
      each once, rule after rule and in list order within a rule. */
  lemma {:induction false} RulesRunTheirActions(env: Env, st: State, rules: seq<Rule>, call: Call, held: Option<Users.User>, fuel: nat)
    ensures RunRules(env, st, rules, call, held, fuel) == RunActions(env, st, AllActions(rules), call, held, fuel)
    decreases |rules|
  {
    if |rules| > 0 {
      RunInOrder(env, st, rules[0].actions, AllActions(rules[1..]), call, held, fuel);
      var first := RunActions(env, st, rules[0].actions, call, held, fuel);
      if first.fault.None? {
        RulesRunTheirActions(env, first.st, rules[1..], call, first.held, fuel);
      }
    }
  }

  /** With an acting member the record the caller passed is ignored: the
      member's stored record is used instead. */
  lemma MemberRecordIsReloaded(
    env: Env, matches: (string, string) -> bool, rules: RuleTable, st: State,
    kinds: seq<RuleType>, call: Call, a: Option<Users.User>, b: Option<Users.User>,
    reaction: Option<Reaction>, now: int, fuel: nat)
    requires call.member.Some?
    ensures HandleRules(env, matches, rules, st, kinds, call, a, reaction, now, fuel)
         == HandleRules(env, matches, rules, st, kinds, call, b, reaction, now, fuel)
  {
    assert ContextOf(env, st, call, a, reaction, now) == ContextOf(env, st, call, b, reaction, now);
  }

  /** A dispatch whose rules fire runs exactly their actions, in order, and
      then saves the user object it ends with, stamped with the time. */
  lemma FiredRulesRunThenStamp(
    env: Env, matches: (string, string) -> bool, rules: RuleTable, st: State,
    kinds: seq<RuleType>, call: Call, dbUser: Option<Users.User>,
    reaction: Option<Reaction>, now: int, fuel: nat,
    fired: seq<Rule>, st1: State, u: Users.User)
    requires Collect(matches, rules, kinds, ContextOf(env, st, call, dbUser, reaction, now)) == Ok(fired)
    requires |fired| > 0
    requires RunActions(env, st, AllActions(fired), call, Actor(st, call, dbUser), fuel) == Run(st1, Some(u), None)
    ensures HandleRules(env, matches, rules, st, kinds, call, dbUser, reaction, now, fuel)
      == Handled(st1.(world := st1.world.(users := Users.Save(st1.world.users, u.(lastActivity := now)))),
                 fired, Some(u.(lastActivity := now)), None)
  {
    RulesRunTheirActions(env, st, fired, call, Actor(st, call, dbUser), fuel);
  }

  /** A dispatch whose rules fire but that has no user object (an edited
      message has no acting member) runs the actions and then raises. */
  lemma FiredWithoutUserRaises(
    env: Env, matches: (string, string) -> bool, rules: RuleTable, st: State,
    kinds: seq<RuleType>, msg: Message, reaction: Option<Reaction>, now: int, fuel: nat,
    fired: seq<Rule>)
    requires Collect(matches, rules, kinds, ContextOf(env, st, Call(None, None, Some(msg)), None, reaction, now)) == Ok(fired)
    requires |fired| > 0
    requires RunActions(env, st, AllActions(fired), Call(None, None, Some(msg)), None, fuel).fault.None?
    ensures HandleRules(env, matches, rules, st, kinds, Call(None, None, Some(msg)), None, reaction, now, fuel).fault == Some(AttributeError)
  {
    RulesRunTheirActions(env, st, fired, Call(None, None, Some(msg)), None, fuel);
  }

  // ---------------------------------------------------------------------------
  // Events
  // ---------------------------------------------------------------------------

  /** The platform events the bot listens to, reduced to what dispatch reads. */
  datatype Event =
    | MessageSent(msg: Message, author: Member, channel: ChannelRef)
    | MessageEdited(msg: Message, author: Member)
    | ReactionAdded(reaction: Reaction, member: Member)
    | MemberJoined(member: Member)
    | MemberUpdated(before: Member, after: Member)
    | PresenceUpdated(before: Member, after: Member)

  /** One `handle_rules` invocation a listener makes. */
  datatype Invocation = Invocation(kinds: seq<RuleType>, call: Call, reaction: Option<Reaction>)

  /** The member whose immunity a listener consults. */
  function Subject(e: Event): Member {
    match e
    case MessageSent(_, author, _) => author
    case MessageEdited(_, author) => author
    case ReactionAdded(_, m) => m
    case MemberJoined(m) => m
    case MemberUpdated(_, after) => after
    case PresenceUpdated(_, after) => after
  }

  /** The categories each kind of event is checked against. */
  function Categories(e: Event): seq<RuleType> {
    match e
    case MessageSent(_, _, _) => [MessageRule, RoleRule, PointsLessThan, PointsGreaterThan]
    case MessageEdited(_, _) => [MessageRule]
    case ReactionAdded(_, _) => [ReactionRule]
    case MemberJoined(_) => [NameRule]
    case MemberUpdated(_, _) => [NameRule]
    case PresenceUpdated(_, _) => [ActivityRule]
  }

  /** The dispatches a listener makes for an event, in order. Member and
      presence updates dispatch the old member before the new one; a
      presence update dispatches only the sides that have activities. */
  function Invocations(e: Event, immune: Member -> bool): (inv: seq<Invocation>)
    ensures immune(Subject(e)) ==> inv == []
    ensures forall k :: 0 <= k < |inv| ==> inv[k].kinds == Categories(e)
    ensures !immune(Subject(e)) && !e.PresenceUpdated? ==> |inv| == (if e.MemberUpdated? then 2 else 1)
    ensures forall k :: 0 <= k < |inv| ==> inv[k].reaction.Some? == e.ReactionAdded?
    ensures forall k :: 0 <= k < |inv| ==> inv[k].call.member.None? == e.MessageEdited?
    ensures !immune(Subject(e)) && e.PresenceUpdated? ==>
      |inv| == (if |e.before.activities| > 0 then 1 else 0) + (if |e.after.activities| > 0 then 1 else 0)
    ensures e.PresenceUpdated? ==>
      forall k :: 0 <= k < |inv| ==> inv[k].call.member.Some? && |inv[k].call.member.value.activities| > 0
    ensures (e.MemberUpdated? || e.PresenceUpdated?) && |inv| == 2 ==>
      inv[0].call.member == Some(e.before) && inv[1].call.member == Some(e.after)
    ensures e.PresenceUpdated? && |inv| == 1 ==>
      inv[0].call.member == (if |e.before.activities| > 0 then Some(e.before) else Some(e.after))
    ensures e.MessageSent? && |inv| > 0 ==> inv[0].call == Call(Some(e.author), Some(e.channel), Some(e.msg))
    ensures e.MessageEdited? && |inv| > 0 ==> inv[0].call == Call(None, None, Some(e.msg))
    ensures (e.ReactionAdded? || e.MemberJoined?) && |inv| > 0 ==> inv[0].call == Call(Some(e.member), None, None)
    ensures e.ReactionAdded? && |inv| > 0 ==> inv[0].reaction == Some(e.reaction)
  {
    if immune(Subject(e)) then []
    else
      match e
      case MessageSent(msg, author, channel) =>
        [Invocation(Categories(e), Call(Some(author), Some(channel), Some(msg)), None)]
      case MessageEdited(msg, _) =>
        [Invocation(Categories(e), Call(None, None, Some(msg)), None)]
      case ReactionAdded(x, m) =>
        [Invocation(Categories(e), Call(Some(m), None, None), Some(x))]
      case MemberJoined(m) =>
        [Invocation(Categories(e), Call(Some(m), None, None), None)]
      case MemberUpdated(before, after) =>
        [Invocation(Categories(e), Call(Some(before), None, None), None),
         Invocation(Categories(e), Call(Some(after), None, None), None)]
      case PresenceUpdated(before, after) =>
        (if |before.activities| > 0 then [Invocation(Categories(e), Call(Some(before), None, None), None)] else [])
        + (if |after.activities| > 0 then [Invocation(Categories(e), Call(Some(after), None, None), None)] else [])
  }

  /** Running a listener's dispatches one after another; an exception ends
      the listener. */
  function Listen(
    env: Env, matches: (string, string) -> bool, rules: RuleTable, st: State,
    inv: seq<Invocation>, now: int, fuel: nat): (r: (State, Option<Fault>))
    ensures r.0.world.actions == st.world.actions
    ensures |inv| == 0 ==> r == (st, None)
    decreases |inv|
  {
    if |inv| == 0 then (st, None)
    else
      var h := HandleRules(env, matches, rules, st, inv[0].kinds, inv[0].call, None, inv[0].reaction, now, fuel);
      if h.fault.Some? then (h.st, h.fault)
      else Listen(env, matches, rules, h.st, inv[1..], now, fuel)
  }

  /** A presence update in which neither side has an activity dispatches
      nothing and so changes nothing. */
  lemma IdlePresenceChangesNothing(
    env: Env, matches: (string, string) -> bool, rules: RuleTable, st: State,
    before: Member, after: Member, immune: Member -> bool, now: int, fuel: nat)
    requires |before.activities| == 0 && |after.activities| == 0
    ensures Listen(env, matches, rules, st, Invocations(PresenceUpdated(before, after), immune), now, fuel) == (st, None)
  {
  }

  /** An event from an immune member changes nothing. */
  lemma ImmuneChangesNothing(
    env: Env, matches: (string, string) -> bool, rules: RuleTable, st: State,
    e: Event, immune: Member -> bool, now: int, fuel: nat)
    requires immune(Subject(e))
    ensures Listen(env, matches, rules, st, Invocations(e, immune), now, fuel) == (st, None)
  {
  }

  // ---------------------------------------------------------------------------
  // The sweep
  // ---------------------------------------------------------------------------

  /** What the platform says about a stored user who is not on the server:
      the user fetch fails (which is not caught), the user is banned, or
      neither (a failing ban lookup is caught and counts as neither). */
  datatype Absence = FetchFails | Banned | NotBanned

  /** The sweep's view of the platform. */
  datatype Presence = Presence(absence: int -> Absence, isBanned: Member -> bool, immune: Member -> bool)

  const SweepKinds: seq<RuleType> := [LastActivity, PointsGreaterThan, PointsLessThan]

  /** The sweep's handling of one ledger entry. */
  function SweepStep(
    env: Env, matches: (string, string) -> bool, rules: RuleTable, st: State,
    p: Presence, d: Doc<Users.UserEntry>, now: int, fuel: nat): (r: (State, Option<Fault>))
    ensures d.id !in env.guild.members ==>
      match p.absence(d.id)
      case FetchFails => r == (st, Some(NotFound))
      case NotBanned => r == (st, None)
      case Banned => r.1.None? && r.0.world.users == RemoveId(st.world.users, d.id) && !HasId(r.0.world.users, d.id)
    ensures d.id in env.guild.members && p.isBanned(env.guild.members[d.id]) ==>
      r.1.None? && r.0.world.users == RemoveId(st.world.users, d.id) && !HasId(r.0.world.users, d.id)
    ensures d.id in env.guild.members && !p.isBanned(env.guild.members[d.id]) && p.immune(env.guild.members[d.id]) ==>
      r == (st, None)
    ensures r.0.world.actions == st.world.actions
  {
    var removed := st.(world := st.world.(users := RemoveId(st.world.users, d.id)));
    if d.id !in env.guild.members then
      match p.absence(d.id)
      case FetchFails => (st, Some(NotFound))
      case NotBanned => (st, None)
      case Banned => (removed, None)
    else
      var m := env.guild.members[d.id];
      if p.isBanned(m) then (removed, None)
      else if p.immune(m) then (st, None)
      else
        var h := HandleRules(env, matches, rules, st, SweepKinds, Call(Some(m), None, None),
                             Some(Users.FromEntry(d.id, d.body)), None, now, fuel);
        (h.st, h.fault)
  }

  /** A present member who is neither banned nor immune is dispatched with
      the three time- and balance-based categories. */
  lemma SweepDispatchesPresent(
    env: Env, matches: (string, string) -> bool, rules: RuleTable, st: State,
    p: Presence, d: Doc<Users.UserEntry>, now: int, fuel: nat)
    requires d.id in env.guild.members
    requires !p.isBanned(env.guild.members[d.id]) && !p.immune(env.guild.members[d.id])
    ensures var h := HandleRules(env, matches, rules, st, [LastActivity, PointsGreaterThan, PointsLessThan],
                                 Call(Some(env.guild.members[d.id]), None, None), None, None, now, fuel);
      SweepStep(env, matches, rules, st, p, d, now, fuel) == (h.st, h.fault)
  {
    MemberRecordIsReloaded(env, matches, rules, st, SweepKinds, Call(Some(env.guild.members[d.id]), None, None),
      Some(Users.FromEntry(d.id, d.body)), None, None, now, fuel);
  }

  /** One pass of the sweep over the ledger as it was when the pass began;
      an exception ends the pass (and the sweeper). */
  function Sweep(
    env: Env, matches: (string, string) -> bool, rules: RuleTable, st: State,
    p: Presence, entries: seq<Doc<Users.UserEntry>>, now: int, fuel: nat): (r: (State, Option<Fault>))
    ensures r.0.world.actions == st.world.actions
    ensures |entries| == 0 ==> r == (st, None)
    decreases |entries|
  {
    if |entries| == 0 then (st, None)
    else
      var (st1, fault) := SweepStep(env, matches, rules, st, p, entries[0], now, fuel);
      if fault.Some? then (st1, fault)
      else Sweep(env, matches, rules, st1, p, entries[1..], now, fuel)
  }

  /** One iteration of the sweeper loop: a pass over a snapshot of the
      ledger taken before any entry is handled. */
  function SweepOnce(
    env: Env, matches: (string, string) -> bool, rules: RuleTable, st: State,
    p: Presence, now: int, fuel: nat): (r: (State, Option<Fault>))
    ensures r.0.world.actions == st.world.actions
  {
    Sweep(env, matches, rules, st, p, st.world.users.docs, now, fuel)
  }

  /** A pass over two runs of entries handles the first run, then the
      second from where the first left off, unless the first raised. */
  lemma {:induction false} SweepInOrder(
    env: Env, matches: (string, string) -> bool, rules: RuleTable, st: State,
    p: Presence, xs: seq<Doc<Users.UserEntry>>, ys: seq<Doc<Users.UserEntry>>, now: int, fuel: nat)
    ensures var first := Sweep(env, matches, rules, st, p, xs, now, fuel);
      Sweep(env, matches, rules, st, p, xs + ys, now, fuel)
        == if first.1.Some? then first else Sweep(env, matches, rules, first.0, p, ys, now, fuel)
    decreases |xs|
  {
    if |xs| == 0 {
      assert xs + ys == ys;
    } else {
      assert (xs + ys)[0] == xs[0];
      assert (xs + ys)[1..] == xs[1..] + ys;
      var step := SweepStep(env, matches, rules, st, p, xs[0], now, fuel);
      if step.1.None? {
        SweepInOrder(env, matches, rules, step.0, p, xs[1..], ys, now, fuel);
      }
    }
  }
}
