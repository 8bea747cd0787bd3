/** Rule records: the eight categories of condition, their construction
    from the string tags the bot is given, their storage, and the condition
    check each category performs against an event.

    Pattern search is the uninterpreted `matches(pattern, text)`, and time is
    an integer number of seconds on an abstract clock. */
module Rules {
  import opened Wrappers
  import opened Text
  import opened DocStore
  import opened Platform
  import Utils
  import Users

  datatype RuleType =
    | MessageRule | ActivityRule | ReactionRule | NameRule
    | PointsLessThan | PointsGreaterThan | RoleRule | LastActivity

  /** The string each category is stored and typed as. */
  function Tag(t: RuleType): string {
    match t
    case MessageRule => "message"
    case ActivityRule => "activity"
    case ReactionRule => "reaction"
    case NameRule => "name"
    case PointsLessThan => "less points"
    case PointsGreaterThan => "more points"
    case RoleRule => "role"
    case LastActivity => "last activity"
  }

  /** `RuleType(s)`: the category whose tag is `s`, or none (a ValueError). */
  function ParseType(s: string): (r: Option<RuleType>)
    ensures r.Some? ==> Tag(r.value) == s
  {
    if s == "message" then Some(MessageRule)
    else if s == "activity" then Some(ActivityRule)
    else if s == "reaction" then Some(ReactionRule)
    else if s == "name" then Some(NameRule)
    else if s == "less points" then Some(PointsLessThan)
    else if s == "more points" then Some(PointsGreaterThan)
    else if s == "role" then Some(RoleRule)
    else if s == "last activity" then Some(LastActivity)
    else None
  }

  /** A string is accepted exactly when it is one of the eight tags, and it
      then names that category. */
  lemma ParseTypeExact(s: string, t: RuleType)
    ensures ParseType(s) == Some(t) <==> Tag(t) == s
    ensures ParseType(s).None? <==> forall k: RuleType :: Tag(k) != s
  {
    if ParseType(s).None? {
      forall k: RuleType ensures Tag(k) != s {
        match k
        case MessageRule => case ActivityRule => case ReactionRule => case NameRule =>
        case PointsLessThan => case PointsGreaterThan => case RoleRule => case LastActivity =>
      }
    }
  }

  /** A rule. Its `public` flag keeps whatever scalar it was given, except
      that a string is turned into its truth value. */
  datatype Rule = Rule(
    id: Option<int>,
    kind: RuleType,
    regexes: seq<string>,
    actions: seq<int>,
    public: Scalar)

  /** What the store holds for a rule besides the id. */
  datatype RuleEntry = RuleEntry(
    kind: string,
    regexes: seq<string>,
    actions: seq<int>,
    public: Option<Scalar>)

  type RuleTable = Table<RuleEntry>

  /** The constructor's treatment of the public flag: a string becomes its
      truth value and anything else, absence included, is kept as given. */
  function CoercePublic(p: Scalar): (q: Scalar)
    ensures p.SText? ==> q == SBool(p.s != "")
    ensures !p.SText? ==> q == p
    ensures !q.SText?
  {
    match p
    case SText(s) => SBool(s != "")
    case _ => p
  }

  /** The constructor: an unknown tag raises; absent pattern and action
      lists become empty lists. */
  function NewRule(
    kind: string,
    id: Option<int>,
    regexes: Option<seq<string>>,
    actions: Option<seq<int>>,
    public: Scalar): (r: Result<Rule>)
    ensures r.Err? <==> ParseType(kind).None?
    ensures r.Err? ==> r.fault == ValueError
    ensures r.Ok? ==>
      && Tag(r.value.kind) == kind
      && r.value.id == id
      && r.value.regexes == (if regexes.Some? then regexes.value else [])
      && r.value.actions == (if actions.Some? then actions.value else [])
      && r.value.public == CoercePublic(public)
  {
    match ParseType(kind)
    case None => Err(ValueError)
    case Some(t) =>
      Ok(Rule(id, t,
        if regexes.Some? then regexes.value else [],
        if actions.Some? then actions.value else [],
        CoercePublic(public)))
  }

  /** Loading a stored rule; a record without a public field gets the
      constructor's default, false. */
  function FromEntry(id: int, e: RuleEntry): (r: Result<Rule>)
    ensures r.Err? <==> ParseType(e.kind).None?
    ensures r.Ok? ==>
      && r.value.id == Some(id)
      && Tag(r.value.kind) == e.kind
      && r.value.regexes == e.regexes
      && r.value.actions == e.actions
      && (e.public.None? ==> r.value.public == SBool(false))
      && (e.public.Some? ==> r.value.public == CoercePublic(e.public.value))
  {
    match e.public
    case Some(p) => NewRule(e.kind, Some(id), Some(e.regexes), Some(e.actions), p)
    case None => NewRule(e.kind, Some(id), Some(e.regexes), Some(e.actions), SBool(false))
  }

  /** The record `save` writes. */
  function ToEntry(r: Rule): RuleEntry {
    RuleEntry(Tag(r.kind), r.regexes, r.actions, Some(r.public))
  }

  /** A rule as the constructor leaves it never holds a string flag. */
  predicate Constructed(r: Rule) {
    !r.public.SText?
  }

  /** Loading what `save` wrote gives the rule back. */
  lemma EntryRoundTrip(r: Rule, id: int)
    requires Constructed(r)
    ensures FromEntry(id, ToEntry(r)) == Ok(r.(id := Some(id)))
  {
    ParseTypeExact(Tag(r.kind), r.kind);
  }

  /** `get_by_id`: the first stored rule with this id, none, or the
      ValueError of a stored unknown tag. */
  function GetById(t: RuleTable, id: int): (r: Result<Option<Rule>>)
    ensures r == Ok(None) <==> !HasId(t, id)
    ensures r.Ok? && r.value.Some? ==> r.value.value.id == Some(id)
  {
    match Find(t, id)
    case None => Ok(None)
    case Some(e) =>
      var rule :- FromEntry(id, e);
      Ok(Some(rule))
  }

  /** `save`: a rule without an id is inserted and takes the new document
      id as its id; a rule with an id is upserted on it. */
  function Save(t: RuleTable, r: Rule): (res: (RuleTable, Rule))
    ensures r.id.None? ==> res.1 == r.(id := Some(t.nextDocId)) && res.0 == InsertOwnId(t, ToEntry(r))
    ensures r.id.Some? ==> res.1 == r && res.0 == Upsert(t, r.id.value, ToEntry(r))
  {
    match r.id
    case None => (InsertOwnId(t, ToEntry(r)), r.(id := Some(t.nextDocId)))
    case Some(id) => (Upsert(t, id, ToEntry(r)), r)
  }

  /** A saved rule reads back equal under its (possibly new) id. */
  lemma SaveThenGet(t: RuleTable, r: Rule)
    requires WellFormed(t) && OwnIds(t)
    requires Constructed(r)
    ensures var (t', r') := Save(t, r);
      && r'.id.Some?
      && GetById(t', r'.id.value) == Ok(Some(r'))
      && (r.id.None? ==> r'.id == Some(t.nextDocId))
      && (r.id.None? || HasId(t, r.id.value) ==> WellFormed(t') && OwnIds(t'))
  {
    var (t', r') := Save(t, r);
    var id := r'.id.value;
    if r.id.None? {
      NextIdIsFresh(t);
      assert Upsert(t, t.nextDocId, ToEntry(r)) == t';
    }
    UpsertThenFind(t, id, ToEntry(r));
    EntryRoundTrip(r, id);
    OwnIdsKept(t, id, ToEntry(r));
  }

  // ---------------------------------------------------------------------------
  // The condition check
  // ---------------------------------------------------------------------------

  /** What `check` can look at: the server, the acting member, the acting
      user's record, the message, the reaction and the clock reading. Any of
      the event objects may be absent. */
  datatype Context = Context(
    guild: Guild,
    member: Option<Member>,
    user: Option<Users.User>,
    message: Option<Message>,
    reaction: Option<Reaction>,
    now: int)

  const SecondsPerDay: int := 86400

  /** Some pattern of the list is found in `text`. */
  predicate AnyMatch(matches: (string, string) -> bool, patterns: seq<string>, text: string) {
    exists i | 0 <= i < |patterns| :: matches(patterns[i], text)
  }

  /** Some pattern of the list is found in some of the texts. */
  predicate AnyMatchIn(matches: (string, string) -> bool, patterns: seq<string>, texts: seq<string>) {
    exists j | 0 <= j < |texts| :: AnyMatch(matches, patterns, texts[j])
  }

  /** A music activity is searched in its title and artist, any other
      activity in its name. */
  predicate ActivityMatches(matches: (string, string) -> bool, pattern: string, a: Activity) {
    match a
    case Spotify(title, artist) => matches(pattern, title) || matches(pattern, artist)
    case Other(name) => matches(pattern, name)
  }

  /** How a reaction emoji is compared with a pattern: a unicode emoji by
      plain equality, a server emoji by its id's digits occurring in the
      pattern; a partial emoji never matches. */
  predicate EmojiMatches(e: Emoji, pattern: string) {
    match e
    case Unicode(text) => text == pattern
    case Custom(id) => Contains(pattern, IntToString(id))
    case PartialCustom(_) => false
  }

  /** `MESSAGE`: the content or an attachment's file name matches some
      pattern. The attachments are read even with no patterns, so an event
      without a message raises. */
  function CheckMessage(matches: (string, string) -> bool, r: Rule, ctx: Context): (res: Result<bool>)
    ensures ctx.message.None? ==> res == Err(AttributeError)
    ensures ctx.message.Some? ==> res.Ok?
    ensures res == Ok(true) <==>
      && ctx.message.Some?
      && ((exists i | 0 <= i < |r.regexes| :: matches(r.regexes[i], ctx.message.value.content))
          || (exists j, i | 0 <= j < |ctx.message.value.attachments| && 0 <= i < |r.regexes| ::
                matches(r.regexes[i], ctx.message.value.attachments[j])))
  {
    match ctx.message
    case None => Err(AttributeError)
    case Some(m) =>
      Ok(AnyMatch(matches, r.regexes, m.content) || AnyMatchIn(matches, r.regexes, m.attachments))
  }

  /** `ACTIVITY`: some pattern is found in some of the member's activities. */
  function CheckActivity(matches: (string, string) -> bool, r: Rule, ctx: Context): (res: Result<bool>)
    ensures |r.regexes| == 0 ==> res == Ok(false)
    ensures res.Err? <==> |r.regexes| > 0 && ctx.member.None?
    ensures res.Err? ==> res.fault == AttributeError
    ensures res == Ok(true) <==>
      && ctx.member.Some?
      && exists i, k | 0 <= i < |r.regexes| && 0 <= k < |ctx.member.value.activities| ::
           ActivityMatches(matches, r.regexes[i], ctx.member.value.activities[k])
  {
    if |r.regexes| == 0 then Ok(false)
    else
      match ctx.member
      case None => Err(AttributeError)
      case Some(m) =>
        Ok(exists i, k | 0 <= i < |r.regexes| && 0 <= k < |m.activities| ::
             ActivityMatches(matches, r.regexes[i], m.activities[k]))
  }

  /** `REACTION`: the emoji matches some pattern. */
  function CheckReaction(r: Rule, ctx: Context): (res: Result<bool>)
    ensures |r.regexes| == 0 ==> res == Ok(false)
    ensures res.Err? <==> |r.regexes| > 0 && ctx.reaction.None?
    ensures res.Err? ==> res.fault == AttributeError
    ensures res == Ok(true) <==>
      && ctx.reaction.Some?
      && exists i | 0 <= i < |r.regexes| :: EmojiMatches(ctx.reaction.value.emoji, r.regexes[i])
  {
    if |r.regexes| == 0 then Ok(false)
    else
      match ctx.reaction
      case None => Err(AttributeError)
      case Some(x) => Ok(exists i | 0 <= i < |r.regexes| :: EmojiMatches(x.emoji, r.regexes[i]))
  }

  /** `NAME`: some pattern is found in the member's display name. */
  function CheckName(matches: (string, string) -> bool, r: Rule, ctx: Context): (res: Result<bool>)
    ensures |r.regexes| == 0 ==> res == Ok(false)
    ensures res.Err? <==> |r.regexes| > 0 && ctx.member.None?
    ensures res == Ok(true) <==>
      ctx.member.Some? && exists i | 0 <= i < |r.regexes| :: matches(r.regexes[i], ctx.member.value.displayName)
  {
    if |r.regexes| == 0 then Ok(false)
    else
      match ctx.member
      case None => Err(AttributeError)
      case Some(m) => Ok(AnyMatch(matches, r.regexes, m.displayName))
  }

  /** `POINTS_LESS_THAN`: a strict comparison with `regexes[0]`; with no
      stored user the rule does not fire and the bound is not even read. */
  function CheckPointsLess(r: Rule, ctx: Context): (res: Result<bool>)
    ensures |r.regexes| == 0 || ctx.user.None? ==> res == Ok(false)
    ensures |r.regexes| > 0 && ctx.user.Some? ==>
      (if ParseInt(r.regexes[0]).None? then res == Err(ValueError)
       else res == Ok(ctx.user.value.points < ParseInt(r.regexes[0]).value))
  {
    if |r.regexes| == 0 then Ok(false)
    else
      match ctx.user
      case None => Ok(false)
      case Some(u) =>
        var bound :- ToInt(r.regexes[0]);
        Ok(u.points < bound)
  }

  /** `POINTS_GREATER_THAN`: a strict comparison with `regexes[0]`; the
      user's balance is read first, so no stored user raises. */
  function CheckPointsGreater(r: Rule, ctx: Context): (res: Result<bool>)
    ensures |r.regexes| == 0 ==> res == Ok(false)
    ensures |r.regexes| > 0 && ctx.user.None? ==> res == Err(AttributeError)
    ensures |r.regexes| > 0 && ctx.user.Some? ==>
      (if ParseInt(r.regexes[0]).None? then res == Err(ValueError)
       else res == Ok(ctx.user.value.points > ParseInt(r.regexes[0]).value))
  {
    if |r.regexes| == 0 then Ok(false)
    else
      match ctx.user
      case None => Err(AttributeError)
      case Some(u) =>
        var bound :- ToInt(r.regexes[0]);
        Ok(u.points > bound)
  }

  /** `ROLE`: the member holds the role mentioned in `regexes[0]` and, when
      there are further patterns, the message content matches one of them.
      An unknown role only raises once a held role is compared with it. */
  function CheckRole(matches: (string, string) -> bool, r: Rule, ctx: Context): (res: Result<bool>)
    ensures |r.regexes| == 0 ==> res == Ok(false)
    ensures |r.regexes| > 0 && ctx.member.None? ==> res == Err(AttributeError)
    ensures res == Ok(true) <==>
      && |r.regexes| > 0 && ctx.member.Some?
      && Utils.RoleFromMention(ctx.guild, r.regexes[0]).Ok?
      && Utils.RoleFromMention(ctx.guild, r.regexes[0]).value.Some?
      && (exists k | 0 <= k < |ctx.member.value.roles| ::
            ctx.member.value.roles[k].id == Utils.RoleFromMention(ctx.guild, r.regexes[0]).value.value.id)
      && (|r.regexes| > 1 ==>
            ctx.message.Some?
            && exists i | 1 <= i < |r.regexes| :: matches(r.regexes[i], ctx.message.value.content))
  {
    if |r.regexes| == 0 then Ok(false)
    else
      match ctx.member
      case None => Err(AttributeError)
      case Some(m) =>
        var role :- Utils.RoleFromMention(ctx.guild, r.regexes[0]);
        if |m.roles| == 0 then Ok(false)
        else
          match role
          case None => Err(AttributeError)
          case Some(target) =>
            if !exists k | 0 <= k < |m.roles| :: m.roles[k].id == target.id then Ok(false)
            else if |r.regexes| == 1 then Ok(true)
            else
              match ctx.message
              case None => Err(AttributeError)
              case Some(msg) => Ok(AnyMatch(matches, r.regexes[1..], msg.content))
  }

  /** `LAST_ACTIVITY`: only the seconds-within-a-day part of the time since
      the user's last activity is compared with `regexes[0]` minutes. */
  function CheckLastActivity(r: Rule, ctx: Context): (res: Result<bool>)
    ensures |r.regexes| == 0 ==> res == Ok(false)
    ensures |r.regexes| > 0 && ctx.user.None? ==> res == Err(AttributeError)
    ensures |r.regexes| > 0 && ctx.user.Some? ==>
      (if ParseInt(r.regexes[0]).None? then res == Err(ValueError)
       else res == Ok((ctx.now - ctx.user.value.lastActivity) % SecondsPerDay > ParseInt(r.regexes[0]).value * 60))
  {
    if |r.regexes| == 0 then Ok(false)
    else
      match ctx.user
      case None => Err(AttributeError)
      case Some(u) =>
        var minutes :- ToInt(r.regexes[0]);
        Ok((ctx.now - u.lastActivity) % SecondsPerDay > minutes * 60)
  }

  /** `rule.check(...)`. */
  function Check(matches: (string, string) -> bool, r: Rule, ctx: Context): (res: Result<bool>)
    ensures r.kind == MessageRule ==> res == CheckMessage(matches, r, ctx)
    ensures r.kind == ActivityRule ==> res == CheckActivity(matches, r, ctx)
    ensures r.kind == ReactionRule ==> res == CheckReaction(r, ctx)
    ensures r.kind == NameRule ==> res == CheckName(matches, r, ctx)
    ensures r.kind == PointsLessThan ==> res == CheckPointsLess(r, ctx)
    ensures r.kind == PointsGreaterThan ==> res == CheckPointsGreater(r, ctx)
    ensures r.kind == RoleRule ==> res == CheckRole(matches, r, ctx)
    ensures r.kind == LastActivity ==> res == CheckLastActivity(r, ctx)
  {
    match r.kind
    case MessageRule => CheckMessage(matches, r, ctx)
    case ActivityRule => CheckActivity(matches, r, ctx)
    case ReactionRule => CheckReaction(r, ctx)
    case NameRule => CheckName(matches, r, ctx)
    case PointsLessThan => CheckPointsLess(r, ctx)
    case PointsGreaterThan => CheckPointsGreater(r, ctx)
    case RoleRule => CheckRole(matches, r, ctx)
    case LastActivity => CheckLastActivity(r, ctx)
  }

  // ---------------------------------------------------------------------------
  // Properties of the check
  // ---------------------------------------------------------------------------

  /** The exception `check` raises, stated per category from what the
      event lacks and which bound fails to parse: an absent message, member,
      reaction or stored user is an attribute read on `None`, and a bound
      or role mention that is not an integer fails `int()`. */
  function Raises(r: Rule, ctx: Context): (e: Option<Fault>)
    ensures e.Some? ==> e.value == AttributeError || e.value == ValueError
  {
    var some := |r.regexes| > 0;
    var badBound := some && ParseInt(r.regexes[0]).None?;
    match r.kind
    case MessageRule => if ctx.message.None? then Some(AttributeError) else None
    case ActivityRule => if some && ctx.member.None? then Some(AttributeError) else None
    case NameRule => if some && ctx.member.None? then Some(AttributeError) else None
    case ReactionRule => if some && ctx.reaction.None? then Some(AttributeError) else None
    case PointsLessThan => if ctx.user.Some? && badBound then Some(ValueError) else None
    case PointsGreaterThan =>
      if some && ctx.user.None? then Some(AttributeError) else if badBound then Some(ValueError) else None
    case LastActivity =>
      if some && ctx.user.None? then Some(AttributeError) else if badBound then Some(ValueError) else None
    case RoleRule =>
      if !some then None
      else if ctx.member.None? then Some(AttributeError)
      else
        var id := ParseInt(Strip(r.regexes[0], 3));
        if id.None? then Some(ValueError)
        else if |ctx.member.value.roles| == 0 then None
        else if forall i | 0 <= i < |ctx.guild.roles| :: ctx.guild.roles[i].id != id.value then Some(AttributeError)
        else if forall k | 0 <= k < |ctx.member.value.roles| :: ctx.member.value.roles[k].id != id.value then None
        else if |r.regexes| > 1 && ctx.message.None? then Some(AttributeError)
        else None
  }

  /** `check` raises exactly when the event lacks what the rule's category
      reads or a bound does not parse, and then with that exception. */
  lemma CheckRaises(matches: (string, string) -> bool, r: Rule, ctx: Context)
    ensures Check(matches, r, ctx).Err? <==> Raises(r, ctx).Some?
    ensures Check(matches, r, ctx).Err? ==> Raises(r, ctx) == Some(Check(matches, r, ctx).fault)
  {
    if r.kind == RoleRule && |r.regexes| > 0 && ctx.member.Some? {
      var mention := Utils.RoleFromMention(ctx.guild, r.regexes[0]);
      if mention.Ok? && mention.value.Some? {
        assert mention.value.value in ctx.guild.roles;
      }
    }
  }

  /** With no patterns no rule fires; the one exception is a message rule
      checked without a message, which raises. */
  lemma NoPatternsNeverFire(matches: (string, string) -> bool, r: Rule, ctx: Context)
    requires |r.regexes| == 0
    ensures Check(matches, r, ctx) != Ok(true)
    ensures !(r.kind == MessageRule && ctx.message.None?) ==> Check(matches, r, ctx) == Ok(false)
  {
  }

  /** The last-activity rule fires exactly when the time since the last
      activity, taken modulo a day, exceeds the bound; a bound of a day or
      more never fires, however long the user has been away. */
  lemma LastActivityWithinDay(matches: (string, string) -> bool, r: Rule, ctx: Context, u: Users.User, minutes: int)
    requires r.kind == LastActivity && |r.regexes| > 0
    requires ctx.user == Some(u) && ParseInt(r.regexes[0]) == Some(minutes)
    ensures Check(matches, r, ctx) == Ok(true) <==> (ctx.now - u.lastActivity) % 86400 > 60 * minutes
    ensures minutes >= 1440 ==> Check(matches, r, ctx) == Ok(false)
  {
  }

  /** A unicode reaction fires the rule exactly when it equals one of the
      patterns verbatim; a server emoji fires it when its id's digits occur
      in one of them. */
  lemma ReactionComparison(matches: (string, string) -> bool, r: Rule, ctx: Context, e: Emoji, count: nat)
    requires r.kind == ReactionRule && ctx.reaction == Some(Reaction(e, count))
    ensures e.Unicode? ==> (Check(matches, r, ctx) == Ok(true) <==> e.text in r.regexes)
    ensures e.Custom? ==>
      (Check(matches, r, ctx) == Ok(true) <==>
         exists i | 0 <= i < |r.regexes| :: Contains(r.regexes[i], IntToString(e.id)))
    ensures e.PartialCustom? ==> Check(matches, r, ctx) != Ok(true)
  {
    if e.Unicode? && e.text in r.regexes {
      var i :| 0 <= i < |r.regexes| && r.regexes[i] == e.text;
      assert EmojiMatches(e, r.regexes[i]);
    }
  }
}
