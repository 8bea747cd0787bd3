# lajter rule and action engine, in Dafny

This project models the core of *lajter*, a Discord moderation and points
bot. It covers:

- the **action** engine: twelve kinds of administrator-defined effects,
  their stored form, their textual descriptions and their execution;
- the **rule** engine: eight categories of trigger, the check that decides
  whether a rule fires, and the dispatch that runs the actions of the
  rules that fire;
- the **points ledger**: per-message credit, reading a balance, giving
  points, and the leaderboard;
- the administration commands for rules and actions, and the rule vote.

The document store (TinyDB) is modelled as a table: a list of documents in
insertion order, each with a document id, a record id and a body, plus the
next document id to hand out; that counter is the store's counter within
one run of the bot, during which a document id is not reused. `upsert`
rewrites every document with the record id, or inserts one when there is
none. Removing a document id that is not present raises. Python exceptions
are `Result` values with a `Fault` (`ValueError`, `IndexError`,
`AttributeError`, `NotFound`, `RecursionError`, `OverflowError`).

The platform is a parameter `Env`. It supplies:

- the server's roles and members;
- the configured default channel and ban role;
- which strings `float()` accepts;
- the reactions each poll collects;
- each random draw;
- whether the current time plus a poll's wait is still a date the
  interpreter can represent (`deadlineFits`).

Executed effects (messages sent, roles given, polls opened and closed,
logged exceptions) are appended to a trace. Each execution of an action
first records a `Ran(id)` marker, which makes the order of executions
visible in the trace. Regular-expression search is a parameter
`matches(pattern, text)`. The interpreter's recursion limit is a fuel
budget: when a nested execution exhausts it, the execution raises
`RecursionError`.

Modules (one per file):

| module | what it holds |
|---|---|
| `Wrappers` | `Option`, `Result`, `Fault` |
| `Text` | `int()` / `str()` for integers, slicing, `repr`, concatenation |
| `DocStore` | the document table and its operations |
| `Platform` | members, roles, activities, emoji, reactions, messages, the server |
| `Users` | `user.py` |
| `Utils` | `utils.py` |
| `Actions` | `action.py` data: kinds, constructor, load, save |
| `ActionText` | `Action.to_string` |
| `ActionExec` | `Action.execute` |
| `ActionExecProps` | properties of execution |
| `Rules` | `rule.py` data and `Rule.check` |
| `RuleText` | `Rule.to_string` |
| `RuleExec` | `Rule.execute` |
| `Dispatch` | `handle_rules`, the listeners and the inactivity sweep of `cogs/rules.py` |
| `Voting` | the thumbs-up / thumbs-down tally |
| `RuleCommands` | the rule commands of `cogs/rules.py` |
| `ActionCommands` | `cogs/actions.py` |
| `Points` | `cogs/points.py` commands and per-message credit |
| `Leaderboard` | the `top` command |

Three behaviours of the code are easy to miss, and the model keeps them:

- **A chain stops at its first bad link.** An unresolvable link in a
  chain is not skipped: resolving it raises inside the chain's `try`, so
  the exception is logged and the rest of the chain does not run.
- **A missing action aborts the dispatch.** An action id a rule links to
  that has no stored action is not a silent no-op. `Rule.execute` calls a
  method on `None`, which raises outside any `try` and aborts the whole
  dispatch.
- **Descriptions can raise.** Describing an action or rule whose kind
  reads `value[0]` or `regexes[0]` raises `IndexError` when that list is
  empty.

## Model

| member | source | states |
|---|---|---|
| Users.NewUser | lajter/user.py:20-23 | a new user has balance 0 and the timestamp taken once at load time, shared by every new user |
| Users.GetById | lajter/user.py:4-8 | a user is found exactly when some stored record has that id, and it carries that id |
| Users.SaveThenGet | lajter/user.py:25-33 | after a save the user reads back exactly as saved, and every other user reads back as before |
| Users.SaveKeepsUnique | lajter/user.py:25-33 | saving keeps at most one record per user id and adds a record only for a user not stored yet |
| DocStore.Upsert | lajter/user.py:26-33 | an upsert rewrites the records with that id when there are any, else appends one under the next document id; the id is then present |
| DocStore.UpsertThenFind | lajter/user.py:25-33 | looking up an id after an upsert on it gives the body written |
| DocStore.UpsertKeepsOthers | lajter/user.py:25-33 | an upsert on one id leaves the lookup of every other id unchanged |
| DocStore.RemoveDoc | lajter/cogs/actions.py:69 | removing by document id raises exactly when no document has that id; otherwise exactly the documents with other ids remain |
| DocStore.RemoveId | lajter/action.py:238-250 | removing by record id leaves no record with that id and keeps every other document |
| DocStore.RemoveIdKeepsOthers | lajter/action.py:238-250 | with unique ids, removing one user leaves every other lookup unchanged |
| DocStore.InsertOwnId | lajter/action.py:85-103 | a new record is appended under the next document id and carries that id as its own; in a table of own-id records it keeps ids increasing and own, is found under the new id, and every other lookup is as before |
| Text.Repr | lajter/rule.py:109-123 | a pattern is shown in the quote the interpreter picks, with every non-printable character escaped, so the shown text is printable throughout |
| Text.JoinerEscaped | lajter/rule.py:109-115 | a zero-width joiner inside a pattern is shown as `\u200d` |
| Text.Strip | lajter/utils.py:15-19 | slicing off a prefix and the last character shortens the string by both, and a string too short gives the empty string |
| Utils.IsAdmin | lajter/utils.py:5-13 | bots count as administrators; anyone else is one exactly when one of their roles has the administrator permission |
| Utils.RoleFromMention | lajter/utils.py:15-16 | the mention minus its first three and last character must parse as an integer, else ValueError; the role found is a server role with that id, and no role means none has it |
| Utils.MemberFromMention | lajter/utils.py:18-19 | the mention minus its first two and last character must parse, else ValueError; the member with that id is returned, and a fetch of a non-member raises |
| Utils.RoleMentionRoundTrip | lajter/utils.py:15-16 | the mention `<@&id>` resolves to a role exactly when the server has one with that id |
| Utils.MemberMentionRoundTrip | lajter/utils.py:18-19 | the mention `<@id>` resolves exactly when the server has that member, and to that member |
| Actions.ParseType | lajter/action.py:44-56 | a parsed kind's tag is the string parsed |
| Actions.ParseTypeExact | lajter/action.py:44-56 | a string parses to a kind exactly when it is that kind's tag, and parsing fails exactly when no tag equals it |
| Actions.NewAction | lajter/action.py:61-83 | an unknown tag raises ValueError; otherwise the action has that kind, absent lists become empty, and `public` is the truth value of what was given |
| Actions.FromEntry | lajter/action.py:27-42 | a stored record loads exactly when its tag is known; it keeps the id and lists, and a missing public field loads as false |
| Actions.EntryRoundTrip | lajter/action.py:85-103 | loading what `save` wrote gives the same action under the stored id |
| Actions.GetById | lajter/action.py:20-24 | no action is found exactly when no record has that id; a found action carries that id |
| Actions.SaveThenGet | lajter/action.py:85-103 | a saved action reads back equal under its id, a new one under the next document id, and saving keeps record id equal to document id |
| Actions.SaveKeepsOneRecord | lajter/action.py:85-103 | saving an action with an id keeps ids unique and adds a record only when the id was not stored |
| ActionText.Render | lajter/action.py:105-177 | describing a kind that reads `value[0]` fails exactly when `value` is empty, and then with IndexError; delete, kick, ban and random always have a description |
| ActionText.RenderRef | lajter/action.py:146-175 | a linked id that is not an integer raises ValueError; an id with no stored action reads as the placeholder |
| ActionText.ChainRendersEachLink | lajter/action.py:167-175 | a chain has a description exactly when every link has one |
| ActionText.ChainJoinsLinks | lajter/action.py:167-175 | a chain's description is its links' descriptions in list order, each followed by ", " |
| ActionText.PollShape | lajter/action.py:146-162 | a poll describes its target, and its linked action and duration only when `value` holds them; it has a description exactly when the linked part has one |
| ActionText.DeleteShape | lajter/action.py:112-115 | a delete mentions a delay exactly when `value` holds one |
| ActionText.RenderFuelMonotone | lajter/action.py:105-177 | more recursion budget never changes a description that already exists |
| ActionExec.Resolve | lajter/action.py:327-338 | a linked id that is not an integer raises ValueError, one with no stored action raises AttributeError, else the action with that id |
| ActionExec.Execute | lajter/action.py:178-343 | an execution never rewrites the trace so far and starts with its own marker, never changes the action store, and leaves a caller without a user object without one |
| ActionExec.Start | lajter/action.py:186-190 | the execution works on the user object handed down, shared with the caller, else on the actor's stored record, else on none; it records its marker and changes no store |
| ActionExec.Finish | lajter/action.py:340-343 | an exception is logged, then the record still referenced is saved, and with no reference the ledger is untouched |
| ActionExec.Body | lajter/action.py:192-338 | every kind's branch extends the trace, never changes the action store, and keeps the caller's object absent when it was |
| ActionExec.PlatformStep | lajter/action.py:194-257 | the platform-only kinds change no store and no user object, only append to the trace; a delete delay or timeout length that `float()` rejects raises ValueError, the timeout before its target is looked up |
| ActionExec.RoleStep | lajter/action.py:207-222 | giving or taking a role changes no store and no user object, only append to the trace |
| ActionExec.AddPointsStep | lajter/action.py:258-265 | with a target nothing the caller holds changes; without a stored record or an amount nothing happens |
| ActionExec.BanStep | lajter/action.py:238-250 | a ban leaves the caller's object as it was and never touches the action store; with no ban role configured, giving it to the resolved target raises AttributeError |
| ActionExec.PlanPoll | lajter/action.py:266-308 | a poll runs in the channel `target[0]` names, else the event's; against the actor unless `target[1]` names someone; its wait is within the representable range; its prompt is the linked action's description |
| ActionExec.PollSeconds | lajter/action.py:279-285 | the poll lasts 300 seconds unless `value[1]` gives the number of seconds |
| ActionExec.PollWait | lajter/action.py:284-287 | the wait raises OverflowError exactly when the seconds fall outside the `timedelta` range or the deadline past the representable dates; otherwise it is the configured seconds |
| ActionExec.PollLinked | lajter/action.py:266-278 | a poll without `value[0]` links no action; otherwise the action `value[0]` names |
| ActionExec.PollStep | lajter/action.py:266-326 | a poll extends the trace and never changes the action store |
| ActionExec.RandomStep | lajter/action.py:327-332 | a random action with no entries does nothing |
| ActionExec.ExecChain | lajter/action.py:333-338 | a chain extends the trace and never changes the action store |
| ActionExec.RunChild | lajter/action.py:327-338 | a nested execution raises exactly when the recursion budget is spent |
| ActionExec.Draw | lajter/action.py:327-332 | a random draw picks a position of the list |
| ActionExecProps.AddPointsCreditsActor | lajter/action.py:258-265 | adding points without a target credits the actor's stored record by the parsed amount, and nobody else's record changes |
| ActionExecProps.AddPointsNeedsRecord | lajter/action.py:189-190 | an actor without a record gets none from adding points |
| ActionExecProps.AddPointsToTargetCreditsNobody | lajter/action.py:258-265 | adding points to a named target credits nobody: every lookup in the ledger is as before |
| ActionExecProps.PollVoteDecides | lajter/action.py:279-326 | a poll announces itself with its wait reduced to within one day and closes as passed exactly when thumbs-up outnumber thumbs-down; on a pass with budget left the linked action runs next, with the poll's target as actor and on the target's stored record when the target is someone else (else on the poll's own record), and the poll keeps the record that run leaves; a failed vote runs nothing |
| ActionExecProps.PollPassesOnPositiveNet | lajter/action.py:266-326 | a poll against the member `target[1]` names, or against the actor, opens and closes about that member with the vote's result, and runs the linked action next exactly on a passed vote |
| ActionExecProps.PollAgainstOtherCreditsTarget | lajter/action.py:318-322 | a passed poll against someone else whose linked action adds points credits the target's stored record and leaves every other record, the actor's included |
| ActionExecProps.AddPointsCreditsHeld | lajter/action.py:258-265 | adding points without a target to a handed-down record credits that record, hands it back and saves it |
| ActionExecProps.RandomRunsDrawnEntry | lajter/action.py:327-332 | a random action runs the action whose id is the drawn entry, right after its own marker |
| ActionExecProps.RandomBadEntryLogged | lajter/action.py:327-332 | a drawn entry that does not resolve is logged and nothing runs |
| ActionExecProps.RandomWithoutChoicesDoesNothing | lajter/action.py:327-332 | a random action with no entries runs nothing |
| ActionExecProps.ChainStopsAtBadHead | lajter/action.py:333-341 | a chain whose first entry does not resolve runs none of its actions; the exception is logged |
| ActionExecProps.ChainRunsHeadFirst | lajter/action.py:333-338 | a chain runs its first entry's action before anything else |
| ActionExecProps.ChainOfOne | lajter/action.py:333-338 | a chain of one entry is that entry run as a nested execution |
| ActionExecProps.BanDeletesActorRecord | lajter/action.py:238-250 | a ban deletes the actor's ledger record whoever received the ban role, announces the actor's balance, and leaves every other record |
| ActionExecProps.PollOverflowLogged | lajter/action.py:279-287 | a poll whose wait overflows logs OverflowError before any poll is announced and leaves the ledger as it was |
| ActionExecProps.BanWithoutRoleLogged | lajter/action.py:238-250 | a ban with no ban role configured logs AttributeError once the target is resolved and leaves the ledger as it was |
| ActionExecProps.NonNumericDelayLogged | lajter/action.py:202-229 | a delete or timeout whose delay `float()` rejects logs ValueError and leaves the ledger as it was |
| ActionExecProps.BanKeepsCallerObject | lajter/action.py:238-250 | a ban hands the caller's user object back untouched |
| ActionExecProps.BanInsideChainIsUndone | lajter/action.py:238-250 | a ban run inside a chain that holds the actor's record does not stick: the chain saves the record back |
| Rules.ParseTypeExact | lajter/rule.py:43-51 | a string parses to a category exactly when it is that category's tag |
| Rules.CoercePublic | lajter/rule.py:57-80 | a string public flag becomes its truth value; anything else is kept as given |
| Rules.NewRule | lajter/rule.py:57-80 | an unknown tag raises ValueError; otherwise absent lists become empty and the flag is coerced |
| Rules.FromEntry | lajter/rule.py:24-39 | a stored rule loads exactly when its tag is known, keeps id and lists, and a missing flag loads as false |
| Rules.EntryRoundTrip | lajter/rule.py:82-100 | loading what `save` wrote gives the rule back under the stored id |
| Rules.GetById | lajter/rule.py:17-21 | no rule is found exactly when no record has that id |
| Rules.SaveThenGet | lajter/rule.py:82-100 | a saved rule reads back equal under its id, a new one under the next document id |
| Rules.CheckMessage | lajter/rule.py:146-153 | without a message the check raises; it fires exactly when some pattern matches the content or an attachment name |
| Rules.CheckActivity | lajter/rule.py:154-163 | it fires exactly when some pattern matches some activity (a song's title or artist, otherwise the name); patterns without a member raise |
| Rules.CheckReaction | lajter/rule.py:164-169 | it fires exactly when the emoji matches some pattern; patterns without a reaction raise |
| Rules.CheckName | lajter/rule.py:170-173 | it fires exactly when some pattern matches the display name |
| Rules.CheckPointsLess | lajter/rule.py:174-177 | with a stored user it fires exactly when the balance is strictly below the bound, a non-integer bound raises; without a user it does not fire |
| Rules.CheckPointsGreater | lajter/rule.py:178-181 | it fires exactly when the balance is strictly above the bound; no stored user raises |
| Rules.CheckRole | lajter/rule.py:182-193 | it fires exactly when the member holds the mentioned role and, with further patterns, the message matches one of them |
| Rules.CheckLastActivity | lajter/rule.py:194-199 | it fires exactly when the time since the last activity, taken within one day, exceeds the bound in minutes |
| Rules.CheckRaises | lajter/rule.py:136-201 | the check raises exactly when the event lacks what the category reads (message, member, reaction, stored user, a compared role or the message after a held role) or a bound or role mention is not an integer, and only ever AttributeError or ValueError |
| Rules.NoPatternsNeverFire | lajter/rule.py:136-201 | a rule without patterns never fires, and only a message rule without a message raises |
| Rules.LastActivityWithinDay | lajter/rule.py:194-199 | a bound of a day or more never fires, however long the user was away |
| Rules.ReactionComparison | lajter/rule.py:164-169 | a unicode emoji fires exactly when it equals a pattern; a server emoji fires when its id occurs in a pattern; a partial emoji never fires |
| RuleText.Condition | lajter/rule.py:102-128 | the condition fails with IndexError exactly for the categories that read `regexes[0]` when it is empty; a "more points" rule gets no condition |
| RuleText.ConditionFixed | lajter/rule.py:116-119 | with the second comparison case reaching "more points", such a rule is described with its bound; every other category as written |
| RuleText.GreaterThanHasNoCondition | lajter/rule.py:116-119 | a "more points" rule is described as a bare line break, where the intended condition names the bound |
| RuleText.Piece | lajter/rule.py:129-132 | a linked id with no stored action contributes nothing |
| RuleText.LinkedOkIffPieces | lajter/rule.py:129-132 | the linked part exists exactly when every linked action that exists has a description |
| RuleText.LinkedJoinsPieces | lajter/rule.py:129-132 | the linked part is each existing action's description followed by "; ", in list order |
| RuleText.MissingLinkIsSkipped | lajter/rule.py:129-132 | linking a missing action leaves the description unchanged |
| RuleText.Render | lajter/rule.py:102-134 | a description ends with a line break and, when ids are printed, starts with the id prefix |
| RuleExec.RunActions | lajter/rule.py:203-213 | the loop completes exactly when every linked id names a stored action with a known kind; otherwise it raises ValueError or AttributeError |
| RuleExec.RunOne | lajter/rule.py:203-213 | one linked action runs exactly as the action's own execution |
| RuleExec.RunInOrder | lajter/rule.py:203-213 | running two lists of ids runs the first, then the second from where the first left off unless it raised |
| Dispatch.Matching | lajter/cogs/rules.py:38-41 | every rule found has the category and fires |
| Dispatch.MatchingComplete | lajter/cogs/rules.py:38-41 | a search succeeds exactly when no check of the category raises, and then it finds every document of the category whose rule fires |
| Dispatch.Collect | lajter/cogs/rules.py:38-41 | every rule collected has one of the categories asked for and fires |
| Dispatch.RunRules | lajter/cogs/rules.py:43-44 | running fired rules never changes the action store and keeps an absent user object absent |
| Dispatch.MatchingInStoreOrder | lajter/cogs/rules.py:38-41 | rules of one category are found in store order |
| Dispatch.CollectInOrder | lajter/cogs/rules.py:38-41 | the categories are searched in the order given |
| Dispatch.RulesRunTheirActions | lajter/cogs/rules.py:43-44 | running the fired rules runs every linked action of every fired rule, each once, rule after rule |
| Dispatch.Actor | lajter/cogs/rules.py:34-35 | with an acting member, the checks see that member's stored record |
| Dispatch.HandleRules | lajter/cogs/rules.py:25-49 | a user is stamped and saved exactly when rules fired and nothing raised, carrying the current time and reading back as saved; with nothing fired nothing changes |
| Dispatch.MemberRecordIsReloaded | lajter/cogs/rules.py:34-35 | with an acting member the record the caller passed is ignored |
| Dispatch.FiredRulesRunThenStamp | lajter/cogs/rules.py:25-49 | a dispatch whose rules fire runs exactly their actions and then saves the user object it ends with, stamped with the time |
| Dispatch.FiredWithoutUserRaises | lajter/cogs/rules.py:138-142 | an edited message whose rules fire runs the actions and then raises AttributeError |
| Dispatch.Invocations | lajter/cogs/rules.py:109-162 | an immune member triggers nothing; a message is dispatched once with its author, channel and message, an edit once with only the message, a reaction or a join once with the member (and the reaction); a member update dispatches the old member then the new one; a presence update dispatches once for each side that has activities, the old side first; every dispatch checks the event's categories |
| Dispatch.IdlePresenceChangesNothing | lajter/cogs/rules.py:109-119 | a presence update with no activity on either side changes nothing |
| Dispatch.ImmuneChangesNothing | lajter/cogs/rules.py:109-162 | an event from an immune member leaves the state as it was |
| Dispatch.Listen | lajter/cogs/rules.py:109-162 | a listener never changes the action store, and one with no dispatch to make changes nothing |
| Dispatch.SweepStep | lajter/cogs/rules.py:74-105 | a stored user who has left and is banned, or who is present and banned, is removed from the ledger; an immune member is skipped; a failed fetch raises |
| Dispatch.SweepDispatchesPresent | lajter/cogs/rules.py:74-105 | a present member who is neither banned nor immune is dispatched with the last-activity and both balance categories |
| Dispatch.SweepInOrder | lajter/cogs/rules.py:74-105 | a pass handles the ledger entries in order, and an exception ends the pass |
| Dispatch.Sweep | lajter/cogs/rules.py:74-103 | a pass never changes the action store, and a pass over no entries changes nothing |
| Dispatch.SweepOnce | lajter/cogs/rules.py:72-105 | one iteration of the sweeper never changes the action store |
| Voting.TallyVotes | lajter/cogs/rules.py:327-333 | the tally is the thumbs-up count minus the thumbs-down count, and it is positive exactly when thumbs-up outnumber thumbs-down |
| Voting.NetAppend | lajter/cogs/rules.py:327-333 | the net score of two batches of reactions is the sum of their net scores |
| RuleCommands.AddRule | lajter/cogs/rules.py:191-196 | a non-administrator changes nothing; no category raises AttributeError; an unknown one raises ValueError; otherwise the rule is stored under the next id |
| RuleCommands.Merge | lajter/cogs/rules.py:201-232 | an edit replaces the category when given and the lists when non-empty, can make a rule public but never private, and keeps the id |
| RuleCommands.EditRule | lajter/cogs/rules.py:201-232 | an id that is not positive or not stored changes nothing; an unknown category raises |
| RuleCommands.EditRuleThenGet | lajter/cogs/rules.py:201-232 | an edited rule reads back as the stored rule merged with the arguments; a public rule stays public |
| RuleCommands.RemoveRule | lajter/cogs/rules.py:237-240 | removing a document id that is not stored raises; otherwise exactly the other documents remain |
| RuleCommands.VoteRule | lajter/cogs/rules.py:290-344 | a banned caller, or one still on the command's cooldown, changes nothing; so does a missing word or action id; a rule is stored only for a permitted caller, a stored public action and a positive net vote |
| RuleCommands.VotePersistsOnMajority | lajter/cogs/rules.py:292-344 | a permitted caller's valid proposal is stored, readable under the next id, exactly when thumbs-up outnumber thumbs-down |
| RuleCommands.Describe | lajter/cogs/rules.py:245-249 | a rule's listing entry is its description with the id, and a record with an unknown tag raises ValueError |
| RuleCommands.Listing | lajter/cogs/rules.py:245-249 | an empty store lists as the empty text |
| RuleCommands.ListingExtends | lajter/cogs/rules.py:245-252 | listing one more rule appends its description or fails with its exception |
| RuleCommands.ListingFailsAtPrefix | lajter/cogs/rules.py:245-252 | once a rule fails to list, the listing fails the same way |
| RuleCommands.Append | lajter/cogs/rules.py:249-252 | appending a description sends the buffer once it exceeds 1500 characters, and nothing is lost or reordered |
| RuleCommands.ReadRules | lajter/cogs/rules.py:245-255 | the replies joined are exactly the listing of all rules; every reply but the last exceeds 1500 characters; the listing fails exactly when some rule fails to list |
| ActionCommands.AddAction | lajter/cogs/actions.py:24-34 | a non-administrator changes nothing; no kind raises AttributeError; an unknown kind raises ValueError; otherwise a non-public action is stored under the next id |
| ActionCommands.AddActionThenGet | lajter/cogs/actions.py:24-34 | a new action reads back under the next id with the given kind and lists, not public |
| ActionCommands.Edited | lajter/cogs/actions.py:55-61 | an edit replaces the lists when given non-empty and keeps id, kind and public flag |
| ActionCommands.EditAction | lajter/cogs/actions.py:36-63 | an id that is not positive or not stored changes nothing; an unknown kind raises before anything is written |
| ActionCommands.EditActionThenGet | lajter/cogs/actions.py:36-63 | an edited action reads back with the stored kind whatever kind was asked for |
| ActionCommands.EditActionFixed | lajter/cogs/actions.py:36-63 | the intended edit raises exactly when the written one does and agrees with it when no kind is given |
| ActionCommands.EditActionFixedThenGet | lajter/cogs/actions.py:52-53 | with the intended edit a known kind replaces the stored one |
| ActionCommands.EditNeverChangesKind | lajter/cogs/actions.py:52-53 | editing a stored kick with the kind "ban" leaves it a kick; the intended edit makes it a ban |
| ActionCommands.RemoveAction | lajter/cogs/actions.py:65-70 | removing a document id that is not stored raises; otherwise exactly the other documents remain |
| ActionCommands.Line | lajter/cogs/actions.py:78-82 | a record with an unknown kind raises ValueError; a line ends with a line break |
| ActionCommands.ActionListing | lajter/cogs/actions.py:72-83 | an empty store lists as the empty text |
| ActionCommands.ListingJoinsLines | lajter/cogs/actions.py:72-83 | the listing exists exactly when every stored action has a line, and then it is those lines in store order |
| ActionCommands.KindListingJoinsEntries | lajter/cogs/actions.py:85-94 | the kind listing is each kind's tag in backquotes, in order |
| Points.OnMessage | lajter/cogs/points.py:17-27 | a bot's message changes nothing |
| Points.OnMessageUpdatesAuthor | lajter/cogs/points.py:17-27 | after a message the author's record holds the previous balance (none counts as zero) plus the score and the message time; nobody else's record changes |
| Points.ReadPoints | lajter/cogs/points.py:29-33 | a balance is read exactly when the caller has a record, and it is the first such record's; otherwise AttributeError |
| Points.GivePoints | lajter/cogs/points.py:35-54 | a negative amount changes nothing; a giver without a record raises AttributeError |
| Points.RefusedGiveChangesNothing | lajter/cogs/points.py:38-49 | a negative amount, an amount over the giver's balance or a receiver without a record leaves the ledger as it was |
| Points.GiveConserves | lajter/cogs/points.py:42-54 | between two members, the giver loses the amount, the receiver gains it, their total is kept and nobody else changes |
| Points.TransferMoves | lajter/cogs/points.py:49-54 | the two saves move the amount between two different records and touch no other |
| Points.SelfGiveGrows | lajter/cogs/points.py:42-54 | giving to oneself adds the amount to one's own balance; the intended give leaves the ledger as it was |
| Points.GivePointsFixed | lajter/cogs/points.py:35-54 | the intended give agrees with the written one between different members, raises in the same cases, and leaves a self-give's ledger unchanged |
| Leaderboard.SortByPoints | lajter/cogs/points.py:67-68 | the records are arranged by non-increasing balance and are a permutation of the ledger |
| Leaderboard.Shown | lajter/cogs/points.py:71-76 | exactly the records whose member fetch succeeds are kept |
| Leaderboard.ShownAppend | lajter/cogs/points.py:71-76 | skipping is decided record by record: what is shown of two consecutive stretches is what is shown of each, in that order, so the kept records keep their relative order |
| Leaderboard.ShownKeepsOrder | lajter/cogs/points.py:71-76 | skipping members keeps a list in non-increasing balance order |
| Leaderboard.BoardOrdered | lajter/cogs/points.py:64-77 | the leaderboard lists exactly the stored users the fetch finds, by non-increasing balance |

## Left out

- Discord I/O: sending, replying, reactions, role and nickname changes,
  timeouts and kicks. These are effects appended to a trace. Platform
  failures other than a failed member fetch or role lookup are not
  modelled.
- Wall-clock time is an integer number of seconds passed in. Sleeps are
  dropped. A delete delay or timeout length is checked only for whether
  `float()` accepts it (the `isFloat` parameter); its value is not
  interpreted, so an overflowing timeout length is not modelled.
- Regular expressions are the `matches` parameter. Compile errors of bad
  patterns are not modelled.
- `int()` parses only an optional sign followed by ASCII digits.
  Whitespace, underscores and non-ASCII digits are not modelled.
- `rate_message`, `immune`, `is_banned`, `not_banned`,
  `get_default_channel` and `get_ban_role` are not defined in the modelled
  files. Their results are parameters: the message score, the `immune` and
  `isBanned` predicates, the `permitted` flag of `voterule` (which also
  stands for its cooldown), and the configured channel and ban role. The
  reply a refused caller gets is not modelled.
- The two calls to `handle_point_rules` after a transfer
  (lajter/cogs/points.py:57-62) are left out: the function is not defined
  in lajter/rule.py.
- Document id reuse across runs is not modelled. The store computes its
  next id lazily, as one more than the largest stored id, at a run's first
  insert. So after a restart, or after a removal that comes before the
  run's first insert, a deleted highest id is handed out again, and a rule
  or poll that linked the deleted action then links the new one. The
  model's `nextDocId` only grows.
- Concurrency between listeners (lost updates on the same user record) is
  left out. Each event is handled on its own.
- Replies the commands send after a successful write are not modelled: the
  confirmation's description can raise after the store has already
  changed.
- `read_rule`, `read_public_rules` and `read_rule_types`
  (lajter/cogs/rules.py:257-287), `on_member_remove`
  (lajter/cogs/rules.py:164-170) and the command error handler are not
  modelled. They are thin wrappers around the modelled description and
  store operations.
- lajter/commands.py and the `fun` and `admin` cogs are not part of this
  model.
- Text.Repr: unassigned code points are written as they are, where the
  interpreter escapes them too, because its tables of unassigned
  characters depend on its Unicode version and are not modelled.
- RuleText.Condition: shows patterns through Text.Repr, so the same
  unassigned code points are written unescaped.
- Leaderboard.SortByPoints: its contract states order and permutation
  only. Stability among equal balances holds by construction but is not
  stated.
- Points.OnMessage: its contract states only the bot case. The effect on
  the author is stated by Points.OnMessageUpdatesAuthor.
- ActionExec.Execute: its contract states the frame facts every kind
  keeps. The per-kind effects are stated by the ActionExecProps lemmas,
  for add-points, ban, poll, random and chain. Sending, deleting, roles,
  timeout, kick and renaming only append to the trace.
- RuleText.Render and the listings follow the code as written, including
  the missing "more points" condition.
- ActionCommands.EditAction and Points.GivePoints also follow the code as
  written. The corrected members sit beside them.

## Findings

| source | as written | input that shows it | evidently intended | confidence | as-written member | corrected member |
|---|---|---|---|---|---|---|
| lajter/cogs/points.py:42-54 | giver and receiver are loaded separately; the receiver's save, made from the record loaded before the giver's save, overwrites it | a member with 10 points gives themself 5: the balance becomes 15 | a self-give leaves the balance unchanged | high, not executed | Points.SelfGiveGrows | Points.GivePointsFixed |
| lajter/cogs/actions.py:52-53 | an `Action` object built from the kind flag (its construction parses the flag) is assigned to `rule_type`, which `save` never reads | editing a stored kick with `type=ban` leaves it a kick | the kind flag replaces the stored kind | high, not executed | ActionCommands.EditNeverChangesKind | ActionCommands.EditActionFixed |
| lajter/rule.py:116-119 | the second comparison case repeats `POINTS_LESS_THAN`, so a "more points" rule gets no condition sentence | a `POINTS_GREATER_THAN` rule with bound 5 is described as only its linked actions | the description "if the user has more than 5 points" | high, not executed | RuleText.GreaterThanHasNoCondition | RuleText.ConditionFixed |
