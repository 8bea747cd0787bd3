/** The rule administration commands: adding, editing and deleting a rule,
    proposing a message rule by vote, and listing the stored rules in
    replies of bounded size. Replies other than the listing are not kept;
    a command refused for lack of permission or for a bad argument leaves
    the store as it was. */
module RuleCommands {
  import opened Wrappers
  import opened Text
  import opened DocStore
  import opened Platform
  import Actions
  import Voting
  import opened Rules
  import RuleText

  /** `addrule`: a rule needs a category; without one the save reads an
      attribute of nothing. The new rule is stored under the next id. */
  function AddRule(t: RuleTable, permitted: bool, kind: Option<string>, regexes: seq<string>, actions: seq<int>, public: bool): (r: Result<RuleTable>)
    ensures !permitted ==> r == Ok(t)
    ensures permitted && kind.None? ==> r == Err(AttributeError)
    ensures permitted && kind.Some? && ParseType(kind.value).None? ==> r == Err(ValueError)
    ensures permitted && kind.Some? && ParseType(kind.value).Some? ==>
      r == Ok(InsertOwnId(t, RuleEntry(kind.value, regexes, actions, Some(SBool(public)))))
  {
    if !permitted then Ok(t)
    else
      match kind
      case None => Err(AttributeError)
      case Some(k) =>
        var rule :- NewRule(k, None, Some(regexes), Some(actions), SBool(public));
        Ok(Save(t, rule).0)
  }

  /** The rule `editrule` writes: the category when one is given, the
      pattern and action lists when given non-empty, and the public flag set
      when asked for but never cleared. */
  function Merge(stored: Rule, kind: Option<RuleType>, regexes: seq<string>, actions: seq<int>, public: bool): (r: Rule)
    ensures r.id == stored.id
    ensures kind.Some? ==> r.kind == kind.value
    ensures kind.None? ==> r.kind == stored.kind
    ensures r.regexes == if |regexes| > 0 then regexes else stored.regexes
    ensures r.actions == if |actions| > 0 then actions else stored.actions
    ensures public ==> r.public == SBool(true)
    ensures !public ==> r.public == stored.public
  {
    Rule(stored.id,
      if kind.Some? then kind.value else stored.kind,
      if |regexes| > 0 then regexes else stored.regexes,
      if |actions| > 0 then actions else stored.actions,
      if public then SBool(true) else stored.public)
  }

  /** `editrule`: an id that is not positive or not stored changes nothing;
      an unknown category raises before anything is written. */
  function EditRule(t: RuleTable, permitted: bool, id: int, kind: Option<string>, regexes: seq<string>, actions: seq<int>, public: bool): (r: Result<RuleTable>)
    ensures !permitted || id <= 0 || !HasId(t, id) ==> r == Ok(t)
    ensures permitted && id > 0 && HasId(t, id) && kind.Some? && ParseType(kind.value).None? ==> r.Err?
    ensures r.Ok? && r.value != t ==> HasId(r.value, id)
  {
    if !permitted || id <= 0 then Ok(t)
    else
      match GetById(t, id)
      case Err(e) => Err(e)
      case Ok(None) => Ok(t)
      case Ok(Some(stored)) =>
        match kind
        case Some(k) =>
          (match ParseType(k)
           case None => Err(ValueError)
           case Some(newKind) => Ok(Save(t, Merge(stored, Some(newKind), regexes, actions, public)).0))
        case None => Ok(Save(t, Merge(stored, None, regexes, actions, public)).0)
  }

  /** An edit of a stored rule reads back as the earlier rule merged with the
      arguments; a public rule stays public. */
  lemma EditRuleThenGet(t: RuleTable, id: int, stored: Rule, kind: Option<string>, regexes: seq<string>, actions: seq<int>, public: bool, t': RuleTable)
    requires id > 0 && GetById(t, id) == Ok(Some(stored))
    requires EditRule(t, true, id, kind, regexes, actions, public) == Ok(t')
    ensures var parsed := if kind.Some? then ParseType(kind.value) else None;
      GetById(t', id) == Ok(Some(Merge(stored, parsed, regexes, actions, public)))
    ensures GetById(t', id).Ok? && GetById(t', id).value.Some?
    ensures Truthy(stored.public) ==> Truthy(GetById(t', id).value.value.public)
  {
    var parsed := if kind.Some? then ParseType(kind.value) else None;
    var merged := Merge(stored, parsed, regexes, actions, public);
    assert t' == Upsert(t, id, ToEntry(merged));
    UpsertThenFind(t, id, ToEntry(merged));
    EntryRoundTrip(merged, id);
  }

  /** `delrule`: removes the document with that document id; an id with no
      document raises and changes nothing. */
  function RemoveRule(t: RuleTable, permitted: bool, docId: int): (r: Result<RuleTable>)
    ensures !permitted ==> r == Ok(t)
    ensures permitted && (docId < 0 || !HasDoc(t, docId)) ==> r == Err(NotFound)
    ensures permitted && r.Ok? ==> forall i :: 0 <= i < |r.value.docs| ==> r.value.docs[i].docId != docId
    ensures permitted && r.Ok? ==> forall i :: 0 <= i < |t.docs| && t.docs[i].docId != docId ==> t.docs[i] in r.value.docs
    ensures permitted && r.Ok? ==> forall i :: 0 <= i < |r.value.docs| ==> r.value.docs[i] in t.docs
  {
    if !permitted then Ok(t)
    else if docId < 0 then Err(NotFound)
    else RemoveDoc(t, docId)
  }

  // ---------------------------------------------------------------------------
  // Voting a rule in
  // ---------------------------------------------------------------------------

  /** The rule a vote proposes: a public message rule for one word that runs
      one action. */
  function Proposal(word: string, actionId: int): Rule {
    Rule(None, MessageRule, [word], [actionId], SBool(true))
  }

  /** `voterule`: only a caller who is not banned and not held back by the
      command's half-hour cooldown gets to propose (`permitted`); it needs a
      word, a non-zero action id and a stored public action; the proposal's
      description must render; after the vote the rule is stored only if
      the net score is positive. */
  function VoteRule(t: RuleTable, actions: Actions.ActionTable, permitted: bool, word: string, actionId: int, reactions: seq<Reaction>, fuel: nat): (r: Result<RuleTable>)
    ensures !permitted ==> r == Ok(t)
    ensures word == "" || actionId == 0 ==> r == Ok(t)
    ensures r.Ok? && r.value != t ==>
      && permitted
      && Voting.Net(reactions) > 0
      && Actions.GetById(actions, actionId).Ok? && Actions.GetById(actions, actionId).value.Some?
      && Actions.GetById(actions, actionId).value.value.public
      && r.value == Save(t, Proposal(word, actionId)).0
  {
    if !permitted || word == "" || actionId == 0 then Ok(t)
    else
      match Actions.GetById(actions, actionId)
      case Err(e) => Err(e)
      case Ok(None) => Ok(t)
      case Ok(Some(a)) =>
        if !a.public then Ok(t)
        else
          var prompt :- RuleText.Render(actions, Proposal(word, actionId), false, fuel);
          if Voting.Net(reactions) > 0 then Ok(Save(t, Proposal(word, actionId)).0) else Ok(t)
  }

  /** A permitted caller's vote on a valid proposal stores the rule,
      readable under the next id, exactly when more thumbs-up than
      thumbs-down were counted. */
  lemma VotePersistsOnMajority(t: RuleTable, actions: Actions.ActionTable, word: string, action: Actions.Action, reactions: seq<Reaction>, fuel: nat)
    requires WellFormed(t) && OwnIds(t)
    requires word != "" && action.id.Some? && action.id.value != 0 && action.public
    requires Actions.GetById(actions, action.id.value) == Ok(Some(action))
    requires RuleText.Render(actions, Proposal(word, action.id.value), false, fuel).Ok?
    ensures VoteRule(t, actions, true, word, action.id.value, reactions, fuel).Ok?
    ensures var t' := VoteRule(t, actions, true, word, action.id.value, reactions, fuel).value;
      && (Voting.Count(reactions, Voting.Up) > Voting.Count(reactions, Voting.Down) ==>
            GetById(t', t.nextDocId) == Ok(Some(Proposal(word, action.id.value).(id := Some(t.nextDocId)))))
      && (Voting.Count(reactions, Voting.Up) <= Voting.Count(reactions, Voting.Down) ==> t' == t)
  {
    SaveThenGet(t, Proposal(word, action.id.value));
  }

  // ---------------------------------------------------------------------------
  // Listing
  // ---------------------------------------------------------------------------

  const ReplyLimit: int := 1500

  /** One stored rule's entry in the listing: loaded, then described with
      its id. */
  function Describe(actions: Actions.ActionTable, d: Doc<RuleEntry>, fuel: nat): (r: Result<string>)
    ensures FromEntry(d.id, d.body).Err? ==> r == Err(ValueError)
    ensures FromEntry(d.id, d.body).Ok? ==> r == RuleText.Render(actions, FromEntry(d.id, d.body).value, true, fuel)
  {
    var rule :- FromEntry(d.id, d.body);
    RuleText.Render(actions, rule, true, fuel)
  }

  /** The descriptions of the stored rules, with ids, in store order; the
      first one that cannot be loaded or described raises. */
  function Listing(actions: Actions.ActionTable, docs: seq<Doc<RuleEntry>>, fuel: nat): (r: Result<string>)
    ensures |docs| == 0 ==> r == Ok("")
    decreases |docs|
  {
    if |docs| == 0 then Ok("")
    else
      var before :- Listing(actions, docs[..|docs| - 1], fuel);
      var text :- Describe(actions, docs[|docs| - 1], fuel);
      Ok(before + text)
  }

  /** Listing one more document of the store appends its description, or
      fails with the exception describing it raises. */
  lemma ListingExtends(actions: Actions.ActionTable, docs: seq<Doc<RuleEntry>>, i: nat, fuel: nat)
    requires i < |docs| && Listing(actions, docs[..i], fuel).Ok?
    ensures Describe(actions, docs[i], fuel).Ok? ==>
      Listing(actions, docs[..i + 1], fuel) == Ok(Listing(actions, docs[..i], fuel).value + Describe(actions, docs[i], fuel).value)
    ensures Describe(actions, docs[i], fuel).Err? ==>
      Listing(actions, docs[..i + 1], fuel) == Err(Describe(actions, docs[i], fuel).fault)
  {
    assert docs[..i + 1][..i] == docs[..i];
    assert docs[..i + 1][i] == docs[i];
  }

  /** Once a prefix of the store fails to list, the whole listing fails
      the same way. */
  lemma {:induction false} ListingFailsAtPrefix(actions: Actions.ActionTable, docs: seq<Doc<RuleEntry>>, n: nat, fuel: nat)
    requires n <= |docs| && Listing(actions, docs[..n], fuel).Err?
    ensures Listing(actions, docs, fuel) == Listing(actions, docs[..n], fuel)
    decreases |docs| - n
  {
    if n < |docs| {
      assert docs[..|docs| - 1][..n] == docs[..n];
      ListingFailsAtPrefix(actions, docs[..|docs| - 1], n, fuel);
    } else {
      assert docs[..n] == docs;
    }
  }

  /** Sending a buffer appends it to what was sent. */
  lemma Flush(replies: seq<string>, buffer: string)
    ensures Concat(replies + [buffer]) == Concat(replies) + buffer
  {
    ConcatAppend(replies, [buffer]);
    assert Concat([buffer]) == buffer + "";
  }

  /** Appending one description to the buffer, and sending the buffer once
      it grows past the limit. */
  method Append(replies: seq<string>, buffer: string, text: string) returns (replies': seq<string>, buffer': string)
    requires forall k :: 0 <= k < |replies| ==> |replies[k]| > ReplyLimit
    ensures Concat(replies') + buffer' == Concat(replies) + buffer + text
    ensures forall k :: 0 <= k < |replies'| ==> |replies'[k]| > ReplyLimit
    ensures |buffer'| <= ReplyLimit
    ensures replies' == replies || replies' == replies + [buffer + text]
  {
    buffer' := buffer + text;
    replies' := replies;
    if |buffer'| > ReplyLimit {
      Flush(replies, buffer');
      replies' := replies + [buffer'];
      buffer' := "";
      assert Concat(replies') + buffer' == Concat(replies');
    }
  }

  /** `rules`: the descriptions are appended to a buffer that is sent as a
      reply whenever it grows past the limit; what is left is sent at the
      end unless it is empty. An exception ends the command and drops the
      unsent buffer. */
  method ReadRules(actions: Actions.ActionTable, t: RuleTable, fuel: nat) returns (replies: seq<string>, fault: Option<Fault>)
    ensures fault.None? <==> Listing(actions, t.docs, fuel).Ok?
    ensures fault.Some? ==> fault.value == Listing(actions, t.docs, fuel).fault
    ensures fault.None? ==> Concat(replies) == Listing(actions, t.docs, fuel).value
    ensures forall k :: 0 <= k < |replies| ==> |replies[k]| > 0
    ensures forall k :: 0 <= k < |replies| - 1 ==> |replies[k]| > ReplyLimit
    ensures fault.Some? ==> forall k :: 0 <= k < |replies| ==> |replies[k]| > ReplyLimit
  {
    var docs := t.docs;
    replies, fault := [], None;
    var buffer := "";
    ghost var listed := "";
    var i := 0;
    while i < |docs|
      invariant 0 <= i <= |docs|
      invariant Listing(actions, docs[..i], fuel) == Ok(listed)
      invariant Concat(replies) + buffer == listed
      invariant forall k :: 0 <= k < |replies| ==> |replies[k]| > ReplyLimit
    {
      ListingExtends(actions, docs, i, fuel);
      var text := Describe(actions, docs[i], fuel);
      if text.Err? {
        fault := Some(text.fault);
        ListingFailsAtPrefix(actions, docs, i + 1, fuel);
        return;
      }
      replies, buffer := Append(replies, buffer, text.value);
      listed := listed + text.value;
      i := i + 1;
    }
    assert docs[..i] == docs;
    if |buffer| > 0 {
      Flush(replies, buffer);
      replies := replies + [buffer];
    }
  }
}
