/** Action records: the twelve kinds of effect, their construction from
    the string tags the bot is given, and their storage. */
module Actions {
  import opened Wrappers
  import opened DocStore

  datatype ActionType =
    | SendMessage | DeleteMessage | Kick | Timeout | Ban | GiveRole
    | RemoveRole | ChangeName | AddPoints | Poll | Random | Chain

  /** The string each kind is stored and typed as. */
  function Tag(t: ActionType): string {
    match t
    case SendMessage => "send message"
    case DeleteMessage => "delete message"
    case Kick => "kick"
    case Timeout => "timeout"
    case Ban => "ban"
    case GiveRole => "give role"
    case RemoveRole => "remove role"
    case ChangeName => "change name"
    case AddPoints => "add points"
    case Poll => "poll"
    case Random => "random"
    case Chain => "chain"
  }

  /** `ActionType(s)`: the kind whose tag is `s`, or none (a ValueError). */
  function ParseType(s: string): (r: Option<ActionType>)
    ensures r.Some? ==> Tag(r.value) == s
  {
    if s == "send message" then Some(SendMessage)
    else if s == "delete message" then Some(DeleteMessage)
    else if s == "kick" then Some(Kick)
    else if s == "timeout" then Some(Timeout)
    else if s == "ban" then Some(Ban)
    else if s == "give role" then Some(GiveRole)
    else if s == "remove role" then Some(RemoveRole)
    else if s == "change name" then Some(ChangeName)
    else if s == "add points" then Some(AddPoints)
    else if s == "poll" then Some(Poll)
    else if s == "random" then Some(Random)
    else if s == "chain" then Some(Chain)
    else None
  }

  /** A string is accepted exactly when it is one of the twelve tags, and
      it then names that kind. */
  lemma ParseTypeExact(s: string, t: ActionType)
    ensures ParseType(s) == Some(t) <==> Tag(t) == s
    ensures ParseType(s).None? <==> forall k: ActionType :: Tag(k) != s
  {
    if ParseType(s).None? {
      forall k: ActionType ensures Tag(k) != s {
        match k
        case SendMessage => case DeleteMessage => case Kick => case Timeout =>
        case Ban => case GiveRole => case RemoveRole => case ChangeName =>
        case AddPoints => case Poll => case Random => case Chain =>
      }
    }
  }

  datatype Action = Action(
    id: Option<int>,
    kind: ActionType,
    value: seq<string>,
    target: seq<string>,
    public: bool)

  /** What the store holds for an action besides the id. */
  datatype ActionEntry = ActionEntry(
    kind: string,
    value: seq<string>,
    target: seq<string>,
    public: Option<Scalar>)

  type ActionTable = Table<ActionEntry>

  function GetOr(x: Option<seq<string>>): seq<string> {
    match x
    case Some(v) => v
    case None => []
  }

  /** The constructor: an unknown tag raises; an absent value or target
      list becomes the empty list; the public flag takes the truth value of
      whatever it is given. */
  function NewAction(
    kind: string,
    id: Option<int>,
    value: Option<seq<string>>,
    target: Option<seq<string>>,
    public: Scalar): (r: Result<Action>)
    ensures r.Err? <==> ParseType(kind).None?
    ensures r.Err? ==> r.fault == ValueError
    ensures r.Ok? ==>
      && Tag(r.value.kind) == kind
      && r.value.id == id
      && (value.None? ==> r.value.value == [])
      && (value.Some? ==> r.value.value == value.value)
      && (target.None? ==> r.value.target == [])
      && (target.Some? ==> r.value.target == target.value)
      && (r.value.public <==> Truthy(public))
  {
    match ParseType(kind)
    case None => Err(ValueError)
    case Some(t) => Ok(Action(id, t, GetOr(value), GetOr(target), Truthy(public)))
  }

  /** Loading a stored action. A record without a public field is built
      with the constructor's default, false. */
  function FromEntry(id: int, e: ActionEntry): (r: Result<Action>)
    ensures r.Err? <==> ParseType(e.kind).None?
    ensures r.Ok? ==>
      && r.value.id == Some(id)
      && Tag(r.value.kind) == e.kind
      && r.value.value == e.value
      && r.value.target == e.target
      && (e.public.None? ==> !r.value.public)
      && (e.public.Some? ==> (r.value.public <==> Truthy(e.public.value)))
  {
    match e.public
    case Some(p) => NewAction(e.kind, Some(id), Some(e.value), Some(e.target), p)
    case None => NewAction(e.kind, Some(id), Some(e.value), Some(e.target), SBool(false))
  }

  /** The record `save` writes: the kind's tag, the lists and the flag. */
  function ToEntry(a: Action): ActionEntry {
    ActionEntry(Tag(a.kind), a.value, a.target, Some(SBool(a.public)))
  }

  /** Loading what `save` wrote gives the action back. */
  lemma EntryRoundTrip(a: Action, id: int)
    ensures FromEntry(id, ToEntry(a)) == Ok(a.(id := Some(id)))
  {
    ParseTypeExact(Tag(a.kind), a.kind);
  }

  /** `get_by_id`: the first stored action with this id, none, or the
      ValueError of a stored unknown tag. */
  function GetById(t: ActionTable, id: int): (r: Result<Option<Action>>)
    ensures r == Ok(None) <==> !HasId(t, id)
    ensures r.Ok? && r.value.Some? ==> r.value.value.id == Some(id)
  {
    match Find(t, id)
    case None => Ok(None)
    case Some(e) =>
      var a :- FromEntry(id, e);
      Ok(Some(a))
  }

  /** `save`: an action without an id is inserted and takes the new
      document id as its id; an action with an id is upserted on it. */
  function Save(t: ActionTable, a: Action): (r: (ActionTable, Action))
    ensures a.id.None? ==> r.1 == a.(id := Some(t.nextDocId)) && r.0 == InsertOwnId(t, ToEntry(a))
    ensures a.id.Some? ==> r.1 == a && r.0 == Upsert(t, a.id.value, ToEntry(a))
  {
    match a.id
    case None => (InsertOwnId(t, ToEntry(a)), a.(id := Some(t.nextDocId)))
    case Some(id) => (Upsert(t, id, ToEntry(a)), a)
  }

  /** A saved action reads back equal under its (possibly new) id, and in a
      table of own-id records saving keeps that discipline when the action
      is new or already stored. */
  lemma SaveThenGet(t: ActionTable, a: Action)
    requires WellFormed(t) && OwnIds(t)
    ensures var (t', a') := Save(t, a);
      && a'.id.Some?
      && GetById(t', a'.id.value) == Ok(Some(a'))
      && (a.id.None? ==> a'.id == Some(t.nextDocId))
      && (a.id.None? || HasId(t, a.id.value) ==> WellFormed(t') && OwnIds(t'))
  {
    var (t', a') := Save(t, a);
    var id := a'.id.value;
    if a.id.None? {
      NextIdIsFresh(t);
      assert Upsert(t, t.nextDocId, ToEntry(a)) == t';
    }
    UpsertThenFind(t, id, ToEntry(a));
    EntryRoundTrip(a, id);
    OwnIdsKept(t, id, ToEntry(a));
  }

  /** Saving an action that has an id leaves exactly one record with that
      id when ids were unique. */
  lemma SaveKeepsOneRecord(t: ActionTable, a: Action)
    requires UniqueIds(t) && a.id.Some?
    ensures UniqueIds(Save(t, a).0)
    ensures |Save(t, a).0.docs| == |t.docs| + (if HasId(t, a.id.value) then 0 else 1)
  {
    UpsertKeepsUnique(t, a.id.value, ToEntry(a));
  }
}
