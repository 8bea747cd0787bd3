/** The action administration commands: adding, editing and deleting an
    action, and listing the stored actions and the known kinds. Every
    command does nothing for a caller who is not an administrator; replies
    are not kept, except the two listings. */
module ActionCommands {
  import opened Wrappers
  import opened Text
  import opened DocStore
  import opened Actions
  import ActionText

  /** `addaction`: an action needs a kind; without one the save reads an
      attribute of nothing. The new action is stored under the next id and
      is never public. */
  function AddAction(t: ActionTable, permitted: bool, kind: Option<string>, value: seq<string>, target: seq<string>): (r: Result<ActionTable>)
    ensures !permitted ==> r == Ok(t)
    ensures permitted && kind.None? ==> r == Err(AttributeError)
    ensures permitted && kind.Some? && ParseType(kind.value).None? ==> r == Err(ValueError)
    ensures permitted && kind.Some? && ParseType(kind.value).Some? ==>
      r == Ok(InsertOwnId(t, ActionEntry(kind.value, value, target, Some(SBool(false)))))
  {
    if !permitted then Ok(t)
    else
      match kind
      case None => Err(AttributeError)
      case Some(k) =>
        var a :- NewAction(k, None, Some(value), Some(target), SBool(false));
        Ok(Save(t, a).0)
  }

  /** A freshly added action reads back under the id it was stored with:
      the given kind and lists, not public. */
  lemma AddActionThenGet(t: ActionTable, k: ActionType, value: seq<string>, target: seq<string>)
    requires WellFormed(t) && OwnIds(t)
    ensures var r := AddAction(t, true, Some(Tag(k)), value, target);
      && r.Ok?
      && GetById(r.value, t.nextDocId) == Ok(Some(Action(Some(t.nextDocId), k, value, target, false)))
      && WellFormed(r.value) && OwnIds(r.value)
  {
    ParseTypeExact(Tag(k), k);
    SaveThenGet(t, Action(None, k, value, target, false));
  }

  /** The action `editaction` writes: the value and target lists when given
      non-empty, everything else as stored. */
  function Edited(stored: Action, value: seq<string>, target: seq<string>): (r: Action)
    ensures r.id == stored.id && r.kind == stored.kind && r.public == stored.public
    ensures r.value == if |value| > 0 then value else stored.value
    ensures r.target == if |target| > 0 then target else stored.target
  {
    stored.(value := if |value| > 0 then value else stored.value,
            target := if |target| > 0 then target else stored.target)
  }

  /** `editaction` as written: an id that is not positive or not stored
      changes nothing. A given kind is used to build a new action object,
      whose construction parses it, so an unknown one raises before anything
      is written; that object is assigned to an attribute `save` never
      reads, so the stored kind stays. */
  function EditAction(t: ActionTable, permitted: bool, id: int, kind: Option<string>, value: seq<string>, target: seq<string>): (r: Result<ActionTable>)
    ensures !permitted || id <= 0 || !HasId(t, id) ==> r == Ok(t)
    ensures permitted && id > 0 && HasId(t, id) && kind.Some? && ParseType(kind.value).None? ==> r.Err?
    ensures r.Ok? && r.value != t ==> HasId(r.value, id)
  {
    if !permitted || id <= 0 then Ok(t)
    else
      match GetById(t, id)
      case Err(e) => Err(e)
      case Ok(None) => Ok(t)
      case Ok(Some(stored)) =>
        if kind.Some? && ParseType(kind.value).None? then Err(ValueError)
        else Ok(Save(t, Edited(stored, value, target)).0)
  }

  /** `editaction` as its kind flag intends: a given known kind replaces the
      stored one. */
  function EditActionFixed(t: ActionTable, permitted: bool, id: int, kind: Option<string>, value: seq<string>, target: seq<string>): (r: Result<ActionTable>)
    ensures kind.None? ==> r == EditAction(t, permitted, id, kind, value, target)
    ensures r.Err? <==> EditAction(t, permitted, id, kind, value, target).Err?
    ensures !permitted || id <= 0 || !HasId(t, id) ==> r == Ok(t)
  {
    if !permitted || id <= 0 then Ok(t)
    else
      match GetById(t, id)
      case Err(e) => Err(e)
      case Ok(None) => Ok(t)
      case Ok(Some(stored)) =>
        match kind
        case None => Ok(Save(t, Edited(stored, value, target)).0)
        case Some(k) =>
          match ParseType(k)
          case None => Err(ValueError)
          case Some(newKind) => Ok(Save(t, Edited(stored, value, target).(kind := newKind)).0)
  }

  /** An edit of a stored action reads back with the stored kind and public
      flag whatever kind was asked for, and with the lists merged. */
  lemma EditActionThenGet(t: ActionTable, id: int, stored: Action, kind: Option<string>, value: seq<string>, target: seq<string>, t': ActionTable)
    requires id > 0 && GetById(t, id) == Ok(Some(stored))
    requires EditAction(t, true, id, kind, value, target) == Ok(t')
    ensures GetById(t', id) == Ok(Some(Edited(stored, value, target)))
    ensures GetById(t', id).Ok? && GetById(t', id).value.Some? && GetById(t', id).value.value.kind == stored.kind
  {
    var edited := Edited(stored, value, target);
    assert t' == Upsert(t, id, ToEntry(edited));
    UpsertThenFind(t, id, ToEntry(edited));
    EntryRoundTrip(edited, id);
  }

  /** With the intended edit, a known kind does replace the stored one. */
  lemma EditActionFixedThenGet(t: ActionTable, id: int, stored: Action, k: ActionType, value: seq<string>, target: seq<string>)
    requires id > 0 && GetById(t, id) == Ok(Some(stored))
    ensures var r := EditActionFixed(t, true, id, Some(Tag(k)), value, target);
      r.Ok? && GetById(r.value, id) == Ok(Some(Edited(stored, value, target).(kind := k)))
  {
    ParseTypeExact(Tag(k), k);
    var edited := Edited(stored, value, target).(kind := k);
    UpsertThenFind(t, id, ToEntry(edited));
    EntryRoundTrip(edited, id);
  }

  /** Asking to turn a stored kick into a ban leaves it a kick, where the
      intended edit makes it a ban. */
  lemma EditNeverChangesKind()
    ensures var t := InsertOwnId(Empty<ActionEntry>(), ToEntry(Action(None, Kick, [], [], false)));
      && EditAction(t, true, 1, Some("ban"), [], []) == Ok(t)
      && GetById(t, 1) == Ok(Some(Action(Some(1), Kick, [], [], false)))
      && GetById(EditActionFixed(t, true, 1, Some("ban"), [], []).value, 1) == Ok(Some(Action(Some(1), Ban, [], [], false)))
  {
    var t := InsertOwnId(Empty<ActionEntry>(), ToEntry(Action(None, Kick, [], [], false)));
    var kick := Action(Some(1), Kick, [], [], false);
    assert Find(t, 1) == Some(ToEntry(kick));
    EntryRoundTrip(kick, 1);
    EditActionThenGet(t, 1, kick, Some("ban"), [], [], EditAction(t, true, 1, Some("ban"), [], []).value);
    assert Upsert(t, 1, ToEntry(kick)) == t;
    EditActionFixedThenGet(t, 1, kick, Ban, [], []);
  }

  /** `delaction`: removes the document with that document id; an id with
      no document raises and changes nothing. */
  function RemoveAction(t: ActionTable, permitted: bool, docId: int): (r: Result<ActionTable>)
    ensures !permitted ==> r == Ok(t)
    ensures permitted && (docId < 0 || !HasDoc(t, docId)) ==> r == Err(NotFound)
    ensures permitted && r.Ok? ==> forall i :: 0 <= i < |r.value.docs| ==> r.value.docs[i].docId != docId
    ensures permitted && r.Ok? ==> forall i :: 0 <= i < |t.docs| && t.docs[i].docId != docId ==> t.docs[i] in r.value.docs
    ensures permitted && r.Ok? ==> forall i :: 0 <= i < |r.value.docs| ==> r.value.docs[i] in t.docs
  {
    if !permitted then Ok(t)
    else if docId < 0 then Err(NotFound)
    else RemoveDoc(t, docId)
  }

  // ---------------------------------------------------------------------------
  // Listings
  // ---------------------------------------------------------------------------

  /** One stored action's line in `actions`: its id and description. */
  function Line(t: ActionTable, d: Doc<ActionEntry>, fuel: nat): (r: Result<string>)
    ensures FromEntry(d.id, d.body).Err? ==> r == Err(ValueError)
    ensures r.Ok? ==> |r.value| > 0 && r.value[|r.value| - 1] == '\n'
  {
    var a :- FromEntry(d.id, d.body);
    var text :- ActionText.Render(t, a, fuel);
    Ok("**" + IntToString(d.id) + ":** " + text + "\n")
  }

  /** `actions`: every stored action's line in store order; the first that
      cannot be loaded or described raises. */
  function ActionListing(t: ActionTable, docs: seq<Doc<ActionEntry>>, fuel: nat): (r: Result<string>)
    ensures |docs| == 0 ==> r == Ok("")
    decreases |docs|
  {
    if |docs| == 0 then Ok("")
    else
      var head :- Line(t, docs[0], fuel);
      var rest :- ActionListing(t, docs[1..], fuel);
      Ok(head + rest)
  }

  function Lines(t: ActionTable, docs: seq<Doc<ActionEntry>>, fuel: nat): (parts: seq<string>)
    ensures |parts| == |docs|
    ensures forall i :: 0 <= i < |docs| ==>
      parts[i] == (if Line(t, docs[i], fuel).Ok? then Line(t, docs[i], fuel).value else "")
  {
    seq(|docs|, i requires 0 <= i < |docs| =>
      if Line(t, docs[i], fuel).Ok? then Line(t, docs[i], fuel).value else "")
  }

  /** The listing exists exactly when every stored action has a line, and
      then it is those lines in store order. */
  lemma {:induction false} ListingJoinsLines(t: ActionTable, docs: seq<Doc<ActionEntry>>, fuel: nat)
    ensures ActionListing(t, docs, fuel).Ok? <==> forall i :: 0 <= i < |docs| ==> Line(t, docs[i], fuel).Ok?
    ensures ActionListing(t, docs, fuel).Ok? ==> ActionListing(t, docs, fuel).value == Concat(Lines(t, docs, fuel))
    decreases |docs|
  {
    if |docs| > 0 {
      ListingJoinsLines(t, docs[1..], fuel);
      assert forall i :: 1 <= i < |docs| ==> docs[1..][i - 1] == docs[i];
      assert Lines(t, docs, fuel)[1..] == Lines(t, docs[1..], fuel);
    }
  }

  /** The kinds in declaration order, as iterating the enumeration yields. */
  const Kinds: seq<ActionType> :=
    [SendMessage, DeleteMessage, Kick, Timeout, Ban, GiveRole,
     RemoveRole, ChangeName, AddPoints, Poll, Random, Chain]

  /** One kind's entry in `actiontypes`: its tag in backquotes. */
  function KindEntry(k: ActionType): string {
    "`" + Tag(k) + "` "
  }

  function KindListing(kinds: seq<ActionType>): string {
    if |kinds| == 0 then "" else KindEntry(kinds[0]) + KindListing(kinds[1..])
  }

  /** `actiontypes`: a heading and every kind's entry. */
  function TypesReply(): string {
    "**Dostępne rodzaje akcji:** " + KindListing(Kinds)
  }

  /** The kind listing is the kinds' entries in order. */
  lemma {:induction false} KindListingJoinsEntries(kinds: seq<ActionType>)
    ensures KindListing(kinds) == Concat(seq(|kinds|, i requires 0 <= i < |kinds| => KindEntry(kinds[i])))
    decreases |kinds|
  {
    if |kinds| > 0 {
      KindListingJoinsEntries(kinds[1..]);
      assert seq(|kinds|, i requires 0 <= i < |kinds| => KindEntry(kinds[i]))[1..]
        == seq(|kinds[1..]|, i requires 0 <= i < |kinds[1..]| => KindEntry(kinds[1..][i]));
    }
  }

  /** The kind listing names every kind exactly once. */
  lemma KindsListedOnce(k: ActionType)
    ensures k in Kinds
    ensures |Kinds| == 12
    ensures forall i, j :: 0 <= i < j < |Kinds| ==> Tag(Kinds[i]) != Tag(Kinds[j])
  {
  }
}
