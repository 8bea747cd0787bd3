/** The fixed Polish description of an action, used in listings and poll
    prompts. Chains and polls describe the actions they link to, looked up by
    id; a link to an id with no stored action reads as a fixed placeholder.
    The interpreter's recursion budget is the `fuel` argument: a description
    that would nest deeper than that raises RecursionError, which is what a
    cycle of links does. */
module ActionText {
  import opened Wrappers
  import opened Text
  import opened DocStore
  import opened Actions

  const Placeholder: string := "Błędna akcja"

  /** Kinds whose description needs `value[0]` and raises IndexError without it. */
  predicate NeedsValue(k: ActionType) {
    k in {SendMessage, GiveRole, RemoveRole, Timeout, ChangeName, AddPoints}
  }

  /** " <target[0]>" style suffix, present only when there is a target. */
  function TargetSuffix(lead: string, target: seq<string>): string {
    if |target| > 0 then lead + target[0] else ""
  }

  function Render(t: ActionTable, a: Action, fuel: nat): (r: Result<string>)
    ensures NeedsValue(a.kind) ==> (r.Err? <==> |a.value| == 0)
    ensures a.kind in {DeleteMessage, Kick, Ban, Random} ==> r.Ok?
    ensures r.Err? && NeedsValue(a.kind) ==> r.fault == IndexError
    decreases fuel, 3
  {
    match a.kind
    case Poll =>
      var linked :- PollLinked(t, a.value, fuel);
      Ok(PollHead(a.target) + linked + PollDuration(a.value))
    case Chain =>
      var items :- RenderChain(t, a.value, fuel);
      Ok("Wykonaj po kolei akcje: " + items)
    case _ => Sentence(a)
  }

  /** The description of a kind that links to no other action. */
  function Sentence(a: Action): (r: Result<string>)
    requires a.kind != Poll && a.kind != Chain
    ensures NeedsValue(a.kind) ==> (r.Err? <==> |a.value| == 0)
    ensures a.kind in {DeleteMessage, Kick, Ban, Random} ==> r.Ok?
    ensures r.Err? ==> NeedsValue(a.kind) && r.fault == IndexError
  {
    match a.kind
    case SendMessage =>
      if |a.value| == 0 then Err(IndexError)
      else Ok("Wyślij wiadomość o treści \"" + a.value[0] + "\""
              + (if |a.target| > 0 then " na kanał " + ListRepr(a.target) else ""))
    case DeleteMessage =>
      Ok("Usuń wiadomość" + (if |a.value| > 0 then " po " + a.value[0] + " sekundach" else ""))
    case GiveRole =>
      if |a.value| == 0 then Err(IndexError)
      else Ok("Daj rolę " + a.value[0] + TargetSuffix(" użytkownikowi ", a.target))
    case RemoveRole =>
      if |a.value| == 0 then Err(IndexError)
      else Ok("Zabierz rolę " + a.value[0] + TargetSuffix(" użytkownikowi ", a.target))
    case Timeout =>
      if |a.value| == 0 then Err(IndexError)
      else Ok("Wyślij użytkownika" + TargetSuffix(" ", a.target)
              + " na przerwę przez " + a.value[0] + " sekund")
    case Kick => Ok("Zkickuj użytkownika" + TargetSuffix(" ", a.target))
    case Ban => Ok("Zbanuj użytkownika" + TargetSuffix(" ", a.target))
    case ChangeName =>
      if |a.value| == 0 then Err(IndexError)
      else Ok("Zmień nazwę użytkownika" + TargetSuffix(" ", a.target) + " na " + a.value[0])
    case AddPoints =>
      if |a.value| == 0 then Err(IndexError)
      else Ok("Dodaj " + a.value[0] + " punktów" + TargetSuffix(" użytkownikowi ", a.target))
    case Random => Ok("Wybierz losową akcję spośród: " + CommaItems(a.value))
  }

  function PollHead(target: seq<string>): string {
    "Rozpocznij głosowanie przeciwko użytkownikowi"
    + (if |target| > 1 then " " + target[1] else "")
    + (if |target| > 0 then " na kanale " + target[0] else "")
    + "."
  }

  function PollDuration(value: seq<string>): string {
    if |value| > 1 then " Głosowanie będzie trwało " + value[1] + " sekund." else ""
  }

  /** The sentence naming the action a poll runs on success; only present
      when the poll has a `value[0]`. */
  function PollLinked(t: ActionTable, value: seq<string>, fuel: nat): (r: Result<string>)
    ensures |value| == 0 ==> r == Ok("")
    decreases fuel, 2, 0
  {
    if |value| == 0 then Ok("")
    else
      var d :- RenderRef(t, value[0], fuel);
      Ok(" Jeśli głosowanie przejdzie, wykonaj akcję: " + d + ".")
  }

  function CommaItems(xs: seq<string>): string {
    if |xs| == 0 then "" else xs[0] + ", " + CommaItems(xs[1..])
  }

  /** The description of the action a link names: the id text must be an
      integer; an id with no stored action reads as the placeholder. */
  function RenderRef(t: ActionTable, idText: string, fuel: nat): (r: Result<string>)
    ensures ParseInt(idText).None? ==> r == Err(ValueError)
    ensures ParseInt(idText).Some? && !HasId(t, ParseInt(idText).value) ==> r == Ok(Placeholder)
    decreases fuel, 1, 0
  {
    match Lookup(t, idText)
    case Err(e) => Err(e)
    case Ok(None) => Ok(Placeholder)
    case Ok(Some(b)) => if fuel == 0 then Err(RecursionError) else Render(t, b, fuel - 1)
  }

  /** `get_by_id(int(idText))`. */
  function Lookup(t: ActionTable, idText: string): (r: Result<Option<Action>>)
    ensures ParseInt(idText).None? ==> r == Err(ValueError)
    ensures ParseInt(idText).Some? ==> r == GetById(t, ParseInt(idText).value)
  {
    var id :- ToInt(idText);
    GetById(t, id)
  }

  /** Each linked description in list order, each followed by ", ". */
  function RenderChain(t: ActionTable, ids: seq<string>, fuel: nat): (r: Result<string>)
    decreases fuel, 2, |ids|
  {
    if |ids| == 0 then Ok("")
    else
      var head :- RenderRef(t, ids[0], fuel);
      var rest :- RenderChain(t, ids[1..], fuel);
      Ok(head + ", " + rest)
  }

  // ---------------------------------------------------------------------------
  // Properties of the descriptions
  // ---------------------------------------------------------------------------

  /** A chain description exists exactly when every link has one. */
  lemma {:induction false} ChainRendersEachLink(t: ActionTable, ids: seq<string>, fuel: nat)
    ensures RenderChain(t, ids, fuel).Ok? <==> forall i :: 0 <= i < |ids| ==> RenderRef(t, ids[i], fuel).Ok?
    decreases |ids|
  {
    if |ids| > 0 {
      ChainRendersEachLink(t, ids[1..], fuel);
      assert forall i :: 1 <= i < |ids| ==> ids[1..][i - 1] == ids[i];
    }
  }

  /** One link's part of a chain description: its text followed by ", ". */
  function Item(r: Result<string>): string {
    if r.Ok? then r.value + ", " else ""
  }

  function Items(t: ActionTable, ids: seq<string>, fuel: nat): (parts: seq<string>)
    ensures |parts| == |ids|
    ensures forall i :: 0 <= i < |ids| ==> parts[i] == Item(RenderRef(t, ids[i], fuel))
  {
    seq(|ids|, i requires 0 <= i < |ids| => Item(RenderRef(t, ids[i], fuel)))
  }

  /** A chain description is the descriptions of its links in list order,
      each followed by ", ". */
  lemma {:induction false} ChainJoinsLinks(t: ActionTable, ids: seq<string>, fuel: nat)
    requires RenderChain(t, ids, fuel).Ok?
    ensures RenderChain(t, ids, fuel).value == Concat(Items(t, ids, fuel))
    decreases |ids|
  {
    if |ids| > 0 {
      ChainJoinsLinks(t, ids[1..], fuel);
      assert Items(t, ids, fuel)[1..] == Items(t, ids[1..], fuel);
    }
  }

  /** A poll's description: the head, then the linked-action sentence only
      when `value` is non-empty, then the duration sentence only when
      `value` has at least two entries. */
  lemma PollShape(t: ActionTable, a: Action, fuel: nat)
    requires a.kind == Poll
    ensures Render(t, a, fuel).Ok? <==> PollLinked(t, a.value, fuel).Ok?
    ensures |a.value| == 0 ==> Render(t, a, fuel) == Ok(PollHead(a.target))
    ensures |a.value| == 1 && Render(t, a, fuel).Ok? ==>
      Render(t, a, fuel).value
        == PollHead(a.target) + (" Jeśli głosowanie przejdzie, wykonaj akcję: "
           + RenderRef(t, a.value[0], fuel).value + ".")
    ensures |a.value| >= 2 && Render(t, a, fuel).Ok? ==>
      Render(t, a, fuel).value
        == PollHead(a.target) + (" Jeśli głosowanie przejdzie, wykonaj akcję: "
           + RenderRef(t, a.value[0], fuel).value + ".")
           + (" Głosowanie będzie trwało " + a.value[1] + " sekund.")
  {
    if |a.value| == 0 {
      assert PollHead(a.target) + "" + "" == PollHead(a.target);
    } else if |a.value| == 1 {
      assert PollDuration(a.value) == "";
      if RenderRef(t, a.value[0], fuel).Ok? {
        var x := PollHead(a.target) + (" Jeśli głosowanie przejdzie, wykonaj akcję: "
           + RenderRef(t, a.value[0], fuel).value + ".");
        assert x + "" == x;
      }
    }
  }

  /** A delete-message description mentions a delay only when there is one. */
  lemma DeleteShape(t: ActionTable, a: Action, fuel: nat)
    requires a.kind == DeleteMessage
    ensures |a.value| == 0 ==> Render(t, a, fuel) == Ok("Usuń wiadomość")
    ensures |a.value| > 0 ==> Render(t, a, fuel) == Ok("Usuń wiadomość po " + a.value[0] + " sekundach")
  {
    if |a.value| == 0 {
      assert "Usuń wiadomość" + "" == "Usuń wiadomość";
    } else {
      assert "Usuń wiadomość" + (" po " + a.value[0] + " sekundach") == "Usuń wiadomość po " + a.value[0] + " sekundach";
    }
  }

  /** More recursion budget never changes a description that already
      succeeded. */
  lemma {:induction false} RenderFuelMonotone(t: ActionTable, a: Action, fuel: nat, more: nat)
    requires fuel <= more
    requires Render(t, a, fuel).Ok?
    ensures Render(t, a, more) == Render(t, a, fuel)
    decreases fuel, 3, 0
  {
    match a.kind
    case Poll =>
      if |a.value| > 0 {
        RefFuelMonotone(t, a.value[0], fuel, more);
      }
    case Chain => ChainFuelMonotone(t, a.value, fuel, more);
    case _ =>
  }

  lemma {:induction false} RefFuelMonotone(t: ActionTable, idText: string, fuel: nat, more: nat)
    requires fuel <= more
    requires RenderRef(t, idText, fuel).Ok?
    ensures RenderRef(t, idText, more) == RenderRef(t, idText, fuel)
    decreases fuel, 1, 0
  {
    var found := Lookup(t, idText);
    if found.Ok? && found.value.Some? {
      RenderFuelMonotone(t, found.value.value, fuel - 1, more - 1);
    }
  }

  lemma {:induction false} ChainFuelMonotone(t: ActionTable, ids: seq<string>, fuel: nat, more: nat)
    requires fuel <= more
    requires RenderChain(t, ids, fuel).Ok?
    ensures RenderChain(t, ids, more) == RenderChain(t, ids, fuel)
    decreases fuel, 2, |ids|
  {
    if |ids| > 0 {
      RefFuelMonotone(t, ids[0], fuel, more);
      ChainFuelMonotone(t, ids[1..], fuel, more);
    }
  }
}
