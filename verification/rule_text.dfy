/** The Polish description of a rule, used in listings, confirmations and
    vote prompts: an optional id prefix, the condition sentence, the
    descriptions of the linked actions that exist, and a line break. */
module RuleText {
  import opened Wrappers
  import opened Text
  import opened DocStore
  import Actions
  import ActionText
  import opened Rules

  const Then: string := ", wykonaj akcje: "

  /** `**<id>**: `, where an unsaved rule's id reads `None`. */
  function IdPrefix(id: Option<int>): (s: string)
    ensures |s| >= 6 && s[..2] == "**"
  {
    "**" + (match id case Some(i) => IntToString(i) case None => "None") + "**: "
  }

  /** The condition sentence as the listing writes it. The case meant for
      `POINTS_GREATER_THAN` repeats the `POINTS_LESS_THAN` case and is never
      reached, so that category has no sentence at all. Categories that show
      `regexes[0]` raise IndexError without it. */
  function Condition(r: Rule): (s: Result<string>)
    ensures s.Err? <==> r.kind in {PointsLessThan, RoleRule, LastActivity} && |r.regexes| == 0
    ensures s.Err? ==> s.fault == IndexError
    ensures r.kind == PointsGreaterThan ==> s == Ok("")
  {
    match r.kind
    case MessageRule => Ok("Jeśli wiadomość zawiera regex: " + ListRepr(r.regexes) + Then)
    case ActivityRule => Ok("Jeśli aktywność zawiera regex: " + ListRepr(r.regexes) + Then)
    case ReactionRule => Ok("Jeśli użytkownik użyje reakcji: " + ListRepr(r.regexes) + Then)
    case NameRule => Ok("Jeśli nazwa użytkownika zawiera regex: " + ListRepr(r.regexes) + Then)
    case PointsLessThan =>
      if |r.regexes| == 0 then Err(IndexError)
      else Ok("Jeśli użytkownik ma mniej niż " + r.regexes[0] + " punktów" + Then)
    case PointsGreaterThan => Ok("")
    case RoleRule =>
      if |r.regexes| == 0 then Err(IndexError)
      else Ok("Jeśli użytkownik ma rolę " + r.regexes[0]
              + (if |r.regexes| > 1 then " i wyśle wiadomość zawierającą regex " + ListRepr(r.regexes[1..]) else "")
              + Then)
    case LastActivity =>
      if |r.regexes| == 0 then Err(IndexError)
      else Ok("Jeśli ostatnia wiadomość użytkownika była ponad " + r.regexes[0] + " minut temu" + Then)
  }

  /** The condition sentence with the second comparison case reaching
      `POINTS_GREATER_THAN`, as its "more than" wording intends. */
  function ConditionFixed(r: Rule): (s: Result<string>)
    ensures r.kind != PointsGreaterThan ==> s == Condition(r)
    ensures r.kind == PointsGreaterThan ==> (s.Err? <==> |r.regexes| == 0)
    ensures r.kind == PointsGreaterThan && |r.regexes| > 0 ==>
      s == Ok("Jeśli użytkownik ma więcej niż " + r.regexes[0] + " punktów" + Then)
  {
    if r.kind == PointsGreaterThan then
      if |r.regexes| == 0 then Err(IndexError)
      else Ok("Jeśli użytkownik ma więcej niż " + r.regexes[0] + " punktów" + Then)
    else Condition(r)
  }

  /** The linked actions that exist, each described and followed by "; ";
      an id with no stored action is skipped. */
  function Linked(t: Actions.ActionTable, ids: seq<int>, fuel: nat): (s: Result<string>)
    ensures |ids| == 0 ==> s == Ok("")
  {
    if |ids| == 0 then Ok("")
    else
      var head :- Piece(t, ids[0], fuel);
      var rest :- Linked(t, ids[1..], fuel);
      Ok(head + rest)
  }

  /** One linked action's part of the description. */
  function Piece(t: Actions.ActionTable, id: int, fuel: nat): (s: Result<string>)
    ensures !HasId(t, id) ==> s == Ok("")
    ensures s.Ok? && HasId(t, id) ==>
      var a := Actions.GetById(t, id);
      |s.value| >= 2 && a.Ok? && a.value.Some?
      && ActionText.Render(t, a.value.value, fuel) == Ok(s.value[..|s.value| - 2])
      && s.value[|s.value| - 2..] == "; "
  {
    match Actions.GetById(t, id)
    case Err(e) => Err(e)
    case Ok(None) => Ok("")
    case Ok(Some(a)) =>
      var d :- ActionText.Render(t, a, fuel);
      var s := d + "; ";
      assert s[..|s| - 2] == d;
      Ok(s)
  }

  /** `rule.to_string(print_id)`. */
  function Render(t: Actions.ActionTable, r: Rule, printId: bool, fuel: nat): (s: Result<string>)
    ensures s.Ok? ==> |s.value| > 0 && s.value[|s.value| - 1] == '\n'
    ensures s.Ok? && printId ==> IdPrefix(r.id) <= s.value
  {
    var cond :- Condition(r);
    var links :- Linked(t, r.actions, fuel);
    Ok(Line(if printId then IdPrefix(r.id) else "", cond, links))
  }

  /** One line of the listing: the prefix, the condition, the linked part. */
  function Line(prefix: string, cond: string, links: string): string
  {
    prefix + cond + links + "\n"
  }

  // ---------------------------------------------------------------------------
  // Properties of the description
  // ---------------------------------------------------------------------------

  /** The linked part exists exactly when every linked action that exists
      has a description (and every stored tag is known). */
  lemma {:induction false} LinkedOkIffPieces(t: Actions.ActionTable, ids: seq<int>, fuel: nat)
    ensures Linked(t, ids, fuel).Ok? <==> forall i :: 0 <= i < |ids| ==> Piece(t, ids[i], fuel).Ok?
    decreases |ids|
  {
    if |ids| > 0 {
      LinkedOkIffPieces(t, ids[1..], fuel);
      assert forall i :: 1 <= i < |ids| ==> ids[1..][i - 1] == ids[i];
    }
  }

  function Pieces(t: Actions.ActionTable, ids: seq<int>, fuel: nat): (parts: seq<string>)
    ensures |parts| == |ids|
    ensures forall i :: 0 <= i < |ids| ==>
      parts[i] == (if Piece(t, ids[i], fuel).Ok? then Piece(t, ids[i], fuel).value else "")
  {
    seq(|ids|, i requires 0 <= i < |ids| =>
      if Piece(t, ids[i], fuel).Ok? then Piece(t, ids[i], fuel).value else "")
  }

  /** The linked part is the pieces in list order: each existing action's
      description followed by "; ", nothing for a missing id. */
  lemma {:induction false} LinkedJoinsPieces(t: Actions.ActionTable, ids: seq<int>, fuel: nat)
    requires Linked(t, ids, fuel).Ok?
    ensures Linked(t, ids, fuel).value == Concat(Pieces(t, ids, fuel))
    decreases |ids|
  {
    if |ids| > 0 {
      LinkedJoinsPieces(t, ids[1..], fuel);
      assert Pieces(t, ids, fuel)[1..] == Pieces(t, ids[1..], fuel);
    }
  }

  /** Linking an id with no stored action changes nothing in the description. */
  lemma MissingLinkIsSkipped(t: Actions.ActionTable, ids: seq<int>, id: int, fuel: nat)
    requires !HasId(t, id)
    ensures Linked(t, [id] + ids, fuel) == Linked(t, ids, fuel)
  {
    assert ([id] + ids)[1..] == ids;
    var rest := Linked(t, ids, fuel);
    if rest.Ok? {
      assert "" + rest.value == rest.value;
    }
  }

  /** Without the id, a description is the condition sentence, the linked
      part and a line break; with it, the id prefix comes first. */
  lemma RenderParts(t: Actions.ActionTable, r: Rule, fuel: nat, cond: string, links: string)
    requires Condition(r) == Ok(cond) && Linked(t, r.actions, fuel) == Ok(links)
    ensures Render(t, r, false, fuel) == Ok(cond + links + "\n")
    ensures Render(t, r, true, fuel) == Ok(IdPrefix(r.id) + cond + links + "\n")
  {
    RenderShape(t, r, true, fuel, cond, links);
    RenderShape(t, r, false, fuel, cond, links);
    LineWithoutPrefix(cond, links);
  }

  lemma LineWithoutPrefix(cond: string, links: string)
    ensures Line("", cond, links) == cond + links + "\n"
  {
    assert "" + cond == cond;
  }

  /** A description once its condition and linked part are known. */
  lemma RenderShape(t: Actions.ActionTable, r: Rule, printId: bool, fuel: nat, cond: string, links: string)
    requires Condition(r) == Ok(cond) && Linked(t, r.actions, fuel) == Ok(links)
    ensures Render(t, r, printId, fuel) == Ok(Line(if printId then IdPrefix(r.id) else "", cond, links))
  {
  }

  /** The listing shows a "more points" rule without any condition: only its
      linked actions and the line break, whatever its bound. */
  lemma GreaterThanHasNoCondition(t: Actions.ActionTable, bound: string)
    ensures var r := Rule(None, PointsGreaterThan, [bound], [], SBool(false));
      Render(t, r, false, 0) == Ok("\n")
      && ConditionFixed(r) == Ok("Jeśli użytkownik ma więcej niż " + bound + " punktów" + Then)
  {
    var r := Rule(None, PointsGreaterThan, [bound], [], SBool(false));
    RenderParts(t, r, 0, "", "");
    assert "" + "" + "\n" == "\n";
  }
}
