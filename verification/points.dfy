/** The points commands: the per-message increment, reading a balance,
    giving points to another member, and the leaderboard. */
module Points {
  import opened Wrappers
  import opened Text
  import opened DocStore
  import opened Platform
  import opened Users

  /** A message from a member who is not a bot stamps the author's record
      with the time and adds the message's score; an author without a
      record starts from a new one. `score` is the external rating of the
      content and `loadedAt` the shared default timestamp of new users. */
  function OnMessage(ledger: Ledger, author: Member, score: int, now: int, loadedAt: int): (r: Ledger)
    ensures author.bot ==> r == ledger
  {
    if author.bot then ledger
    else Save(ledger, Stamped(Known(ledger, author.id, loadedAt), score, now))
  }

  /** The stored user with this id, or a new one. */
  function Known(ledger: Ledger, id: int, loadedAt: int): User {
    match GetById(ledger, id) case Some(u) => u case None => NewUser(id, loadedAt)
  }

  function Stamped(u: User, score: int, now: int): User {
    User(u.id, u.points + score, now)
  }

  /** After a message from a member, the author's record holds the previous
      balance (none counts as zero) plus the score, and the message time;
      nobody else's record changes. */
  lemma OnMessageUpdatesAuthor(ledger: Ledger, author: Member, score: int, now: int, loadedAt: int, other: int)
    requires !author.bot
    ensures var before := if HasId(ledger, author.id) then GetById(ledger, author.id).value.points else 0;
      GetById(OnMessage(ledger, author, score, now, loadedAt), author.id) == Some(User(author.id, before + score, now))
    ensures other != author.id ==> GetById(OnMessage(ledger, author, score, now, loadedAt), other) == GetById(ledger, other)
  {
    SaveThenGet(ledger, Stamped(Known(ledger, author.id, loadedAt), score, now), other);
  }

  /** `points`: the caller's balance, read from the first record with the
      caller's id; a caller without a record raises. */
  function ReadPoints(ledger: Ledger, id: int): (r: Result<int>)
    ensures r.Ok? <==> HasId(ledger, id)
    ensures r.Err? ==> r.fault == AttributeError
    ensures r.Ok? ==> exists i | 0 <= i < |ledger.docs| :: ledger.docs[i].id == id && ledger.docs[i].body.points == r.value
    ensures r.Ok? ==> r.value == ledger.docs[FirstIndex(ledger.docs, id)].body.points
  {
    match GetById(ledger, id)
    case None => Err(AttributeError)
    case Some(u) =>
      assert Find(ledger, id) == Some(ledger.docs[FirstIndex(ledger.docs, id)].body);
      Ok(u.points)
  }

  /** `give` as written: a negative amount, an amount over the giver's
      balance, or a receiver without a record changes nothing, and a giver
      without a record raises when the balance is compared. Giver and
      receiver are loaded separately before either is saved, so when they
      are the same member the receiver's save overwrites the giver's. */
  function GivePoints(ledger: Ledger, giver: int, receiver: int, value: int): (r: Result<Ledger>)
    ensures value < 0 ==> r == Ok(ledger)
    ensures value >= 0 && !HasId(ledger, giver) ==> r == Err(AttributeError)
    ensures r.Err? ==> r.fault == AttributeError
  {
    if value < 0 then Ok(ledger)
    else
      match GetById(ledger, giver)
      case None => Err(AttributeError)
      case Some(g) =>
        if value > g.points then Ok(ledger)
        else
          match GetById(ledger, receiver)
          case None => Ok(ledger)
          case Some(rc) =>
            Ok(Transfer(ledger, g, rc, value))
  }

  function Taken(u: User, value: int): User {
    User(u.id, u.points - value, u.lastActivity)
  }

  function Added(u: User, value: int): User {
    User(u.id, u.points + value, u.lastActivity)
  }

  /** The giver's record, as loaded, saved with the amount taken off; then
      the receiver's record, as loaded before that save, saved with the
      amount added. */
  function Transfer(ledger: Ledger, g: User, rc: User, value: int): Ledger {
    Save(Save(ledger, Taken(g, value)), Added(rc, value))
  }

  /** `give` as intended: a member giving to themselves keeps their
      balance; otherwise as written. */
  function GivePointsFixed(ledger: Ledger, giver: int, receiver: int, value: int): (r: Result<Ledger>)
    ensures giver != receiver ==> r == GivePoints(ledger, giver, receiver, value)
    ensures giver == receiver ==> (r.Err? <==> GivePoints(ledger, giver, receiver, value).Err?)
    ensures giver == receiver && r.Ok? ==> r.value == ledger
  {
    if giver == receiver then
      if value >= 0 && !HasId(ledger, giver) then Err(AttributeError) else Ok(ledger)
    else GivePoints(ledger, giver, receiver, value)
  }

  /** A refused transfer (negative, more than the giver holds, or to a
      member without a record) leaves the ledger as it was. */
  lemma RefusedGiveChangesNothing(ledger: Ledger, giver: int, receiver: int, value: int)
    requires HasId(ledger, giver)
    requires value < 0 || value > GetById(ledger, giver).value.points || !HasId(ledger, receiver)
    ensures GivePoints(ledger, giver, receiver, value) == Ok(ledger)
  {
  }

  /** An accepted transfer is the two saves. */
  lemma GiveIsTransfer(ledger: Ledger, giver: int, receiver: int, value: int, g: User, rc: User)
    requires GetById(ledger, giver) == Some(g) && GetById(ledger, receiver) == Some(rc)
    requires 0 <= value <= g.points
    ensures GivePoints(ledger, giver, receiver, value) == Ok(Transfer(ledger, g, rc, value))
  {
  }

  /** Between two different members, the giver's record loses the amount,
      the receiver's gains it, and nobody else's record changes. */
  lemma TransferMoves(ledger: Ledger, g: User, rc: User, value: int, other: int)
    requires g.id != rc.id
    ensures GetById(Transfer(ledger, g, rc, value), g.id) == Some(Taken(g, value))
    ensures GetById(Transfer(ledger, g, rc, value), rc.id) == Some(Added(rc, value))
    ensures other != g.id && other != rc.id ==> GetById(Transfer(ledger, g, rc, value), other) == GetById(ledger, other)
  {
    var first := Save(ledger, Taken(g, value));
    SaveThenGet(ledger, Taken(g, value), other);
    SaveThenGet(first, Added(rc, value), g.id);
    SaveThenGet(first, Added(rc, value), other);
  }

  /** Between two different members with records, an accepted transfer
      moves exactly the amount: the giver loses it, the receiver gains it,
      their total is kept and nobody else's record changes. */
  lemma GiveConserves(ledger: Ledger, giver: int, receiver: int, value: int, other: int, g: User, rc: User)
    requires giver != receiver
    requires GetById(ledger, giver) == Some(g) && GetById(ledger, receiver) == Some(rc)
    requires 0 <= value <= g.points
    ensures GivePoints(ledger, giver, receiver, value) == Ok(Transfer(ledger, g, rc, value))
    ensures var after := Transfer(ledger, g, rc, value);
      && GetById(after, giver) == Some(Taken(g, value))
      && GetById(after, receiver) == Some(Added(rc, value))
      && Taken(g, value).points + Added(rc, value).points == g.points + rc.points
      && (other != giver && other != receiver ==> GetById(after, other) == GetById(ledger, other))
  {
    GiveIsTransfer(ledger, giver, receiver, value, g, rc);
    assert g.id == giver && rc.id == receiver;
    TransferMoves(ledger, g, rc, value, other);
  }

  /** Giving to oneself, as written, adds the amount to one's own balance;
      the intended transfer leaves it as it was. */
  lemma SelfGiveGrows(ledger: Ledger, id: int, value: int, u: User)
    requires GetById(ledger, id) == Some(u) && 0 <= value <= u.points
    ensures var r := GivePoints(ledger, id, id, value);
      r.Ok? && GetById(r.value, id) == Some(User(id, u.points + value, u.lastActivity))
    ensures GivePointsFixed(ledger, id, id, value) == Ok(ledger)
  {
    GiveIsTransfer(ledger, id, id, value, u, u);
    SelfTransfer(ledger, u, value);
  }

  /** The receiver's save, made from the record loaded before the giver's
      save, is the one that stays. */
  lemma SelfTransfer(ledger: Ledger, u: User, value: int)
    ensures GetById(Transfer(ledger, u, u, value), u.id) == Some(Added(u, value))
  {
    SaveThenGet(Save(ledger, Taken(u, value)), Added(u, value), u.id);
  }
}
