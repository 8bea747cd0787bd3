/** The points ledger: one record per chat user with a point balance and
    the time of the user's last activity (seconds on an abstract clock). */
module Users {
  import opened Wrappers
  import opened DocStore

  datatype User = User(id: int, points: int, lastActivity: int)

  /** What the store holds for a user besides the id. */
  datatype UserEntry = UserEntry(points: int, lastActivity: int)

  type Ledger = Table<UserEntry>

  /** A user created without a balance or a timestamp. The default timestamp
      is the clock reading taken once when the module was loaded, so every
      user created this way shares it. */
  function NewUser(id: int, loadedAt: int): (u: User)
    ensures u.id == id && u.points == 0 && u.lastActivity == loadedAt
  {
    User(id, 0, loadedAt)
  }

  function FromEntry(id: int, e: UserEntry): (u: User)
    ensures u.id == id && u.points == e.points && u.lastActivity == e.lastActivity
  {
    User(id, e.points, e.lastActivity)
  }

  /** The first stored user with this id, or none. */
  function GetById(ledger: Ledger, id: int): (r: Option<User>)
    ensures r.None? <==> !HasId(ledger, id)
    ensures r.Some? ==> r.value.id == id
  {
    match Find(ledger, id)
    case Some(e) => Some(FromEntry(id, e))
    case None => None
  }

  /** Upsert on the user's id. */
  function Save(ledger: Ledger, u: User): (r: Ledger)
    ensures HasId(r, u.id)
    ensures r.nextDocId >= ledger.nextDocId
  {
    Upsert(ledger, u.id, UserEntry(u.points, u.lastActivity))
  }

  /** A saved user reads back with the same id, balance and timestamp, and
      nobody else's record changes. */
  lemma SaveThenGet(ledger: Ledger, u: User, other: int)
    ensures GetById(Save(ledger, u), u.id) == Some(u)
    ensures other != u.id ==> GetById(Save(ledger, u), other) == GetById(ledger, other)
  {
    UpsertThenFind(ledger, u.id, UserEntry(u.points, u.lastActivity));
    if other != u.id {
      UpsertKeepsOthers(ledger, u.id, UserEntry(u.points, u.lastActivity), other);
    }
  }

  /** Saving keeps at most one record per user id and adds a record only
      for a user that was not stored yet. */
  lemma SaveKeepsUnique(ledger: Ledger, u: User)
    requires UniqueIds(ledger)
    ensures UniqueIds(Save(ledger, u))
    ensures |Save(ledger, u).docs| == |ledger.docs| + (if HasId(ledger, u.id) then 0 else 1)
  {
    UpsertKeepsUnique(ledger, u.id, UserEntry(u.points, u.lastActivity));
  }
}
