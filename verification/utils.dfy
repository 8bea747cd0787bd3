/** The administrator predicate and the two mention parsers. */
module Utils {
  import opened Wrappers
  import opened Text
  import opened Platform

  /** Some role in the list carries the administrator permission. */
  function AnyAdministrator(roles: seq<Role>): (r: bool)
    ensures r <==> exists i | 0 <= i < |roles| :: roles[i].administrator
  {
    if |roles| == 0 then false
    else if roles[0].administrator then true
    else
      var rest := AnyAdministrator(roles[1..]);
      assert rest <==> exists i | 1 <= i < |roles| :: roles[i].administrator by {
        if rest {
          var i :| 0 <= i < |roles[1..]| && roles[1..][i].administrator;
          assert roles[i + 1].administrator;
        }
      }
      rest
  }

  /** Bots count as administrators; anyone else needs a role with the
      administrator permission. */
  function IsAdmin(m: Member): (r: bool)
    ensures m.bot ==> r
    ensures !m.bot ==> (r <==> exists i | 0 <= i < |m.roles| :: m.roles[i].administrator)
  {
    m.bot || AnyAdministrator(m.roles)
  }

  /** The first role with the given id, as `discord.utils.get` returns it. */
  function FindRole(roles: seq<Role>, id: int): (r: Option<Role>)
    ensures r.Some? ==> r.value in roles && r.value.id == id
    ensures r.None? ==> forall i :: 0 <= i < |roles| ==> roles[i].id != id
  {
    if |roles| == 0 then None
    else if roles[0].id == id then Some(roles[0])
    else FindRole(roles[1..], id)
  }

  /** `<@&ID>` to the server role with that id: the id is the mention with
      its first three characters and its last one dropped. A non-numeric id
      raises; an unknown role is no role. */
  function RoleFromMention(guild: Guild, mention: string): (r: Result<Option<Role>>)
    ensures r.Err? <==> ParseInt(Strip(mention, 3)).None?
    ensures r.Err? ==> r.fault == ValueError
    ensures r.Ok? && r.value.Some? ==>
      r.value.value in guild.roles && Some(r.value.value.id) == ParseInt(Strip(mention, 3))
    ensures r.Ok? && r.value.None? ==>
      forall i :: 0 <= i < |guild.roles| ==> Some(guild.roles[i].id) != ParseInt(Strip(mention, 3))
  {
    var id :- ToInt(Strip(mention, 3));
    Ok(FindRole(guild.roles, id))
  }

  /** `<@ID>` to the member with that id: the id is the mention with its
      first two characters and its last one dropped. A non-numeric id
      raises, and so does a fetch of someone who is not a member. */
  function MemberFromMention(guild: Guild, mention: string): (r: Result<Member>)
    ensures ParseInt(Strip(mention, 2)).None? ==> r == Err(ValueError)
    ensures ParseInt(Strip(mention, 2)).Some? ==>
      var id := ParseInt(Strip(mention, 2)).value;
      (if id in guild.members then r == Ok(guild.members[id]) else r == Err(NotFound))
  {
    var id :- ToInt(Strip(mention, 2));
    if id in guild.members then Ok(guild.members[id]) else Err(NotFound)
  }

  /** The canonical role mention of a role id resolves to that role when the
      server has one with that id, and to no role otherwise. */
  lemma RoleMentionRoundTrip(guild: Guild, id: int)
    ensures var r := RoleFromMention(guild, "<@&" + IntToString(id) + ">");
      && r.Ok?
      && (r.value.Some? <==> exists i | 0 <= i < |guild.roles| :: guild.roles[i].id == id)
      && (r.value.Some? ==> r.value.value.id == id)
  {
    StripWrapped("<@&", IntToString(id), '>');
    IntRoundTrip(id);
  }

  /** The canonical member mention of an id resolves to that member exactly
      when the server has such a member. */
  lemma MemberMentionRoundTrip(guild: Guild, id: int)
    ensures var r := MemberFromMention(guild, "<@" + IntToString(id) + ">");
      && (r.Ok? <==> id in guild.members)
      && (r.Ok? ==> r.value == guild.members[id])
  {
    StripWrapped("<@", IntToString(id), '>');
    IntRoundTrip(id);
  }
}
