/** The `top` command: the stored users by non-increasing balance, each
    named by the member fetch, skipping users the fetch does not find. */
module Leaderboard {
  import opened Text
  import opened DocStore
  import opened Users

  type Record = Doc<UserEntry>

  function Points(r: Record): int {
    r.body.points
  }

  predicate Descending(rs: seq<Record>) {
    forall i, j :: 0 <= i < j < |rs| ==> Points(rs[i]) >= Points(rs[j])
  }

  /** No record has more than `b` points. */
  predicate Bounded(rs: seq<Record>, b: int) {
    forall k :: 0 <= k < |rs| ==> Points(rs[k]) <= b
  }

  /** A record with at least as many points as all of a descending list
      can head it. */
  lemma ConsDescending(y: Record, rest: seq<Record>)
    requires Descending(rest) && Bounded(rest, Points(y))
    ensures Descending([y] + rest)
  {
    var r := [y] + rest;
    forall i, j | 0 <= i < j < |r|
      ensures Points(r[i]) >= Points(r[j])
    {
      assert r[j] == rest[j - 1];
      if i > 0 {
        assert r[i] == rest[i - 1];
      }
    }
  }

  /** The head of a descending list bounds all of it. */
  lemma HeadBounds(rs: seq<Record>)
    requires Descending(rs) && |rs| > 0
    ensures Bounded(rs, Points(rs[0]))
  {
    forall k | 0 <= k < |rs|
      ensures Points(rs[k]) <= Points(rs[0])
    {
      if k > 0 {
        assert Points(rs[0]) >= Points(rs[k]);
      }
    }
  }

  /** A record with no fewer points than the head of a descending list can
      head it. */
  lemma PlaceFirst(x: Record, rs: seq<Record>)
    requires Descending(rs) && (|rs| == 0 || Points(rs[0]) <= Points(x))
    ensures Descending([x] + rs)
  {
    if |rs| > 0 {
      HeadBounds(rs);
    }
    ConsDescending(x, rs);
  }

  /** Places a record before the first one that does not have more points,
      so that among equal balances the earlier record stays first. */
  function Place(x: Record, rs: seq<Record>): (r: seq<Record>)
    requires Descending(rs)
    ensures Descending(r)
    ensures multiset(r) == multiset(rs) + multiset{x}
    ensures forall k :: 0 <= k < |r| ==> r[k] == x || r[k] in rs
  {
    if |rs| == 0 || Points(rs[0]) <= Points(x) then
      PlaceFirst(x, rs);
      [x] + rs
    else
      var rest := Place(x, rs[1..]);
      assert rs == [rs[0]] + rs[1..];
      assert Bounded(rest, Points(rs[0])) by {
        HeadBounds(rs);
        forall k | 0 <= k < |rest|
          ensures Points(rest[k]) <= Points(rs[0])
        {
          if rest[k] != x {
            var m :| 0 <= m < |rs[1..]| && rs[1..][m] == rest[k];
            assert rs[m + 1] == rest[k];
          }
        }
      }
      ConsDescending(rs[0], rest);
      [rs[0]] + rest
  }

  /** `sort(key=points, reverse=True)`: the records by non-increasing
      balance. */
  function SortByPoints(rs: seq<Record>): (r: seq<Record>)
    ensures Descending(r)
    ensures multiset(r) == multiset(rs)
  {
    if |rs| == 0 then []
    else
      assert rs == [rs[0]] + rs[1..];
      Place(rs[0], SortByPoints(rs[1..]))
  }

  /** The records whose member fetch succeeds, in the given order; a failed
      fetch is skipped. `names` holds the members the fetch finds, by id. */
  function Shown(rs: seq<Record>, names: map<int, string>): (r: seq<Record>)
    ensures forall k :: 0 <= k < |r| ==> r[k] in rs && r[k].id in names
    ensures forall i :: 0 <= i < |rs| && rs[i].id in names ==> rs[i] in r
    decreases |rs|
  {
    if |rs| == 0 then []
    else
      var rest := Shown(rs[1..], names);
      assert forall i :: 1 <= i < |rs| ==> rs[i] == rs[1..][i - 1];
      if rs[0].id in names then [rs[0]] + rest else rest
  }

  /** Skipping is decided record by record: the records shown from two
      consecutive stretches are those of the first followed by those of the
      second, so the records kept stay in their given relative order. */
  lemma {:induction false} ShownAppend(xs: seq<Record>, ys: seq<Record>, names: map<int, string>)
    ensures Shown(xs + ys, names) == Shown(xs, names) + Shown(ys, names)
    decreases |xs|
  {
    if |xs| > 0 {
      assert (xs + ys)[1..] == xs[1..] + ys;
      ShownAppend(xs[1..], ys, names);
    } else {
      assert xs + ys == ys;
    }
  }

  /** Skipping members keeps a descending list descending. */
  lemma {:induction false} ShownKeepsOrder(rs: seq<Record>, names: map<int, string>)
    requires Descending(rs)
    ensures Descending(Shown(rs, names))
    decreases |rs|
  {
    if |rs| > 0 {
      var rest := Shown(rs[1..], names);
      ShownKeepsOrder(rs[1..], names);
      if rs[0].id in names {
        HeadBounds(rs);
        forall k | 0 <= k < |rest|
          ensures Points(rest[k]) <= Points(rs[0])
        {
          var i :| 0 <= i < |rs[1..]| && rs[1..][i] == rest[k];
          assert rs[i + 1] == rest[k];
        }
        ConsDescending(rs[0], rest);
      }
    }
  }

  /** One line per shown record: the member's name and the stored balance. */
  function Lines(rs: seq<Record>, names: map<int, string>): string
    requires forall k :: 0 <= k < |rs| ==> rs[k].id in names
  {
    if |rs| == 0 then ""
    else "**" + names[rs[0].id] + ":** " + IntToString(Points(rs[0])) + " punktów\n" + Lines(rs[1..], names)
  }

  /** `top`: every stored user whose member fetch succeeds, by
      non-increasing balance, one line each. */
  function Board(ledger: Ledger, names: map<int, string>): string {
    Lines(Shown(SortByPoints(ledger.docs), names), names)
  }

  /** The leaderboard shows exactly the stored users the fetch finds, in
      non-increasing balance order. */
  lemma BoardOrdered(ledger: Ledger, names: map<int, string>)
    ensures var shown := Shown(SortByPoints(ledger.docs), names);
      && Board(ledger, names) == Lines(shown, names)
      && Descending(shown)
      && (forall k :: 0 <= k < |shown| ==> shown[k] in ledger.docs && shown[k].id in names)
      && (forall i :: 0 <= i < |ledger.docs| && ledger.docs[i].id in names ==> ledger.docs[i] in shown)
  {
    var sorted := SortByPoints(ledger.docs);
    ShownKeepsOrder(sorted, names);
    var shown := Shown(sorted, names);
    forall k | 0 <= k < |shown|
      ensures shown[k] in ledger.docs
    {
      assert shown[k] in multiset(sorted);
    }
    forall i | 0 <= i < |ledger.docs| && ledger.docs[i].id in names
      ensures ledger.docs[i] in shown
    {
      assert ledger.docs[i] in multiset(sorted);
    }
  }
}
