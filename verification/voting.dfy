/** The vote tally shared by poll actions and rule proposals: after the
    wait, the reactions on the poll message are summed, thumbs-up counts
    adding and thumbs-down counts subtracting. */
module Voting {
  import opened Platform

  const Up: string := "👍"
  const Down: string := "👎"

  /** Total count of the reactions with the given unicode emoji. */
  function Count(reactions: seq<Reaction>, emoji: string): nat {
    if |reactions| == 0 then 0
    else
      var last := reactions[|reactions| - 1];
      Count(reactions[..|reactions| - 1], emoji) + (if last.emoji == Unicode(emoji) then last.count else 0)
  }

  /** The net score of a poll. */
  function Net(reactions: seq<Reaction>): int {
    Count(reactions, Up) - Count(reactions, Down)
  }

  /** The tally loop: walk the reactions once, adding each thumbs-up count
      and subtracting each thumbs-down count; it computes the net score. */
  method TallyVotes(reactions: seq<Reaction>) returns (result: int)
    ensures result == Count(reactions, Up) - Count(reactions, Down)
    ensures result > 0 <==> Count(reactions, Up) > Count(reactions, Down)
  {
    result := 0;
    var i := 0;
    while i < |reactions|
      invariant 0 <= i <= |reactions|
      invariant result == Count(reactions[..i], Up) - Count(reactions[..i], Down)
    {
      assert reactions[..i + 1][..i] == reactions[..i];
      if reactions[i].emoji == Unicode(Up) {
        result := result + reactions[i].count;
      } else if reactions[i].emoji == Unicode(Down) {
        result := result - reactions[i].count;
      }
      i := i + 1;
    }
    assert reactions[..i] == reactions;
  }

  /** Votes on separate messages add up: the net score of two batches of
      reactions is the sum of their net scores. */
  lemma {:induction false} NetAppend(a: seq<Reaction>, b: seq<Reaction>)
    ensures Net(a + b) == Net(a) + Net(b)
    decreases |b|
  {
    CountAppend(a, b, Up);
    CountAppend(a, b, Down);
  }

  lemma {:induction false} CountAppend(a: seq<Reaction>, b: seq<Reaction>, emoji: string)
    ensures Count(a + b, emoji) == Count(a, emoji) + Count(b, emoji)
    decreases |b|
  {
    if |b| == 0 {
      assert a + b == a;
    } else {
      assert (a + b)[..|a + b| - 1] == a + b[..|b| - 1];
      CountAppend(a, b[..|b| - 1], emoji);
    }
  }
}
