/**
 One team's entry in the vote ledger: a running total and the ordered list
 of voter records `{username, vote}`, or an entry that does not have that
 shape (not a dictionary, or missing `total_votes` or `voters`), which the
 store can meet after loading a hand-edited votes file.
 */
module Tally {

  /** One cast vote, `{"username": ..., "vote": ...}`. */
  datatype Voter = Voter(username: string, vote: int)

  /** A ledger value: well-formed `{"total_votes": ..., "voters": [...]}` or anything else. */
  datatype Entry = Entry(totalVotes: int, voters: seq<Voter>) | Malformed

  /** The entry a newly added team receives: `{"total_votes": 0, "voters": []}`. */
  const Fresh: Entry := Entry(0, [])

  /** The sum of the `vote` fields of a list of voter records. */
  function Sum(voters: seq<Voter>): int {
    if voters == [] then 0 else voters[0].vote + Sum(voters[1..])
  }

  lemma {:induction false} SumAppend(voters: seq<Voter>, v: Voter)
    ensures Sum(voters + [v]) == Sum(voters) + v.vote
  {
    if voters == [] {
      assert [v][1..] == [];
    } else {
      assert (voters + [v])[1..] == voters[1..] + [v];
      SumAppend(voters[1..], v);
    }
  }

  /** The ledger invariant: a well-formed entry's total is the sum of its recorded votes. */
  predicate Consistent(e: Entry) {
    e.Entry? ==> e.totalVotes == Sum(e.voters)
  }

  /** What casting one vote does to a team's entry: a well-formed entry has the
      value added to its total and one record appended; anything else is
      replaced by an entry seeded with this single vote. */
  function Record(e: Entry, username: string, value: int): (r: Entry)
    ensures r.Entry?
    ensures e.Entry? ==> r.totalVotes == e.totalVotes + value && r.voters == e.voters + [Voter(username, value)]
    ensures e.Malformed? ==> r.totalVotes == value && r.voters == [Voter(username, value)]
  {
    match e
    case Entry(total, voters) => Entry(total + value, voters + [Voter(username, value)])
    case Malformed => Entry(value, [Voter(username, value)])
  }

  /** Casting a vote keeps a consistent entry consistent, and turns a malformed one
      into a consistent one. */
  lemma RecordKeepsConsistent(e: Entry, username: string, value: int)
    requires Consistent(e)
    ensures Consistent(Record(e, username, value))
  {
    if e.Entry? {
      SumAppend(e.voters, Voter(username, value));
    }
  }

  /** The entry after casting the given votes one after another. */
  function Replay(e: Entry, ballots: seq<Voter>): Entry
    decreases ballots
  {
    if ballots == [] then e
    else Replay(Record(e, ballots[0].username, ballots[0].vote), ballots[1..])
  }

  /** After any sequence of votes on a well-formed entry, the total has grown by
      their sum and the records are the old ones followed by the ballots in order. */
  lemma {:induction false} ReplayTotals(e: Entry, ballots: seq<Voter>)
    requires e.Entry?
    ensures Replay(e, ballots) == Entry(e.totalVotes + Sum(ballots), e.voters + ballots)
    decreases ballots
  {
    if ballots != [] {
      var b := ballots[0];
      ReplayTotals(Record(e, b.username, b.vote), ballots[1..]);
      assert e.voters + [b] + ballots[1..] == e.voters + ballots;
    }
  }

  /** Starting from a fresh entry, the total is always the sum of the recorded votes. */
  lemma ReplayFromFresh(ballots: seq<Voter>)
    ensures Replay(Fresh, ballots) == Entry(Sum(ballots), ballots)
    ensures Consistent(Replay(Fresh, ballots))
  {
    ReplayTotals(Fresh, ballots);
  }
}
