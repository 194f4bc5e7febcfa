/**
 The voting application's in-memory store: the credential map `users`, the
 ordered team list `teams` and the vote ledger `votes`, which the program
 keeps as three module-level globals and changes in place. Every change is
 also written to its JSON file; writing is not modelled.
 */
module Voting {
  import opened Lists
  import opened Tally
  import opened Ledger
  import opened Persistence

  /** What the operations report instead of the success and error banners. */
  datatype Status = Ok | DuplicateUser | DuplicateTeam | TeamNotFound

  /** One line of the results table: team, total votes, number of voters. */
  datatype Row = Row(team: string, totalVotes: int, voterCount: nat)

  /** The outcome of "Show Results": the no-teams message, the table, or the
      `KeyError` raised on the ledger entry at position `at`. */
  datatype Results = NoTeams | Table(rows: seq<Row>) | KeyError(at: nat)

  class Store {
    var users: Users
    var teams: seq<string>
    var votes: Dict

    /** The representation invariant: the ledger is a dictionary. */
    ghost predicate Valid()
      reads this
    {
      DistinctKeys(votes)
    }

    /** No team is listed twice. */
    ghost predicate TeamsDistinct()
      reads this
    {
      Distinct(teams)
    }

    /** The teams are exactly the ledger's keys. */
    ghost predicate InStep()
      reads this
    {
      forall t :: t in teams <==> t in Keys(votes)
    }

    /** Every well-formed ledger entry's total is the sum of its voters' votes. */
    ghost predicate Tallied()
      reads this
    {
      forall s :: s in votes ==> Consistent(s.entry)
    }

    /** Start-up: each collection is what its loader yields. */
    constructor Load(usersFile: Source<Users>, votesFile: Source<Dict>, teamsFile: Source<seq<string>>)
      requires votesFile.Parsed? ==> DistinctKeys(votesFile.value)
      ensures Valid()
      ensures users == LoadUsers(usersFile).value
      ensures votes == LoadVotes(votesFile).value
      ensures teams == LoadTeams(teamsFile).value
      ensures !(usersFile.Parsed? && usersFile.value != map[]) ==> Authenticate("admin", "admin123")
    {
      users := LoadUsers(usersFile).value;
      votes := LoadVotes(votesFile).value;
      teams := LoadTeams(teamsFile).value;
      LoadVotesDistinct(votesFile);
    }

    /** `authenticate`: the pair is one of the stored credentials. */
    function Authenticate(username: string, password: string): (ok: bool)
      reads this
      ensures ok <==> (username, password) in users.Items
    {
      username in users && users[username] == password
    }

    /** `register_user`: a new name is added with its password; a taken name is refused. */
    method RegisterUser(username: string, password: string) returns (s: Status)
      modifies this`users
      ensures s == if username in old(users) then DuplicateUser else Ok
      ensures s == Ok ==> users == old(users)[username := password]
      ensures s == DuplicateUser ==> users == old(users)
      ensures s == Ok ==> Authenticate(username, password)
      ensures forall u, p :: u != username ==> (Authenticate(u, p) <==> old(Authenticate(u, p)))
    {
      if username !in users {
        users := users[username := password];
        s := Ok;
      } else {
        s := DuplicateUser;
      }
    }

    /** `add_team`: a new name is appended to the team list and gets a fresh
        ledger entry unless the ledger already has one; a listed name is refused. */
    method AddTeam(name: string) returns (s: Status)
      requires Valid()
      modifies this`teams, this`votes
      ensures Valid()
      ensures s == if name in old(teams) then DuplicateTeam else Ok
      ensures s == DuplicateTeam ==> teams == old(teams) && votes == old(votes)
      ensures s == Ok ==> teams == old(teams) + [name]
      ensures s == Ok ==> votes == if name in Keys(old(votes)) then old(votes) else old(votes) + [Slot(name, Fresh)]
      ensures name in teams
      ensures s == Ok ==> name in Keys(votes)
      ensures old(TeamsDistinct()) ==> TeamsDistinct()
      ensures old(InStep()) ==> InStep()
      ensures old(Tallied()) ==> Tallied()
    {
      if name !in teams {
        if TeamsDistinct() {
          AppendDistinct(teams, name);
        }
        teams := teams + [name];
        if name !in Keys(votes) {
          votes := Put(votes, name, Fresh);
        }
        s := Ok;
      } else {
        s := DuplicateTeam;
      }
    }

    /** `vote_for_team`: the vote is recorded in the team's entry, which keeps its
        place in the ledger; a team without an entry is silently ignored. */
    method VoteForTeam(team: string, value: int, username: string)
      requires Valid()
      modifies this`votes
      ensures Valid()
      ensures Keys(votes) == Keys(old(votes))
      ensures team !in Keys(old(votes)) ==> votes == old(votes)
      ensures team in Keys(old(votes)) ==> Get(votes, team) == Record(Get(old(votes), team), username, value)
      ensures forall k :: k != team && k in Keys(old(votes)) ==> Get(votes, k) == Get(old(votes), k)
      ensures old(Tallied()) ==> Tallied()
    {
      if team in Keys(votes) {
        var e := Get(votes, team);
        if Tallied() {
          RecordKeepsConsistent(e, username, value);
        }
        votes := Put(votes, team, Record(e, username, value));
      }
    }

    /** `delete_team`: the first listing of the name is removed and so is its
        ledger entry, if any; an unlisted name is refused. */
    method DeleteTeam(name: string) returns (s: Status)
      requires Valid()
      modifies this`teams, this`votes
      ensures Valid()
      ensures s == if name in old(teams) then Ok else TeamNotFound
      ensures s == TeamNotFound ==> teams == old(teams) && votes == old(votes)
      ensures s == Ok ==> teams == RemoveFirst(old(teams), name) && votes == Remove(old(votes), name)
      ensures s == Ok ==> name !in Keys(votes)
      ensures s == Ok && old(TeamsDistinct()) ==> name !in teams
      ensures old(TeamsDistinct()) ==> TeamsDistinct()
      ensures old(InStep()) && old(TeamsDistinct()) ==> InStep()
      ensures old(Tallied()) ==> Tallied()
    {
      if name in teams {
        if TeamsDistinct() {
          RemoveFirstDistinct(teams, name);
        }
        teams := RemoveFirst(teams, name);
        if name in Keys(votes) {
          RemoveFirstDistinct(Keys(votes), name);
          votes := Remove(votes, name);
        }
        s := Ok;
      } else {
        s := TeamNotFound;
      }
    }

    /** "Show Results": one row per ledger key, in ledger order, unless there are
        no teams; the first malformed entry met aborts the table. */
    method ShowResults() returns (r: Results)
      ensures r.NoTeams? <==> teams == []
      ensures teams != [] ==> (r.Table? <==> forall i :: 0 <= i < |votes| ==> votes[i].entry.Entry?)
      ensures r.Table? ==> |r.rows| == |votes|
      ensures r.Table? ==> forall i :: 0 <= i < |votes| ==>
        r.rows[i] == Row(votes[i].team, votes[i].entry.totalVotes, |votes[i].entry.voters|)
      ensures r.KeyError? ==> r.at < |votes| && votes[r.at].entry.Malformed?
      ensures r.KeyError? ==> forall i :: 0 <= i < r.at ==> votes[i].entry.Entry?
    {
      if teams == [] {
        return NoTeams;
      }
      var rows: seq<Row> := [];
      var i := 0;
      while i < |votes|
        invariant i <= |votes| && |rows| == i
        invariant forall j :: 0 <= j < i ==> votes[j].entry.Entry?
        invariant forall j :: 0 <= j < i ==>
          rows[j] == Row(votes[j].team, votes[j].entry.totalVotes, |votes[j].entry.voters|)
      {
        var slot := votes[i];
        if slot.entry.Malformed? {
          return KeyError(i);
        }
        rows := rows + [Row(slot.team, slot.entry.totalVotes, |slot.entry.voters|)];
        i := i + 1;
      }
      return Table(rows);
    }
  }
}
