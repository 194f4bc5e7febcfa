/**
 How the three collections are obtained at start-up. Reading and parsing a
 JSON file is outside the model: what a load sees is one of "the file does
 not exist", "the file exists but is not valid JSON" and "the file parsed to
 this value". A load yields the value the store starts with, whether it
 showed the corruption warning, and whether it wrote its default back.
 */
module Persistence {
  import opened Ledger

  datatype Source<T> = Missing | Unparsable | Parsed(value: T)

  datatype Loaded<T> = Loaded(value: T, warned: bool, saved: bool)

  type Users = map<string, string>

  /** The only account a brand-new installation has. */
  const DefaultUsers: Users := map["admin" := "admin123"]

  /** `load_users`: the default account stands in for a missing, corrupt or
      empty file, and is then written back; a non-empty file is used as it is. */
  function LoadUsers(f: Source<Users>): (r: Loaded<Users>)
    ensures r.value != map[]
    ensures r.warned <==> f.Unparsable?
  {
    assert "admin" in DefaultUsers;
    match f
    case Missing => Loaded(DefaultUsers, false, true)
    case Unparsable => Loaded(DefaultUsers, true, true)
    case Parsed(users) =>
      if users == map[] then Loaded(DefaultUsers, false, true)
      else Loaded(users, false, false)
  }

  /** `load_votes`: an empty ledger for a missing or corrupt file; never writes. */
  function LoadVotes(f: Source<Dict>): (r: Loaded<Dict>)
    ensures !r.saved
    ensures r.warned <==> f.Unparsable?
    ensures !f.Parsed? ==> r.value == []
    ensures f.Parsed? ==> r.value == f.value
  {
    match f
    case Missing => Loaded([], false, false)
    case Unparsable => Loaded([], true, false)
    case Parsed(votes) => Loaded(votes, false, false)
  }

  /** `load_teams`: an empty team list for a missing or corrupt file; never writes. */
  function LoadTeams(f: Source<seq<string>>): (r: Loaded<seq<string>>)
    ensures !r.saved
    ensures r.warned <==> f.Unparsable?
    ensures !f.Parsed? ==> r.value == []
    ensures f.Parsed? ==> r.value == f.value
  {
    match f
    case Missing => Loaded([], false, false)
    case Unparsable => Loaded([], true, false)
    case Parsed(teams) => Loaded(teams, false, false)
  }

  /** The users file once `load_users` has run: its default, if it wrote one. */
  function UsersFileAfter(f: Source<Users>): Source<Users> {
    var r := LoadUsers(f);
    if r.saved then Parsed(r.value) else f
  }

  /** `load_users` falls back to the default exactly when the file does not hold
      a non-empty user map, and it writes exactly when it falls back. */
  lemma LoadUsersDefaults(f: Source<Users>)
    ensures LoadUsers(f).saved <==> !(f.Parsed? && f.value != map[])
    ensures LoadUsers(f).saved ==> LoadUsers(f).value == DefaultUsers
    ensures !LoadUsers(f).saved ==> f.Parsed? && LoadUsers(f).value == f.value
  {
  }

  /** Saving a user map and loading it back yields it again, unless it is empty. */
  lemma UsersRoundTrip(users: Users)
    ensures LoadUsers(Parsed(users)).value == users <==> users != map[]
  {
    assert "admin" in DefaultUsers;
  }

  /** Loading the users twice yields the same map, and the second load writes nothing. */
  lemma LoadUsersIdempotent(f: Source<Users>)
    ensures LoadUsers(UsersFileAfter(f)).value == LoadUsers(f).value
    ensures !LoadUsers(UsersFileAfter(f)).saved
  {
  }

  /** Saved votes and teams load back unchanged, whatever they hold. */
  lemma VotesAndTeamsRoundTrip(votes: Dict, teams: seq<string>)
    ensures LoadVotes(Parsed(votes)).value == votes
    ensures LoadTeams(Parsed(teams)).value == teams
  {
  }

  /** A loaded ledger is a dictionary when the file held one. */
  lemma LoadVotesDistinct(f: Source<Dict>)
    requires f.Parsed? ==> DistinctKeys(f.value)
    ensures DistinctKeys(LoadVotes(f).value)
  {
  }
}
