/**
 Four usage scenarios of the store, each proved from the operations'
 contracts alone.
 */
module Scenarios {
  import opened Tally
  import opened Ledger
  import opened Persistence
  import opened Voting

  /** A fresh installation: no users file, no votes file, no teams file. */
  method FreshStore() returns (store: Store)
    ensures fresh(store) && store.Valid()
    ensures store.users == DefaultUsers && store.teams == [] && store.votes == []
  {
    store := new Store.Load(Missing, Missing, Missing);
  }

  /** Register alice, add Red, let alice give Red 7 points, show the results. */
  method RedGetsSeven() returns (r: Results, voters: seq<Voter>)
    ensures r == Table([Row("Red", 7, 1)])
    ensures voters == [Voter("alice", 7)]
  {
    var store := FreshStore();
    var registered := store.RegisterUser("alice", "pw");
    assert registered == Ok;
    var added := store.AddTeam("Red");
    assert store.votes == [Slot("Red", Fresh)];
    store.VoteForTeam("Red", 7, "alice");
    assert Keys(store.votes) == ["Red"];
    assert store.votes[0] == Slot("Red", Get(store.votes, "Red"));
    r := store.ShowResults();
    voters := Get(store.votes, "Red").voters;
  }

  /** Adding Red twice: the second call is refused and Red is listed once. */
  method AddRedTwice() returns (first: Status, second: Status, teams: seq<string>)
    ensures first == Ok && second == DuplicateTeam
    ensures teams == ["Red"]
  {
    var store := FreshStore();
    first := store.AddTeam("Red");
    second := store.AddTeam("Red");
    teams := store.teams;
  }

  /** Registering a name twice: the second call is refused and the user count stays. */
  method RegisterTwice() returns (second: Status, countBefore: nat, countAfter: nat)
    ensures second == DuplicateUser
    ensures countAfter == countBefore
  {
    var store := FreshStore();
    var first := store.RegisterUser("alice", "pw");
    countBefore := |store.users|;
    second := store.RegisterUser("alice", "other");
    countAfter := |store.users|;
  }

  /** Add X, give it a vote, delete it: X is neither listed nor in the ledger. */
  method DeleteCascades() returns (teams: seq<string>, keys: seq<string>)
    ensures "X" !in teams && "X" !in keys
  {
    var store := FreshStore();
    var added := store.AddTeam("X");
    store.VoteForTeam("X", 5, "alice");
    var deleted := store.DeleteTeam("X");
    teams, keys := store.teams, Keys(store.votes);
  }
}
