# Voting store, modelled in Dafny

The voting application keeps three collections in memory: the credential
map `users` (username to password), the ordered team list `teams`, and the
vote ledger `votes` (team name to `{total_votes, voters}`). At start-up it
loads them from three JSON files, falling back to defaults when a file is
missing or corrupt. Five operations read or change them:

- `authenticate` checks a username/password pair;
- `register_user` adds an account;
- `add_team` and `delete_team` keep the team list and the ledger keys in step;
- `vote_for_team` adds to a running total and appends a voter record.

"Show Results" turns the ledger into (team, total, voter count) rows.

The model has six modules:

- `Lists` (lists.dfy): the Python list operations used: membership, first position, `list.remove`.
- `Tally` (tally.dfy): voter records, ledger entries and what one vote does to an entry.
  `Entry.Malformed` stands for any ledger value that fails the shape check of `vote_for_team`.
- `Ledger` (ledger.dfy): the `votes` dictionary. It is a sequence of (team, entry) slots, so
  Python's insertion order is kept. Overwriting a key keeps its slot, a new key is appended,
  and `del` splices the slot out.
- `Persistence` (persistence.dfy): the defaulting rules of `load_users`, `load_votes` and
  `load_teams`. They work on an abstract "missing / unparsable / parsed value" input and
  report whether the corruption warning was shown and whether a default was written back.
- `Voting` (voting.dfy): class `Store`, whose fields `users`, `teams` and `votes` the
  methods update in place. Status codes (`Ok`, `DuplicateUser`, `DuplicateTeam`,
  `TeamNotFound`) stand in for the success and error banners.
- `Scenarios` (scenarios.dfy): client code of `Store`.

The store's invariants are predicates that each changing method is proved to preserve:

- `Valid`: the ledger's keys are distinct.
- `TeamsDistinct`: the team list has no duplicates.
- `InStep`: the team names are exactly the ledger keys.
- `Tallied`: every well-formed entry's total equals the sum of its recorded votes.

`Scenarios` proves four usage scenarios from the operations' contracts alone.

The model follows the code in these places, which are easy to misread:

- Only `load_users` writes its default back to disk. `load_votes` and `load_teams` return `{}` resp.
  `[]` without creating the file (voting.py:37-63).
- A corrupt or missing votes or teams file gives an empty value, but a parsed empty users file is
  replaced by the default account. A parsed empty votes or teams file is used as is.
- "A team's ledger entry exists iff the team is listed" is not guaranteed by the code: loaded
  files may violate it, and `delete_team` keeps it only when the team list has no duplicates.
  The model states it as `InStep` and proves it is preserved under exactly those conditions.

## Model

| member | source | states |
|---|---|---|
| `Persistence.LoadUsers` | voting.py:12-31 | the loaded user map is never empty; the corruption warning is shown exactly for an unparsable file |
| `Persistence.LoadUsersDefaults` | voting.py:13-31 | the default `{"admin": "admin123"}` is used, and written back, exactly when the file does not parse to a non-empty map; otherwise the parsed map is used unchanged and nothing is written |
| `Persistence.UsersRoundTrip` | voting.py:12-35 | a saved user map loads back unchanged if and only if it is non-empty |
| `Persistence.LoadUsersIdempotent` | voting.py:12-31 | loading the users a second time, from the file the first load left, gives the same map and writes nothing |
| `Persistence.LoadVotes` | voting.py:37-47 | a missing or unparsable votes file yields the empty ledger `{}`, a parsed one its parsed value; the loader never writes and warns exactly for an unparsable file |
| `Persistence.LoadTeams` | voting.py:53-63 | a missing or unparsable teams file yields the empty list `[]`, a parsed one its parsed value; the loader never writes and warns exactly for an unparsable file |
| `Persistence.VotesAndTeamsRoundTrip` | voting.py:37-67 | saved votes and teams load back unchanged, whatever they hold |
| `Voting.Store.Load` | voting.py:70-72 | the store starts with what the three loaders yield, its ledger is a dictionary, and unless the users file parsed to a non-empty map, `admin`/`admin123` authenticates |
| `Voting.Store.Authenticate` | voting.py:81-84 | true exactly when the (username, password) pair is one of the stored credentials |
| `Voting.Store.RegisterUser` | voting.py:87-93 | a new username is added with its password and nothing else changes, after which the pair authenticates; a taken username leaves `users` unchanged and yields `DuplicateUser`; no other user's authentication changes |
| `Voting.Store.AddTeam` | voting.py:96-105 | a new name is appended to `teams`, and a fresh `{0, []}` entry is appended to the ledger only if the name is not a key yet, so an existing entry is never overwritten; a listed name changes nothing and yields `DuplicateTeam`; distinct teams, the team/ledger correspondence and the tally invariant are preserved |
| `Voting.Store.VoteForTeam` | voting.py:108-116 | the ledger keys and their order never change; a team that is not a key is a no-op; otherwise that entry becomes the one `Tally.Record` gives and every other entry is untouched; the tally invariant is preserved |
| `Voting.Store.DeleteTeam` | voting.py:119-128 | a listed name loses its first listing and its ledger key, if it had one; an unlisted name changes nothing and yields `TeamNotFound`; with distinct teams the name is then absent from both, and the team/ledger correspondence is preserved |
| `Voting.Store.ShowResults` | voting.py:195-209 | with no teams, the no-teams message; otherwise one row (team, total, number of voters) per ledger key in ledger order when every entry is well-formed, and otherwise the error raised at the first malformed entry |
| `Tally.Record` | voting.py:109-116 | a well-formed entry gets the value added to its total and exactly one `{username, vote}` record appended at the end; a malformed entry is replaced by `{value, [{username, value}]}` |
| `Tally.RecordKeepsConsistent` | voting.py:110-116 | casting a vote keeps "total equals the sum of recorded votes", and establishes it for a replaced malformed entry |
| `Tally.ReplayTotals` | voting.py:111-112 | after any run of votes on a well-formed entry, the total has grown by their sum and the records are the old ones followed by the new ones in order |
| `Tally.ReplayFromFresh` | voting.py:101 | an entry created by `add_team` and then voted on always has total equal to the sum of its records |
| `Ledger.Keys` | voting.py:197 | the keys of the ledger in iteration order: the i-th key is the team of the i-th slot, so `team_name in votes` (lines 100, 109, 123) is membership in this sequence |
| `Ledger.Get` | voting.py:110-112 | `votes[team_name]` is a value stored under that key, and in a dictionary the only one |
| `Ledger.Put` | voting.py:115 | assigning to an existing key keeps the key order and its position; a new key goes last; only that key's value changes; keys stay distinct |
| `Ledger.Remove` | voting.py:124 | `del` removes the key without reordering the others, leaves every other key's value alone and keeps keys distinct |
| `Ledger.ReAddedKeyGoesLast` | voting.py:100-124 | a key deleted and assigned again comes last in iteration order |
| `Lists.RemoveFirst` | voting.py:121 | `teams.remove` drops exactly one occurrence, the first, and keeps the rest in order |
| `Lists.RemoveFirstDistinct` | voting.py:119-122 | on a duplicate-free list the removed name is gone entirely, every other name stays and the list stays duplicate-free |
| `Scenarios.FreshStore` | voting.py:70-72 | start-up with none of the three files gives the users `{"admin": "admin123"}`, no teams and an empty ledger |
| `Scenarios.RedGetsSeven` | voting.py:193-207 | register alice, add Red, vote 7: the table is `[("Red", 7, 1)]` and Red's voter list is `[alice voted 7]` |
| `Scenarios.AddRedTwice` | voting.py:96-105 | adding Red twice: the second attempt yields `DuplicateTeam` and Red is listed once |
| `Scenarios.RegisterTwice` | voting.py:87-93 | registering a name twice: the second attempt yields `DuplicateUser` and the user count is unchanged |
| `Scenarios.DeleteCascades` | voting.py:119-128 | add X, vote for X, delete X: X is in neither the team list nor the ledger |

## Left out

- The Streamlit interface and session state (voting.py:74-78, 130-209 apart from the results loop): forms, buttons, the login flag and current user, the password/confirm comparison at line 153, and the non-empty checks on the team name fields. The vote value's 1 to 10 range comes only from the slider at line 184, so `VoteForTeam` accepts any integer.
- File I/O and JSON: `save_users`, `save_votes` and `save_teams`, `open`, `json.load`, `json.dump` and `os.path.exists` are library calls. Saving is not modelled at all. Loading is modelled only as the choice among missing, unparsable and parsed input, and the write-back is only a flag. I/O errors such as a missing permission propagate in the program and are not modelled.
- Because saving is not modelled, nothing models a crash between the two writes of `add_team` or `delete_team`, which can leave a team without a ledger entry or the reverse.
- JSON shapes: a users file that is not a string-to-string object, a teams file that is not a list of strings, or a votes file that is not an object is outside the model. The same goes for an entry that has both keys but values of the wrong type, for which `+=` or `len` would raise. `Entry.Malformed` covers only the shape check at line 110. A parsed votes object is assumed to have distinct keys.
- `Voting.Store.ShowResults`: one `KeyError` result stands for every exception the loop at lines 197-198 can raise on a malformed entry (a missing key or a non-dictionary value).
- The per-team voter breakdown at lines 204-207 is rendering only. Its data is the entry's `voters` list, which `Scenarios.RedGetsSeven` reads.
- The `pandas.DataFrame` and `st.write` output: the row list is modelled instead.
- `vote_for_team` changes the inner dictionary in place through `+=` and `append`. Nothing else refers to that dictionary, so the model replaces the entry's value at the same key instead.
- Concurrent sessions and lost updates between writers: there is no code for them.
