/** Sign-up uniqueness, user lookup by identifier, and the user search. */
module Users {
  import opened Outcomes
  import opened Seqs
  import opened Entities

  /** `users.some((u) => u.email === email || u.username === username)`: sign-up must be refused. */
  predicate Clashes(users: seq<User>, email: string, username: string)
    ensures Clashes(users, email, username) <==> FindByEmail(users, email).Some? || FindByUsername(users, username).Some?
  {
    exists u :: u in users && (u.email == email || u.username == username)
  }

  /** No two users share an email, and no two share a username: what the sign-up check maintains. */
  predicate UniqueLogins(users: seq<User>) {
    forall i, j :: 0 <= i < j < |users| ==> users[i].email != users[j].email && users[i].username != users[j].username
  }

  /** A sign-up that passes the check keeps logins unique. */
  lemma SignUpKeepsLoginsUnique(users: seq<User>, u: User)
    requires UniqueLogins(users) && !Clashes(users, u.email, u.username)
    ensures UniqueLogins(users + [u])
  {
    forall i | 0 <= i < |users|
      ensures users[i].email != u.email && users[i].username != u.username
    {
      assert users[i] in users;
    }
  }

  /** The same when the new user overwrites the entry at `k` (an id collision in a `Map`). */
  lemma ReplaceKeepsLoginsUnique(users: seq<User>, k: nat, u: User)
    requires UniqueLogins(users) && !Clashes(users, u.email, u.username) && k < |users|
    ensures UniqueLogins(users[k := u])
  {
    forall i | 0 <= i < |users|
      ensures users[i].email != u.email && users[i].username != u.username
    {
      assert users[i] in users;
    }
  }

  /** The test `u => u.email === identifier || u.username === identifier`. */
  function Identifies(identifier: string): User -> bool {
    (u: User) => u.email == identifier || u.username == identifier
  }

  /** `findUserByEmailOrUsername` of the localStorage and KV stores: the first user matching either way. */
  function FindByEmailOrUsername(users: seq<User>, identifier: string): (r: Option<User>)
    ensures r.Some? ==> exists i :: 0 <= i < |users| && users[i] == r.value
                          && (r.value.email == identifier || r.value.username == identifier)
                          && forall j :: 0 <= j < i ==> users[j].email != identifier && users[j].username != identifier
    ensures r.None? <==> forall u :: u in users ==> u.email != identifier && u.username != identifier
  {
    Find(users, Identifies(identifier))
  }

  /** `findUserByEmail`: the first user with that email. */
  function FindByEmail(users: seq<User>, email: string): (r: Option<User>)
    ensures r.Some? ==> exists i :: 0 <= i < |users| && users[i] == r.value && r.value.email == email
                          && forall j :: 0 <= j < i ==> users[j].email != email
    ensures r.None? <==> forall u :: u in users ==> u.email != email
  {
    Find(users, (u: User) => u.email == email)
  }

  /** `findUserByUsername`: the first user with that username. */
  function FindByUsername(users: seq<User>, username: string): (r: Option<User>)
    ensures r.Some? ==> exists i :: 0 <= i < |users| && users[i] == r.value && r.value.username == username
                          && forall j :: 0 <= j < i ==> users[j].username != username
    ensures r.None? <==> forall u :: u in users ==> u.username != username
  {
    Find(users, (u: User) => u.username == username)
  }

  /** `findUserByEmail(identifier) || findUserByUsername(identifier)` of the in-memory store. */
  function FindByEmailThenUsername(users: seq<User>, identifier: string): (r: Option<User>)
    ensures (exists u :: u in users && u.email == identifier) ==> r.Some? && r.value.email == identifier
    ensures r.Some? ==> r.value in users && (r.value.email == identifier || r.value.username == identifier)
    ensures r.None? <==> forall u :: u in users ==> u.email != identifier && u.username != identifier
  {
    match FindByEmail(users, identifier)
    case Some(u) => Some(u)
    case None => FindByUsername(users, identifier)
  }

  /** A user who just signed up is found again by email and by username. */
  lemma SignUpThenFind(users: seq<User>, u: User)
    requires !Clashes(users, u.email, u.username)
    ensures FindByEmail(users + [u], u.email) == Some(u)
    ensures FindByUsername(users + [u], u.username) == Some(u)
    ensures FindByEmailThenUsername(users + [u], u.email) == Some(u)
  {
    var s := users + [u];
    assert s[|users|] == u;
    forall j | 0 <= j < |users|
      ensures s[j].email != u.email && s[j].username != u.username
    {
      assert s[j] == users[j] && users[j] in users;
    }
  }

  /**
   * Sign-up only compares emails with emails and usernames with usernames, so one
   * user's username can be another's email; then the two lookups disagree.
   */
  lemma LookupsDisagree()
    ensures var bob := User("1", "bob@example.com", "sam", "Bob", "pw");
            var sam := User("2", "sam", "sammy", "Sam", "pw");
            && !Clashes([bob], sam.email, sam.username)
            && FindByEmailOrUsername([bob, sam], "sam") == Some(bob)
            && FindByEmailThenUsername([bob, sam], "sam") == Some(sam)
  {
    var bob := User("1", "bob@example.com", "sam", "Bob", "pw");
    var sam := User("2", "sam", "sammy", "Sam", "pw");
    var users := [bob, sam];
    assert bob.email != "sam" && bob.username != "sammy";
    assert users[0] == bob && users[1] == sam;
    var r := FindByEmailOrUsername(users, "sam");
    assert r.Some?;
    var e := FindByEmail(users, "sam");
    assert e.Some? && e.value == sam;
  }

  /** ASCII case folding (`toLowerCase` on the ASCII range). */
  function LowerChar(c: char): char {
    if 'A' <= c <= 'Z' then (c as int + 32) as char else c
  }

  /** `toLowerCase` on ASCII: upper-case letters become lower-case, every other character stays. */
  function Lower(s: string): (r: string)
    ensures |r| == |s|
    ensures forall i :: 0 <= i < |s| ==> !('A' <= r[i] <= 'Z')
    ensures forall i :: 0 <= i < |s| && 'A' <= s[i] <= 'Z' ==> r[i] as int == s[i] as int + 32
    ensures forall i :: 0 <= i < |s| && !('A' <= s[i] <= 'Z') ==> r[i] == s[i]
  {
    seq(|s|, i requires 0 <= i < |s| => LowerChar(s[i]))
  }

  /** `sub` occurs in `s` starting at index `i`. */
  predicate OccursAt(s: string, sub: string, i: int) {
    0 <= i <= |s| - |sub| && s[i..i + |sub|] == sub
  }

  /** `s.includes(sub)`. */
  predicate Contains(s: string, sub: string)
    ensures Contains(s, sub) ==> |sub| <= |s|
    ensures sub <= s ==> Contains(s, sub)
    ensures |sub| <= |s| && s[|s| - |sub|..] == sub ==> Contains(s, sub)
  {
    assert sub <= s ==> OccursAt(s, sub, 0);
    assert |sub| <= |s| && s[|s| - |sub|..] == sub ==> OccursAt(s, sub, |s| - |sub|);
    exists i :: 0 <= i <= |s| && OccursAt(s, sub, i)
  }

  /** The email or the username contains the query, ignoring ASCII case. */
  predicate MatchesQuery(u: User, query: string) {
    Contains(Lower(u.email), Lower(query)) || Contains(Lower(u.username), Lower(query))
  }

  /** The test inside `searchUsers`. */
  function IsCandidate(query: string, excludeUserId: UserId): User -> bool {
    (u: User) => u.id != excludeUserId && MatchesQuery(u, query)
  }

  /** `searchUsers(query, excludeUserId)`: the first five matching users other than the caller. */
  function SearchUsers(users: seq<User>, query: string, excludeUserId: UserId): (r: seq<User>)
    ensures |r| <= 5
    ensures forall u :: u in r ==> u in users && u.id != excludeUserId && MatchesQuery(u, query)
    ensures |r| < 5 ==> forall u :: u in users && u.id != excludeUserId && MatchesQuery(u, query) ==> u in r
    ensures r <= Filter(users, IsCandidate(query, excludeUserId))
    ensures |r| == if |Filter(users, IsCandidate(query, excludeUserId))| < 5 then |Filter(users, IsCandidate(query, excludeUserId))| else 5
  {
    var hits := Filter(users, IsCandidate(query, excludeUserId));
    if |hits| <= 5 then hits
    else
      assert forall u :: u in hits[..5] ==> u in hits;
      hits[..5]
  }

  /** Search results come in store order. */
  lemma SearchKeepsOrder(users: seq<User>, query: string, excludeUserId: UserId)
    ensures IsSubsequence(SearchUsers(users, query, excludeUserId), users)
  {
    var hits := Filter(users, IsCandidate(query, excludeUserId));
    FilterIsSubsequence(users, IsCandidate(query, excludeUserId));
    if |hits| > 5 {
      SubsequencePrefix(hits, users, 5);
    }
  }

  /** The empty query matches everyone. */
  lemma EmptyQueryMatches(u: User)
    ensures MatchesQuery(u, "")
  {
    assert Lower("") == "";
    assert OccursAt(Lower(u.email), "", 0);
  }
}
