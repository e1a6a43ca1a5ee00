/** Session bookkeeping of the server: tokens and the time of each user's last request. */
module Sessions {
  import opened Basics
  import opened Tokens

  datatype Error = IncorrectUsername | IncorrectRoomName

  /** The two maps of a session manager: token to user, and user to time of last activity. */
  datatype SessionState = SessionState(users: map<string, string>, lastSeen: map<string, int>)

  const NO_SESSIONS := SessionState(map[], map[])

  function Touched(s: SessionState, user: string, now: int): SessionState {
    if user == "" then s else s.(lastSeen := s.lastSeen[user := now])
  }

  function Created(s: SessionState, user: string, second: nat): SessionState {
    if user == "" then s else s.(users := s.users[Token(user, second) := user])
  }

  function TokensOf(s: SessionState, user: string): set<string> {
    set t | t in s.users && s.users[t] == user
  }

  /** Which token a removal may delete: any one of the user's, and none only if there is none. */
  predicate MayDelete(s: SessionState, user: string, token: Option<string>) {
    match token
    case Some(t) => t in TokensOf(s, user)
    case None => TokensOf(s, user) == {}
  }

  function Removed(s: SessionState, user: string, token: Option<string>): SessionState {
    if user == "" then s
    else SessionState(if token.Some? then s.users - {token.value} else s.users, s.lastSeen - {user})
  }

  predicate IsDead(s: SessionState, user: string, now: int, timeout: int) {
    user in s.lastSeen && now - s.lastSeen[user] > timeout
  }

  /** `dead` lists exactly the users silent for more than `timeout`, each once, in some order. */
  ghost predicate ListsDead(s: SessionState, now: int, timeout: int, dead: seq<string>) {
    && (forall i, j | 0 <= i < j < |dead| :: dead[i] != dead[j])
    && (forall u :: u in dead <==> IsDead(s, u, now, timeout))
  }

  class SessionManager {
    var users: map<string, string>
    var lastSeen: map<string, int>

    ghost function State(): SessionState
      reads this
    {
      SessionState(users, lastSeen)
    }

    /** Nobody is tracked under the empty name. */
    ghost predicate Valid()
      reads this
    {
      "" !in lastSeen
    }

    constructor ()
      ensures Valid() && State() == NO_SESSIONS
    {
      users, lastSeen := map[], map[];
    }

    /** `second` is the Unix time read while the lock is held. */
    method CreateSession(username: string, second: nat) returns (token: string, err: Option<Error>)
      requires Valid()
      modifies this`users
      ensures Valid()
      ensures State() == Created(old(State()), username, second)
      ensures username == "" ==> token == "" && err == Some(IncorrectUsername)
      ensures username != "" ==> token == Token(username, second) && err == None
    {
      if username == "" {
        return "", Some(IncorrectUsername);
      }
      token := Token(username, second);
      users := users[token := username];
      err := None;
    }

    method TouchUser(username: string, now: int) returns (err: Option<Error>)
      requires Valid()
      modifies this`lastSeen
      ensures Valid()
      ensures State() == Touched(old(State()), username, now)
      ensures err == if username == "" then Some(IncorrectUsername) else None
    {
      if username == "" {
        return Some(IncorrectUsername);
      }
      lastSeen := lastSeen[username := now];
      err := None;
    }

    /** The map is visited in an arbitrary order and the visit stops at the first token found. */
    method RemoveUser(username: string) returns (err: Option<Error>, ghost deleted: Option<string>)
      requires Valid()
      modifies this
      ensures Valid()
      ensures username != "" ==> MayDelete(old(State()), username, deleted)
      ensures State() == Removed(old(State()), username, deleted)
      ensures err == if username == "" then Some(IncorrectUsername) else None
    {
      deleted := None;
      if username == "" {
        return Some(IncorrectUsername), None;
      }
      lastSeen := lastSeen - {username};
      var unvisited := users.Keys;
      while unvisited != {}
        invariant unvisited <= users.Keys
        invariant users == old(users) && deleted == None
        invariant forall t | t in users && t !in unvisited :: users[t] != username
      {
        var token :| token in unvisited;
        unvisited := unvisited - {token};
        if users[token] == username {
          users := users - {token};
          deleted := Some(token);
          break;
        }
      }
      err := None;
    }

    method GetDeadUsers(timeout: int, now: int) returns (dead: seq<string>)
      ensures ListsDead(State(), now, timeout, dead)
    {
      dead := [];
      var unvisited := lastSeen.Keys;
      while unvisited != {}
        invariant unvisited <= lastSeen.Keys
        invariant forall i, j | 0 <= i < j < |dead| :: dead[i] != dead[j]
        invariant forall u :: u in dead <==> u !in unvisited && IsDead(State(), u, now, timeout)
      {
        var user :| user in unvisited;
        unvisited := unvisited - {user};
        if now - lastSeen[user] > timeout {
          dead := dead + [user];
        }
      }
    }
  }

  // ------------------------------------------------------------------ every run of session calls

  /** One call on the manager, with the choices the clock and the map order make for it. */
  datatype SessionCall =
    | Login(user: string, second: nat)
    | Touch(user: string, now: int)
    | Remove(user: string, deleted: Option<string>)

  function After(s: SessionState, c: SessionCall): SessionState {
    match c
    case Login(u, second) => Created(s, u, second)
    case Touch(u, now) => Touched(s, u, now)
    case Remove(u, deleted) => Removed(s, u, deleted)
  }

  function Run(calls: seq<SessionCall>): SessionState {
    if calls == [] then NO_SESSIONS else After(Run(calls[..|calls| - 1]), calls[|calls| - 1])
  }

  /** Every removal of the run deletes a token that the state allows it to delete. */
  predicate Possible(calls: seq<SessionCall>) {
    calls == [] ||
    (var rest, c := calls[..|calls| - 1], calls[|calls| - 1];
     Possible(rest) && (c.Remove? && c.user != "" ==> MayDelete(Run(rest), c.user, c.deleted)))
  }

  /** Every stored token decodes to the non-empty user stored under it. */
  predicate WellKeyed(s: SessionState) {
    && (forall t | t in s.users ::
          s.users[t] != "" && Decode(t).Some? && Decode(t).value.0 == s.users[t])
    && "" !in s.lastSeen
  }

  lemma AfterKeepsWellKeyed(s: SessionState, c: SessionCall)
    requires WellKeyed(s)
    ensures WellKeyed(After(s, c))
  {
    if c.Login? {
      DecodeToken(c.user, c.second);
    }
  }

  lemma {:induction false} RunIsWellKeyed(calls: seq<SessionCall>)
    ensures WellKeyed(Run(calls))
  {
    if calls != [] {
      RunIsWellKeyed(calls[..|calls| - 1]);
      AfterKeepsWellKeyed(Run(calls[..|calls| - 1]), calls[|calls| - 1]);
    }
  }

  /** In every reachable state a login never takes over a token that belongs to another user. */
  lemma LoginKeepsForeignTokens(calls: seq<SessionCall>, user: string, second: nat)
    ensures var s := Run(calls);
            Token(user, second) in s.users ==> s.users[Token(user, second)] == user
  {
    RunIsWellKeyed(calls);
    DecodeToken(user, second);
  }

  /** Logins of `user` in the run that stored a token not stored before. */
  function NewTokens(calls: seq<SessionCall>, user: string): nat {
    if calls == [] then 0
    else
      var rest, c := calls[..|calls| - 1], calls[|calls| - 1];
      NewTokens(rest, user) +
      if c.Login? && c.user == user && Token(user, c.second) !in Run(rest).users then 1 else 0
  }

  /** Removals of `user` in the run that found a token. */
  function Deletions(calls: seq<SessionCall>, user: string): nat {
    if calls == [] then 0
    else
      var rest, c := calls[..|calls| - 1], calls[|calls| - 1];
      Deletions(rest, user) + if c.Remove? && c.user == user && c.deleted.Some? then 1 else 0
  }

  /** What one call does to the tokens and the activity of each user. */
  lemma TokensAfter(s: SessionState, c: SessionCall, user: string)
    requires WellKeyed(s) && user != ""
    requires c.Remove? && c.user != "" ==> MayDelete(s, c.user, c.deleted)
    ensures c.user != user ==> TokensOf(After(s, c), user) == TokensOf(s, user)
    ensures c.user != user ==>
              (user in After(s, c).lastSeen <==> user in s.lastSeen) &&
              (user in s.lastSeen ==> After(s, c).lastSeen[user] == s.lastSeen[user])
    ensures c.user == user && c.Login? ==>
              TokensOf(After(s, c), user) == TokensOf(s, user) + {Token(user, c.second)} &&
              (Token(user, c.second) in TokensOf(s, user) <==> Token(user, c.second) in s.users)
    ensures c.user == user && c.Remove? ==>
              TokensOf(After(s, c), user) ==
              TokensOf(s, user) - (if c.deleted.Some? then {c.deleted.value} else {})
    ensures c.Touch? ==> TokensOf(After(s, c), user) == TokensOf(s, user)
  {
    if c.Login? {
      DecodeToken(c.user, c.second);
    }
  }

  /** Conservation: the live tokens of a user are the tokens its logins created minus those its
      removals deleted, whatever the other users do and whatever order the map is visited in. */
  lemma {:induction false} TokenConservation(calls: seq<SessionCall>, user: string)
    requires Possible(calls) && user != ""
    ensures |TokensOf(Run(calls), user)| == NewTokens(calls, user) - Deletions(calls, user)
  {
    if calls != [] {
      var rest, c := calls[..|calls| - 1], calls[|calls| - 1];
      TokenConservation(rest, user);
      RunIsWellKeyed(rest);
      TokenCountAfter(Run(rest), c, user);
    }
  }

  lemma TokenCountAfter(s: SessionState, c: SessionCall, user: string)
    requires WellKeyed(s) && user != ""
    requires c.Remove? && c.user != "" ==> MayDelete(s, c.user, c.deleted)
    ensures |TokensOf(After(s, c), user)| == |TokensOf(s, user)|
              + (if c.Login? && c.user == user && Token(user, c.second) !in s.users then 1 else 0)
              - (if c.Remove? && c.user == user && c.deleted.Some? then 1 else 0)
  {
    TokensAfter(s, c, user);
    if c.Login? && c.user == user && Token(user, c.second) in s.users {
      assert TokensOf(s, user) + {Token(user, c.second)} == TokensOf(s, user);
    }
  }

  /** Whether the logins and removals of `user` alternate, starting with a login:
      Some(true) after a login, Some(false) after a removal or at the start, None once broken. */
  function Alternation(calls: seq<SessionCall>, user: string): Option<bool> {
    if calls == [] then Some(false)
    else
      var before, c := Alternation(calls[..|calls| - 1], user), calls[|calls| - 1];
      if c.user != user || c.Touch? then before
      else if before == Some(c.Remove?) then Some(c.Login?)
      else None
  }

  /** A user who logs in and is removed in turn has one token while logged in and none after. */
  lemma {:induction false} AlternatingKeepsOneToken(calls: seq<SessionCall>, user: string)
    requires Possible(calls) && user != "" && Alternation(calls, user).Some?
    ensures |TokensOf(Run(calls), user)| == if Alternation(calls, user).value then 1 else 0
  {
    if calls != [] {
      var rest, c := calls[..|calls| - 1], calls[|calls| - 1];
      AlternatingKeepsOneToken(rest, user);
      RunIsWellKeyed(rest);
      TokensAfter(Run(rest), c, user);
      if c.user == user && !c.Touch? && c.Login? {
        assert TokensOf(Run(rest), user) == {};
      }
    }
  }

  /** A removal leaves the user without a token exactly when there was at most one before. */
  lemma RemovalClearsTokensIff(s: SessionState, user: string, deleted: Option<string>)
    requires WellKeyed(s) && user != "" && MayDelete(s, user, deleted)
    ensures TokensOf(Removed(s, user, deleted), user) == {} <==> |TokensOf(s, user)| <= 1
    ensures user !in Removed(s, user, deleted).lastSeen
  {
    TokensAfter(s, Remove(user, deleted), user);
    if deleted.Some? {
      var rest := TokensOf(s, user) - {deleted.value};
      assert |rest| == |TokensOf(s, user)| - 1;
    }
  }

  /** Each of `users` has lost its activity and one of its tokens, if it had any; nobody else has lost
      anything. */
  ghost predicate LostOneEach(s: SessionState, t: SessionState, users: set<string>) {
    && t.lastSeen == s.lastSeen - users
    && forall u :: if u in users then LostOne(TokensOf(s, u), TokensOf(t, u)) else TokensOf(t, u) == TokensOf(s, u)
  }

  predicate LostOne(before: set<string>, after: set<string>) {
    after <= before && |before - after| == Min(1, |before|)
  }

  lemma RemovalLosesOne(s: SessionState, user: string, deleted: Option<string>)
    requires user != "" && MayDelete(s, user, deleted)
    ensures LostOne(TokensOf(s, user), TokensOf(Removed(s, user, deleted), user))
  {
    var before, after := TokensOf(s, user), TokensOf(Removed(s, user, deleted), user);
    if deleted.Some? {
      assert after == before - {deleted.value} && before - after == {deleted.value};
    } else {
      assert before == {} && after == {} && before - after == {};
    }
  }

  lemma RemovalSparesOthers(s: SessionState, user: string, deleted: Option<string>, other: string)
    requires user != "" && MayDelete(s, user, deleted) && other != user
    ensures TokensOf(Removed(s, user, deleted), other) == TokensOf(s, other)
  {
  }

  /** A removal takes one more user's token. */
  lemma OneMoreLost(s: SessionState, t: SessionState, users: set<string>, user: string, deleted: Option<string>)
    requires LostOneEach(s, t, users) && user !in users && user != "" && MayDelete(t, user, deleted)
    ensures LostOneEach(s, Removed(t, user, deleted), users + {user})
  {
    RemovalLosesOne(t, user, deleted);
    forall u | u != user ensures TokensOf(Removed(t, user, deleted), u) == TokensOf(t, u) {
      RemovalSparesOthers(t, user, deleted, u);
    }
  }

  /** The tempting claim that a removal forgets the user altogether fails after two logins. */
  lemma SecondLoginOutlivesRemoval()
    ensures exists calls, user, token ::
              Possible(calls + [Remove(user, Some(token))]) &&
              TokensOf(Run(calls + [Remove(user, Some(token))]), user) != {}
  {
    var calls := [Login("ann", 1), Login("ann", 2)];
    var token := Token("ann", 1);
    TokenCollision("ann", 1, "ann", 2);
    assert calls[..1] == [Login("ann", 1)] && calls[..1][..0] == [];
    assert Run(calls[..1]) == Created(NO_SESSIONS, "ann", 1);
    assert Run(calls) == Created(Run(calls[..1]), "ann", 2);
    var all := calls + [Remove("ann", Some(token))];
    assert all[..2] == calls;
    assert Possible(calls[..1]);
    assert Possible(calls);
    assert token in TokensOf(Run(calls), "ann");
    assert Possible(all);
    assert Token("ann", 2) in TokensOf(Run(all), "ann");
  }
}
