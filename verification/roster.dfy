/**
  The participant list of one room: an ordered sequence of user records,
  keyed by display name, and the two list rewrites the coordinator performs
  on it (the reset at contest start and the credit for a solved problem).
 */
module Roster {

  datatype Option<T> = None | Some(value: T)

  /** Most participants a room admits. */
  const MAX_PLAYERS: nat := 3

  /** One roster entry: current socket id, display name, score and problem cursor. */
  datatype User = User(id: string, username: string, score: int, problemIndex: int)

  /** The entry a first-time joiner gets. */
  function NewUser(socketId: string, username: string): User
  {
    User(socketId, username, 0, 0)
  }

  /** The display names of a roster, in roster order. */
  function Names(users: seq<User>): (names: seq<string>)
    ensures |names| == |users|
    ensures forall i :: 0 <= i < |users| ==> names[i] == users[i].username
  {
    if users == [] then [] else [users[0].username] + Names(users[1..])
  }

  /** No display name occurs twice in the roster. */
  predicate UniqueNames(users: seq<User>)
  {
    forall i, j :: 0 <= i < j < |users| ==> users[i].username != users[j].username
  }

  /** What the coordinator keeps true of every roster: bounded and keyed by name. */
  predicate RosterOk(users: seq<User>)
  {
    |users| <= MAX_PLAYERS && UniqueNames(users)
  }

  /** `users.find(u => u.username === name)`, as the position of the first match. */
  function FindByName(users: seq<User>, name: string): (r: Option<nat>)
    ensures r.Some? ==> r.value < |users| && users[r.value].username == name
    ensures r.Some? ==> forall j :: 0 <= j < r.value ==> users[j].username != name
    ensures r.None? <==> forall j :: 0 <= j < |users| ==> users[j].username != name
  {
    if users == [] then None
    else if users[0].username == name then Some(0)
    else match FindByName(users[1..], name)
      case None => None
      case Some(i) => Some(i + 1)
  }

  /** `users.findIndex(u => u.id === socketId)`, as the position of the first match. */
  function FindById(users: seq<User>, socketId: string): (r: Option<nat>)
    ensures r.Some? ==> r.value < |users| && users[r.value].id == socketId
    ensures r.Some? ==> forall j :: 0 <= j < r.value ==> users[j].id != socketId
    ensures r.None? <==> forall j :: 0 <= j < |users| ==> users[j].id != socketId
  {
    if users == [] then None
    else if users[0].id == socketId then Some(0)
    else match FindById(users[1..], socketId)
      case None => None
      case Some(i) => Some(i + 1)
  }

  /** The fresh-start rewrite: every entry keeps its id and name, score and cursor go to 0. */
  function ResetScores(users: seq<User>): (r: seq<User>)
    ensures |r| == |users|
    ensures forall i :: 0 <= i < |users| ==>
      r[i].id == users[i].id && r[i].username == users[i].username &&
      r[i].score == 0 && r[i].problemIndex == 0
  {
    if users == [] then []
    else [users[0].(score := 0, problemIndex := 0)] + ResetScores(users[1..])
  }

  /**
    The credit rewrite for a solved problem: every entry named `name` gains
    `points` and moves one problem ahead; every other entry is untouched.
   */
  function CreditSolve(users: seq<User>, name: string, points: int): (r: seq<User>)
    ensures |r| == |users|
    ensures forall i :: 0 <= i < |users| && users[i].username == name ==>
      r[i] == users[i].(score := users[i].score + points, problemIndex := users[i].problemIndex + 1)
    ensures forall i :: 0 <= i < |users| && users[i].username != name ==> r[i] == users[i]
  {
    if users == [] then []
    else
      var u := users[0];
      var head := if u.username == name
        then u.(score := u.score + points, problemIndex := u.problemIndex + 1)
        else u;
      [head] + CreditSolve(users[1..], name, points)
  }

  /** Two rosters with the same names in the same order are equally well-formed. */
  lemma {:induction false} SameNamesSameShape(a: seq<User>, b: seq<User>)
    requires Names(a) == Names(b)
    ensures |a| == |b|
    ensures UniqueNames(a) <==> UniqueNames(b)
    ensures RosterOk(a) <==> RosterOk(b)
  {
    assert |Names(a)| == |a| && |Names(b)| == |b|;
    forall i | 0 <= i < |a|
      ensures a[i].username == b[i].username
    {
      assert Names(a)[i] == a[i].username && Names(b)[i] == b[i].username;
    }
  }

  /** The reset at contest start keeps membership and order: the name list is unchanged. */
  lemma ResetKeepsNames(users: seq<User>)
    ensures Names(ResetScores(users)) == Names(users)
    ensures RosterOk(ResetScores(users)) <==> RosterOk(users)
  {
    SameNamesSameShape(ResetScores(users), users);
  }

  /** Crediting a solve keeps membership and order: the name list is unchanged. */
  lemma CreditKeepsNames(users: seq<User>, name: string, points: int)
    ensures Names(CreditSolve(users, name, points)) == Names(users)
    ensures RosterOk(CreditSolve(users, name, points)) <==> RosterOk(users)
  {
    SameNamesSameShape(CreditSolve(users, name, points), users);
  }

  /** Rebinding an entry to a new socket keeps the name list unchanged. */
  lemma RebindKeepsNames(users: seq<User>, i: nat, socketId: string)
    requires i < |users|
    ensures Names(users[i := users[i].(id := socketId)]) == Names(users)
    ensures RosterOk(users[i := users[i].(id := socketId)]) <==> RosterOk(users)
  {
    SameNamesSameShape(users[i := users[i].(id := socketId)], users);
  }

  /** Appending a name not yet present to a roster with room left keeps it well-formed. */
  lemma AppendNewName(users: seq<User>, u: User)
    requires RosterOk(users)
    requires |users| < MAX_PLAYERS
    requires FindByName(users, u.username).None?
    ensures RosterOk(users + [u])
  {
  }

  /**
    With non-negative points a solve never lowers a score, and it moves each
    named entry exactly one problem ahead.
   */
  lemma CreditMonotone(users: seq<User>, name: string, points: int)
    requires points >= 0
    ensures forall i :: 0 <= i < |users| ==>
      CreditSolve(users, name, points)[i].score >= users[i].score &&
      CreditSolve(users, name, points)[i].problemIndex >= users[i].problemIndex
  {
  }
}
