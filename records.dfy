/**
 * The record generators of the user/todo seeding script: random names,
 * emails, titles and statuses, and the two generators that yield the users
 * and the todos one by one, modelled as the sequences they yield.
 */
module Records {
  import opened Random
  import opened Decimal

  /** The values the `status` column admits. */
  const TodoStatus: seq<string> := ["pending", "in_progress", "completed"]

  /** A user row as generated, before the store assigns its id. */
  datatype NewUser = NewUser(name: string, email: string)

  /** A todo row as generated, before the store assigns its id. */
  datatype NewTodo = NewTodo(title: string, userId: int, status: string)

  /**
   * JavaScript's `s.substring(start, end)`: both bounds are clamped to the
   * length, and swapped if the first is the larger.
   */
  function Substring(s: string, start: nat, end: nat): (r: string)
    ensures |r| <= if start <= end then end - start else start - end
    ensures exists i, j | 0 <= i <= j <= |s| :: r == s[i..j]
  {
    var a := if start < |s| then start else |s|;
    var b := if end < |s| then end else |s|;
    if a <= b then s[a..b] else s[b..a]
  }

  /**
   * `randomName()`: "User_" and eight characters of the base-36 rendering
   * of a draw. That rendering (`Math.random().toString(36)`) is not modelled;
   * the caller supplies it as `base36`.
   */
  function RandomName(u: Draw, base36: Draw -> string): (name: string)
    ensures 5 <= |name| <= 13 && name[..5] == "User_"
  {
    "User_" + Substring(base36(u), 2, 10)
  }

  /** `randomTitle()`: "Todo_" and ten characters of the base-36 rendering of a draw. */
  function RandomTitle(u: Draw, base36: Draw -> string): (title: string)
    ensures 5 <= |title| <= 15 && title[..5] == "Todo_"
  {
    "Todo_" + Substring(base36(u), 2, 12)
  }

  /**
   * `randomEmail(i)`: the email of the i-th generated user, "user", a
   * non-empty run of decimal digits, then "@example.com".
   */
  function RandomEmail(i: nat): (e: string)
    ensures |e| >= 17 && e[..4] == "user" && e[|e| - 12..] == "@example.com"
    ensures forall c <- e[4..|e| - 12] :: IsDigit(c)
  {
    var e := "user" + Show(i) + "@example.com";
    assert e[4..|e| - 12] == Show(i);
    e
  }

  /** Distinct indices give distinct emails, as the unique email column needs. */
  lemma RandomEmailInjective(i: nat, j: nat)
    requires RandomEmail(i) == RandomEmail(j)
    ensures i == j
  {
    var e := RandomEmail(i);
    assert Show(i) == e[4..|e| - 12];
    assert Show(j) == e[4..|e| - 12];
    ShowInjective(i, j);
  }

  /** `randomStatus()`: one of the statuses, picked by a draw. */
  function RandomStatus(u: Draw): (status: string)
    ensures status in TodoStatus
  {
    TodoStatus[Below(u, |TodoStatus|)]
  }

  /** Every status is picked by some draw. */
  lemma RandomStatusReaches(k: nat)
    requires k < |TodoStatus|
    ensures RandomStatus(Reaching(k, |TodoStatus|)) == TodoStatus[k]
  {
  }

  /**
   * `generateUsers()`: the i-th user yielded has a random name, drawn from
   * the i-th draw of the tape, and the email of index i.
   */
  function GenerateUsers(count: nat, tape: seq<Draw>, base36: Draw -> string): (users: seq<NewUser>)
    requires |tape| >= count
    ensures |users| == count
  {
    seq(count, i requires 0 <= i < count => NewUser(RandomName(tape[i], base36), RandomEmail(i)))
  }

  /**
   * The generated users carry the emails user0@example.com, user1@…, in
   * order, so no two of them share an email; every name starts "User_".
   */
  lemma GeneratedUsersWellFormed(count: nat, tape: seq<Draw>, base36: Draw -> string)
    requires |tape| >= count
    ensures var users := GenerateUsers(count, tape, base36);
            && (forall i :: 0 <= i < count ==> users[i].email == RandomEmail(i) && |users[i].name| >= 5 && users[i].name[..5] == "User_")
            && (forall i, j :: 0 <= i < j < count ==> users[i].email != users[j].email)
  {
    var users := GenerateUsers(count, tape, base36);
    forall i, j | 0 <= i < j < count
      ensures users[i].email != users[j].email
    {
      if users[i].email == users[j].email {
        RandomEmailInjective(i, j);
      }
    }
  }

  /** Draws used per generated todo: title, user, status, in that order. */
  const DrawsPerTodo: nat := 3

  /**
   * `generateTodos(userIds)`: the i-th todo yielded takes its title, its user
   * and its status from draws 3i, 3i+1 and 3i+2 of the tape; the user is
   * `userIds[Math.floor(Math.random() * userIds.length)]`, so the list must
   * not be empty when any todo is generated.
   */
  function GenerateTodos(count: nat, userIds: seq<int>, tape: seq<Draw>, base36: Draw -> string): (todos: seq<NewTodo>)
    requires count == 0 || |userIds| > 0
    requires |tape| >= DrawsPerTodo * count
    ensures |todos| == count
  {
    seq(count, i requires 0 <= i < count =>
      NewTodo(RandomTitle(tape[DrawsPerTodo * i], base36),
              userIds[Below(tape[DrawsPerTodo * i + 1], |userIds|)],
              RandomStatus(tape[DrawsPerTodo * i + 2])))
  }

  /**
   * Every generated todo belongs to one of the given users, has one of the
   * three statuses and a title starting "Todo_".
   */
  lemma GeneratedTodosWellFormed(count: nat, userIds: seq<int>, tape: seq<Draw>, base36: Draw -> string)
    requires count == 0 || |userIds| > 0
    requires |tape| >= DrawsPerTodo * count
    ensures forall t <- GenerateTodos(count, userIds, tape, base36) ::
              t.userId in userIds && t.status in TodoStatus && |t.title| >= 5 && t.title[..5] == "Todo_"
  {
    var todos := GenerateTodos(count, userIds, tape, base36);
    forall i | 0 <= i < count
      ensures todos[i].userId in userIds && todos[i].status in TodoStatus
      ensures |todos[i].title| >= 5 && todos[i].title[..5] == "Todo_"
    {
      var u := tape[DrawsPerTodo * i..DrawsPerTodo * i + 3];
      assert todos[i] == NewTodo(RandomTitle(u[0], base36), userIds[Below(u[1], |userIds|)], RandomStatus(u[2]));
    }
  }
}
