/**
 * The user/todo seeding script: the `users` and `todos` tables, the two
 * bulk-insert loops that write generated records in batches, and the run
 * that inserts the users, then todos that belong to them.
 */
module Seeder {
  import opened Random
  import opened Results
  import opened Batching
  import opened Records

  /** The script's own configuration. */
  const UsersCount: nat := 1_000_000
  const TodosCount: nat := 10_000_000
  const BatchSize: nat := 1000

  /**
   * With the script's configuration, the users go to the store in 1000
   * inserts and the todos in 10000, each of exactly `BatchSize` records.
   */
  lemma ScriptInserts<T>(users: seq<T>, todos: seq<T>)
    requires |users| == UsersCount && |todos| == TodosCount
    ensures |Chunks(users, BatchSize)| == 1000 && |Chunks(todos, BatchSize)| == 10_000
    ensures forall b <- Chunks(users, BatchSize) :: |b| == BatchSize
    ensures forall b <- Chunks(todos, BatchSize) :: |b| == BatchSize
  {
    ChunkCount(users, BatchSize);
    ChunkCount(todos, BatchSize);
    ChunkSizes(users, BatchSize);
    ChunkSizes(todos, BatchSize);
    FullLast(users, BatchSize, 1000);
    FullLast(todos, BatchSize, 10_000);
  }

  /** A stored user (its `created_at` stamp is left out). */
  datatype User = User(id: int, name: string, email: string)

  /** A stored todo (its `created_at` stamp is left out). */
  datatype Todo = Todo(id: int, title: string, userId: int, status: string)

  /** What the store rejects an insert for. */
  datatype DbError =
    | UniqueViolation      // an email already stored, or twice in one insert
    | ForeignKeyViolation  // a todo whose user id no stored user has

  /** The rows the store makes of a batch, numbering them from `firstId`. */
  function UserRows(firstId: int, batch: seq<NewUser>): (rows: seq<User>)
    ensures |rows| == |batch|
  {
    seq(|batch|, i requires 0 <= i < |batch| => User(firstId + i, batch[i].name, batch[i].email))
  }

  function TodoRows(firstId: int, batch: seq<NewTodo>): (rows: seq<Todo>)
    ensures |rows| == |batch|
  {
    seq(|batch|, i requires 0 <= i < |batch| => Todo(firstId + i, batch[i].title, batch[i].userId, batch[i].status))
  }

  /** The ids `first`, `first + 1`, … of `n` consecutive rows. */
  function IdRange(first: int, n: nat): (ids: seq<int>)
    ensures |ids| == n
  {
    seq(n, i requires 0 <= i < n => first + i)
  }

  lemma UserRowsAppend(first: int, a: seq<NewUser>, b: seq<NewUser>)
    ensures UserRows(first, a + b) == UserRows(first, a) + UserRows(first + |a|, b)
  {
  }

  lemma TodoRowsAppend(first: int, a: seq<NewTodo>, b: seq<NewTodo>)
    ensures TodoRows(first, a + b) == TodoRows(first, a) + TodoRows(first + |a|, b)
  {
  }

  lemma IdRangeAppend(first: int, a: nat, b: nat)
    ensures IdRange(first, a + b) == IdRange(first, a) + IdRange(first + a, b)
  {
  }

  /** No stored user has `email`. */
  predicate EmailFreeIn(users: seq<User>, email: string)
  {
    forall u <- users :: u.email != email
  }

  /** Some stored user has `id`. */
  predicate HasUserIn(users: seq<User>, id: int)
  {
    exists u <- users :: u.id == id
  }

  /**
   * After the first `done` generated users are stored, the email of a later
   * index is free exactly when it was free before: the users just stored
   * carry the emails of smaller indices.
   */
  lemma EmailFreeAfterPrefix(u0: seq<User>, n0: int, gen: seq<NewUser>, done: nat, k: nat)
    requires done <= k < |gen|
    requires forall i :: 0 <= i < |gen| ==> gen[i].email == RandomEmail(i)
    ensures EmailFreeIn(u0 + UserRows(n0, gen[..done]), RandomEmail(k)) <==> EmailFreeIn(u0, RandomEmail(k))
  {
    var added := UserRows(n0, gen[..done]);
    forall u <- added
      ensures u.email != RandomEmail(k)
    {
      var i :| 0 <= i < |added| && added[i] == u;
      if u.email == RandomEmail(k) {
        RandomEmailInjective(i, k);
      }
    }
  }

  /** The unique email constraint holds once `batch` is stored after `users`. */
  predicate AdmitsUsers(users: seq<User>, batch: seq<NewUser>)
  {
    && (forall k :: 0 <= k < |batch| ==> EmailFreeIn(users, batch[k].email))
    && (forall k, l :: 0 <= k < l < |batch| ==> batch[k].email != batch[l].email)
  }

  /** The foreign key to `users` holds for every todo of `batch`. */
  predicate AdmitsTodos(users: seq<User>, batch: seq<NewTodo>)
  {
    forall t <- batch :: HasUserIn(users, t.userId)
  }

  /**
   * A batch of generated users is admitted after the users before it exactly
   * when the emails of its indices were free at the start: its own emails
   * are pairwise distinct, and the users stored before it carry the emails
   * of smaller indices.
   */
  lemma BatchAdmitted(u0: seq<User>, n0: int, gen: seq<NewUser>, start: nat, next: nat, batch: seq<NewUser>)
    requires forall i :: 0 <= i < |gen| ==> gen[i].email == RandomEmail(i)
    requires start <= next <= |gen| && batch == gen[start..next]
    ensures AdmitsUsers(u0 + UserRows(n0, gen[..start]), batch) <==> forall i :: start <= i < next ==> EmailFreeIn(u0, RandomEmail(i))
  {
    var before := u0 + UserRows(n0, gen[..start]);
    BatchEmailsDistinct(gen, start, next, batch);
    BatchEmailsFree(u0, n0, gen, start, next, batch);
    if forall i :: start <= i < next ==> EmailFreeIn(u0, RandomEmail(i)) {
      forall k | 0 <= k < |batch|
        ensures EmailFreeIn(before, batch[k].email)
      {
        assert EmailFreeIn(u0, RandomEmail(start + k));
      }
    } else {
      var i :| start <= i < next && !EmailFreeIn(u0, RandomEmail(i));
      assert !EmailFreeIn(before, batch[i - start].email);
    }
  }

  /** The emails of a batch of generated users are pairwise distinct. */
  lemma BatchEmailsDistinct(gen: seq<NewUser>, start: nat, next: nat, batch: seq<NewUser>)
    requires forall i :: 0 <= i < |gen| ==> gen[i].email == RandomEmail(i)
    requires start <= next <= |gen| && batch == gen[start..next]
    ensures forall k, l :: 0 <= k < l < |batch| ==> batch[k].email != batch[l].email
  {
    forall k, l | 0 <= k < l < |batch|
      ensures batch[k].email != batch[l].email
    {
      assert batch[k] == gen[start + k] && batch[l] == gen[start + l];
      if batch[k].email == batch[l].email {
        RandomEmailInjective(start + k, start + l);
      }
    }
  }

  /**
   * The email of each user of a batch is free after the users before it
   * exactly when it was free at the start.
   */
  lemma BatchEmailsFree(u0: seq<User>, n0: int, gen: seq<NewUser>, start: nat, next: nat, batch: seq<NewUser>)
    requires forall i :: 0 <= i < |gen| ==> gen[i].email == RandomEmail(i)
    requires start <= next <= |gen| && batch == gen[start..next]
    ensures forall k :: 0 <= k < |batch| ==>
              (EmailFreeIn(u0 + UserRows(n0, gen[..start]), batch[k].email) <==> EmailFreeIn(u0, RandomEmail(start + k)))
  {
    forall k | 0 <= k < |batch|
      ensures EmailFreeIn(u0 + UserRows(n0, gen[..start]), batch[k].email) <==> EmailFreeIn(u0, RandomEmail(start + k))
    {
      assert batch[k] == gen[start + k];
      EmailFreeAfterPrefix(u0, n0, gen, start, start + k);
    }
  }

  /** The two tables of the store, in insertion order, with the ids they assign next. */
  class Database {
    var users: seq<User>
    var todos: seq<Todo>
    var nextUserId: int
    var nextTodoId: int
    /** Every batch passed to an insert, in call order. */
    ghost var userBatches: seq<seq<NewUser>>
    ghost var todoBatches: seq<seq<NewTodo>>

    /** Unique emails, increasing serial ids, and every todo's user stored. */
    ghost predicate Valid()
      reads this
    {
      && (forall i, j :: 0 <= i < j < |users| ==> users[i].email != users[j].email)
      && (forall i, j :: 0 <= i < j < |users| ==> users[i].id < users[j].id)
      && (forall u <- users :: u.id < nextUserId)
      && (forall i, j :: 0 <= i < j < |todos| ==> todos[i].id < todos[j].id)
      && (forall t <- todos :: t.id < nextTodoId)
      && (forall t <- todos :: HasUserIn(users, t.userId))
    }

    /** Empty tables whose serial ids start at 1. */
    constructor ()
      ensures Valid()
      ensures users == [] && todos == [] && nextUserId == 1 && nextTodoId == 1
      ensures userBatches == [] && todoBatches == []
    {
      users, todos := [], [];
      nextUserId, nextTodoId := 1, 1;
      userBatches, todoBatches := [], [];
    }

    /**
     * `insert(users).values(batch).returning({ id })`: all rows or none, and
     * the ids of the new rows in order.
     */
    method InsertUsers(batch: seq<NewUser>) returns (r: Result<seq<int>, DbError>)
      requires Valid() && |batch| > 0
      modifies this
      ensures Valid()
      ensures userBatches == old(userBatches) + [batch]
      ensures todos == old(todos) && nextTodoId == old(nextTodoId) && todoBatches == old(todoBatches)
      ensures r.Success? <==> AdmitsUsers(old(users), batch)
      ensures r.Success? ==>
                && users == old(users) + UserRows(old(nextUserId), batch)
                && nextUserId == old(nextUserId) + |batch|
                && r.value == IdRange(old(nextUserId), |batch|)
      ensures r.Failure? ==> users == old(users) && nextUserId == old(nextUserId) && r.error == UniqueViolation
    {
      if AdmitsUsers(users, batch) {
        var added := UserRows(nextUserId, batch);
        forall t <- todos
          ensures HasUserIn(users + added, t.userId)
        {
          var u :| u in users && u.id == t.userId;
          assert u in users + added;
        }
        users := users + added;
        r := Success(IdRange(nextUserId, |batch|));
        nextUserId := nextUserId + |batch|;
      } else {
        r := Failure(UniqueViolation);
      }
      userBatches := userBatches + [batch];
    }

    /** `insert(todos).values(batch)`: all rows or none. */
    method InsertTodos(batch: seq<NewTodo>) returns (r: Outcome<DbError>)
      requires Valid() && |batch| > 0
      modifies this
      ensures Valid()
      ensures todoBatches == old(todoBatches) + [batch]
      ensures users == old(users) && nextUserId == old(nextUserId) && userBatches == old(userBatches)
      ensures r.Pass? <==> AdmitsTodos(old(users), batch)
      ensures r.Pass? ==> todos == old(todos) + TodoRows(old(nextTodoId), batch) && nextTodoId == old(nextTodoId) + |batch|
      ensures r.Fail? ==> todos == old(todos) && nextTodoId == old(nextTodoId) && r.error == ForeignKeyViolation
    {
      if AdmitsTodos(users, batch) {
        var added := TodoRows(nextTodoId, batch);
        forall t <- added
          ensures HasUserIn(users, t.userId)
        {
          var i :| 0 <= i < |added| && added[i] == t;
          assert batch[i] in batch;
        }
        todos := todos + added;
        nextTodoId := nextTodoId + |batch|;
        r := Pass;
      } else {
        r := Fail(ForeignKeyViolation);
      }
      todoBatches := todoBatches + [batch];
    }
  }

  /**
   * What one stored batch of generated users adds to the loop's state: the
   * batches logged, the rows stored and the ids collected each grow by it,
   * and the store admits it exactly when the emails of its indices were free
   * before the first batch.
   */
  lemma UsersStored(u0: seq<User>, n0: int, gen: seq<NewUser>, processed: nat, next: nat,
                    before: seq<User>, firstId: int, batch: seq<NewUser>)
    requires processed <= next <= |gen|
    requires forall i :: 0 <= i < |gen| ==> gen[i].email == RandomEmail(i)
    requires before == u0 + UserRows(n0, gen[..processed]) && firstId == n0 + processed
    requires batch == gen[processed..next]
    ensures before + UserRows(firstId, batch) == u0 + UserRows(n0, gen[..next])
    ensures AdmitsUsers(before, batch) <==> forall i :: processed <= i < next ==> EmailFreeIn(u0, RandomEmail(i))
  {
    assert gen[..next] == gen[..processed] + batch;
    UserRowsAppend(n0, gen[..processed], batch);
    BatchAdmitted(u0, n0, gen, processed, next, batch);
  }

  /**
   * One pass of the outer loop of `bulkInsertUsers()`: take the next batch of
   * the generated users `gen` from `processed` on, batch number `full`, and
   * insert it.
   */
  method StoreUserBatch(db: Database, ghost u0: seq<User>, ghost n0: int, gen: seq<NewUser>, batchSize: nat,
                        ghost full: nat, processed: nat)
    returns (inserted: Result<seq<int>, DbError>, next: nat)
    requires db.Valid() && batchSize > 0
    requires forall i :: 0 <= i < |gen| ==> gen[i].email == RandomEmail(i)
    requires processed == Min(|gen|, full * batchSize) && processed < |gen|
    requires db.users == u0 + UserRows(n0, gen[..processed]) && db.nextUserId == n0 + processed
    modifies db
    ensures db.Valid()
    ensures db.todos == old(db.todos) && db.nextTodoId == old(db.nextTodoId) && db.todoBatches == old(db.todoBatches)
    ensures var c := Chunks(gen, batchSize);
            && processed < next == Min(|gen|, (full + 1) * batchSize)
            && full < |c| && c[full] == gen[processed..next]
    ensures db.userBatches == old(db.userBatches) + [gen[processed..next]]
    ensures inserted.Success? <==> forall i :: processed <= i < next ==> EmailFreeIn(u0, RandomEmail(i))
    ensures inserted.Success? ==>
              && db.users == u0 + UserRows(n0, gen[..next]) && db.nextUserId == n0 + next
              && inserted.value == IdRange(n0 + processed, next - processed)
    ensures inserted.Failure? ==>
              && db.users == old(db.users) && db.nextUserId == old(db.nextUserId)
              && inserted.error == UniqueViolation
  {
    var batch;
    batch, next := TakeBatch(gen, processed, batchSize);
    NextBatch(gen, batchSize, full, processed, batch);
    UsersStored(u0, n0, gen, processed, next, db.users, db.nextUserId, batch);
    inserted := db.InsertUsers(batch);
  }

  /**
   * The batching loop of `bulkInsertUsers()` over the generated users `gen`:
   * take them `batchSize` at a time, insert each batch, and collect the ids
   * the store returns. It stops at the first insert the store rejects,
   * leaving the batches before it stored.
   */
  method InsertUserBatches(db: Database, gen: seq<NewUser>, batchSize: nat) returns (r: Result<seq<int>, DbError>)
    requires db.Valid() && batchSize > 0
    requires forall i :: 0 <= i < |gen| ==> gen[i].email == RandomEmail(i)
    modifies db
    ensures db.Valid()
    ensures db.todos == old(db.todos) && db.nextTodoId == old(db.nextTodoId) && db.todoBatches == old(db.todoBatches)
    ensures r.Success? <==> forall i :: 0 <= i < |gen| ==> EmailFreeIn(old(db.users), RandomEmail(i))
    ensures r.Success? ==>
              && db.users == old(db.users) + UserRows(old(db.nextUserId), gen)
              && db.nextUserId == old(db.nextUserId) + |gen|
              && r.value == IdRange(old(db.nextUserId), |gen|)
              && db.userBatches == old(db.userBatches) + Chunks(gen, batchSize)
    ensures var batches := Chunks(gen, batchSize);
            r.Failure? ==>
              && r.error == UniqueViolation
              && exists m :: 0 <= m < |batches|
                   && db.users == old(db.users) + UserRows(old(db.nextUserId), Flatten(batches[..m]))
                   && db.userBatches == old(db.userBatches) + batches[..m + 1]
  {
    var userIds: seq<int> := [];
    ghost var chunks := Chunks(gen, batchSize);
    var processed := 0;
    ghost var full := 0;
    ghost var u0, n0, b0 := db.users, db.nextUserId, db.userBatches;
    while processed < |gen|
      invariant db.Valid()
      invariant db.todos == old(db.todos) && db.nextTodoId == old(db.nextTodoId) && db.todoBatches == old(db.todoBatches)
      invariant full <= |chunks| && processed == Min(|gen|, full * batchSize)
      invariant db.users == u0 + UserRows(n0, gen[..processed]) && db.nextUserId == n0 + processed
      invariant db.userBatches == b0 + chunks[..full]
      invariant userIds == IdRange(n0, processed)
      invariant forall i :: 0 <= i < processed ==> EmailFreeIn(u0, RandomEmail(i))
      decreases |gen| - processed
    {
      var inserted, next := StoreUserBatch(db, u0, n0, gen, batchSize, full, processed);
      LogNext(b0, chunks, full);
      if inserted.Failure? {
        FlattenTake(gen, batchSize, full);
        return Failure(inserted.error);
      }
      IdRangeAppend(n0, processed, next - processed);
      userIds := userIds + inserted.value;
      processed := next;
      full := full + 1;
    }
    assert gen[..processed] == gen;
    AllChunksDone(gen, batchSize, full);
    assert chunks[..full] == chunks;
    r := Success(userIds);
  }

  /**
   * `bulkInsertUsers()`: generate `count` users and store them in batches of
   * `batchSize`, returning the ids of all of them unless an insert fails.
   */
  method BulkInsertUsers(db: Database, count: nat, batchSize: nat, tape: seq<Draw>, base36: Draw -> string)
    returns (r: Result<seq<int>, DbError>)
    requires db.Valid() && batchSize > 0 && |tape| >= count
    modifies db
    ensures db.Valid()
    ensures db.todos == old(db.todos) && db.nextTodoId == old(db.nextTodoId) && db.todoBatches == old(db.todoBatches)
    ensures r.Success? <==> forall i :: 0 <= i < count ==> EmailFreeIn(old(db.users), RandomEmail(i))
    ensures var gen := GenerateUsers(count, tape, base36);
            r.Success? ==>
              && db.users == old(db.users) + UserRows(old(db.nextUserId), gen)
              && db.nextUserId == old(db.nextUserId) + count
              && r.value == IdRange(old(db.nextUserId), count)
              && db.userBatches == old(db.userBatches) + Chunks(gen, batchSize)
    ensures var batches := Chunks(GenerateUsers(count, tape, base36), batchSize);
            r.Failure? ==>
              && r.error == UniqueViolation
              && exists m :: 0 <= m < |batches|
                   && db.users == old(db.users) + UserRows(old(db.nextUserId), Flatten(batches[..m]))
                   && db.userBatches == old(db.userBatches) + batches[..m + 1]
  {
    var gen := GenerateUsers(count, tape, base36);
    GeneratedUsersWellFormed(count, tape, base36);
    r := InsertUserBatches(db, gen, batchSize);
  }

  /** What one stored batch of generated todos adds to the stored rows. */
  lemma TodosStored(t0: seq<Todo>, m0: int, gen: seq<NewTodo>, processed: nat, next: nat,
                    before: seq<Todo>, firstId: int, batch: seq<NewTodo>)
    requires processed <= next <= |gen|
    requires before == t0 + TodoRows(m0, gen[..processed]) && firstId == m0 + processed
    requires batch == gen[processed..next]
    ensures before + TodoRows(firstId, batch) == t0 + TodoRows(m0, gen[..next])
  {
    assert gen[..next] == gen[..processed] + batch;
    TodoRowsAppend(m0, gen[..processed], batch);
  }

  /**
   * The store admits the todos done so far exactly when it admits those
   * before the batch and the batch, and it admits the batch when it admits
   * every generated todo.
   */
  lemma TodosAdmitted(users: seq<User>, gen: seq<NewTodo>, processed: nat, next: nat)
    requires processed <= next <= |gen|
    ensures AdmitsTodos(users, gen[..next]) <==> AdmitsTodos(users, gen[..processed]) && AdmitsTodos(users, gen[processed..next])
    ensures AdmitsTodos(users, gen) ==> AdmitsTodos(users, gen[processed..next])
  {
    assert gen[..next] == gen[..processed] + gen[processed..next];
  }

  /**
   * One pass of the outer loop of `bulkInsertTodos()`: take the next batch of
   * the generated todos `gen` from `processed` on, batch number `full`, and
   * insert it.
   */
  method StoreTodoBatch(db: Database, ghost t0: seq<Todo>, ghost m0: int, gen: seq<NewTodo>, batchSize: nat,
                        ghost full: nat, processed: nat)
    returns (inserted: Outcome<DbError>, next: nat)
    requires db.Valid() && batchSize > 0
    requires processed == Min(|gen|, full * batchSize) && processed < |gen|
    requires db.todos == t0 + TodoRows(m0, gen[..processed]) && db.nextTodoId == m0 + processed
    modifies db
    ensures db.Valid()
    ensures db.users == old(db.users) && db.nextUserId == old(db.nextUserId) && db.userBatches == old(db.userBatches)
    ensures var c := Chunks(gen, batchSize);
            && processed < next == Min(|gen|, (full + 1) * batchSize)
            && full < |c| && c[full] == gen[processed..next]
    ensures db.todoBatches == old(db.todoBatches) + [gen[processed..next]]
    ensures inserted.Pass? <==> AdmitsTodos(db.users, gen[processed..next])
    ensures inserted.Pass? ==> db.todos == t0 + TodoRows(m0, gen[..next]) && db.nextTodoId == m0 + next
    ensures inserted.Fail? ==>
              && db.todos == old(db.todos) && db.nextTodoId == old(db.nextTodoId)
              && inserted.error == ForeignKeyViolation
  {
    var batch;
    batch, next := TakeBatch(gen, processed, batchSize);
    NextBatch(gen, batchSize, full, processed, batch);
    TodosStored(t0, m0, gen, processed, next, db.todos, db.nextTodoId, batch);
    inserted := db.InsertTodos(batch);
  }

  /**
   * The batching loop of `bulkInsertTodos()` over the generated todos `gen`:
   * take them `batchSize` at a time and insert each batch. It stops at the
   * first insert the store rejects, leaving the batches before it stored.
   */
  method InsertTodoBatches(db: Database, gen: seq<NewTodo>, batchSize: nat) returns (r: Outcome<DbError>)
    requires db.Valid() && batchSize > 0
    modifies db
    ensures db.Valid()
    ensures db.users == old(db.users) && db.nextUserId == old(db.nextUserId) && db.userBatches == old(db.userBatches)
    ensures r.Pass? <==> AdmitsTodos(old(db.users), gen)
    ensures r.Pass? ==>
              && db.todos == old(db.todos) + TodoRows(old(db.nextTodoId), gen)
              && db.nextTodoId == old(db.nextTodoId) + |gen|
              && db.todoBatches == old(db.todoBatches) + Chunks(gen, batchSize)
    ensures var batches := Chunks(gen, batchSize);
            r.Fail? ==>
              && r.error == ForeignKeyViolation
              && exists m :: 0 <= m < |batches|
                   && db.todos == old(db.todos) + TodoRows(old(db.nextTodoId), Flatten(batches[..m]))
                   && db.todoBatches == old(db.todoBatches) + batches[..m + 1]
  {
    ghost var chunks := Chunks(gen, batchSize);
    var processed := 0;
    ghost var full := 0;
    ghost var t0, m0, b0 := db.todos, db.nextTodoId, db.todoBatches;
    while processed < |gen|
      invariant db.Valid()
      invariant db.users == old(db.users) && db.nextUserId == old(db.nextUserId) && db.userBatches == old(db.userBatches)
      invariant full <= |chunks| && processed == Min(|gen|, full * batchSize)
      invariant db.todos == t0 + TodoRows(m0, gen[..processed]) && db.nextTodoId == m0 + processed
      invariant db.todoBatches == b0 + chunks[..full]
      invariant AdmitsTodos(db.users, gen[..processed])
      decreases |gen| - processed
    {
      var inserted, next := StoreTodoBatch(db, t0, m0, gen, batchSize, full, processed);
      LogNext(b0, chunks, full);
      TodosAdmitted(db.users, gen, processed, next);
      if inserted.Fail? {
        FlattenTake(gen, batchSize, full);
        return inserted;
      }
      processed := next;
      full := full + 1;
    }
    assert gen[..processed] == gen;
    AllChunksDone(gen, batchSize, full);
    assert chunks[..full] == chunks;
    r := Pass;
  }

  /**
   * `bulkInsertTodos(userIds)`: generate `count` todos, each owned by one of
   * `userIds`, and store them in batches of `batchSize`. When every id in
   * `userIds` is a stored user, every insert succeeds.
   */
  method BulkInsertTodos(db: Database, count: nat, userIds: seq<int>, batchSize: nat, tape: seq<Draw>, base36: Draw -> string)
    returns (r: Outcome<DbError>)
    requires db.Valid() && batchSize > 0
    requires count == 0 || |userIds| > 0
    requires |tape| >= DrawsPerTodo * count
    modifies db
    ensures db.Valid()
    ensures db.users == old(db.users) && db.nextUserId == old(db.nextUserId) && db.userBatches == old(db.userBatches)
    ensures r.Pass? <==> AdmitsTodos(old(db.users), GenerateTodos(count, userIds, tape, base36))
    ensures (forall id <- userIds :: HasUserIn(old(db.users), id)) ==> r.Pass?
    ensures var gen := GenerateTodos(count, userIds, tape, base36);
            r.Pass? ==>
              && db.todos == old(db.todos) + TodoRows(old(db.nextTodoId), gen)
              && db.nextTodoId == old(db.nextTodoId) + count
              && db.todoBatches == old(db.todoBatches) + Chunks(gen, batchSize)
    ensures var batches := Chunks(GenerateTodos(count, userIds, tape, base36), batchSize);
            r.Fail? ==>
              && r.error == ForeignKeyViolation
              && exists m :: 0 <= m < |batches|
                   && db.todos == old(db.todos) + TodoRows(old(db.nextTodoId), Flatten(batches[..m]))
                   && db.todoBatches == old(db.todoBatches) + batches[..m + 1]
  {
    var gen := GenerateTodos(count, userIds, tape, base36);
    GeneratedTodosWellFormed(count, userIds, tape, base36);
    r := InsertTodoBatches(db, gen, batchSize);
  }

  /** Every id returned for a run of stored users is the id of a stored user. */
  lemma ReturnedIdsStored(u0: seq<User>, n0: int, gen: seq<NewUser>)
    ensures forall id <- IdRange(n0, |gen|) :: HasUserIn(u0 + UserRows(n0, gen), id)
  {
    var rows := u0 + UserRows(n0, gen);
    forall id <- IdRange(n0, |gen|)
      ensures HasUserIn(rows, id)
    {
      var i :| 0 <= i < |gen| && IdRange(n0, |gen|)[i] == id;
      assert rows[|u0| + i] in rows;
    }
  }

  /**
   * `main()`: insert `usersCount` generated users, then `todosCount`
   * generated todos owned by them. An insert the store rejects ends the run
   * (the `catch` branch) with the batches before it stored. The draws of the
   * todos follow those of the users on the tape.
   */
  method SeedDatabase(db: Database, usersCount: nat, todosCount: nat, batchSize: nat, tape: seq<Draw>, base36: Draw -> string)
    returns (r: Outcome<DbError>)
    requires db.Valid() && batchSize > 0
    requires usersCount > 0 || todosCount == 0
    requires |tape| >= usersCount + DrawsPerTodo * todosCount
    modifies db
    ensures db.Valid()
    ensures r.Pass? <==> forall i :: 0 <= i < usersCount ==> EmailFreeIn(old(db.users), RandomEmail(i))
    ensures var users := GenerateUsers(usersCount, tape[..usersCount], base36);
            var todos := GenerateTodos(todosCount, IdRange(old(db.nextUserId), usersCount), tape[usersCount..], base36);
            r.Pass? ==>
              && db.users == old(db.users) + UserRows(old(db.nextUserId), users)
              && db.todos == old(db.todos) + TodoRows(old(db.nextTodoId), todos)
    ensures r.Fail? ==> r.error == UniqueViolation && db.todos == old(db.todos)
    ensures var batches := Chunks(GenerateUsers(usersCount, tape[..usersCount], base36), batchSize);
            r.Fail? ==>
              exists m :: 0 <= m < |batches|
                && db.users == old(db.users) + UserRows(old(db.nextUserId), Flatten(batches[..m]))
  {
    var userIds := BulkInsertUsers(db, usersCount, batchSize, tape[..usersCount], base36);
    if userIds.Failure? {
      return Fail(userIds.error);
    }
    ghost var gen := GenerateUsers(usersCount, tape[..usersCount], base36);
    ReturnedIdsStored(old(db.users), old(db.nextUserId), gen);
    r := BulkInsertTodos(db, todosCount, userIds.value, batchSize, tape[usersCount..], base36);
  }
}
