# Seeding scripts: short URLs, users and todos

This project models the two seeding scripts of the repository.

- **M1A1** is the URL shortener seeder.
  - `generateShortcode` draws a code from a 62-character alphabet.
  - `createShortUrl` draws 6-character codes until the `url_shortener` table does not hold the code yet, then inserts the URL with it.
  - `main(count)` shortens `count` dummy URLs.
  - `generateDummyUrl` builds a URL from fixed pools of domains, paths and queries.
- **M1A2** is the users/todos bulk seeder.
  - `generateUsers` and `generateTodos` yield records.
  - `bulkInsertUsers` and `bulkInsertTodos` cut the records into batches of `BATCH_SIZE` and insert each batch.
  - `bulkInsertUsers` collects the ids the store returns.
  - `main` runs both bulk inserts inside one `try`.

How the model stands in for the parts it cannot run:

- **Randomness.** `Math.random()` returns k / 2^53 for an integer k < 2^53. The model takes those integers as a caller-supplied tape of draws (`Random.Draw`).
  - `Math.floor(Math.random() * n)` becomes the exact quotient k·n / 2^53 (`Random.Below`).
  - `Math.random() < 0.5` becomes k < 2^52 (`Random.Heads`).
  - Every operation that draws consumes draws from the front of the tape.
  - The base-36 rendering `Math.random().toString(36)` is a function the caller supplies (`base36`).
- **The database.** Each table is a class with `seq` fields holding its rows in insertion order, plus the next identity value.
  - `url_shortener` becomes `Shortener.UrlTable`.
  - `users` and `todos` become `Seeder.Database`.
  - The schema constraints become the class invariants (`Valid`) and the failure cases of the insert methods:
    - unique `short_code` of at most 10 characters;
    - unique email;
    - the foreign key from a todo to its user.
  - `Seeder.Database` also keeps a ghost log of every batch handed to an insert. The bulk-insert contracts use it to say how the records were batched.
- **Generators.** `generateUsers()` and `generateTodos()` are modelled as the sequences they yield.
- **Counts.** `USERS_COUNT`, `TODOS_COUNT` and `BATCH_SIZE` are parameters of the bulk inserts. The script's own values are the constants `Seeder.UsersCount`, `Seeder.TodosCount` and `Seeder.BatchSize`.

## Model

| member | source | states |
|---|---|---|
| Random.Below | M1A1/src/index.ts:10 | `Math.floor(Math.random() * n)` is the floor of `n` times the drawn fraction, an index below `n` |
| Random.Heads | M1A1/src/index.ts:46 | `Math.random() < 0.5` holds exactly when picking one of two values by the same draw picks the first |
| Random.Reaching | M1A1/src/index.ts:10 | every index of a pool of `n` values is picked by some draw |
| Shortcode.CharOf | M1A1/src/index.ts:6-10 | the character one draw picks belongs to the 62-character alphabet |
| Shortcode.Spell | M1A1/src/index.ts:9-11 | the code a run of draws builds has one character per draw |
| Shortcode.SpellOverAlphabet | M1A1/src/index.ts:9-11 | every character of a code spelt from draws is in the alphabet |
| Shortcode.SpellUnspell | M1A1/src/index.ts:5-13 | every string over the alphabet is spelt by some run of draws, so every code can be generated |
| Shortcode.GenerateShortcode | M1A1/src/index.ts:5-13 | the code has exactly `length` characters (none when `length <= 0`), all from the alphabet; it is the spelling of the first `length` draws, and the tape resumes right after them |
| Shortcode.GenerateDummyUrl | M1A1/src/index.ts:38-51 | the URL is `https://` + a domain of the pool + `/` + a path of the pool + `/` + the index + no query or one of the pool's queries; it uses 4 draws on heads and 3 otherwise |
| Shortcode.DummyUrlReachable | M1A1/src/index.ts:38-51 | every domain, path and query choice, with or without a query, is produced by some tape |
| Decimal.Show | M1A1/src/index.ts:50 | the numeral `${index}` writes for a non-negative integer is a non-empty run of decimal digits, of at least two digits from 10 on |
| Decimal.ValueOfShow | M1A1/src/index.ts:50 | the decimal numeral written for an index reads back as that index |
| Decimal.ShowInjective | M1A2/src/index.ts:13-15 | distinct numbers are written as distinct numerals |
| Shortener.Matching | M1A1/src/index.ts:24-28 | the rows a lookup by code finds are exactly the stored rows with that code |
| Shortener.MatchingAtMostOne | M1A1/src/db/schema.ts:12 | under the unique `short_code` constraint, a lookup by code finds at most one row |
| Shortener.FirstFresh | M1A1/src/index.ts:20-29 | the code the retry loop settles on, when the tape holds one, is not stored and has the default length 6 |
| Shortener.FirstFreshIsFirst | M1A1/src/index.ts:15-29 | the code the retry loop settles on is the first candidate on the tape that is not stored; every earlier candidate was stored, and the tape resumes right after it |
| Shortener.FirstFreshNone | M1A1/src/index.ts:20-29 | the loop runs out of tape only when every whole candidate on it was already stored |
| Shortener.RedrawOnCollision | M1A1/src/index.ts:20-29 | with "AAAAAA" stored and draws spelling "AAAAAA" then "BBBBBB", the loop draws again and settles on "BBBBBB" |
| Shortener.RedrawOnCollisionReachable | M1A1/src/index.ts:9-10 | some draws pick 'A' and some pick 'B', so the draws of the redraw scenario exist |
| Shortener.CollisionNeverReturned | M1A1/src/index.ts:20-29 | a first candidate that is already stored is skipped: the loop's result is that of the rest of the tape, and never that candidate |
| Shortener.UrlTable.constructor | M1A1/src/db/schema.ts:9-14 | an empty table whose identity column starts at 1 |
| Shortener.UrlTable.SelectByCode | M1A1/src/index.ts:23-28 | the lookup finds a row exactly when the code is stored |
| Shortener.UrlTable.Insert | M1A1/src/index.ts:31-33 | the store accepts the row exactly when the code is new and at most 10 characters; it then appends one row with the next identity and changes nothing else, and otherwise changes nothing (the identity value a rejected insert uses up is not modelled) |
| Shortener.UrlTable.CreateShortUrl | M1A1/src/index.ts:15-36 | the returned code is the first candidate not stored before the call; the table gains exactly that one row `(next id, url, code)` and keeps every old row; when the tape runs out before a fresh candidate, nothing changes |
| Shortener.UrlTable.Seed | M1A1/src/index.ts:58-71 | the old rows stay; the row added for round i carries a dummy URL for index i; the codes stay pairwise distinct and at most 10 characters; on completion there are `count` new rows |
| Records.Substring | M1A2/src/index.ts:10 | `substring(start, end)` is a slice of the string no longer than the distance between the bounds |
| Records.RandomName | M1A2/src/index.ts:9-11 | the name starts "User_" and has at most 8 more characters |
| Records.RandomTitle | M1A2/src/index.ts:17-19 | the title starts "Todo_" and has at most 10 more characters |
| Records.RandomEmail | M1A2/src/index.ts:13-15 | the email of index i is "user", a non-empty run of decimal digits, then "@example.com" |
| Records.RandomEmailInjective | M1A2/src/index.ts:13-15 | distinct indices give distinct emails |
| Records.RandomStatus | M1A2/src/index.ts:21-23 | the status is one of pending, in_progress and completed |
| Records.RandomStatusReaches | M1A2/src/index.ts:21-23 | every status is picked by some draw |
| Records.GenerateUsers | M1A2/src/index.ts:26-33 | the generator yields exactly `count` users |
| Records.GeneratedUsersWellFormed | M1A2/src/index.ts:26-33 | the i-th user has email user{i}@example.com and a name starting "User_"; no two generated users share an email |
| Records.GenerateTodos | M1A2/src/index.ts:36-44 | the generator yields exactly `count` todos |
| Records.GeneratedTodosWellFormed | M1A2/src/index.ts:36-44 | every generated todo belongs to one of `userIds`, has one of the three statuses and a title starting "Todo_" |
| Batching.Chunks | M1A2/src/index.ts:52-58 | the records cut front to back into batches of `size`; its properties are those of FlattenChunks, ChunkSizes, ChunkCount and ChunkAt |
| Batching.TakeBatch | M1A2/src/index.ts:53-58 | the inner loop takes the next `size` records from `processed` on, or all that remain, in order, and advances `processed` past them |
| Batching.FlattenChunks | M1A2/src/index.ts:52-65 | the batches joined in order give back every record once, so their sizes sum to the count |
| Batching.ChunkSizes | M1A2/src/index.ts:53-60 | every batch holds between 1 and `BATCH_SIZE` records, and every batch but the last exactly `BATCH_SIZE` |
| Batching.ChunkCount | M1A2/src/index.ts:52-58 | the number of batches is the count divided by the batch size, rounded up |
| Batching.ChunksOf2500By1000 | M1A2/src/index.ts:52-58 | 2500 records in batches of 1000 make three inserts of 1000, 1000 and 500 |
| Batching.FullLast | M1A2/src/index.ts:52-58 | when the batch size divides the count, the last batch is full too |
| Batching.NextBatch | M1A2/src/index.ts:52-58 | once `full` batches are done, the batch the inner loop takes next is batch number `full`, and the records done after it are those of `full + 1` batches |
| Batching.AllChunksDone | M1A2/src/index.ts:52 | the outer loop exits only after the last batch |
| Seeder.ScriptInserts | M1A2/src/index.ts:5-7 | with the script's own counts, the users go in 1000 full inserts and the todos in 10000 |
| Seeder.AdmitsUsers | M1A2/src/db/schema.ts:10 | the unique email constraint after a batch: every email of the batch is free in the stored users and no two of the batch are equal |
| Seeder.AdmitsTodos | M1A2/src/db/schema.ts:15 | the foreign key after a batch: every todo of the batch names a stored user |
| Seeder.BatchAdmitted | M1A2/src/db/schema.ts:10 | a batch of generated users passes the unique email check after the earlier batches exactly when the emails of its indices were free before the run |
| Seeder.Database.constructor | M1A2/src/db/schema.ts:7-20 | empty tables whose serial ids start at 1 |
| Seeder.Database.InsertUsers | M1A2/src/index.ts:61 | the store takes all rows of the batch or none: all exactly when every email is new and distinct within the batch; it returns the new rows' ids in order; the todos are untouched |
| Seeder.Database.InsertTodos | M1A2/src/index.ts:85 | the store takes all rows of the batch or none: all exactly when every todo's user is stored; the users are untouched (the serial values a rejected insert uses up are not modelled) |
| Seeder.UsersStored | M1A2/src/index.ts:61-62 | storing the next batch of generated users extends the stored rows to the users done so far, and the batch passes exactly when the emails of its indices were free |
| Seeder.StoreUserBatch | M1A2/src/index.ts:53-64 | one pass of the outer loop inserts batch number `full`; on success the stored users are the old ones plus those done so far and the returned ids are those of the batch; on failure the users are unchanged |
| Seeder.InsertUserBatches | M1A2/src/index.ts:46-69 | the batches inserted are exactly the `Chunks` of the generated users, in order; it succeeds exactly when no generated email was stored before, and then the users are the old ones plus the generated ones with consecutive ids, and the returned ids are those ids in insertion order; otherwise it fails on a unique violation with a prefix of whole batches stored |
| Seeder.BulkInsertUsers | M1A2/src/index.ts:46-69 | the same for the `count` users the generator yields from the tape |
| Seeder.TodosStored | M1A2/src/index.ts:85 | storing the next batch of generated todos extends the stored rows to the todos done so far |
| Seeder.TodosAdmitted | M1A2/src/index.ts:76-88 | the todos done so far pass the foreign key exactly when those before the batch and the batch do |
| Seeder.StoreTodoBatch | M1A2/src/index.ts:77-87 | one pass of the outer loop inserts batch number `full`; on success the stored todos are the old ones plus those done so far; on failure nothing changes but the batch log |
| Seeder.InsertTodoBatches | M1A2/src/index.ts:71-91 | the batches inserted are exactly the `Chunks` of the generated todos; it succeeds exactly when every todo's user is stored, and then the todos are the old ones plus the generated ones; otherwise it fails on the foreign key with a prefix of whole batches stored |
| Seeder.BulkInsertTodos | M1A2/src/index.ts:71-91 | the same for the `count` todos the generator yields: it succeeds exactly when every generated todo names a user stored before the call, in particular whenever every id in `userIds` is a stored user |
| Seeder.ReturnedIdsStored | M1A2/src/index.ts:61-62 | every id returned for the inserted users is the id of a stored user |
| Seeder.SeedDatabase | M1A2/src/index.ts:93-110 | the run succeeds exactly when no generated email was stored before; it then stores all generated users and all generated todos, each todo owned by one of the new users; a failure is a unique violation that leaves the todos untouched and the users of the batches before the failing one stored; the foreign key holds throughout |

## Left out

- Floating point: `Math.random() * n` and `Math.floor` are modelled in exact arithmetic on the 53-bit draw. Rounding of the product is not modelled.
- `Math.random().toString(36)` is a parameter `base36` of the name and title generators. Only the "User_"/"Todo_" prefixes and the `substring` bounds are modelled.
- Shortener.UrlTable.CreateShortUrl: the source draws for ever. The model's tape is finite, so the call reports `DrawsExhausted` when the tape holds no further whole candidate.
- Shortener.UrlTable.Seed: same as above for `main(count)`. The model stops with `DrawsExhausted` when the tape runs out. On that failure the contract only bounds how many rows were added.
- `created_at` columns, `getTimestamp`, `Date` arithmetic and all console output are I/O and timing, and are left out.
- `mainSelect` in M1A1/src/index.ts:73-96 and the top-level calls `mainSelect(1000000)` and `main()` are left out. `mainSelect` is a read benchmark over hard-coded codes.
- The database client, `dotenv` and the connection are left out. Store errors other than the schema constraints are not modelled: connection failures, timeouts, and so on.
- Concurrency: the check-then-insert race of `createShortUrl` between separate processes is not modelled. The model has one sequential caller, as a single run of the script does.
- Seeder.Database.InsertUsers: a failed insert leaves the next serial id unchanged. Postgres consumes sequence values even on a failed insert. The run ends at the first failure either way.
- Seeder.Database.InsertTodos: the same for the `todos` serial column (M1A2/src/db/schema.ts:15). A rejected batch leaves `nextTodoId` unchanged, where Postgres has used up sequence values.
- Shortener.UrlTable.Insert: the same for the `url_shortener` identity column (M1A1/src/db/schema.ts:10). A rejected row leaves `nextId` unchanged, where Postgres has used up an identity value. `CreateShortUrl` only inserts codes that are fresh and 6 characters long, so it never reaches that path.
- Shortener.UrlTable.Insert: a `varchar(10)` column cuts a longer value down to 10 characters, without an error, when every character past the 10th is a space. The model rejects every code longer than 10 characters. Generated codes are 6 alphabet characters, so this path is never reached.
- Identity and serial columns are 32-bit in Postgres. Their overflow is not modelled, because ids are unbounded integers.
- Seeder.BulkInsertUsers: requires `batchSize > 0`, as do Seeder.BulkInsertTodos, Seeder.SeedDatabase and the loop methods under them (StoreUserBatch, InsertUserBatches, StoreTodoBatch, InsertTodoBatches). With a batch size of 0 the source loops for ever whenever the count is positive. The script uses 1000.
- Seeder.BulkInsertUsers: the source's `if (user)` and `if (batch.length > 0)` guards always hold, because every yielded record is an object and every batch taken holds a record. The model drops both guards. The batch guard becomes the `requires |batch| > 0` of `InsertUsers` and `InsertTodos`, and `Batching.NextBatch` proves that every batch taken meets it.
- Records.GenerateTodos: requires `userIds` to be non-empty when todos are generated. With no users, the source samples `userIds[0]`, which is `undefined`, and the insert would fail on the `NOT NULL` column. That path is not modelled. Seeder.SeedDatabase carries the matching requirement.
- `async`/`await` and the generator protocol are modelled as sequential calls and as the sequences yielded.
- The `catch` of M1A2 `main` only logs. In the model the run returns the error, and the batches stored before the failure stay stored.
