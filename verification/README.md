# pgstate in Dafny

A model of the core of `pgstate`, a small Go library. The library does two jobs:

- It generates random passwords of 64 runes. Each password is built from runs of letters, digits and (optionally) special runes.
- It reconciles a PostgreSQL cluster towards a wanted state. `EnsureDatabase` creates or updates a login role and creates a database owned by that role. `DestroyDatabase` and `DestroyRole` drop them. An object that already exists, or is already gone, counts as success.

The model follows the Go code as written, including its quirks:

- A run length is drawn from `[0, bound)`. A run may therefore be empty, and it is always shorter than the class's run bound.
- `classSpec.choose` has a value receiver. The budget it decrements belongs to a copy, so the class list never changes during a generation.
- The removal step deletes the empty range `[i, i)`. It removes nothing, so the "ran out of characters" panic cannot happen. This is proved.
- `digitClass` has 11 runes, with `'0'` listed twice. `specialClass` includes a space.
- `quoteString` and `quoteIdentifier` only wrap their input in quotes. Neither doubles an embedded quote. Their names are swapped relative to their use: `quoteString` makes a double-quoted identifier and `quoteIdentifier` a single-quoted literal.

Files, each one module:

- `wrappers.dfy`: `Option`.
- `entropy.dfy`: the random source as a tape of values, and `rand.Intn`.
- `password.dfy`: the alphabets, `charClass.choose`, `classSpec.choose`, the generation loop, `GeneratePasswordWithConfig` and `GeneratePassword`.
- `password_props.dfy`: which passwords can and cannot come out of the generator.
- `quoting.dfy`: the two quote helpers, a reader for SQL quoted tokens, and when a quoted text reads back as the original.
- `pgstate.dfy`: `ensureRole`, `EnsureDatabase`, `DestroyDatabase` and `DestroyRole`. The driver is a script of outcomes.
- `pgstate_props.dfy`: which statements are issued, what they mean, and which errors a caller sees.

Inputs the code gets from its environment are parameters of the model:

- The time-seeded `math/rand` source is a `Tape` of integers, consumed from the front. When the tape runs out, or its next value breaks `Intn`'s promise of `[0, n)`, the generation ends as `OutOfEntropy`. Theorems about the generator therefore hold for every source.
- The database driver is a `seq<Outcome>` script. The first entry answers the connection attempt. Each later entry answers the next statement: `Ok`, a Postgres error with its message, or any other error. A call is modelled as the statements it issues plus the error it returns. Each `requires |script| >= k` only ensures the script has an answer for every statement the call can issue.

## Model

| member | source | states |
|---|---|---|
| Entropy.Intn | password.go:15 | A draw from `[0, n)` takes exactly one value off the front of the tape. It fails exactly when the tape is empty or its next value is out of range. |
| Password.LowerCaseClass | password.go:19 | The lower-case alphabet has 26 runes, all in `a`..`z`, and every letter from `a` to `z` occurs in it. |
| Password.UpperCaseClass | password.go:20 | The upper-case alphabet has 26 runes, all in `A`..`Z`, and every letter from `A` to `Z` occurs in it. |
| Password.DigitClass | password.go:21 | The digit alphabet has 11 runes, all digits, and every digit occurs in it. `'0'` occurs exactly twice, first and last. |
| PasswordProperties.ZeroListedTwice | password.go:21 | `'0'` occurs twice in the digit alphabet and every other digit once. A uniform `Intn` would therefore pick `'0'` twice as often as another digit. |
| Password.SpecialClass | password.go:22 | The special alphabet has 15 runes, includes a space, and contains no letter and no digit. |
| Password.ChooseRune | password.go:13-17 | The chosen rune belongs to the class, and one draw is consumed. |
| Password.DrawRunes | password.go:33-35 | Drawing `count` runes writes exactly `count` runes, each from the class, and consumes exactly `count` draws. |
| Password.Min3IsLeast | password.go:31 | Go's `min` of three integers is one of them and no greater than any of them. |
| Password.ChooseRun | password.go:30-37 | A run length is below `max - base`, below the remaining budget and below `maxRun`. The run has that many runes, all from the class. The `remove` flag is never set, because the budget is never reduced to zero. |
| PasswordProperties.DrawRunesWrites | password.go:33-35 | Every text over a class is what the rune loop writes when the index draws are the positions of its runes. Nothing else is consumed. |
| PasswordProperties.ChooseRunWrites | password.go:30-37 | The converse of `Password.ChooseRun`: every text over the class shorter than the bound is a run it can write. The tape for it holds the length and then the rune positions. The `remove` flag is false and the rest of the tape is left unread. |
| Password.SliceDelete | password.go:70 | `slices.Delete(s, i, j)` keeps the elements before `i` and the elements from `j` on, shifted down by `j - i`. |
| Password.RemoveSpent | password.go:69-74 | The removal step returns the class list unchanged, whatever the flag, so the panic branch is never taken. |
| Password.InitialClasses | password.go:49-56 | The starting classes can all be drawn from: each has a non-empty alphabet, a positive budget and a positive run bound. |
| Password.Loop | password.go:63-75 | A finished loop from `base` writes exactly `Size - base` runes. Those runes are the concatenation of runs, each drawn from a class of the list and shorter than that class's `maxRun`. The loop never reports running out of characters. |
| Password.GeneratePasswordWithConfig | password.go:48-77 | A finished password has 64 runes and is the concatenation of its runs. Each run comes from one of the classes the configuration enables. The panic never happens. |
| Password.GeneratePassword | password.go:39-42 | Generation with special runes allowed. A finished password has 64 runes and is the concatenation of its runs. Each run comes from one of the four starting classes. |
| Password.LoopStep | password.go:64-75 | One iteration appends the drawn run in front of what the rest of the loop writes. The class list is unchanged. |
| PasswordProperties.InitialClassesEnabled | password.go:49-56 | A rune belongs to some initial class exactly when it is a letter, a digit, or (when allowed) a special rune. |
| PasswordProperties.GeneratedPasswordShape | password.go:48-76 | A finished password has 64 runes, and every rune is enabled by the configuration. No special rune appears unless allowed. Every run comes from an initial class and is shorter than its `maxRun`. The panic never happens. |
| PasswordProperties.EnabledPasswordIsReachable | password.go:64-75 | Every 64-rune string over the enabled alphabets is the password for some source tape. |
| PasswordProperties.ProducibleIff | password.go:48-76 | A string is written by the loop for some tape of valid draws exactly when it has 64 runes and all of them are enabled. |
| PasswordProperties.EmptyRun | password.go:31-36 | A run-length draw of 0 writes nothing, uses one value, and leaves `base` where it was. |
| PasswordProperties.ZeroTapeNeverFinishes | password.go:31 | A source that keeps returning 0 never finishes a password. The empty run means the loop has no progress guarantee. |
| Quoting.QuoteString | pgstate.go:75-77 | The output is the input between two double quotes, with nothing escaped. |
| Quoting.QuoteIdentifier | pgstate.go:70-72 | The output is the input between two single quotes, with nothing escaped. |
| Quoting.QuoteStringReadsBack | pgstate.go:75-77 | A quoted name, read by the doubled-quote rule of SQL quoted tokens, gives back the name with nothing left over exactly when the name holds no double quote. |
| Quoting.QuoteIdentifierReadsBack | pgstate.go:70-72 | A quoted secret, read by the doubled-quote rule, gives back the secret with nothing left over exactly when the secret holds no single quote. |
| Quoting.WrapWithQuoteReadsOther | pgstate.go:75-77 | A text holding the quote character, wrapped without doubling and followed by quote-free text, never reads back as itself: it reads as another text or as an unterminated token. |
| PgState.Wrap | pgstate.go:19 | `errors.Join(errors.New(context), err)` keeps the driver's error and puts the context in front of the contexts it already had. |
| PgStateProperties.HasSuffixIff | pgstate.go:26 | `strings.HasSuffix` holds exactly when the text is some text followed by the suffix. |
| PgStateProperties.PgErrorEndingInIff | pgstate.go:25-26 | An outcome is classified by a suffix exactly when it is a Postgres error whose message is some text followed by that suffix. |
| PgState.EnsureRole | pgstate.go:36-53 | CREATE ROLE is always issued first. ALTER ROLE follows exactly when CREATE fails with a Postgres error ending in "already exists", and ALTER's error is returned bare. Any other CREATE failure is joined with "failed to CREATE ROLE ACL". Success means CREATE succeeded, or ALTER succeeded after it. |
| PgState.EnsureDatabase | pgstate.go:11-34 | A failed connection is returned bare, with nothing issued. A role failure is joined with "failed to create role" and stops the call. Otherwise CREATE DATABASE is issued, and an "already exists" Postgres error counts as success. Any other failure is joined with "failed to create database". Any error carries the outcome of the last step attempted. |
| PgState.DropOne | pgstate.go:79-115 | Connect; once connected, issue exactly one DROP. A failed connection issues nothing. A Postgres error ending in "does not exist" counts as success. Every other error is returned bare and is the outcome of the last step attempted. |
| PgState.DestroyDatabase | pgstate.go:79-96 | A failed connection issues nothing and returns the connection error. Once connected, DROP DATABASE ... WITH (FORCE) is issued. Success means the drop worked or the database did not exist. Any other error is the driver's own outcome for the last step, returned without context. |
| PgState.DestroyRole | pgstate.go:98-115 | A failed connection issues nothing and returns the connection error. Once connected, DROP ROLE is issued. Success means the drop worked or the role did not exist. Any other error is the driver's own outcome for the last step, returned without context. |
| PgStateProperties.CreateRoleStatementTargets | pgstate.go:37-39 | CREATE ROLE reads as the role name and then the secret, when neither holds its own kind of quote. |
| PgStateProperties.AlterRoleStatementTargets | pgstate.go:43 | ALTER ROLE reads as the role name and then the new password, when neither holds its own kind of quote. |
| PgStateProperties.CreateDatabaseStatementTargets | pgstate.go:22-23 | When the name has no double quote, CREATE DATABASE names the database and leaves the owner clause, which quotes the same name, then the fixed encoding and locale. |
| PgStateProperties.OwnerClauseTargets | pgstate.go:23 | When the name has no double quote, the owner clause of CREATE DATABASE names the role of the same name and leaves the locale options. |
| PgStateProperties.DropDatabaseStatementTargets | pgstate.go:86 | DROP DATABASE names the given database, followed by `WITH (FORCE)`, exactly when the name holds no double quote. Otherwise it names another identifier or leaves the quoted token open. |
| PgStateProperties.DropRoleStatementTargets | pgstate.go:105 | DROP ROLE names the given role, with nothing after it, exactly when the name holds no double quote. Otherwise it names another identifier or leaves the quoted token open. |
| PgStateProperties.CreateRoleStatementInjective | pgstate.go:37-39 | For role names without a double quote, the CREATE ROLE text determines both the role and the secret. |
| PgStateProperties.CreateRoleStatementAmbiguous | pgstate.go:37-39 | A role name that closes its identifier early gives the same CREATE ROLE text as a different role and secret. Unescaped quoting allows injection. |
| PgStateProperties.CreateDatabaseIssuedIff | pgstate.go:12-23 | CREATE DATABASE is issued exactly when the connection opened and the role was ensured. |
| PgStateProperties.EnsureDatabaseErrorContexts | pgstate.go:11-53 | The contexts in front of an error tell the failing step. They are empty exactly for a failed connection. "failed to create role" over "failed to CREATE ROLE ACL" exactly when CREATE ROLE failed outright. "failed to create role" alone exactly when the ALTER ROLE failed. "failed to create database" exactly when the role was ensured. |
| PgStateProperties.EnsureOnExisting | pgstate.go:18-28 | When both objects exist, ensure issues CREATE ROLE, ALTER ROLE and CREATE DATABASE, and succeeds. |
| PgStateProperties.EnsureOnFresh | pgstate.go:18-33 | On a fresh cluster, ensure issues exactly CREATE ROLE and CREATE DATABASE, and succeeds. |
| PgStateProperties.DestroyWhenAbsent | pgstate.go:86-90 | Dropping a database or role that does not exist succeeds. |
| PgStateProperties.OnlyPostgresErrorsAreAbsorbed | pgstate.go:41-49 | A failure that is not a Postgres error is never absorbed. A failed DROP ROLE returns it bare. A failed CREATE ROLE returns it under the ACL context and issues no ALTER ROLE. |

### Consequences of the code as written

- Neither quote helper doubles an embedded quote. `Quoting.QuoteStringReadsBack`, `Quoting.WrapWithQuoteReadsOther` and `PgStateProperties.CreateRoleStatementAmbiguous` show the consequence: a name holding a quote does not read back as itself (the statement names another identifier or leaves the quoted token open), and a role name can carry part of the statement.
- A run length can be 0, because it is drawn from `[0, bound)`. `PasswordProperties.ZeroTapeNeverFinishes` shows that the loop then makes no progress.
- The budget a class spends belongs to a copy, and the removal step deletes an empty range. `Password.RemoveSpent` shows that the class list never changes.
- Errors are classified by the end of the message text of a Postgres error, not by an error code. `PgStateProperties.PgErrorEndingInIff` and `PgStateProperties.OnlyPostgresErrorsAreAbsorbed` state the rule.

## Left out

- Transport: `pgx.ConnectConfig`, `countRows` (pgstate.go:55-67) and `Close` are left out. They are network I/O. Their effect is the outcome script, and the row counts are discarded by every caller.
- `errors.Join` rendering: how the error prints is left out. A joined error is modelled as its list of contexts in front of the driver's outcome.
- The real server's replies: which message Postgres sends for an existing or missing object is not modelled. `EnsureOnExisting` and `DestroyWhenAbsent` take it as a hypothesis on the message text.
- Randomness: `time.Now`, the seeding of `math/rand` and the uniform distribution of draws are left out. The source is an arbitrary tape, so no probabilistic claim (such as termination with probability 1) is made.
- `PasswordProperties.ProducibleIff`: reachability is over arbitrary tapes. The real source is `math/rand` seeded once from the clock, so each seed yields at most one password, at most 2^64 in all, far fewer than the enabled 64-rune strings. The lemma, like `PasswordProperties.EnabledPasswordIsReachable`, shows only that the loop's logic excludes nothing beyond the alphabets.
- The command-line programs under `cmd/` are not part of this model.
- `strings.Builder` and `Grow`: an output buffer is modelled as a `string`.
- `Password.ChooseRun`: requires a non-empty alphabet and a positive draw bound. Go would panic in `Intn` otherwise, and the generator only ever calls it that way.
- `Password.GeneratePasswordWithConfig`: the `for` loop over `base` is modelled by the recursion of `Password.Loop`, one call per iteration, rather than as an imperative loop. Which runes a password may hold is stated separately by `PasswordProperties.GeneratedPasswordShape` and `PasswordProperties.ProducibleIff`.
- `PgState.EnsureDatabase`: requires a script of at least four outcomes, and the other reconciler functions require enough outcomes to answer every statement they may issue. A real driver always answers.
- `Password.Loop`: a `Generated` result also records the runs behind the password. The Go code has no such value; it exists so that properties of single runs can be stated.
- Strings: Go strings are byte sequences. The model treats them as sequences of characters, so no encoding is modelled.
- PostgreSQL's identifier rules: `Quoting.ReadQuoted` applies only the doubled-quote rule of SQL quoted tokens. It accepts the empty identifier `""`, which PostgreSQL rejects. It does not truncate identifiers longer than 63 bytes, as PostgreSQL does.
- `PgStateProperties.CreateRoleStatementTargets`, `AlterRoleStatementTargets` and `CreateDatabaseStatementTargets` state only that quote-free names read back. `CreateRoleStatementInjective` and `CreateRoleStatementAmbiguous` cover CREATE ROLE with quotes. No lemma describes what CREATE DATABASE or ALTER ROLE name when the name holds a quote.
