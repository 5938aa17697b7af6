/** The reconciliation logic of pgstate.go: `EnsureDatabase`, `ensureRole`,
    `DestroyDatabase` and `DestroyRole`, without the transport.

    The driver is a script of outcomes answered in order: the first answers
    the connection attempt (for the three exported functions, which connect
    themselves), each later one answers the next statement issued. A call is
    modelled as the statements it issues and the error it returns.

    A driver error is classified only when it is a Postgres error
    (`*pgconn.PgError`), and then only by the suffix of its message:
    "already exists" on the create paths, "does not exist" on the drop paths.
    Wrapping with `errors.Join(errors.New(context), err)` is modelled as a
    list of contexts, outermost first, in front of the driver's error.
 */
module PgState {
  import opened Quoting

  /** What the driver answers to a connection attempt or a statement. */
  datatype Outcome = Ok | PgErr(message: string) | OtherErr

  /** The error a call returns: `Success` for `nil`, otherwise the driver's
      failing outcome behind the contexts it was joined with. */
  datatype Result = Success | Err(contexts: seq<string>, inner: Outcome)

  /** The statements a call issued, in order, and what it returned. */
  datatype Trace = Trace(issued: seq<string>, result: Result)

  const AlreadyExists := "already exists"
  const DoesNotExist := "does not exist"

  const FailedCreateRole := "failed to create role"
  const FailedCreateRoleAcl := "failed to CREATE ROLE ACL"
  const FailedCreateDatabase := "failed to create database"

  /** `strings.HasSuffix`. */
  predicate HasSuffix(s: string, suffix: string)
  {
    |suffix| <= |s| && s[|s| - |suffix|..] == suffix
  }

  /** The Go code's test `err.(*pgconn.PgError)` followed by a suffix match. */
  predicate PgErrorEndingIn(o: Outcome, suffix: string)
  {
    o.PgErr? && HasSuffix(o.message, suffix)
  }

  /** A driver outcome returned as it is. */
  function Bare(o: Outcome): Result
  {
    if o == Ok then Success else Err([], o)
  }

  /** `errors.Join(errors.New(context), err)` for a non-nil `err`. */
  function Wrap(context: string, r: Result): (w: Result)
    requires r.Err?
    ensures w.Err? && w.inner == r.inner
    ensures |w.contexts| == |r.contexts| + 1 && w.contexts[0] == context && w.contexts[1..] == r.contexts
  {
    Err([context] + r.contexts, r.inner)
  }

  function CreateRoleStatement(role: string, secret: string): string
  {
    "CREATE ROLE " + QuoteString(role) + " WITH LOGIN PASSWORD " + QuoteIdentifier(secret)
  }

  function AlterRoleStatement(role: string, secret: string): string
  {
    "ALTER ROLE " + QuoteString(role) + " PASSWORD " + QuoteIdentifier(secret)
  }

  /** The encoding and collation every database is created with. */
  const LocaleOptions := "ENCODING 'UTF-8' LC_COLLATE = 'en_US.utf8' LC_CTYPE = 'en_US.utf8'"

  /** The locale options as they follow the owner in CREATE DATABASE. */
  const DatabaseLocale := " " + LocaleOptions

  /** The database is owned by the role of the same name. */
  function CreateDatabaseStatement(name: string): string
  {
    "CREATE DATABASE " + QuoteString(name) + " WITH OWNER " + QuoteString(name) + DatabaseLocale
  }

  function DropDatabaseStatement(name: string): string
  {
    "DROP DATABASE " + QuoteString(name) + " WITH (FORCE)"
  }

  function DropRoleStatement(name: string): string
  {
    "DROP ROLE " + QuoteString(name)
  }

  /** `ensureRole` on an open connection: `replies` answers its statements.
      CREATE ROLE first; when that fails because the role already exists,
      ALTER ROLE sets the password and its error comes back bare; any other
      CREATE failure comes back joined with "failed to CREATE ROLE ACL". */
  function EnsureRole(role: string, secret: string, replies: seq<Outcome>): (t: Trace)
    requires |replies| >= 2
    ensures 1 <= |t.issued| <= 2
    ensures t.issued[0] == CreateRoleStatement(role, secret)
    ensures |t.issued| == 2 <==> PgErrorEndingIn(replies[0], AlreadyExists)
    ensures |t.issued| == 2 ==> t.issued[1] == AlterRoleStatement(role, secret) && t.result == Bare(replies[1])
    ensures |t.issued| == 1 && replies[0] != Ok ==> t.result == Err([FailedCreateRoleAcl], replies[0])
    ensures t.result.Err? ==> t.result.inner == replies[|t.issued| - 1] && t.result.inner != Ok
    ensures t.result == Success <==> replies[0] == Ok || (PgErrorEndingIn(replies[0], AlreadyExists) && replies[1] == Ok)
  {
    var create := CreateRoleStatement(role, secret);
    var reply := replies[0];
    if reply == Ok then Trace([create], Success)
    else if reply.PgErr? && HasSuffix(reply.message, AlreadyExists) then
      Trace([create, AlterRoleStatement(role, secret)], Bare(replies[1]))
    else Trace([create], Err([FailedCreateRoleAcl], reply))
  }

  /** `EnsureDatabase`: connect, ensure the role, then create the database.
      A failed connection comes back bare with nothing issued; a failed role
      is joined with "failed to create role" and stops the call; an existing
      database is success; any other CREATE DATABASE failure is joined with
      "failed to create database". */
  function EnsureDatabase(name: string, secret: string, script: seq<Outcome>): (t: Trace)
    requires |script| >= 4
    ensures script[0] != Ok ==> t == Trace([], Err([], script[0]))
    ensures script[0] == Ok ==>
              var role := EnsureRole(name, secret, script[1..]);
              && role.issued <= t.issued
              && (role.result.Err? ==> t == Trace(role.issued, Err([FailedCreateRole] + role.result.contexts, role.result.inner)))
              && (role.result == Success ==> t.issued == role.issued + [CreateDatabaseStatement(name)])
    ensures t.result == Success <==>
              && script[0] == Ok
              && EnsureRole(name, secret, script[1..]).result == Success
              && var reply := script[1 + |EnsureRole(name, secret, script[1..]).issued|];
                 reply == Ok || PgErrorEndingIn(reply, AlreadyExists)
    ensures t.result.Err? ==> t.result.inner == script[|t.issued|] && t.result.inner != Ok
    ensures script[0] == Ok && EnsureRole(name, secret, script[1..]).result == Success && t.result.Err? ==>
              t.result.contexts == [FailedCreateDatabase]
  {
    if script[0] != Ok then Trace([], Bare(script[0]))
    else
      var role := EnsureRole(name, secret, script[1..]);
      if role.result.Err? then Trace(role.issued, Wrap(FailedCreateRole, role.result))
      else
        var create := CreateDatabaseStatement(name);
        var reply := script[1 + |role.issued|];
        var result :=
          if reply == Ok then Success
          else if reply.PgErr? && HasSuffix(reply.message, AlreadyExists) then Success
          else Err([FailedCreateDatabase], reply);
        Trace(role.issued + [create], result)
  }

  /** The shape shared by `DestroyDatabase` and `DestroyRole`: connect, issue
      one DROP, absorb a Postgres error ending in "does not exist", and
      return every other error bare. */
  function DropOne(drop: string, script: seq<Outcome>): (t: Trace)
    requires |script| >= 2
    ensures script[0] != Ok ==> t == Trace([], Err([], script[0]))
    ensures script[0] == Ok ==> t.issued == [drop]
    ensures t.result.Err? ==> t.result.inner == script[|t.issued|] && t.result.inner != Ok
    ensures t.result == Success <==> script[0] == Ok && (script[1] == Ok || PgErrorEndingIn(script[1], DoesNotExist))
    ensures t.result.Err? ==> t.result.contexts == []
  {
    if script[0] != Ok then Trace([], Bare(script[0]))
    else
      var reply := script[1];
      if reply.PgErr? && HasSuffix(reply.message, DoesNotExist) then Trace([drop], Success)
      else Trace([drop], Bare(reply))
  }

  /** `DestroyDatabase`: drop the database, terminating its sessions. */
  function DestroyDatabase(name: string, script: seq<Outcome>): (t: Trace)
    requires |script| >= 2
    ensures script[0] != Ok ==> t == Trace([], Err([], script[0]))
    ensures script[0] == Ok ==> t.issued == [DropDatabaseStatement(name)]
    ensures t.result == Success <==> script[0] == Ok && (script[1] == Ok || PgErrorEndingIn(script[1], DoesNotExist))
    ensures t.result.Err? ==> t.result.inner == script[|t.issued|] && t.result.inner != Ok
    ensures t.result.Err? ==> t.result.contexts == []
  {
    DropOne(DropDatabaseStatement(name), script)
  }

  /** `DestroyRole`: drop the role. */
  function DestroyRole(name: string, script: seq<Outcome>): (t: Trace)
    requires |script| >= 2
    ensures script[0] != Ok ==> t == Trace([], Err([], script[0]))
    ensures script[0] == Ok ==> t.issued == [DropRoleStatement(name)]
    ensures t.result == Success <==> script[0] == Ok && (script[1] == Ok || PgErrorEndingIn(script[1], DoesNotExist))
    ensures t.result.Err? ==> t.result.inner == script[|t.issued|] && t.result.inner != Ok
    ensures t.result.Err? ==> t.result.contexts == []
  {
    DropOne(DropRoleStatement(name), script)
  }
}
