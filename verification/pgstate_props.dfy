/** Properties of the reconciliation logic of module `PgState`: how the
    statements it issues read, which errors a caller can see, and how it
    behaves when the objects already exist or are already gone. */
module PgStateProperties {
  import opened Quoting
  import opened PgState
  import opened Wrappers

  /** In a quote-free text followed by a tail opening with a double quote,
      the first double quote sits right after the text. */
  lemma FirstQuoteAfter(a: string, u: string)
    requires DoubleQuote !in a
    requires |u| > 0 && u[0] == DoubleQuote
    ensures forall i :: 0 <= i < |a| ==> (a + u)[i] != DoubleQuote
    ensures (a + u)[|a|] == DoubleQuote
  {
  }

  /** Two strings free of double quotes, each followed by a tail that opens
      with a double quote, can only be equal as wholes if they are equal
      part by part. */
  lemma SplitAtQuote(a: string, u: string, b: string, v: string)
    requires DoubleQuote !in a && DoubleQuote !in b
    requires |u| > 0 && u[0] == DoubleQuote && |v| > 0 && v[0] == DoubleQuote
    requires a + u == b + v
    ensures a == b && u == v
  {
    FirstQuoteAfter(a, u);
    FirstQuoteAfter(b, v);
    assert |a| == |b|;
    assert a == (a + u)[..|a|];
    assert b == (b + v)[..|b|];
    assert u == (a + u)[|a|..];
    assert v == (b + v)[|b|..];
  }

  /** CREATE ROLE up to the opening quote of the role name. */
  const Opening := "CREATE ROLE \""

  /** The text between the role name and the secret in CREATE ROLE. */
  const Splice := "\" WITH LOGIN PASSWORD '"

  /** Moves the closing quote of an identifier and the opening quote of a
      literal into the fixed text between them. */
  lemma QuotesRegrouped(a: string, q: string, b: string, c: string, p: string, d: string)
    ensures a + (q + b + q) + c + (p + d + p) == (a + q) + b + (q + c + p) + d + p
  {
  }

  /** CREATE ROLE as the role and the secret set into fixed text. */
  lemma CreateRoleStatementSpliced(role: string, secret: string)
    ensures CreateRoleStatement(role, secret) == Opening + role + Splice + secret + "'"
  {
    QuotesRegrouped("CREATE ROLE ", "\"", role, " WITH LOGIN PASSWORD ", "'", secret);
    assert "CREATE ROLE " + "\"" == Opening;
    assert "\"" + " WITH LOGIN PASSWORD " + "'" == Splice;
  }

  /** Regroups a five-part concatenation to the right. */
  lemma RightNested(a: string, b: string, c: string, d: string, e: string)
    ensures a + b + c + d + e == a + (b + (c + (d + e)))
  {
  }

  /** Equal texts behind a common prefix are equal. */
  lemma PrefixCancels(p: string, x: string, y: string)
    requires p + x == p + y
    ensures x == y
  {
    assert x == (p + x)[|p|..];
    assert y == (p + y)[|p|..];
  }

  /** Equal texts before a common suffix are equal. */
  lemma SuffixCancels(x: string, y: string, q: string)
    requires x + q == y + q
    ensures x == y
  {
    assert x == (x + q)[..|x|];
    assert y == (y + q)[..|y|];
  }

  /** For roles without a double quote, the CREATE ROLE text determines both
      the role and the secret. */
  lemma CreateRoleStatementInjective(role1: string, secret1: string, role2: string, secret2: string)
    requires DoubleQuote !in role1 && DoubleQuote !in role2
    requires CreateRoleStatement(role1, secret1) == CreateRoleStatement(role2, secret2)
    ensures role1 == role2 && secret1 == secret2
  {
    CreateRoleStatementSpliced(role1, secret1);
    CreateRoleStatementSpliced(role2, secret2);
    RightNested(Opening, role1, Splice, secret1, "'");
    RightNested(Opening, role2, Splice, secret2, "'");
    PrefixCancels(Opening, role1 + (Splice + (secret1 + "'")), role2 + (Splice + (secret2 + "'")));
    assert Splice[0] == DoubleQuote;
    SplitAtQuote(role1, Splice + (secret1 + "'"), role2, Splice + (secret2 + "'"));
    PrefixCancels(Splice, secret1 + "'", secret2 + "'");
    SuffixCancels(secret1, secret2, "'");
  }

  /** Moves the splice text from one side of `d` to the other. */
  lemma SpliceShifted(a: string, b: string, c: string, d: string, e: string, f: string)
    ensures a + (b + c + d) + c + e + f == a + b + c + (d + c + e) + f
  {
  }

  /** Because neither helper doubles embedded quotes, a role name that
      closes its identifier early and carries part of the secret yields the
      same CREATE ROLE text as a different, shorter role name with a longer
      secret. */
  lemma CreateRoleStatementAmbiguous(role: string, secret: string, extra: string)
    ensures CreateRoleStatement(role + Splice + secret, extra) == CreateRoleStatement(role, secret + Splice + extra)
    ensures role + Splice + secret != role
  {
    CreateRoleStatementSpliced(role + Splice + secret, extra);
    CreateRoleStatementSpliced(role, secret + Splice + extra);
    SpliceShifted(Opening, role, Splice, secret, extra, "'");
  }

  /** The identifier a statement names right after its leading text `lead`:
      it reads back as `name`. */
  predicate StatementNames(statement: string, lead: string, name: string)
  {
    && |lead| <= |statement|
    && statement[..|lead|] == lead
    && ReadQuoted(DoubleQuote, statement[|lead|..]).Some?
    && ReadQuoted(DoubleQuote, statement[|lead|..]).value.0 == name
  }

  /** A statement that opens with `lead` and then quotes `name`. */
  lemma QuotedAfterLead(lead: string, name: string, after: string)
    ensures |lead| <= |lead + QuoteString(name) + after|
    ensures (lead + QuoteString(name) + after)[..|lead|] == lead
    ensures (lead + QuoteString(name) + after)[|lead|..] == [DoubleQuote] + name + [DoubleQuote] + after
  {
    assert QuoteString(name) == [DoubleQuote] + name + [DoubleQuote];
    assert lead + QuoteString(name) + after == lead + ([DoubleQuote] + name + [DoubleQuote] + after);
  }

  /** A statement that opens with `lead` and then single-quotes `secret`. */
  lemma LiteralAfterLead(lead: string, secret: string)
    ensures (lead + QuoteIdentifier(secret))[|lead|..] == [SingleQuote] + secret + [SingleQuote] + ""
  {
    assert QuoteIdentifier(secret) == [SingleQuote] + secret + [SingleQuote] + "";
  }

  /** CREATE ROLE names the role, then gives it the secret as its login
      password, when neither holds its own kind of quote. */
  lemma CreateRoleStatementTargets(role: string, secret: string)
    ensures DoubleQuote !in role ==>
              ReadQuoted(DoubleQuote, CreateRoleStatement(role, secret)[|"CREATE ROLE "|..]) ==
                Some((role, " WITH LOGIN PASSWORD " + QuoteIdentifier(secret)))
    ensures SingleQuote !in secret ==>
              ReadQuoted(SingleQuote, (" WITH LOGIN PASSWORD " + QuoteIdentifier(secret))[|" WITH LOGIN PASSWORD "|..]) ==
                Some((secret, ""))
  {
    var setting := " WITH LOGIN PASSWORD " + QuoteIdentifier(secret);
    assert CreateRoleStatement(role, secret) == "CREATE ROLE " + QuoteString(role) + setting;
    QuotedAfterLead("CREATE ROLE ", role, setting);
    LiteralAfterLead(" WITH LOGIN PASSWORD ", secret);
    if DoubleQuote !in role {
      WrapThenReadsBack(DoubleQuote, role, setting);
    }
    if SingleQuote !in secret {
      WrapThenReadsBack(SingleQuote, secret, "");
    }
  }

  /** ALTER ROLE names the role, then sets its password to the secret, when
      neither holds its own kind of quote. */
  lemma AlterRoleStatementTargets(role: string, secret: string)
    ensures DoubleQuote !in role ==>
              ReadQuoted(DoubleQuote, AlterRoleStatement(role, secret)[|"ALTER ROLE "|..]) ==
                Some((role, " PASSWORD " + QuoteIdentifier(secret)))
    ensures SingleQuote !in secret ==>
              ReadQuoted(SingleQuote, (" PASSWORD " + QuoteIdentifier(secret))[|" PASSWORD "|..]) == Some((secret, ""))
  {
    var setting := " PASSWORD " + QuoteIdentifier(secret);
    assert AlterRoleStatement(role, secret) == "ALTER ROLE " + QuoteString(role) + setting;
    QuotedAfterLead("ALTER ROLE ", role, setting);
    LiteralAfterLead(" PASSWORD ", secret);
    if DoubleQuote !in role {
      WrapThenReadsBack(DoubleQuote, role, setting);
    }
    if SingleQuote !in secret {
      WrapThenReadsBack(SingleQuote, secret, "");
    }
  }

  /** Groups the last three parts of a five-part concatenation. */
  lemma TailGrouped(a: string, b: string, c: string, d: string, e: string)
    ensures a + b + c + d + e == a + b + (c + d + e)
  {
  }

  /** CREATE DATABASE names the database, followed by the owner clause, when
      the name holds no double quote; what the owner clause names is
      `OwnerClauseTargets`. */
  lemma CreateDatabaseStatementTargets(name: string)
    ensures DoubleQuote !in name ==>
              ReadQuoted(DoubleQuote, CreateDatabaseStatement(name)[|"CREATE DATABASE "|..]) ==
                Some((name, " WITH OWNER " + QuoteString(name) + DatabaseLocale))
  {
    var owner := " WITH OWNER " + QuoteString(name) + DatabaseLocale;
    TailGrouped("CREATE DATABASE ", QuoteString(name), " WITH OWNER ", QuoteString(name), DatabaseLocale);
    QuotedAfterLead("CREATE DATABASE ", name, owner);
    if DoubleQuote !in name {
      WrapThenReadsBack(DoubleQuote, name, owner);
    }
  }

  /** The owner clause of CREATE DATABASE names the role, followed by the
      locale options, when the name holds no double quote. */
  lemma OwnerClauseTargets(name: string)
    ensures DoubleQuote !in name ==>
              ReadQuoted(DoubleQuote, (" WITH OWNER " + QuoteString(name) + DatabaseLocale)[|" WITH OWNER "|..]) ==
                Some((name, DatabaseLocale))
  {
    QuotedAfterLead(" WITH OWNER ", name, DatabaseLocale);
    if DoubleQuote !in name {
      assert DatabaseLocale[0] == ' ';
      WrapThenReadsBack(DoubleQuote, name, DatabaseLocale);
    }
  }

  /** DROP ROLE names the given role exactly when the name holds no double
      quote; otherwise it names another identifier or leaves the quoted
      token open. */
  lemma DropRoleStatementTargets(name: string)
    ensures StatementNames(DropRoleStatement(name), "DROP ROLE ", name) <==> DoubleQuote !in name
    ensures DoubleQuote !in name ==>
              ReadQuoted(DoubleQuote, DropRoleStatement(name)[|"DROP ROLE "|..]) == Some((name, ""))
  {
    QuotedAfterLead("DROP ROLE ", name, "");
    assert DropRoleStatement(name) == "DROP ROLE " + QuoteString(name) + "";
    if DoubleQuote in name {
      WrapWithQuoteReadsOther(DoubleQuote, name, "");
    } else {
      WrapThenReadsBack(DoubleQuote, name, "");
    }
  }

  /** DROP DATABASE names the given database, followed by its option list,
      exactly when the name holds no double quote; otherwise it names another
      identifier or leaves the quoted token open. */
  lemma DropDatabaseStatementTargets(name: string)
    ensures StatementNames(DropDatabaseStatement(name), "DROP DATABASE ", name) <==> DoubleQuote !in name
    ensures DoubleQuote !in name ==>
              ReadQuoted(DoubleQuote, DropDatabaseStatement(name)[|"DROP DATABASE "|..]) == Some((name, " WITH (FORCE)"))
  {
    QuotedAfterLead("DROP DATABASE ", name, " WITH (FORCE)");
    if DoubleQuote in name {
      WrapWithQuoteReadsOther(DoubleQuote, name, " WITH (FORCE)");
    } else {
      WrapThenReadsBack(DoubleQuote, name, " WITH (FORCE)");
    }
  }

  /** `strings.HasSuffix` holds exactly when the text is some text followed
      by the suffix. */
  lemma HasSuffixIff(s: string, suffix: string)
    ensures HasSuffix(s, suffix) <==> exists p :: s == p + suffix
  {
    if HasSuffix(s, suffix) {
      var p := s[..|s| - |suffix|];
      assert s == p + suffix;
    }
    if exists p :: s == p + suffix {
      var p :| s == p + suffix;
      assert s[|s| - |suffix|..] == suffix;
    }
  }

  /** An outcome is classified by a suffix exactly when it is a Postgres
      error whose message is some text followed by that suffix. */
  lemma PgErrorEndingInIff(o: Outcome, suffix: string)
    ensures PgErrorEndingIn(o, suffix) <==> exists p :: o == PgErr(p + suffix)
  {
    if o.PgErr? {
      HasSuffixIff(o.message, suffix);
    }
  }

  /** CREATE DATABASE is issued exactly when the connection opened and the
      role was ensured. */
  lemma CreateDatabaseIssuedIff(name: string, secret: string, script: seq<Outcome>)
    requires |script| >= 4
    ensures CreateDatabaseStatement(name) in EnsureDatabase(name, secret, script).issued <==>
              script[0] == Ok && EnsureRole(name, secret, script[1..]).result == Success
  {
    var t := EnsureDatabase(name, secret, script);
    var db := CreateDatabaseStatement(name);
    assert db[0] == 'C' && db[7] == 'D';
    if script[0] == Ok {
      var role := EnsureRole(name, secret, script[1..]);
      assert role.issued[0][7] == 'R';
      if |role.issued| == 2 {
        assert role.issued[1][0] == 'A';
      }
      assert db !in role.issued;
    }
  }

  /** The contexts in front of an `EnsureDatabase` error say which step
      failed: none for the connection, "failed to create role" (over
      "failed to CREATE ROLE ACL" when CREATE ROLE itself failed) for the
      role, "failed to create database" for the database. */
  lemma EnsureDatabaseErrorContexts(name: string, secret: string, script: seq<Outcome>)
    requires |script| >= 4
    ensures var t := EnsureDatabase(name, secret, script);
            t.result.Err? ==>
              && (t.result.contexts == [] <==> script[0] != Ok)
              && (t.result.contexts == [FailedCreateRole, FailedCreateRoleAcl] <==>
                    script[0] == Ok && script[1] != Ok && !PgErrorEndingIn(script[1], AlreadyExists))
              && (t.result.contexts == [FailedCreateRole] <==>
                    script[0] == Ok && PgErrorEndingIn(script[1], AlreadyExists) && script[2] != Ok)
              && (t.result.contexts == [FailedCreateDatabase] <==>
                    script[0] == Ok && EnsureRole(name, secret, script[1..]).result == Success)
  {
    assert FailedCreateRole != FailedCreateDatabase by {
      assert FailedCreateRole[10] == 'c' && FailedCreateDatabase[10] == 'c';
      assert FailedCreateRole[17] == 'r' && FailedCreateDatabase[17] == 'd';
    }
    var replies := script[1..];
    assert replies[0] == script[1] && replies[1] == script[2];
  }

  /** A role and database that both exist already: the role's password is
      set again by ALTER ROLE, the database is left as it is, and the call
      succeeds. This assumes the server reports existing objects with a
      Postgres error whose message ends in "already exists". */
  lemma EnsureOnExisting(name: string, secret: string, roleMessage: string, databaseMessage: string)
    requires HasSuffix(roleMessage, AlreadyExists) && HasSuffix(databaseMessage, AlreadyExists)
    ensures EnsureDatabase(name, secret, [Ok, PgErr(roleMessage), Ok, PgErr(databaseMessage)]) ==
              Trace([CreateRoleStatement(name, secret), AlterRoleStatement(name, secret), CreateDatabaseStatement(name)], Success)
  {
    var script := [Ok, PgErr(roleMessage), Ok, PgErr(databaseMessage)];
    assert script[1..] == [PgErr(roleMessage), Ok, PgErr(databaseMessage)];
  }

  /** On a fresh cluster the role and the database are created and nothing
      else is issued. */
  lemma EnsureOnFresh(name: string, secret: string, spare: Outcome)
    ensures EnsureDatabase(name, secret, [Ok, Ok, Ok, spare]) ==
              Trace([CreateRoleStatement(name, secret), CreateDatabaseStatement(name)], Success)
  {
    var script := [Ok, Ok, Ok, spare];
    assert script[1..] == [Ok, Ok, spare];
  }

  /** Dropping what is already gone succeeds, assuming the server reports a
      missing object with a Postgres error whose message ends in
      "does not exist". */
  lemma DestroyWhenAbsent(name: string, message: string)
    requires HasSuffix(message, DoesNotExist)
    ensures DestroyDatabase(name, [Ok, PgErr(message)]) == Trace([DropDatabaseStatement(name)], Success)
    ensures DestroyRole(name, [Ok, PgErr(message)]) == Trace([DropRoleStatement(name)], Success)
  {
  }

  /** Absorbing goes by the error's kind as well as its text: the same
      failure without a Postgres error behind it is returned. */
  lemma OnlyPostgresErrorsAreAbsorbed(name: string, secret: string)
    ensures DestroyRole(name, [Ok, OtherErr]).result == Err([], OtherErr)
    ensures EnsureRole(name, secret, [OtherErr, Ok]) == Trace([CreateRoleStatement(name, secret)], Err([FailedCreateRoleAcl], OtherErr))
  {
  }
}
