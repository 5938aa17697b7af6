/** The two quoting helpers of pgstate.go and how SQL reads their output back.

    Both helpers only wrap their input; neither doubles an embedded quote.
    Their names are swapped relative to their use: `quoteString` produces a
    double-quoted identifier (role and database names), `quoteIdentifier` a
    single-quoted string literal (the password).

    `ReadQuoted` reads a quoted token by the doubled-quote rule of SQL: a
    doubled quote character stands for one quote character and a single one
    ends the token. It applies no further rule of PostgreSQL identifiers (it
    accepts the empty token and does not truncate long ones). The lemmas show
    that the wrapping reads back as the original text exactly when that text
    holds no quote character of the same kind.
 */
module Quoting {
  import opened Wrappers

  const DoubleQuote: char := '"'
  const SingleQuote: char := '\''

  /** `quoteString`: wrap in double quotes, as for an identifier. */
  function QuoteString(hostile: string): (r: string)
    ensures |r| == |hostile| + 2
    ensures r[0] == DoubleQuote && r[|r| - 1] == DoubleQuote
    ensures r[1..|r| - 1] == hostile
  {
    "\"" + hostile + "\""
  }

  /** `quoteIdentifier`: wrap in single quotes, as for a string literal. */
  function QuoteIdentifier(hostile: string): (r: string)
    ensures |r| == |hostile| + 2
    ensures r[0] == SingleQuote && r[|r| - 1] == SingleQuote
    ensures r[1..|r| - 1] == hostile
  {
    "'" + hostile + "'"
  }

  /** Reads the body of a token quoted with `q`, up to its closing quote:
      the text it denotes and what follows the token. `None` when the token
      is never closed. */
  function ReadBody(q: char, body: string): Option<(string, string)>
    decreases |body|
  {
    if |body| == 0 then None
    else if body[0] != q then
      match ReadBody(q, body[1..])
      case None => None
      case Some((text, after)) => Some(([body[0]] + text, after))
    else if |body| > 1 && body[1] == q then
      match ReadBody(q, body[2..])
      case None => None
      case Some((text, after)) => Some(([q] + text, after))
    else Some(("", body[1..]))
  }

  /** Reads one token quoted with `q` from the front of `t`. */
  function ReadQuoted(q: char, t: string): Option<(string, string)>
  {
    if |t| > 0 && t[0] == q then ReadBody(q, t[1..]) else None
  }

  /** Every quote inside the denoted text costs two in the token, and one
      more closes it. */
  lemma {:induction false} ReadBodyCountsQuotes(q: char, body: string)
    requires ReadBody(q, body).Some?
    ensures multiset(body)[q] ==
              2 * multiset(ReadBody(q, body).value.0)[q] + 1 + multiset(ReadBody(q, body).value.1)[q]
    decreases |body|
  {
    if body[0] != q {
      ReadBodyCountsQuotes(q, body[1..]);
      assert body == [body[0]] + body[1..];
    } else if |body| > 1 && body[1] == q {
      ReadBodyCountsQuotes(q, body[2..]);
      assert body == [q, q] + body[2..];
    } else {
      assert body == [q] + body[1..];
    }
  }

  /** A text free of `q`, followed by the closing quote, reads back whole,
      unless what follows starts with another `q` (the two would read as one
      quote inside the text). */
  lemma {:induction false} ReadBodyOfPlainText(q: char, text: string, after: string)
    requires q !in text
    requires |after| == 0 || after[0] != q
    ensures ReadBody(q, text + [q] + after) == Some((text, after))
    decreases |text|
  {
    if |text| == 0 {
      assert text + [q] + after == [q] + after;
      assert ([q] + after)[1..] == after;
    } else {
      ReadBodyOfPlainText(q, text[1..], after);
      assert (text + [q] + after)[1..] == text[1..] + [q] + after;
      assert [text[0]] + text[1..] == text;
    }
  }

  /** Wrapping `text` in `q` reads back as exactly `text`, with nothing left
      over, if and only if `text` holds no `q`. */
  lemma WrapReadsBackIff(q: char, text: string)
    ensures ReadQuoted(q, [q] + text + [q]) == Some((text, "")) <==> q !in text
  {
    var t := [q] + text + [q];
    assert t[1..] == text + [q] + "";
    if q !in text {
      ReadBodyOfPlainText(q, text, "");
    }
    if ReadQuoted(q, t) == Some((text, "")) {
      ReadBodyCountsQuotes(q, t[1..]);
      assert multiset(t[1..])[q] == multiset(text)[q] + 1;
    }
  }

  /** A text wrapped in `q` and followed by more text reads back whole, with
      the rest left over, when it holds no `q` and the rest does not open
      with one. */
  lemma WrapThenReadsBack(q: char, text: string, after: string)
    requires q !in text
    requires |after| == 0 || after[0] != q
    ensures ReadQuoted(q, [q] + text + [q] + after) == Some((text, after))
  {
    var t := [q] + text + [q] + after;
    assert t[1..] == text + [q] + after;
    ReadBodyOfPlainText(q, text, after);
  }

  /** A text holding `q`, wrapped without doubling and followed by text free
      of `q`, never reads back as itself: the reader ends the token early,
      takes a doubled quote for one, or finds the token left open. */
  lemma WrapWithQuoteReadsOther(q: char, text: string, after: string)
    requires q in text && q !in after
    ensures ReadQuoted(q, [q] + text + [q] + after).Some? ==>
              ReadQuoted(q, [q] + text + [q] + after).value.0 != text
  {
    var t := [q] + text + [q] + after;
    assert t[1..] == text + [q] + after;
    if ReadQuoted(q, t).Some? {
      ReadBodyCountsQuotes(q, t[1..]);
      assert multiset(t[1..])[q] == multiset(text)[q] + 1 + multiset(after)[q];
    }
  }

  /** A name quoted by `quoteString` reads back as the same text exactly
      when the name holds no double quote. */
  lemma QuoteStringReadsBack(name: string)
    ensures ReadQuoted(DoubleQuote, QuoteString(name)) == Some((name, "")) <==> DoubleQuote !in name
  {
    assert QuoteString(name) == [DoubleQuote] + name + [DoubleQuote];
    WrapReadsBackIff(DoubleQuote, name);
  }

  /** A secret quoted by `quoteIdentifier` reads back as the same literal
      exactly when the secret holds no single quote. */
  lemma QuoteIdentifierReadsBack(secret: string)
    ensures ReadQuoted(SingleQuote, QuoteIdentifier(secret)) == Some((secret, "")) <==> SingleQuote !in secret
  {
    assert QuoteIdentifier(secret) == [SingleQuote] + secret + [SingleQuote];
    WrapReadsBackIff(SingleQuote, secret);
  }
}
