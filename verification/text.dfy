/** The string routines the program leans on: String.Format with numbered placeholders and ordinal prefix tests. */
module Text {

  /** True when s begins with prefix, compared character by character. */
  predicate StartsWith(s: string, prefix: string)
  {
    |prefix| <= |s| && s[..|prefix|] == prefix
  }

  predicate IsDigit(c: char)
  {
    '0' <= c <= '9'
  }

  /** True when fmt holds no opening brace, so it can contain no placeholder. */
  predicate Literal(fmt: string)
  {
    forall i :: 0 <= i < |fmt| ==> fmt[i] != '{'
  }

  /**
   * String.Format restricted to placeholders {0} to {9}: each placeholder whose number names an
   * argument is replaced by that argument; every other character is copied.
   */
  function Format(fmt: string, args: seq<string>): (r: string)
    ensures |fmt| == 0 ==> r == ""
    ensures |fmt| > 0 && fmt[0] != '{' ==> |r| > 0 && r[0] == fmt[0]
    decreases |fmt|
  {
    if |fmt| == 0 then ""
    else if |fmt| >= 3 && fmt[0] == '{' && IsDigit(fmt[1]) && fmt[2] == '}'
            && (fmt[1] as int - '0' as int) < |args|
    then args[fmt[1] as int - '0' as int] + Format(fmt[3..], args)
    else [fmt[0]] + Format(fmt[1..], args)
  }

  /** Text without placeholders comes through formatting unchanged, whatever follows it. */
  lemma {:induction false} FormatLiteralPrefix(lit: string, rest: string, args: seq<string>)
    requires Literal(lit)
    ensures Format(lit + rest, args) == lit + Format(rest, args)
    decreases |lit|
  {
    if |lit| > 0 {
      assert (lit + rest)[0] == lit[0] != '{';
      assert (lit + rest)[1..] == lit[1..] + rest;
      assert Literal(lit[1..]) by {
        forall i | 0 <= i < |lit[1..]| ensures lit[1..][i] != '{' {
          assert lit[1..][i] == lit[i + 1];
        }
      }
      FormatLiteralPrefix(lit[1..], rest, args);
      assert Format(lit + rest, args) == [lit[0]] + Format(lit[1..] + rest, args);
      assert [lit[0]] + lit[1..] == lit;
    } else {
      assert lit + rest == rest;
    }
  }

  /** A format with no placeholder ignores its arguments entirely. */
  lemma FormatLiteral(lit: string, args: seq<string>)
    requires Literal(lit)
    ensures Format(lit, args) == lit
  {
    FormatLiteralPrefix(lit, "", args);
    assert lit + "" == lit;
  }

  /** A placeholder naming argument k is replaced by that argument. */
  lemma FormatPlaceholder(k: nat, rest: string, args: seq<string>)
    requires k < 10 && k < |args|
    ensures Format(['{', ('0' as int + k) as char, '}'] + rest, args) == args[k] + Format(rest, args)
  {
    var fmt := ['{', ('0' as int + k) as char, '}'] + rest;
    assert fmt[3..] == rest;
  }
}
