/**
 * Text after the `)` that closes a form: the loop of `parse_tagged` stops at
 * that `)`, but its `(` lookahead reads to the end of the whole input, so the
 * trailing text is ignored only when it holds no `(`.
 */
module Trailing {
  import opened Text
  import opened Tree
  import opened Scanner
  import opened Parser
  import opened ParserFacts

  /** A group the scanner closes inside `input` is found at the same place once text is appended. */
  lemma {:induction false} FindCloseExtend(input: string, rest: string, i: nat, level: int)
    requires i <= |input| && FindClose(input, i, level) < |input|
    ensures FindClose(input + rest, i, level) == FindClose(input, i, level)
    decreases |input| - i
  {
    assert (input + rest)[i] == input[i];
    if input[i] == '(' {
      FindCloseExtend(input, rest, i + 1, level + 1);
    } else if input[i] == ')' {
      if level - 1 != 0 {
        FindCloseExtend(input, rest, i + 1, level - 1);
      }
    } else {
      FindCloseExtend(input, rest, i + 1, level);
    }
  }

  /** One turn of the loop reads the same inside `input` as inside `input + rest`. */
  lemma StepExtend(input: string, rest: string, m: Machine)
    requires m.index < |input| && input[m.index] != ')' && '(' !in rest
    requires input[m.index] == '(' ==> FindClose(input, m.index, 0) < |input|
    ensures Step(input + rest, m) == Step(input, m)
  {
    var i := m.index;
    var c := input[i];
    assert (input + rest)[i] == c;
    if IsBlank(c) {
      BlankExtend(input, rest, m.(index := i + 1), c);
    } else if c == '(' {
      ScanExtend(input, rest, i);
    }
  }

  /** The lookahead of the whitespace arm gives the same answer once text free of `(` is appended. */
  lemma BlankExtend(input: string, rest: string, m: Machine, c: char)
    requires m.index <= |input| && '(' !in rest
    ensures OnBlank(input + rest, m, c) == OnBlank(input, m, c)
  {
    assert (input + rest)[m.index..] == input[m.index..] + rest;
  }

  /** A group closed inside `input` is captured the same way once text is appended. */
  lemma ScanExtend(input: string, rest: string, i: nat)
    requires i < |input| && FindClose(input, i, 0) < |input|
    ensures Scan(input + rest, i) == Scan(input, i)
  {
    FindCloseExtend(input, rest, i, 0);
    var j := FindClose(input, i, 0);
    assert (input + rest)[i..j] == input[i..j];
  }

  /** A run that closes inside `input` ends in the same state when text free of `(` follows. */
  lemma {:induction false} RunExtend(input: string, rest: string, m: Machine)
    requires ClosesWithin(input, m) && '(' !in rest
    ensures Run(input + rest, m) == Run(input, m)
    decreases |input| - m.index
  {
    assert (input + rest)[m.index] == input[m.index];
    if input[m.index] != ')' {
      if input[m.index] == '(' {
        var (sexp, next) := Scan(input, m.index);
        assert next < |input|;
      }
      StepExtend(input, rest, m);
      RunExtend(input, rest, Step(input, m));
    }
  }

  /**
   * Once a form has been closed, text after it that holds no `(` does not change
   * the parse.
   */
  lemma TrailingInputIgnored(input: string, rest: string)
    requires input != [] && input[0] == '(' && ClosesWithin(input, Start)
    requires '(' !in rest
    ensures Parse(input + rest) == Parse(input)
  {
    assert (input + rest)[0] == '(';
    RunExtend(input, rest, Start);
  }
}
