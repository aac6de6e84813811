/**
 * The tagged-form parser `parse_tagged`: a character-by-character state machine
 * over a pending buffer, a label, the prefix and instruction lists and a one-way
 * instruction-mode flag. Nested `(` groups are handed to the scanner.
 */
module Parser {
  import opened Text
  import opened Tree
  import opened Scanner

  const ExpectedOpenParen: string := "Expected opening parenthesis"
  const MissingLabel: string := "Missing label"

  /** The loop state of `parse_tagged`: `index`, `buf`, `label` (as `name`, `label` being a Dafny keyword), `prefix`, `instructions`, `instr_mode`. */
  datatype Machine = Machine(
    index: nat,
    buf: string,
    name: string,
    prefix: seq<string>,
    instructions: seq<string>,
    instrMode: bool)

  /** The state after the opening `(` has been consumed. */
  const Start: Machine := Machine(1, "", "", [], [], false)

  /** Appends the trimmed buffer to `entries` unless the buffer is empty. */
  function Flush(entries: seq<string>, buf: string): (r: seq<string>)
    ensures entries <= r && |r| <= |entries| + 1
    ensures r == entries <==> buf == ""
    ensures r != entries ==> r[|entries|] == Trim(buf)
  {
    if buf != "" then entries + [Trim(buf)] else entries
  }

  /**
   * The whitespace arm (`' ' | '\t' | '\n'`) for the character `c`; `m.index`
   * already points past `c`, so the lookahead covers the rest of the input.
   */
  function OnBlank(input: string, m: Machine, c: char): (r: Machine)
    requires m.index <= |input|
    ensures r.index == m.index
    ensures m.buf == "" ==> r == m
    ensures m.prefix <= r.prefix && m.instructions <= r.instructions
    ensures r.prefix == m.prefix || r.prefix == m.prefix + [Trim(m.buf)]
    ensures |r.prefix| + |r.instructions| <= |m.prefix| + |m.instructions| + 1
    ensures m.name != "" ==> r.name == m.name
    ensures m.instrMode && m.prefix != [] ==> r.instrMode && r.prefix == m.prefix
  {
    if m.buf == "" then m
    else if m.name == "" then m.(name := m.buf, buf := "")
    else if m.prefix == [] then m.(prefix := [Trim(m.buf)], buf := "")
    else if !m.instrMode then
      if '(' in input[m.index..] then m.(prefix := m.prefix + [Trim(m.buf)], buf := "")
      else if c == '\n' then m.(instrMode := true, instructions := m.instructions + [Trim(m.buf)], buf := "")
      else m.(instrMode := true, buf := m.buf + [c])
    else if c == '\n' then m.(instructions := m.instructions + [Trim(m.buf)], buf := "")
    else m.(buf := m.buf + [c])
  }

  /** One turn of the loop for a character other than `)`: the whitespace, `(` and catch-all arms. */
  function Step(input: string, m: Machine): (r: Machine)
    requires m.index < |input|
    ensures m.index < r.index <= |input|
  {
    var c := input[m.index];
    if IsBlank(c) then OnBlank(input, m.(index := m.index + 1), c)
    else if c == '(' then
      var (sexp, next) := Scan(input, m.index);
      m.(index := next, prefix := m.prefix + [sexp])
    else m.(index := m.index + 1, buf := m.buf + [c])
  }

  /** The turn for the `)` that closes the form: flush a non-empty buffer into the instructions, then stop. */
  function Close(m: Machine): Machine {
    m.(index := m.index + 1, buf := "", instructions := Flush(m.instructions, m.buf))
  }

  /** The `while index < input.len()` loop of `parse_tagged`, run from state `m` to its end. */
  function Run(input: string, m: Machine): (r: Machine)
    decreases |input| - m.index
  {
    if m.index >= |input| then m
    else if input[m.index] == ')' then Close(m)
    else Run(input, Step(input, m))
  }

  /** What `parse_tagged(input)` returns. */
  function Parse(input: string): (r: Result<Tagged, string>)
    ensures r.Err? && r.error == ExpectedOpenParen <==> |input| == 0 || input[0] != '('
    ensures r.Err? ==> r.error == ExpectedOpenParen || r.error == MissingLabel
    ensures r.Ok? ==> r.value.name != "" && AllStr(r.value.prefix) && AllStr(r.value.instructions)
  {
    if |input| == 0 || input[0] != '(' then Err(ExpectedOpenParen)
    else
      var m := Run(input, Start);
      if m.name == "" then Err(MissingLabel)
      else Ok(Tagged(m.name, Strs(m.prefix), Strs(m.instructions)))
  }

  /**
   * The whitespace arm of the loop in `parse_tagged`, for the character `c`;
   * `st.index` already points past `c`.
   */
  method FlushAtBlank(input: string, st: Machine, c: char) returns (r: Machine)
    requires st.index <= |input|
    ensures r == OnBlank(input, st, c)
  {
    r := st;
    if r.buf != "" {
      if r.name == "" {
        r := r.(name := r.buf, buf := "");
      } else if r.prefix == [] {
        r := r.(prefix := r.prefix + [Trim(r.buf)], buf := "");
      } else if !r.instrMode {
        var sexpAhead := '(' in input[r.index..];
        if sexpAhead {
          r := r.(prefix := r.prefix + [Trim(r.buf)], buf := "");
        } else {
          r := r.(instrMode := true);
          if c == '\n' {
            r := r.(instructions := r.instructions + [Trim(r.buf)], buf := "");
          } else {
            r := r.(buf := r.buf + [c]);
          }
        }
      } else {
        if c == '\n' {
          r := r.(instructions := r.instructions + [Trim(r.buf)], buf := "");
        } else {
          r := r.(buf := r.buf + [c]);
        }
      }
    }
  }

  /**
   * `parse_tagged`: the loop that mutates the buffer, the label, the two lists
   * and the mode flag, here held together in the record `st`.
   */
  method ParseTagged(input: string) returns (r: Result<Tagged, string>)
    ensures r == Parse(input)
  {
    if |input| == 0 || input[0] != '(' {
      return Err(ExpectedOpenParen);
    }
    var st := Machine(1, "", "", [], [], false);

    ghost var final := Run(input, Start);
    while st.index < |input|
      invariant 1 <= st.index <= |input|
      invariant Run(input, st) == final
      decreases |input| - st.index
    {
      ghost var before := st;
      var c := input[st.index];
      st := st.(index := st.index + 1);

      if c == ')' {
        if st.buf != "" {
          st := st.(instructions := st.instructions + [Trim(st.buf)], buf := "");
        }
        assert st == Close(before) == final;
        break;
      } else if c == ' ' || c == '\t' || c == '\n' {
        st := FlushAtBlank(input, st, c);
        assert st == Step(input, before);
      } else if c == '(' {
        var sexp, newIndex := ParseSexp(input, st.index - 1);
        st := st.(index := newIndex, prefix := st.prefix + [sexp]);
        assert st == Step(input, before);
      } else {
        st := st.(buf := st.buf + [c]);
        assert st == Step(input, before);
      }
    }
    assert st == final;

    if st.name == "" {
      return Err(MissingLabel);
    }
    r := Ok(Tagged(st.name, Strs(st.prefix), Strs(st.instructions)));
  }
}
