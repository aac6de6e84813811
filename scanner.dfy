/**
 * The balanced-parenthesis scanner `parse_sexp`: starting at an index it copies
 * characters, counting nesting depth, and stops just after the `)` that brings
 * the depth back to 0, or at the end of the input.
 */
module Scanner {

  /** Number of occurrences of `ch` in `s`. */
  function Count(s: string, ch: char): nat {
    if s == [] then 0 else Count(s[..|s| - 1], ch) + (if s[|s| - 1] == ch then 1 else 0)
  }

  /** Nesting depth after reading `s` from depth 0: opening minus closing parentheses. */
  function Depth(s: string): int {
    Count(s, '(') - Count(s, ')')
  }

  lemma DepthSnoc(s: string, c: char)
    ensures Depth(s + [c]) == Depth(s) + (if c == '(' then 1 else if c == ')' then -1 else 0)
  {
    assert (s + [c])[..|s|] == s;
  }

  /** The scanner stops after reading `s`: its last character is `)` and it holds equally many `(` and `)`. */
  predicate Closes(s: string) {
    |s| > 0 && s[|s| - 1] == ')' && Count(s, '(') == Count(s, ')')
  }

  /**
   * The index just past where the scanner stops when it reaches position `i`
   * at depth `level`: the `while index < input.len()` loop of `parse_sexp`.
   */
  function FindClose(input: string, i: nat, level: int): (j: nat)
    requires i <= |input|
    ensures i <= j <= |input|
    ensures i < |input| ==> i < j
    decreases |input| - i
  {
    if i == |input| then i
    else if input[i] == '(' then FindClose(input, i + 1, level + 1)
    else if input[i] == ')' then
      if level - 1 == 0 then i + 1 else FindClose(input, i + 1, level - 1)
    else FindClose(input, i + 1, level)
  }

  /** What `parse_sexp(input, start)` returns: the captured text and the next index. */
  function Scan(input: string, start: nat): (r: (string, nat))
    ensures start < |input| ==> start < r.1 <= |input| && r.0 == input[start..r.1]
    ensures start >= |input| ==> r == ("", start)
  {
    if start < |input| then
      var next := FindClose(input, start, 0);
      (input[start..next], next)
    else ("", start)
  }

  lemma SliceSnoc(s: string, i: nat, j: nat)
    requires i < j <= |s|
    ensures s[i..j] == s[i..j - 1] + [s[j - 1]]
  {
  }

  /** `parse_sexp`: the loop over `index`, `level` and the growing buffer. */
  method ParseSexp(input: string, start: nat) returns (captured: string, next: nat)
    ensures (captured, next) == Scan(input, start)
  {
    captured := "";
    var level := 0;
    next := start;
    while next < |input|
      invariant start <= next
      invariant start > |input| ==> next == start && captured == ""
      invariant start <= |input| ==> next <= |input| && captured == input[start..next]
      invariant start <= |input| ==> FindClose(input, next, level) == FindClose(input, start, 0)
      decreases |input| - next
    {
      var c := input[next];
      next := next + 1;
      SliceSnoc(input, start, next);
      if c == '(' {
        level := level + 1;
        captured := captured + [c];
      } else if c == ')' {
        level := level - 1;
        if level == 0 {
          captured := captured + [c];
          assert captured == input[start..next] && next == FindClose(input, start, 0);
          break;
        } else {
          captured := captured + [c];
        }
      } else {
        captured := captured + [c];
      }
      assert captured == input[start..next];
    }
  }

  /** Reading one more character changes the depth by that character and closes exactly at a `)` from depth 1. */
  lemma ReadOneMore(input: string, start: nat, i: nat)
    requires start <= i < |input|
    ensures Depth(input[start..i + 1]) ==
      Depth(input[start..i]) + (if input[i] == '(' then 1 else if input[i] == ')' then -1 else 0)
    ensures Closes(input[start..i + 1]) <==> input[i] == ')' && Depth(input[start..i]) == 1
  {
    assert input[start..i + 1] == input[start..i] + [input[i]];
    DepthSnoc(input[start..i], input[i]);
  }

  lemma {:induction false} FindCloseFirst(input: string, start: nat, i: nat, level: int)
    requires start <= i <= |input|
    requires level == Depth(input[start..i])
    requires forall k :: start < k <= i ==> !Closes(input[start..k])
    ensures var j := FindClose(input, i, level);
      (Closes(input[start..j]) || j == |input|) &&
      forall k :: start < k < j ==> !Closes(input[start..k])
    decreases |input| - i
  {
    if i < |input| {
      var c := input[i];
      ReadOneMore(input, start, i);
      if c == ')' && level - 1 == 0 {
      } else {
        FindCloseFirst(input, start, i + 1, Depth(input[start..i + 1]));
      }
    }
  }

  /**
   * The scanner's capture, characterised without its loop: it is the input from
   * `start` up to the first point at which the text read so far closes, or up to
   * the end of the input when no such point exists.
   */
  lemma ScanCapture(input: string, start: nat)
    requires start < |input|
    ensures var (captured, next) := Scan(input, start);
      start < next <= |input| && captured == input[start..next] &&
      (Closes(captured) || next == |input|) &&
      forall k :: 0 < k < |captured| ==> !Closes(captured[..k])
  {
    assert input[start..start] == [];
    FindCloseFirst(input, start, start, 0);
    var (captured, next) := Scan(input, start);
    forall k | 0 < k < |captured| ensures !Closes(captured[..k]) {
      assert captured[..k] == input[start..start + k];
    }
  }

  lemma {:induction false} DepthPositive(s: string, n: nat)
    requires 0 < n <= |s| && s[0] == '('
    requires forall k :: 0 < k <= n ==> !Closes(s[..k])
    ensures Depth(s[..n]) > 0
    decreases n
  {
    if n == 1 {
      assert s[..1] == [] + ['('];
      DepthSnoc([], '(');
    } else {
      DepthPositive(s, n - 1);
      assert s[..n] == s[..n - 1] + [s[n - 1]];
      DepthSnoc(s[..n - 1], s[n - 1]);
    }
  }

  /**
   * Called at a `(` on balanced input, the scanner returns exactly one balanced
   * group: the text ends with `)`, holds equally many `(` and `)`, and every
   * proper prefix of it has positive depth.
   */
  lemma ScanBalanced(input: string, start: nat, j: nat)
    requires start < j <= |input| && input[start] == '('
    requires Closes(input[start..j])
    ensures var (captured, next) := Scan(input, start);
      next <= j && captured == input[start..next] &&
      captured[|captured| - 1] == ')' && Count(captured, '(') == Count(captured, ')') &&
      forall k :: 0 < k < |captured| ==> Depth(captured[..k]) > 0
  {
    ScanCapture(input, start);
    var (captured, next) := Scan(input, start);
    var m := if j < next then j else next;
    assert captured[..m - start] == input[start..m];
    forall k | 0 < k < |captured| ensures Depth(captured[..k]) > 0 {
      forall k' | 0 < k' <= k ensures !Closes(captured[..k'])
      {
        assert captured[..k][..k'] == captured[..k'];
      }
      assert captured[..k][..k] == captured[..k];
      forall k' | 0 < k' <= k ensures !Closes(captured[..k][..k'])
      {
        assert captured[..k][..k'] == captured[..k'];
      }
      DepthPositive(captured[..k], k);
    }
  }

  /**
   * On unbalanced input (no point after `start` closes) the scanner consumes the
   * rest of the input and returns all of it, without signalling an error.
   */
  lemma ScanUnbalanced(input: string, start: nat)
    requires start < |input|
    requires forall j :: start < j <= |input| ==> !Closes(input[start..j])
    ensures Scan(input, start) == (input[start..], |input|)
  {
    ScanCapture(input, start);
    var (captured, next) := Scan(input, start);
    assert captured == input[start..next];
    assert !Closes(input[start..next]);
    assert next == |input|;
    assert captured == input[start..];
    assert Scan(input, start) == (captured, next);
  }
}
