/** The reader's behaviour on whole forms of a given shape. */
module Scenarios {
  import opened Text
  import opened Tree
  import opened Parser
  import opened ParserFacts

  /** A non-empty run of characters the parser appends to its buffer, none of which `trim` removes. */
  predicate IsWord(w: string) {
    w != [] && forall k :: 0 <= k < |w| ==> IsWordChar(w[k]) && !IsTrimSpace(w[k])
  }

  /** The word `w` sits in `input` from position `i` up to, not including, `k`. */
  predicate WordAt(input: string, i: nat, w: string, k: nat) {
    IsWord(w) && k == i + |w| <= |input| && input[i..k] == w
  }

  lemma WordIsTrimmed(w: string)
    requires IsWord(w)
    ensures Trim(w) == w
  {
    TrimTrimmed(w);
  }

  lemma WordChars(input: string, i: nat, w: string, k: nat)
    requires WordAt(input, i, w, k)
    ensures forall p :: i <= p < k ==> IsWordChar(input[p]) && input[p] != '\n'
  {
    forall p | i <= p < k ensures IsWordChar(input[p]) && input[p] != '\n' {
      assert input[p] == w[p - i];
    }
  }

  /** No `(` after position `k`. */
  predicate NoOpenAfter(input: string, k: nat) {
    forall p :: k < p < |input| ==> input[p] != '('
  }

  /** No `(` from position `i` on. */
  lemma NoParenAhead(input: string, i: nat)
    requires i <= |input|
    requires forall p :: i <= p < |input| ==> input[p] != '('
    ensures '(' !in input[i..]
  {
    var t := input[i..];
    assert forall j :: 0 <= j < |t| ==> t[j] == input[i + j];
  }

  /** The first word `l`, ended by a blank at `k`, becomes the label. */
  lemma LabelIs(input: string, l: string, k: nat)
    requires input != [] && input[0] == '('
    requires WordAt(input, 1, l, k) && k < |input| && IsBlank(input[k])
    ensures Run(input, Start) == Run(input, Machine(k + 1, "", l, [], [], false))
  {
    WordChars(input, 1, l, k);
    ReadLabel(input, 1, k);
  }

  /** Outside instruction mode, the word `w` read from position `i` fills the empty buffer. */
  lemma WordIs(input: string, i: nat, name: string, prefix: seq<string>, w: string, k: nat)
    requires WordAt(input, i, w, k)
    ensures Run(input, Machine(i, "", name, prefix, [], false)) == Run(input, Machine(k, w, name, prefix, [], false))
  {
    WordChars(input, i, w, k);
    var m := Machine(i, "", name, prefix, [], false);
    RunThroughWord(input, m, k);
    assert m.buf + input[m.index..k] == w;
  }

  /** A turn of the loop from `m` to `m'` on a character other than `)`. */
  predicate TurnTo(input: string, m: Machine, m': Machine) {
    m.index < |input| && input[m.index] != ')' && Step(input, m) == m'
  }

  /** Two turns: the run from the first state ends where the run from the last one ends. */
  lemma TwoTurns(input: string, m1: Machine, m2: Machine, m3: Machine)
    requires TurnTo(input, m1, m2) && TurnTo(input, m2, m3)
    ensures Run(input, m1) == Run(input, m3)
  {
    RunStep(input, m1);
    RunStep(input, m2);
  }

  lemma ThreeTurns(input: string, m1: Machine, m2: Machine, m3: Machine, m4: Machine)
    requires TurnTo(input, m1, m2) && TurnTo(input, m2, m3) && TurnTo(input, m3, m4)
    ensures Run(input, m1) == Run(input, m4)
  {
    TwoTurns(input, m1, m2, m3);
    RunStep(input, m3);
  }

  lemma FourTurns(input: string, m1: Machine, m2: Machine, m3: Machine, m4: Machine, m5: Machine)
    requires TurnTo(input, m1, m2) && TurnTo(input, m2, m3) && TurnTo(input, m3, m4) && TurnTo(input, m4, m5)
    ensures Run(input, m1) == Run(input, m5)
  {
    TwoTurns(input, m1, m2, m3);
    TwoTurns(input, m3, m4, m5);
  }

  /** With a label and no prefix yet, a blank moves the buffered word into the prefix. */
  lemma BlankStartsPrefix(input: string, name: string, w: string, k: nat)
    requires name != "" && IsWord(w) && k < |input| && IsBlank(input[k])
    ensures Run(input, Machine(k, w, name, [], [], false)) == Run(input, Machine(k + 1, "", name, [w], [], false))
  {
    var m := Machine(k, w, name, [], [], false);
    calc {
      Run(input, m);
    == { assert m.index == k; RunStep(input, m); }
      Run(input, Step(input, m));
    == { BlankStartsPrefixStep(input, name, w, k); }
      Run(input, Machine(k + 1, "", name, [w], [], false));
    }
  }

  lemma BlankStartsPrefixStep(input: string, name: string, w: string, k: nat)
    requires name != "" && IsWord(w) && k < |input| && IsBlank(input[k])
    ensures Step(input, Machine(k, w, name, [], [], false)) == Machine(k + 1, "", name, [w], [], false)
  {
    var m := Machine(k, w, name, [], [], false);
    var m' := Machine(k + 1, w, name, [], [], false);
    assert m.index == k && m.(index := k + 1) == m';
    WordIsTrimmed(w);
    assert Step(input, m) == OnBlank(input, m', input[k]);
  }

  /**
   * With a label and a prefix, a newline after the buffered word with no `(`
   * anywhere ahead switches to instruction mode; the word is the first instruction.
   */
  lemma NewlineOpensInstructions(input: string, name: string, prefix: seq<string>, w: string, k: nat)
    requires name != "" && prefix != [] && IsWord(w) && k < |input| && input[k] == '\n'
    requires NoOpenAfter(input, k)
    ensures Run(input, Machine(k, w, name, prefix, [], false)) == Run(input, Machine(k + 1, "", name, prefix, [w], true))
  {
    var m := Machine(k, w, name, prefix, [], false);
    calc {
      Run(input, m);
    == { assert m.index == k; RunStep(input, m); }
      Run(input, Step(input, m));
    == { NewlineOpensInstructionsStep(input, name, prefix, w, k); }
      Run(input, Machine(k + 1, "", name, prefix, [w], true));
    }
  }

  lemma NewlineOpensInstructionsStep(input: string, name: string, prefix: seq<string>, w: string, k: nat)
    requires name != "" && prefix != [] && IsWord(w) && k < |input| && input[k] == '\n'
    requires NoOpenAfter(input, k)
    ensures Step(input, Machine(k, w, name, prefix, [], false)) == Machine(k + 1, "", name, prefix, [w], true)
  {
    var m := Machine(k, w, name, prefix, [], false);
    var m' := Machine(k + 1, w, name, prefix, [], false);
    assert m.index == k && m.(index := k + 1) == m' && m'.index == k + 1;
    NoParenAhead(input, k + 1);
    assert input[m'.index..] == input[k + 1..];
    WordIsTrimmed(w);
    assert Step(input, m) == OnBlank(input, m', '\n');
  }

  /** In instruction mode, the word `w` from position `i`, ended by a newline, becomes the next instruction. */
  lemma OneLine(input: string, i: nat, name: string, prefix: seq<string>, instructions: seq<string>, w: string, k: nat)
    requires name != "" && prefix != []
    requires WordAt(input, i, w, k) && k < |input| && input[k] == '\n'
    ensures Run(input, Machine(i, "", name, prefix, instructions, true)) ==
      Run(input, Machine(k + 1, "", name, prefix, instructions + [w], true))
  {
    WordChars(input, i, w, k);
    WordIsTrimmed(w);
    var m := Machine(i, "", name, prefix, instructions, true);
    assert m.index == i;
    InstructionLine(input, m, k);
    assert input[m.index..k] == w;
  }

  /** At the `)` the loop ends. */
  lemma RunAtClose(input: string, m: Machine)
    requires m.index < |input| && input[m.index] == ')'
    ensures Run(input, m) == Close(m)
  {
  }

  /** No leading `(`: "Expected opening parenthesis". */
  lemma NoOpeningParen(input: string)
    requires input == [] || input[0] != '('
    ensures Parse(input) == Err(ExpectedOpenParen)
  {
  }

  /** `(w)`, and `()` for the empty `w`: the form closes before a blank has ended a word. */
  lemma EmptyForm(input: string, w: string)
    requires w == [] || IsWord(w)
    requires input == "(" + w + ")"
    ensures Parse(input) == Err(MissingLabel)
  {
    if w != [] {
      assert WordAt(input, 1, w, |w| + 1);
      WordChars(input, 1, w, |w| + 1);
    }
    NoWordEndedIsMissingLabel(input, |w| + 1);
  }

  /** `(func a)`: a label and one word; the pending buffer is flushed into the instructions at the closing `)`. */
  lemma FlushAtClose(input: string, l: string, a: string)
    requires IsWord(l) && IsWord(a)
    requires input == "(" + l + " " + a + ")"
    ensures Parse(input) == Ok(Tagged(l, [], [Str(a)]))
  {
    var k1 := |l| + 1;
    var k2 := k1 + 1 + |a|;
    assert input[1..k1] == l && input[k1] == ' ';
    assert input[k1 + 1..k2] == a && input[k2] == ')' && |input| == k2 + 1;
    FlushAtCloseAt(input, l, a, k1, k2);
    assert Strs([a]) == [Str(a)];
  }

  /** The run behind `FlushAtClose`, with the offsets of the blank and of the `)`. */
  lemma FlushAtCloseAt(input: string, l: string, a: string, k1: nat, k2: nat)
    requires input != [] && input[0] == '(' && |input| == k2 + 1
    requires WordAt(input, 1, l, k1) && k1 < |input| && input[k1] == ' '
    requires WordAt(input, k1 + 1, a, k2) && input[k2] == ')'
    ensures Run(input, Start) == Machine(k2 + 1, "", l, [], [a], false)
  {
    var mB := Machine(k2, a, l, [], [], false);
    calc {
      Run(input, Start);
    == { LabelIs(input, l, k1); }
      Run(input, Machine(k1 + 1, "", l, [], [], false));
    == { WordIs(input, k1 + 1, l, [], a, k2); }
      Run(input, mB);
    == { assert mB.index == k2;
         RunAtClose(input, mB); }
      Close(mB);
    == { WordIsTrimmed(a); }
      Machine(k2 + 1, "", l, [], [a], false);
    }
  }

  /** Where the pieces of the text in `LinesAfterPrefix` sit. */
  lemma LinesLayout(input: string, l: string, a: string, b: string, i1: string, i2: string,
                    k1: nat, k2: nat, k3: nat, k4: nat, k5: nat)
    requires IsWord(l) && IsWord(a) && IsWord(b) && IsWord(i1) && IsWord(i2)
    requires input == "(" + l + " " + a + " " + b + "\n" + i1 + "\n" + i2 + "\n)"
    requires k1 == |l| + 1 && k2 == k1 + 1 + |a| && k3 == k2 + 1 + |b| && k4 == k3 + 1 + |i1| && k5 == k4 + 1 + |i2|
    ensures |input| == k5 + 2 && input[0] == '(' && input[k5 + 1] == ')'
    ensures WordAt(input, 1, l, k1) && input[k1] == ' '
    ensures WordAt(input, k1 + 1, a, k2) && input[k2] == ' '
    ensures WordAt(input, k2 + 1, b, k3) && input[k3] == '\n'
    ensures WordAt(input, k3 + 1, i1, k4) && input[k4] == '\n'
    ensures WordAt(input, k4 + 1, i2, k5) && input[k5] == '\n'
  {
    assert input[1..k1] == l;
    assert input[k1 + 1..k2] == a;
    assert input[k2 + 1..k3] == b;
    assert input[k3 + 1..k4] == i1;
    assert input[k4 + 1..k5] == i2;
  }

  /** No `(` in the two instruction lines and the closing `)`. */
  lemma TailParenFree(input: string, k3: nat, k4: nat, k5: nat, i1: string, i2: string)
    requires |input| == k5 + 2 && input[k5 + 1] == ')'
    requires WordAt(input, k3 + 1, i1, k4) && input[k4] == '\n'
    requires WordAt(input, k4 + 1, i2, k5) && input[k5] == '\n'
    ensures NoOpenAfter(input, k3)
  {
    WordChars(input, k3 + 1, i1, k4);
    WordChars(input, k4 + 1, i2, k5);
    forall p | k3 + 1 <= p < |input| ensures input[p] != '(' {
      if p < k4 {
      } else if p == k4 {
      } else if p < k5 {
      } else {
      }
    }
  }

  /**
   * `(func a b\ni32.add\nend\n)`: the label, then `a` as the sole prefix entry;
   * `b` meets a newline with no `(` anywhere ahead, so it opens instruction mode
   * and becomes the first instruction, and each later line is one more.
   */
  lemma LinesAfterPrefix(input: string, l: string, a: string, b: string, i1: string, i2: string)
    requires IsWord(l) && IsWord(a) && IsWord(b) && IsWord(i1) && IsWord(i2)
    requires input == "(" + l + " " + a + " " + b + "\n" + i1 + "\n" + i2 + "\n)"
    ensures Parse(input) == Ok(Tagged(l, [Str(a)], [Str(b), Str(i1), Str(i2)]))
  {
    var k1 := |l| + 1;
    var k2 := k1 + 1 + |a|;
    var k3 := k2 + 1 + |b|;
    var k4 := k3 + 1 + |i1|;
    var k5 := k4 + 1 + |i2|;
    LinesLayout(input, l, a, b, i1, i2, k1, k2, k3, k4, k5);
    LinesRun(input, l, a, b, i1, i2, k1, k2, k3, k4, k5);
    assert Strs([a]) == [Str(a)];
    assert Strs([b, i1, i2]) == [Str(b), Str(i1), Str(i2)];
  }

  /** The run behind `LinesAfterPrefix`, from the positions of the words and the blanks after them. */
  lemma LinesRun(input: string, l: string, a: string, b: string, i1: string, i2: string,
                 k1: nat, k2: nat, k3: nat, k4: nat, k5: nat)
    requires |input| == k5 + 2 && input[0] == '(' && input[k5 + 1] == ')'
    requires WordAt(input, 1, l, k1) && input[k1] == ' '
    requires WordAt(input, k1 + 1, a, k2) && input[k2] == ' '
    requires WordAt(input, k2 + 1, b, k3) && input[k3] == '\n'
    requires WordAt(input, k3 + 1, i1, k4) && input[k4] == '\n'
    requires WordAt(input, k4 + 1, i2, k5) && input[k5] == '\n'
    ensures Run(input, Start) == Machine(k5 + 2, "", l, [a], [b, i1, i2], true)
  {
    TailParenFree(input, k3, k4, k5, i1, i2);
    LabelAndPrefix(input, l, a, k1, k2);
    FirstInstruction(input, l, a, b, k2, k3);
    LinesTail(input, l, a, b, i1, i2, k3, k4, k5);
  }

  /** The label `l`, then `a` as the sole prefix entry. */
  lemma LabelAndPrefix(input: string, l: string, a: string, k1: nat, k2: nat)
    requires input != [] && input[0] == '('
    requires WordAt(input, 1, l, k1) && k1 < |input| && input[k1] == ' '
    requires WordAt(input, k1 + 1, a, k2) && k2 < |input| && IsBlank(input[k2])
    ensures Run(input, Start) == Run(input, Machine(k2 + 1, "", l, [a], [], false))
  {
    calc {
      Run(input, Start);
    == { LabelIs(input, l, k1); }
      Run(input, Machine(k1 + 1, "", l, [], [], false));
    == { WordIs(input, k1 + 1, l, [], a, k2); }
      Run(input, Machine(k2, a, l, [], [], false));
    == { BlankStartsPrefix(input, l, a, k2); }
      Run(input, Machine(k2 + 1, "", l, [a], [], false));
    }
  }

  /** After the prefix, the word `b` ended by a newline with no `(` ahead opens instruction mode. */
  lemma FirstInstruction(input: string, l: string, a: string, b: string, k2: nat, k3: nat)
    requires l != ""
    requires WordAt(input, k2 + 1, b, k3) && k3 < |input| && input[k3] == '\n'
    requires NoOpenAfter(input, k3)
    ensures Run(input, Machine(k2 + 1, "", l, [a], [], false)) == Run(input, Machine(k3 + 1, "", l, [a], [b], true))
  {
    var mid := Machine(k3, b, l, [a], [], false);
    WordIs(input, k2 + 1, l, [a], b, k3);
    NewlineOpensInstructions(input, l, [a], b, k3);
    assert Run(input, mid) == Run(input, Machine(k3 + 1, "", l, [a], [b], true));
  }

  /** Two instruction lines and the closing `)`. */
  lemma LinesTail(input: string, l: string, a: string, b: string, i1: string, i2: string, k3: nat, k4: nat, k5: nat)
    requires l != "" && |input| == k5 + 2 && input[k5 + 1] == ')'
    requires WordAt(input, k3 + 1, i1, k4) && input[k4] == '\n'
    requires WordAt(input, k4 + 1, i2, k5) && input[k5] == '\n'
    ensures Run(input, Machine(k3 + 1, "", l, [a], [b], true)) == Machine(k5 + 2, "", l, [a], [b, i1, i2], true)
  {
    OneLine(input, k3 + 1, l, [a], [b], i1, k4);
    assert [b] + [i1] == [b, i1];
    LastLine(input, l, a, [b, i1], i2, k4, k5);
    assert [b, i1] + [i2] == [b, i1, i2];
  }

  /** The last instruction line `w`, then the closing `)`. */
  lemma LastLine(input: string, l: string, a: string, instructions: seq<string>, w: string, k4: nat, k5: nat)
    requires l != "" && |input| == k5 + 2 && input[k5 + 1] == ')'
    requires WordAt(input, k4 + 1, w, k5) && input[k5] == '\n'
    ensures Run(input, Machine(k4 + 1, "", l, [a], instructions, true)) == Machine(k5 + 2, "", l, [a], instructions + [w], true)
  {
    var mE := Machine(k5 + 1, "", l, [a], instructions + [w], true);
    OneLine(input, k4 + 1, l, [a], instructions, w, k5);
    RunAtClose(input, mE);
    assert Close(mE) == Machine(k5 + 2, "", l, [a], instructions + [w], true);
  }

  /** With a label and a prefix, a blank after the buffered word pushes it to the prefix when a `(` lies ahead. */
  lemma BlankBeforeGroupStep(input: string, name: string, prefix: seq<string>, w: string, k: nat, j: nat)
    requires name != "" && prefix != [] && IsWord(w) && k < |input| && IsBlank(input[k])
    requires k < j < |input| && input[j] == '('
    ensures Step(input, Machine(k, w, name, prefix, [], false)) == Machine(k + 1, "", name, prefix + [w], [], false)
  {
    var m := Machine(k, w, name, prefix, [], false);
    var m' := Machine(k + 1, w, name, prefix, [], false);
    assert m.index == k && m.(index := k + 1) == m' && m'.index == k + 1;
    assert input[m'.index..] == input[k + 1..];
    assert input[k + 1..][j - k - 1] == '(';
    WordIsTrimmed(w);
    assert Step(input, m) == OnBlank(input, m', input[k]);
  }

  /**
   * With a label and a prefix, a space after the buffered word with no `(` ahead
   * switches to instruction mode and keeps the space in the buffer.
   */
  lemma SpaceOpensInstructionsStep(input: string, name: string, prefix: seq<string>, w: string, k: nat)
    requires name != "" && prefix != [] && IsWord(w) && k < |input| && input[k] == ' '
    requires NoOpenAfter(input, k)
    ensures Step(input, Machine(k, w, name, prefix, [], false)) == Machine(k + 1, w + " ", name, prefix, [], true)
  {
    var m := Machine(k, w, name, prefix, [], false);
    var m' := Machine(k + 1, w, name, prefix, [], false);
    assert m.index == k && m.(index := k + 1) == m' && m'.index == k + 1;
    NoParenAhead(input, k + 1);
    assert input[m'.index..] == input[k + 1..];
    assert Step(input, m) == OnBlank(input, m', ' ');
  }

  /** In instruction mode with a non-empty buffer, a word is appended to the buffer, blanks before it included. */
  lemma GrowLine(input: string, name: string, prefix: seq<string>, bs: string, w: string, i: nat, k: nat)
    requires name != "" && prefix != [] && bs != ""
    requires WordAt(input, i, w, k)
    ensures Run(input, Machine(i, bs, name, prefix, [], true)) == Run(input, Machine(k, bs + w, name, prefix, [], true))
  {
    WordChars(input, i, w, k);
    var m := Machine(i, bs, name, prefix, [], true);
    assert m.index == i;
    RunThroughLine(input, m, k);
    assert m.buf + input[m.index..k] == bs + w;
  }

  /** Two words joined by a space are already trimmed. */
  lemma JoinedIsTrimmed(b: string, c: string)
    requires IsWord(b) && IsWord(c)
    ensures Trim(b + " " + c) == b + " " + c
  {
    var j := b + " " + c;
    assert j[0] == b[0] && j[|j| - 1] == c[|c| - 1];
    TrimTrimmed(j);
  }

  /** Where the pieces of the text in `LookaheadSeesTrailingText` sit, and where a `(` after the label can be. */
  lemma ThreeWordsLayout(input: string, l: string, a: string, b: string, c: string, rest: string,
                         k1: nat, k2: nat, k3: nat, k4: nat)
    requires IsWord(l) && IsWord(a) && IsWord(b) && IsWord(c)
    requires input == "(" + l + " " + a + " " + b + " " + c + ")" + rest
    requires k1 == |l| + 1 && k2 == k1 + 1 + |a| && k3 == k2 + 1 + |b| && k4 == k3 + 1 + |c|
    ensures |input| == k4 + 1 + |rest| && input[0] == '(' && input[k4] == ')'
    ensures WordAt(input, 1, l, k1) && input[k1] == ' '
    ensures WordAt(input, k1 + 1, a, k2) && input[k2] == ' '
    ensures WordAt(input, k2 + 1, b, k3) && input[k3] == ' '
    ensures WordAt(input, k3 + 1, c, k4)
    ensures input[k4 + 1..] == rest
  {
    assert input[1..k1] == l;
    assert input[k1 + 1..k2] == a;
    assert input[k2 + 1..k3] == b;
    assert input[k3 + 1..k4] == c;
    assert input[k4 + 1..] == rest;
  }

  /** A `(` follows the third word exactly when the trailing text holds one. */
  lemma ThreeWordsLookahead(input: string, c: string, rest: string, k3: nat, k4: nat)
    requires WordAt(input, k3 + 1, c, k4) && k4 < |input| && input[k4] == ')' && input[k4 + 1..] == rest
    ensures '(' in input[k3 + 1..] <==> '(' in rest
    ensures '(' !in rest ==> NoOpenAfter(input, k3)
  {
    WordChars(input, k3 + 1, c, k4);
    var t := input[k3 + 1..];
    if '(' in t {
      var j :| 0 <= j < |t| && t[j] == '(';
      assert input[k3 + 1 + j] == '(';
      assert k3 + 1 + j > k4;
      assert rest[j - (k4 - k3)] == '(';
    }
    if '(' in rest {
      var j :| 0 <= j < |rest| && rest[j] == '(';
      assert t[k4 - k3 + j] == '(';
    }
    if '(' !in rest {
      forall p | k3 < p < |input| ensures input[p] != '(' {
        if p > k4 {
          assert input[p] == rest[p - k4 - 1];
        }
      }
    }
  }

  /**
   * `(l a b c)` followed by any text: the lookahead at the blank after `b` reads
   * past the closing `)`. With no `(` in the trailing text, `b` starts a single
   * instruction `b c`; with a `(` there, `b` joins the prefix and `c` is the
   * instruction.
   */
  lemma LookaheadSeesTrailingText(input: string, l: string, a: string, b: string, c: string, rest: string)
    requires IsWord(l) && IsWord(a) && IsWord(b) && IsWord(c)
    requires input == "(" + l + " " + a + " " + b + " " + c + ")" + rest
    ensures '(' !in rest ==> Parse(input) == Ok(Tagged(l, [Str(a)], [Str(b + " " + c)]))
    ensures '(' in rest ==> Parse(input) == Ok(Tagged(l, [Str(a), Str(b)], [Str(c)]))
  {
    var k1 := |l| + 1;
    var k2 := k1 + 1 + |a|;
    var k3 := k2 + 1 + |b|;
    var k4 := k3 + 1 + |c|;
    ThreeWordsLayout(input, l, a, b, c, rest, k1, k2, k3, k4);
    ThreeWordsLookahead(input, c, rest, k3, k4);
    LabelAndPrefix(input, l, a, k1, k2);
    if '(' in rest {
      var j :| 0 <= j < |rest| && rest[j] == '(';
      assert input[k4 + 1 + j] == '(';
      ThirdWordToPrefix(input, l, a, b, c, k2, k3, k4, k4 + 1 + j);
      assert Strs([a, b]) == [Str(a), Str(b)];
      assert Strs([c]) == [Str(c)];
    } else {
      ThirdWordOpensLine(input, l, a, b, c, k2, k3, k4);
      assert Strs([a]) == [Str(a)];
      assert Strs([b + " " + c]) == [Str(b + " " + c)];
    }
  }

  /** With a `(` ahead, `b` joins the prefix and `c` is flushed at the `)`. */
  lemma ThirdWordToPrefix(input: string, l: string, a: string, b: string, c: string, k2: nat, k3: nat, k4: nat, j: nat)
    requires l != ""
    requires WordAt(input, k2 + 1, b, k3) && k3 < |input| && input[k3] == ' '
    requires WordAt(input, k3 + 1, c, k4) && k4 < |input| && input[k4] == ')'
    requires k3 < j < |input| && input[j] == '('
    ensures Run(input, Machine(k2 + 1, "", l, [a], [], false)) == Machine(k4 + 1, "", l, [a, b], [c], false)
  {
    var mB := Machine(k3, b, l, [a], [], false);
    WordIs(input, k2 + 1, l, [a], b, k3);
    assert Run(input, Machine(k2 + 1, "", l, [a], [], false)) == Run(input, mB);
    PushThenClose(input, l, a, b, c, k3, k4, j);
  }

  /** The blank after `b` pushes it to the prefix; then `c` is read and flushed at the `)`. */
  lemma PushThenClose(input: string, l: string, a: string, b: string, c: string, k3: nat, k4: nat, j: nat)
    requires l != "" && IsWord(b) && k3 < |input| && input[k3] == ' '
    requires WordAt(input, k3 + 1, c, k4) && k4 < |input| && input[k4] == ')'
    requires k3 < j < |input| && input[j] == '('
    ensures Run(input, Machine(k3, b, l, [a], [], false)) == Machine(k4 + 1, "", l, [a, b], [c], false)
  {
    var mP := Machine(k3 + 1, "", l, [a, b], [], false);
    GroupAheadPushes(input, l, a, b, k3, j);
    assert Run(input, Machine(k3, b, l, [a], [], false)) == Run(input, mP);
    CloseAfterWord(input, l, [a, b], c, k3 + 1, k4);
  }

  /** A blank after the buffered `b` with a `(` ahead at `j` moves `b` into the prefix. */
  lemma GroupAheadPushes(input: string, l: string, a: string, b: string, k3: nat, j: nat)
    requires l != "" && IsWord(b) && k3 < |input| && IsBlank(input[k3])
    requires k3 < j < |input| && input[j] == '('
    ensures Run(input, Machine(k3, b, l, [a], [], false)) == Run(input, Machine(k3 + 1, "", l, [a, b], [], false))
  {
    var mB := Machine(k3, b, l, [a], [], false);
    BlankBeforeGroupStep(input, l, [a], b, k3, j);
    assert [a] + [b] == [a, b];
    assert mB.index == k3;
    RunStep(input, mB);
  }

  /** Outside instruction mode, a last word read into the empty buffer is flushed into the instructions at the `)`. */
  lemma CloseAfterWord(input: string, l: string, prefix: seq<string>, w: string, i: nat, k: nat)
    requires WordAt(input, i, w, k) && k < |input| && input[k] == ')'
    ensures Run(input, Machine(i, "", l, prefix, [], false)) == Machine(k + 1, "", l, prefix, [w], false)
  {
    var mC := Machine(k, w, l, prefix, [], false);
    WordIs(input, i, l, prefix, w, k);
    assert mC.index == k;
    RunAtClose(input, mC);
    WordIsTrimmed(w);
  }

  /** With no `(` ahead, the space after `b` opens instruction mode and `b c` is flushed at the `)`. */
  lemma ThirdWordOpensLine(input: string, l: string, a: string, b: string, c: string, k2: nat, k3: nat, k4: nat)
    requires l != ""
    requires WordAt(input, k2 + 1, b, k3) && k3 < |input| && input[k3] == ' '
    requires WordAt(input, k3 + 1, c, k4) && k4 < |input| && input[k4] == ')'
    requires NoOpenAfter(input, k3)
    ensures Run(input, Machine(k2 + 1, "", l, [a], [], false)) == Machine(k4 + 1, "", l, [a], [b + " " + c], true)
  {
    var mB := Machine(k3, b, l, [a], [], false);
    WordIs(input, k2 + 1, l, [a], b, k3);
    assert Run(input, Machine(k2 + 1, "", l, [a], [], false)) == Run(input, mB);
    OpenThenClose(input, l, a, b, c, k3, k4);
  }

  /** The space after `b` opens instruction mode; then `c` joins the line, which is flushed at the `)`. */
  lemma OpenThenClose(input: string, l: string, a: string, b: string, c: string, k3: nat, k4: nat)
    requires l != "" && IsWord(b) && k3 < |input| && input[k3] == ' '
    requires WordAt(input, k3 + 1, c, k4) && k4 < |input| && input[k4] == ')'
    requires NoOpenAfter(input, k3)
    ensures Run(input, Machine(k3, b, l, [a], [], false)) == Machine(k4 + 1, "", l, [a], [b + " " + c], true)
  {
    var mB := Machine(k3, b, l, [a], [], false);
    var mS := Machine(k3 + 1, b + " ", l, [a], [], true);
    SpaceOpensInstructionsStep(input, l, [a], b, k3);
    assert mB.index == k3;
    RunStep(input, mB);
    assert Run(input, mB) == Run(input, mS);
    LineThenClose(input, l, a, b, c, k3, k4);
  }

  /** In instruction mode with `b ` buffered, `c` is appended and the line `b c` is flushed at the `)`. */
  lemma LineThenClose(input: string, l: string, a: string, b: string, c: string, k3: nat, k4: nat)
    requires l != "" && IsWord(b)
    requires WordAt(input, k3 + 1, c, k4) && k4 < |input| && input[k4] == ')'
    ensures Run(input, Machine(k3 + 1, b + " ", l, [a], [], true)) == Machine(k4 + 1, "", l, [a], [b + " " + c], true)
  {
    var mC := Machine(k4, b + " " + c, l, [a], [], true);
    GrowLine(input, l, [a], b + " ", c, k3 + 1, k4);
    assert Run(input, Machine(k3 + 1, b + " ", l, [a], [], true)) == Run(input, mC);
    assert mC.index == k4;
    RunAtClose(input, mC);
    CloseLine(l, a, b, c, k4);
  }

  /** The `)` flushes the buffered line `b c` as it stands, since it is already trimmed. */
  lemma CloseLine(l: string, a: string, b: string, c: string, k4: nat)
    requires IsWord(b) && IsWord(c)
    ensures Close(Machine(k4, b + " " + c, l, [a], [], true)) == Machine(k4 + 1, "", l, [a], [b + " " + c], true)
  {
    JoinedIsTrimmed(b, c);
  }
}
