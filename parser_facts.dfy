/**
 * What every run of the `parse_tagged` loop guarantees: the shape of the label
 * and of every entry, the one-way instruction mode, and how the first tokens of
 * a form are classified.
 */
module ParserFacts {
  import opened Text
  import opened Tree
  import opened Scanner
  import opened Parser

  /** A token entry: trimmed, free of parentheses, shorter than the input, and non-empty unless the input holds CR, VT or FF. */
  predicate IsToken(input: string, e: string) {
    |e| < |input| && Trimmed(e) && ParenFree(e) && (NoExtraSpace(input) ==> e != "")
  }

  /** A nested group pushed verbatim: exactly what the scanner captures at some `(` of the input after position 0. */
  ghost predicate IsGroup(input: string, e: string) {
    |e| < |input| && exists j :: 0 < j < |input| && input[j] == '(' && Scan(input, j).0 == e
  }

  ghost predicate IsPrefixEntry(input: string, e: string) {
    IsToken(input, e) || IsGroup(input, e)
  }

  /** The invariant of the loop state. */
  ghost predicate Good(input: string, m: Machine) {
    && 1 <= m.index <= |input|
    && |m.buf| < m.index
    && ParenFree(m.buf)
    && (m.buf != "" ==> !IsBlank(m.buf[0]) && m.buf[0] in input)
    && (!m.instrMode ==> NoBlank(m.buf))
    && (m.instrMode ==> m.name != "" && m.prefix != [] && '(' !in input[m.index..])
    && NoBlank(m.name) && ParenFree(m.name)
    && (forall k :: 0 <= k < |m.prefix| ==> IsPrefixEntry(input, m.prefix[k]))
    && (forall k :: 0 <= k < |m.instructions| ==> IsToken(input, m.instructions[k]))
  }

  /** The state's history only grows: what the run from `m` keeps of `m`. */
  ghost predicate Extends(m: Machine, r: Machine) {
    && m.prefix <= r.prefix
    && m.instructions <= r.instructions
    && (m.name != "" ==> r.name == m.name)
    && (m.instrMode ==> r.instrMode && r.prefix == m.prefix)
  }

  lemma TokenOfBuffer(input: string, m: Machine)
    requires Good(input, m) && m.buf != ""
    ensures IsToken(input, Trim(m.buf))
  {
    var t := Trim(m.buf);
    TrimChars(m.buf);
    forall k | 0 <= k < |t| ensures t[k] != '(' && t[k] != ')' {
      assert t[k] in m.buf;
    }
    if NoExtraSpace(input) {
      assert !IsExtraSpace(m.buf[0]);
    }
  }

  lemma NoParenSuffix(input: string, i: nat)
    requires i < |input| && '(' !in input[i..]
    ensures '(' !in input[i + 1..]
  {
    assert input[i + 1..] == input[i..][1..];
  }

  lemma PushPrefixKeepsGood(input: string, m: Machine, e: string)
    requires Good(input, m) && !m.instrMode && IsPrefixEntry(input, e)
    ensures Good(input, m.(prefix := m.prefix + [e], buf := ""))
  {
  }

  lemma PushInstructionKeepsGood(input: string, m: Machine, e: string)
    requires Good(input, m) && IsToken(input, e) && (m.instrMode || '(' !in input[m.index..])
    requires m.name != "" && m.prefix != []
    ensures Good(input, m.(instructions := m.instructions + [e], buf := "", instrMode := true))
  {
  }

  lemma GrowBufferKeepsGood(input: string, m: Machine, c: char)
    requires Good(input, m) && |m.buf| + 1 < m.index && m.buf != "" && IsBlank(c)
    requires m.instrMode || '(' !in input[m.index..]
    requires m.name != "" && m.prefix != []
    ensures Good(input, m.(buf := m.buf + [c], instrMode := true))
  {
  }

  /**
   * Whitespace read while the buffer is empty only advances the index: blank
   * lines and runs of whitespace never produce an entry.
   */
  lemma BlankWithEmptyBuffer(input: string, m: Machine)
    requires m.index < |input| && IsBlank(input[m.index]) && m.buf == ""
    ensures Step(input, m) == m.(index := m.index + 1)
  {
  }

  lemma OnBlankKeepsGood(input: string, m: Machine, c: char)
    requires Good(input, m) && |m.buf| + 1 < m.index && IsBlank(c)
    ensures Good(input, OnBlank(input, m, c)) && Extends(m, OnBlank(input, m, c))
  {
    if m.buf == "" {
    } else if m.name == "" {
      assert Good(input, m.(name := m.buf, buf := ""));
    } else {
      TokenOfBuffer(input, m);
      var e := Trim(m.buf);
      if m.prefix == [] {
        PushPrefixKeepsGood(input, m, e);
      } else if !m.instrMode {
        if '(' in input[m.index..] {
          PushPrefixKeepsGood(input, m, e);
        } else if c == '\n' {
          PushInstructionKeepsGood(input, m, e);
        } else {
          GrowBufferKeepsGood(input, m, c);
        }
      } else if c == '\n' {
        PushInstructionKeepsGood(input, m, e);
      } else {
        GrowBufferKeepsGood(input, m, c);
      }
    }
  }

  lemma CloseKeepsGood(input: string, m: Machine)
    requires Good(input, m) && m.index < |input|
    ensures Good(input, Close(m)) && Extends(m, Close(m))
  {
    if m.buf != "" {
      TokenOfBuffer(input, m);
    }
    if m.instrMode && m.index + 1 < |input| {
      NoParenSuffix(input, m.index);
    }
  }

  lemma StepKeepsGood(input: string, m: Machine)
    requires Good(input, m) && m.index < |input| && input[m.index] != ')'
    ensures Good(input, Step(input, m)) && Extends(m, Step(input, m))
  {
    var c := input[m.index];
    var i := m.index + 1;
    if m.instrMode && i < |input| {
      NoParenSuffix(input, m.index);
    }
    if IsBlank(c) {
      var adv := m.(index := i);
      assert Good(input, adv);
      OnBlankKeepsGood(input, adv, c);
    } else if c == '(' {
      var (sexp, next) := Scan(input, m.index);
      assert IsGroup(input, sexp);
    } else {
      var m' := m.(index := i, buf := m.buf + [c]);
      assert Good(input, m');
    }
  }

  /** Any character but `)` is one turn of the loop. */
  lemma RunStep(input: string, m: Machine)
    requires m.index < |input| && input[m.index] != ')'
    ensures Run(input, m) == Run(input, Step(input, m))
  {
  }

  /** The loop invariant holds from the start of every run to its end, and the run only ever extends the state. */
  lemma {:induction false} RunKeepsGood(input: string, m: Machine)
    requires Good(input, m)
    ensures Good(input, Run(input, m)) && Extends(m, Run(input, m))
    decreases |input| - m.index
  {
    if m.index < |input| {
      if input[m.index] == ')' {
        CloseKeepsGood(input, m);
      } else {
        StepKeepsGood(input, m);
        RunKeepsGood(input, Step(input, m));
      }
    }
  }

  /** The run from `m` stops at a closing `)` of `input` instead of running off its end. */
  ghost predicate ClosesWithin(input: string, m: Machine)
    decreases |input| - m.index
  {
    m.index < |input| && (input[m.index] == ')' || ClosesWithin(input, Step(input, m)))
  }

  /**
   * Where the loop stops: just past a `)` it has read, with the buffer flushed,
   * when it closes inside the input; at the end of the input otherwise.
   */
  lemma {:induction false} RunStops(input: string, m: Machine)
    requires m.index <= |input|
    ensures m.index <= Run(input, m).index <= |input|
    ensures Run(input, m).index < |input| ==> ClosesWithin(input, m)
    ensures ClosesWithin(input, m) ==>
      0 < Run(input, m).index && input[Run(input, m).index - 1] == ')' && Run(input, m).buf == ""
    ensures !ClosesWithin(input, m) ==> Run(input, m).index == |input|
    decreases |input| - m.index
  {
    if m.index < |input| && input[m.index] != ')' {
      var m' := Step(input, m);
      RunStops(input, m');
      RunStep(input, m);
      assert ClosesWithin(input, m) == ClosesWithin(input, m');
    }
  }

  /**
   * The `)` arm: a non-empty buffer is flushed, trimmed, into the instructions
   * and the loop ends; label, prefix and mode are left as they are.
   */
  lemma CloseEndsLoop(input: string, m: Machine)
    requires m.index < |input| && input[m.index] == ')'
    ensures var r := Run(input, m);
      && r.index == m.index + 1 && r.buf == ""
      && r.name == m.name && r.prefix == m.prefix && r.instrMode == m.instrMode
      && r.instructions == Flush(m.instructions, m.buf)
  {
  }

  /**
   * Shape of a successful parse: the label is non-empty and holds no space, tab,
   * newline or parenthesis; every entry is a `ToT::String`; every prefix entry is
   * a trimmed token or a nested group copied verbatim; every instruction entry is
   * a trimmed token; and every entry is shorter than the input.
   */
  lemma ParseShape(input: string)
    ensures Parse(input).Ok? ==>
      var t := Parse(input).value;
      && t.name != "" && NoBlank(t.name) && ParenFree(t.name)
      && (forall k :: 0 <= k < |t.prefix| ==> t.prefix[k].Str? && IsPrefixEntry(input, t.prefix[k].s))
      && (forall k :: 0 <= k < |t.instructions| ==> t.instructions[k].Str? && IsToken(input, t.instructions[k].s))
  {
    if |input| > 0 && input[0] == '(' {
      RunKeepsGood(input, Start);
    }
  }

  /** Every entry of a successful parse is strictly shorter than the input it came from. */
  lemma ParseEntriesShorter(input: string)
    requires Parse(input).Ok?
    ensures forall k :: 0 <= k < |Parse(input).value.prefix| ==>
      Parse(input).value.prefix[k].Str? && |Parse(input).value.prefix[k].s| < |input|
    ensures forall k :: 0 <= k < |Parse(input).value.instructions| ==>
      Parse(input).value.instructions[k].Str? && |Parse(input).value.instructions[k].s| < |input|
  {
    ParseShape(input);
  }

  /**
   * Once instruction mode is on, it stays on and the prefix list never grows
   * again: no `(` is left ahead, so the group arm never fires.
   */
  lemma InstructionModeIsFinal(input: string, m: Machine)
    requires Good(input, m) && m.instrMode
    ensures Run(input, m).instrMode && Run(input, m).prefix == m.prefix
  {
    RunKeepsGood(input, m);
  }

  /** A character that is neither blank nor a parenthesis is appended to the buffer. */
  lemma WordCharStep(input: string, m: Machine, i: nat, buf: string)
    requires m.index == i && m.buf == buf && i < |input| && IsWordChar(input[i])
    ensures Run(input, m) == Run(input, m.(index := i + 1, buf := buf + [input[i]]))
  {
    assert Step(input, m) == m.(index := i + 1, buf := buf + [input[i]]);
  }

  lemma BufferSnoc(input: string, buf: string, i: nat, k: nat)
    requires i < k <= |input|
    ensures buf + input[i..k - 1] + [input[k - 1]] == buf + input[i..k]
  {
    assert input[i..k] == input[i..k - 1] + [input[k - 1]];
  }

  /** Reading characters that are neither blank nor parentheses only extends the pending buffer. */
  lemma {:induction false} RunThroughWord(input: string, m: Machine, k: nat)
    requires m.index <= k <= |input|
    requires forall p :: m.index <= p < k ==> IsWordChar(input[p])
    ensures Run(input, m) == Run(input, m.(index := k, buf := m.buf + input[m.index..k]))
    decreases k - m.index
  {
    if m.index < k {
      var before := m.buf + input[m.index..k - 1];
      var mid := m.(index := k - 1, buf := before);
      RunThroughWord(input, m, k - 1);
      assert Run(input, m) == Run(input, mid);
      WordCharStep(input, mid, k - 1, before);
      BufferSnoc(input, m.buf, m.index, k);
    } else {
      assert m.buf + input[m.index..k] == m.buf;
    }
  }

  /** Reading a word into an empty buffer keeps the invariant. */
  lemma WordKeepsGood(input: string, m: Machine, k: nat)
    requires Good(input, m) && m.buf == "" && m.index < k <= |input|
    requires forall p :: m.index <= p < k ==> IsWordChar(input[p])
    ensures Good(input, m.(index := k, buf := input[m.index..k]))
  {
    var w := input[m.index..k];
    assert w[0] == input[m.index];
    assert forall p :: 0 <= p < |w| ==> w[p] == input[m.index + p];
  }

  /** Whitespace read while the buffer is empty is skipped: the run goes on from the first other character. */
  lemma {:induction false} RunThroughBlanks(input: string, m: Machine, j: nat)
    requires m.buf == "" && m.index <= j <= |input|
    requires forall p :: m.index <= p < j ==> IsBlank(input[p])
    ensures Run(input, m) == Run(input, m.(index := j))
    decreases j - m.index
  {
    if m.index < j {
      var next := m.(index := m.index + 1);
      BlankWithEmptyBuffer(input, m);
      assert Run(input, m) == Run(input, next);
      RunThroughBlanks(input, next, j);
      assert next.(index := j) == m.(index := j);
    }
  }

  /** Whitespace right after the opening `(` is skipped. */
  lemma LeadingBlanks(input: string, i0: nat)
    requires |input| > 0 && input[0] == '('
    requires 1 <= i0 <= |input| && forall p :: 1 <= p < i0 ==> IsBlank(input[p])
    ensures Good(input, Machine(i0, "", "", [], [], false))
    ensures Run(input, Start) == Run(input, Machine(i0, "", "", [], [], false))
  {
    RunThroughBlanks(input, Start, i0);
    assert Start.(index := i0) == Machine(i0, "", "", [], [], false);
  }

  /** With no label yet, a word ended by a blank becomes the label, untrimmed, and the buffer is emptied. */
  lemma WordBecomesLabel(input: string, m: Machine, k: nat)
    requires Good(input, m) && m.buf == "" && m.name == "" && m.prefix == [] && m.instructions == [] && !m.instrMode
    requires m.index < k < |input| && IsBlank(input[k])
    requires forall p :: m.index <= p < k ==> IsWordChar(input[p])
    ensures Good(input, Machine(k + 1, "", input[m.index..k], [], [], false))
    ensures Run(input, m) == Run(input, Machine(k + 1, "", input[m.index..k], [], [], false))
  {
    var w := input[m.index..k];
    RunThroughWord(input, m, k);
    assert m.buf + input[m.index..k] == w;
    var mW := m.(index := k, buf := w);
    assert Step(input, mW) == Machine(k + 1, "", w, [], [], false);
    WordKeepsGood(input, m, k);
  }

  /**
   * After any whitespace following `(`, the first word and the blank that ends
   * it, the loop stands just past the blank with that word as label.
   */
  lemma ReadLabel(input: string, i0: nat, k: nat)
    requires |input| > 0 && input[0] == '('
    requires 1 <= i0 < k < |input| && IsBlank(input[k])
    requires forall p :: 1 <= p < i0 ==> IsBlank(input[p])
    requires forall p :: i0 <= p < k ==> IsWordChar(input[p])
    ensures Good(input, Machine(k + 1, "", input[i0..k], [], [], false))
    ensures Run(input, Start) == Run(input, Machine(k + 1, "", input[i0..k], [], [], false))
  {
    LeadingBlanks(input, i0);
    WordBecomesLabel(input, Machine(i0, "", "", [], [], false), k);
  }

  /**
   * The first word after the opening `(` (and any whitespace after it), ended by
   * a space, tab or newline, is the label, and the parse then succeeds whatever
   * follows.
   */
  lemma FirstWordIsLabel(input: string, i0: nat, k: nat)
    requires |input| > 0 && input[0] == '('
    requires 1 <= i0 < k < |input| && IsBlank(input[k])
    requires forall p :: 1 <= p < i0 ==> IsBlank(input[p])
    requires forall p :: i0 <= p < k ==> IsWordChar(input[p])
    ensures Parse(input).Ok? && Parse(input).value.name == input[i0..k]
  {
    ReadLabel(input, i0, k);
    RunKeepsGood(input, Machine(k + 1, "", input[i0..k], [], [], false));
  }

  /** A turn of the loop before any word has been ended by a blank leaves the label empty. */
  lemma NoLabelStep(input: string, m: Machine)
    requires 1 <= m.index < |input| && m.name == ""
    requires input[m.index] != '(' && input[m.index] != ')'
    requires m.buf != "" ==> IsWordChar(input[m.index - 1])
    requires IsBlank(input[m.index]) ==> !IsWordChar(input[m.index - 1])
    ensures Step(input, m).index == m.index + 1 && Step(input, m).name == ""
    ensures Step(input, m).buf != "" ==> IsWordChar(input[m.index])
  {
  }

  lemma {:induction false} NoLabelRun(input: string, m: Machine, k: nat)
    requires 1 <= m.index <= k <= |input| && m.name == ""
    requires k == |input| || input[k] == ')'
    requires m.buf != "" ==> IsWordChar(input[m.index - 1])
    requires forall p :: m.index <= p < k ==> input[p] != '(' && (IsBlank(input[p]) ==> !IsWordChar(input[p - 1]))
    ensures Run(input, m).name == ""
    decreases |input| - m.index
  {
    if m.index < |input| && input[m.index] != ')' {
      NoLabelStep(input, m);
      NoLabelRun(input, Step(input, m), k);
    }
  }

  /**
   * A form in which no space, tab or newline ends a word before the loop stops
   * (at a `)` or at the end of the input), and that holds no nested group there,
   * fails with "Missing label": for example `()`, `( )`, `(func)` and an
   * unterminated `(func`.
   */
  lemma NoWordEndedIsMissingLabel(input: string, k: nat)
    requires |input| > 0 && input[0] == '('
    requires 1 <= k <= |input| && (k == |input| || input[k] == ')')
    requires forall p :: 1 <= p < k ==> input[p] != '(' && (IsBlank(input[p]) ==> !IsWordChar(input[p - 1]))
    ensures Parse(input) == Err(MissingLabel)
  {
    NoLabelRun(input, Start, k);
  }

  /** With a label and no prefix yet, a word ended by a blank becomes the sole prefix entry, trimmed. */
  lemma ReadFirstPrefix(input: string, m: Machine, k: nat)
    requires Good(input, m) && m.buf == "" && m.name != "" && m.prefix == [] && m.instructions == []
    requires m.index < k < |input| && IsBlank(input[k])
    requires forall p :: m.index <= p < k ==> IsWordChar(input[p])
    ensures Good(input, Machine(k + 1, "", m.name, [Trim(input[m.index..k])], [], m.instrMode))
    ensures Run(input, m) == Run(input, Machine(k + 1, "", m.name, [Trim(input[m.index..k])], [], m.instrMode))
  {
    var word := input[m.index..k];
    var mB := Machine(k, word, m.name, [], [], m.instrMode);
    var target := Machine(k + 1, "", m.name, [Trim(word)], [], m.instrMode);
    RunThroughWord(input, m, k);
    assert m.(index := k, buf := m.buf + input[m.index..k]) == mB;
    assert Run(input, m) == Run(input, mB);
    WordKeepsGood(input, m, k);
    assert Good(input, mB);
    FirstPrefixStep(input, m.name, word, k, m.instrMode);
    assert Run(input, mB) == Run(input, target);
  }

  /** The blank after the first word past the label moves the trimmed word into the empty prefix. */
  lemma FirstPrefixStep(input: string, name: string, w: string, k: nat, instrMode: bool)
    requires Good(input, Machine(k, w, name, [], [], instrMode)) && w != "" && name != ""
    requires k < |input| && IsBlank(input[k])
    ensures Good(input, Machine(k + 1, "", name, [Trim(w)], [], instrMode))
    ensures Run(input, Machine(k, w, name, [], [], instrMode)) == Run(input, Machine(k + 1, "", name, [Trim(w)], [], instrMode))
  {
    var m := Machine(k, w, name, [], [], instrMode);
    TokenOfBuffer(input, m);
    assert Step(input, m) == Machine(k + 1, "", name, [Trim(w)], [], instrMode);
  }

  /**
   * The word after the label, whatever whitespace separates the two, becomes
   * the first prefix entry (trimmed) whatever the lookahead would say, provided
   * no nested group comes before it.
   */
  lemma SecondWordIsFirstPrefix(input: string, i0: nat, k1: nat, j: nat, k2: nat)
    requires |input| > 0 && input[0] == '('
    requires 1 <= i0 < k1 < j < k2 < |input| && IsBlank(input[k2])
    requires forall p :: 1 <= p < i0 ==> IsBlank(input[p])
    requires forall p :: i0 <= p < k1 ==> IsWordChar(input[p])
    requires forall p :: k1 <= p < j ==> IsBlank(input[p])
    requires forall p :: j <= p < k2 ==> IsWordChar(input[p])
    ensures Parse(input).Ok? && Parse(input).value.name == input[i0..k1]
    ensures |Parse(input).value.prefix| > 0 && Parse(input).value.prefix[0] == Str(Trim(input[j..k2]))
  {
    var name := input[i0..k1];
    var mP := Machine(k2 + 1, "", name, [Trim(input[j..k2])], [], false);
    LabelThenSecondWord(input, i0, k1, j, k2);
    RunKeepsGood(input, mP);
  }

  lemma LabelThenSecondWord(input: string, i0: nat, k1: nat, j: nat, k2: nat)
    requires |input| > 0 && input[0] == '('
    requires 1 <= i0 < k1 < j < k2 < |input| && IsBlank(input[k2])
    requires forall p :: 1 <= p < i0 ==> IsBlank(input[p])
    requires forall p :: i0 <= p < k1 ==> IsWordChar(input[p])
    requires forall p :: k1 <= p < j ==> IsBlank(input[p])
    requires forall p :: j <= p < k2 ==> IsWordChar(input[p])
    ensures Good(input, Machine(k2 + 1, "", input[i0..k1], [Trim(input[j..k2])], [], false))
    ensures Run(input, Start) == Run(input, Machine(k2 + 1, "", input[i0..k1], [Trim(input[j..k2])], [], false))
  {
    var name := input[i0..k1];
    var mL := Machine(k1 + 1, "", name, [], [], false);
    var mJ := Machine(j, "", name, [], [], false);
    ReadLabel(input, i0, k1);
    RunThroughBlanks(input, mL, j);
    assert mL.(index := j) == mJ;
    assert Run(input, Start) == Run(input, mJ);
    assert Good(input, mJ);
    ReadFirstPrefix(input, mJ, k2);
  }

  lemma LineCharStep(input: string, m: Machine, i: nat, buf: string)
    requires m.instrMode && m.buf == buf && buf != "" && m.name != "" && m.prefix != []
    requires m.index == i && i < |input| && input[i] != '\n' && input[i] != '(' && input[i] != ')'
    ensures Run(input, m) == Run(input, m.(index := i + 1, buf := buf + [input[i]]))
  {
    assert Step(input, m) == m.(index := i + 1, buf := buf + [input[i]]);
  }

  /** In instruction mode with a non-empty buffer, spaces, tabs and other non-newline characters outside parentheses only extend the buffer. */
  lemma {:induction false} RunThroughLine(input: string, m: Machine, k: nat)
    requires m.instrMode && m.buf != "" && m.name != "" && m.prefix != []
    requires m.index <= k <= |input|
    requires forall p :: m.index <= p < k ==> input[p] != '\n' && input[p] != '(' && input[p] != ')'
    ensures Run(input, m) == Run(input, m.(index := k, buf := m.buf + input[m.index..k]))
    decreases k - m.index
  {
    if m.index < k {
      var before := m.buf + input[m.index..k - 1];
      var mid := m.(index := k - 1, buf := before);
      RunThroughLine(input, m, k - 1);
      assert Run(input, m) == Run(input, mid);
      LineCharStep(input, mid, k - 1, before);
      BufferSnoc(input, m.buf, m.index, k);
    } else {
      assert m.buf + input[m.index..k] == m.buf;
    }
  }

  /** The newline that ends an instruction line flushes the trimmed buffer into the instructions. */
  lemma LineEndStep(input: string, m: Machine)
    requires m.instrMode && m.buf != "" && m.name != "" && m.prefix != []
    requires m.index < |input| && input[m.index] == '\n'
    ensures Run(input, m) == Run(input, m.(index := m.index + 1, instructions := m.instructions + [Trim(m.buf)], buf := ""))
  {
    assert Step(input, m) == m.(index := m.index + 1, instructions := m.instructions + [Trim(m.buf)], buf := "");
  }

  /** `InstructionLine` on the components of the state. */
  lemma LineAt(input: string, i: nat, name: string, prefix: seq<string>, instrs: seq<string>, k: nat)
    requires name != "" && prefix != []
    requires i < k < |input| && input[k] == '\n' && IsWordChar(input[i])
    requires forall p :: i <= p < k ==> input[p] != '\n' && input[p] != '(' && input[p] != ')'
    ensures Run(input, Machine(i, "", name, prefix, instrs, true))
         == Run(input, Machine(k + 1, "", name, prefix, instrs + [Trim(input[i..k])], true))
  {
    var line := input[i..k];
    LineBodyAt(input, i, name, prefix, instrs, k, line);
    LineEndAt(input, name, prefix, instrs, k, line);
  }

  lemma LineBodyAt(input: string, i: nat, name: string, prefix: seq<string>, instrs: seq<string>, k: nat, line: string)
    requires name != "" && prefix != []
    requires i < k <= |input| && IsWordChar(input[i]) && line == input[i..k]
    requires forall p :: i <= p < k ==> input[p] != '\n' && input[p] != '(' && input[p] != ')'
    ensures line != ""
    ensures Run(input, Machine(i, "", name, prefix, instrs, true)) == Run(input, Machine(k, line, name, prefix, instrs, true))
  {
    var m := Machine(i, "", name, prefix, instrs, true);
    LineBody(input, m, k);
    assert m.(index := k, buf := input[m.index..k]) == Machine(k, line, name, prefix, instrs, true);
  }

  lemma LineEndAt(input: string, name: string, prefix: seq<string>, instrs: seq<string>, k: nat, line: string)
    requires name != "" && prefix != [] && line != ""
    requires k < |input| && input[k] == '\n'
    ensures Run(input, Machine(k, line, name, prefix, instrs, true))
         == Run(input, Machine(k + 1, "", name, prefix, instrs + [Trim(line)], true))
  {
    var m := Machine(k, line, name, prefix, instrs, true);
    LineEndStep(input, m);
    assert m.(index := m.index + 1, instructions := m.instructions + [Trim(m.buf)], buf := "")
        == Machine(k + 1, "", name, prefix, instrs + [Trim(line)], true);
  }

  /**
   * In instruction mode each newline-terminated line becomes one trimmed
   * instruction entry, spaces and tabs inside it included.
   */
  lemma InstructionLine(input: string, m: Machine, k: nat)
    requires m.instrMode && m.buf == "" && m.name != "" && m.prefix != []
    requires m.index < k < |input| && input[k] == '\n' && IsWordChar(input[m.index])
    requires forall p :: m.index <= p < k ==> input[p] != '\n' && input[p] != '(' && input[p] != ')'
    ensures Run(input, m) == Run(input, m.(index := k + 1, instructions := m.instructions + [Trim(input[m.index..k])]))
  {
    LineAt(input, m.index, m.name, m.prefix, m.instructions, k);
    assert m == Machine(m.index, "", m.name, m.prefix, m.instructions, true);
  }

  /** The characters of an instruction line, read into the empty buffer, become the buffer. */
  lemma LineBody(input: string, m: Machine, k: nat)
    requires m.instrMode && m.buf == "" && m.name != "" && m.prefix != []
    requires m.index < k <= |input| && IsWordChar(input[m.index])
    requires forall p :: m.index <= p < k ==> input[p] != '\n' && input[p] != '(' && input[p] != ')'
    ensures Run(input, m) == Run(input, m.(index := k, buf := input[m.index..k]))
  {
    var i := m.index;
    var m1 := m.(index := i + 1, buf := [input[i]]);
    assert Step(input, m) == m1;
    RunThroughLine(input, m1, k);
    SliceCons(input, i, k);
  }

  lemma SliceCons(s: string, i: nat, k: nat)
    requires i < k <= |s|
    ensures [s[i]] + s[i + 1..k] == s[i..k]
  {
  }
}
