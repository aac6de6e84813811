/**
 * The reader on a few literal forms, one turn of the loop at a time: nested
 * groups copied verbatim and unfolded, a nested `func` whose second word becomes
 * an instruction, carriage returns that trim to empty entries, and a group read
 * before the label is known.
 *
 * The results are the lemmas named after the forms: `NestedFunc`,
 * `BlockWithFunc`, `BlockWithFuncUnfolds` (with its steps `NestedFuncUnfolded`
 * and `NestedFuncEntryUnfolds`), `TwoGroups`, `CarriageReturnPrefix`,
 * `CarriageReturnLine`, `GroupBeforeLabel` and `GroupThenLabel`; each states
 * what `Parse` (or `Unfold`) gives on its form.
 * The rest is the proof of those results: `<Form>Turn<i>` is one turn of the
 * loop, `<Form>Part<n>` chains a few turns, and `<Form>ScanAt<i>` is the
 * scanner run over the group that starts at position `i`.
 */
module Concrete {
  import opened Text
  import opened Tree
  import opened Scanner
  import opened Parser
  import opened Unfold
  import opened ParserFacts
  import opened Scenarios

  const NestedFuncText: string := "(func x y\nz\n)"
  const BlockWithFuncText: string := "(block (func x y\nz\n)\ninstr\n)"
  const TwoGroupsText: string := "(l (a) (b c) w)"
  const CarriageReturnPrefixText: string := "(l \r b)"
  const CarriageReturnLineText: string := "(l a b\n\r\n)"
  const GroupBeforeLabelText: string := "(a(b c))"
  const GroupThenLabelText: string := "(a(b c) d)"

  /**
   * `(func x y\nz\n)`: `x` is the only prefix entry; no `(` lies ahead at the
   * newline after `y`, so `y` and `z` are instructions.
   */
  lemma NestedFunc()
    ensures Parse(NestedFuncText) == Ok(Tagged("func", [Str("x")], [Str("y"), Str("z")]))
  {
    NestedFuncPart1(NestedFuncText);
    NestedFuncPart2(NestedFuncText);
    NestedFuncPart3(NestedFuncText);
    assert Run(NestedFuncText, Start) == Machine(13, "", "func", ["x"], ["y", "z"], true);
    assert Strs(["x"]) == [Str("x")];
    assert Strs(["y", "z"]) == [Str("y"), Str("z")];
  }

  lemma NestedFuncPart1(input: string)
    requires input == NestedFuncText
    ensures Run(input, Machine(1, "", "", [], [], false)) == Run(input, Machine(5, "func", "", [], [], false))
  {
    NestedFuncTurn1(input);
    NestedFuncTurn2(input);
    NestedFuncTurn3(input);
    NestedFuncTurn4(input);
    FourTurns(input, Machine(1, "", "", [], [], false), Machine(2, "f", "", [], [], false), Machine(3, "fu", "", [], [], false), Machine(4, "fun", "", [], [], false), Machine(5, "func", "", [], [], false));
  }

  lemma NestedFuncPart2(input: string)
    requires input == NestedFuncText
    ensures Run(input, Machine(5, "func", "", [], [], false)) == Run(input, Machine(9, "y", "func", ["x"], [], false))
  {
    NestedFuncTurn5(input);
    NestedFuncTurn6(input);
    NestedFuncTurn7(input);
    NestedFuncTurn8(input);
    FourTurns(input, Machine(5, "func", "", [], [], false), Machine(6, "", "func", [], [], false), Machine(7, "x", "func", [], [], false), Machine(8, "", "func", ["x"], [], false), Machine(9, "y", "func", ["x"], [], false));
  }

  lemma NestedFuncPart3(input: string)
    requires input == NestedFuncText
    ensures Run(input, Machine(9, "y", "func", ["x"], [], false)) == Machine(13, "", "func", ["x"], ["y", "z"], true)
  {
    NestedFuncTurn9(input);
    NestedFuncTurn10(input);
    NestedFuncTurn11(input);
    NestedFuncTurn12(input);
    ThreeTurns(input, Machine(9, "y", "func", ["x"], [], false), Machine(10, "", "func", ["x"], ["y"], true), Machine(11, "z", "func", ["x"], ["y"], true), Machine(12, "", "func", ["x"], ["y", "z"], true));
  }

  lemma NestedFuncTurn1(input: string)
    requires input == NestedFuncText
    ensures Step(input, Machine(1, "", "", [], [], false)) == Machine(2, "f", "", [], [], false)
  {
    assert input[1] == 'f';
  }

  lemma NestedFuncTurn2(input: string)
    requires input == NestedFuncText
    ensures Step(input, Machine(2, "f", "", [], [], false)) == Machine(3, "fu", "", [], [], false)
  {
    assert input[2] == 'u';
  }

  lemma NestedFuncTurn3(input: string)
    requires input == NestedFuncText
    ensures Step(input, Machine(3, "fu", "", [], [], false)) == Machine(4, "fun", "", [], [], false)
  {
    assert input[3] == 'n';
  }

  lemma NestedFuncTurn4(input: string)
    requires input == NestedFuncText
    ensures Step(input, Machine(4, "fun", "", [], [], false)) == Machine(5, "func", "", [], [], false)
  {
    assert input[4] == 'c';
  }

  lemma NestedFuncTurn5(input: string)
    requires input == NestedFuncText
    ensures Step(input, Machine(5, "func", "", [], [], false)) == Machine(6, "", "func", [], [], false)
  {
    assert input[5] == ' ';
  }

  lemma NestedFuncTurn6(input: string)
    requires input == NestedFuncText
    ensures Step(input, Machine(6, "", "func", [], [], false)) == Machine(7, "x", "func", [], [], false)
  {
    assert input[6] == 'x';
  }

  lemma NestedFuncTurn7(input: string)
    requires input == NestedFuncText
    ensures Step(input, Machine(7, "x", "func", [], [], false)) == Machine(8, "", "func", ["x"], [], false)
  {
    assert input[7] == ' ';
    TrimTrimmed("x");
  }

  lemma NestedFuncTurn8(input: string)
    requires input == NestedFuncText
    ensures Step(input, Machine(8, "", "func", ["x"], [], false)) == Machine(9, "y", "func", ["x"], [], false)
  {
    assert input[8] == 'y';
  }

  lemma NestedFuncTurn9(input: string)
    requires input == NestedFuncText
    ensures Step(input, Machine(9, "y", "func", ["x"], [], false)) == Machine(10, "", "func", ["x"], ["y"], true)
  {
    assert input[9] == '\n';
    assert input[10..] == "z\n)";
    TrimTrimmed("y");
  }

  lemma NestedFuncTurn10(input: string)
    requires input == NestedFuncText
    ensures Step(input, Machine(10, "", "func", ["x"], ["y"], true)) == Machine(11, "z", "func", ["x"], ["y"], true)
  {
    assert input[10] == 'z';
  }

  lemma NestedFuncTurn11(input: string)
    requires input == NestedFuncText
    ensures Step(input, Machine(11, "z", "func", ["x"], ["y"], true)) == Machine(12, "", "func", ["x"], ["y", "z"], true)
  {
    assert input[11] == '\n';
    TrimTrimmed("z");
  }

  lemma NestedFuncTurn12(input: string)
    requires input == NestedFuncText
    ensures Run(input, Machine(12, "", "func", ["x"], ["y", "z"], true)) == Machine(13, "", "func", ["x"], ["y", "z"], true)
  {
    RunAtClose(input, Machine(12, "", "func", ["x"], ["y", "z"], true));
    assert input[12] == ')';
  }

  /**
   * `(block (func x y\nz\n)\ninstr\n)`: the nested group is pushed to the prefix
   * verbatim, the blank line after it produces nothing, and `instr` is the one
   * instruction.
   */
  lemma BlockWithFunc()
    ensures Parse(BlockWithFuncText) == Ok(Tagged("block", [Str("(func x y\nz\n)")], [Str("instr")]))
  {
    BlockWithFuncPart1(BlockWithFuncText);
    BlockWithFuncPart2(BlockWithFuncText);
    BlockWithFuncPart3(BlockWithFuncText);
    BlockWithFuncPart4(BlockWithFuncText);
    assert Run(BlockWithFuncText, Start) == Machine(28, "", "block", ["(func x y\nz\n)"], ["instr"], true);
    assert Strs(["(func x y\nz\n)"]) == [Str("(func x y\nz\n)")];
    assert Strs(["instr"]) == [Str("instr")];
  }

  lemma BlockWithFuncPart1(input: string)
    requires input == BlockWithFuncText
    ensures Run(input, Machine(1, "", "", [], [], false)) == Run(input, Machine(5, "bloc", "", [], [], false))
  {
    BlockWithFuncTurn1(input);
    BlockWithFuncTurn2(input);
    BlockWithFuncTurn3(input);
    BlockWithFuncTurn4(input);
    FourTurns(input, Machine(1, "", "", [], [], false), Machine(2, "b", "", [], [], false), Machine(3, "bl", "", [], [], false), Machine(4, "blo", "", [], [], false), Machine(5, "bloc", "", [], [], false));
  }

  lemma BlockWithFuncPart2(input: string)
    requires input == BlockWithFuncText
    ensures Run(input, Machine(5, "bloc", "", [], [], false)) == Run(input, Machine(21, "", "block", ["(func x y\nz\n)"], [], false))
  {
    BlockWithFuncTurn5(input);
    BlockWithFuncTurn6(input);
    BlockWithFuncTurn7(input);
    BlockWithFuncTurn20(input);
    FourTurns(input, Machine(5, "bloc", "", [], [], false), Machine(6, "block", "", [], [], false), Machine(7, "", "block", [], [], false), Machine(20, "", "block", ["(func x y\nz\n)"], [], false), Machine(21, "", "block", ["(func x y\nz\n)"], [], false));
  }

  lemma BlockWithFuncPart3(input: string)
    requires input == BlockWithFuncText
    ensures Run(input, Machine(21, "", "block", ["(func x y\nz\n)"], [], false)) == Run(input, Machine(25, "inst", "block", ["(func x y\nz\n)"], [], false))
  {
    BlockWithFuncTurn21(input);
    BlockWithFuncTurn22(input);
    BlockWithFuncTurn23(input);
    BlockWithFuncTurn24(input);
    FourTurns(input, Machine(21, "", "block", ["(func x y\nz\n)"], [], false), Machine(22, "i", "block", ["(func x y\nz\n)"], [], false), Machine(23, "in", "block", ["(func x y\nz\n)"], [], false), Machine(24, "ins", "block", ["(func x y\nz\n)"], [], false), Machine(25, "inst", "block", ["(func x y\nz\n)"], [], false));
  }

  lemma BlockWithFuncPart4(input: string)
    requires input == BlockWithFuncText
    ensures Run(input, Machine(25, "inst", "block", ["(func x y\nz\n)"], [], false)) == Machine(28, "", "block", ["(func x y\nz\n)"], ["instr"], true)
  {
    BlockWithFuncTurn25(input);
    BlockWithFuncTurn26(input);
    BlockWithFuncTurn27(input);
    TwoTurns(input, Machine(25, "inst", "block", ["(func x y\nz\n)"], [], false), Machine(26, "instr", "block", ["(func x y\nz\n)"], [], false), Machine(27, "", "block", ["(func x y\nz\n)"], ["instr"], true));
  }

  lemma BlockWithFuncTurn1(input: string)
    requires input == BlockWithFuncText
    ensures Step(input, Machine(1, "", "", [], [], false)) == Machine(2, "b", "", [], [], false)
  {
    assert input[1] == 'b';
  }

  lemma BlockWithFuncTurn2(input: string)
    requires input == BlockWithFuncText
    ensures Step(input, Machine(2, "b", "", [], [], false)) == Machine(3, "bl", "", [], [], false)
  {
    assert input[2] == 'l';
  }

  lemma BlockWithFuncTurn3(input: string)
    requires input == BlockWithFuncText
    ensures Step(input, Machine(3, "bl", "", [], [], false)) == Machine(4, "blo", "", [], [], false)
  {
    assert input[3] == 'o';
  }

  lemma BlockWithFuncTurn4(input: string)
    requires input == BlockWithFuncText
    ensures Step(input, Machine(4, "blo", "", [], [], false)) == Machine(5, "bloc", "", [], [], false)
  {
    assert input[4] == 'c';
  }

  lemma BlockWithFuncTurn5(input: string)
    requires input == BlockWithFuncText
    ensures Step(input, Machine(5, "bloc", "", [], [], false)) == Machine(6, "block", "", [], [], false)
  {
    assert input[5] == 'k';
  }

  lemma BlockWithFuncTurn6(input: string)
    requires input == BlockWithFuncText
    ensures Step(input, Machine(6, "block", "", [], [], false)) == Machine(7, "", "block", [], [], false)
  {
    assert input[6] == ' ';
  }

  lemma BlockWithFuncTurn7(input: string)
    requires input == BlockWithFuncText
    ensures Step(input, Machine(7, "", "block", [], [], false)) == Machine(20, "", "block", ["(func x y\nz\n)"], [], false)
  {
    assert input[7] == '(';
    BlockWithFuncScanAt7(input);
  }

  lemma BlockWithFuncTurn20(input: string)
    requires input == BlockWithFuncText
    ensures Step(input, Machine(20, "", "block", ["(func x y\nz\n)"], [], false)) == Machine(21, "", "block", ["(func x y\nz\n)"], [], false)
  {
    assert input[20] == '\n';
  }

  lemma BlockWithFuncTurn21(input: string)
    requires input == BlockWithFuncText
    ensures Step(input, Machine(21, "", "block", ["(func x y\nz\n)"], [], false)) == Machine(22, "i", "block", ["(func x y\nz\n)"], [], false)
  {
    assert input[21] == 'i';
  }

  lemma BlockWithFuncTurn22(input: string)
    requires input == BlockWithFuncText
    ensures Step(input, Machine(22, "i", "block", ["(func x y\nz\n)"], [], false)) == Machine(23, "in", "block", ["(func x y\nz\n)"], [], false)
  {
    assert input[22] == 'n';
  }

  lemma BlockWithFuncTurn23(input: string)
    requires input == BlockWithFuncText
    ensures Step(input, Machine(23, "in", "block", ["(func x y\nz\n)"], [], false)) == Machine(24, "ins", "block", ["(func x y\nz\n)"], [], false)
  {
    assert input[23] == 's';
  }

  lemma BlockWithFuncTurn24(input: string)
    requires input == BlockWithFuncText
    ensures Step(input, Machine(24, "ins", "block", ["(func x y\nz\n)"], [], false)) == Machine(25, "inst", "block", ["(func x y\nz\n)"], [], false)
  {
    assert input[24] == 't';
  }

  lemma BlockWithFuncTurn25(input: string)
    requires input == BlockWithFuncText
    ensures Step(input, Machine(25, "inst", "block", ["(func x y\nz\n)"], [], false)) == Machine(26, "instr", "block", ["(func x y\nz\n)"], [], false)
  {
    assert input[25] == 'r';
  }

  lemma BlockWithFuncTurn26(input: string)
    requires input == BlockWithFuncText
    ensures Step(input, Machine(26, "instr", "block", ["(func x y\nz\n)"], [], false)) == Machine(27, "", "block", ["(func x y\nz\n)"], ["instr"], true)
  {
    assert input[26] == '\n';
    assert input[27..] == ")";
    TrimTrimmed("instr");
  }

  lemma BlockWithFuncTurn27(input: string)
    requires input == BlockWithFuncText
    ensures Run(input, Machine(27, "", "block", ["(func x y\nz\n)"], ["instr"], true)) == Machine(28, "", "block", ["(func x y\nz\n)"], ["instr"], true)
  {
    RunAtClose(input, Machine(27, "", "block", ["(func x y\nz\n)"], ["instr"], true));
    assert input[27] == ')';
  }

  /** The scanner run from the `(` at 7, read back from the `)` that closes it. */
  lemma BlockWithFuncScanAt7(input: string)
    requires input == BlockWithFuncText
    ensures Scan(input, 7) == ("(func x y\nz\n)", 20)
  {
    assert FindClose(input, 19, 1) == 20;
    assert FindClose(input, 18, 1) == 20;
    assert FindClose(input, 17, 1) == 20;
    assert FindClose(input, 16, 1) == 20;
    assert FindClose(input, 15, 1) == 20;
    assert FindClose(input, 14, 1) == 20;
    assert FindClose(input, 13, 1) == 20;
    assert FindClose(input, 12, 1) == 20;
    assert FindClose(input, 11, 1) == 20;
    assert FindClose(input, 10, 1) == 20;
    assert FindClose(input, 9, 1) == 20;
    assert FindClose(input, 8, 1) == 20;
    assert FindClose(input, 7, 0) == 20;
    assert input[7..20] == "(func x y\nz\n)";
  }

  /** The `func` tree of the nested group has no raw `(func ` entry left, so unfolding leaves it as it is. */
  lemma NestedFuncUnfolded()
    ensures Unfold.Unfold(Tagged("func", [Str("x")], [Str("y"), Str("z")])) ==
      Tagged("func", [Str("x")], [Str("y"), Str("z")])
  {
    assert !IsFuncText(Str("x"));
  }

  /** The raw nested group, as a prefix entry, is re-parsed into its unfolded `func` tree. */
  lemma NestedFuncEntryUnfolds()
    ensures UnfoldEntry(Str(NestedFuncText)) == Tag(Tagged("func", [Str("x")], [Str("y"), Str("z")]))
  {
    NestedFunc();
    NestedFuncUnfolded();
    assert StartsWith(NestedFuncText, FuncMarker);
  }

  /** Unfolding that form re-parses the nested group into a `func` tree with prefix `x` and instructions `y`, `z`. */
  lemma BlockWithFuncUnfolds()
    ensures Parse(BlockWithFuncText).Ok?
    ensures Unfold.Unfold(Parse(BlockWithFuncText).value) ==
      Tagged("block", [Tag(Tagged("func", [Str("x")], [Str("y"), Str("z")]))], [Str("instr")])
  {
    BlockWithFunc();
    NestedFuncEntryUnfolds();
    assert "(func x y\nz\n)" == NestedFuncText;
  }

  /**
   * `(l (a) (b c) w)`: both groups are pushed in order, the second with the
   * blank inside it, and the blanks between the groups produce nothing.
   */
  lemma TwoGroups()
    ensures Parse(TwoGroupsText) == Ok(Tagged("l", [Str("(a)"), Str("(b c)")], [Str("w")]))
  {
    TwoGroupsPart1(TwoGroupsText);
    TwoGroupsPart2(TwoGroupsText);
    assert Run(TwoGroupsText, Start) == Machine(15, "", "l", ["(a)", "(b c)"], ["w"], false);
    assert Strs(["(a)", "(b c)"]) == [Str("(a)"), Str("(b c)")];
    assert Strs(["w"]) == [Str("w")];
  }

  lemma TwoGroupsPart1(input: string)
    requires input == TwoGroupsText
    ensures Run(input, Machine(1, "", "", [], [], false)) == Run(input, Machine(7, "", "l", ["(a)"], [], false))
  {
    TwoGroupsTurn1(input);
    TwoGroupsTurn2(input);
    TwoGroupsTurn3(input);
    TwoGroupsTurn6(input);
    FourTurns(input, Machine(1, "", "", [], [], false), Machine(2, "l", "", [], [], false), Machine(3, "", "l", [], [], false), Machine(6, "", "l", ["(a)"], [], false), Machine(7, "", "l", ["(a)"], [], false));
  }

  lemma TwoGroupsPart2(input: string)
    requires input == TwoGroupsText
    ensures Run(input, Machine(7, "", "l", ["(a)"], [], false)) == Machine(15, "", "l", ["(a)", "(b c)"], ["w"], false)
  {
    TwoGroupsTurn7(input);
    TwoGroupsTurn12(input);
    TwoGroupsTurn13(input);
    TwoGroupsTurn14(input);
    ThreeTurns(input, Machine(7, "", "l", ["(a)"], [], false), Machine(12, "", "l", ["(a)", "(b c)"], [], false), Machine(13, "", "l", ["(a)", "(b c)"], [], false), Machine(14, "w", "l", ["(a)", "(b c)"], [], false));
  }

  lemma TwoGroupsTurn1(input: string)
    requires input == TwoGroupsText
    ensures Step(input, Machine(1, "", "", [], [], false)) == Machine(2, "l", "", [], [], false)
  {
    assert input[1] == 'l';
  }

  lemma TwoGroupsTurn2(input: string)
    requires input == TwoGroupsText
    ensures Step(input, Machine(2, "l", "", [], [], false)) == Machine(3, "", "l", [], [], false)
  {
    assert input[2] == ' ';
  }

  lemma TwoGroupsTurn3(input: string)
    requires input == TwoGroupsText
    ensures Step(input, Machine(3, "", "l", [], [], false)) == Machine(6, "", "l", ["(a)"], [], false)
  {
    assert input[3] == '(';
    TwoGroupsScanAt3(input);
  }

  lemma TwoGroupsTurn6(input: string)
    requires input == TwoGroupsText
    ensures Step(input, Machine(6, "", "l", ["(a)"], [], false)) == Machine(7, "", "l", ["(a)"], [], false)
  {
    assert input[6] == ' ';
  }

  lemma TwoGroupsTurn7(input: string)
    requires input == TwoGroupsText
    ensures Step(input, Machine(7, "", "l", ["(a)"], [], false)) == Machine(12, "", "l", ["(a)", "(b c)"], [], false)
  {
    assert input[7] == '(';
    TwoGroupsScanAt7(input);
  }

  lemma TwoGroupsTurn12(input: string)
    requires input == TwoGroupsText
    ensures Step(input, Machine(12, "", "l", ["(a)", "(b c)"], [], false)) == Machine(13, "", "l", ["(a)", "(b c)"], [], false)
  {
    assert input[12] == ' ';
  }

  lemma TwoGroupsTurn13(input: string)
    requires input == TwoGroupsText
    ensures Step(input, Machine(13, "", "l", ["(a)", "(b c)"], [], false)) == Machine(14, "w", "l", ["(a)", "(b c)"], [], false)
  {
    assert input[13] == 'w';
  }

  lemma TwoGroupsTurn14(input: string)
    requires input == TwoGroupsText
    ensures Run(input, Machine(14, "w", "l", ["(a)", "(b c)"], [], false)) == Machine(15, "", "l", ["(a)", "(b c)"], ["w"], false)
  {
    RunAtClose(input, Machine(14, "w", "l", ["(a)", "(b c)"], [], false));
    assert input[14] == ')';
    TrimTrimmed("w");
  }

  /** The scanner run from the `(` at 3, read back from the `)` that closes it. */
  lemma TwoGroupsScanAt3(input: string)
    requires input == TwoGroupsText
    ensures Scan(input, 3) == ("(a)", 6)
  {
    assert FindClose(input, 5, 1) == 6;
    assert FindClose(input, 4, 1) == 6;
    assert FindClose(input, 3, 0) == 6;
    assert input[3..6] == "(a)";
  }

  /** The scanner run from the `(` at 7, read back from the `)` that closes it. */
  lemma TwoGroupsScanAt7(input: string)
    requires input == TwoGroupsText
    ensures Scan(input, 7) == ("(b c)", 12)
  {
    assert FindClose(input, 11, 1) == 12;
    assert FindClose(input, 10, 1) == 12;
    assert FindClose(input, 9, 1) == 12;
    assert FindClose(input, 8, 1) == 12;
    assert FindClose(input, 7, 0) == 12;
    assert input[7..12] == "(b c)";
  }

  /**
   * `(l \r b)`: the carriage return is read as a word of its own and trims to an
   * empty prefix entry.
   */
  lemma CarriageReturnPrefix()
    ensures Parse(CarriageReturnPrefixText) == Ok(Tagged("l", [Str("")], [Str("b")]))
  {
    CarriageReturnPrefixPart1(CarriageReturnPrefixText);
    CarriageReturnPrefixPart2(CarriageReturnPrefixText);
    assert Run(CarriageReturnPrefixText, Start) == Machine(7, "", "l", [""], ["b"], false);
    assert Strs([""]) == [Str("")];
    assert Strs(["b"]) == [Str("b")];
  }

  lemma CarriageReturnPrefixPart1(input: string)
    requires input == CarriageReturnPrefixText
    ensures Run(input, Machine(1, "", "", [], [], false)) == Run(input, Machine(5, "", "l", [""], [], false))
  {
    CarriageReturnPrefixTurn1(input);
    CarriageReturnPrefixTurn2(input);
    CarriageReturnPrefixTurn3(input);
    CarriageReturnPrefixTurn4(input);
    FourTurns(input, Machine(1, "", "", [], [], false), Machine(2, "l", "", [], [], false), Machine(3, "", "l", [], [], false), Machine(4, "\r", "l", [], [], false), Machine(5, "", "l", [""], [], false));
  }

  lemma CarriageReturnPrefixPart2(input: string)
    requires input == CarriageReturnPrefixText
    ensures Run(input, Machine(5, "", "l", [""], [], false)) == Machine(7, "", "l", [""], ["b"], false)
  {
    CarriageReturnPrefixTurn5(input);
    CarriageReturnPrefixTurn6(input);
    RunStep(input, Machine(5, "", "l", [""], [], false));
  }

  lemma CarriageReturnPrefixTurn1(input: string)
    requires input == CarriageReturnPrefixText
    ensures Step(input, Machine(1, "", "", [], [], false)) == Machine(2, "l", "", [], [], false)
  {
    assert input[1] == 'l';
  }

  lemma CarriageReturnPrefixTurn2(input: string)
    requires input == CarriageReturnPrefixText
    ensures Step(input, Machine(2, "l", "", [], [], false)) == Machine(3, "", "l", [], [], false)
  {
    assert input[2] == ' ';
  }

  lemma CarriageReturnPrefixTurn3(input: string)
    requires input == CarriageReturnPrefixText
    ensures Step(input, Machine(3, "", "l", [], [], false)) == Machine(4, "\r", "l", [], [], false)
  {
    assert input[3] == '\r';
  }

  lemma CarriageReturnPrefixTurn4(input: string)
    requires input == CarriageReturnPrefixText
    ensures Step(input, Machine(4, "\r", "l", [], [], false)) == Machine(5, "", "l", [""], [], false)
  {
    assert input[4] == ' ';
    TrimEmpty("\r");
  }

  lemma CarriageReturnPrefixTurn5(input: string)
    requires input == CarriageReturnPrefixText
    ensures Step(input, Machine(5, "", "l", [""], [], false)) == Machine(6, "b", "l", [""], [], false)
  {
    assert input[5] == 'b';
  }

  lemma CarriageReturnPrefixTurn6(input: string)
    requires input == CarriageReturnPrefixText
    ensures Run(input, Machine(6, "b", "l", [""], [], false)) == Machine(7, "", "l", [""], ["b"], false)
  {
    RunAtClose(input, Machine(6, "b", "l", [""], [], false));
    assert input[6] == ')';
    TrimTrimmed("b");
  }

  /**
   * `(l a b\n\r\n)`: the `\r` of a CRLF blank line becomes an empty instruction
   * entry.
   */
  lemma CarriageReturnLine()
    ensures Parse(CarriageReturnLineText) == Ok(Tagged("l", [Str("a")], [Str("b"), Str("")]))
  {
    CarriageReturnLinePart1(CarriageReturnLineText);
    CarriageReturnLinePart2(CarriageReturnLineText);
    CarriageReturnLinePart3(CarriageReturnLineText);
    assert Run(CarriageReturnLineText, Start) == Machine(10, "", "l", ["a"], ["b", ""], true);
    assert Strs(["a"]) == [Str("a")];
    assert Strs(["b", ""]) == [Str("b"), Str("")];
  }

  lemma CarriageReturnLinePart1(input: string)
    requires input == CarriageReturnLineText
    ensures Run(input, Machine(1, "", "", [], [], false)) == Run(input, Machine(5, "", "l", ["a"], [], false))
  {
    CarriageReturnLineTurn1(input);
    CarriageReturnLineTurn2(input);
    CarriageReturnLineTurn3(input);
    CarriageReturnLineTurn4(input);
    FourTurns(input, Machine(1, "", "", [], [], false), Machine(2, "l", "", [], [], false), Machine(3, "", "l", [], [], false), Machine(4, "a", "l", [], [], false), Machine(5, "", "l", ["a"], [], false));
  }

  lemma CarriageReturnLinePart2(input: string)
    requires input == CarriageReturnLineText
    ensures Run(input, Machine(5, "", "l", ["a"], [], false)) == Run(input, Machine(9, "", "l", ["a"], ["b", ""], true))
  {
    CarriageReturnLineTurn5(input);
    CarriageReturnLineTurn6(input);
    CarriageReturnLineTurn7(input);
    CarriageReturnLineTurn8(input);
    FourTurns(input, Machine(5, "", "l", ["a"], [], false), Machine(6, "b", "l", ["a"], [], false), Machine(7, "", "l", ["a"], ["b"], true), Machine(8, "\r", "l", ["a"], ["b"], true), Machine(9, "", "l", ["a"], ["b", ""], true));
  }

  lemma CarriageReturnLinePart3(input: string)
    requires input == CarriageReturnLineText
    ensures Run(input, Machine(9, "", "l", ["a"], ["b", ""], true)) == Machine(10, "", "l", ["a"], ["b", ""], true)
  {
    CarriageReturnLineTurn9(input);
  }

  lemma CarriageReturnLineTurn1(input: string)
    requires input == CarriageReturnLineText
    ensures Step(input, Machine(1, "", "", [], [], false)) == Machine(2, "l", "", [], [], false)
  {
    assert input[1] == 'l';
  }

  lemma CarriageReturnLineTurn2(input: string)
    requires input == CarriageReturnLineText
    ensures Step(input, Machine(2, "l", "", [], [], false)) == Machine(3, "", "l", [], [], false)
  {
    assert input[2] == ' ';
  }

  lemma CarriageReturnLineTurn3(input: string)
    requires input == CarriageReturnLineText
    ensures Step(input, Machine(3, "", "l", [], [], false)) == Machine(4, "a", "l", [], [], false)
  {
    assert input[3] == 'a';
  }

  lemma CarriageReturnLineTurn4(input: string)
    requires input == CarriageReturnLineText
    ensures Step(input, Machine(4, "a", "l", [], [], false)) == Machine(5, "", "l", ["a"], [], false)
  {
    assert input[4] == ' ';
    TrimTrimmed("a");
  }

  lemma CarriageReturnLineTurn5(input: string)
    requires input == CarriageReturnLineText
    ensures Step(input, Machine(5, "", "l", ["a"], [], false)) == Machine(6, "b", "l", ["a"], [], false)
  {
    assert input[5] == 'b';
  }

  lemma CarriageReturnLineTurn6(input: string)
    requires input == CarriageReturnLineText
    ensures Step(input, Machine(6, "b", "l", ["a"], [], false)) == Machine(7, "", "l", ["a"], ["b"], true)
  {
    assert input[6] == '\n';
    assert input[7..] == "\r\n)";
    TrimTrimmed("b");
  }

  lemma CarriageReturnLineTurn7(input: string)
    requires input == CarriageReturnLineText
    ensures Step(input, Machine(7, "", "l", ["a"], ["b"], true)) == Machine(8, "\r", "l", ["a"], ["b"], true)
  {
    assert input[7] == '\r';
  }

  lemma CarriageReturnLineTurn8(input: string)
    requires input == CarriageReturnLineText
    ensures Step(input, Machine(8, "\r", "l", ["a"], ["b"], true)) == Machine(9, "", "l", ["a"], ["b", ""], true)
  {
    assert input[8] == '\n';
    TrimEmpty("\r");
  }

  lemma CarriageReturnLineTurn9(input: string)
    requires input == CarriageReturnLineText
    ensures Run(input, Machine(9, "", "l", ["a"], ["b", ""], true)) == Machine(10, "", "l", ["a"], ["b", ""], true)
  {
    RunAtClose(input, Machine(9, "", "l", ["a"], ["b", ""], true));
    assert input[9] == ')';
  }

  /**
   * `(a(b c))`: the group is read while `a` is still pending in the buffer, so
   * it is pushed to the prefix; the form closes before any blank follows `a`
   * (the blank inside the group is never read by the loop), so no label is set
   * and the form fails with "Missing label".
   */
  lemma GroupBeforeLabel()
    ensures Parse(GroupBeforeLabelText) == Err(MissingLabel)
  {
    GroupBeforeLabelPart1(GroupBeforeLabelText);
    assert Run(GroupBeforeLabelText, Start) == Machine(8, "", "", ["(b c)"], ["a"], false);
  }

  lemma GroupBeforeLabelPart1(input: string)
    requires input == GroupBeforeLabelText
    ensures Run(input, Machine(1, "", "", [], [], false)) == Machine(8, "", "", ["(b c)"], ["a"], false)
  {
    GroupBeforeLabelTurn1(input);
    GroupBeforeLabelTurn2(input);
    GroupBeforeLabelTurn7(input);
    TwoTurns(input, Machine(1, "", "", [], [], false), Machine(2, "a", "", [], [], false), Machine(7, "a", "", ["(b c)"], [], false));
  }

  lemma GroupBeforeLabelTurn1(input: string)
    requires input == GroupBeforeLabelText
    ensures Step(input, Machine(1, "", "", [], [], false)) == Machine(2, "a", "", [], [], false)
  {
    assert input[1] == 'a';
  }

  lemma GroupBeforeLabelTurn2(input: string)
    requires input == GroupBeforeLabelText
    ensures Step(input, Machine(2, "a", "", [], [], false)) == Machine(7, "a", "", ["(b c)"], [], false)
  {
    assert input[2] == '(';
    GroupBeforeLabelScanAt2(input);
  }

  lemma GroupBeforeLabelTurn7(input: string)
    requires input == GroupBeforeLabelText
    ensures Run(input, Machine(7, "a", "", ["(b c)"], [], false)) == Machine(8, "", "", ["(b c)"], ["a"], false)
  {
    RunAtClose(input, Machine(7, "a", "", ["(b c)"], [], false));
    assert input[7] == ')';
    TrimTrimmed("a");
  }

  /** The scanner run from the `(` at 2, read back from the `)` that closes it. */
  lemma GroupBeforeLabelScanAt2(input: string)
    requires input == GroupBeforeLabelText
    ensures Scan(input, 2) == ("(b c)", 7)
  {
    assert FindClose(input, 6, 1) == 7;
    assert FindClose(input, 5, 1) == 7;
    assert FindClose(input, 4, 1) == 7;
    assert FindClose(input, 3, 1) == 7;
    assert FindClose(input, 2, 0) == 7;
    assert input[2..7] == "(b c)";
  }

  /**
   * `(a(b c) d)`: the group is pushed while `a` is still pending in the buffer;
   * the blank after the group then ends the word `a`, which becomes the label,
   * and `d` is the one instruction.
   */
  lemma GroupThenLabel()
    ensures Parse(GroupThenLabelText) == Ok(Tagged("a", [Str("(b c)")], [Str("d")]))
  {
    GroupThenLabelPart1(GroupThenLabelText);
    GroupThenLabelPart2(GroupThenLabelText);
    assert Run(GroupThenLabelText, Start) == Machine(10, "", "a", ["(b c)"], ["d"], false);
    assert Strs(["(b c)"]) == [Str("(b c)")];
    assert Strs(["d"]) == [Str("d")];
  }

  lemma GroupThenLabelPart1(input: string)
    requires input == GroupThenLabelText
    ensures Run(input, Machine(1, "", "", [], [], false)) == Run(input, Machine(9, "d", "a", ["(b c)"], [], false))
  {
    GroupThenLabelTurn1(input);
    GroupThenLabelTurn2(input);
    GroupThenLabelTurn7(input);
    GroupThenLabelTurn8(input);
    FourTurns(input, Machine(1, "", "", [], [], false), Machine(2, "a", "", [], [], false), Machine(7, "a", "", ["(b c)"], [], false), Machine(8, "", "a", ["(b c)"], [], false), Machine(9, "d", "a", ["(b c)"], [], false));
  }

  lemma GroupThenLabelPart2(input: string)
    requires input == GroupThenLabelText
    ensures Run(input, Machine(9, "d", "a", ["(b c)"], [], false)) == Machine(10, "", "a", ["(b c)"], ["d"], false)
  {
    GroupThenLabelTurn9(input);
  }

  lemma GroupThenLabelTurn1(input: string)
    requires input == GroupThenLabelText
    ensures Step(input, Machine(1, "", "", [], [], false)) == Machine(2, "a", "", [], [], false)
  {
    assert input[1] == 'a';
  }

  lemma GroupThenLabelTurn2(input: string)
    requires input == GroupThenLabelText
    ensures Step(input, Machine(2, "a", "", [], [], false)) == Machine(7, "a", "", ["(b c)"], [], false)
  {
    assert input[2] == '(';
    GroupThenLabelScanAt2(input);
  }

  lemma GroupThenLabelTurn7(input: string)
    requires input == GroupThenLabelText
    ensures Step(input, Machine(7, "a", "", ["(b c)"], [], false)) == Machine(8, "", "a", ["(b c)"], [], false)
  {
    assert input[7] == ' ';
  }

  lemma GroupThenLabelTurn8(input: string)
    requires input == GroupThenLabelText
    ensures Step(input, Machine(8, "", "a", ["(b c)"], [], false)) == Machine(9, "d", "a", ["(b c)"], [], false)
  {
    assert input[8] == 'd';
  }

  lemma GroupThenLabelTurn9(input: string)
    requires input == GroupThenLabelText
    ensures Run(input, Machine(9, "d", "a", ["(b c)"], [], false)) == Machine(10, "", "a", ["(b c)"], ["d"], false)
  {
    RunAtClose(input, Machine(9, "d", "a", ["(b c)"], [], false));
    assert input[9] == ')';
    TrimTrimmed("d");
  }

  /** The scanner run from the `(` at 2, read back from the `)` that closes it. */
  lemma GroupThenLabelScanAt2(input: string)
    requires input == GroupThenLabelText
    ensures Scan(input, 2) == ("(b c)", 7)
  {
    assert FindClose(input, 6, 1) == 7;
    assert FindClose(input, 5, 1) == 7;
    assert FindClose(input, 4, 1) == 7;
    assert FindClose(input, 3, 1) == 7;
    assert FindClose(input, 2, 0) == 7;
    assert input[2..7] == "(b c)";
  }
}
