# A verified model of the wat-wrapper s-expression reader

`src/main.rs` reads one parenthesised, WAT-like form into a `Tagged` tree: a
label, a list of prefix entries and a list of instruction entries, each entry a
`ToT` (raw text or a nested `Tagged`). It has three parts, all modelled here:

- `parse_sexp`, a scanner that copies a balanced `(`…`)` group while counting
  depth (`scanner.dfy`, module `Scanner`);
- `parse_tagged`, a character-by-character state machine over a pending buffer,
  the label, the two entry lists and a one-way instruction-mode flag, which
  hands nested groups to the scanner and decides between prefix and
  instructions by looking ahead for any `(` (`parser.dfy`, module `Parser`;
  its properties in `parser_facts.dfy`, module `ParserFacts`, and
  `trailing.dfy`, module `Trailing`);
- `unfold_funcs`, which re-parses every raw prefix entry starting with
  `(func ` and unfolds it recursively into a nested `Tagged` (`unfold.dfy`,
  module `Unfold`).

`tree.dfy` (module `Tree`) holds `ToT`, `Tagged` and the parser's result type;
`text.dfy` (module `Text`) holds the character classes and `str::trim`;
`groups.dfy` (module `Groups`) follows the nested groups the loop reads from
the input into the prefix; `scenarios.dfy` (module `Scenarios`) runs the parser
on whole forms of a given shape, with the words left symbolic, and
`concrete.dfy` (module `Concrete`) runs it on a few literal forms, one turn of
the loop at a time.

Each loop of the source is an imperative method (`Scanner.ParseSexp`,
`Parser.ParseTagged` with `Parser.FlushAtBlank`, `Unfold.UnfoldFuncs`) proved
equal to a specification function (`Scanner.Scan`, `Parser.Parse`,
`Unfold.Unfold`), and the properties are proved about those functions. The
state of `parse_tagged` (`index`, `buf`, `label`, `prefix`, `instructions`,
`instr_mode`) is the record `Parser.Machine`; `label` is called `name` because
`label` is a Dafny keyword. One turn of the loop is `Parser.Step` (or
`Parser.Close` at the `)`), and the loop is `Parser.Run`. `Run` and `Close`
carry no contract of their own: where the loop stops is stated by
`ParserFacts.RunStops`, the `)` arm by `ParserFacts.CloseEndsLoop`, and the
invariant of the loop by `ParserFacts.RunKeepsGood`.

Behaviour of `src/main.rs` worth knowing:

- For `(func a b\ni32.add\nend\n)` the code gives prefix `["a"]` and
  instructions `["b", "i32.add", "end"]`, not prefix `["a", "b"]`. The second
  word after the label becomes an instruction because no `(` lies ahead when
  the newline after it is read (`Scenarios.LinesAfterPrefix`).
- For the same reason, the nested `(func x y\nz\n)` parses to prefix `["x"]`
  and instructions `["y", "z"]` (`Concrete.NestedFunc`), and
  `(block (func x y\nz\n)\ninstr\n)` unfolds to a `block` whose one prefix
  entry is that `func` tree (`Concrete.BlockWithFuncUnfolds`).
- Text after the closing `)` is not simply ignored. The lookahead
  `input[index..].contains('(')` reads to the end of the whole input, so a `(`
  after the form changes how the form's own words are classified
  (`Scenarios.LookaheadSeesTrailingText`). Trailing text without a `(` is
  ignored (`Trailing.TrailingInputIgnored`).
- `trim` also removes carriage return, vertical tab and form feed, but the
  parser splits only on space, tab and newline. A token made only of those
  characters trims to the empty string, so an entry can be empty: the `\r` of
  a CRLF blank line becomes an empty instruction
  (`Concrete.CarriageReturnLine`), and a lone `\r` word an empty prefix entry
  (`Concrete.CarriageReturnPrefix`). Entries are proved non-empty for input
  without those three characters (`ParserFacts.TokenOfBuffer`).
- A nested group read while the first word is still pending in the buffer is
  pushed to the prefix ahead of it. When the form closes (or the input ends)
  before a blank follows that word, no label is set and the form fails with
  "Missing label", as `(a(b c))` does (`Concrete.GroupBeforeLabel`). A blank
  after the group still ends the pending word and makes it the label:
  `(a(b c) d)` parses to label `a`, prefix `[(b c)]` and instructions `[d]`
  (`Concrete.GroupThenLabel`).
- `src/main.rs` holds no scope-normalisation (block/loop/end rewriting) pass,
  so none is modelled.

## Model

| member | source | states |
|---|---|---|
| Text.SkipSpace | src/main.rs:79 | the scan of `trim_start` stops at the first character that is not whitespace, or at the end, having passed only whitespace |
| Text.SkipSpaceBack | src/main.rs:79 | the scan of `trim_end` stops just after the last character that is not whitespace, or at the lower bound, having passed only whitespace |
| Text.Trim | src/main.rs:79 | the trimmed text has no leading or trailing whitespace, is no longer than the original, and keeps a first character that is not whitespace |
| Text.TrimSlice | src/main.rs:79 | the trimmed text is a contiguous slice of the original, and everything before and after that slice is whitespace |
| Text.TrimIdempotent | src/main.rs:79 | trimming an already trimmed text changes nothing |
| Text.TrimEmpty | src/main.rs:79 | trimming gives the empty string exactly when every character is whitespace |
| Text.TrimChars | src/main.rs:79 | every character of the trimmed text occurs in the original |
| Tree.Strs | src/main.rs:145-152 | wrapping the collected strings as `ToT::String` keeps their number and order, and every entry is raw text |
| Scanner.FindClose | src/main.rs:32-56 | the scan index never goes past the end, and it advances whenever input is left |
| Scanner.Scan | src/main.rs:27-57 | from a position inside the input, the scanner returns `input[start..next]` with `start < next <= len`; from the end or beyond, it returns the empty text and `start` |
| Scanner.ParseSexp | src/main.rs:27-57 | the loop over `index`, `level` and `buf` returns exactly `Scan(input, start)` |
| Scanner.ScanCapture | src/main.rs:32-56 | the capture runs up to the first point at which the text read so far closes (ends with `)` with equal counts), or up to the end of the input if there is none |
| Scanner.ScanBalanced | src/main.rs:27-57 | called at a `(` with a closing point ahead, the capture is one balanced group: it ends with `)`, holds equally many `(` and `)`, and every proper prefix has positive depth |
| Scanner.ScanUnbalanced | src/main.rs:32-56 | when nothing after `start` closes, the scanner returns the whole rest of the input and the input length, with no error |
| Parser.Flush | src/main.rs:78-81 | flushing appends exactly one entry, the trimmed buffer, when the buffer is non-empty, and leaves the list unchanged when it is empty |
| Parser.OnBlank | src/main.rs:84-124 | the whitespace arm does nothing while the buffer is empty; otherwise it pushes at most one entry, and that one is the trimmed buffer when it goes to the prefix; it keeps a set label, and in instruction mode it stays in that mode with the prefix unchanged |
| Parser.Step | src/main.rs:72-138 | one turn of the loop advances the index and never past the end of the input |
| Parser.Parse | src/main.rs:59-153 | "Expected opening parenthesis" exactly when the input is empty or does not start with `(`; any other error is "Missing label"; a success has a non-empty label and only `ToT::String` entries |
| Parser.FlushAtBlank | src/main.rs:84-124 | the imperative whitespace arm yields the same state as the specification `OnBlank` |
| Parser.ParseTagged | src/main.rs:59-153 | the loop mutating the buffer, label, lists and mode flag returns exactly `Parse(input)` |
| ParserFacts.TokenOfBuffer | src/main.rs:78-79 | a flushed buffer is a token: trimmed, free of parentheses, shorter than the input, and non-empty when the input holds no CR, VT or FF |
| ParserFacts.BlankWithEmptyBuffer | src/main.rs:84-85 | a space, tab or newline read while the buffer is empty only advances the index, so it never produces an entry |
| ParserFacts.OnBlankKeepsGood | src/main.rs:84-124 | the whitespace arm keeps the loop invariant and only extends the state |
| ParserFacts.CloseKeepsGood | src/main.rs:77-82 | the closing `)` keeps the loop invariant and only extends the state |
| ParserFacts.StepKeepsGood | src/main.rs:72-138 | every turn of the loop keeps the invariant and only extends the state: the label once set stays, the lists only grow, and instruction mode once on stays on with the prefix frozen |
| ParserFacts.RunKeepsGood | src/main.rs:72-139 | the invariant holds from the loop's start to its end (among others: the pending buffer never starts with whitespace, and in instruction mode no `(` lies ahead), and the run only extends the state |
| ParserFacts.RunStops | src/main.rs:72-82 | the loop `Parser.Run` never stops before where it started; it stops just past a `)` it has read, with the buffer empty, exactly when the run closes inside the input (`ParserFacts.ClosesWithin`), and at the end of the input otherwise |
| ParserFacts.CloseEndsLoop | src/main.rs:77-82 | at a `)` the loop (`Parser.Close`) ends one past it with the buffer flushed, trimmed, into the instructions, and label, prefix and mode unchanged |
| ParserFacts.ParseShape | src/main.rs:141-152 | a successful parse has a non-empty label free of space, tab, newline and parentheses; every prefix entry is raw text that is a trimmed token or a nested group captured verbatim by the scanner; every instruction entry is a trimmed token |
| ParserFacts.ParseEntriesShorter | src/main.rs:141-152 | every entry of a successful parse is strictly shorter than the input |
| ParserFacts.InstructionModeIsFinal | src/main.rs:96-111 | once instruction mode is on it stays on, and the prefix never changes again |
| ParserFacts.RunThroughWord | src/main.rs:135-137 | characters that are neither whitespace nor parentheses only extend the pending buffer |
| ParserFacts.RunThroughBlanks | src/main.rs:84-85 | whitespace read while the buffer is empty is skipped: the run goes on unchanged from the next other character |
| ParserFacts.ReadLabel | src/main.rs:84-88 | after any whitespace following `(`, the first word and the whitespace ending it, the word is the label, the buffer is empty and no entry exists |
| ParserFacts.FirstWordIsLabel | src/main.rs:84-88 | when the first word after `(` and any whitespace is ended by a space, tab or newline, the parse succeeds with that word as its label |
| ParserFacts.NoWordEndedIsMissingLabel | src/main.rs:72-143 | when the loop stops (at a `)` or at the end of the input) before any space, tab or newline has ended a word, and no nested group comes before, the parse fails with "Missing label": `()`, `( )`, `(func)` and an unterminated `(func` among them |
| ParserFacts.ReadFirstPrefix | src/main.rs:90-92 | with a label and no prefix yet, a word ended by whitespace becomes the only prefix entry, trimmed |
| ParserFacts.SecondWordIsFirstPrefix | src/main.rs:90-92 | after any whitespace, when no nested group precedes it, the second word of a form becomes the first prefix entry, trimmed, whatever the lookahead would say, and the first word is the label |
| ParserFacts.RunThroughLine | src/main.rs:113-119 | in instruction mode with a non-empty buffer, spaces, tabs and other non-newline characters outside parentheses only extend the buffer |
| ParserFacts.InstructionLine | src/main.rs:113-119 | in instruction mode each newline-terminated line becomes exactly one trimmed instruction entry |
| Groups.GroupStartsOrdered | src/main.rs:125-133 | the `(`s the loop reads come in increasing order and the groups captured from them never overlap |
| Groups.GroupStartsComplete | src/main.rs:125-133 | every `(` in the stretch the loop passes over is one it reads or lies inside a group captured from one |
| Groups.GroupStartsRead | src/main.rs:125-133 | every group the loop reads ends no later than where the loop stops |
| Groups.RunPushesGroups | src/main.rs:125-133 | the group entries the loop adds to the prefix are exactly the scanner's captures at the `(`s it reads, verbatim and in reading order; no token is group text |
| Groups.ParseGroupsInOrder | src/main.rs:125-152 | the `(`-entries of a successful parse are exactly the captures at the `(`s the loop reads, in input order, non-overlapping, all before the loop stops, and every `(` before that point is covered |
| Trailing.RunExtend | src/main.rs:72-133 | a run that closes inside the input ends in the same state when text without `(` is appended |
| Trailing.TrailingInputIgnored | src/main.rs:77-97 | once a form has been closed, trailing text without a `(` does not change the parse |
| Unfold.ReparseFunc | src/main.rs:162-165 | any text starting with `(func ` parses successfully with label `func` into raw prefix entries all shorter than the text, so the `unwrap` cannot panic and the recursion terminates |
| Unfold.UnfoldEntry | src/main.rs:159-170 | a raw `(func ` entry becomes a nested tree labelled `func`; every other entry is unchanged |
| Unfold.UnfoldPrefix | src/main.rs:158-172 | the prefix keeps its length and order, and each entry is unfolded on its own |
| Unfold.Unfold | src/main.rs:155-179 | label and instructions are unchanged, and the prefix keeps its length and order with each entry unfolded |
| Unfold.UnfoldFuncs | src/main.rs:155-179 | the loop pushing into `new_prefix`, with its recursive call, returns exactly `Unfold(x)` |
| Unfold.UnfoldLeavesNoFuncText | src/main.rs:158-172 | after the pass no prefix entry is raw `(func ` text |
| Unfold.UnfoldIdempotent | src/main.rs:155-179 | applying the pass twice gives the same tree as applying it once |
| Unfold.UnfoldReachesEveryDepth | src/main.rs:162-165 | a tree whose prefix is all raw text (every parse result) comes out with no raw `(func ` entry at any depth |
| Unfold.UnfoldParsed | src/main.rs:155-179 | unfolding any parse result gives a fully unfolded tree with the same label and instructions |
| Scenarios.NoOpeningParen | src/main.rs:67-69 | input that is empty or does not start with `(` fails with "Expected opening parenthesis" |
| Scenarios.EmptyForm | src/main.rs:72-143 | `()` and `(w)` for any word `w` fail with "Missing label" |
| Scenarios.FlushAtClose | src/main.rs:77-82 | `(l a)` parses to label `l`, no prefix and instructions `[a]`: the pending buffer is flushed into the instructions at `)` |
| Scenarios.LinesAfterPrefix | src/main.rs:96-119 | `(l a b\ni1\ni2\n)` parses to label `l`, prefix `[a]` and instructions `[b, i1, i2]` |
| Scenarios.LookaheadSeesTrailingText | src/main.rs:96-111 | `(l a b c)` followed by text `rest` parses to prefix `[a]` and instructions `[b c]` when `rest` holds no `(`, and to prefix `[a, b]` and instructions `[c]` when it does |
| Concrete.NestedFunc | src/main.rs:84-119 | `(func x y\nz\n)` parses to label `func`, prefix `[x]` and instructions `[y, z]` |
| Concrete.BlockWithFunc | src/main.rs:84-133 | `(block (func x y\nz\n)\ninstr\n)` parses to label `block`, the nested group verbatim as its only prefix entry, and instructions `[instr]` |
| Concrete.BlockWithFuncUnfolds | src/main.rs:155-179 | unfolding that parse turns the nested group into the `func` tree with prefix `[x]` and instructions `[y, z]` |
| Concrete.TwoGroups | src/main.rs:125-133 | `(l (a) (b c) w)` parses to prefix `[(a), (b c)]`, in input order, and instructions `[w]` |
| Concrete.CarriageReturnPrefix | src/main.rs:90-92 | `(l \r b)` parses to prefix `[""]` and instructions `[b]`: the lone `\r` trims to an empty entry |
| Concrete.CarriageReturnLine | src/main.rs:113-115 | `(l a b\n\r\n)` parses to prefix `[a]` and instructions `[b, ""]`: the `\r` of a CRLF blank line trims to an empty entry |
| Concrete.GroupBeforeLabel | src/main.rs:125-143 | `(a(b c))` fails with "Missing label": the group is pushed while `a` is still pending, the form closes before any blank follows `a`, and the group's own blank is never read by the loop |
| Concrete.GroupThenLabel | src/main.rs:84-143 | `(a(b c) d)` parses to label `a`, prefix `[(b c)]` and instructions `[d]`: the group is pushed while `a` is pending, and the blank after it still makes `a` the label |

## Left out

- `main` (src/main.rs:181-186): reading `./output.wat`, the `unwrap` on the
  file read, and printing are I/O and are not modelled.
- The `Display` impl (src/main.rs:17-25): it prints with Rust's `{:#?}` debug
  format, which this model does not describe; the tree itself is the result.
- Byte versus character indexing: the code bounds its loops by `input.len()`
  in bytes but reads characters with `chars().nth`, and slices by bytes in the
  lookahead. The model takes the input as a sequence of characters, which
  matches the code on ASCII input. The panics and misreadings possible on
  non-ASCII input are not modelled.
- `Text.Trim`: `str::trim` removes every Unicode whitespace character; the
  model removes only the ASCII ones (tab, line feed, vertical tab, form feed,
  carriage return, space).
- ParserFacts.NoWordEndedIsMissingLabel: covers only forms with no nested
  group before the loop stops, because a group read by the scanner makes the
  general statement depend on where the scanner stops. The group case is shown
  on two forms: `(a(b c))`, which fails (`Concrete.GroupBeforeLabel`), and
  `(a(b c) d)`, where a later blank makes `a` the label
  (`Concrete.GroupThenLabel`).
- ParserFacts.SecondWordIsFirstPrefix: covers only forms with no nested group
  before the second word. When a group comes first, the prefix is no longer
  empty and the second word goes through the lookahead arm
  (src/main.rs:96-111) instead. No general lemma states that case; the groups
  themselves are followed by `Groups.RunPushesGroups`.
- The quadratic cost of `chars().nth` is a performance matter and is not
  modelled.
