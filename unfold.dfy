/**
 * The function-unfolding pass `unfold_funcs`: every raw prefix entry that starts
 * with `(func ` is re-parsed and unfolded in turn into a nested `ToT::Tagged`.
 */
module Unfold {
  import opened Text
  import opened Tree
  import opened Parser
  import opened ParserFacts

  const FuncMarker: string := "(func "

  /** An entry the pass re-parses: raw text starting with `(func `. */
  predicate IsFuncText(p: ToT) {
    p.Str? && StartsWith(p.s, FuncMarker)
  }

  /** The length of a raw entry; nested forms count 0 since the pass never re-parses them. */
  function EntryLen(p: ToT): nat {
    if p.Str? then |p.s| else 0
  }

  /** The longest raw entry of `ps`: the termination measure of the pass. */
  function MaxLen(ps: seq<ToT>): (n: nat)
    ensures forall k :: 0 <= k < |ps| ==> EntryLen(ps[k]) <= n
  {
    if ps == [] then 0
    else
      var rest := MaxLen(ps[1..]);
      if EntryLen(ps[0]) < rest then rest else EntryLen(ps[0])
  }

  lemma {:induction false} MaxLenBelow(ps: seq<ToT>, bound: nat)
    requires 0 < bound && forall k :: 0 <= k < |ps| ==> EntryLen(ps[k]) < bound
    ensures MaxLen(ps) < bound
  {
    if ps != [] {
      MaxLenBelow(ps[1..], bound);
    }
  }

  /**
   * Re-parsing is safe: any text starting with `(func ` parses, with label
   * `func`, into raw entries that are all strictly shorter than the text. So
   * the `unwrap` never panics and the recursion terminates.
   */
  lemma ReparseFunc(s: string)
    requires StartsWith(s, FuncMarker)
    ensures Parse(s).Ok? && Parse(s).value.name == "func"
    ensures AllStr(Parse(s).value.prefix) && MaxLen(Parse(s).value.prefix) < |s|
  {
    assert s[..6] == "(func ";
    assert s[1..5] == "func";
    FirstWordIsLabel(s, 1, 5);
    ParseEntriesShorter(s);
    MaxLenBelow(Parse(s).value.prefix, |s|);
  }

  /** What `unfold_funcs(x)` returns. */
  function Unfold(x: Tagged): (r: Tagged)
    ensures r.name == x.name && r.instructions == x.instructions
    ensures |r.prefix| == |x.prefix| && forall k :: 0 <= k < |x.prefix| ==> r.prefix[k] == UnfoldEntry(x.prefix[k])
    decreases MaxLen(x.prefix), 2, |x.prefix|
  {
    Tagged(x.name, UnfoldPrefix(x.prefix), x.instructions)
  }

  /** The `for p in x.prefix` loop: each entry unfolded, in order. */
  function UnfoldPrefix(ps: seq<ToT>): (r: seq<ToT>)
    ensures |r| == |ps| && forall k :: 0 <= k < |ps| ==> r[k] == UnfoldEntry(ps[k])
    decreases MaxLen(ps), 1, |ps|
  {
    if ps == [] then [] else [UnfoldEntry(ps[0])] + UnfoldPrefix(ps[1..])
  }

  /**
   * One prefix entry: raw `(func ` text becomes the unfolded parse of that text,
   * labelled `func`; every other entry is carried over unchanged.
   */
  function UnfoldEntry(p: ToT): (r: ToT)
    ensures IsFuncText(p) ==> r.Tag? && r.t.name == "func"
    ensures !IsFuncText(p) ==> r == p
    decreases EntryLen(p), 0, 0
  {
    match p
    case Str(s) =>
      if StartsWith(s, FuncMarker) then
        ReparseFunc(s);
        Tag(Unfold(Parse(s).value))
      else p
    case Tag(_) => p
  }

  /** `unfold_funcs`: the loop pushing into `new_prefix`, with its recursive call. */
  method UnfoldFuncs(x: Tagged) returns (r: Tagged)
    ensures r == Unfold(x)
    decreases MaxLen(x.prefix)
  {
    var newPrefix: seq<ToT> := [];
    for i := 0 to |x.prefix|
      invariant |newPrefix| == i
      invariant forall k :: 0 <= k < i ==> newPrefix[k] == UnfoldEntry(x.prefix[k])
    {
      match x.prefix[i] {
        case Str(s) =>
          if StartsWith(s, FuncMarker) {
            var res := ParseTagged(s);
            ReparseFunc(s);
            var func := res.value;
            var unfolded := UnfoldFuncs(func);
            newPrefix := newPrefix + [Tag(unfolded)];
          } else {
            newPrefix := newPrefix + [Str(s)];
          }
        case Tag(t) =>
          newPrefix := newPrefix + [Tag(t)];
      }
    }
    r := Tagged(x.name, newPrefix, x.instructions);
  }

  /** After the pass no prefix entry is raw `(func ` text any more. */
  lemma UnfoldLeavesNoFuncText(x: Tagged)
    ensures forall k :: 0 <= k < |Unfold(x).prefix| ==> !IsFuncText(Unfold(x).prefix[k])
  {
  }

  /** Applying the pass twice is the same as applying it once. */
  lemma UnfoldIdempotent(x: Tagged)
    ensures Unfold(Unfold(x)) == Unfold(x)
  {
    var y := Unfold(x);
    UnfoldLeavesNoFuncText(x);
    assert UnfoldPrefix(y.prefix) == y.prefix;
  }

  /** No raw `(func ` text is left in the prefix lists at any depth of the tree. */
  ghost predicate FullyUnfolded(x: Tagged)
    decreases x
  {
    forall k :: 0 <= k < |x.prefix| ==>
      !IsFuncText(x.prefix[k]) && (x.prefix[k].Tag? ==> FullyUnfolded(x.prefix[k].t))
  }

  /**
   * A tree whose prefix holds only raw text (as every parse result does) comes
   * out of the pass fully unfolded at every depth.
   */
  lemma {:induction false} UnfoldReachesEveryDepth(x: Tagged)
    requires AllStr(x.prefix)
    ensures FullyUnfolded(Unfold(x))
    decreases MaxLen(x.prefix)
  {
    var y := Unfold(x);
    forall k | 0 <= k < |y.prefix|
      ensures !IsFuncText(y.prefix[k]) && (y.prefix[k].Tag? ==> FullyUnfolded(y.prefix[k].t))
    {
      var p := x.prefix[k];
      if IsFuncText(p) {
        ReparseFunc(p.s);
        UnfoldReachesEveryDepth(Parse(p.s).value);
      }
    }
  }

  /** Every parse result unfolds to a fully unfolded tree with the same label and instructions. */
  lemma UnfoldParsed(input: string)
    requires Parse(input).Ok?
    ensures FullyUnfolded(Unfold(Parse(input).value))
    ensures Unfold(Parse(input).value).name == Parse(input).value.name
    ensures Unfold(Parse(input).value).instructions == Parse(input).value.instructions
  {
    UnfoldReachesEveryDepth(Parse(input).value);
  }
}
