/**
 * The `(` arm of `parse_tagged`: every nested group the loop reads is handed to
 * the scanner and its capture is pushed, verbatim, onto the prefix, in the order
 * the groups occur in the input.
 */
module Groups {
  import opened Text
  import opened Tree
  import opened Scanner
  import opened Parser
  import opened ParserFacts

  /** Raw text a nested group produces: it starts with `(`, which no token does. */
  predicate IsGroupText(e: string) {
    e != [] && e[0] == '('
  }

  /** The nested-group entries of a prefix list, in order. */
  function GroupsOf(p: seq<string>): (r: seq<string>)
    ensures |r| <= |p|
    ensures forall k :: 0 <= k < |r| ==> IsGroupText(r[k])
  {
    if p == [] then []
    else GroupsOf(p[..|p| - 1]) + (if IsGroupText(p[|p| - 1]) then [p[|p| - 1]] else [])
  }

  lemma GroupsOfSnoc(p: seq<string>, e: string)
    ensures GroupsOf(p + [e]) == GroupsOf(p) + (if IsGroupText(e) then [e] else [])
  {
    assert (p + [e])[..|p|] == p;
  }

  /** The positions of the `(` that the loop reads from state `m` on, in reading order. */
  function GroupStarts(input: string, m: Machine): seq<nat>
    decreases |input| - m.index
  {
    if m.index >= |input| || input[m.index] == ')' then []
    else if input[m.index] == '(' then [m.index] + GroupStarts(input, Step(input, m))
    else GroupStarts(input, Step(input, m))
  }

  /** What the scanner captures at each of the positions `js`. */
  function Captures(input: string, js: seq<nat>): (r: seq<string>)
    ensures |r| == |js| && forall k :: 0 <= k < |js| ==> r[k] == Scan(input, js[k]).0
  {
    if js == [] then [] else [Scan(input, js[0]).0] + Captures(input, js[1..])
  }

  /**
   * `js` are positions of `(` from `lo` on, in increasing order and never
   * overlapping: each starts at or after the end of the previous capture.
   */
  ghost predicate Disjoint(input: string, lo: nat, js: seq<nat>) {
    && (forall i :: 0 <= i < |js| ==> lo <= js[i] < |input| && input[js[i]] == '(')
    && (forall i :: 0 <= i < |js| - 1 ==> Scan(input, js[i]).1 <= js[i + 1])
  }

  /** Every `(` from `lo` up to `hi` lies at one of `js` or inside the group captured there. */
  ghost predicate Covers(input: string, lo: nat, hi: nat, js: seq<nat>) {
    forall p :: lo <= p < hi && p < |input| && input[p] == '(' ==>
      exists i :: 0 <= i < |js| && js[i] <= p < Scan(input, js[i]).1
  }

  /** Each group captured at one of `js` ends at or before `hi`. */
  ghost predicate EndsBy(input: string, hi: nat, js: seq<nat>) {
    forall i :: 0 <= i < |js| ==> Scan(input, js[i]).1 <= hi
  }

  /** Every group the loop reads lies inside the stretch it passes over: none reaches past where the loop stops. */
  lemma {:induction false} GroupStartsRead(input: string, m: Machine)
    ensures EndsBy(input, Run(input, m).index, GroupStarts(input, m))
    decreases |input| - m.index
  {
    if m.index < |input| && input[m.index] != ')' {
      var m' := Step(input, m);
      GroupStartsRead(input, m');
      RunStep(input, m);
      GroupStartsStep(input, m);
      if input[m.index] == '(' {
        RunStops(input, m');
        var js := [m.index] + GroupStarts(input, m');
        forall i | 0 <= i < |js|
          ensures Scan(input, js[i]).1 <= Run(input, m).index
        {
          if i > 0 {
            assert js[i] == GroupStarts(input, m')[i - 1];
          }
        }
      }
    }
  }

  /** The `(`s the loop reads come in increasing order, and the groups captured from them never overlap. */
  lemma {:induction false} GroupStartsOrdered(input: string, m: Machine)
    ensures Disjoint(input, m.index, GroupStarts(input, m))
    decreases |input| - m.index
  {
    if m.index < |input| && input[m.index] != ')' {
      var m' := Step(input, m);
      var rest := GroupStarts(input, m');
      GroupStartsOrdered(input, m');
      if input[m.index] == '(' {
        var js := [m.index] + rest;
        assert GroupStarts(input, m) == js;
        assert m'.index == Scan(input, m.index).1;
        forall i | 0 <= i < |js| - 1
          ensures Scan(input, js[i]).1 <= js[i + 1]
        {
          if i > 0 {
            assert js[i] == rest[i - 1] && js[i + 1] == rest[i];
          } else {
            assert js[1] == rest[0];
          }
        }
        assert Disjoint(input, m.index, js);
      } else {
        assert GroupStarts(input, m) == rest;
      }
    }
  }

  /**
   * Every `(` in the stretch the loop passes over, up to where it stops, is
   * either one it reads and hands to the scanner, or lies inside the group
   * captured from one of those.
   */
  lemma {:induction false} GroupStartsComplete(input: string, m: Machine)
    ensures Covers(input, m.index, Run(input, m).index, GroupStarts(input, m))
    decreases |input| - m.index
  {
    if m.index < |input| && input[m.index] != ')' {
      var m' := Step(input, m);
      GroupStartsComplete(input, m');
      RunStep(input, m);
      GroupStartsStep(input, m);
      if input[m.index] == '(' {
        CoversGroup(input, m.index, Run(input, m').index, GroupStarts(input, m'));
      } else {
        assert m'.index == m.index + 1;
        CoversSkip(input, m.index, Run(input, m').index, GroupStarts(input, m'));
      }
    } else if m.index < |input| {
      assert Run(input, m).index == m.index + 1;
    }
  }

  /** Covering extends back over a character that is no `(`. */
  lemma CoversSkip(input: string, lo: nat, hi: nat, js: seq<nat>)
    requires Covers(input, lo + 1, hi, js) && (lo < |input| ==> input[lo] != '(')
    ensures Covers(input, lo, hi, js)
  {
  }

  /** Covering extends back over a group read from the `(` at `lo`. */
  lemma CoversGroup(input: string, lo: nat, hi: nat, rest: seq<nat>)
    requires Covers(input, Scan(input, lo).1, hi, rest)
    ensures Covers(input, lo, hi, [lo] + rest)
  {
    var js := [lo] + rest;
    var end := Scan(input, lo).1;
    assert js[0] == lo;
    assert forall i :: 0 <= i < |rest| ==> js[i + 1] == rest[i];
    forall p | lo <= p < hi && p < |input| && input[p] == '('
      ensures exists i :: 0 <= i < |js| && js[i] <= p < Scan(input, js[i]).1
    {
      if p >= end {
        var i :| 0 <= i < |rest| && rest[i] <= p < Scan(input, rest[i]).1;
        assert js[i + 1] == rest[i];
      }
    }
  }

  /** The `(` a turn of the loop reads, if any. */
  function ReadHere(input: string, m: Machine): (r: seq<nat>)
    requires m.index < |input|
    ensures input[m.index] == '(' <==> r == [m.index]
    ensures input[m.index] != '(' <==> r == []
  {
    if input[m.index] == '(' then [m.index] else []
  }

  lemma GroupStartsStep(input: string, m: Machine)
    requires m.index < |input| && input[m.index] != ')'
    ensures GroupStarts(input, m) == ReadHere(input, m) + GroupStarts(input, Step(input, m))
  {
  }

  lemma {:induction false} CapturesAppend(input: string, a: seq<nat>, b: seq<nat>)
    ensures Captures(input, a + b) == Captures(input, a) + Captures(input, b)
  {
    if a != [] {
      assert (a + b)[1..] == a[1..] + b;
      CapturesAppend(input, a[1..], b);
    }
  }

  /** The whitespace arm never pushes group text: a token it pushes comes from a buffer free of parentheses. */
  lemma BlankPushesNoGroup(input: string, m: Machine)
    requires m.index < |input| && IsBlank(input[m.index]) && ParenFree(m.buf)
    ensures GroupsOf(Step(input, m).prefix) == GroupsOf(m.prefix)
  {
    var r := OnBlank(input, m.(index := m.index + 1), input[m.index]);
    assert Step(input, m) == r;
    if r.prefix != m.prefix {
      var e := Trim(m.buf);
      if e != [] {
        TrimChars(m.buf);
        assert e[0] in m.buf;
      }
      GroupsOfSnoc(m.prefix, e);
    }
  }

  /** The `(` arm pushes the scanner's capture, which is group text. */
  lemma OpenPushesGroup(input: string, m: Machine)
    requires m.index < |input| && input[m.index] == '('
    ensures GroupsOf(Step(input, m).prefix) == GroupsOf(m.prefix) + [Scan(input, m.index).0]
  {
    var (sexp, next) := Scan(input, m.index);
    assert sexp[0] == '(';
    GroupsOfSnoc(m.prefix, sexp);
  }

  /** The catch-all arm only extends the buffer. */
  lemma WordPushesNothing(input: string, m: Machine)
    requires m.index < |input| && IsWordChar(input[m.index])
    ensures Step(input, m).prefix == m.prefix
  {
  }

  /** A turn of the loop pushes a group exactly when it reads a `(`, and then pushes that group's capture. */
  lemma StepPushesGroup(input: string, m: Machine)
    requires m.index < |input| && input[m.index] != ')' && ParenFree(m.buf)
    ensures GroupsOf(Step(input, m).prefix) == GroupsOf(m.prefix) + Captures(input, ReadHere(input, m))
  {
    var c := input[m.index];
    if IsBlank(c) {
      BlankPushesNoGroup(input, m);
    } else if c == '(' {
      OpenPushesGroup(input, m);
      assert Captures(input, [m.index]) == [Scan(input, m.index).0];
    } else {
      WordPushesNothing(input, m);
    }
  }

  /** Every group the loop reads is pushed to the prefix, verbatim and in reading order, and no other group entry appears. */
  lemma {:induction false} RunPushesGroups(input: string, m: Machine)
    requires Good(input, m)
    ensures GroupsOf(Run(input, m).prefix) == GroupsOf(m.prefix) + Captures(input, GroupStarts(input, m))
    decreases |input| - m.index
  {
    if m.index < |input| && input[m.index] != ')' {
      var m' := Step(input, m);
      var here := ReadHere(input, m);
      StepPushesGroup(input, m);
      StepKeepsGood(input, m);
      RunPushesGroups(input, m');
      GroupStartsStep(input, m);
      CapturesAppend(input, here, GroupStarts(input, m'));
      RunStep(input, m);
    } else {
      assert GroupStarts(input, m) == [];
      assert Run(input, m).prefix == m.prefix;
    }
  }

  /** The raw-text prefix entries of a parse that start with `(`. */
  function GroupEntries(ps: seq<ToT>): (r: seq<string>)
    ensures |r| <= |ps|
  {
    if ps == [] then []
    else
      var last := ps[|ps| - 1];
      GroupEntries(ps[..|ps| - 1]) + (if last.Str? && IsGroupText(last.s) then [last.s] else [])
  }

  lemma {:induction false} GroupEntriesOfStrs(ss: seq<string>)
    ensures GroupEntries(Strs(ss)) == GroupsOf(ss)
  {
    if ss != [] {
      var init := ss[..|ss| - 1];
      GroupEntriesOfStrs(init);
      assert Strs(ss)[..|ss| - 1] == Strs(init);
    }
  }

  /**
   * The nested-group entries of a successful parse are exactly the scanner's
   * captures at the `(`s the loop reads, in the order they occur in the input;
   * those captures never overlap and all end before the point where the loop
   * stops, and every `(` before that point is the start of one of them or lies
   * inside one.
   */
  lemma ParseGroupsInOrder(input: string)
    ensures Parse(input).Ok? ==>
      GroupEntries(Parse(input).value.prefix) == Captures(input, GroupStarts(input, Start))
    ensures Disjoint(input, 1, GroupStarts(input, Start))
    ensures Covers(input, 1, Run(input, Start).index, GroupStarts(input, Start))
    ensures EndsBy(input, Run(input, Start).index, GroupStarts(input, Start))
  {
    GroupStartsOrdered(input, Start);
    GroupStartsComplete(input, Start);
    GroupStartsRead(input, Start);
    if |input| > 0 && input[0] == '(' {
      var m := Run(input, Start);
      RunPushesGroups(input, Start);
      GroupEntriesOfStrs(m.prefix);
    }
  }
}
