/** Rendering a viewport for a prompt within a character budget: which parts are kept, how long
    the text gets, and when it overruns the budget it is said to be bounded by. */
module ViewportText {
  import opened Basics
  import opened CortexModel
  import opened CortexState

  datatype NodeLine = NodeLine(title: string, summary: Option<string>, status: string, kind: string, depth: nat)

  datatype View = View(current: NodeLine, children: seq<NodeLine>, breadcrumb: seq<string>)

  const HEADER := "## Children"
  const LEAF := "## Children\n  (leaf node — no children)"
  const HEADROOM: nat := 256

  function Budget(maxChars: int): nat {
    Max(256, maxChars)
  }

  function SummaryText(summary: Option<string>): string {
    if Truthy(summary) then summary.value else "(no summary)"
  }

  function CurrentBlock(n: NodeLine): string {
    Join("", ["## Current Node: ", n.title, "\nType: ", n.kind, " | Status: ", n.status, " | Depth: ", Digits(n.depth),
              "\nSummary: ", SummaryText(n.summary)])
  }

  function Crumb(trail: seq<string>): string {
    Join("\n", ["## Navigation Path", Join(" → ", trail)])
  }

  function Line(i: nat, child: NodeLine): string {
    Join("", ["  [", Digits(i + 1), "] ", child.title, " (", child.kind, ", ", child.status, ") — ",
              SummaryText(child.summary)])
  }

  function Lines(children: seq<NodeLine>): seq<string> {
    seq(|children|, i requires 0 <= i < |children| => Line(i, children[i]))
  }

  function Notice(more: nat): string {
    Join("", ["  …(", Digits(more), " more children)"])
  }

  function Total(parts: seq<string>): nat {
    if parts == [] then 0 else |parts[0]| + Total(parts[1..])
  }

  /** `_fits`. */
  predicate Fits(parts: seq<string>, s: string, budget: nat) {
    Total(parts) + |s| + 2 * |parts| <= budget
  }

  // ------------------------------------------------------------------
  // What is rendered
  // ------------------------------------------------------------------

  /** The header and the first k lines, each with a line break. */
  function Running(lines: seq<string>, k: nat): nat
    requires k <= |lines|
  {
    if k == 0 then |HEADER| else Running(lines, k - 1) + |lines[k - 1]| + 1
  }

  predicate LineFits(used: nat, lines: seq<string>, k: nat, headroom: nat, budget: nat)
    requires k < |lines|
  {
    used + Running(lines, k) + |lines[k]| + headroom <= budget
  }

  /** The longest prefix of lines that all fit. */
  ghost predicate LongestPrefix(used: nat, lines: seq<string>, headroom: nat, budget: nat, k: nat) {
    && k <= |lines|
    && (forall j :: 0 <= j < k ==> LineFits(used, lines, j, headroom, budget))
    && (k < |lines| ==> !LineFits(used, lines, k, headroom, budget))
  }

  function Shown(used: nat, lines: seq<string>, headroom: nat, budget: nat): (k: nat)
    ensures LongestPrefix(used, lines, headroom, budget, k)
  {
    ShownFrom(used, lines, headroom, budget, 0)
  }

  function ShownFrom(used: nat, lines: seq<string>, headroom: nat, budget: nat, from: nat): (k: nat)
    requires from <= |lines| && forall j :: 0 <= j < from ==> LineFits(used, lines, j, headroom, budget)
    ensures LongestPrefix(used, lines, headroom, budget, k)
    decreases |lines| - from
  {
    if from < |lines| && LineFits(used, lines, from, headroom, budget)
    then ShownFrom(used, lines, headroom, budget, from + 1)
    else from
  }

  /** The longest prefix is determined by the lines. */
  lemma {:induction false} OneLongestPrefix(used: nat, lines: seq<string>, headroom: nat, budget: nat, k: nat)
    requires LongestPrefix(used, lines, headroom, budget, k)
    ensures k == Shown(used, lines, headroom, budget)
  {
  }

  /** Those lines; the first one is shown cut if it does not fit, and a notice counts the rest. */
  function ChildLines(lines: seq<string>, budget: nat, k: nat): seq<string>
    requires k <= |lines|
  {
    if k == |lines| then lines
    else if k == 0 then [Cut(lines[0], budget), Notice(|lines|)]
    else lines[..k] + [Notice(|lines| - k)]
  }

  function Cut(line: string, budget: nat): string {
    Prefix(line, Max(80, budget / 4))
  }

  function ChildBlock(lines: seq<string>, budget: nat, k: nat): string
    requires k <= |lines|
  {
    Join("\n", [HEADER, Join("\n", ChildLines(lines, budget, k))])
  }

  function Head(view: View, budget: nat): seq<string> {
    var first := [CurrentBlock(view.current)];
    if view.breadcrumb != [] && Fits(first, Crumb(view.breadcrumb), budget)
    then first + [Crumb(view.breadcrumb)]
    else first
  }

  /** The parts about the node itself and its children, when the first k children are listed. */
  function Body(view: View, budget: nat, k: nat): seq<string>
    requires k <= |view.children|
  {
    var head := Head(view, budget);
    if view.children != [] then head + [ChildBlock(Lines(view.children), budget, k)]
    else if Fits(head, LEAF, budget) then head + [LEAF]
    else head
  }

  function AddHelp(body: seq<string>, help: Option<string>, budget: nat): seq<string> {
    if help.Some? && Fits(body, help.value, budget) then body + [help.value] else body
  }

  function Parts(view: View, budget: nat, k: nat, help: Option<string>): seq<string>
    requires k <= |view.children|
  {
    AddHelp(Body(view, budget, k), help, budget)
  }

  function Rendered(view: View, help: Option<string>, budget: nat): string {
    Join("\n\n", Parts(view, budget, Listed(view, help, budget), help))
  }

  /** How many children are listed. */
  function Listed(view: View, help: Option<string>, budget: nat): (k: nat)
    ensures k <= |view.children|
  {
    Shown(Total(Head(view, budget)), Lines(view.children), Spare(help), budget)
  }

  function Spare(help: Option<string>): nat {
    if help.Some? then HEADROOM else 0
  }

  /** The loop over the children, on their rendered lines. */
  method ListChildren(used: nat, lines: seq<string>, headroom: nat, budget: nat)
    returns (childLines: seq<string>)
    ensures childLines == ChildLines(lines, budget, Shown(used, lines, headroom, budget))
  {
    childLines := [];
    var running := |HEADER|;
    for i := 0 to |lines|
      invariant running == Running(lines, i) && childLines == lines[..i]
      invariant forall j :: 0 <= j < i ==> LineFits(used, lines, j, headroom, budget)
    {
      var line := lines[i];
      if used + running + |line| + headroom > budget {
        if childLines == [] {
          childLines := childLines + [Cut(line, budget)];
        }
        childLines := childLines + [Notice(|lines| - i)];
        Stopped(lines, budget, i);
        OneLongestPrefix(used, lines, headroom, budget, i);
        return;
      }
      assert LineFits(used, lines, i, headroom, budget);
      childLines := childLines + [line];
      running := running + |line| + 1;
    }
    OneLongestPrefix(used, lines, headroom, budget, |lines|);
    assert lines[..|lines|] == lines;
  }

  lemma {:induction false} Stopped(lines: seq<string>, budget: nat, k: nat)
    requires k < |lines|
    ensures ChildLines(lines, budget, k) ==
            (if lines[..k] == [] then lines[..k] + [Cut(lines[k], budget)] else lines[..k]) + [Notice(|lines| - k)]
  {
    assert lines[..k] == [] <==> k == 0;
    if k == 0 {
      assert lines[..0] + [Cut(lines[0], budget)] == [Cut(lines[0], budget)];
    }
  }

  /** `to_prompt_text`; `help` is the operations text if it was asked for. */
  method ToPromptText(view: View, help: Option<string>, maxChars: int) returns (text: string)
    ensures text == Rendered(view, help, if maxChars < 256 then 256 else maxChars)
  {
    var budget := Budget(maxChars);
    var parts := [CurrentBlock(view.current)];
    if view.breadcrumb != [] {
      var crumb := Crumb(view.breadcrumb);
      if Fits(parts, crumb, budget) {
        parts := parts + [crumb];
      }
    }
    if view.children != [] {
      var childLines := ListChildren(Total(parts), Lines(view.children), Spare(help), budget);
      parts := parts + [Join("\n", [HEADER, Join("\n", childLines)])];
    } else {
      if Fits(parts, LEAF, budget) {
        parts := parts + [LEAF];
      }
    }
    if help.Some? && Fits(parts, help.value, budget) {
      parts := parts + [help.value];
    }
    text := Join("\n\n", parts);
  }

  // ------------------------------------------------------------------
  // What it says
  // ------------------------------------------------------------------

  /** The pieces of the block about a node, and of a child's line. */
  lemma {:induction false} NodeReads(n: NodeLine, i: nat)
    ensures var summary := if n.summary == None || n.summary == Some("") then "(no summary)" else n.summary.value;
            && LaidOut(CurrentBlock(n), "",
                       ["## Current Node: ", n.title, "\nType: ", n.kind, " | Status: ", n.status, " | Depth: ",
                        Digits(n.depth), "\nSummary: ", summary])
            && LaidOut(Line(i, n), "",
                       ["  [", Digits(i + 1), "] ", n.title, " (", n.kind, ", ", n.status, ") — ", summary])
  {
    JoinLaysOut("", ["## Current Node: ", n.title, "\nType: ", n.kind, " | Status: ", n.status, " | Depth: ",
                     Digits(n.depth), "\nSummary: ", SummaryText(n.summary)]);
    JoinLaysOut("", ["  [", Digits(i + 1), "] ", n.title, " (", n.kind, ", ", n.status, ") — ",
                     SummaryText(n.summary)]);
  }

  /** The way to the node, and the notice about children that are not listed. */
  lemma {:induction false} CrumbReads(trail: seq<string>, more: nat) returns (way: string)
    ensures LaidOut(way, " → ", trail) && LaidOut(Crumb(trail), "\n", ["## Navigation Path", way])
    ensures LaidOut(Notice(more), "", ["  …(", Digits(more), " more children)"])
  {
    way := Join(" → ", trail);
    JoinLaysOut(" → ", trail);
    JoinLaysOut("\n", ["## Navigation Path", way]);
    JoinLaysOut("", ["  …(", Digits(more), " more children)"]);
  }

  /** What the block of children shows of their lines: the first k, in order, and behind them a notice
      with the number of the others; but if not even the first one fits, a piece of it. */
  ghost predicate ShowsLines(lines: seq<string>, budget: nat, k: nat, shown: seq<string>)
    requires k <= |lines|
  {
    if k == |lines| then shown == lines
    else
      && |shown| == (if k == 0 then 2 else k + 1)
      && (forall i :: 0 <= i < k ==> shown[i] == lines[i])
      && shown[|shown| - 1] == Notice(|lines| - k)
      && (k == 0 ==>
            && shown[0] <= lines[0]
            && |shown[0]| == Least(|lines[0]|, if budget / 4 < 80 then 80 else budget / 4))
  }

  function Least(a: int, b: int): int {
    if a < b then a else b
  }

  lemma {:induction false} BlockReads(lines: seq<string>, budget: nat, k: nat)
    returns (text: string, shown: seq<string>)
    requires k <= |lines|
    ensures ShowsLines(lines, budget, k, shown) && LaidOut(text, "\n", shown)
    ensures LaidOut(ChildBlock(lines, budget, k), "\n", ["## Children", text])
  {
    shown := ChildLines(lines, budget, k);
    LinesShown(lines, budget, k);
    text := Join("\n", shown);
    JoinLaysOut("\n", shown);
    JoinLaysOut("\n", [HEADER, text]);
  }

  lemma {:induction false} LinesShown(lines: seq<string>, budget: nat, k: nat)
    requires k <= |lines|
    ensures ShowsLines(lines, budget, k, ChildLines(lines, budget, k))
  {
    if lines != [] {
      CutIsStart(lines[0], budget);
    }
  }

  lemma {:induction false} CutIsStart(line: string, budget: nat)
    ensures Cut(line, budget) <= line
    ensures |Cut(line, budget)| == Least(|line|, if budget / 4 < 80 then 80 else budget / 4)
  {
  }

  /** The parts of the text: the node, the way to it if that fits, the children or the mark of a leaf
      if that fits, and the help if it was asked for and fits. */
  ghost predicate HasParts(view: View, help: Option<string>, budget: nat, k: nat, parts: seq<string>)
    requires k <= |view.children|
  {
    var first, crumb := CurrentBlock(view.current), Crumb(view.breadcrumb);
    var head := if view.breadcrumb != [] && Held([first, crumb], budget) then [first, crumb] else [first];
    var leaf := "## Children\n  (leaf node — no children)";
    var body := if view.children != [] then head + [ChildBlock(Lines(view.children), budget, k)]
                else if Held(head + [leaf], budget) then head + [leaf] else head;
    parts == if help.Some? && Held(body + [help.value], budget) then body + [help.value] else body
  }

  lemma {:induction false} HeadHeld(view: View, budget: nat)
    ensures var first, crumb := CurrentBlock(view.current), Crumb(view.breadcrumb);
            Head(view, budget)
              == if view.breadcrumb != [] && Held([first, crumb], budget) then [first, crumb] else [first]
  {
    var first := [CurrentBlock(view.current)];
    assert first + [Crumb(view.breadcrumb)] == [CurrentBlock(view.current), Crumb(view.breadcrumb)];
    FitsIff(first, Crumb(view.breadcrumb), budget);
  }

  predicate Held(parts: seq<string>, budget: nat) {
    |Join("\n\n", parts)| <= budget
  }

  /** Blank lines between these parts, and nothing else. */
  lemma {:induction false} TextReads(view: View, help: Option<string>, budget: nat) returns (k: nat, parts: seq<string>)
    ensures k <= |view.children| && HasParts(view, help, budget, k, parts)
    ensures LaidOut(Rendered(view, help, budget), "\n\n", parts)
    ensures forall i :: 0 <= i < |view.children| ==> Lines(view.children)[i] == Line(i, view.children[i])
    ensures |Lines(view.children)| == |view.children|
    ensures LongestPrefix(Total(Head(view, budget)), Lines(view.children), if help.Some? then 256 else 0, budget, k)
  {
    k := Listed(view, help, budget);
    parts := Parts(view, budget, k, help);
    JoinLaysOut("\n\n", parts);
    HeadHeld(view, budget);
    FitsIff(Head(view, budget), LEAF, budget);
    if help.Some? {
      FitsIff(Body(view, budget, k), help.value, budget);
    }
  }

  // ------------------------------------------------------------------
  // How long it gets
  // ------------------------------------------------------------------

  lemma {:induction false} JoinLength(sep: string, parts: seq<string>)
    ensures parts != [] ==> |Join(sep, parts)| == Total(parts) + |sep| * (|parts| - 1)
  {
    if |parts| > 1 {
      JoinLength(sep, parts[1..]);
      assert |sep| * (|parts| - 1) == |sep| * (|parts| - 2) + |sep|;
    } else if |parts| == 1 {
      assert Total(parts[1..]) == 0;
    }
  }

  lemma {:induction false} TotalAppend(parts: seq<string>, s: string)
    ensures Total(parts + [s]) == Total(parts) + |s|
  {
    if parts == [] {
      assert [s][1..] == [];
    } else {
      assert (parts + [s])[1..] == parts[1..] + [s];
      TotalAppend(parts[1..], s);
    }
  }

  /** The fitting test is exact: a part passes it just when the text with it is within budget. */
  lemma {:induction false} FitsIff(parts: seq<string>, s: string, budget: nat)
    requires parts != []
    ensures Fits(parts, s, budget) <==> |Join("\n\n", parts + [s])| <= budget
    ensures |Join("\n\n", parts + [s])| == Total(parts) + |s| + 2 * |parts|
  {
    JoinLength("\n\n", parts + [s]);
    TotalAppend(parts, s);
  }

  lemma {:induction false} RunningTotal(lines: seq<string>, k: nat)
    requires k <= |lines|
    ensures Running(lines, k) == |HEADER| + Total(lines[..k]) + k
  {
    if k > 0 {
      RunningTotal(lines, k - 1);
      assert lines[..k] == lines[..k - 1] + [lines[k - 1]];
      TotalAppend(lines[..k - 1], lines[k - 1]);
    }
  }

  /** The block of children, against the running count the loop keeps. */
  lemma {:induction false} BlockLength(lines: seq<string>, budget: nat, k: nat)
    requires lines != [] && k <= |lines|
    ensures |ChildBlock(lines, budget, k)| ==
            if k == |lines| then Running(lines, k)
            else if k == 0 then |HEADER| + |Cut(lines[0], budget)| + |Notice(|lines|)| + 2
            else Running(lines, k) + |Notice(|lines| - k)| + 1
  {
    var shown := ChildLines(lines, budget, k);
    TwoLines(HEADER, Join("\n", shown));
    JoinLength("\n", shown);
    RunningTotal(lines, k);
    if k == |lines| {
      assert lines[..k] == lines;
    } else if k == 0 {
      TotalAppend([Cut(lines[0], budget)], Notice(|lines|));
      TotalAppend([], Cut(lines[0], budget));
      assert shown == [Cut(lines[0], budget)] + [Notice(|lines|)];
      assert [] + [Cut(lines[0], budget)] == [Cut(lines[0], budget)];
    } else {
      TotalAppend(lines[..k], Notice(|lines| - k));
    }
  }

  lemma {:induction false} TwoLines(a: string, b: string)
    ensures |Join("\n", [a, b])| == |a| + |b| + 1
  {
    assert [a, b][1..] == [b];
  }

  lemma {:induction false} HeadLength(view: View, budget: nat)
    ensures var head := Head(view, budget);
            && 1 <= |head| <= 2
            && (|head| == 1 ==> Total(head) == |CurrentBlock(view.current)|)
            && (|head| == 2 ==> Total(head) + 2 <= budget)
            && |Join("\n\n", head)| == Total(head) + 2 * (|head| - 1)
  {
    var first := [CurrentBlock(view.current)];
    TotalAppend([], CurrentBlock(view.current));
    assert [] + first == first;
    TotalAppend(first, Crumb(view.breadcrumb));
    JoinLength("\n\n", Head(view, budget));
  }

  /** The operations text never breaks a budget that was kept, nor mends one that was not. */
  lemma {:induction false} HelpIsSafe(body: seq<string>, help: Option<string>, budget: nat)
    requires body != []
    ensures |Join("\n\n", AddHelp(body, help, budget))| <= budget <==> |Join("\n\n", body)| <= budget
    ensures |Join("\n\n", body)| > budget ==> AddHelp(body, help, budget) == body
  {
    if help.Some? {
      FitsIff(body, help.value, budget);
      AtLeastFirst(body, help.value);
    }
  }

  lemma {:induction false} AtLeastFirst(parts: seq<string>, s: string)
    requires parts != []
    ensures |Join("\n\n", parts + [s])| >= |Join("\n\n", parts)|
  {
    JoinLength("\n\n", parts);
    FitsIff(parts, s, 0);
  }

  /** For a leaf the promise holds exactly when the current node's own block is within budget. */
  lemma {:induction false} LeafWithinBudgetIff(view: View, help: Option<string>, budget: nat)
    requires view.children == []
    ensures |Rendered(view, help, budget)| <= budget <==> |CurrentBlock(view.current)| <= budget
  {
    var head := Head(view, budget);
    HeadLength(view, budget);
    FitsIff(head, LEAF, budget);
    AtLeastFirst(head, LEAF);
    HelpIsSafe(Body(view, budget, 0), help, budget);
  }

  /** With children, the text is the head, the block of children and perhaps the help. */
  lemma {:induction false} RenderedIs(view: View, help: Option<string>, budget: nat)
    requires view.children != []
    ensures var head, lines, k := Head(view, budget), Lines(view.children), Listed(view, help, budget);
            && 1 <= |head| <= 2
            && LongestPrefix(Total(head), lines, Spare(help), budget, k)
            && Rendered(view, help, budget)
                 == Join("\n\n", AddHelp(head + [ChildBlock(lines, budget, k)], help, budget))
  {
  }

  /** The loop tests each line against the budget, but not the line breaks and blank lines around
      it. With all children listed the bound holds exactly when the last line would have passed
      the test with room for those, which the operations text's headroom always leaves. */
  lemma {:induction false} FullListWithinIff(head: seq<string>, lines: seq<string>, help: Option<string>, budget: nat)
    requires 1 <= |head| <= 2 && lines != [] && LongestPrefix(Total(head), lines, Spare(help), budget, |lines|)
    ensures |Join("\n\n", AddHelp(head + [ChildBlock(lines, budget, |lines|)], help, budget))| <= budget <==>
            help.Some? || LineFits(Total(head), lines, |lines| - 1, 1 + 2 * |head|, budget)
  {
    assert LineFits(Total(head), lines, |lines| - 1, Spare(help), budget);
    BlockLength(lines, budget, |lines|);
    BlockWithinIff(head, ChildBlock(lines, budget, |lines|), help, budget);
  }

  /** With some children left out it holds exactly when the last listed line would have passed
      with room for the notice as well. */
  lemma {:induction false} ShortListWithinIff(head: seq<string>, lines: seq<string>, help: Option<string>, budget: nat,
                                              k: nat)
    requires head != [] && 0 < k < |lines|
    ensures |Join("\n\n", AddHelp(head + [ChildBlock(lines, budget, k)], help, budget))| <= budget <==>
            LineFits(Total(head), lines, k - 1, 2 + |Notice(|lines| - k)| + 2 * |head|, budget)
  {
    BlockLength(lines, budget, k);
    BlockWithinIff(head, ChildBlock(lines, budget, k), help, budget);
  }

  /** When not even the first line passes, it is cut to a quarter of the budget or 80 characters,
      and what is left of it must fit beside the head and the notice. */
  lemma {:induction false} CutLineWithinIff(head: seq<string>, lines: seq<string>, help: Option<string>, budget: nat)
    requires head != [] && lines != []
    ensures var shown := if |lines[0]| <= Max(80, budget / 4) then |lines[0]| else Max(80, budget / 4);
            |Join("\n\n", AddHelp(head + [ChildBlock(lines, budget, 0)], help, budget))| <= budget <==>
            Total(head) + 2 * |head| + |HEADER| + shown + |Notice(|lines|)| + 2 <= budget
  {
    BlockLength(lines, budget, 0);
    BlockWithinIff(head, ChildBlock(lines, budget, 0), help, budget);
  }

  lemma {:induction false} BlockWithinIff(head: seq<string>, block: string, help: Option<string>, budget: nat)
    requires head != []
    ensures |Join("\n\n", AddHelp(head + [block], help, budget))| <= budget <==>
            Total(head) + |block| + 2 * |head| <= budget
  {
    FitsIff(head, block, budget);
    HelpIsSafe(head + [block], help, budget);
  }

  /** Without the operations text a full list overruns by at most 5 characters, a shortened one
      by its notice and 6 more; with it the headroom takes the overrun up. */
  lemma {:induction false} OverrunBounded(
    head: seq<string>, lines: seq<string>, help: Option<string>, budget: nat, k: nat)
    requires 1 <= |head| <= 2 && k > 0
    requires LongestPrefix(Total(head), lines, Spare(help), budget, k)
    ensures var length := |Join("\n\n", AddHelp(head + [ChildBlock(lines, budget, k)], help, budget))|;
            length <= budget
            || length + Spare(help) <= budget + if k == |lines| then 5 else 6 + |Notice(|lines| - k)|
  {
    BlockOverrun(Total(head), lines, Spare(help), budget, k);
    TextOverrun(head, ChildBlock(lines, budget, k), help, budget);
  }

  lemma {:induction false} TextOverrun(head: seq<string>, block: string, help: Option<string>, budget: nat)
    requires 1 <= |head| <= 2
    ensures var length := |Join("\n\n", AddHelp(head + [block], help, budget))|;
            length <= budget || length <= Total(head) + |block| + 4
  {
    FitsIff(head, block, budget);
    HelpIsSafe(head + [block], help, budget);
  }

  lemma {:induction false} BlockOverrun(used: nat, lines: seq<string>, headroom: nat, budget: nat, k: nat)
    requires LongestPrefix(used, lines, headroom, budget, k) && k > 0
    ensures used + |ChildBlock(lines, budget, k)| + headroom <=
            budget + if k == |lines| then 1 else 2 + |Notice(|lines| - k)|
  {
    BlockLength(lines, budget, k);
    assert LineFits(used, lines, k - 1, headroom, budget);
  }

  /** When not even the first child fits, its cut line is shown and the notice counts it again:
      lines and notice add up to all children exactly when the first line fits. */
  lemma {:induction false} CutChildCountedTwice(used: nat, lines: seq<string>, headroom: nat, budget: nat)
    requires Shown(used, lines, headroom, budget) < |lines|
    ensures var k := Shown(used, lines, headroom, budget);
            var shown := ChildLines(lines, budget, k);
            && |shown| > 1 && shown[|shown| - 1] == Notice(|lines| - k)
            && (|shown| - 1 + (|lines| - k) == |lines| <==> LineFits(used, lines, 0, headroom, budget))
  {
    var k := Shown(used, lines, headroom, budget);
    if k > 0 {
      assert LineFits(used, lines, 0, headroom, budget);
      assert |lines[..k]| == k;
    }
  }

  /** The promised bound fails even when everything fits: at the root of a tree with one child
      whose summary exactly fills the budget by the loop's count, the text is five characters
      longer than the budget. */
  lemma {:induction false} FullListOverruns(maxChars: int) returns (view: View)
    requires maxChars >= 256
    ensures view.current == ROOT && view.breadcrumb == [ROOT.title] && view.children != []
    ensures Listed(view, None, maxChars) == |view.children|
    ensures |Rendered(view, None, maxChars)| == maxChars + 5
  {
    RootParts();
    BareLine("y");
    var used := |CurrentBlock(ROOT)| + |Crumb([ROOT.title])| + |HEADER| + |Line(0, Found("y"))| - 1;
    var filling := seq(maxChars - used, _ => 'x');
    BareLine(filling);
    view := View(ROOT, [Found(filling)], [ROOT.title]);
    OneChild(view, Found(filling), maxChars);
  }

  /** The root of a tree for the task "a", as its record is shown, and a finding below it. */
  const ROOT := NodeLine("Task: a", Some("a"), "active", "root", 0)

  function Found(summary: string): NodeLine {
    NodeLine("b", Some(summary), "complete", "finding", 1)
  }

  lemma {:induction false} RootParts()
    ensures |CurrentBlock(ROOT)| <= 100 && |Crumb([ROOT.title])| == 26
  {
    assert Digits(0) == "0";
    TotalOfTen("## Current Node: ", "Task: a", "\nType: ", "root", " | Status: ", "active", " | Depth: ", "0",
               "\nSummary: ", "a");
    TwoLines("## Navigation Path", "Task: a");
  }

  lemma {:induction false} BareLine(summary: string)
    requires summary != ""
    ensures |Line(0, Found(summary))| == 30 + |summary|
  {
    assert Digits(1) == "1";
    TotalOfTen("  [", "1", "] ", "b", " (", "finding", ", ", "complete", ") — ", summary);
  }

  lemma {:induction false} TotalOfTen(a: string, b: string, c: string, d: string, e: string, f: string, g: string,
                                      h: string, i: string, j: string)
    ensures |Join("", [a, b, c, d, e, f, g, h, i, j])|
         == |a| + |b| + |c| + |d| + |e| + |f| + |g| + |h| + |i| + |j|
  {
    var five := [f, g, h, i, j];
    JoinLength("", [a, b, c, d, e] + five);
    assert [a, b, c, d, e] + five == [a, b, c, d, e, f, g, h, i, j];
    TotalBoth([a, b, c, d, e], five);
    TotalOfFive(a, b, c, d, e);
    TotalOfFive(f, g, h, i, j);
  }

  lemma {:induction false} TotalOfFive(a: string, b: string, c: string, d: string, e: string)
    ensures Total([a, b, c, d, e]) == |a| + |b| + |c| + |d| + |e|
  {
    assert [e][1..] == [] && Total([e]) == |e|;
    assert [d, e][1..] == [e] && Total([d, e]) == |d| + Total([e]);
    assert [c, d, e][1..] == [d, e] && Total([c, d, e]) == |c| + Total([d, e]);
    assert [b, c, d, e][1..] == [c, d, e] && Total([b, c, d, e]) == |b| + Total([c, d, e]);
    assert [a, b, c, d, e][1..] == [b, c, d, e];
  }

  lemma {:induction false} TotalBoth(a: seq<string>, b: seq<string>)
    ensures Total(a + b) == Total(a) + Total(b)
  {
    if a == [] {
      assert a + b == b;
    } else {
      assert (a + b)[1..] == a[1..] + b;
      TotalBoth(a[1..], b);
    }
  }

  lemma {:induction false} OneChild(view: View, child: NodeLine, budget: nat)
    requires view.children == [child] && view.breadcrumb != []
    requires |CurrentBlock(view.current)| + |Crumb(view.breadcrumb)| + |HEADER| + |Line(0, child)| == budget
    ensures Listed(view, None, budget) == 1
    ensures |Rendered(view, None, budget)| == budget + 5
  {
    var head, lines := Head(view, budget), Lines(view.children);
    TwoParts(view, budget);
    RenderedIs(view, None, budget);
    OneLine(Total(head), lines, budget);
    BlockLength(lines, budget, 1);
    FitsIff(head, ChildBlock(lines, budget, 1), budget);
  }

  lemma {:induction false} TwoParts(view: View, budget: nat)
    requires view.breadcrumb != [] && |CurrentBlock(view.current)| + |Crumb(view.breadcrumb)| + 2 <= budget
    ensures |Head(view, budget)| == 2
    ensures Total(Head(view, budget)) == |CurrentBlock(view.current)| + |Crumb(view.breadcrumb)|
  {
    var first := [CurrentBlock(view.current)];
    TotalAppend([], CurrentBlock(view.current));
    assert [] + first == first;
    TotalAppend(first, Crumb(view.breadcrumb));
  }

  lemma {:induction false} OneLine(used: nat, lines: seq<string>, budget: nat)
    requires |lines| == 1 && used + |HEADER| + |lines[0]| == budget
    ensures Shown(used, lines, 0, budget) == 1 && Running(lines, 1) == |HEADER| + |lines[0]| + 1
  {
    assert LineFits(used, lines, 0, 0, budget);
    OneLongestPrefix(used, lines, 0, budget, 1);
  }
}
