/** The line patcher: context, removal and addition lines are matched greedily against a file. */
module PatchBroker {

  // ---- Text as lines ----

  /** The text cut at every line feed; never empty. */
  function Split(s: string): (lines: seq<string>)
    ensures |lines| >= 1
  {
    if s == "" then [""]
    else
      var rest := Split(s[1..]);
      if s[0] == '\n' then [""] + rest else [[s[0]] + rest[0]] + rest[1..]
  }

  function Join(lines: seq<string>): string {
    if lines == [] then ""
    else if |lines| == 1 then lines[0]
    else lines[0] + "\n" + Join(lines[1..])
  }

  predicate EndsWithNewline(s: string) {
    s != "" && s[|s| - 1] == '\n'
  }

  predicate OneLine(s: string) {
    '\n' !in s
  }

  predicate AllOneLine(lines: seq<string>) {
    forall i :: 0 <= i < |lines| ==> OneLine(lines[i])
  }

  /** The lines of a file: a final line feed does not start a further line. */
  function Lines(content: string): seq<string> {
    var all := Split(content);
    if all[|all| - 1] == "" then all[..|all| - 1] else all
  }

  /** A file of these lines, with the final line feed of `content`. */
  function Render(content: string, lines: seq<string>): string {
    Join(lines) + if EndsWithNewline(content) then "\n" else ""
  }

  lemma {:induction false} JoinPrepends(c: char, lines: seq<string>)
    requires lines != []
    ensures Join([[c] + lines[0]] + lines[1..]) == [c] + Join(lines)
  {
    var longer := [[c] + lines[0]] + lines[1..];
    assert longer[1..] == lines[1..];
    if |lines| > 1 {
      assert [c] + lines[0] + "\n" + Join(lines[1..]) == [c] + (lines[0] + "\n" + Join(lines[1..]));
    }
  }

  lemma {:induction false} SplitLosesNothing(s: string)
    ensures Join(Split(s)) == s && AllOneLine(Split(s))
  {
    if s != "" {
      var rest := Split(s[1..]);
      SplitLosesNothing(s[1..]);
      if s[0] == '\n' {
        assert ([""] + rest)[1..] == rest;
        assert s == "" + "\n" + s[1..];
      } else {
        JoinPrepends(s[0], rest);
        assert s == [s[0]] + s[1..];
        assert OneLine(rest[0]);
      }
    }
  }

  lemma {:induction false} SplitEnd(s: string)
    ensures Split(s)[|Split(s)| - 1] == "" <==> s == "" || EndsWithNewline(s)
  {
    if s != "" {
      SplitEnd(s[1..]);
      assert s[1..] == "" || s[1..][|s| - 2] == s[|s| - 1];
    }
  }

  lemma {:induction false} SplitOne(line: string)
    requires OneLine(line)
    ensures Split(line) == [line]
  {
    if line != "" {
      SplitOne(line[1..]);
      assert [line[0]] + line[1..] == line;
    }
  }

  lemma {:induction false} SplitFirst(line: string, rest: string)
    requires OneLine(line)
    ensures Split(line + "\n" + rest) == [line] + Split(rest)
  {
    var s := line + "\n" + rest;
    if line == "" {
      assert s[1..] == rest;
    } else {
      assert s[1..] == line[1..] + "\n" + rest;
      SplitFirst(line[1..], rest);
      var tail := [line[1..]] + Split(rest);
      assert [line[0]] + line[1..] == line && tail[1..] == Split(rest);
    }
  }

  lemma {:induction false} SplitUndoesJoin(lines: seq<string>)
    requires lines != [] && AllOneLine(lines)
    ensures Split(Join(lines)) == lines && Split(Join(lines) + "\n") == lines + [""]
  {
    var first := lines[0];
    assert OneLine(first);
    if |lines| == 1 {
      assert lines == [first] && [first] + [""] == lines + [""];
      SplitOne(first);
      SplitFirst(first, "");
      assert first + "\n" + "" == first + "\n";
    } else {
      var rest := lines[1..];
      SplitUndoesJoin(rest);
      SplitFirst(first, Join(rest));
      SplitFirst(first, Join(rest) + "\n");
      assert first + "\n" + (Join(rest) + "\n") == Join(lines) + "\n";
      assert [first] + (rest + [""]) == lines + [""] && [first] + rest == lines;
    }
  }

  /** Reading a file as lines and writing them back gives the file, for every text. */
  lemma RenderLines(content: string)
    ensures Render(content, Lines(content)) == content
  {
    SplitLosesNothing(content);
    SplitEnd(content);
    var all := Split(content);
    if all[|all| - 1] == "" {
      var kept := all[..|all| - 1];
      assert all == kept + [""];
      if kept == [] {
        assert Join(all) == "";
      } else {
        JoinLast(kept);
      }
    }
  }

  lemma {:induction false} JoinLast(kept: seq<string>)
    requires kept != []
    ensures Join(kept + [""]) == Join(kept) + "\n"
  {
    if |kept| == 1 {
      assert (kept + [""])[1..] == [""];
      assert kept[0] + "\n" + "" == kept[0] + "\n";
    } else {
      assert (kept + [""])[1..] == kept[1..] + [""];
      JoinLast(kept[1..]);
      assert kept[0] + "\n" + (Join(kept[1..]) + "\n") == kept[0] + "\n" + Join(kept[1..]) + "\n";
    }
  }

  /** What was written is read back as the same lines, except that an empty file keeps a final line
      feed, and that without one a last empty line is lost. */
  lemma LinesOfRender(content: string, lines: seq<string>)
    requires AllOneLine(lines)
    ensures Lines(Render(content, lines)) == lines <==>
      if EndsWithNewline(content) then lines != [] else lines == [] || lines[|lines| - 1] != ""
  {
    hide Split, Join;
    if lines == [] {
      LinesOfNothing(content);
    } else {
      SplitUndoesJoin(lines);
      assert Join(lines) + "" == Join(lines);
      assert (lines + [""])[..|lines|] == lines;
    }
  }

  lemma LinesOfNothing(content: string)
    ensures Lines(Render(content, [])) == if EndsWithNewline(content) then [""] else []
  {
    assert Split("\n"[1..]) == [""];
    assert "" + "\n" == "\n" && "" + "" == "";
    assert [""] + [""] == ["", ""];
  }

  // ---- Patches ----

  predicate Context(line: string) { line != "" && line[0] == ' ' }

  predicate Removal(line: string) { line != "" && line[0] == '-' }

  predicate Addition(line: string) { line != "" && line[0] == '+' }

  /** The old lines a patch names, in order. */
  function Anchors(patch: seq<string>): seq<string> {
    if patch == [] then []
    else (if Context(patch[0]) || Removal(patch[0]) then [patch[0][1..]] else []) + Anchors(patch[1..])
  }

  /** The lines a patch shows of the new file, in order. */
  function Shown(patch: seq<string>): seq<string> {
    if patch == [] then []
    else (if Context(patch[0]) || Addition(patch[0]) then [patch[0][1..]] else []) + Shown(patch[1..])
  }

  function Removals(patch: seq<string>): nat {
    if patch == [] then 0 else (if Removal(patch[0]) then 1 else 0) + Removals(patch[1..])
  }

  function Additions(patch: seq<string>): nat {
    if patch == [] then 0 else (if Addition(patch[0]) then 1 else 0) + Additions(patch[1..])
  }

  datatype Outcome = Applied(lines: seq<string>) | ContextNotFound(value: string) | RemovalNotFound(value: string)

  /** The first place at or after `start`, or the length when there is none. */
  function FirstAt(lines: seq<string>, value: string, start: nat): (at: nat)
    requires start <= |lines|
    ensures start <= at <= |lines| && value !in lines[start..at]
    ensures at < |lines| ==> lines[at] == value
    decreases |lines| - start
  {
    if start == |lines| || lines[start] == value then start
    else
      var at := FirstAt(lines, value, start + 1);
      assert lines[start..at] == [lines[start]] + lines[start + 1..at];
      at
  }

  function Prepend(lines: seq<string>, rest: Outcome): Outcome {
    if rest.Applied? then Applied(lines + rest.lines) else rest
  }

  /** What the patch makes of the old lines from `cursor` on. */
  function Update(before: seq<string>, patch: seq<string>, cursor: nat): Outcome
    requires cursor <= |before|
    decreases patch
  {
    if patch == [] then Applied(before[cursor..])
    else if Context(patch[0]) || Removal(patch[0]) then
      var at := FirstAt(before, patch[0][1..], cursor);
      var upTo := if Context(patch[0]) then at + 1 else at;
      if at < |before| then Prepend(before[cursor..upTo], Update(before, patch[1..], at + 1))
      else if Context(patch[0]) then ContextNotFound(patch[0][1..]) else RemovalNotFound(patch[0][1..])
    else if Addition(patch[0]) then Prepend([patch[0][1..]], Update(before, patch[1..], cursor))
    else Update(before, patch[1..], cursor)
  }

  method FindLine(lines: seq<string>, value: string, start: nat) returns (found: int)
    requires start <= |lines|
    ensures found == -1 <==> value !in lines[start..]
    ensures found != -1 ==> start <= found < |lines| && lines[found] == value && value !in lines[start..found]
    ensures found == if FirstAt(lines, value, start) < |lines| then FirstAt(lines, value, start) else -1
  {
    for i := start to |lines|
      invariant value !in lines[start..i]
      invariant FirstAt(lines, value, start) == FirstAt(lines, value, i)
    {
      if lines[i] == value {
        assert value in lines[start..];
        return i;
      }
    }
    assert lines[start..|lines|] == lines[start..];
    return -1;
  }

  /** The loop over the patch lines. */
  method PatchLines(oldLines: seq<string>, patch: seq<string>) returns (r: Outcome)
    ensures r == Update(oldLines, patch, 0)
  {
    var out: seq<string> := [];
    var cursor: nat := 0;
    for i := 0 to |patch|
      invariant cursor <= |oldLines|
      invariant Update(oldLines, patch, 0) == Prepend(out, Update(oldLines, patch[i..], cursor))
    {
      var line, rest := patch[i], patch[i + 1..];
      assert patch[i..] != [] && patch[i..][0] == line && patch[i..][1..] == rest;
      if Context(line) {
        var foundAt := FindLine(oldLines, line[1..], cursor);
        if foundAt == -1 { return ContextNotFound(line[1..]); }
        PrependTwice(out, oldLines[cursor..foundAt + 1], Update(oldLines, rest, foundAt + 1));
        out := out + oldLines[cursor..foundAt + 1];
        cursor := foundAt + 1;
      } else if Removal(line) {
        var foundAt := FindLine(oldLines, line[1..], cursor);
        if foundAt == -1 { return RemovalNotFound(line[1..]); }
        PrependTwice(out, oldLines[cursor..foundAt], Update(oldLines, rest, foundAt + 1));
        out := out + oldLines[cursor..foundAt];
        cursor := foundAt + 1;
      } else if Addition(line) {
        PrependTwice(out, [line[1..]], Update(oldLines, rest, cursor));
        out := out + [line[1..]];
      }
    }
    return Applied(out + oldLines[cursor..]);
  }

  /** The new text of a file, or the line that was not found. */
  method ApplyUpdateLines(oldContent: string, patch: seq<string>) returns (r: Outcome, text: string)
    ensures r == Update(Lines(oldContent), patch, 0)
    ensures text == if r.Applied? then Render(oldContent, r.lines) else ""
    ensures r.Applied? <==> exists at :: Embeds(Anchors(patch), Lines(oldContent), at, 0)
    ensures r.Applied? ==> Edits(patch, Lines(oldContent), r.lines)
  {
    var oldLines := Split(oldContent);
    if oldLines[|oldLines| - 1] == "" {
      oldLines := oldLines[..|oldLines| - 1];
    }
    r := PatchLines(oldLines, patch);
    UpdateSucceedsIff(oldLines, patch, 0);
    text := "";
    if r.Applied? {
      assert oldLines[0..] == oldLines;
      UpdateEdits(oldLines, patch, 0);
      text := Render(oldContent, r.lines);
    }
  }

  lemma PrependTwice(a: seq<string>, b: seq<string>, rest: Outcome)
    ensures Prepend(a, Prepend(b, rest)) == Prepend(a + b, rest)
  {
    if rest.Applied? { assert a + (b + rest.lines) == (a + b) + rest.lines; }
  }

  // ---- When a patch applies ----

  /** `at` gives every anchor a place in the old lines, in strictly increasing order. */
  ghost predicate Embeds(anchors: seq<string>, before: seq<string>, at: seq<nat>, from: nat) {
    && |at| == |anchors|
    && (forall i :: 0 <= i < |at| ==> from <= at[i] < |before| && before[at[i]] == anchors[i])
    && forall i, j :: 0 <= i < j < |at| ==> at[i] < at[j]
  }

  /** The places the greedy search takes. */
  ghost function Greedy(anchors: seq<string>, before: seq<string>, from: nat): seq<nat>
    requires from <= |before|
    ensures forall i :: 0 <= i < |Greedy(anchors, before, from)| ==> from <= Greedy(anchors, before, from)[i]
    decreases anchors
  {
    if anchors == [] then []
    else
      var at := FirstAt(before, anchors[0], from);
      if at < |before| then [at] + Greedy(anchors[1..], before, at + 1) else []
  }

  lemma EmbedsTail(anchors: seq<string>, before: seq<string>, at: seq<nat>, from: nat, first: nat)
    requires Embeds(anchors, before, at, from) && anchors != [] && first <= at[0]
    ensures from <= at[0] < |before| && before[at[0]] == anchors[0]
    ensures Embeds(anchors[1..], before, at[1..], first + 1)
  {
    var rest := at[1..];
    forall i | 0 <= i < |rest| ensures first < rest[i] < |before| && before[rest[i]] == anchors[1..][i] {
      assert rest[i] == at[i + 1] && before[at[i + 1]] == anchors[i + 1];
    }
  }

  lemma EmbedsCons(anchors: seq<string>, before: seq<string>, first: nat, rest: seq<nat>, from: nat)
    requires anchors != [] && from <= first < |before| && before[first] == anchors[0]
    requires Embeds(anchors[1..], before, rest, first + 1)
    ensures Embeds(anchors, before, [first] + rest, from)
  {
    var at := [first] + rest;
    forall i | 0 <= i < |at| ensures from <= at[i] < |before| && before[at[i]] == anchors[i] {
      if i > 0 { assert before[rest[i - 1]] == anchors[1..][i - 1]; }
    }
  }

  /** If there is any way to place the anchors, the greedy places are one, and the leftmost. */
  lemma {:induction false} GreedyIsLeftmost(anchors: seq<string>, before: seq<string>, at: seq<nat>, from: nat)
    requires from <= |before| && Embeds(anchors, before, at, from)
    ensures Embeds(anchors, before, Greedy(anchors, before, from), from)
    ensures forall i :: 0 <= i < |at| ==> Greedy(anchors, before, from)[i] <= at[i]
    decreases anchors
  {
    assert |at| == |anchors|;
    if anchors != [] {
      hide Embeds, Greedy, FirstAt;
      EmbedsTail(anchors, before, at, from, 0);
      FirstIsBefore(before, anchors[0], from, at[0]);
      var first := FirstAt(before, anchors[0], from);
      GreedyStep(anchors, before, from);
      EmbedsTail(anchors, before, at, from, first);
      GreedyIsLeftmost(anchors[1..], before, at[1..], first + 1);
      EmbedsCons(anchors, before, first, Greedy(anchors[1..], before, first + 1), from);
    }
  }

  lemma GreedyStep(anchors: seq<string>, before: seq<string>, from: nat)
    requires from <= |before| && anchors != []
    ensures var first := FirstAt(before, anchors[0], from);
      Greedy(anchors, before, from) ==
        if first < |before| then [first] + Greedy(anchors[1..], before, first + 1) else []
  {
  }

  lemma FirstIsBefore(lines: seq<string>, value: string, from: nat, at: nat)
    requires from <= at < |lines| && lines[at] == value
    ensures FirstAt(lines, value, from) <= at
  {
    var first := FirstAt(lines, value, from);
    forall i | from <= i < first ensures lines[i] != value {
      assert lines[from..first][i - from] in lines[from..first];
    }
  }

  /** The update succeeds exactly when the greedy search places every anchor. */
  lemma {:induction false} UpdateFollowsGreedy(before: seq<string>, patch: seq<string>, cursor: nat)
    requires cursor <= |before|
    ensures Update(before, patch, cursor).Applied? <==>
      Embeds(Anchors(patch), before, Greedy(Anchors(patch), before, cursor), cursor)
    decreases patch
  {
    hide Embeds, Greedy, FirstAt;
    if patch == [] {
      assert Greedy([], before, cursor) == [] && Embeds([], before, [], cursor) by { NothingToPlace(before, cursor); }
    } else if Context(patch[0]) || Removal(patch[0]) {
      var anchors := Anchors(patch);
      assert anchors[0] == patch[0][1..] && anchors[1..] == Anchors(patch[1..]);
      var at := FirstAt(before, anchors[0], cursor);
      GreedyStep(anchors, before, cursor);
      if at < |before| {
        UpdateFollowsGreedy(before, patch[1..], at + 1);
        var rest := Greedy(anchors[1..], before, at + 1);
        if Embeds(anchors[1..], before, rest, at + 1) { EmbedsCons(anchors, before, at, rest, cursor); }
        if Embeds(anchors, before, [at] + rest, cursor) {
          EmbedsTail(anchors, before, [at] + rest, cursor, at);
          assert ([at] + rest)[1..] == rest;
        }
      } else {
        NeedsAPlace(anchors, before, cursor);
      }
    } else {
      assert [] + Anchors(patch[1..]) == Anchors(patch[1..]);
      UpdateFollowsGreedy(before, patch[1..], cursor);
    }
  }

  lemma NothingToPlace(before: seq<string>, from: nat)
    requires from <= |before|
    ensures Greedy([], before, from) == [] && Embeds([], before, [], from)
  {
  }

  lemma NeedsAPlace(anchors: seq<string>, before: seq<string>, from: nat)
    requires anchors != []
    ensures !Embeds(anchors, before, [], from)
  {
  }

  /** The patch carried out with its context and removal lines at given places: what lies between two
      places is kept, a line named as context too, added lines go where they stand. */
  function LaidOut(before: seq<string>, patch: seq<string>, at: seq<nat>, cursor: nat): seq<string>
    decreases patch
  {
    if cursor > |before| then []
    else if patch == [] then before[cursor..]
    else if Context(patch[0]) || Removal(patch[0]) then
      if at == [] || !(cursor <= at[0] < |before|) then []
      else
        before[cursor..at[0]] + (if Context(patch[0]) then [before[at[0]]] else [])
        + LaidOut(before, patch[1..], at[1..], at[0] + 1)
    else (if Addition(patch[0]) then [patch[0][1..]] else []) + LaidOut(before, patch[1..], at, cursor)
  }

  /** What is produced is the patch carried out at the leftmost places. */
  lemma {:induction false} UpdateIsLeftmost(before: seq<string>, patch: seq<string>, cursor: nat)
    requires cursor <= |before| && Update(before, patch, cursor).Applied?
    ensures Update(before, patch, cursor).lines ==
      LaidOut(before, patch, Greedy(Anchors(patch), before, cursor), cursor)
    decreases patch
  {
    hide FirstAt, Greedy;
    if patch == [] {
    } else if Context(patch[0]) || Removal(patch[0]) {
      var anchors := Anchors(patch);
      assert anchors[0] == patch[0][1..] && anchors[1..] == Anchors(patch[1..]);
      var at := FirstAt(before, anchors[0], cursor);
      GreedyStep(anchors, before, cursor);
      var rest := Greedy(anchors[1..], before, at + 1);
      assert ([at] + rest)[1..] == rest;
      UpdateIsLeftmost(before, patch[1..], at + 1);
      assert before[cursor..at] + [before[at]] == before[cursor..at + 1];
      assert before[cursor..at] + [] == before[cursor..at];
    } else {
      assert [] + Anchors(patch[1..]) == Anchors(patch[1..]);
      UpdateIsLeftmost(before, patch[1..], cursor);
    }
  }

  /** Completeness: a patch applies if and only if its context and removal lines form a
      subsequence of the old lines. */
  lemma UpdateSucceedsIff(before: seq<string>, patch: seq<string>, cursor: nat)
    requires cursor <= |before|
    ensures Update(before, patch, cursor).Applied? <==> exists at :: Embeds(Anchors(patch), before, at, cursor)
  {
    UpdateFollowsGreedy(before, patch, cursor);
    if at :| Embeds(Anchors(patch), before, at, cursor) {
      GreedyIsLeftmost(Anchors(patch), before, at, cursor);
    }
  }

  /** The lines of a patch that name old lines: those that begin with a blank or a minus sign. */
  function Naming(patch: seq<string>): seq<string> {
    if patch == [] then []
    else (if Marked(patch[0], " ") || Marked(patch[0], "-") then [patch[0]] else []) + Naming(patch[1..])
  }

  /** What a failure reports: the first line that finds no place behind those before it, and whether it
      was to be kept or removed. */
  lemma {:induction false} FailureNamesFirst(before: seq<string>, patch: seq<string>, cursor: nat)
    requires cursor <= |before| && !Update(before, patch, cursor).Applied?
    ensures |Naming(patch)| == |Anchors(patch)|
    ensures var k := |Greedy(Anchors(patch), before, cursor)|;
      && k < |Naming(patch)| && Naming(patch)[k] != "" && Update(before, patch, cursor) ==
           if Marked(Naming(patch)[k], " ") then ContextNotFound(Naming(patch)[k][1..])
           else RemovalNotFound(Naming(patch)[k][1..])
    decreases patch
  {
    hide FirstAt, Greedy;
    NamingIs(patch);
    if Context(patch[0]) || Removal(patch[0]) {
      var anchors := Anchors(patch);
      assert anchors[0] == patch[0][1..] && anchors[1..] == Anchors(patch[1..]);
      var at := FirstAt(before, anchors[0], cursor);
      GreedyStep(anchors, before, cursor);
      assert Naming(patch) == [patch[0]] + Naming(patch[1..]);
      if at < |before| { FailureNamesFirst(before, patch[1..], at + 1); }
    } else {
      assert [] + Anchors(patch[1..]) == Anchors(patch[1..]);
      assert Naming(patch) == Naming(patch[1..]);
      FailureNamesFirst(before, patch[1..], cursor);
    }
  }

  lemma {:induction false} NamingIs(patch: seq<string>)
    ensures |Naming(patch)| == |Anchors(patch)|
    ensures forall i :: 0 <= i < |Naming(patch)| ==>
      Naming(patch)[i] != "" && Anchors(patch)[i] == Naming(patch)[i][1..]
  {
    if patch != [] { NamingIs(patch[1..]); }
  }

  // ---- What a patch makes ----

  /** The line begins with the mark. */
  predicate Marked(line: string, mark: string) {
    mark <= line
  }

  /** The meaning of a patch, whatever the search: walking through old and new lines together,
      unlisted old lines are kept, and each patch line does its part in turn. */
  ghost predicate Edits(patch: seq<string>, before: seq<string>, after: seq<string>)
    decreases |patch| + |before|
  {
    || (patch == [] && before == after)
    || (before != [] && after != [] && before[0] == after[0] && Edits(patch, before[1..], after[1..]))
    || (patch != [] && Marked(patch[0], " ") && before != [] && after != [] && before[0] == patch[0][1..] == after[0]
        && Edits(patch[1..], before[1..], after[1..]))
    || (patch != [] && Marked(patch[0], "-") && before != [] && before[0] == patch[0][1..]
        && Edits(patch[1..], before[1..], after))
    || (patch != [] && Marked(patch[0], "+") && after != [] && after[0] == patch[0][1..]
        && Edits(patch[1..], before, after[1..]))
    || (patch != [] && !Marked(patch[0], " ") && !Marked(patch[0], "-") && !Marked(patch[0], "+")
        && Edits(patch[1..], before, after))
  }

  lemma {:induction false} EditsKeepPrefix(patch: seq<string>, kept: seq<string>,
                                           before: seq<string>, after: seq<string>)
    requires Edits(patch, before, after)
    ensures Edits(patch, kept + before, kept + after)
    decreases kept
  {
    if kept == [] {
      assert kept + before == before && kept + after == after;
    } else {
      EditsKeepPrefix(patch, kept[1..], before, after);
      assert (kept + before)[1..] == kept[1..] + before && (kept + after)[1..] == kept[1..] + after;
    }
  }

  lemma EditsContext(patch: seq<string>, before: seq<string>, after: seq<string>)
    requires patch != [] && Context(patch[0]) && before != [] && before[0] == patch[0][1..]
    requires Edits(patch[1..], before[1..], after)
    ensures Edits(patch, before, [before[0]] + after)
  {
    assert ([before[0]] + after)[1..] == after;
  }

  lemma EditsRemoval(patch: seq<string>, before: seq<string>, after: seq<string>)
    requires patch != [] && Removal(patch[0]) && before != [] && before[0] == patch[0][1..]
    requires Edits(patch[1..], before[1..], after)
    ensures Edits(patch, before, after)
  {
  }

  lemma EditsAddition(patch: seq<string>, before: seq<string>, after: seq<string>)
    requires patch != [] && Addition(patch[0]) && Edits(patch[1..], before, after)
    ensures Edits(patch, before, [patch[0][1..]] + after)
  {
    assert ([patch[0][1..]] + after)[1..] == after;
  }

  /** Soundness: whatever is produced is an application of the patch. */
  lemma {:induction false} UpdateEdits(before: seq<string>, patch: seq<string>, cursor: nat)
    requires cursor <= |before| && Update(before, patch, cursor).Applied?
    ensures Edits(patch, before[cursor..], Update(before, patch, cursor).lines)
    decreases patch
  {
    if patch == [] {
    } else if Context(patch[0]) || Removal(patch[0]) {
      UpdateEditsAnchor(before, patch, cursor);
    } else {
      var rest := Update(before, patch[1..], cursor).lines;
      UpdateEdits(before, patch[1..], cursor);
      if Addition(patch[0]) { EditsAddition(patch, before[cursor..], rest); }
    }
  }

  lemma UpdateAtAnchor(before: seq<string>, patch: seq<string>, cursor: nat)
    requires cursor <= |before| && Update(before, patch, cursor).Applied?
    requires patch != [] && (Context(patch[0]) || Removal(patch[0]))
    ensures var at := FirstAt(before, patch[0][1..], cursor);
      at < |before| && Update(before, patch[1..], at + 1).Applied?
      && Update(before, patch, cursor).lines ==
           before[cursor..if Context(patch[0]) then at + 1 else at] + Update(before, patch[1..], at + 1).lines
  {
  }

  lemma {:induction false} UpdateEditsAnchor(before: seq<string>, patch: seq<string>, cursor: nat)
    requires cursor <= |before| && Update(before, patch, cursor).Applied?
    requires patch != [] && (Context(patch[0]) || Removal(patch[0]))
    ensures Edits(patch, before[cursor..], Update(before, patch, cursor).lines)
    decreases patch, 0
  {
    hide FirstAt, Edits, Update;
    UpdateAtAnchor(before, patch, cursor);
    var at := FirstAt(before, patch[0][1..], cursor);
    var rest := Update(before, patch[1..], at + 1).lines;
    UpdateEdits(before, patch[1..], at + 1);
    assert before[at..][1..] == before[at + 1..];
    assert before[cursor..at] + before[at..] == before[cursor..];
    if Context(patch[0]) {
      EditsContext(patch, before[at..], rest);
      EditsKeepPrefix(patch, before[cursor..at], before[at..], [before[at]] + rest);
      assert before[cursor..at] + ([before[at]] + rest) == before[cursor..at + 1] + rest;
    } else {
      EditsRemoval(patch, before[at..], rest);
      EditsKeepPrefix(patch, before[cursor..at], before[at..], rest);
    }
  }

  /** Any application of a patch keeps the books: old lines less removals plus additions. */
  lemma {:induction false} EditsLength(patch: seq<string>, before: seq<string>, after: seq<string>)
    requires Edits(patch, before, after)
    ensures |after| == |before| - Removals(patch) + Additions(patch)
    decreases |patch| + |before|
  {
    if patch == [] && before == after {
    } else if before != [] && after != [] && before[0] == after[0] && Edits(patch, before[1..], after[1..]) {
      EditsLength(patch, before[1..], after[1..]);
    } else if Context(patch[0]) {
      EditsLength(patch[1..], before[1..], after[1..]);
    } else if Removal(patch[0]) {
      EditsLength(patch[1..], before[1..], after);
    } else if Addition(patch[0]) {
      EditsLength(patch[1..], before, after[1..]);
    } else {
      EditsLength(patch[1..], before, after);
    }
  }

  /** The patch goes on with the very next old line. */
  predicate NextIsNamed(before: seq<string>, patch: seq<string>, cursor: nat) {
    && cursor < |before| && patch != [] && (Context(patch[0]) || Removal(patch[0]))
    && FirstAt(before, patch[0][1..], cursor) == cursor
  }

  lemma UpdateUnfolds(before: seq<string>, patch: seq<string>, cursor: nat)
    requires cursor <= |before|
    ensures patch == [] ==> Update(before, patch, cursor) == Applied(before[cursor..])
    ensures NextIsNamed(before, patch, cursor) ==>
      Update(before, patch, cursor) ==
        Prepend(if Context(patch[0]) then [before[cursor]] else [], Update(before, patch[1..], cursor + 1))
    ensures patch != [] && Addition(patch[0]) ==>
      Update(before, patch, cursor) == Prepend([patch[0][1..]], Update(before, patch[1..], cursor))
    ensures patch != [] && !Context(patch[0]) && !Removal(patch[0]) && !Addition(patch[0]) ==>
      Update(before, patch, cursor) == Update(before, patch[1..], cursor)
  {
    if cursor < |before| { assert before[cursor..cursor + 1] == [before[cursor]]; }
  }

  lemma FirstHere(lines: seq<string>, value: string, start: nat)
    requires start < |lines| && lines[start] == value
    ensures FirstAt(lines, value, start) == start
  {
  }

  /** A patch that lists every old line makes exactly its context and added lines, in order. */
  lemma {:induction false} FullPatch(before: seq<string>, patch: seq<string>, cursor: nat)
    requires cursor <= |before| && Anchors(patch) == before[cursor..]
    ensures Update(before, patch, cursor) == Applied(Shown(patch))
    decreases patch
  {
    hide FirstAt, Update;
    UpdateUnfolds(before, patch, cursor);
    if patch == [] {
    } else if Context(patch[0]) || Removal(patch[0]) {
      FirstHere(before, patch[0][1..], cursor) by { assert Anchors(patch)[0] == before[cursor..][0]; }
      assert Anchors(patch)[0] == patch[0][1..] && Anchors(patch)[1..] == Anchors(patch[1..]);
      assert before[cursor..][1..] == before[cursor + 1..];
      FullPatch(before, patch[1..], cursor + 1);
      assert [] + Shown(patch[1..]) == Shown(patch[1..]);
    } else {
      assert [] + Anchors(patch[1..]) == Anchors(patch[1..]);
      FullPatch(before, patch[1..], cursor);
      assert [] + Shown(patch[1..]) == Shown(patch[1..]);
    }
  }

  /** The patch with additions and removals exchanged. */
  function Inverse(patch: seq<string>): seq<string> {
    if patch == [] then []
    else
      var line := patch[0];
      var turned := if Addition(line) then "-" + line[1..] else if Removal(line) then "+" + line[1..] else line;
      [turned] + Inverse(patch[1..])
  }

  lemma {:induction false} InverseExchanges(patch: seq<string>)
    ensures Anchors(Inverse(patch)) == Shown(patch) && Shown(Inverse(patch)) == Anchors(patch)
  {
    if patch != [] {
      InverseExchanges(patch[1..]);
      var inv := Inverse(patch);
      assert inv[1..] == Inverse(patch[1..]);
      if patch[0] != "" {
        assert ("-" + patch[0][1..])[1..] == patch[0][1..] == ("+" + patch[0][1..])[1..];
      }
    }
  }

  /** The round trip: a full patch is undone by its inverse. */
  lemma InverseUndoes(before: seq<string>, patch: seq<string>)
    requires Anchors(patch) == before
    ensures Update(before, patch, 0) == Applied(Shown(patch))
    ensures Update(Shown(patch), Inverse(patch), 0) == Applied(before)
  {
    assert before[0..] == before && Shown(patch)[0..] == Shown(patch);
    FullPatch(before, patch, 0);
    InverseExchanges(patch);
    FullPatch(Shown(patch), Inverse(patch), 0);
  }

  /** The empty patch changes no file at all. */
  lemma EmptyPatch(content: string)
    ensures Update(Lines(content), [], 0).Applied? && Render(content, Update(Lines(content), [], 0).lines) == content
  {
    assert Lines(content)[0..] == Lines(content);
    RenderLines(content);
  }
}
