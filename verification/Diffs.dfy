/** Text diffs: an edit script becomes insert and delete operations, which are applied from the
    highest index down. */
module Diffs {
  import opened Options

  /** One piece of an edit script, as the diff library returns it. */
  datatype Piece = Equal(text: string) | Delete(text: string) | Insert(text: string)

  datatype DiffOp = InsertOp(index: nat, text: string) | DeleteOp(index: nat, length: nat)

  /** The text a script starts from, and the text it describes. */
  function Old(script: seq<Piece>): string {
    if script == [] then ""
    else (if script[0].Insert? then "" else script[0].text) + Old(script[1..])
  }

  function New(script: seq<Piece>): string {
    if script == [] then ""
    else (if script[0].Delete? then "" else script[0].text) + New(script[1..])
  }

  function OpsFrom(script: seq<Piece>, cursor: nat): (ops: seq<DiffOp>)
    ensures forall i :: 0 <= i < |ops| ==> cursor <= ops[i].index
  {
    if script == [] then []
    else
      match script[0]
      case Equal(text) => OpsFrom(script[1..], cursor + |text|)
      case Delete(text) => [DeleteOp(cursor, |text|)] + OpsFrom(script[1..], cursor + |text|)
      case Insert(text) => [InsertOp(cursor, text)] + OpsFrom(script[1..], cursor)
  }

  /** Builds the operations of a script from `oldText` to `newText`. */
  method ComputeDiff(oldText: string, newText: string, script: seq<Piece>) returns (ops: seq<DiffOp>)
    ensures ops == if oldText == newText then [] else OpsFrom(script, 0)
  {
    ops := [];
    if oldText == newText { return; }
    var cursor: nat := 0;
    for i := 0 to |script|
      invariant ops + OpsFrom(script[i..], cursor) == OpsFrom(script, 0)
    {
      hide OpsFrom;
      OpsStep(script, i, cursor, ops);
      match script[i]
      case Equal(text) => cursor := cursor + |text|;
      case Delete(text) =>
        ops := ops + [DeleteOp(cursor, |text|)];
        cursor := cursor + |text|;
      case Insert(text) => ops := ops + [InsertOp(cursor, text)];
    }
  }

  lemma OpsStep(script: seq<Piece>, i: nat, cursor: nat, ops: seq<DiffOp>)
    requires i < |script|
    ensures var piece, rest := script[i], script[i + 1..];
      ops + OpsFrom(script[i..], cursor) ==
        if piece.Equal? then ops + OpsFrom(rest, cursor + |piece.text|)
        else if piece.Delete? then ops + [DeleteOp(cursor, |piece.text|)] + OpsFrom(rest, cursor + |piece.text|)
        else ops + [InsertOp(cursor, piece.text)] + OpsFrom(rest, cursor)
  {
    assert script[i..][1..] == script[i + 1..] && script[i..][0] == script[i];
  }

  /** The pieces that are not equal. */
  function Changes(script: seq<Piece>): nat {
    if script == [] then 0 else (if script[0].Equal? then 0 else 1) + Changes(script[1..])
  }

  /** Every piece that is not equal has its operation, at its place among the others and at the place
      of the old text it stands in; there are no other operations. */
  lemma {:induction false} OpOfPiece(before: seq<Piece>, piece: Piece, after: seq<Piece>, cursor: nat)
    requires !piece.Equal?
    ensures var ops, i, place := OpsFrom(before + [piece] + after, cursor), Changes(before), cursor + |Old(before)|;
      && |ops| == Changes(before) + 1 + Changes(after)
      && ops[i] == if piece.Insert? then InsertOp(place, piece.text) else DeleteOp(place, |piece.text|)
  {
    hide Old, OpsFrom;
    var script := before + [piece] + after;
    OldStep(before);
    OpsUnfold(script, cursor);
    if before == [] {
      assert script[1..] == after;
      OpForEach(after, cursor + if piece.Insert? then 0 else |piece.text|);
    } else {
      assert script[1..] == before[1..] + [piece] + after;
      OpOfPiece(before[1..], piece, after, cursor + if before[0].Insert? then 0 else |before[0].text|);
    }
  }

  lemma OpsUnfold(script: seq<Piece>, cursor: nat)
    requires script != []
    ensures var piece := script[0];
      var rest := OpsFrom(script[1..], cursor + if piece.Insert? then 0 else |piece.text|);
      OpsFrom(script, cursor) ==
        if piece.Equal? then rest
        else if piece.Insert? then [InsertOp(cursor, piece.text)] + rest
        else [DeleteOp(cursor, |piece.text|)] + rest
  {
  }

  lemma OldStep(script: seq<Piece>)
    ensures |Old(script)| ==
      if script == [] then 0 else (if script[0].Insert? then 0 else |script[0].text|) + |Old(script[1..])|
  {
  }

  lemma {:induction false} OpForEach(script: seq<Piece>, cursor: nat)
    ensures |OpsFrom(script, cursor)| == Changes(script)
  {
    if script != [] { OpForEach(script[1..], cursor + if script[0].Insert? then 0 else |script[0].text|); }
  }

  // ---- Applying operations ----

  /** One operation on a text; `None` when it reaches outside the text. */
  function Apply(text: string, op: DiffOp): Option<string> {
    match op
    case InsertOp(index, ins) =>
      if index <= |text| then Some(text[..index] + ins + text[index..]) else None
    case DeleteOp(index, length) =>
      if index + length <= |text| then Some(text[..index] + text[index + length..]) else None
  }

  function ApplyAll(text: string, ops: seq<DiffOp>): Option<string>
    decreases ops
  {
    if ops == [] then Some(text)
    else
      var first := Apply(text, ops[0]);
      if first.None? then None else ApplyAll(first.value, ops[1..])
  }

  lemma {:induction false} ApplyInTurn(text: string, a: seq<DiffOp>, b: seq<DiffOp>)
    ensures ApplyAll(text, a + b) ==
      var mid := ApplyAll(text, a); if mid.None? then None else ApplyAll(mid.value, b)
    decreases a
  {
    if a == [] {
      assert a + b == b;
    } else {
      assert (a + b)[1..] == a[1..] + b;
      var first := Apply(text, a[0]);
      if first.Some? { ApplyInTurn(first.value, a[1..], b); }
    }
  }

  /** Where a stable sort by descending index puts one more operation in front of sorted ones. */
  function InsertDesc(op: DiffOp, sorted: seq<DiffOp>): seq<DiffOp> {
    if sorted == [] || sorted[0].index <= op.index then [op] + sorted
    else [sorted[0]] + InsertDesc(op, sorted[1..])
  }

  /** The stable sort by descending index. */
  function SortDesc(ops: seq<DiffOp>): seq<DiffOp> {
    if ops == [] then [] else InsertDesc(ops[0], SortDesc(ops[1..]))
  }

  ghost predicate Descending(ops: seq<DiffOp>) {
    forall i, j :: 0 <= i < j < |ops| ==> ops[i].index >= ops[j].index
  }

  function AtIndex(ops: seq<DiffOp>, index: nat): seq<DiffOp> {
    if ops == [] then []
    else if ops[0].index == index then [ops[0]] + AtIndex(ops[1..], index)
    else AtIndex(ops[1..], index)
  }

  lemma InsertDescStep(op: DiffOp, sorted: seq<DiffOp>)
    ensures sorted == [] || sorted[0].index <= op.index ==> InsertDesc(op, sorted) == [op] + sorted
    ensures !(sorted == [] || sorted[0].index <= op.index) ==>
      InsertDesc(op, sorted) == [sorted[0]] + InsertDesc(op, sorted[1..])
  {
  }

  lemma {:induction false} InsertDescKeeps(op: DiffOp, sorted: seq<DiffOp>)
    ensures multiset(InsertDesc(op, sorted)) == multiset(sorted) + multiset{op}
  {
    hide InsertDesc;
    InsertDescStep(op, sorted);
    if !(sorted == [] || sorted[0].index <= op.index) {
      InsertDescKeeps(op, sorted[1..]);
      assert sorted == [sorted[0]] + sorted[1..];
    }
  }

  lemma AtIndexStep(op: DiffOp, ops: seq<DiffOp>, index: nat)
    ensures AtIndex([op] + ops, index) == (if op.index == index then [op] else []) + AtIndex(ops, index)
  {
    assert ([op] + ops)[1..] == ops;
  }

  lemma {:induction false} InsertDescAt(op: DiffOp, sorted: seq<DiffOp>, index: nat)
    ensures AtIndex(InsertDesc(op, sorted), index) == (if op.index == index then [op] else []) + AtIndex(sorted, index)
  {
    hide InsertDesc, AtIndex;
    InsertDescStep(op, sorted);
    if sorted == [] || sorted[0].index <= op.index {
      AtIndexStep(op, sorted, index);
    } else {
      var first, rest := sorted[0], sorted[1..];
      InsertDescAt(op, rest, index);
      AtIndexStep(first, InsertDesc(op, rest), index);
      AtIndexStep(first, rest, index);
      assert sorted == [first] + rest;
    }
  }

  lemma {:induction false} InsertDescHas(op: DiffOp, sorted: seq<DiffOp>, i: nat)
    requires i < |InsertDesc(op, sorted)|
    ensures InsertDesc(op, sorted)[i] == op || InsertDesc(op, sorted)[i] in sorted
  {
    hide InsertDesc;
    InsertDescKeeps(op, sorted);
    var r := InsertDesc(op, sorted);
    assert r[i] in multiset(r);
  }

  lemma {:induction false} InsertDescSorts(op: DiffOp, sorted: seq<DiffOp>)
    requires Descending(sorted)
    ensures Descending(InsertDesc(op, sorted))
  {
    if sorted == [] || sorted[0].index <= op.index {
    } else {
      InsertDescSorts(op, sorted[1..]);
      var rest := InsertDesc(op, sorted[1..]);
      forall i | 0 <= i < |rest| ensures sorted[0].index >= rest[i].index { InsertDescHas(op, sorted[1..], i); }
    }
  }

  lemma NothingDescends()
    ensures Descending([])
  {
  }

  /** The sort is one: descending, the same operations, and equal indices in their old order. */
  lemma {:induction false} SortDescSorts(ops: seq<DiffOp>, index: nat)
    ensures Descending(SortDesc(ops)) && multiset(SortDesc(ops)) == multiset(ops)
    ensures AtIndex(SortDesc(ops), index) == AtIndex(ops, index)
  {
    hide InsertDesc, AtIndex, Descending;
    if ops == [] {
      assert Descending([]) by { NothingDescends(); }
    } else {
      SortDescSorts(ops[1..], index);
      InsertDescSorts(ops[0], SortDesc(ops[1..]));
      InsertDescKeeps(ops[0], SortDesc(ops[1..]));
      InsertDescAt(ops[0], SortDesc(ops[1..]), index);
      AtIndexStep(ops[0], ops[1..], index);
      assert ops == [ops[0]] + ops[1..];
    }
  }

  lemma {:induction false} SortStaysAbove(ops: seq<DiffOp>, cursor: nat)
    requires forall i :: 0 <= i < |ops| ==> cursor < ops[i].index
    ensures forall i :: 0 <= i < |SortDesc(ops)| ==> cursor < SortDesc(ops)[i].index
  {
    if ops != [] {
      SortStaysAbove(ops[1..], cursor);
      forall i | 0 <= i < |SortDesc(ops)| ensures cursor < SortDesc(ops)[i].index {
        InsertDescHas(ops[0], SortDesc(ops[1..]), i);
      }
    }
  }

  /** Operations at one index, in front of operations at higher ones, are applied last, in order. */
  lemma {:induction false} SortPutsGroupLast(group: seq<DiffOp>, rest: seq<DiffOp>, cursor: nat)
    requires forall i :: 0 <= i < |group| ==> group[i].index == cursor
    requires forall i :: 0 <= i < |rest| ==> cursor < rest[i].index
    ensures SortDesc(group + rest) == SortDesc(rest) + group
  {
    if group == [] {
      assert group + rest == rest;
    } else {
      assert (group + rest)[1..] == group[1..] + rest;
      SortPutsGroupLast(group[1..], rest, cursor);
      SortStaysAbove(rest, cursor);
      InsertAfterHigher(group[0], SortDesc(rest), group[1..]);
    }
  }

  lemma {:induction false} InsertAfterHigher(op: DiffOp, higher: seq<DiffOp>, group: seq<DiffOp>)
    requires forall i :: 0 <= i < |higher| ==> op.index < higher[i].index
    requires forall i :: 0 <= i < |group| ==> group[i].index == op.index
    ensures InsertDesc(op, higher + group) == higher + ([op] + group)
  {
    if higher == [] {
      assert higher + group == group && higher + ([op] + group) == [op] + group;
    } else {
      assert (higher + group)[1..] == higher[1..] + group;
      InsertAfterHigher(op, higher[1..], group);
      assert higher + ([op] + group) == [higher[0]] + (higher[1..] + ([op] + group));
    }
  }

  // ---- What the operations really produce ----

  /** What sorting and applying makes of a script. `pending` is what the insertions at the present
      place amount to: each later one lands in front, and a deletion eats into them first. */
  function Actual(script: seq<Piece>, pending: string): string {
    if script == [] then pending
    else if script[0].text == "" then Actual(script[1..], pending)
    else
      match script[0]
      case Equal(text) => pending + text + Actual(script[1..], "")
      case Insert(text) => Actual(script[1..], text + pending)
      case Delete(text) => (pending + text)[|text|..] + Actual(script[1..], "")
  }

  /** The operations at one place amount to inserting `pending` there. */
  ghost predicate Amounts(group: seq<DiffOp>, cursor: nat, pending: string) {
    if group == [] then pending == ""
    else
      var last := group[|group| - 1];
      var before := group[..|group| - 1];
      match last
      case InsertOp(index, text) =>
        index == cursor && |text| <= |pending| && pending[..|text|] == text
        && Amounts(before, cursor, pending[|text|..])
      case DeleteOp(index, length) => index == cursor && length == 0 && Amounts(before, cursor, pending)
  }

  lemma {:induction false} GroupInserts(group: seq<DiffOp>, pre: string, post: string, pending: string)
    requires Amounts(group, |pre|, pending)
    ensures ApplyAll(pre + post, group) == Some(pre + pending + post)
    ensures forall i :: 0 <= i < |group| ==> group[i].index == |pre|
  {
    if group == [] {
      assert pre + pending + post == pre + post;
    } else {
      var last := group[|group| - 1];
      var before := group[..|group| - 1];
      assert group == before + [last];
      var p := if last.InsertOp? then pending[|last.text|..] else pending;
      GroupInserts(before, pre, post, p);
      hide Amounts, Apply, ApplyAll;
      ApplyInTurn(pre + post, before, [last]);
      assert last.InsertOp? ==> pending == last.text + p;
      LastOfGroup(pre, p, post, last);
    }
  }

  lemma LastOfGroup(pre: string, p: string, post: string, last: DiffOp)
    requires last.index == |pre| && (last.DeleteOp? ==> last.length == 0)
    ensures ApplyAll(pre + p + post, [last]) == Some(pre + (if last.InsertOp? then last.text + p else p) + post)
  {
    var mid := pre + p + post;
    OneOp(mid, last);
    hide ApplyAll;
    assert mid[..|pre|] == pre && mid[|pre|..] == p + post;
    if last.InsertOp? {
      assert pre + last.text + (p + post) == pre + (last.text + p) + post;
    } else {
      assert mid[..|pre|] + mid[|pre|..] == mid;
    }
  }

  lemma OneOp(text: string, op: DiffOp)
    ensures ApplyAll(text, [op]) == Apply(text, op)
  {
  }

  /** The group that has collected the pending insertions, grown by one operation. */
  lemma AmountsMore(group: seq<DiffOp>, cursor: nat, pending: string, op: DiffOp)
    requires Amounts(group, cursor, pending) && op.index == cursor
    requires op.DeleteOp? ==> op.length == 0
    ensures Amounts(group + [op], cursor, if op.InsertOp? then op.text + pending else pending)
  {
    assert (group + [op])[..|group|] == group;
    if op.InsertOp? {
      assert (op.text + pending)[|op.text|..] == pending;
    }
  }

  /** Sorting and applying the operations of any script gives `Actual`, never reaching outside. */
  lemma {:induction false} OpsProduce(script: seq<Piece>, pre: string, group: seq<DiffOp>, pending: string)
    requires Amounts(group, |pre|, pending)
    ensures ApplyAll(pre + Old(script), SortDesc(group + OpsFrom(script, |pre|))) == Some(pre + Actual(script, pending))
    decreases script
  {
    if script == [] {
      assert group + OpsFrom(script, |pre|) == group + [];
      SortPutsGroupLast(group, [], |pre|) by { GroupInserts(group, pre, "", pending); }
      assert SortDesc(group + []) == group;
      GroupInserts(group, pre, "", pending);
      assert pre + pending + "" == pre + pending;
    } else {
      match script[0]
      case Insert(text) => InsertProduces(script, pre, group, pending);
      case Equal(text) => EqualProduces(script, pre, group, pending);
      case Delete(text) => DeleteProduces(script, pre, group, pending);
    }
  }

  lemma {:induction false} InsertProduces(script: seq<Piece>, pre: string, group: seq<DiffOp>, pending: string)
    requires Amounts(group, |pre|, pending) && script != [] && script[0].Insert?
    ensures ApplyAll(pre + Old(script), SortDesc(group + OpsFrom(script, |pre|))) == Some(pre + Actual(script, pending))
    decreases script, 0
  {
    var op := InsertOp(|pre|, script[0].text);
    AmountsMore(group, |pre|, pending, op);
    assert group + OpsFrom(script, |pre|) == (group + [op]) + OpsFrom(script[1..], |pre|);
    assert script[0].text == "" ==> script[0].text + pending == pending;
    OpsProduce(script[1..], pre, group + [op], script[0].text + pending);
    assert Old(script) == Old(script[1..]);
  }

  lemma {:induction false} EqualProduces(script: seq<Piece>, pre: string, group: seq<DiffOp>, pending: string)
    requires Amounts(group, |pre|, pending) && script != [] && script[0].Equal?
    ensures ApplyAll(pre + Old(script), SortDesc(group + OpsFrom(script, |pre|))) == Some(pre + Actual(script, pending))
    decreases script, 0
  {
    hide Apply, ApplyAll, SortDesc, InsertDesc, AtIndex, Amounts;
    var text := script[0].text;
    if text == "" {
      assert Old(script) == Old(script[1..]);
      OpsProduce(script[1..], pre, group, pending);
    } else {
      var rest := OpsFrom(script[1..], |pre| + |text|);
      OpsProduce(script[1..], pre + text, [], "");
      assert [] + rest == rest;
      assert pre + Old(script) == (pre + text) + Old(script[1..]);
      SortPutsGroupLast(group, rest, |pre|) by { GroupInserts(group, pre, "", pending); }
      GroupThenEqual(pre + Old(script), SortDesc(rest), pre, group, pending, text, Actual(script[1..], ""));
    }
  }

  lemma GroupThenEqual(all: string, above: seq<DiffOp>, pre: string, group: seq<DiffOp>,
                        pending: string, text: string, tail: string)
    requires Amounts(group, |pre|, pending) && ApplyAll(all, above) == Some(pre + text + tail)
    ensures ApplyAll(all, above + group) == Some(pre + (pending + text + tail))
  {
    hide Apply, ApplyAll, Amounts;
    ApplyInTurn(all, above, group);
    assert pre + text + tail == pre + (text + tail);
    GroupInserts(group, pre, text + tail, pending);
    assert pre + pending + (text + tail) == pre + (pending + text + tail);
  }

  lemma {:induction false} DeleteProduces(script: seq<Piece>, pre: string, group: seq<DiffOp>, pending: string)
    requires Amounts(group, |pre|, pending) && script != [] && script[0].Delete?
    ensures ApplyAll(pre + Old(script), SortDesc(group + OpsFrom(script, |pre|))) == Some(pre + Actual(script, pending))
    decreases script, 0
  {
    hide Apply, ApplyAll, SortDesc, InsertDesc, AtIndex, Amounts;
    var text := script[0].text;
    var op := DeleteOp(|pre|, |text|);
    var rest := OpsFrom(script[1..], |pre| + |text|);
    assert group + OpsFrom(script, |pre|) == (group + [op]) + rest;
    if text == "" {
      AmountsMore(group, |pre|, pending, op);
      assert Old(script) == Old(script[1..]);
      OpsProduce(script[1..], pre, group + [op], pending);
    } else {
      var tail := Actual(script[1..], "");
      OpsProduce(script[1..], pre + text, [], "");
      assert [] + rest == rest;
      assert pre + Old(script) == (pre + text) + Old(script[1..]);
      SortPutsGroupLast(group + [op], rest, |pre|) by { GroupInserts(group, pre, "", pending); }
      GroupThenDelete(pre + Old(script), SortDesc(rest), pre, group, pending, text, tail);
    }
  }

  lemma GroupThenDelete(all: string, above: seq<DiffOp>, pre: string, group: seq<DiffOp>,
                        pending: string, text: string, tail: string)
    requires Amounts(group, |pre|, pending) && ApplyAll(all, above) == Some(pre + text + tail)
    ensures ApplyAll(all, above + (group + [DeleteOp(|pre|, |text|)])) ==
      Some(pre + ((pending + text)[|text|..] + tail))
  {
    hide Apply, ApplyAll, Amounts;
    var op := DeleteOp(|pre|, |text|);
    ApplyInTurn(all, above, group + [op]);
    assert pre + text + tail == pre + (text + tail);
    GroupInserts(group, pre, text + tail, pending);
    ApplyInTurn(pre + (text + tail), group, [op]);
    DeleteEats(pre, pending, text, tail);
  }

  lemma DeleteEats(pre: string, pending: string, text: string, tail: string)
    ensures ApplyAll(pre + pending + (text + tail), [DeleteOp(|pre|, |text|)])
      == Some(pre + ((pending + text)[|text|..] + tail))
  {
    hide ApplyAll;
    OneOp(pre + pending + (text + tail), DeleteOp(|pre|, |text|));
    assert pre + pending + (text + tail) == pre + (pending + text + tail);
    CutBehind(pre, pending + text, tail, |text|);
  }

  lemma CutBehind(pre: string, mid: string, tail: string, n: nat)
    requires n <= |mid|
    ensures (pre + (mid + tail))[..|pre|] == pre
    ensures (pre + (mid + tail))[|pre| + n..] == mid[n..] + tail
  {
  }

  // ---- When that is the new text ----

  /** At every place of the script, the insertions there come out in order: `pending` is what they
      amount to and `wanted` what they should be. A caller can compute this from the script. */
  predicate Faithful(script: seq<Piece>, pending: string, wanted: string) {
    if script == [] then pending == wanted
    else if script[0].text == "" then Faithful(script[1..], pending, wanted)
    else
      match script[0]
      case Equal(_) => pending == wanted && Faithful(script[1..], "", "")
      case Insert(text) => Faithful(script[1..], text + pending, wanted + text)
      case Delete(text) => (pending + text)[|text|..] == wanted && Faithful(script[1..], "", "")
  }

  /** For every script: the operations turn the old text into the new one if and only if the
      script is faithful. */
  lemma {:induction false} ActualIsNewIff(script: seq<Piece>, pending: string, wanted: string)
    requires |pending| == |wanted|
    ensures Actual(script, pending) == wanted + New(script) <==> Faithful(script, pending, wanted)
  {
    if script == [] {
      assert wanted + New(script) == wanted;
    } else if script[0].text == "" {
      assert New(script) == New(script[1..]);
      ActualIsNewIff(script[1..], pending, wanted);
    } else {
      var text, rest := script[0].text, script[1..];
      match script[0]
      case Insert(_) =>
        ActualIsNewIff(rest, text + pending, wanted + text);
        assert wanted + New(script) == (wanted + text) + New(rest);
      case Equal(_) =>
        ActualIsNewIff(rest, "", "");
        SplitAround(pending, wanted, text, Actual(rest, ""), New(rest));
      case Delete(_) =>
        ActualIsNewIff(rest, "", "");
        SplitEqual((pending + text)[|text|..], Actual(rest, ""), wanted, New(rest));
        assert "" + New(rest) == New(rest);
    }
  }

  lemma SplitAround(pending: string, wanted: string, text: string, actual: string, next: string)
    requires |pending| == |wanted|
    ensures pending + text + actual == wanted + (text + next) <==> pending == wanted && actual == "" + next
  {
    assert pending + text + actual == pending + (text + actual) && "" + next == next;
    SplitEqual(pending, text + actual, wanted, text + next);
    SplitEqual(text, actual, text, next);
  }

  lemma SplitEqual(a: string, b: string, c: string, d: string)
    requires |a| == |c|
    ensures a + b == c + d <==> a == c && b == d
  {
    assert (a + b)[..|a|] == a && (a + b)[|a|..] == b;
    assert (c + d)[..|c|] == c && (c + d)[|c|..] == d;
  }

  /** Normal form: pieces are not empty, and an insertion is the last thing before an equal piece
      or the end. So between equal pieces stand deletions and then at most one insertion. */
  predicate Normal(script: seq<Piece>) {
    forall i :: 0 <= i < |script| ==>
      script[i].text != "" && (script[i].Insert? && i + 1 < |script| ==> script[i + 1].Equal?)
  }

  lemma {:induction false} NormalIsFaithful(script: seq<Piece>)
    requires Normal(script)
    ensures Faithful(script, "", "")
  {
    if script != [] {
      var text, rest := script[0].text, script[1..];
      NormalIsFaithful(rest);
      match script[0]
      case Equal(_) =>
      case Delete(_) => assert ("" + text)[|text|..] == "";
      case Insert(_) =>
        assert text + "" == text && "" + text == text;
        if rest != [] {
          assert script[1].Equal? && script[1].text != "";
        }
    }
  }

  /** The round trip: for a script in normal form, applying its operations from the highest index
      down turns the old text into exactly the new text, with every operation inside the text. */
  lemma {:induction false} RoundTrip(script: seq<Piece>)
    requires forall i :: 0 <= i < |script| ==> script[i].text != ""
    requires forall i :: 0 < i < |script| && script[i - 1].Insert? ==> script[i].Equal?
    ensures ApplyAll(Old(script), SortDesc(OpsFrom(script, 0))) == Some(New(script))
  {
    assert Normal(script) by {
      forall i | 0 <= i < |script| && script[i].Insert? && i + 1 < |script| ensures script[i + 1].Equal? {
        assert script[(i + 1) - 1].Insert?;
      }
    }
    NormalIsFaithful(script);
    RoundTripIff(script);
  }

  lemma RoundTripIff(script: seq<Piece>)
    ensures ApplyAll(Old(script), SortDesc(OpsFrom(script, 0))) == Some(Actual(script, ""))
    ensures ApplyAll(Old(script), SortDesc(OpsFrom(script, 0))) == Some(New(script)) <==> Faithful(script, "", "")
  {
    OpsProduce(script, "", [], "");
    assert "" + Old(script) == Old(script) && [] + OpsFrom(script, 0) == OpsFrom(script, 0);
    assert "" + Actual(script, "") == Actual(script, "") && "" + New(script) == New(script);
    ActualIsNewIff(script, "", "");
  }

  /** An insertion in front of a deletion is eaten by it: replacing "a" by "x" leaves "a". */
  lemma InsertBeforeDeleteFails()
    ensures var script := [Insert("x"), Delete("a")];
      Old(script) == "a" && New(script) == "x" &&
      ApplyAll("a", SortDesc(OpsFrom(script, 0))) == Some("a")
  {
    var script := [Insert("x"), Delete("a")];
    assert script[1..] == [Delete("a")] && [Delete("a")][1..] == [];
    RoundTripIff(script);
    assert Actual([], "") == "";
    assert Actual([Delete("a")], "x" + "") == ("x" + "" + "a")[|"a"|..] + "";
    assert ("x" + "" + "a")[1..] == "a";
    assert Old([]) == "" && New([]) == "";
    assert Old([Delete("a")]) == "a" + "" && "a" + "" == "a";
    assert New([Delete("a")]) == "" + "" && "x" + "" == "x";
    assert Old(script) == "" + "a" && "" + "a" == "a";
  }

  // ---- The text being edited ----

  class YText {
    var text: string

    constructor (text: string)
      ensures this.text == text
    {
      this.text := text;
    }

    method Insert(index: nat, ins: string)
      requires index <= |text|
      modifies this
      ensures Some(text) == Apply(old(text), InsertOp(index, ins))
    {
      text := text[..index] + ins + text[index..];
    }

    method Delete(index: nat, length: nat)
      requires index + length <= |text|
      modifies this
      ensures Some(text) == Apply(old(text), DeleteOp(index, length))
    {
      text := text[..index] + text[index + length..];
    }
  }

  method ApplyDiffToYText(ytext: YText, ops: seq<DiffOp>)
    requires ApplyAll(ytext.text, SortDesc(ops)).Some?
    modifies ytext
    ensures Some(ytext.text) == ApplyAll(old(ytext.text), SortDesc(ops))
  {
    var sorted := SortDesc(ops);
    for i := 0 to |sorted|
      invariant ApplyAll(ytext.text, sorted[i..]) == ApplyAll(old(ytext.text), sorted)
    {
      assert sorted[i..][1..] == sorted[i + 1..];
      match sorted[i]
      case InsertOp(index, text) => ytext.Insert(index, text);
      case DeleteOp(index, length) => ytext.Delete(index, length);
    }
  }

  function Computed(oldText: string, newText: string, script: seq<Piece>): seq<DiffOp> {
    if oldText == newText then [] else OpsFrom(script, 0)
  }

  /** Computes and applies in one go. `script` is the library's answer for the two texts. The text
      must be long enough for the operations, as `oldText` itself always is; if it is `oldText`, it
      becomes the new text if and only if the script is faithful. */
  method ComputeAndApply(ytext: YText, oldText: string, newText: string, script: seq<Piece>) returns (ops: seq<DiffOp>)
    requires Old(script) == oldText && New(script) == newText
    requires ytext.text == oldText || ApplyAll(ytext.text, SortDesc(Computed(oldText, newText, script))).Some?
    modifies ytext
    ensures ops == Computed(oldText, newText, script)
    ensures Some(ytext.text) == ApplyAll(old(ytext.text), SortDesc(ops))
    ensures old(ytext.text) == oldText ==> (ytext.text == newText <==> oldText == newText || Faithful(script, "", ""))
    ensures old(ytext.text) == oldText && Normal(script) ==> ytext.text == newText
  {
    hide OpsFrom, Faithful, Normal, Actual;
    ops := ComputeDiff(oldText, newText, script);
    RoundTripIff(script);
    if Normal(script) { NormalIsFaithful(script); }
    ApplyDiffToYText(ytext, ops);
  }
}
