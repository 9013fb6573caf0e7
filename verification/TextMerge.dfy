/** The three-way text merge: two edit lists over one base, walked with two pointers. */
module TextMerge {
  import opened Common
  import opened TextLines
  import opened LineDiff

  datatype TextMergeResult = Clean(text: string) | Conflict

  const MAX_LCS_CELLS := 2_000_000

  // ---------------------------------------------------------------- pairs of replacements

  predicate SameRange(left: Replacement, right: Replacement) {
    left.start == right.start && left.end == right.end
  }

  predicate RangesOverlap(left: Replacement, right: Replacement) {
    left.start < right.end && right.start < left.end
  }

  predicate ConflictsAtSameInsertionPoint(left: Replacement, right: Replacement) {
    left.start == left.end && right.start == right.end && left.start == right.start && left.lines != right.lines
  }

  /** Two replacements that cannot both be applied: same range with different lines, or overlapping
      ranges that differ. */
  predicate Clash(left: Replacement, right: Replacement) {
    if SameRange(left, right) then left.lines != right.lines else RangesOverlap(left, right)
  }

  ghost predicate AnyClash(local: seq<Replacement>, remote: seq<Replacement>) {
    exists i, j :: 0 <= i < |local| && 0 <= j < |remote| && Clash(local[i], remote[j])
  }

  // ---------------------------------------------------------------- the union of two edit lists

  predicate Before(left: Replacement, right: Replacement) {
    left.end <= right.start && !SameRange(left, right)
  }

  ghost predicate Sorted(edits: seq<Replacement>) {
    && (forall k | 0 <= k < |edits| :: edits[k].start <= edits[k].end)
    && (forall k, l | 0 <= k < l < |edits| :: Before(edits[k], edits[l]))
  }

  /** Both lists in one, in base order; an edit that is in both lists occurs once. */
  function UnionEdits(local: seq<Replacement>, remote: seq<Replacement>): seq<Replacement>
    decreases |local| + |remote|
  {
    if local == [] then remote
    else if remote == [] then local
    else if local[0] == remote[0] then [local[0]] + UnionEdits(local[1..], remote[1..])
    else if Before(local[0], remote[0]) then [local[0]] + UnionEdits(local[1..], remote)
    else [remote[0]] + UnionEdits(local, remote[1..])
  }

  lemma SeparatedIsSorted(edits: seq<Replacement>)
    requires Separated(edits)
    ensures Sorted(edits)
  {
    forall k, l | 0 <= k < l < |edits| ensures Before(edits[k], edits[l]) {
      assert edits[k].end < edits[l].start && edits[l].start <= edits[l].end;
    }
  }

  lemma SortedCons(head: Replacement, edits: seq<Replacement>)
    requires Sorted(edits) && head.start <= head.end
    requires forall e | e in edits :: Before(head, e)
    ensures Sorted([head] + edits)
  {
  }

  lemma SortedTail(edits: seq<Replacement>)
    requires Sorted(edits) && edits != []
    ensures Sorted(edits[1..])
    ensures forall e | e in edits[1..] :: Before(edits[0], e)
  {
    forall e | e in edits[1..] ensures Before(edits[0], e) {
      var k :| 1 <= k < |edits| && edits[k] == e;
    }
  }

  /** The heads that decide what the walk does next. */
  lemma NoClashHeads(local: seq<Replacement>, remote: seq<Replacement>)
    requires Separated(local) && Separated(remote) && local != [] && remote != []
    requires !Clash(local[0], remote[0])
    ensures local[0] == remote[0] || Before(local[0], remote[0]) || Before(remote[0], local[0])
    ensures local[0] != remote[0] ==> !(Before(local[0], remote[0]) && Before(remote[0], local[0]))
  {
  }

  /** An edit that ends before the other list starts clashes with nothing in it. */
  lemma TakenEditClashesNowhere(edit: Replacement, others: seq<Replacement>)
    requires Separated(others) && edit.start <= edit.end
    requires others != [] ==> edit == others[0] || Before(edit, others[0])
    ensures forall j | 0 <= j < |others| :: !Clash(edit, others[j]) && !Clash(others[j], edit)
    ensures forall j | 0 < j < |others| :: Before(edit, others[j])
  {
    if others != [] {
      assert Changes(others[0]) && others[0].start <= others[0].end;
      forall j | 0 < j < |others|
        ensures !Clash(edit, others[j]) && !Clash(others[j], edit) && Before(edit, others[j])
      {
        assert others[0].end < others[j].start && others[j].start <= others[j].end;
      }
    }
  }

  /** The union holds exactly the edits of the two lists, each once, in base order. */
  lemma {:induction false} UnionIsSortedUnion(local: seq<Replacement>, remote: seq<Replacement>)
    requires Separated(local) && Separated(remote) && !AnyClash(local, remote)
    ensures Sorted(UnionEdits(local, remote))
    ensures forall e :: e in UnionEdits(local, remote) <==> e in local || e in remote
    decreases |local| + |remote|
  {
    if local == [] || remote == [] {
      SeparatedIsSorted(local);
      SeparatedIsSorted(remote);
    } else {
      NoClashHeads(local, remote);
      SeparatedIsSorted(local);
      SeparatedIsSorted(remote);
      SortedTail(local);
      SortedTail(remote);
      var l', r' := local[1..], remote[1..];
      assert local == [local[0]] + l' && remote == [remote[0]] + r';
      if local[0] == remote[0] {
        NoClashTails(local, remote, 1, 1);
        UnionIsSortedUnion(l', r');
        SortedCons(local[0], UnionEdits(l', r'));
      } else if Before(local[0], remote[0]) {
        NoClashTails(local, remote, 1, 0);
        UnionIsSortedUnion(l', remote);
        BeforeAll(local[0], remote);
        SortedCons(local[0], UnionEdits(l', remote));
      } else {
        NoClashTails(local, remote, 0, 1);
        UnionIsSortedUnion(local, r');
        BeforeAll(remote[0], local);
        SortedCons(remote[0], UnionEdits(local, r'));
      }
    }
  }

  lemma SeparatedTail(edits: seq<Replacement>, i: nat)
    requires i <= |edits| && Separated(edits)
    ensures Separated(edits[i..])
  {
  }

  lemma NoClashTails(local: seq<Replacement>, remote: seq<Replacement>, i: nat, j: nat)
    requires i <= |local| && j <= |remote| && !AnyClash(local, remote)
    ensures !AnyClash(local[i..], remote[j..])
    ensures Separated(local) ==> Separated(local[i..])
    ensures Separated(remote) ==> Separated(remote[j..])
  {
    forall a, b | 0 <= a < |local[i..]| && 0 <= b < |remote[j..]|
      ensures !Clash(local[i..][a], remote[j..][b])
    {
      assert !Clash(local[i + a], remote[j + b]);
    }
  }

  lemma BeforeAll(edit: Replacement, others: seq<Replacement>)
    requires Separated(others) && edit.start <= edit.end
    requires others != [] ==> Before(edit, others[0])
    ensures forall e | e in others :: Before(edit, e)
  {
    TakenEditClashesNowhere(edit, others);
  }

  lemma MemberAfterHead(edits: seq<Replacement>, edit: Replacement)
    requires Sorted(edits) && edit in edits
    ensures edit == edits[0] || Before(edits[0], edit)
  {
    SortedTail(edits);
    assert edits == [edits[0]] + edits[1..];
  }

  lemma NotBothBefore(a: Replacement, b: Replacement)
    requires a.start <= a.end && b.start <= b.end
    ensures !(Before(a, b) && Before(b, a))
  {
  }

  /** A sorted edit list is determined by the edits in it. */
  lemma {:induction false} SortedIsUnique(a: seq<Replacement>, b: seq<Replacement>)
    requires Sorted(a) && Sorted(b)
    requires forall e :: e in a <==> e in b
    ensures a == b
  {
    assert |a| > 0 ==> a[0] in b;
    assert |b| > 0 ==> b[0] in a;
    if a != [] && b != [] {
      SortedTail(a);
      SortedTail(b);
      assert a == [a[0]] + a[1..] && b == [b[0]] + b[1..];
      MemberAfterHead(a, b[0]);
      MemberAfterHead(b, a[0]);
      NotBothBefore(a[0], b[0]);
      forall e ensures e in a[1..] <==> e in b[1..] {
        if e in a[1..] {
          assert Before(a[0], e);
          assert e in a && e in b;
        }
        if e in b[1..] {
          assert Before(b[0], e);
          assert e in b && e in a;
        }
      }
      SortedIsUnique(a[1..], b[1..]);
    }
  }

  lemma AnyClashIsSymmetric(local: seq<Replacement>, remote: seq<Replacement>)
    ensures AnyClash(local, remote) <==> AnyClash(remote, local)
  {
    if AnyClash(local, remote) {
      var i, j :| 0 <= i < |local| && 0 <= j < |remote| && Clash(local[i], remote[j]);
      assert Clash(remote[j], local[i]);
    }
    if AnyClash(remote, local) {
      var j, i :| 0 <= j < |remote| && 0 <= i < |local| && Clash(remote[j], local[i]);
      assert Clash(local[i], remote[j]);
    }
  }

  lemma UnionIsSymmetric(local: seq<Replacement>, remote: seq<Replacement>)
    requires Separated(local) && Separated(remote) && !AnyClash(local, remote)
    ensures UnionEdits(local, remote) == UnionEdits(remote, local)
  {
    AnyClashIsSymmetric(local, remote);
    UnionIsSortedUnion(local, remote);
    UnionIsSortedUnion(remote, local);
    SortedIsUnique(UnionEdits(local, remote), UnionEdits(remote, local));
  }

  // ---------------------------------------------------------------- merging

  ghost predicate EditsOf(base: seq<Line>, edits: seq<Replacement>) {
    Separated(edits) && InOrder(base, 0, edits)
  }

  lemma {:induction false} UnionInOrder(base: seq<Line>, pos: nat, local: seq<Replacement>, remote: seq<Replacement>)
    requires Separated(local) && Separated(remote) && !AnyClash(local, remote)
    requires InOrder(base, pos, local) && InOrder(base, pos, remote)
    ensures InOrder(base, pos, UnionEdits(local, remote))
    decreases |local| + |remote|
  {
    if local != [] && remote != [] {
      NoClashHeads(local, remote);
      if local[0] == remote[0] {
        NoClashTails(local, remote, 1, 1);
        UnionInOrder(base, local[0].end, local[1..], remote[1..]);
      } else if Before(local[0], remote[0]) {
        NoClashTails(local, remote, 1, 0);
        UnionInOrder(base, local[0].end, local[1..], remote);
      } else {
        NoClashTails(local, remote, 0, 1);
        UnionInOrder(base, remote[0].end, local, remote[1..]);
      }
    }
  }

  /** What the merge of two edit lists is: nothing when some pair clashes, and otherwise the base with
      the union of the two lists applied once. */
  ghost function MergeSpec(base: seq<Line>, local: seq<Replacement>, remote: seq<Replacement>): Option<seq<Line>>
    requires EditsOf(base, local) && EditsOf(base, remote)
  {
    if AnyClash(local, remote) then None
    else
      UnionInOrder(base, 0, local, remote);
      Some(Apply(base, 0, UnionEdits(local, remote)))
  }

  /** One edit of the union applied. */
  function ApplyOne(base: seq<Line>, pos: nat, edit: Replacement): seq<Line>
    requires pos <= edit.start <= |base|
  {
    base[pos..edit.start] + edit.lines
  }

  /** What the two-pointer walk does with the two heads: give up, or apply one replacement and advance
      one or both lists. */
  datatype Choice = GiveUp | Take(edit: Replacement, fromLocal: nat, fromRemote: nat)

  predicate Real(head: Option<Replacement>) {
    head.Some? ==> head.value.start <= head.value.end && Changes(head.value)
  }

  /** The two branches marked `assert false` are the source's extra ways to fail; no input takes them. */
  function Choose(local: Option<Replacement>, remote: Option<Replacement>): (choice: Choice)
    requires Real(local) && Real(remote) && (local.Some? || remote.Some?)
    ensures choice.GiveUp? <==> local.Some? && remote.Some? && Clash(local.value, remote.value)
    ensures choice.Take? ==>
      && choice.fromLocal <= 1 && choice.fromRemote <= 1 && choice.fromLocal + choice.fromRemote > 0
      && (if choice.fromLocal == 1 then local == Some(choice.edit)
          else local.Some? ==> Before(choice.edit, local.value))
      && (if choice.fromRemote == 1 then remote == Some(choice.edit)
          else remote.Some? ==> Before(choice.edit, remote.value))
  {
    if local.Some? && remote.Some? then
      var l, r := local.value, remote.value;
      if SameRange(l, r) then
        if l.lines != r.lines then GiveUp else Take(l, 1, 1)
      else if ConflictsAtSameInsertionPoint(l, r) then
        assert false; GiveUp
      else if RangesOverlap(l, r) then
        GiveUp
      else if l.end <= r.start then
        Take(l, 1, 0)
      else if r.end <= l.start then
        Take(r, 0, 1)
      else
        assert false; GiveUp
    else if local.Some? then Take(local.value, 1, 0)
    else Take(remote.value, 0, 1)
  }

  function Head(edits: seq<Replacement>, index: nat): Option<Replacement> {
    if index < |edits| then Some(edits[index]) else None
  }

  /** The two-pointer walk fails exactly on a clash and otherwise applies the union of the two lists. */
  method MergeReplacements(base: seq<Line>, localChanges: seq<Replacement>, remoteChanges: seq<Replacement>)
      returns (merged: Option<seq<Line>>)
    requires EditsOf(base, localChanges) && EditsOf(base, remoteChanges)
    ensures merged.None? <==> AnyClash(localChanges, remoteChanges)
    ensures merged == MergeSpec(base, localChanges, remoteChanges)
  {
    hide Walk, AnyClash;
    var output: seq<Line> := [];
    var baseIndex: nat, localIndex: nat, remoteIndex: nat := 0, 0, 0;
    WalkStart(base, localChanges, remoteChanges);
    while localIndex < |localChanges| || remoteIndex < |remoteChanges|
      invariant localIndex <= |localChanges| && remoteIndex <= |remoteChanges|
      invariant Walk(base, baseIndex, localChanges, remoteChanges, localIndex, remoteIndex, output)
      decreases |localChanges| - localIndex + |remoteChanges| - remoteIndex
    {
      WalkStep(base, baseIndex, localChanges, remoteChanges, localIndex, remoteIndex, output);
      match Choose(Head(localChanges, localIndex), Head(remoteChanges, remoteIndex)) {
        case GiveUp => return None;
        case Take(edit, fromLocal, fromRemote) =>
          output := output + ApplyOne(base, baseIndex, edit);
          baseIndex := edit.end;
          localIndex, remoteIndex := localIndex + fromLocal, remoteIndex + fromRemote;
      }
    }
    WalkEnd(base, baseIndex, localChanges, remoteChanges, output);
    return Some(output + base[baseIndex..]);
  }

  /** The lists still to merge and the position reached fit together, and finishing them finishes the
      whole merge. */
  ghost predicate Walk(base: seq<Line>, pos: nat, local: seq<Replacement>, remote: seq<Replacement>, i: nat, j: nat,
      output: seq<Line>)
  {
    && i <= |local| && j <= |remote|
    && EditsOf(base, local) && EditsOf(base, remote)
    && Separated(local[i..]) && Separated(remote[j..])
    && InOrder(base, pos, local[i..]) && InOrder(base, pos, remote[j..])
    && (AnyClash(local, remote) <==> AnyClash(local[i..], remote[j..]))
    && (!AnyClash(local, remote) ==>
          && InOrder(base, pos, UnionEdits(local[i..], remote[j..]))
          && Some(output + Apply(base, pos, UnionEdits(local[i..], remote[j..]))) == MergeSpec(base, local, remote))
  }

  lemma WalkStart(base: seq<Line>, local: seq<Replacement>, remote: seq<Replacement>)
    requires EditsOf(base, local) && EditsOf(base, remote)
    ensures Walk(base, 0, local, remote, 0, 0, [])
  {
    assert local[0..] == local && remote[0..] == remote;
    if !AnyClash(local, remote) {
      UnionInOrder(base, 0, local, remote);
      assert [] + Apply(base, 0, UnionEdits(local, remote)) == Apply(base, 0, UnionEdits(local, remote));
    }
  }

  lemma WalkClash(base: seq<Line>, pos: nat, local: seq<Replacement>, remote: seq<Replacement>, i: nat, j: nat,
      output: seq<Line>)
    requires Walk(base, pos, local, remote, i, j, output) && i < |local| && j < |remote|
    requires Clash(local[i], remote[j])
    ensures AnyClash(local, remote)
  {
  }

  lemma WalkHeads(base: seq<Line>, pos: nat, local: seq<Replacement>, remote: seq<Replacement>, i: nat, j: nat,
      output: seq<Line>)
    requires Walk(base, pos, local, remote, i, j, output)
    ensures i <= |local| && j <= |remote|
    ensures Real(Head(local, i)) && Real(Head(remote, j))
  {
  }

  lemma WalkEnd(base: seq<Line>, pos: nat, local: seq<Replacement>, remote: seq<Replacement>, output: seq<Line>)
    requires Walk(base, pos, local, remote, |local|, |remote|, output)
    ensures pos <= |base| && !AnyClash(local, remote)
    ensures MergeSpec(base, local, remote) == Some(output + base[pos..])
  {
    assert local[|local|..] == [] && remote[|remote|..] == [];
  }

  lemma WalkStep(base: seq<Line>, pos: nat, local: seq<Replacement>, remote: seq<Replacement>, i: nat, j: nat,
      output: seq<Line>)
    requires Walk(base, pos, local, remote, i, j, output)
    requires i < |local| || j < |remote|
    ensures Real(Head(local, i)) && Real(Head(remote, j))
    ensures match Choose(Head(local, i), Head(remote, j))
      case GiveUp => AnyClash(local, remote)
      case Take(edit, di, dj) =>
        && i + di <= |local| && j + dj <= |remote|
        && pos <= edit.start <= edit.end <= |base|
        && Walk(base, edit.end, local, remote, i + di, j + dj, output + ApplyOne(base, pos, edit))
  {
    WalkHeads(base, pos, local, remote, i, j, output);
    hide Walk, AnyClash;
    match Choose(Head(local, i), Head(remote, j))
    case GiveUp =>
      WalkClash(base, pos, local, remote, i, j, output);
    case Take(edit, di, dj) =>
      WalkTakes(base, pos, local, remote, i, j, output, edit, di, dj);
  }

  lemma WalkTakes(base: seq<Line>, pos: nat, local: seq<Replacement>, remote: seq<Replacement>, i: nat, j: nat,
      output: seq<Line>, edit: Replacement, di: nat, dj: nat)
    requires i + di <= |local| && j + dj <= |remote| && di <= 1 && dj <= 1 && di + dj > 0
    requires Walk(base, pos, local, remote, i, j, output)
    requires di == 1 ==> edit == local[i]
    requires dj == 1 ==> edit == remote[j]
    requires di == 0 && i < |local| ==> Before(edit, local[i])
    requires dj == 0 && j < |remote| ==> Before(edit, remote[j])
    ensures pos <= edit.start <= edit.end <= |base|
    ensures Walk(base, edit.end, local, remote, i + di, j + dj, output + ApplyOne(base, pos, edit))
  {
    var ls, rs := local[i..], remote[j..];
    assert local[i + di..] == ls[di..] && remote[j + dj..] == rs[dj..];
    InOrderTail(base, pos, ls, di, edit);
    InOrderTail(base, pos, rs, dj, edit);
    ClashTails(ls, rs, edit, di, dj);
    if !AnyClash(local, remote) {
      UnionHead(ls, rs, edit, di, dj);
      ApplyHead(base, pos, output, edit, UnionEdits(ls[di..], rs[dj..]));
    }
  }

  lemma ApplyHead(base: seq<Line>, pos: nat, output: seq<Line>, edit: Replacement, rest: seq<Replacement>)
    requires InOrder(base, pos, [edit] + rest)
    ensures pos <= edit.start <= edit.end <= |base| && InOrder(base, edit.end, rest)
    ensures output + Apply(base, pos, [edit] + rest)
        == output + ApplyOne(base, pos, edit) + Apply(base, edit.end, rest)
  {
    assert ([edit] + rest)[1..] == rest;
  }

  lemma UnionHead(ls: seq<Replacement>, rs: seq<Replacement>, edit: Replacement, di: nat, dj: nat)
    requires di <= |ls| && dj <= |rs| && di <= 1 && dj <= 1 && di + dj > 0
    requires Separated(ls) && Separated(rs)
    requires di == 1 ==> edit == ls[0]
    requires dj == 1 ==> edit == rs[0]
    requires di == 0 && ls != [] ==> Before(edit, ls[0])
    requires dj == 0 && rs != [] ==> Before(edit, rs[0])
    ensures UnionEdits(ls, rs) == [edit] + UnionEdits(ls[di..], rs[dj..])
  {
    if di == 0 { assert ls[0..] == ls; }
    if dj == 0 { assert rs[0..] == rs; }
  }

  lemma InOrderTail(base: seq<Line>, pos: nat, edits: seq<Replacement>, d: nat, edit: Replacement)
    requires InOrder(base, pos, edits) && d <= |edits| && d <= 1
    requires d == 1 ==> edit == edits[0]
    requires d == 0 && edits != [] ==> edit.end <= edits[0].start
    ensures d == 1 ==> pos <= edit.start <= edit.end <= |base|
    ensures edit.end <= |base| ==> InOrder(base, edit.end, edits[d..])
  {
    if d == 0 { assert edits[0..] == edits; }
  }

  lemma ClashTails(ls: seq<Replacement>, rs: seq<Replacement>, edit: Replacement, di: nat, dj: nat)
    requires di <= |ls| && dj <= |rs| && di <= 1 && dj <= 1 && di + dj > 0
    requires Separated(ls) && Separated(rs)
    requires di == 1 ==> edit == ls[0]
    requires dj == 1 ==> edit == rs[0]
    requires di == 0 && ls != [] ==> Before(edit, ls[0])
    requires dj == 0 && rs != [] ==> Before(edit, rs[0])
    ensures AnyClash(ls, rs) <==> AnyClash(ls[di..], rs[dj..])
    ensures Separated(ls[di..]) && Separated(rs[dj..])
  {
    SeparatedTail(ls, di);
    SeparatedTail(rs, dj);
    if AnyClash(ls, rs) {
      var a, b :| 0 <= a < |ls| && 0 <= b < |rs| && Clash(ls[a], rs[b]);
      assert a >= di by { if di == 1 { TakenEditClashesNowhere(edit, rs); } }
      assert b >= dj by { if dj == 1 { TakenEditClashesNowhere(edit, ls); } }
      assert ls[di..][a - di] == ls[a] && rs[dj..][b - dj] == rs[b];
    } else {
      NoClashTails(ls, rs, di, dj);
    }
  }

  // ---------------------------------------------------------------- merging texts

  predicate ExceedsLcsBudget(left: seq<Line>, right: seq<Line>) {
    (|left| + 1) * (|right| + 1) > MAX_LCS_CELLS
  }

  predicate WithinBudget(base: string, local: string, remote: string) {
    && !ExceedsLcsBudget(SplitLines(base), SplitLines(local))
    && !ExceedsLcsBudget(SplitLines(base), SplitLines(remote))
  }

  /** The merge on lines, without the fast paths and the size budget. */
  ghost function MergeLines(base: seq<Line>, local: seq<Line>, remote: seq<Line>): Option<seq<Line>> {
    DiffRebuildsVariant(base, local);
    DiffRebuildsVariant(base, remote);
    MergeSpec(base, Diff(base, local), Diff(base, remote))
  }

  ghost function FullMerge(base: string, local: string, remote: string): TextMergeResult {
    match MergeLines(SplitLines(base), SplitLines(local), SplitLines(remote))
    case None => Conflict
    case Some(lines) => Clean(Join(lines))
  }

  ghost function MergeText3Spec(base: string, local: string, remote: string): TextMergeResult {
    if local == remote then Clean(local)
    else if base == local then Clean(remote)
    else if base == remote then Clean(local)
    else if !WithinBudget(base, local, remote) then Conflict
    else FullMerge(base, local, remote)
  }

  method MergeText3(base: string, local: string, remote: string) returns (result: TextMergeResult)
    ensures result == MergeText3Spec(base, local, remote)
  {
    if local == remote { return Clean(local); }
    if base == local { return Clean(remote); }
    if base == remote { return Clean(local); }
    var baseLines, localLines, remoteLines := SplitLines(base), SplitLines(local), SplitLines(remote);
    if ExceedsLcsBudget(baseLines, localLines) || ExceedsLcsBudget(baseLines, remoteLines) {
      return Conflict;
    }
    var localChanges := DiffReplacements(baseLines, localLines);
    var remoteChanges := DiffReplacements(baseLines, remoteLines);
    DiffRebuildsVariant(baseLines, localLines);
    DiffRebuildsVariant(baseLines, remoteLines);
    var merged := MergeReplacements(baseLines, localChanges, remoteChanges);
    if merged.Some? {
      return Clean(Join(merged.value));
    } else {
      return Conflict;
    }
  }

  // ---------------------------------------------------------------- theorems

  /** A clean merge of lines is the base with both diffs applied: each edit of either diff once, an edit
      of both diffs once, in base order; and the merge is clean exactly when no two edits clash. */
  lemma MergeAppliesBothDiffs(base: seq<Line>, local: seq<Line>, remote: seq<Line>)
    ensures MergeLines(base, local, remote).None? <==> AnyClash(Diff(base, local), Diff(base, remote))
    ensures MergeLines(base, local, remote).Some? ==>
      exists edits ::
        && Sorted(edits)
        && (forall e :: e in edits <==> e in Diff(base, local) || e in Diff(base, remote))
        && InOrder(base, 0, edits)
        && MergeLines(base, local, remote).value == Apply(base, 0, edits)
  {
    DiffRebuildsVariant(base, local);
    DiffRebuildsVariant(base, remote);
    var l, r := Diff(base, local), Diff(base, remote);
    if !AnyClash(l, r) {
      UnionIsSortedUnion(l, r);
      UnionInOrder(base, 0, l, r);
      var edits := UnionEdits(l, r);
      assert Sorted(edits) && InOrder(base, 0, edits);
    }
  }

  lemma MergeLinesIsSymmetric(base: seq<Line>, local: seq<Line>, remote: seq<Line>)
    ensures MergeLines(base, local, remote) == MergeLines(base, remote, local)
  {
    DiffRebuildsVariant(base, local);
    DiffRebuildsVariant(base, remote);
    AnyClashIsSymmetric(Diff(base, local), Diff(base, remote));
    if !AnyClash(Diff(base, local), Diff(base, remote)) {
      UnionIsSymmetric(Diff(base, local), Diff(base, remote));
    }
  }

  /** Swapping the two sides changes nothing, fast paths and size budget included. */
  lemma MergeIsSymmetric(base: string, local: string, remote: string)
    ensures MergeText3Spec(base, local, remote) == MergeText3Spec(base, remote, local)
  {
    MergeLinesIsSymmetric(SplitLines(base), SplitLines(local), SplitLines(remote));
  }

  /** Two replacements touch: they share a base line, or one lies inside the other, or they insert at one point. */
  predicate Touch(a: Replacement, b: Replacement) {
    || (a.start < b.end && b.start < a.end)
    || (a.start == a.end == b.start == b.end)
  }

  /** Some edit of the one list differs from an edit of the other that it touches. */
  ghost predicate AnyTouch(local: seq<Replacement>, remote: seq<Replacement>) {
    exists i, j :: 0 <= i < |local| && 0 <= j < |remote| && local[i] != remote[j] && Touch(local[i], remote[j])
  }

  lemma ClashesTouch(local: seq<Replacement>, remote: seq<Replacement>)
    requires forall e | e in local + remote :: e.start <= e.end
    ensures AnyClash(local, remote) <==> AnyTouch(local, remote)
  {
    forall i, j | 0 <= i < |local| && 0 <= j < |remote|
      ensures Clash(local[i], remote[j]) <==> local[i] != remote[j] && Touch(local[i], remote[j])
    {
      assert local[i] in local + remote && remote[j] in local + remote;
      ClashMeans(local[i], remote[j]);
    }
    hide Clash, Touch;
  }

  /** Three different texts conflict exactly when a table of either diff would have more than two million cells, or when some
      local and some remote replacement differ and touch; otherwise the result is the merge of their lines. */
  lemma ConflictExactly(base: string, local: string, remote: string)
    requires base != local && base != remote && local != remote
    ensures var b, l, r := SplitLines(base), SplitLines(local), SplitLines(remote);
      && (MergeText3Spec(base, local, remote).Conflict? <==>
            || (|b| + 1) * (|l| + 1) > 2_000_000 || (|b| + 1) * (|r| + 1) > 2_000_000
            || AnyTouch(Diff(b, l), Diff(b, r)))
      && (MergeText3Spec(base, local, remote).Clean? ==>
            && MergeLines(b, l, r).Some?
            && MergeText3Spec(base, local, remote).text == Join(MergeLines(b, l, r).value))
  {
    var b, l, r := SplitLines(base), SplitLines(local), SplitLines(remote);
    hide SplitLines, MergeLines, AnyClash, AnyTouch, Join;
    MergeAppliesBothDiffs(b, l, r);
    EditsAreForward(b, l);
    EditsAreForward(b, r);
    hide Diff;
    ClashesTouch(Diff(b, l), Diff(b, r));
  }

  lemma EditsAreForward(base: seq<Line>, variant: seq<Line>)
    ensures forall e | e in Diff(base, variant) :: e.start <= e.end
  {
    DiffRebuildsVariant(base, variant);
  }

  lemma ClashMeans(a: Replacement, b: Replacement)
    requires a.start <= a.end && b.start <= b.end
    ensures Clash(a, b) <==> a != b && Touch(a, b)
  {
  }

  lemma DiffOfSelf(base: seq<Line>, i: nat)
    requires i <= |base|
    ensures DiffFrom(base, base, i, i, None) == []
    decreases |base| - i
  {
    if i < |base| { DiffOfSelf(base, i + 1); }
  }

  lemma UnionOfSame(edits: seq<Replacement>)
    ensures UnionEdits(edits, edits) == edits
  {
    if edits != [] {
      UnionOfSame(edits[1..]);
      assert edits == [edits[0]] + edits[1..];
    }
  }

  lemma NoClashWithSelf(edits: seq<Replacement>)
    requires Separated(edits)
    ensures !AnyClash(edits, edits)
  {
    forall i, j | 0 <= i < |edits| && 0 <= j < |edits| ensures !Clash(edits[i], edits[j]) {
      if i < j { assert edits[i].end < edits[j].start; }
      if j < i { assert edits[j].end < edits[i].start; }
    }
  }

  /** On lines: equal sides merge to that side, and an untouched side yields the other one. */
  lemma MergeLinesTrivialCases(base: seq<Line>, variant: seq<Line>)
    ensures MergeLines(base, variant, variant) == Some(variant)
    ensures MergeLines(base, base, variant) == Some(variant)
    ensures MergeLines(base, variant, base) == Some(variant)
  {
    DiffRebuildsVariant(base, variant);
    DiffRebuildsVariant(base, base);
    DiffOfSelf(base, 0);
    var d := Diff(base, variant);
    assert Diff(base, base) == [];
    NoClashWithSelf(d);
    UnionOfSame(d);
    assert !AnyClash([], d) && !AnyClash(d, []);
    assert UnionEdits([], d) == d && UnionEdits(d, []) == d;
  }

  /** Within the size budget the three fast paths return what the diff and merge would return if and
      only if the text they return has no U+2028 or U+2029. */
  lemma FastPathsAgree(base: string, local: string, remote: string)
    requires local == remote || base == local || base == remote
    ensures var result := MergeText3Spec(base, local, remote);
      result == FullMerge(base, local, remote) <==> SeparatorFree(result.text)
  {
    var result := MergeText3Spec(base, local, remote);
    MergeLinesTrivialCases(SplitLines(base), SplitLines(result.text));
    SplitJoinRoundTrip(result.text);
  }
}
