/**
 The line diff behind the three-way merge: a table of longest-common-subsequence lengths over
 suffixes, and a greedy walk through it that emits replacements.
 */
module LineDiff {
  import opened Common
  import opened TextLines

  /** Replace base[start..end] by `lines`. */
  datatype Replacement = Replacement(start: nat, end: nat, lines: seq<Line>)

  // ---------------------------------------------------------------- common subsequences

  /** A common subsequence of left[i..] and right[j..], as the index pairs it matches. */
  ghost predicate Matching(pairs: seq<(nat, nat)>, left: seq<Line>, i: nat, right: seq<Line>, j: nat) {
    && (forall k | 0 <= k < |pairs| ::
          i <= pairs[k].0 < |left| && j <= pairs[k].1 < |right| && left[pairs[k].0] == right[pairs[k].1])
    && (forall k, l | 0 <= k < l < |pairs| :: pairs[k].0 < pairs[l].0 && pairs[k].1 < pairs[l].1)
  }

  /** The recurrence the table is filled by. */
  function Lcs(left: seq<Line>, i: nat, right: seq<Line>, j: nat): nat
    requires i <= |left| && j <= |right|
    decreases |left| - i + |right| - j
  {
    if i == |left| || j == |right| then 0
    else if left[i] == right[j] then Lcs(left, i + 1, right, j + 1) + 1
    else
      var below, after := Lcs(left, i + 1, right, j), Lcs(left, i, right, j + 1);
      if below >= after then below else after
  }

  /** No common subsequence of the two suffixes is longer than the table cell. */
  lemma {:induction false} LcsIsUpperBound(
      pairs: seq<(nat, nat)>, left: seq<Line>, i: nat, right: seq<Line>, j: nat)
    requires i <= |left| && j <= |right| && Matching(pairs, left, i, right, j)
    ensures |pairs| <= Lcs(left, i, right, j)
    decreases |left| - i + |right| - j
  {
    if pairs != [] {
      assert i <= pairs[0].0 < |left| && j <= pairs[0].1 < |right|;
      assert forall k | 0 < k < |pairs| :: pairs[0].0 < pairs[k].0 && pairs[0].1 < pairs[k].1;
      if left[i] == right[j] {
        LcsIsUpperBound(pairs[1..], left, i + 1, right, j + 1);
      } else if pairs[0].0 > i {
        LcsIsUpperBound(pairs, left, i + 1, right, j);
      } else {
        LcsIsUpperBound(pairs, left, i, right, j + 1);
      }
    }
  }

  /** Some common subsequence of the two suffixes is as long as the table cell. */
  lemma {:induction false} LcsIsReached(left: seq<Line>, i: nat, right: seq<Line>, j: nat)
      returns (pairs: seq<(nat, nat)>)
    requires i <= |left| && j <= |right|
    ensures Matching(pairs, left, i, right, j) && |pairs| == Lcs(left, i, right, j)
    decreases |left| - i + |right| - j
  {
    if i == |left| || j == |right| {
      pairs := [];
    } else if left[i] == right[j] {
      var rest := LcsIsReached(left, i + 1, right, j + 1);
      pairs := [(i, j)] + rest;
    } else if Lcs(left, i + 1, right, j) >= Lcs(left, i, right, j + 1) {
      pairs := LcsIsReached(left, i + 1, right, j);
    } else {
      pairs := LcsIsReached(left, i, right, j + 1);
    }
  }

  lemma LcsDropPrefix(left: seq<Line>, i: nat, i': nat, right: seq<Line>, j: nat, j': nat)
    requires i <= i' <= |left| && j <= j' <= |right|
    ensures Lcs(left, i', right, j') <= Lcs(left, i, right, j)
  {
    var pairs := LcsIsReached(left, i', right, j');
    LcsIsUpperBound(pairs, left, i, right, j);
  }

  lemma LcsShift(left: seq<Line>, i: nat, right: seq<Line>, j: nat, d: nat)
    requires i <= |left| && d + j <= |right|
    ensures Lcs(left, i, right[d..], j) == Lcs(left, i, right, d + j)
    decreases |left| - i + |right| - j
  {
    if i < |left| && d + j < |right| {
      if left[i] == right[d + j] {
        LcsShift(left, i + 1, right, j + 1, d);
      } else {
        LcsShift(left, i + 1, right, j, d);
        LcsShift(left, i, right, j + 1, d);
      }
    }
  }

  ghost predicate RowFilled(table: array2<nat>, left: seq<Line>, right: seq<Line>, i: nat, j: nat)
    requires table.Length0 == |left| + 1 && table.Length1 == |right| + 1 && i <= |left|
    reads table
  {
    forall b | j <= b <= |right| :: table[i, b] == Lcs(left, i, right, b)
  }

  /** Fills the table from its far corner; cell (i, j) is the longest common subsequence of the two
      suffixes that start there. */
  method CreateLcsTable(left: seq<Line>, right: seq<Line>) returns (table: array2<nat>)
    ensures fresh(table)
    ensures table.Length0 == |left| + 1 && table.Length1 == |right| + 1
    ensures forall i, j | 0 <= i <= |left| && 0 <= j <= |right| :: table[i, j] == Lcs(left, i, right, j)
  {
    table := new nat[|left| + 1, |right| + 1]((i, j) => 0);
    var i := |left|;
    while i > 0
      invariant 0 <= i <= |left|
      invariant forall a | i <= a <= |left| :: RowFilled(table, left, right, a, 0)
      invariant forall a | 0 <= a < i :: table[a, |right|] == 0
    {
      i := i - 1;
      label before:
      FillRow(table, left, right, i);
      forall a | i < a <= |left| ensures RowFilled(table, left, right, a, 0) {
        assert old@before(RowFilled(table, left, right, a, 0));
      }
    }
    forall a, b | 0 <= a <= |left| && 0 <= b <= |right| ensures table[a, b] == Lcs(left, a, right, b) {
      assert RowFilled(table, left, right, a, 0);
    }
  }

  method FillRow(table: array2<nat>, left: seq<Line>, right: seq<Line>, i: nat)
    requires table.Length0 == |left| + 1 && table.Length1 == |right| + 1 && i < |left|
    requires RowFilled(table, left, right, i + 1, 0) && table[i, |right|] == 0
    modifies table
    ensures RowFilled(table, left, right, i, 0)
    ensures forall a, b | 0 <= a <= |left| && a != i && 0 <= b <= |right| :: table[a, b] == old(table[a, b])
  {
    var j := |right|;
    while j > 0
      invariant 0 <= j <= |right|
      invariant RowFilled(table, left, right, i, j)
      invariant forall a, b | 0 <= a <= |left| && a != i && 0 <= b <= |right| :: table[a, b] == old(table[a, b])
    {
      j := j - 1;
      assert old(table[i + 1, j]) == Lcs(left, i + 1, right, j);
      assert old(table[i + 1, j + 1]) == Lcs(left, i + 1, right, j + 1);
      table[i, j] :=
        if left[i] == right[j] then table[i + 1, j + 1] + 1
        else if table[i + 1, j] >= table[i, j + 1] then table[i + 1, j] else table[i, j + 1];
    }
  }

  // ---------------------------------------------------------------- edit scripts

  /** The replacements lie inside the base, in order, from position `pos` on. */
  ghost predicate InOrder(base: seq<Line>, pos: nat, edits: seq<Replacement>)
    decreases |edits|
  {
    if edits == [] then pos <= |base|
    else pos <= edits[0].start <= edits[0].end <= |base| && InOrder(base, edits[0].end, edits[1..])
  }

  predicate Changes(edit: Replacement) { edit.start < edit.end || edit.lines != [] }

  /** Every replacement does something, and one kept base line at least lies between two of them. */
  ghost predicate Separated(edits: seq<Replacement>) {
    && (forall k | 0 <= k < |edits| :: edits[k].start <= edits[k].end && Changes(edits[k]))
    && (forall k, l | 0 <= k < l < |edits| :: edits[k].end < edits[l].start)
  }

  /** The result of editing base[pos..]. */
  ghost function Apply(base: seq<Line>, pos: nat, edits: seq<Replacement>): seq<Line>
    requires InOrder(base, pos, edits)
    decreases |edits|
  {
    if edits == [] then base[pos..]
    else base[pos..edits[0].start] + edits[0].lines + Apply(base, edits[0].end, edits[1..])
  }

  /** How many lines of base[pos..] the edits keep. */
  ghost function Kept(base: seq<Line>, pos: nat, edits: seq<Replacement>): nat
    requires InOrder(base, pos, edits)
    decreases |edits|
  {
    if edits == [] then |base| - pos
    else edits[0].start - pos + Kept(base, edits[0].end, edits[1..])
  }

  /** An edit script keeps a common subsequence of the base and its result, so none keeps more lines
      than the table promises. */
  lemma {:induction false} KeptIsBounded(base: seq<Line>, pos: nat, edits: seq<Replacement>)
    requires InOrder(base, pos, edits)
    ensures pos <= |base|
    ensures Kept(base, pos, edits) <= Lcs(base, pos, Apply(base, pos, edits), 0)
    decreases |edits|, |base| - pos
  {
    var result := Apply(base, pos, edits);
    if edits == [] {
      if pos < |base| {
        assert base[pos..][1..] == base[pos + 1..];
        KeptIsBounded(base, pos + 1, edits);
        LcsShift(base, pos + 1, result, 0, 1);
      }
    } else if pos < edits[0].start {
      KeptIsBounded(base, pos + 1, edits);
      assert result[1..] == Apply(base, pos + 1, edits);
      LcsShift(base, pos + 1, result, 0, 1);
    } else {
      var n := |edits[0].lines|;
      KeptIsBounded(base, edits[0].end, edits[1..]);
      assert result[n..] == Apply(base, edits[0].end, edits[1..]);
      LcsShift(base, edits[0].end, result, 0, n);
      LcsDropPrefix(base, pos, edits[0].end, result, 0, n);
    }
  }

  // ---------------------------------------------------------------- the diff walk

  function Flush(current: Option<Replacement>): seq<Replacement> {
    if current.Some? then [current.value] else []
  }

  function Ensure(current: Option<Replacement>, i: nat): Replacement {
    if current.Some? then current.value else Replacement(i, i, [])
  }

  /** The replacements the walk emits from (i, j) on, with `current` open. */
  function DiffFrom(base: seq<Line>, variant: seq<Line>, i: nat, j: nat, current: Option<Replacement>)
      : seq<Replacement>
    requires i <= |base| && j <= |variant|
    decreases |base| - i + |variant| - j
  {
    if i < |base| && j < |variant| then
      if base[i] == variant[j] then
        Flush(current) + DiffFrom(base, variant, i + 1, j + 1, None)
      else if Lcs(base, i + 1, variant, j) >= Lcs(base, i, variant, j + 1) then
        DiffFrom(base, variant, i + 1, j, Some(Ensure(current, i).(end := i + 1)))
      else
        var open := Ensure(current, i);
        DiffFrom(base, variant, i, j + 1, Some(open.(lines := open.lines + [variant[j]])))
    else if i < |base| then
      DiffFrom(base, variant, i + 1, j, Some(Ensure(current, i).(end := i + 1)))
    else if j < |variant| then
      var open := Ensure(current, i);
      DiffFrom(base, variant, i, j + 1, Some(open.(lines := open.lines + [variant[j]])))
    else
      Flush(current)
  }

  function Diff(base: seq<Line>, variant: seq<Line>): seq<Replacement> {
    DiffFrom(base, variant, 0, 0, None)
  }

  method DiffReplacements(base: seq<Line>, variant: seq<Line>) returns (replacements: seq<Replacement>)
    ensures replacements == Diff(base, variant)
  {
    var lcs := CreateLcsTable(base, variant);
    replacements := [];
    var current: Option<Replacement> := None;
    var i, j := 0, 0;
    while i < |base| && j < |variant|
      invariant i <= |base| && j <= |variant|
      invariant replacements + DiffFrom(base, variant, i, j, current) == Diff(base, variant)
      decreases |base| - i + |variant| - j
    {
      if base[i] == variant[j] {
        replacements := replacements + Flush(current);
        current := None;
        i, j := i + 1, j + 1;
      } else if lcs[i + 1, j] >= lcs[i, j + 1] {
        current := Some(Ensure(current, i).(end := i + 1));
        i := i + 1;
      } else {
        var open := Ensure(current, i);
        current := Some(open.(lines := open.lines + [variant[j]]));
        j := j + 1;
      }
    }
    while i < |base|
      invariant i <= |base| && j <= |variant| && (i == |base| || j == |variant|)
      invariant replacements + DiffFrom(base, variant, i, j, current) == Diff(base, variant)
    {
      current := Some(Ensure(current, i).(end := i + 1));
      i := i + 1;
    }
    while j < |variant|
      invariant i == |base| && j <= |variant|
      invariant replacements + DiffFrom(base, variant, i, j, current) == Diff(base, variant)
    {
      var open := Ensure(current, i);
      current := Some(open.(lines := open.lines + [variant[j]]));
      j := j + 1;
    }
    replacements := replacements + Flush(current);
  }

  /** What the walk still has to do: rebuild variant[j..] from base[i..] and keep a longest common
      subsequence of the two. */
  ghost predicate Rebuilds(base: seq<Line>, pos: nat, edits: seq<Replacement>, variant: seq<Line>, i: nat, j: nat)
    requires i <= |base| && j <= |variant|
  {
    && InOrder(base, pos, edits)
    && Apply(base, pos, edits) == variant[j..]
    && Kept(base, pos, edits) == Lcs(base, i, variant, j)
  }

  lemma SeparatedCons(head: Replacement, edits: seq<Replacement>)
    requires Separated(edits) && head.start <= head.end && Changes(head)
    requires edits != [] ==> head.end < edits[0].start
    ensures Separated([head] + edits)
  {
    var all := [head] + edits;
    forall k, l | 0 <= k < l < |all| ensures all[k].end < all[l].start {
      if k == 0 && l > 1 {
        assert edits[0].end < edits[l - 1].start;
      }
    }
  }

  /** What an emitted list that starts with a grown `open` still has to do. */
  ghost predicate Grows(base: seq<Line>, open: Replacement, edits: seq<Replacement>, variant: seq<Line>, i: nat, j: nat)
    requires i <= |base| && j <= |variant|
  {
    && edits != [] && Separated(edits)
    && edits[0].start == open.start && i <= edits[0].end <= |base|
    && open.lines <= edits[0].lines
    && InOrder(base, edits[0].end, edits[1..])
    && edits[0].lines[|open.lines|..] + Apply(base, edits[0].end, edits[1..]) == variant[j..]
    && Kept(base, edits[0].end, edits[1..]) == Lcs(base, i, variant, j)
  }

  lemma GrowsByLine(base: seq<Line>, open: Replacement, edits: seq<Replacement>, variant: seq<Line>, i: nat, j: nat)
    requires i <= |base| && j < |variant|
    requires Grows(base, open.(lines := open.lines + [variant[j]]), edits, variant, i, j + 1)
    requires Lcs(base, i, variant, j) == Lcs(base, i, variant, j + 1)
    ensures Grows(base, open, edits, variant, i, j)
  {
    var grown := open.lines + [variant[j]];
    assert edits[0].lines[|open.lines|..] == [variant[j]] + edits[0].lines[|grown|..];
    assert variant[j..] == [variant[j]] + variant[j + 1..];
    assert open.lines <= grown;
  }

  lemma GrowsAndCloses(base: seq<Line>, open: Replacement, rest: seq<Replacement>, variant: seq<Line>, i: nat, j: nat)
    requires i < |base| && j < |variant| && base[i] == variant[j]
    requires open.start <= open.end == i && Changes(open)
    requires Rebuilds(base, i + 1, rest, variant, i + 1, j + 1) && Separated(rest)
    ensures Grows(base, open, [open] + rest, variant, i, j)
  {
    var edits := [open] + rest;
    assert edits[1..] == rest;
    SeparatedCons(open, rest);
    StepBack(base, i, rest, variant, j);
    assert open.lines[|open.lines|..] == [];
  }

  /** The walk with an open replacement: the emitted list starts with that replacement, grown. */
  lemma {:induction false} DiffFromOpen(
      base: seq<Line>, variant: seq<Line>, i: nat, j: nat, open: Replacement)
    requires i <= |base| && j <= |variant| && open.start <= open.end == i && Changes(open)
    ensures Grows(base, open, DiffFrom(base, variant, i, j, Some(open)), variant, i, j)
    decreases |base| - i + |variant| - j
  {
    if i < |base| && j < |variant| && base[i] == variant[j] {
      DiffFromClosed(base, variant, i + 1, j + 1);
      GrowsAndCloses(base, open, DiffFrom(base, variant, i + 1, j + 1, None), variant, i, j);
    } else if i < |base| && (j == |variant| || Lcs(base, i + 1, variant, j) >= Lcs(base, i, variant, j + 1)) {
      DiffFromOpen(base, variant, i + 1, j, open.(end := i + 1));
    } else if j < |variant| {
      var grown := open.(lines := open.lines + [variant[j]]);
      DiffFromOpen(base, variant, i, j + 1, grown);
      GrowsByLine(base, open, DiffFrom(base, variant, i, j + 1, Some(grown)), variant, i, j);
    } else {
      assert [open][1..] == [];
    }
  }

  /** One kept line in front. */
  lemma StepBack(base: seq<Line>, i: nat, edits: seq<Replacement>, variant: seq<Line>, j: nat)
    requires i < |base| && j < |variant| && base[i] == variant[j]
    requires Rebuilds(base, i + 1, edits, variant, i + 1, j + 1)
    ensures Rebuilds(base, i, edits, variant, i, j)
  {
    if edits == [] {
      assert base[i..] == [base[i]] + base[i + 1..];
    } else {
      assert base[i..edits[0].start] == [base[i]] + base[i + 1..edits[0].start];
    }
  }

  /** A list that grows a replacement opened without lines at `pos` is a complete script from there. */
  lemma StartsHere(base: seq<Line>, edits: seq<Replacement>, variant: seq<Line>, pos: nat, i: nat, j: nat)
    requires pos <= i <= |base| && j <= |variant|
    requires Grows(base, Replacement(pos, i, []), edits, variant, i, j)
    ensures Rebuilds(base, pos, edits, variant, i, j)
  {
    assert base[pos..edits[0].start] == [];
    assert edits[0].lines[0..] == edits[0].lines;
  }

  /** The walk with nothing open. */
  lemma {:induction false} DiffFromClosed(base: seq<Line>, variant: seq<Line>, i: nat, j: nat)
    requires i <= |base| && j <= |variant|
    ensures var edits := DiffFrom(base, variant, i, j, None);
      && Rebuilds(base, i, edits, variant, i, j)
      && Separated(edits)
    decreases |base| - i + |variant| - j
  {
    if i < |base| && j < |variant| && base[i] == variant[j] {
      var rest := DiffFrom(base, variant, i + 1, j + 1, None);
      DiffFromClosed(base, variant, i + 1, j + 1);
      StepBack(base, i, rest, variant, j);
      assert DiffFrom(base, variant, i, j, None) == rest;
    } else if i < |base| && (j == |variant| || Lcs(base, i + 1, variant, j) >= Lcs(base, i, variant, j + 1)) {
      DiffFromOpen(base, variant, i + 1, j, Replacement(i, i + 1, []));
      StartsHere(base, DiffFrom(base, variant, i, j, None), variant, i, i + 1, j);
    } else if j < |variant| {
      var open := Replacement(i, i, []).(lines := [] + [variant[j]]);
      DiffFromOpen(base, variant, i, j + 1, open);
      GrowsByLine(base, Replacement(i, i, []), DiffFrom(base, variant, i, j + 1, Some(open)), variant, i, j);
      StartsHere(base, DiffFrom(base, variant, i, j, None), variant, i, i, j);
    }
  }

  /** Applying the diff to the base rebuilds the variant; its replacements are real and kept apart. */
  lemma DiffRebuildsVariant(base: seq<Line>, variant: seq<Line>)
    ensures InOrder(base, 0, Diff(base, variant))
    ensures Apply(base, 0, Diff(base, variant)) == variant
    ensures Separated(Diff(base, variant))
  {
    DiffFromClosed(base, variant, 0, 0);
  }

  /** The diff keeps as many base lines as any edit script with the same result. */
  lemma DiffIsMinimal(base: seq<Line>, variant: seq<Line>, other: seq<Replacement>)
    requires InOrder(base, 0, other) && Apply(base, 0, other) == variant
    ensures InOrder(base, 0, Diff(base, variant))
    ensures Kept(base, 0, Diff(base, variant)) == Lcs(base, 0, variant, 0)
    ensures Kept(base, 0, other) <= Kept(base, 0, Diff(base, variant))
  {
    DiffFromClosed(base, variant, 0, 0);
    KeptIsBounded(base, 0, other);
  }
}
