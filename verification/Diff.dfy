/** The diff of two lists of lines and its printing (classes Differ and DiffOutputBuilder of
    run-tests.php), with lines compared by plain equality. */
module Diff {
  import opened CommonSubsequence

  /** An element of the array diffToArray builds: a token with OLD, or REMOVED or ADDED and a line number. */
  datatype Entry = Old(token: Line) | Removed(token: Line, line: int) | Added(token: Line, line: int)

  // ---- what a script says ------------------------------------------------------

  /** The lines the script keeps or removes. */
  function FromSide(d: seq<Entry>): seq<Line> {
    if d == [] then []
    else FromSide(d[..|d| - 1]) + if d[|d| - 1].Added? then [] else [d[|d| - 1].token]
  }

  /** The lines the script keeps or adds. */
  function ToSide(d: seq<Entry>): seq<Line> {
    if d == [] then []
    else ToSide(d[..|d| - 1]) + if d[|d| - 1].Removed? then [] else [d[|d| - 1].token]
  }

  function Changes(d: seq<Entry>): nat {
    if d == [] then 0
    else Changes(d[..|d| - 1]) + if d[|d| - 1].Old? then 0 else 1
  }

  /** The lines the script keeps. */
  function Kept(d: seq<Entry>): seq<Line> {
    if d == [] then []
    else Kept(d[..|d| - 1]) + if d[|d| - 1].Old? then [d[|d| - 1].token] else []
  }

  /** Every line number is the place of the line in its own list, counted from one. */
  ghost predicate Numbered(d: seq<Entry>) {
    && (forall k | 0 <= k < |d| && d[k].Removed? :: d[k].line == |FromSide(d[..k])| + 1)
    && (forall k | 0 <= k < |d| && d[k].Added? :: d[k].line == |ToSide(d[..k])| + 1)
  }

  lemma Append(d: seq<Entry>, e: Entry)
    ensures FromSide(d + [e]) == FromSide(d) + if e.Added? then [] else [e.token]
    ensures ToSide(d + [e]) == ToSide(d) + if e.Removed? then [] else [e.token]
    ensures Changes(d + [e]) == Changes(d) + if e.Old? then 0 else 1
    ensures Kept(d + [e]) == Kept(d) + if e.Old? then [e.token] else []
    ensures Numbered(d) && (e.Removed? ==> e.line == |FromSide(d)| + 1) && (e.Added? ==> e.line == |ToSide(d)| + 1) ==>
              Numbered(d + [e])
  {
    hide FromSide, ToSide, Changes, Kept;
    LastOf(d, e);
    assert forall k | 0 <= k <= |d| :: (d + [e])[..k] == d[..k];
    assert d[..|d|] == d;
  }

  lemma LastOf(d: seq<Entry>, e: Entry)
    ensures FromSide(d + [e]) == FromSide(d) + if e.Added? then [] else [e.token]
    ensures ToSide(d + [e]) == ToSide(d) + if e.Removed? then [] else [e.token]
    ensures Changes(d + [e]) == Changes(d) + if e.Old? then 0 else 1
    ensures Kept(d + [e]) == Kept(d) + if e.Old? then [e.token] else []
  {
    assert (d + [e])[..|d + [e]| - 1] == d;
  }

  /** What any script keeps is common to both lists, so no script has fewer changes than this. */
  lemma {:induction false} ScriptBound(d: seq<Entry>)
    ensures Common(Kept(d), FromSide(d), ToSide(d))
    ensures Changes(d) == |FromSide(d)| + |ToSide(d)| - 2 * |Kept(d)|
    ensures Changes(d) >= |FromSide(d)| + |ToSide(d)| - 2 * Lcs(FromSide(d), ToSide(d))
  {
    hide Lcs, Subseq;
    KeptIsCommon(d);
    LcsIsBound(Kept(d), FromSide(d), ToSide(d));
  }

  lemma {:induction false} KeptIsCommon(d: seq<Entry>)
    ensures Common(Kept(d), FromSide(d), ToSide(d))
    ensures Changes(d) == |FromSide(d)| + |ToSide(d)| - 2 * |Kept(d)|
  {
    hide Subseq;
    SubseqEmpty([]);
    if d != [] {
      var d', e := d[..|d| - 1], d[|d| - 1];
      KeptIsCommon(d');
      SubseqSelf([e.token]);
      SubseqEmpty([e.token]);
      var kept := if e.Old? then [e.token] else [];
      SubseqAppend(Kept(d'), FromSide(d'), kept, if e.Added? then [] else [e.token]);
      SubseqAppend(Kept(d'), ToSide(d'), kept, if e.Removed? then [] else [e.token]);
    }
  }

  // ---- diffToArray ---------------------------------------------------------------

  /** getArrayDiffParted: the common head and the common tail of what is left are set apart. */
  method GetArrayDiffParted(from0: seq<Line>, to0: seq<Line>)
    returns (from: seq<Line>, to: seq<Line>, start: seq<Line>, end: seq<Line>)
    ensures from0 == start + from + end && to0 == start + to + end
    ensures from != [] && to != [] ==> from[0] != to[0] && from[|from| - 1] != to[|to| - 1]
  {
    from, to, start, end := from0, to0, [], [];
    while from != [] && to != [] && from[0] == to[0]
      invariant from0 == start + from && to0 == start + to
      decreases |from|
    {
      start := start + [from[0]];
      from, to := from[1..], to[1..];
    }
    while from != [] && to != [] && from[|from| - 1] == to[|to| - 1]
      invariant from0 == start + from + end && to0 == start + to + end
      invariant from != [] && to != [] ==> from[0] != to[0]
      decreases |from|
    {
      end := [from[|from| - 1]] + end;
      assert from == from[..|from| - 1] + [from[|from| - 1]] && to == to[..|to| - 1] + [to[|to| - 1]];
      from, to := from[..|from| - 1], to[..|to| - 1];
    }
  }

  /** The state of diffToArray: d has been written; f and t are the lines still to be consumed. */
  ghost predicate Writing(d: seq<Entry>, f: seq<Line>, t: seq<Line>, from: seq<Line>, to: seq<Line>, fromLine: int, toLine: int) {
    && Numbered(d) && FromSide(d) + f == from && ToSide(d) + t == to
    && fromLine == |FromSide(d)| + 1 && toLine == |ToSide(d)| + 1
  }

  lemma WriteRemoved(d: seq<Entry>, f: seq<Line>, t: seq<Line>, from: seq<Line>, to: seq<Line>, fromLine: int, toLine: int)
    requires Writing(d, f, t, from, to, fromLine, toLine) && f != []
    ensures Writing(d + [Removed(f[0], fromLine)], f[1..], t, from, to, fromLine + 1, toLine)
    ensures Kept(d + [Removed(f[0], fromLine)]) == Kept(d)
  {
    hide Numbered;
    Append(d, Removed(f[0], fromLine));
    assert f == [f[0]] + f[1..];
  }

  lemma WriteAdded(d: seq<Entry>, f: seq<Line>, t: seq<Line>, from: seq<Line>, to: seq<Line>, fromLine: int, toLine: int)
    requires Writing(d, f, t, from, to, fromLine, toLine) && t != []
    ensures Writing(d + [Added(t[0], toLine)], f, t[1..], from, to, fromLine, toLine + 1)
    ensures Kept(d + [Added(t[0], toLine)]) == Kept(d)
  {
    hide Numbered;
    Append(d, Added(t[0], toLine));
    assert t == [t[0]] + t[1..];
  }

  lemma WriteOld(d: seq<Entry>, x: Line, f: seq<Line>, t: seq<Line>, from: seq<Line>, to: seq<Line>, fromLine: int, toLine: int)
    requires Writing(d, f, t, from, to, fromLine, toLine) && f != [] && t != [] && f[0] == t[0] == x
    ensures Writing(d + [Old(x)], f[1..], t[1..], from, to, fromLine + 1, toLine + 1)
    ensures Kept(d + [Old(x)]) == Kept(d) + [x]
  {
    hide Numbered;
    Append(d, Old(x));
    assert f == [f[0]] + f[1..] && t == [t[0]] + t[1..];
  }

  /** Between two common lines the removed lines come before the added ones. */
  ghost predicate RemovedFirst(d: seq<Entry>) {
    forall k | 0 < k < |d| :: !(d[k - 1].Added? && d[k].Removed?)
  }

  ghost predicate EndsAdded(d: seq<Entry>) {
    d != [] && d[|d| - 1].Added?
  }

  /** Writes lines that both lists share. */
  method WriteShared(d0: seq<Entry>, lines: seq<Line>, ghost f: seq<Line>, ghost t: seq<Line>,
                     ghost from: seq<Line>, ghost to: seq<Line>, fromLine0: int, toLine0: int)
    returns (d: seq<Entry>, fromLine: int, toLine: int)
    requires Writing(d0, lines + f, lines + t, from, to, fromLine0, toLine0)
    ensures Writing(d, f, t, from, to, fromLine, toLine) && Kept(d) == Kept(d0) + lines
    ensures (RemovedFirst(d0) ==> RemovedFirst(d)) && (!EndsAdded(d0) || lines != [] ==> !EndsAdded(d))
  {
    hide Writing, Kept;
    d, fromLine, toLine := d0, fromLine0, toLine0;
    assert lines[0..] == lines && Kept(d0) + lines[..0] == Kept(d0);
    for k := 0 to |lines|
      invariant Writing(d, lines[k..] + f, lines[k..] + t, from, to, fromLine, toLine) && Kept(d) == Kept(d0) + lines[..k]
      invariant (RemovedFirst(d0) ==> RemovedFirst(d)) && (!EndsAdded(d0) || k > 0 ==> !EndsAdded(d))
    {
      WriteOld(d, lines[k], lines[k..] + f, lines[k..] + t, from, to, fromLine, toLine);
      assert (lines[k..] + f)[1..] == lines[k + 1..] + f && (lines[k..] + t)[1..] == lines[k + 1..] + t;
      d := d + [Old(lines[k])];
      fromLine, toLine := fromLine + 1, toLine + 1;
    }
    assert lines[|lines|..] + f == f && lines[|lines|..] + t == t && lines[..|lines|] == lines;
  }

  /** diffToArray: a script from one list to the other with true line numbers and the fewest changes. */
  method DiffToArray(from0: seq<Line>, to0: seq<Line>) returns (diff: seq<Entry>)
    ensures FromSide(diff) == from0 && ToSide(diff) == to0 && Numbered(diff)
    ensures Changes(diff) == |from0| + |to0| - 2 * Lcs(from0, to0)
    ensures forall d | FromSide(d) == from0 && ToSide(d) == to0 :: Changes(diff) <= Changes(d)
    ensures forall k | 0 < k < |diff| :: !(diff[k - 1].Added? && diff[k].Removed?)
  {
    hide Lcs, Subseq, Writing, Kept, Changes, Numbered;
    var from, to, start, end := GetArrayDiffParted(from0, to0);
    var common := CalculateCommonSubsequence(from, to);
    WholeLcs(start, from, to, end);
    var fromLine, toLine;
    StartWriting(from0, to0, start, from, to, end);
    diff, fromLine, toLine := WriteShared([], start, from + end, to + end, from0, to0, 1, 1);
    diff, fromLine, toLine := WriteMiddle(diff, common, from, to, end, from0, to0, fromLine, toLine);
    assert end + [] == end;
    diff, fromLine, toLine := WriteShared(diff, end, [], [], from0, to0, fromLine, toLine);
    DoneWriting(diff, from0, to0, fromLine, toLine);
    assert Kept(diff) == start + common + end;
    ScriptBound(diff);
    forall d | FromSide(d) == from0 && ToSide(d) == to0 ensures Changes(diff) <= Changes(d) { ScriptBound(d); }
  }

  lemma WholeLcs(start: seq<Line>, from: seq<Line>, to: seq<Line>, end: seq<Line>)
    ensures Lcs(start + from + end, start + to + end) == |start| + Lcs(from, to) + |end|
  {
    hide Lcs;
    LcsSuffix(start + from, start + to, end);
    LcsPrefix(start, from, to);
  }

  lemma StartWriting(from0: seq<Line>, to0: seq<Line>, start: seq<Line>, from: seq<Line>, to: seq<Line>, end: seq<Line>)
    requires from0 == start + from + end && to0 == start + to + end
    ensures Writing([], start + (from + end), start + (to + end), from0, to0, 1, 1) && Kept([]) == []
  {
  }

  lemma DoneWriting(d: seq<Entry>, from0: seq<Line>, to0: seq<Line>, fromLine: int, toLine: int)
    requires Writing(d, [], [], from0, to0, fromLine, toLine)
    ensures FromSide(d) == from0 && ToSide(d) == to0 && Numbered(d)
  {
    hide Numbered;
    assert FromSide(d) + [] == FromSide(d) && ToSide(d) + [] == ToSide(d);
  }

  /** The part of diffToArray between the common head and the common tail. */
  method WriteMiddle(d0: seq<Entry>, common: seq<Line>, from: seq<Line>, to: seq<Line>, ghost end: seq<Line>,
                     ghost from0: seq<Line>, ghost to0: seq<Line>, fromLine0: int, toLine0: int)
    returns (d: seq<Entry>, fromLine: int, toLine: int)
    requires Writing(d0, from + end, to + end, from0, to0, fromLine0, toLine0) && Common(common, from, to)
    requires RemovedFirst(d0) && !EndsAdded(d0)
    ensures Writing(d, end, end, from0, to0, fromLine, toLine) && Kept(d) == Kept(d0) + common && RemovedFirst(d)
  {
    hide Writing, Kept, Subseq;
    d, fromLine, toLine := d0, fromLine0, toLine0;
    var f, t := from, to;
    assert common[0..] == common && Kept(d0) + common[..0] == Kept(d0);
    for k := 0 to |common|
      invariant Writing(d, f + end, t + end, from0, to0, fromLine, toLine) && Kept(d) == Kept(d0) + common[..k]
      invariant Subseq(common[k..], f) && Subseq(common[k..], t) && RemovedFirst(d) && !EndsAdded(d)
    {
      var token := common[k];
      SubseqHead(common[k..], f);
      while f != [] && f[0] != token
        invariant Writing(d, f + end, t + end, from0, to0, fromLine, toLine) && Kept(d) == Kept(d0) + common[..k]
        invariant Subseq(common[k..], f) && f != [] && RemovedFirst(d) && !EndsAdded(d)
        decreases |f|
      {
        SubseqHead(common[k..], f);
        WriteRemoved(d, f + end, t + end, from0, to0, fromLine, toLine);
        assert (f + end)[1..] == f[1..] + end;
        d, f, fromLine := d + [Removed(f[0], fromLine)], f[1..], fromLine + 1;
        SubseqHead(common[k..], f);
      }
      SubseqHead(common[k..], t);
      while t != [] && token != t[0]
        invariant Writing(d, f + end, t + end, from0, to0, fromLine, toLine) && Kept(d) == Kept(d0) + common[..k]
        invariant Subseq(common[k..], t) && t != [] && RemovedFirst(d)
        decreases |t|
      {
        SubseqHead(common[k..], t);
        WriteAdded(d, f + end, t + end, from0, to0, fromLine, toLine);
        assert (t + end)[1..] == t[1..] + end;
        d, t, toLine := d + [Added(t[0], toLine)], t[1..], toLine + 1;
        SubseqHead(common[k..], t);
      }
      SubseqHead(common[k..], f);
      SubseqHead(common[k..], t);
      WriteOld(d, token, f + end, t + end, from0, to0, fromLine, toLine);
      assert (f + end)[1..] == f[1..] + end && (t + end)[1..] == t[1..] + end;
      assert common[k..][1..] == common[k + 1..];
      d := d + [Old(token)];
      f, t, fromLine, toLine := f[1..], t[1..], fromLine + 1, toLine + 1;
    }
    assert common[..|common|] == common;
    while f != []
      invariant Writing(d, f + end, t + end, from0, to0, fromLine, toLine) && Kept(d) == Kept(d0) + common
      invariant RemovedFirst(d) && !EndsAdded(d)
      decreases |f|
    {
      WriteRemoved(d, f + end, t + end, from0, to0, fromLine, toLine);
      assert (f + end)[1..] == f[1..] + end;
      d, f, fromLine := d + [Removed(f[0], fromLine)], f[1..], fromLine + 1;
    }
    while t != []
      invariant Writing(d, f + end, t + end, from0, to0, fromLine, toLine) && Kept(d) == Kept(d0) + common && RemovedFirst(d)
      decreases |t|
    {
      WriteAdded(d, f + end, t + end, from0, to0, fromLine, toLine);
      assert (t + end)[1..] == t[1..] + end;
      d, t, toLine := d + [Added(t[0], toLine)], t[1..], toLine + 1;
    }
    assert f + end == end && t + end == end;
  }

  lemma SubseqHead(s: seq<Line>, a: seq<Line>)
    requires s != [] && Subseq(s, a)
    ensures a != []
    ensures s[0] == a[0] ==> Subseq(s[1..], a[1..])
    ensures s[0] != a[0] ==> Subseq(s, a[1..])
  {
  }

  // ---- getDiff -------------------------------------------------------------------

  /** A line of the output: the separator, or an entry. */
  datatype Printed = Separator | Line(entry: Entry)

  /** The entry at k is a change or lies within ctx lines of one. */
  ghost predicate Shown(d: seq<Entry>, ctx: nat, k: int) {
    exists c: int :: 0 <= c < |d| && !d[c].Old? && c - ctx <= k <= c + ctx
  }

  /** The output: the shown entries in order, with one separator for each gap. */
  ghost function Rendered(d: seq<Entry>, ctx: nat, k: nat): seq<Printed>
    requires k <= |d|
  {
    if k == 0 then []
    else
      Rendered(d, ctx, k - 1) +
      if Shown(d, ctx, k - 1) then [Line(d[k - 1])]
      else if k == 1 || Shown(d, ctx, k - 2) then [Separator]
      else []
  }

  /** The entries among the first k that are shown. */
  ghost function ShownEntries(d: seq<Entry>, ctx: nat, k: nat): seq<Entry>
    requires k <= |d|
  {
    if k == 0 then [] else ShownEntries(d, ctx, k - 1) + if Shown(d, ctx, k - 1) then [d[k - 1]] else []
  }

  function EntriesOf(p: seq<Printed>): seq<Entry> {
    if p == [] then []
    else EntriesOf(p[..|p| - 1]) + if p[|p| - 1].Line? then [p[|p| - 1].entry] else []
  }

  lemma EntriesAppend(p: seq<Printed>, x: Printed)
    ensures EntriesOf(p + [x]) == EntriesOf(p) + if x.Line? then [x.entry] else []
  {
    assert (p + [x])[..|p + [x]| - 1] == p;
  }

  /** Printed are exactly the shown entries, each once and in order; separators never follow each other. */
  lemma {:induction false} RenderedIsFiltered(d: seq<Entry>, ctx: nat, k: nat)
    requires k <= |d|
    ensures EntriesOf(Rendered(d, ctx, k)) == ShownEntries(d, ctx, k)
    ensures var r := Rendered(d, ctx, k); forall i | 0 < i < |r| :: r[i - 1].Line? || r[i].Line?
    ensures var r := Rendered(d, ctx, k); k > 0 ==> r != [] && (r[|r| - 1].Line? <==> Shown(d, ctx, k - 1))
  {
    hide Shown;
    if k > 0 {
      RenderedIsFiltered(d, ctx, k - 1);
      var r := Rendered(d, ctx, k - 1);
      EntriesAppend(r, Line(d[k - 1]));
      EntriesAppend(r, Separator);
      assert r + [] == r;
    }
  }

  /** A line is printed if and only if it is a change or has one among the ctx lines before or behind it. */
  lemma {:induction false} PrintedIffNear(d: seq<Entry>, ctx: nat, k: nat, e: Entry)
    requires k <= |d|
    ensures Line(e) in Rendered(d, ctx, k) <==> exists i: int :: 0 <= i < k && d[i] == e && Shown(d, ctx, i)
  {
    hide Shown;
    if k > 0 {
      PrintedIffNear(d, ctx, k - 1, e);
    }
  }

  lemma {:induction false} RenderedGap(d: seq<Entry>, ctx: nat, i: nat, n: nat)
    requires i < n <= |d| && forall k | i <= k < n :: !Shown(d, ctx, k)
    requires i == 0 || Shown(d, ctx, i - 1)
    ensures Rendered(d, ctx, n) == Rendered(d, ctx, i) + [Separator]
    decreases n
  {
    hide Shown;
    if n > i + 1 {
      RenderedGap(d, ctx, i, n - 1);
      assert Rendered(d, ctx, n) == Rendered(d, ctx, n - 1) + [];
    }
  }

  /** Every change before i has its trailing context before i, too. */
  ghost predicate Trailed(d: seq<Entry>, ctx: nat, i: nat) {
    forall c | 0 <= c < i && c < |d| && !d[c].Old? :: c + ctx < i
  }

  lemma GapIsHidden(d: seq<Entry>, ctx: nat, i: nat, next: nat)
    requires i < next <= |d| && (forall k | i <= k < next :: d[k].Old?) && Trailed(d, ctx, i)
    ensures forall k | i <= k < (if next == |d| then next else next - ctx) :: !Shown(d, ctx, k)
  {
  }

  /** DiffOutputBuilder::getDiff */
  method GetDiff(diffs: seq<Entry>, contextLineCount: nat) returns (buffer: seq<Printed>)
    ensures buffer == Rendered(diffs, contextLineCount, |diffs|)
  {
    hide Rendered;
    RenderedStart(diffs, contextLineCount);
    var i: nat := 0;
    buffer := [];
    while i < |diffs|
      invariant i <= |diffs| && buffer == Rendered(diffs, contextLineCount, i)
      invariant i == 0 || Shown(diffs, contextLineCount, i - 1)
      invariant i < |diffs| && diffs[i].Old? ==> Trailed(diffs, contextLineCount, i)
      decreases |diffs| - i
    {
      // find next difference
      var next := i;
      while next < |diffs| && diffs[next].Old?
        invariant i <= next <= |diffs| && forall k | i <= k < next :: diffs[k].Old?
      {
        next := next + 1;
      }
      if next == |diffs| {
        GapIsHidden(diffs, contextLineCount, i, next);
        RenderedGap(diffs, contextLineCount, i, next);
        return buffer + [Separator];
      }
      // print separator if necessary
      if i < next - contextLineCount {
        GapIsHidden(diffs, contextLineCount, i, next);
        RenderedGap(diffs, contextLineCount, i, next - contextLineCount);
        buffer := buffer + [Separator];
        i := next - contextLineCount;
      }
      // print leading context
      while i < next
        invariant next - contextLineCount <= i <= next && buffer == Rendered(diffs, contextLineCount, i)
      {
        PrintShown(diffs, contextLineCount, i, next);
        buffer := buffer + [Line(diffs[i])];
        i := i + 1;
      }
      // print differences
      while i < |diffs| && !diffs[i].Old?
        invariant next <= i <= |diffs| && buffer == Rendered(diffs, contextLineCount, i)
        invariant forall k | next <= k < i :: !diffs[k].Old?
      {
        PrintShown(diffs, contextLineCount, i, i);
        buffer := buffer + [Line(diffs[i])];
        i := i + 1;
      }
      // print trailing context
      ghost var last := i - 1;
      var afterContext := if i + contextLineCount < |diffs| then i + contextLineCount else |diffs|;
      ShownNear(diffs, contextLineCount, last, last);
      while i < afterContext && diffs[i].Old?
        invariant last < i <= afterContext && buffer == Rendered(diffs, contextLineCount, i)
        invariant Shown(diffs, contextLineCount, i - 1) && forall k | last < k < i :: diffs[k].Old?
      {
        PrintShown(diffs, contextLineCount, i, last);
        buffer := buffer + [Line(diffs[i])];
        i := i + 1;
      }
    }
  }

  lemma RenderedStart(d: seq<Entry>, ctx: nat)
    ensures Rendered(d, ctx, 0) == []
  {
  }

  lemma ShownNear(d: seq<Entry>, ctx: nat, k: nat, c: nat)
    requires c < |d| && !d[c].Old? && c - ctx <= k <= c + ctx
    ensures Shown(d, ctx, k)
  {
  }

  lemma PrintShown(d: seq<Entry>, ctx: nat, k: nat, c: nat)
    requires k < |d| && c < |d| && !d[c].Old? && c - ctx <= k <= c + ctx
    ensures Shown(d, ctx, k) && Rendered(d, ctx, k + 1) == Rendered(d, ctx, k) + [Line(d[k])]
  {
    ShownNear(d, ctx, k, c);
  }
}
