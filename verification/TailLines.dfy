/** Keeping the tail of a text together with its error lines: the ring buffer, marker list,
    merge, sort and deduplication of the program against a one-line filter. */
module TailLines {

  // ---------------------------------------------------------------- lines of a text

  function FindNewline(s: string): (k: nat)
    ensures k <= |s| && (k < |s| ==> s[k] == '\n') && forall i :: 0 <= i < k ==> s[i] != '\n'
  {
    if s == [] || s[0] == '\n' then 0 else 1 + FindNewline(s[1..])
  }

  /** The lines of a text: each ends at a newline, a carriage return before it is dropped, and
      an unterminated rest is a line of its own. */
  function Lines(s: string): seq<string>
    decreases |s|
  {
    if s == [] then []
    else
      var k := FindNewline(s);
      if k == |s| then [s]
      else
        var line := if k > 0 && s[k - 1] == '\r' then s[..k - 1] else s[..k];
        [line] + Lines(s[k + 1..])
  }

  function Join(lines: seq<string>): string {
    if lines == [] then ""
    else if |lines| == 1 then lines[0]
    else lines[0] + "\n" + Join(lines[1..])
  }

  // ---------------------------------------------------------------- which lines matter

  function Lower(c: char): char { if 'A' <= c <= 'Z' then c - 'A' + 'a' else c }

  function AsciiLower(s: string): string { seq(|s|, i requires 0 <= i < |s| => Lower(s[i])) }

  predicate StartsWith(s: string, p: string) { p <= s }

  predicate Contains(s: string, p: string) {
    exists i :: 0 <= i <= |s| && p <= s[i..]
  }

  predicate IsHeader(line: string) {
    var low := AsciiLower(line);
    StartsWith(low, "traceback (most recent call last") || StartsWith(low, "panic:") || StartsWith(low, "goroutine ")
  }

  predicate IsMarker(line: string) {
    var low := AsciiLower(line);
    Contains(low, "error:") || Contains(low, "exception:") || Contains(low, "warning:") || Contains(low, "panic:")
  }

  /** Line `i` is a header, a marker, or the successor of a marker. */
  predicate Marked(lines: seq<string>, i: nat)
    requires i < |lines|
  {
    IsHeader(lines[i]) || IsMarker(lines[i]) || (i > 0 && IsMarker(lines[i - 1]))
  }

  /** The filter the program is to compute: marked lines and the last `n`. */
  predicate Keep(lines: seq<string>, n: nat, i: nat)
    requires i < |lines|
  {
    Marked(lines, i) || i + n >= |lines|
  }

  /** A line with its number. */
  datatype Entry = Entry(line: nat, text: string)

  function Filtered(lines: seq<string>, n: nat, upTo: nat): seq<Entry>
    requires upTo <= |lines|
  {
    if upTo == 0 then []
    else Filtered(lines, n, upTo - 1) + (if Keep(lines, n, upTo - 1) then [Entry(upTo - 1, lines[upTo - 1])] else [])
  }

  function Texts(entries: seq<Entry>): seq<string> {
    seq(|entries|, i requires 0 <= i < |entries| => entries[i].text)
  }

  // ---------------------------------------------------------------- the library's sort and dedup

  function Insert(e: Entry, sorted: seq<Entry>): seq<Entry> {
    if sorted == [] then [e]
    else if e.line <= sorted[0].line then [e] + sorted
    else [sorted[0]] + Insert(e, sorted[1..])
  }

  /** A stable sort by line number. */
  function SortByKey(s: seq<Entry>): seq<Entry> {
    if s == [] then [] else Insert(s[0], SortByKey(s[1..]))
  }

  /** Drops every entry whose key equals that of the entry kept before it. */
  function DedupByKey(s: seq<Entry>): seq<Entry>
    decreases |s|
  {
    if |s| <= 1 then s
    else if s[0].line == s[1].line then DedupByKey([s[0]] + s[2..])
    else [s[0]] + DedupByKey(s[1..])
  }

  predicate Sorted(s: seq<Entry>) { forall i, j :: 0 <= i < j < |s| ==> s[i].line <= s[j].line }

  predicate StrictlySorted(s: seq<Entry>) { forall i, j :: 0 <= i < j < |s| ==> s[i].line < s[j].line }

  lemma {:induction false} InsertSorts(e: Entry, s: seq<Entry>)
    requires Sorted(s)
    ensures Sorted(Insert(e, s))
    ensures forall x :: x in Insert(e, s) <==> x == e || x in s
    decreases |s|
  {
    if s != [] && e.line > s[0].line {
      InsertSorts(e, s[1..]);
      assert s == [s[0]] + s[1..];
      forall x | x in Insert(e, s[1..]) ensures s[0].line <= x.line {}
    }
  }

  lemma {:induction false} SortSorts(s: seq<Entry>)
    ensures Sorted(SortByKey(s))
    ensures forall x :: x in SortByKey(s) <==> x in s
    decreases |s|
  {
    if s != [] {
      SortSorts(s[1..]);
      InsertSorts(s[0], SortByKey(s[1..]));
      assert s == [s[0]] + s[1..];
    }
  }

  /** Entries with equal keys are equal. */
  predicate Functional(s: seq<Entry>) {
    forall i, j :: 0 <= i < j < |s| && s[i].line == s[j].line ==> s[i] == s[j]
  }

  lemma {:induction false} DedupDedups(s: seq<Entry>)
    requires Sorted(s) && Functional(s)
    ensures StrictlySorted(DedupByKey(s))
    ensures forall x :: x in DedupByKey(s) <==> x in s
    decreases |s|
  {
    if |s| > 1 {
      var t := s[1..];
      assert s == [s[0]] + t;
      DedupDedups(t);
      if s[0].line == s[1].line {
        assert s[0] == s[1] && [s[0]] + s[2..] == t;
      } else {
        var d := DedupByKey(t);
        forall i | 0 <= i < |d| ensures s[0].line < d[i].line {
          assert d[i] in t;
          var k :| 0 <= k < |t| && t[k] == d[i];
          assert s[1].line <= s[k + 1].line;
        }
      }
    }
  }

  /** A strictly sorted sequence is determined by its elements. */
  lemma {:induction false} SameElementsSameOrder(a: seq<Entry>, b: seq<Entry>)
    requires StrictlySorted(a) && StrictlySorted(b)
    requires forall x :: x in a <==> x in b
    ensures a == b
    decreases |a|
  {
    assert b != [] ==> b[0] in b;
    if a != [] {
      assert a[0] in b;
      assert b != [] && b[0] in a;
      assert a[0] == b[0];
      assert a == [a[0]] + a[1..] && b == [b[0]] + b[1..];
      forall x ensures x in a[1..] <==> x in b[1..] {
        if x in a[1..] { assert x in a && x.line > a[0].line; }
        if x in b[1..] { assert x in b && x.line > b[0].line; }
      }
      SameElementsSameOrder(a[1..], b[1..]);
    }
  }

  // ---------------------------------------------------------------- the filter, characterised

  /** An entry is kept exactly if it is a line to be kept. */
  lemma {:induction false} FilteredMember(lines: seq<string>, n: nat, upTo: nat, x: Entry)
    requires upTo <= |lines|
    ensures x in Filtered(lines, n, upTo) <==> x.line < upTo && x.text == lines[x.line] && Keep(lines, n, x.line)
    decreases upTo
  {
    if upTo > 0 {
      FilteredMember(lines, n, upTo - 1, x);
      var last := Entry(upTo - 1, lines[upTo - 1]);
      InSum(Filtered(lines, n, upTo - 1), if Keep(lines, n, upTo - 1) then [last] else [], x);
    }
  }

  lemma InSum(a: seq<Entry>, b: seq<Entry>, x: Entry)
    ensures x in a + b <==> x in a || x in b
  {
  }

  lemma {:induction false} FilteredSorted(lines: seq<string>, n: nat, upTo: nat)
    requires upTo <= |lines|
    ensures StrictlySorted(Filtered(lines, n, upTo))
    decreases upTo
  {
    if upTo > 0 {
      FilteredSorted(lines, n, upTo - 1);
      var before := Filtered(lines, n, upTo - 1);
      forall i | 0 <= i < |before| ensures before[i].line < upTo - 1 {
        FilteredMember(lines, n, upTo - 1, before[i]);
      }
    }
  }

  lemma FilteredExactly(lines: seq<string>, n: nat, upTo: nat)
    requires upTo <= |lines|
    ensures StrictlySorted(Filtered(lines, n, upTo))
    ensures forall x :: x in Filtered(lines, n, upTo) <==>
              x.line < upTo && x.text == lines[x.line] && Keep(lines, n, x.line)
  {
    FilteredSorted(lines, n, upTo);
    forall x: Entry
      ensures x in Filtered(lines, n, upTo) <==> x.line < upTo && x.text == lines[x.line] && Keep(lines, n, x.line)
    {
      FilteredMember(lines, n, upTo, x);
    }
  }

  // ---------------------------------------------------------------- the program

  /** The ring after line `i` was read: the last `n` lines up to there. */
  ghost predicate IsWindow(lines: seq<string>, i: nat, n: nat, tail: seq<Entry>) {
    && i <= |lines| && |tail| == (if i < n then i else n)
    && (forall k :: 0 <= k < |tail| ==> tail[k] == Entry(i - |tail| + k, lines[i - |tail| + k]))
  }

  /** The marker list after line `i` was read. */
  ghost predicate IsMarkers(lines: seq<string>, i: nat, markers: seq<Entry>) {
    && i <= |lines|
    && StrictlySorted(markers)
    && (forall x :: x in markers <==> x.line < i && x.text == lines[x.line] && Marked(lines, x.line))
  }

  lemma MergeIsFilter(lines: seq<string>, n: nat, tail: seq<Entry>, markers: seq<Entry>)
    requires IsWindow(lines, |lines|, n, tail) && IsMarkers(lines, |lines|, markers)
    ensures DedupByKey(SortByKey(markers + tail)) == Filtered(lines, n, |lines|)
  {
    var all := markers + tail;
    forall x: Entry ensures x in all <==> x.line < |lines| && x.text == lines[x.line] && Keep(lines, n, x.line) {
      if x in tail {
        var k :| 0 <= k < |tail| && tail[k] == x;
        assert x.line == |lines| - |tail| + k;
      }
      if x.line < |lines| && x.text == lines[x.line] && x.line + n >= |lines| {
        var k := x.line - (|lines| - |tail|);
        assert tail[k] == x;
      }
      assert x in all <==> x in markers || x in tail;
    }
    SortSorts(all);
    DedupDedups(SortByKey(all));
    FilteredExactly(lines, n, |lines|);
    SameElementsSameOrder(DedupByKey(SortByKey(all)), Filtered(lines, n, |lines|));
  }

  lemma WindowIsFilter(lines: seq<string>, n: nat, tail: seq<Entry>)
    requires IsWindow(lines, |lines|, n, tail) && tail != [] && tail[0].line == 0
    ensures tail == Filtered(lines, n, |lines|)
  {
    FilteredExactly(lines, n, |lines|);
    assert |tail| == |lines|;
    forall x ensures x in tail <==> x in Filtered(lines, n, |lines|) {
      if x in Filtered(lines, n, |lines|) { assert tail[x.line] == x; }
    }
    SameElementsSameOrder(tail, Filtered(lines, n, |lines|));
  }

  lemma MarkersAreFilter(lines: seq<string>, markers: seq<Entry>)
    requires IsMarkers(lines, |lines|, markers)
    ensures markers == Filtered(lines, 0, |lines|)
  {
    FilteredExactly(lines, 0, |lines|);
    SameElementsSameOrder(markers, Filtered(lines, 0, |lines|));
  }

  lemma AddMarker(lines: seq<string>, i: nat, markers: seq<Entry>)
    requires i < |lines| && IsMarkers(lines, i, markers)
    ensures IsMarkers(lines, i + 1, if Marked(lines, i) then markers + [Entry(i, lines[i])] else markers)
  {
    var entry := Entry(i, lines[i]);
    forall k | 0 <= k < |markers| ensures markers[k].line < i { assert markers[k] in markers; }
    if Marked(lines, i) {
      assert StrictlySorted(markers + [entry]);
      forall x ensures x in markers + [entry] <==> x in markers || x == entry {}
    }
  }

  lemma TextsAppend(entries: seq<Entry>, i: nat, line: string)
    ensures Texts(entries + [Entry(i, line)]) == Texts(entries) + [line]
  {
  }

  /** The program with an empty window: the marked lines alone. */
  method MarkedOnly(lines: seq<string>) returns (out: string)
    ensures out == Join(Texts(Filtered(lines, 0, |lines|)))
  {
    var marked: seq<string> := [];
    ghost var entries: seq<Entry> := [];
    var prevWasMarker := false;
    for i := 0 to |lines|
      invariant IsMarkers(lines, i, entries) && marked == Texts(entries)
      invariant prevWasMarker <==> i > 0 && IsMarker(lines[i - 1])
    {
      AddMarker(lines, i, entries);
      TextsAppend(entries, i, lines[i]);
      var isMarker, isHeader := IsMarker(lines[i]), IsHeader(lines[i]);
      assert isHeader || isMarker || prevWasMarker <==> Marked(lines, i);
      if isHeader || isMarker || prevWasMarker {
        marked := marked + [lines[i]];
        entries := entries + [Entry(i, lines[i])];
      }
      prevWasMarker := isMarker;
    }
    MarkersAreFilter(lines, entries);
    out := Join(marked);
  }

  /** The pass over the lines; `peak` is the largest size the ring ever has. */
  method Collect(lines: seq<string>, n: nat) returns (tail: seq<Entry>, markers: seq<Entry>, ghost peak: nat)
    requires n > 0
    ensures IsMarkers(lines, |lines|, markers) && IsWindow(lines, |lines|, n, tail) && peak <= n
  {
    tail, markers, peak := [], [], 0;
    var prevWasMarker := false;
    for i := 0 to |lines|
      invariant IsMarkers(lines, i, markers) && IsWindow(lines, i, n, tail) && peak <= n
      invariant prevWasMarker <==> i > 0 && IsMarker(lines[i - 1])
    {
      AddMarker(lines, i, markers);
      AddToWindow(lines, i, n, tail);
      var entry := Entry(i, lines[i]);
      var isMarker, isHeader := IsMarker(lines[i]), IsHeader(lines[i]);
      assert isHeader || isMarker || prevWasMarker <==> Marked(lines, i);
      if isHeader || isMarker || prevWasMarker { markers := markers + [entry]; }
      prevWasMarker := isMarker;
      if |tail| == n { tail := tail[1..]; }
      tail := tail + [entry];
      if peak < |tail| { peak := |tail|; }
    }
  }

  lemma AddToWindow(lines: seq<string>, i: nat, n: nat, tail: seq<Entry>)
    requires n > 0 && i < |lines| && IsWindow(lines, i, n, tail)
    ensures IsWindow(lines, i + 1, n, (if |tail| == n then tail[1..] else tail) + [Entry(i, lines[i])])
  {
  }

  method Tail(text: string, n: nat) returns (out: string, ghost peak: nat)
    ensures out == Join(Texts(Filtered(Lines(text), n, |Lines(text)|)))
    ensures peak <= n
  {
    var lines := Lines(text);
    if n == 0 {
      out := MarkedOnly(lines);
      return out, 0;
    }
    var tail, markers;
    tail, markers, peak := Collect(lines, n);
    if tail != [] && tail[0].line == 0 {
      WindowIsFilter(lines, n, tail);
      return Join(Texts(tail)), peak;
    }
    MergeIsFilter(lines, n, tail, markers);
    var keep := DedupByKey(SortByKey(markers + tail));
    return Join(Texts(keep)), peak;
  }
}
