/** What the scanner promises on UTF-8 text: exactly when it aborts, what its output is made of,
    that it is idempotent, and that it undoes colouring. */
module StripAnsiFacts {
  import opened Basics
  import opened StripAnsi
  import Utf8

  /** All UTF-8 text is well-formed in the sense used here. */
  lemma {:induction false} Utf8IsWellFormed(cs: seq<Utf8.Scalar>)
    ensures WellFormed(Utf8.Encoding(cs))
    decreases |cs|
  {
    if cs != [] {
      var first, rest := Utf8.Encoded(cs[0]), Utf8.Encoding(cs[1..]);
      Utf8IsWellFormed(cs[1..]);
      assert (first + rest)[|first|..] == rest && Utf8Len(first[0]) == |first|;
      forall i | 1 <= i < |first| ensures Continuation((first + rest)[i]) { assert (first + rest)[i] == first[i]; }
    }
  }

  predicate Clean(s: Bytes) { ESC !in s && BEL !in s }

  // ---------------------------------------------------------------- skipping keeps boundaries

  lemma {:induction false} IntermediatesWellFormed(s: Bytes)
    requires WellFormed(s)
    ensures WellFormed(SkipIntermediates(s))
    decreases |s|
  {
    if s != [] && Intermediate(s[0]) { IntermediatesWellFormed(s[1..]); }
  }

  lemma {:induction false} ParametersWellFormed(s: Bytes)
    requires WellFormed(s)
    ensures WellFormed(SkipParameters(s))
    decreases |s|
  {
    if s != [] && Parameter(s[0]) { ParametersWellFormed(s[1..]); }
  }

  lemma {:induction false} SkipBodyOver(s: Bytes, n: nat)
    requires n <= |s| && forall i :: 0 <= i < n ==> OscBody(s[i])
    ensures SkipBody(s) == SkipBody(s[n..])
    decreases n
  {
    if n > 0 {
      SkipBodyOver(s[1..], n - 1);
      assert s[1..][n - 1..] == s[n..];
    } else {
      assert s[0..] == s;
    }
  }

  lemma {:induction false} BodyWellFormed(s: Bytes)
    requires WellFormed(s)
    ensures WellFormed(SkipBody(s))
    decreases |s|
  {
    if s != [] && OscBody(s[0]) {
      var n := Utf8Len(s[0]);
      SkipBodyOver(s, n);
      BodyWellFormed(s[n..]);
    }
  }

  lemma AfterEscapeWellFormed(s: Bytes)
    requires |s| >= 2 && s[0] == ESC && WellFormed(s) && s[1] < 0x80
    ensures WellFormed(AfterEscape(s))
  {
    assert WellFormed(s[1..]);
    assert s[1..][1..] == s[2..];
    assert WellFormed(s[2..]);
    IntermediatesWellFormed(s[2..]);
    ParametersWellFormed(SkipIntermediates(s[2..]));
    BodyWellFormed(s[2..]);
    var t := SkipBody(s[2..]);
    if |t| >= 2 && t[0] == ESC && t[1] == BACKSLASH {
      assert WellFormed(t[1..]) && t[1..][1..] == t[2..];
    }
  }

  // ---------------------------------------------------------------- exactly when it aborts

  /** The number of consecutive ESC bytes that end at position `p`. */
  function EscRun(s: Bytes, p: nat): nat
    requires p < |s|
  {
    if s[p] != ESC then 0 else if p == 0 then 1 else 1 + EscRun(s, p - 1)
  }

  /** An ESC that starts a sequence (it is the last of an odd number) before a byte that is not
      ASCII. */
  predicate Hazard(s: Bytes, p: nat) {
    p + 1 < |s| && s[p] == ESC && s[p + 1] >= 0x80 && EscRun(s, p) % 2 == 1
  }

  /** `k` bytes can be cut off without changing the parity of any later run of ESC bytes. */
  predicate Cut(s: Bytes, k: nat) {
    k <= |s| && (k == 0 || s[k - 1] != ESC || (k == 2 && s[0] == ESC && s[1] == ESC))
  }

  lemma {:induction false} EscRunAfterCut(s: Bytes, k: nat, p: nat)
    requires Cut(s, k) && k <= p < |s|
    ensures EscRun(s, p) % 2 == EscRun(s[k..], p - k) % 2
    decreases p
  {
    assert s[k..][p - k] == s[p];
    if s[p] == ESC {
      if p > k {
        EscRunAfterCut(s, k, p - 1);
      } else if k == 2 && s[1] == ESC {
        assert EscRun(s, 1) == 2;
      }
    }
  }

  lemma HazardsAfterCut(s: Bytes, k: nat)
    requires Cut(s, k) && forall p :: 0 <= p < k ==> !Hazard(s, p)
    ensures (exists p :: Hazard(s, p)) <==> (exists p :: Hazard(s[k..], p))
  {
    forall p: nat | k <= p < |s| ensures Hazard(s, p) <==> Hazard(s[k..], p - k) {
      EscRunAfterCut(s, k, p);
    }
    if p: nat :| Hazard(s[k..], p) { assert Hazard(s, p + k); }
    if p: nat :| Hazard(s, p) { assert Hazard(s[k..], p - k); }
  }

  lemma {:induction false} SkippedPrefix(s: Bytes, t: Bytes)
    requires t == SkipIntermediates(s) || t == SkipParameters(s) || t == SkipBody(s)
    ensures |t| <= |s| && t == s[|s| - |t|..]
    ensures forall i :: 0 <= i < |s| - |t| ==> s[i] != ESC
    decreases |s|
  {
    if s == [] || t == s {
      assert s[0..] == s;
    } else {
      SkippedPrefix(s[1..], t);
      assert s[1..][|s| - 1 - |t|..] == s[|s| - |t|..];
      forall i | 0 <= i < |s| - |t| ensures s[i] != ESC {
        if i > 0 { assert s[i] == s[1..][i - 1]; }
      }
    }
  }

  lemma SuffixOfSuffix(s: Bytes, a: nat, b: nat)
    requires a + b <= |s|
    ensures s[a..][b..] == s[a + b..]
  {
  }

  /** `t` is what is left of `s` when bytes other than ESC are cut off. */
  predicate CutsNoEsc(s: Bytes, t: Bytes) {
    |t| <= |s| && t == s[|s| - |t|..] && forall i :: 0 <= i < |s| - |t| ==> s[i] != ESC
  }

  lemma CutTwice(s: Bytes, a: Bytes, b: Bytes)
    requires CutsNoEsc(s, a) && CutsNoEsc(a, b)
    ensures CutsNoEsc(s, b)
  {
    var k := |s| - |a|;
    SuffixOfSuffix(s, k, |a| - |b|);
    forall i | k <= i < |s| - |b| ensures s[i] != ESC { assert s[i] == a[i - k]; }
  }

  lemma CutOne(s: Bytes, t: Bytes)
    requires CutsNoEsc(s, t) && t != [] && t[0] != ESC
    ensures CutsNoEsc(s, t[1..])
  {
    SuffixOfSuffix(s, |s| - |t|, 1);
    assert s[|s| - |t|] == t[0];
  }

  lemma CsiCut(s: Bytes)
    ensures CutsNoEsc(s, AfterCsi(s))
  {
    var a := SkipIntermediates(s);
    var b := SkipParameters(a);
    SkippedPrefix(s, a);
    SkippedPrefix(a, b);
    CutTwice(s, a, b);
    if b != [] && Final(b[0]) { CutOne(s, b); }
  }

  lemma OscCut(s: Bytes) returns (k: nat)
    ensures k <= |s| && AfterOsc(s) == s[k..]
    ensures k == 0 || s[k - 1] != ESC
    ensures forall i :: 0 <= i < k && s[i] == ESC ==> i + 1 < k && s[i + 1] == BACKSLASH
  {
    var t := SkipBody(s);
    SkippedPrefix(s, t);
    k := |s| - |t|;
    if t != [] {
      assert s[k] == t[0];
      if t[0] == BEL {
        SuffixOfSuffix(s, k, 1);
        k := k + 1;
      } else if |t| >= 2 && t[1] == BACKSLASH {
        assert s[k + 1] == t[1];
        SuffixOfSuffix(s, k, 2);
        k := k + 2;
      }
    }
  }

  lemma EscapeCut(s: Bytes) returns (k: nat)
    requires |s| >= 2 && s[0] == ESC && s[1] < 0x80
    ensures 2 <= k <= |s| && AfterEscape(s) == s[k..] && Cut(s, k)
    ensures forall p :: 0 <= p < k ==> !Hazard(s, p)
  {
    k := 2;
    if s[1] == LBRACKET {
      CsiCut(s[2..]);
      var j := |s| - 2 - |AfterCsi(s[2..])|;
      SuffixOfSuffix(s, 2, j);
      k := 2 + j;
      forall i | 2 <= i < k ensures s[i] != ESC { assert s[i] == s[2..][i - 2]; }
    } else if s[1] == RBRACKET {
      var j := OscCut(s[2..]);
      SuffixOfSuffix(s, 2, j);
      k := 2 + j;
      forall i | 2 <= i < k && s[i] == ESC ensures i + 1 < k && s[i + 1] == BACKSLASH { assert s[i] == s[2..][i - 2]; }
      if j > 0 { assert s[k - 1] == s[2..][j - 1]; }
    } else if s[1] == ESC {
      assert EscRun(s, 1) == 2;
    }
  }

  /** On UTF-8 text the scanner aborts exactly when some run of an odd number of ESC bytes is
      followed by a character that is not ASCII. */
  lemma {:induction false} AbortsExactly(s: Bytes)
    requires WellFormed(s)
    ensures Scan(s).None? <==> exists p :: Hazard(s, p)
    decreases |s|
  {
    if s == [] {
    } else if s[0] == ESC {
      if |s| == 1 {
      } else if s[1] >= 0x80 {
        assert EscRun(s, 0) == 1 && Hazard(s, 0);
        assert WellFormed(s[1..]) && s[1..][0] == s[1];
        assert s[2..][0] == s[1..][1] && Continuation(s[2]);
        assert Scan(s[2..]).None?;
      } else {
        var k := EscapeCut(s);
        AfterEscapeWellFormed(s);
        HazardsAfterCut(s, k);
        AbortsExactly(s[k..]);
      }
    } else {
      var n := if s[0] == BEL then 1 else Utf8Len(s[0]);
      forall p: nat | p < n ensures s[p] != ESC {}
      HazardsAfterCut(s, n);
      AbortsExactly(s[n..]);
      BoundaryAfter(s);
    }
  }

  lemma BoundaryAfter(s: Bytes)
    requires WellFormed(s) && s != []
    ensures Boundary(s, Utf8Len(s[0]))
  {
    var n := Utf8Len(s[0]);
    if n < |s| { assert s[n..][0] == s[n]; }
  }

  // ---------------------------------------------------------------- what the output is

  /** `a` can be obtained from the text `b` by leaving out whole characters. */
  predicate Leaves(a: Bytes, b: Bytes)
    decreases |b|
  {
    if b == [] then a == []
    else
      var n := if Utf8Len(b[0]) <= |b| then Utf8Len(b[0]) else |b|;
      (b[..n] <= a && Leaves(a[n..], b[n..])) || Leaves(a, b[n..])
  }

  /** Cutting a well-formed text where a character starts cuts off whole characters. */
  lemma {:induction false} LeavesSuffix(a: Bytes, b: Bytes, k: nat)
    requires k <= |b| && WellFormed(b) && WellFormed(b[k..]) && Leaves(a, b[k..])
    ensures Leaves(a, b)
    decreases k
  {
    if k > 0 {
      var n := Utf8Len(b[0]);
      assert k < |b| ==> b[k..][0] == b[k];
      SuffixOfSuffix(b, n, k - n);
      LeavesSuffix(a, b[n..], k - n);
    } else {
      assert b[0..] == b;
    }
  }

  lemma LeavesCharacter(a: Bytes, b: Bytes)
    requires b != [] && WellFormed(b) && Leaves(a, b[Utf8Len(b[0])..])
    ensures Leaves(b[..Utf8Len(b[0])] + a, b)
  {
    var n := Utf8Len(b[0]);
    assert (b[..n] + a)[n..] == a;
  }

  lemma {:induction false} EscapeSuffix(s: Bytes) returns (k: nat)
    requires |s| >= 2 && s[0] == ESC
    ensures 2 <= k <= |s| && AfterEscape(s) == s[k..]
  {
    k := 2;
    if s[1] == LBRACKET {
      CsiCut(s[2..]);
      var j := |s| - 2 - |AfterCsi(s[2..])|;
      SuffixOfSuffix(s, 2, j);
      k := 2 + j;
    } else if s[1] == RBRACKET {
      var j := OscCut(s[2..]);
      SuffixOfSuffix(s, 2, j);
      k := 2 + j;
    }
  }

  lemma WellFormedCons(s: Bytes, t: Bytes)
    requires WellFormed(s) && s != [] && WellFormed(t)
    ensures WellFormed(s[..Utf8Len(s[0])] + t)
  {
    var n := Utf8Len(s[0]);
    var u := s[..n] + t;
    assert u[0] == s[0] && u[n..] == t;
    forall i | 1 <= i < n ensures Continuation(u[i]) { assert u[i] == s[i]; }
  }

  lemma NotAborted(s: Bytes)
    requires |s| >= 2 && s[0] == ESC && WellFormed(s)
    ensures Scan(s).Some? ==> s[1] < 0x80
  {
    assert EscRun(s, 0) == 1;
    if s[1] >= 0x80 {
      assert Hazard(s, 0);
      AbortsExactly(s);
    }
  }

  /** When the scanner does not abort, its output is well-formed text without ESC or BEL that
      leaves out whole characters of the input and changes none. */
  lemma {:induction false} OutputIsCleanText(s: Bytes)
    requires WellFormed(s) && Scan(s).Some?
    ensures WellFormed(Scan(s).value) && Clean(Scan(s).value) && Leaves(Scan(s).value, s)
    decreases |s|
  {
    if s == [] {
    } else if s[0] == ESC {
      if |s| > 1 {
        NotAborted(s);
        AfterEscapeWellFormed(s);
        var k := EscapeSuffix(s);
        OutputIsCleanText(s[k..]);
        LeavesSuffix(Scan(s).value, s, k);
      }
    } else if s[0] == BEL {
      OutputIsCleanText(s[1..]);
      LeavesSuffix(Scan(s).value, s, 1);
    } else {
      var n := Utf8Len(s[0]);
      OutputIsCleanText(s[n..]);
      var rest := Scan(s[n..]).value;
      LeavesCharacter(rest, s);
      WellFormedCons(s, rest);
      forall i | 0 <= i < n ensures s[..n][i] != ESC && s[..n][i] != BEL {}
    }
  }

  lemma {:induction false} CleanTextIsKept(s: Bytes)
    requires WellFormed(s) && Clean(s)
    ensures Scan(s) == Some(s)
    decreases |s|
  {
    if s != [] {
      var n := Utf8Len(s[0]);
      BoundaryAfter(s);
      assert s == s[..n] + s[n..];
      CleanTextIsKept(s[n..]);
    }
  }

  /** Stripping twice is stripping once. */
  lemma Idempotent(s: Bytes)
    requires WellFormed(s) && Scan(s).Some?
    ensures Scan(Scan(s).value) == Scan(s)
  {
    OutputIsCleanText(s);
    CleanTextIsKept(Scan(s).value);
  }

  // ---------------------------------------------------------------- it undoes colouring

  /** A piece of coloured output: text, a CSI sequence with parameters only, an OSC string that ends in
      BEL or in ST, or an escape of two bytes. */
  datatype Piece =
    | Text(text: Bytes)
    | Csi(parameters: Bytes, last: byte)
    | Osc(body: Bytes, st: bool)
    | Short(second: byte)
  {
    predicate Ok() {
      match this
      case Text(text) => WellFormed(text) && Clean(text)
      case Csi(parameters, last) =>
        (forall i :: 0 <= i < |parameters| ==> 0x30 <= parameters[i] <= 0x3F) && 0x40 <= last <= 0x7E
      case Osc(body, _) => forall i :: 0 <= i < |body| ==> body[i] != 0x07 && body[i] != 0x1B
      case Short(second) => second < 0x80 && second != 0x5B && second != 0x5D
    }

    function Render(): Bytes {
      match this
      case Text(text) => text
      case Csi(parameters, last) => [ESC, LBRACKET] + parameters + [last]
      case Osc(body, st) => [ESC, RBRACKET] + body + (if st then [ESC, BACKSLASH] else [BEL])
      case Short(second) => [ESC, second]
    }

    function Plain(): Bytes { if Text? then text else [] }
  }

  function Render(pieces: seq<Piece>): Bytes {
    if pieces == [] then [] else pieces[0].Render() + Render(pieces[1..])
  }

  function Plain(pieces: seq<Piece>): Bytes {
    if pieces == [] then [] else pieces[0].Plain() + Plain(pieces[1..])
  }

  predicate Starts(s: Bytes) { s == [] || !Continuation(s[0]) }

  /** One ordinary character at the front is kept. */
  lemma ScanOne(s: Bytes, n: nat)
    requires s != [] && s[0] != ESC && s[0] != BEL && !Continuation(s[0])
    requires n == Utf8Len(s[0]) <= |s| && Boundary(s, n)
    ensures Scan(s) == Prepend(s[..n], Scan(s[n..]))
  {
  }

  lemma CleanSuffix(text: Bytes, n: nat)
    requires Clean(text) && n <= |text|
    ensures Clean(text[n..])
  {
  }

  /** A boundary of a text stays one when something is put behind the text. */
  lemma BoundaryStays(text: Bytes, rest: Bytes, n: nat)
    requires 0 < n <= |text| && Boundary(text, n) && Starts(rest)
    ensures var all := text + rest;
            Boundary(all, n) && all[0] == text[0] && all[..n] == text[..n] && all[n..] == text[n..] + rest
  {
    var all := text + rest;
    if n < |text| {
      assert all[n] == text[n];
    } else if n < |all| {
      assert all[n] == rest[0];
    }
  }

  lemma {:induction false} ScanText(text: Bytes, rest: Bytes)
    requires WellFormed(text) && Clean(text) && Starts(rest)
    ensures Scan(text + rest) == Prepend(text, Scan(rest))
    decreases |text|
  {
    if text == [] {
      assert text + rest == rest;
      PrependNothing(Scan(rest));
    } else {
      var n := Utf8Len(text[0]);
      BoundaryAfter(text);
      BoundaryStays(text, rest, n);
      CleanSuffix(text, n);
      ScanOne(text + rest, n);
      ScanText(text[n..], rest);
      PrependWhole(text, n, Scan(rest));
    }
  }

  lemma PrependWhole(text: Bytes, n: nat, r: Option<Bytes>)
    requires n <= |text|
    ensures Prepend(text[..n], Prepend(text[n..], r)) == Prepend(text, r)
  {
    Prepend2(text[..n], text[n..], r);
    assert text[..n] + text[n..] == text;
  }

  lemma {:induction false} SkipParametersOver(parameters: Bytes, rest: Bytes)
    requires forall i :: 0 <= i < |parameters| ==> Parameter(parameters[i])
    requires rest != [] && !Parameter(rest[0])
    ensures SkipParameters(parameters + rest) == rest
    decreases |parameters|
  {
    if parameters == [] {
      assert parameters + rest == rest;
    } else {
      assert (parameters + rest)[1..] == parameters[1..] + rest;
      SkipParametersOver(parameters[1..], rest);
    }
  }

  lemma ScanCsi(parameters: Bytes, last: byte, rest: Bytes)
    requires Csi(parameters, last).Ok()
    ensures Scan(Csi(parameters, last).Render() + rest) == Scan(rest)
  {
    var s := Csi(parameters, last).Render() + rest;
    assert s[2..] == parameters + ([last] + rest);
    assert SkipIntermediates(s[2..]) == s[2..];
    SkipParametersOver(parameters, [last] + rest);
    assert ([last] + rest)[1..] == rest;
  }

  lemma ScanOsc(body: Bytes, st: bool, rest: Bytes)
    requires Osc(body, st).Ok()
    ensures Scan(Osc(body, st).Render() + rest) == Scan(rest)
  {
    var end := if st then [ESC, BACKSLASH] else [BEL];
    var s := Osc(body, st).Render() + rest;
    assert s[2..] == body + (end + rest);
    SkipBodyOver(s[2..], |body|);
    assert s[2..][|body|..] == end + rest;
    assert (end + rest)[|end|..] == rest;
  }

  lemma ScanShort(second: byte, rest: Bytes)
    requires Short(second).Ok()
    ensures Scan(Short(second).Render() + rest) == Scan(rest)
  {
    assert (Short(second).Render() + rest)[2..] == rest;
  }

  lemma {:induction false} RenderStarts(pieces: seq<Piece>)
    requires forall i :: 0 <= i < |pieces| ==> pieces[i].Ok()
    ensures Starts(Render(pieces))
    decreases |pieces|
  {
    if pieces != [] {
      RenderStarts(pieces[1..]);
      if pieces[0].Text? && pieces[0].text == [] { assert Render(pieces) == Render(pieces[1..]); }
    }
  }

  /** Stripping is a left inverse of colouring. */
  lemma {:induction false} StripUndoesColouring(pieces: seq<Piece>)
    requires forall i :: 0 <= i < |pieces| ==> pieces[i].Ok()
    ensures Scan(Render(pieces)) == Some(Plain(pieces))
    decreases |pieces|
  {
    if pieces != [] {
      var rest := pieces[1..];
      StripUndoesColouring(rest);
      RenderStarts(rest);
      match pieces[0]
      case Text(text) => ScanText(text, Render(rest));
      case Csi(parameters, last) =>
        ScanCsi(parameters, last, Render(rest));
        assert [] + Plain(rest) == Plain(rest);
      case Osc(body, st) =>
        ScanOsc(body, st, Render(rest));
        assert [] + Plain(rest) == Plain(rest);
      case Short(second) =>
        ScanShort(second, Render(rest));
        assert [] + Plain(rest) == Plain(rest);
    }
  }

  // ---------------------------------------------------------------- where it departs from the standard

  lemma {:induction false} SkipIntermediatesOver(between: Bytes, rest: Bytes)
    requires forall i :: 0 <= i < |between| ==> Intermediate(between[i])
    requires rest != [] && !Intermediate(rest[0])
    ensures SkipIntermediates(between + rest) == rest
    decreases |between|
  {
    if between == [] {
      assert between + rest == rest;
    } else {
      assert (between + rest)[1..] == between[1..] + rest;
      SkipIntermediatesOver(between[1..], rest);
    }
  }

  lemma {:induction false} AsciiWellFormed(s: Bytes)
    requires forall i :: 0 <= i < |s| ==> s[i] < 0x80
    ensures WellFormed(s)
    decreases |s|
  {
    if s != [] { AsciiWellFormed(s[1..]); }
  }

  /** What the scanner leaves of a control sequence in the standard's order. */
  function LeftOver(parameters: Bytes, between: Bytes, last: byte): Bytes {
    if parameters == [] || between == [] then [] else between + [last]
  }

  lemma ScanIntroducer(t: Bytes)
    ensures Scan([ESC, LBRACKET] + t) == Scan(AfterCsi(t))
  {
    assert ([ESC, LBRACKET] + t)[2..] == t;
  }

  /** What the program takes for the rest of the text after the introducer. */
  lemma AfterStandardCsi(parameters: Bytes, between: Bytes, last: byte, rest: Bytes)
    requires forall i :: 0 <= i < |parameters| ==> Parameter(parameters[i])
    requires forall i :: 0 <= i < |between| ==> Intermediate(between[i])
    requires Final(last)
    ensures AfterCsi(parameters + (between + ([last] + rest))) == LeftOver(parameters, between, last) + rest
  {
    var end := [last] + rest;
    var s := parameters + (between + end);
    assert end[1..] == rest && [] + rest == rest;
    if parameters == [] {
      assert s == between + end;
      SkipIntermediatesOver(between, end);
    } else {
      assert SkipIntermediates(s) == s;
      SkipParametersOver(parameters, between + end);
      if between == [] {
        assert between + end == end;
      } else {
        assert between + end == between + [last] + rest;
      }
    }
  }

  lemma ScanStandardCsi(parameters: Bytes, between: Bytes, last: byte, rest: Bytes)
    requires forall i :: 0 <= i < |parameters| ==> Parameter(parameters[i])
    requires forall i :: 0 <= i < |between| ==> Intermediate(between[i])
    requires Final(last) && Starts(rest)
    ensures Scan([ESC, LBRACKET] + (parameters + (between + ([last] + rest)))) ==
            Prepend(LeftOver(parameters, between, last), Scan(rest))
  {
    ScanIntroducer(parameters + (between + ([last] + rest)));
    AfterStandardCsi(parameters, between, last, rest);
    AsciiWellFormed(LeftOver(parameters, between, last));
    ScanText(LeftOver(parameters, between, last), rest);
  }

  /** A control sequence as ECMA-48 section 5.4 orders it (parameters, then intermediates, then
      the final byte), between clean text and any other text: what comes after it is scanned as if
      it stood alone, and the sequence is removed completely exactly when it has no parameter or no
      intermediate bytes. Otherwise its intermediates and its final byte stay in the text. */
  lemma StandardCsiExactly(before: Bytes, parameters: Bytes, between: Bytes, last: byte, rest: Bytes)
    requires WellFormed(before) && Clean(before) && Starts(rest)
    requires forall i :: 0 <= i < |parameters| ==> 0x30 <= parameters[i] <= 0x3F
    requires forall i :: 0 <= i < |between| ==> 0x20 <= between[i] <= 0x2F
    requires 0x40 <= last <= 0x7E
    ensures var s := [ESC, LBRACKET] + (parameters + (between + ([last] + rest)));
            && Scan(before + s) == Prepend(before + LeftOver(parameters, between, last), Scan(rest))
            && (Scan(rest).Some? ==>
                  (Scan(before + s) == Some(before + Scan(rest).value) <==> parameters == [] || between == []))
  {
    var s := [ESC, LBRACKET] + (parameters + (between + ([last] + rest)));
    ScanText(before, s);
    ScanStandardCsi(parameters, between, last, rest);
    Prepend2(before, LeftOver(parameters, between, last), Scan(rest));
    assert before + [] == before;
  }
}
