/** Removing terminal control sequences (ECMA-48, section 5.4) from UTF-8 text, byte by byte.

    The program slices the text at byte positions; a slice that does not start and end on a
    character boundary aborts it. `None` stands for that abort. */
module StripAnsi {
  import opened Basics

  const ESC: byte := 0x1b
  const BEL: byte := 0x07
  const LBRACKET: byte := 0x5b
  const RBRACKET: byte := 0x5d
  const BACKSLASH: byte := 0x5c

  predicate Continuation(b: byte) { 0x80 <= b <= 0xbf }

  predicate Intermediate(b: byte) { 0x20 <= b <= 0x2f }

  predicate Parameter(b: byte) { 0x30 <= b <= 0x3f }

  predicate Final(b: byte) { 0x40 <= b <= 0x7e }

  predicate OscBody(b: byte) { b != BEL && b != ESC }

  /** The length of the character that a first byte announces. */
  function Utf8Len(b: byte): nat {
    if b <= 0x7f then 1
    else if b <= 0xbf then 1
    else if b <= 0xdf then 2
    else if b <= 0xef then 3
    else 4
  }

  predicate Boundary(s: Bytes, i: nat) {
    i <= |s| && (i == 0 || i == |s| || !Continuation(s[i]))
  }

  /** Every character is announced by its first byte; all UTF-8 text is of this form. */
  predicate WellFormed(s: Bytes)
    decreases |s|
  {
    s == [] ||
    (var n := Utf8Len(s[0]);
     !Continuation(s[0]) && n <= |s| && (forall i :: 1 <= i < n ==> Continuation(s[i])) && WellFormed(s[n..]))
  }

  type Text = s: Bytes | WellFormed(s)

  // ---------------------------------------------------------------- the scanner on a suffix

  function SkipIntermediates(s: Bytes): (r: Bytes)
    ensures |r| <= |s|
  {
    if s != [] && Intermediate(s[0]) then SkipIntermediates(s[1..]) else s
  }

  function SkipParameters(s: Bytes): (r: Bytes)
    ensures |r| <= |s|
  {
    if s != [] && Parameter(s[0]) then SkipParameters(s[1..]) else s
  }

  function SkipBody(s: Bytes): (r: Bytes)
    ensures |r| <= |s|
  {
    if s != [] && OscBody(s[0]) then SkipBody(s[1..]) else s
  }

  /** What follows a CSI introducer: the program reads intermediate bytes before parameter
      bytes, the reverse of the standard's order. */
  function AfterCsi(s: Bytes): (r: Bytes)
    ensures |r| <= |s|
  {
    var t := SkipParameters(SkipIntermediates(s));
    if t != [] && Final(t[0]) then t[1..] else t
  }

  function AfterOsc(s: Bytes): (r: Bytes)
    ensures |r| <= |s|
  {
    var t := SkipBody(s);
    if t == [] then t
    else if t[0] == BEL then t[1..]
    else if |t| >= 2 && t[1] == BACKSLASH then t[2..]
    else t
  }

  /** What follows the control sequence that starts a suffix. */
  function AfterEscape(s: Bytes): (r: Bytes)
    requires |s| >= 2 && s[0] == ESC
    ensures |r| < |s|
  {
    if s[1] == LBRACKET then AfterCsi(s[2..])
    else if s[1] == RBRACKET then AfterOsc(s[2..])
    else s[2..]
  }

  function Prepend(a: Bytes, r: Option<Bytes>): Option<Bytes> {
    if r.None? then None else Some(a + r.value)
  }

  /** The text kept of a suffix that starts on a position the scanner reaches. */
  function Scan(s: Bytes): Option<Bytes>
    decreases |s|
  {
    if s == [] then Some([])
    else if s[0] == ESC then
      if |s| == 1 then Some([]) else Scan(AfterEscape(s))
    else if s[0] == BEL then Scan(s[1..])
    else
      var n := Utf8Len(s[0]);
      if n > |s| then Some([])
      else if Continuation(s[0]) || !Boundary(s, n) then None
      else Prepend(s[..n], Scan(s[n..]))
  }

  // ---------------------------------------------------------------- the loop over the bytes

  lemma Tail(bytes: Bytes, i: nat)
    requires i < |bytes|
    ensures bytes[i..] != [] && bytes[i..][0] == bytes[i] && bytes[i..][1..] == bytes[i + 1..]
  {
  }

  lemma Prepend2(a: Bytes, b: Bytes, r: Option<Bytes>)
    ensures Prepend(a, Prepend(b, r)) == Prepend(a + b, r)
  {
    if r.Some? { assert a + (b + r.value) == (a + b) + r.value; }
  }

  lemma PrependNothing(r: Option<Bytes>)
    ensures Prepend([], r) == r
  {
    if r.Some? { assert [] + r.value == r.value; }
  }

  /** The scan of the suffix at `i` when it starts with an ordinary byte. */
  lemma ScanCharacter(bytes: Bytes, i: nat)
    requires i < |bytes| && bytes[i] != ESC && bytes[i] != BEL
    requires i == 0 ==> !Continuation(bytes[i])
    ensures var n := Utf8Len(bytes[i]);
            Scan(bytes[i..]) ==
            if i + n > |bytes| then Some([])
            else if Boundary(bytes, i) && Boundary(bytes, i + n) then Prepend(bytes[i..i + n], Scan(bytes[i + n..]))
            else None
  {
    var n := Utf8Len(bytes[i]);
    var rest := bytes[i..];
    if i + n <= |bytes| {
      assert rest[..n] == bytes[i..i + n] && rest[n..] == bytes[i + n..];
      if i + n < |bytes| { assert rest[n] == bytes[i + n]; }
    }
  }

  method SkipCsi(bytes: Bytes, from: nat) returns (i: nat)
    requires from <= |bytes|
    ensures from <= i <= |bytes| && bytes[i..] == AfterCsi(bytes[from..])
  {
    i := from;
    while i < |bytes| && 0x20 <= bytes[i] <= 0x2f
      invariant from <= i <= |bytes|
      invariant SkipIntermediates(bytes[i..]) == SkipIntermediates(bytes[from..])
    {
      Tail(bytes, i);
      i := i + 1;
    }
    ghost var mid := i;
    while i < |bytes| && 0x30 <= bytes[i] <= 0x3f
      invariant mid <= i <= |bytes|
      invariant SkipParameters(bytes[i..]) == SkipParameters(bytes[mid..])
    {
      Tail(bytes, i);
      i := i + 1;
    }
    if i < |bytes| && 0x40 <= bytes[i] <= 0x7e {
      Tail(bytes, i);
      i := i + 1;
    }
  }

  method SkipOsc(bytes: Bytes, from: nat) returns (i: nat)
    requires from <= |bytes|
    ensures from <= i <= |bytes| && bytes[i..] == AfterOsc(bytes[from..])
  {
    i := from;
    while i < |bytes| && bytes[i] != BEL && bytes[i] != ESC
      invariant from <= i <= |bytes|
      invariant SkipBody(bytes[i..]) == SkipBody(bytes[from..])
    {
      Tail(bytes, i);
      i := i + 1;
    }
    if i < |bytes| {
      Tail(bytes, i);
      if bytes[i] == BEL {
        i := i + 1;
      } else if bytes[i] == ESC && i + 1 < |bytes| && bytes[i + 1] == BACKSLASH {
        Tail(bytes, i + 1);
        i := i + 2;
      }
    }
  }

  /** The position after the control sequence at `from`. */
  method SkipEscape(bytes: Bytes, from: nat) returns (i: nat)
    requires from + 1 < |bytes| && bytes[from] == ESC
    ensures from < i <= |bytes| && bytes[i..] == AfterEscape(bytes[from..])
  {
    Tail(bytes, from);
    Tail(bytes, from + 1);
    if bytes[from + 1] == LBRACKET {
      i := SkipCsi(bytes, from + 2);
    } else if bytes[from + 1] == RBRACKET {
      i := SkipOsc(bytes, from + 2);
    } else {
      i := from + 2;
    }
  }

  /** The scanner itself; `ok` is false when a slice misses a character boundary. The index
      strictly increases. */
  method Strip(bytes: Bytes) returns (ok: bool, out: Bytes)
    requires bytes != [] ==> !Continuation(bytes[0])
    ensures Scan(bytes) == if ok then Some(out) else None
  {
    out := [];
    var i := 0;
    assert bytes[0..] == bytes;
    PrependNothing(Scan(bytes));
    while i < |bytes|
      invariant i <= |bytes|
      invariant Scan(bytes) == Prepend(out, Scan(bytes[i..]))
      decreases |bytes| - i
    {
      Tail(bytes, i);
      var b := bytes[i];
      if b == ESC {
        if i + 1 >= |bytes| { break; }
        i := SkipEscape(bytes, i);
      } else if b == BEL {
        i := i + 1;
      } else {
        ScanCharacter(bytes, i);
        var n := Utf8Len(b);
        if i + n > |bytes| { break; }
        if !Boundary(bytes, i) || !Boundary(bytes, i + n) { return false, []; }
        Prepend2(out, bytes[i..i + n], Scan(bytes[i + n..]));
        out := out + bytes[i..i + n];
        i := i + n;
      }
    }
    assert Scan(bytes[i..]) == Some([]);
    assert out + [] == out;
    ok := true;
  }
}
