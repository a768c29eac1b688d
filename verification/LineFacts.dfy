/** What the answers of the line reader mean: the trimming, the refusals, the blank test and the lines
    of a whole stream, each in terms of the bytes. */
module LineFacts {
  import opened Basics
  import opened LineReader
  import opened Utf8

  function CarriageReturns(n: nat): Bytes { seq(n, _ => CR) }

  /** Trimming takes all carriage returns off the end and nothing else. */
  lemma {:induction false} TrimmedExactly(s: Bytes) returns (n: nat)
    ensures s == TrimCr(s) + CarriageReturns(n)
    ensures TrimCr(s) != [] ==> TrimCr(s)[|TrimCr(s)| - 1] != CR
    decreases |s|
  {
    if s == [] || s[|s| - 1] != CR {
      assert s + CarriageReturns(0) == s;
      return 0;
    }
    var init := s[..|s| - 1];
    var m := TrimmedExactly(init);
    assert s == init + [CR];
    assert CarriageReturns(m) + [CR] == CarriageReturns(m + 1);
    Associates(TrimCr(s), CarriageReturns(m), [CR]);
    n := m + 1;
  }

  lemma {:induction false} TrimsReturns(f: Bytes, n: nat)
    requires f == [] || f[|f| - 1] != CR
    ensures TrimCr(f + CarriageReturns(n)) == f
    decreases n
  {
    var s := f + CarriageReturns(n);
    if n == 0 {
      assert s == f;
    } else {
      assert s[|s| - 1] == CR && s[..|s| - 1] == f + CarriageReturns(n - 1);
      TrimsReturns(f, n - 1);
    }
  }

  /** What one read answers: a line, if its newline is among the first 1048576 bytes; a parse error, if
      there are more bytes than that without one; otherwise an internal error for a fault or a timeout,
      or the end. */
  lemma OutcomeExactly(s: Bytes, fault: bool)
    ensures Outcome(s, fault) == Error(-32700) <==> |s| > 1048576 && NoNewline(s, 1048576)
    ensures Outcome(s, fault) == Error(-32603) <==> |s| <= 1048576 && NoNewline(s, |s|) && fault
    ensures Outcome(s, fault).Eof? <==> |s| <= 1048576 && NoNewline(s, |s|) && !fault
    ensures Outcome(s, fault).Line? <==> exists k :: 0 <= k < |s| && k < 1048576 && s[k] == 10
  {
    var k := FindNewline(s);
    if i :| 0 <= i < |s| && i < 1048576 && s[i] == 10 { assert k <= i; }
  }

  /** The line is what stands before the first newline, less its carriage returns. */
  lemma LineExactly(s: Bytes, fault: bool, k: nat)
    requires k < |s| && s[k] == 10 && NoNewline(s, k) && k < 1048576
    ensures exists n :: Outcome(s, fault).Line? && s[..k] == Outcome(s, fault).bytes + CarriageReturns(n)
  {
    FirstNewline(s, k);
    var n := TrimmedExactly(s[..k]);
    assert s[..k] == TrimCr(s[..k]) + CarriageReturns(n);
  }

  // ---------------------------------------------------------------- blank lines

  lemma TwoBytes(c: int)
    requires 0x80 <= c < 0x800
    ensures 0xC2 <= 0xC0 + c / 64 <= 0xDF && Joined(c / 64, 0x80 + c % 64) == c
  {
  }

  lemma ThreeBytes(c: int)
    requires 0x800 <= c < 0x10000
    ensures 0xE0 <= 0xE0 + c / 4096 <= 0xEF
    ensures Joined(Joined(c / 4096, 0x80 + c / 64 % 64), 0x80 + c % 64) == c
  {
    assert c / 64 == (c / 64 / 64) * 64 + c / 64 % 64;
    assert c / 64 / 64 == c / 4096;
  }

  lemma SpaceAtFront(c: Scalar, rest: Bytes)
    ensures SpaceLen(Encoded(c) + rest) == if IsSpace(c) then |Encoded(c)| else 0
  {
    var s := Encoded(c) + rest;
    if c < 0x80 {
      assert s[0] == c;
    } else if c < 0x800 {
      TwoBytes(c);
      assert s[0] == 0xC0 + c / 64 && s[1] == 0x80 + c % 64;
    } else if c < 0x10000 {
      ThreeBytes(c);
      assert s[0] == 0xE0 + c / 4096 && s[1] == 0x80 + c / 64 % 64 && s[2] == 0x80 + c % 64;
    } else {
      assert s[0] == 0xF0 + c / 262144;
    }
  }

  /** A line of text is skipped exactly if all its characters are white space. */
  lemma {:induction false} BlankExactly(cs: seq<Scalar>)
    ensures Blank(Encoding(cs)) <==> forall i :: 0 <= i < |cs| ==> IsSpace(cs[i])
    decreases |cs|
  {
    if cs != [] {
      var c, rest := cs[0], cs[1..];
      SpaceAtFront(c, Encoding(rest));
      BlankExactly(rest);
      assert (Encoded(c) + Encoding(rest))[|Encoded(c)|..] == Encoding(rest);
      assert forall i :: 0 < i < |cs| ==> cs[i] == rest[i - 1];
      if IsSpace(c) && Blank(Encoding(rest)) {
        forall i | 0 <= i < |cs| ensures IsSpace(cs[i]) { if i > 0 { assert IsSpace(rest[i - 1]); } }
      }
      if forall i :: 0 <= i < |cs| ==> IsSpace(cs[i]) {
        forall i | 0 <= i < |rest| ensures IsSpace(rest[i]) { assert IsSpace(cs[i + 1]); }
      }
    }
  }

  // ---------------------------------------------------------------- whole streams

  /** A line as it may stand on the wire: its bytes, any number of carriage returns, a newline. */
  datatype Wire = Wire(line: Bytes, extra: nat) {
    predicate Ok() {
      && NoNewline(line, |line|) && (line != [] ==> line[|line| - 1] != CR)
      && |line| + extra + 1 <= 1048576
    }
    function Bytes(): Bytes { line + CarriageReturns(extra) + [NEWLINE] }
  }

  function OnTheWire(wires: seq<Wire>): Bytes {
    if wires == [] then [] else wires[0].Bytes() + OnTheWire(wires[1..])
  }

  function NonBlank(wires: seq<Wire>): seq<Bytes> {
    if wires == [] then [] else (if Blank(wires[0].line) then [] else [wires[0].line]) + NonBlank(wires[1..])
  }

  lemma WireIsRead(w: Wire, rest: Bytes, fault: bool)
    requires w.Ok()
    ensures FindNewline(w.Bytes() + rest) == |w.line| + w.extra
    ensures Outcome(w.Bytes() + rest, fault) == Line(w.line)
    ensures (w.Bytes() + rest)[|w.line| + w.extra + 1..] == rest
  {
    var s, k := w.Bytes() + rest, |w.line| + w.extra;
    assert s[..k] == w.line + CarriageReturns(w.extra) && s[k] == NEWLINE;
    forall i | 0 <= i < k ensures s[i] != NEWLINE { assert s[i] == s[..k][i]; }
    FirstNewline(s, k);
    TrimsReturns(w.line, w.extra);
  }

  /** The requests of a stream are its lines, without their carriage returns and without the blank ones,
      in order, whichever way the stream then ends. */
  lemma {:induction false} RequestsAreTheLines(wires: seq<Wire>, tail: Bytes, fault: bool)
    requires forall i :: 0 <= i < |wires| ==> wires[i].Ok()
    requires NoNewline(tail, |tail|)
    ensures Requests(OnTheWire(wires) + tail, fault) ==
            (NonBlank(wires), if |tail| > 1048576 then Error(-32700) else if fault then Error(-32603) else Eof)
    decreases |wires|
  {
    if wires == [] {
      assert OnTheWire(wires) + tail == tail;
      OutcomeExactly(tail, fault);
    } else {
      var w, rest := wires[0], OnTheWire(wires[1..]) + tail;
      Associates(w.Bytes(), OnTheWire(wires[1..]), tail);
      WireIsRead(w, rest, fault);
      RequestsAreTheLines(wires[1..], tail, fault);
    }
  }
}
