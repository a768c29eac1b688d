/** The capped line reader of a connection and the loop that reads requests with it.

    Lines stay bytes here: the lossy UTF-8 decoding of a line is not modelled. */
module LineReader {
  import opened Basics

  const NEWLINE: byte := 10
  const CR: byte := 13

  const MAX_LINE_BYTES := 1048576

  const ERR_PARSE := -32700
  const ERR_INTERNAL := -32603

  /** What one `fill_buf` brings: bytes, or an I/O error or idle timeout. The end of the list
      is the end of the stream. */
  datatype Fill = Data(bytes: Bytes) | Fault

  datatype Reply = Line(bytes: Bytes) | Eof | Error(code: int)

  /** A filled buffer is never empty, except at the end of the stream. */
  predicate Proper(pending: seq<Fill>) {
    forall i :: 0 <= i < |pending| && pending[i].Data? ==> pending[i].bytes != []
  }

  /** The bytes that can be read before the first fault or the end. */
  function Flat(pending: seq<Fill>): Bytes {
    if pending == [] || pending[0].Fault? then [] else pending[0].bytes + Flat(pending[1..])
  }

  predicate Faulty(pending: seq<Fill>) {
    pending != [] && (pending[0].Fault? || Faulty(pending[1..]))
  }

  predicate NoNewline(s: Bytes, k: nat)
    requires k <= |s|
  {
    forall i :: 0 <= i < k ==> s[i] != NEWLINE
  }

  function FindNewline(s: Bytes): (k: nat)
    ensures k <= |s| && (k < |s| ==> s[k] == NEWLINE) && NoNewline(s, k)
  {
    if s == [] || s[0] == NEWLINE then 0 else 1 + FindNewline(s[1..])
  }

  function TrimCr(s: Bytes): Bytes {
    if s != [] && s[|s| - 1] == CR then TrimCr(s[..|s| - 1]) else s
  }

  /** What reading one line of a byte stream answers, however the stream is cut into buffers. */
  function Outcome(s: Bytes, fault: bool): Reply {
    var k := FindNewline(s);
    if k < |s| && k + 1 <= MAX_LINE_BYTES then Line(TrimCr(s[..k]))
    else if k < |s| || |s| > MAX_LINE_BYTES then Error(ERR_PARSE)
    else if fault then Error(ERR_INTERNAL)
    else Eof
  }

  /** `k` bytes without a newline stand before a newline or before the end. */
  predicate LineEndsAt(s: Bytes, k: nat) {
    k <= |s| && (k < |s| ==> s[k] == NEWLINE) && NoNewline(s, k)
  }

  class Reader {
    var pending: seq<Fill>

    constructor (pending: seq<Fill>)
      requires Proper(pending)
      ensures this.pending == pending
    {
      this.pending := pending;
    }

    /** The unread part of the current buffer; `None` is an error or a timeout. */
    method FillBuf() returns (slice: Option<Bytes>)
      requires Proper(pending)
      ensures slice.None? <==> pending != [] && pending[0].Fault?
      ensures slice.Some? ==> slice.value == if pending == [] then [] else pending[0].bytes
    {
      if pending == [] { return Some([]); }
      if pending[0].Fault? { return None; }
      return Some(pending[0].bytes);
    }

    method Consume(n: nat)
      requires Proper(pending) && pending != [] && pending[0].Data? && n <= |pending[0].bytes|
      modifies this
      ensures Proper(pending) && Flat(pending) == old(Flat(pending))[n..] && Faulty(pending) == old(Faulty(pending))
    {
      var rest := pending[0].bytes[n..];
      var tail := pending[1..];
      assert Flat(pending) == pending[0].bytes + Flat(tail);
      assert Flat(pending)[n..] == rest + Flat(tail);
      if rest == [] {
        assert rest + Flat(tail) == Flat(tail);
        pending := tail;
      } else {
        pending := [Data(rest)] + tail;
        assert pending[1..] == tail;
      }
    }

    /** The loop, for a stream `s` of which nothing was read yet. */
    method ReadLine(ghost s: Bytes, ghost fault: bool) returns (reply: Reply, ghost peak: nat)
      requires Ahead(s, fault, [], pending)
      modifies this
      ensures Proper(pending) && reply == Outcome(s, fault) && peak <= MAX_LINE_BYTES
      ensures reply.Line? ==> Flat(pending) == s[FindNewline(s) + 1..] && Faulty(pending) == fault
      ensures reply.Eof? ==> pending == []
    {
      var buf: Bytes := [];
      peak := 0;
      while true
        invariant Ahead(s, fault, buf, pending)
        invariant peak <= MAX_LINE_BYTES
        decreases |s| - |buf|
      {
        var slice := FillBuf();
        if slice.None? || slice.value == [] {
          NoMore(s, fault, buf, pending);
          return if slice.None? then Error(ERR_INTERNAL) else Eof, peak;
        }
        var nl := FindNewline(slice.value);
        var take := if nl < |slice.value| then nl + 1 else nl;
        if |buf| + take > MAX_LINE_BYTES {
          Overlong(s, fault, buf, pending, nl);
          return Error(ERR_PARSE), peak;
        }
        ghost var before := pending;
        Consume(take);
        NextSlice(s, fault, buf, before, pending, nl);
        buf := buf + slice.value[..take];
        if peak < |buf| { peak := |buf|; }
        if nl < |slice.value| {
          return Line(TrimCr(buf[..|buf| - 1])), peak;
        }
      }
    }

    /** One line. The answer depends on the byte stream only; a line leaves exactly what follows
        its newline; `peak` is the most that was ever buffered. */
    method ReadCappedLine() returns (reply: Reply, ghost peak: nat)
      requires Proper(pending)
      modifies this
      ensures Proper(pending)
      ensures reply == Outcome(old(Flat(pending)), old(Faulty(pending)))
      ensures reply.Line? ==> Flat(pending) == old(Flat(pending))[FindNewline(old(Flat(pending))) + 1..]
      ensures reply.Line? ==> Faulty(pending) == old(Faulty(pending))
      ensures reply.Eof? ==> pending == []
      ensures peak <= MAX_LINE_BYTES
    {
      reply, peak := ReadLine(Flat(pending), Faulty(pending));
    }
  }

  /** `buf` is what was read of the stream `s`, without a newline; the rest is still pending. */
  ghost predicate Ahead(s: Bytes, fault: bool, buf: Bytes, pending: seq<Fill>) {
    && Proper(pending) && Faulty(pending) == fault
    && |buf| <= |s| && buf == s[..|buf|] && Flat(pending) == s[|buf|..]
    && |buf| <= MAX_LINE_BYTES && NoNewline(s, |buf|)
  }

  lemma LineFound(s: Bytes, fault: bool, k: nat)
    requires k < |s| && s[k] == NEWLINE && NoNewline(s, k) && k + 1 <= MAX_LINE_BYTES
    ensures FindNewline(s) == k && Outcome(s, fault) == Line(TrimCr(s[..k]))
  {
    FirstNewline(s, k);
  }

  lemma FirstNewline(s: Bytes, k: nat)
    requires k < |s| && s[k] == NEWLINE && NoNewline(s, k)
    ensures FindNewline(s) == k
  {
  }

  /** The stream ends, or faults, with no newline in it. */
  lemma NoMore(s: Bytes, fault: bool, buf: Bytes, pending: seq<Fill>)
    requires Ahead(s, fault, buf, pending) && (pending == [] || pending[0].Fault?)
    ensures Outcome(s, fault) == if pending != [] then Error(ERR_INTERNAL) else Eof
  {
    assert |buf| == |s|;
  }

  /** The bytes of a nonempty buffer come next in the stream. */
  lemma SliceComesNext(s: Bytes, fault: bool, buf: Bytes, pending: seq<Fill>, nl: nat)
    requires Ahead(s, fault, buf, pending) && pending != [] && pending[0].Data? && LineEndsAt(pending[0].bytes, nl)
    ensures var slice := pending[0].bytes;
            && |buf| + |slice| <= |s| && slice == s[|buf|..|buf| + |slice|]
            && NoNewline(s, |buf| + nl) && (nl < |slice| ==> s[|buf| + nl] == NEWLINE)
  {
    var slice := pending[0].bytes;
    assert s[|buf|..] == slice + Flat(pending[1..]);
    assert s[|buf|..][..|slice|] == slice;
    forall i | |buf| <= i < |buf| + nl ensures s[i] != NEWLINE { assert s[i] == slice[i - |buf|]; }
    if nl < |slice| { assert s[|buf| + nl] == slice[nl]; }
  }

  /** Once the bytes up to the newline, or without one, exceed the cap, the line is refused. */
  lemma Overlong(s: Bytes, fault: bool, buf: Bytes, pending: seq<Fill>, nl: nat)
    requires Ahead(s, fault, buf, pending) && pending != [] && pending[0].Data? && LineEndsAt(pending[0].bytes, nl)
    requires |buf| + (if nl < |pending[0].bytes| then nl + 1 else nl) > MAX_LINE_BYTES
    ensures Outcome(s, fault) == Error(ERR_PARSE)
  {
    SliceComesNext(s, fault, buf, pending, nl);
  }

  /** What taking a buffer, up to its newline if it has one, makes of the bytes read so far. */
  lemma NextSlice(s: Bytes, fault: bool, buf: Bytes, pending: seq<Fill>, rest: seq<Fill>, nl: nat)
    requires Ahead(s, fault, buf, pending) && pending != [] && pending[0].Data? && LineEndsAt(pending[0].bytes, nl)
    requires var take := if nl < |pending[0].bytes| then nl + 1 else nl;
             && |buf| + take <= MAX_LINE_BYTES
             && Proper(rest) && Faulty(rest) == fault && take <= |Flat(pending)| && Flat(rest) == Flat(pending)[take..]
    ensures var slice := pending[0].bytes;
            var next := buf + slice[..if nl < |slice| then nl + 1 else nl];
            if nl < |slice| then
              Outcome(s, fault) == Line(TrimCr(next[..|next| - 1])) && Flat(rest) == s[FindNewline(s) + 1..]
            else
              Ahead(s, fault, next, rest)
  {
    SliceComesNext(s, fault, buf, pending, nl);
    var slice := pending[0].bytes;
    var take := if nl < |slice| then nl + 1 else nl;
    var next := buf + slice[..take];
    assert next == s[..|buf| + take];
    assert Flat(rest) == s[|buf| + take..];
    if nl < |slice| {
      LineFound(s, fault, |buf| + nl);
      assert next[..|next| - 1] == s[..|buf| + nl];
    }
  }

  // ---------------------------------------------------------------- reading every request

  predicate Continuation(b: byte) { 0x80 <= b <= 0xBF }

  /** The length of the UTF-8 form of a white-space character at the start; 0 if there is none. */
  function SpaceLen(s: Bytes): (n: nat)
    ensures n <= |s|
  {
    if s == [] then 0
    else if s[0] < 0x80 then if IsSpace(s[0]) then 1 else 0
    else if |s| >= 2 && 0xC2 <= s[0] <= 0xDF && Continuation(s[1]) && IsSpace(Joined(s[0] as int - 0xC0, s[1])) then 2
    else if |s| >= 3 && 0xE0 <= s[0] <= 0xEF && Continuation(s[1]) && Continuation(s[2]) then
      var n := Joined(Joined(s[0] as int - 0xE0, s[1]), s[2]);
      if n >= 0x800 && IsSpace(n) then 3 else 0
    else 0
  }

  /** A code point's upper bits followed by the six bits of a continuation byte. */
  function Joined(upper: int, b: byte): int { upper * 64 + (b as int - 0x80) }

  /** The line decodes to white space only. */
  predicate Blank(s: Bytes) {
    s == [] || (SpaceLen(s) > 0 && Blank(s[SpaceLen(s)..]))
  }

  /** The requests of a byte stream and the answer that ends the connection. */
  function Requests(s: Bytes, fault: bool): (seq<Bytes>, Reply)
    decreases |s|
  {
    var reply := Outcome(s, fault);
    if !reply.Line? then ([], reply)
    else
      var (rest, end) := Requests(s[FindNewline(s) + 1..], fault);
      ((if Blank(reply.bytes) then [] else [reply.bytes]) + rest, end)
  }

  method ReadRequests(r: Reader) returns (requests: seq<Bytes>, end: Reply)
    requires Proper(r.pending)
    modifies r
    ensures (requests, end) == Requests(old(Flat(r.pending)), old(Faulty(r.pending)))
  {
    requests := [];
    ghost var s, fault := Flat(r.pending), Faulty(r.pending);
    ghost var rest := s;
    assert [] + Requests(s, fault).0 == Requests(s, fault).0;
    while true
      invariant Proper(r.pending) && Faulty(r.pending) == fault && Flat(r.pending) == rest
      invariant SoFar(s, fault, requests, rest)
      decreases |rest|
    {
      var reply, _ := r.ReadCappedLine();
      if !reply.Line? {
        assert requests + [] == requests;
        return requests, reply;
      }
      OneMore(s, requests, rest, fault);
      rest := rest[FindNewline(rest) + 1..];
      if !Blank(reply.bytes) { requests := requests + [reply.bytes]; }
    }
  }

  /** The requests of `s` are those read before and those of the rest. */
  predicate SoFar(s: Bytes, fault: bool, before: seq<Bytes>, rest: Bytes) {
    Requests(s, fault) == (before + Requests(rest, fault).0, Requests(rest, fault).1)
  }

  lemma OneMore(s: Bytes, before: seq<Bytes>, rest: Bytes, fault: bool)
    requires SoFar(s, fault, before, rest) && Outcome(rest, fault).Line?
    ensures var line := Outcome(rest, fault).bytes;
            SoFar(s, fault, if Blank(line) then before else before + [line], rest[FindNewline(rest) + 1..])
  {
    var line := Outcome(rest, fault).bytes;
    var others := Requests(rest[FindNewline(rest) + 1..], fault).0;
    Associates(before, if Blank(line) then [] else [line], others);
    assert before + [] == before;
  }

  /** The wire form of a list of frames: each followed by a newline. */
  function Framed(frames: seq<Bytes>): Bytes {
    if frames == [] then [] else frames[0] + [NEWLINE] + Framed(frames[1..])
  }

  predicate GoodFrame(f: Bytes) {
    NoNewline(f, |f|) && !Blank(f) && |f| + 1 <= MAX_LINE_BYTES && f[|f| - 1] != CR
  }

  /** Reading is a left inverse of framing, for every way the bytes are cut into buffers. */
  lemma {:induction false} RequestsInvertFraming(frames: seq<Bytes>)
    requires forall i :: 0 <= i < |frames| ==> GoodFrame(frames[i])
    ensures Requests(Framed(frames), false) == (frames, Eof)
    decreases |frames|
  {
    if frames != [] {
      var f, rest := frames[0], frames[1..];
      var s := Framed(frames);
      assert s[..|f|] == f && s[|f|] == NEWLINE && s[|f| + 1..] == Framed(rest);
      assert NoNewline(s, |f|);
      FirstNewline(s, |f|);
      RequestsInvertFraming(rest);
      assert [f] + rest == frames;
    }
  }
}
