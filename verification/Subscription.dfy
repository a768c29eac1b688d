/** The client side of a subscription: reassembly of pushed frames from `recv` chunks.

    The socket is the list of what its `recv` calls will bring; the end of the list is the end
    of the stream, and stays so. UTF-8 and JSON decoding is a function given from outside. */
module Subscriptions {
  import opened Basics
  import Lines = LineReader

  type Id = string

  const MAX_BUFFER := 8 * 1024 * 1024
  const RECV_SIZE := 4096

  datatype Recv = Data(bytes: Bytes) | Idle

  /** A pushed event, the answer to a request, or any other frame. */
  datatype Frame =
    | Event(sub: Option<Id>, body: string)
    | Response(error: bool, granted: Option<Id>, ok: bool)
    | Other

  datatype Decoded = Blank | Bad | Json(frame: Frame)

  type Decoder = Bytes -> Decoded

  /** What `recv` has brought and not yet been used, and what it will bring. */
  datatype Stream = Stream(buf: Bytes, incoming: seq<Recv>)

  datatype Pulled = Line(bytes: Bytes) | TimedOut | Ended | Overflowed

  datatype Read = Got(frame: Frame) | Nothing | Malformed

  /** One `__next__`: an event, StopIteration, ConnectionError or a decoding error. */
  datatype Outcome = Yield(sub: Option<Id>, body: string) | Stop | Lost | Broken

  predicate Proper(incoming: seq<Recv>) {
    forall i :: 0 <= i < |incoming| && incoming[i].Data? ==> 0 < |incoming[i].bytes| <= RECV_SIZE
  }

  function Flat(incoming: seq<Recv>): Bytes {
    if incoming == [] then []
    else (if incoming[0].Data? then incoming[0].bytes else []) + Flat(incoming[1..])
  }

  function Timeouts(incoming: seq<Recv>): nat {
    if incoming == [] then 0 else (if incoming[0].Idle? then 1 else 0) + Timeouts(incoming[1..])
  }

  function Weight(incoming: seq<Recv>): nat {
    if incoming == [] then 0
    else (if incoming[0].Data? then |incoming[0].bytes| else 0) + 1 + Weight(incoming[1..])
  }

  function Size(s: Stream): nat { |s.buf| + Weight(s.incoming) }

  predicate HasLine(buf: Bytes) { Lines.FindNewline(buf) < |buf| }

  /** The next line; anything but the end of the stream makes the stream smaller. */
  function Pull(s: Stream): (r: (Pulled, Stream))
    ensures r.0.Ended? ==> r.1.incoming == [] && !HasLine(r.1.buf)
    ensures !r.0.Ended? ==> Size(r.1) < Size(s)
    decreases |s.incoming|
  {
    var k := Lines.FindNewline(s.buf);
    if k < |s.buf| then (Line(s.buf[..k]), Stream(s.buf[k + 1..], s.incoming))
    else if s.incoming == [] then (Ended, s)
    else if s.incoming[0].Idle? then (TimedOut, Stream(s.buf, s.incoming[1..]))
    else
      var grown := s.buf + s.incoming[0].bytes;
      if |grown| > MAX_BUFFER then (Overflowed, Stream([], s.incoming[1..]))
      else Pull(Stream(grown, s.incoming[1..]))
  }

  function Interpret(decode: Decoder, p: Pulled): Read {
    if !p.Line? then Nothing else
      match decode(p.bytes)
      case Blank => Nothing
      case Bad => Malformed
      case Json(f) => Got(f)
  }

  predicate Own(me: Option<Id>, f: Frame) { f.Event? && (me.None? || f.sub == me) }

  /** One `__next__` on an open socket. */
  function Advance(decode: Decoder, me: Option<Id>, s: Stream): (r: (Outcome, Stream))
    ensures !r.0.Lost? ==> Size(r.1) < Size(s)
    decreases Size(s)
  {
    var (p, rest) := Pull(s);
    if p.Ended? then (Lost, rest) else
      match Interpret(decode, p)
      case Nothing => (Stop, rest)
      case Malformed => (Broken, rest)
      case Got(f) => if Own(me, f) then (Yield(f.sub, f.body), rest) else Advance(decode, me, rest)
  }

  /** What `unsubscribe` reports once its request is sent: it looks at one line only. */
  predicate Acknowledged(decode: Decoder, s: Stream) {
    var r := Interpret(decode, Pull(s).0);
    r.Got? && r.frame.Response? && r.frame.ok
  }

  class Subscription {
    const decode: Decoder
    var buf: Bytes
    var sock: Option<seq<Recv>>
    var subId: Option<Id>
    var closedLocally: bool
    var eofSeen: bool

    /** A socket goes only by a local close, and after the end of the stream nothing is left. */
    ghost predicate Valid() reads this {
      && (closedLocally ==> sock.None?)
      && (sock.None? && eofSeen ==> closedLocally)
      && (sock.Some? && eofSeen ==> sock.value == [] && !HasLine(buf))
    }

    ghost function Unread(): Stream
      requires sock.Some?
      reads this
    {
      Stream(buf, sock.value)
    }

    constructor (decode: Decoder)
      ensures Valid() && this.decode == decode && sock == None && subId == None
      ensures buf == [] && !eofSeen && !closedLocally
    {
      this.decode := decode;
      buf, sock, subId, closedLocally, eofSeen := [], None, None, false, false;
    }

    method ReadJson() returns (r: Read)
      requires Valid() && sock.Some?
      modifies `buf, `sock, `eofSeen
      ensures Valid() && sock.Some?
      ensures var (p, rest) := Pull(old(Unread()));
              && r == Interpret(decode, p)
              && Unread() == rest
              && eofSeen == (old(eofSeen) || p.Ended?)
    {
      ghost var start := Unread();
      while !HasLine(buf)
        invariant sock.Some? && eofSeen == old(eofSeen) && Valid()
        invariant Pull(Unread()) == Pull(start)
        decreases if sock.Some? then |sock.value| else 0
      {
        if sock.value == [] {
          eofSeen := true;
          return Nothing;
        }
        var chunk := sock.value[0];
        sock := Some(sock.value[1..]);
        if chunk.Idle? { return Nothing; }
        buf := buf + chunk.bytes;
        if |buf| > MAX_BUFFER {
          buf := [];
          return Nothing;
        }
      }
      var k := Lines.FindNewline(buf);
      var line := buf[..k];
      buf := buf[k + 1..];
      match decode(line) {
        case Blank => return Nothing;
        case Bad => return Malformed;
        case Json(f) => return Got(f);
      }
    }

    /** The handshake: whether it succeeds, and with which subscription id. */
    method Open(incoming: seq<Recv>) returns (ok: bool)
      requires Valid() && sock.None? && !closedLocally && !eofSeen && buf == []
      modifies this
      ensures Valid() && sock.Some? && !closedLocally
      ensures var (p, rest) := Pull(Stream([], incoming));
              && Unread() == rest && eofSeen == p.Ended?
              && var r := Interpret(decode, p);
                 && ok == (r.Got? && r.frame.Response? && !r.frame.error && r.frame.granted.Some?)
                 && subId == if ok then r.frame.granted else old(subId)
    {
      sock := Some(incoming);
      var r := ReadJson();
      if !r.Got? || !r.frame.Response? || r.frame.error || r.frame.granted.None? { return false; }
      subId := r.frame.granted;
      return true;
    }

    /** ConnectionError is raised exactly when the stream has ended and nobody here closed it. */
    method Next() returns (o: Outcome)
      requires Valid()
      modifies `buf, `sock, `eofSeen
      ensures Valid() && sock.Some? == old(sock.Some?)
      ensures old(sock.None?) ==> o == Stop && buf == old(buf)
      ensures old(sock.Some?) ==> (o, Unread()) == Advance(decode, subId, old(Unread()))
      ensures o.Lost? <==> eofSeen && !closedLocally
    {
      if sock.None? {
        return if eofSeen && !closedLocally then Lost else Stop;
      }
      ghost var start := Unread();
      while true
        invariant Valid() && sock.Some?
        invariant Advance(decode, subId, Unread()) == Advance(decode, subId, start)
        decreases if sock.Some? then Size(Unread()) else 0
      {
        ghost var before := Unread();
        ghost var seen := eofSeen;
        AfterTheEnd(before, seen);
        var r := ReadJson();
        if r.Nothing? {
          return if eofSeen && !closedLocally then Lost else Stop;
        }
        if r.Malformed? { return Broken; }
        if r.frame.Event? && (subId.None? || r.frame.sub == subId) {
          return Yield(r.frame.sub, r.frame.body);
        }
      }
    }

    /** `sent` is whether the request could be written; `raised` is a decoding error passed on.
        Whatever the first line read says, the socket is gone afterwards. */
    method Unsubscribe(sent: bool) returns (ok: bool, raised: bool)
      requires Valid()
      modifies this
      ensures Valid() && subId == old(subId)
      ensures if old(sock.None?) || subId.None? then
                !ok && !raised && sock == old(sock) && closedLocally == old(closedLocally)
              else
                sock.None? && closedLocally && ok == (sent && Acknowledged(decode, old(Unread())))
      ensures raised == (old(sock.Some?) && subId.Some? && sent && Interpret(decode, Pull(old(Unread())).0).Malformed?)
    {
      ok, raised := false, false;
      if sock.None? || subId.None? { return; }
      if sent {
        var r := ReadJson();
        ok := r.Got? && r.frame.Response? && r.frame.ok;
        raised := r.Malformed?;
      }
      Close();
    }

    method Close()
      requires Valid()
      modifies `sock, `closedLocally
      ensures Valid() && sock.None?
      ensures closedLocally == (old(closedLocally) || old(sock.Some?))
    {
      if sock.Some? {
        closedLocally := true;
        sock := None;
      }
    }
  }

  lemma AfterTheEnd(s: Stream, seen: bool)
    requires seen ==> s.incoming == [] && !HasLine(s.buf)
    ensures seen ==> Pull(s).0.Ended?
  {
  }

  // ---------------------------------------------------------------- whole iterations

  /** Calling `__next__` until the connection is lost, past every timeout. */
  ghost function Drive(decode: Decoder, me: Option<Id>, s: Stream): (outs: seq<Outcome>)
    ensures outs != [] && outs[|outs| - 1] == Lost
    decreases Size(s)
  {
    var (o, rest) := Advance(decode, me, s);
    if o.Lost? then [o] else [o] + Drive(decode, me, rest)
  }

  function Events(outs: seq<Outcome>): seq<Outcome> {
    if outs == [] then [] else (if outs[0].Yield? then [outs[0]] else []) + Events(outs[1..])
  }

  function Stops(outs: seq<Outcome>): nat {
    if outs == [] then 0 else (if outs[0].Stop? then 1 else 0) + Stops(outs[1..])
  }

  /** The events addressed to `me` among a list of frames, in order. */
  function OwnEvents(decode: Decoder, me: Option<Id>, frames: seq<Bytes>): seq<Outcome> {
    if frames == [] then [] else
      (match decode(frames[0])
       case Json(f) => if Own(me, f) then [Yield(f.sub, f.body)] else []
       case _ => []) + OwnEvents(decode, me, frames[1..])
  }

  /** Well under the cap: the longest such frame and one more chunk still fit. */
  predicate Fits(n: nat) { n + RECV_SIZE <= MAX_BUFFER }

  predicate GoodFrame(decode: Decoder, f: Bytes) {
    Lines.NoNewline(f, |f|) && decode(f).Json? && Fits(|f|)
  }

  /** The unread bytes are these frames and an unfinished one. */
  ghost predicate Carries(decode: Decoder, s: Stream, frames: seq<Bytes>, tail: Bytes) {
    && Proper(s.incoming)
    && (forall i :: 0 <= i < |frames| ==> GoodFrame(decode, frames[i]))
    && Lines.NoNewline(tail, |tail|) && |tail| <= MAX_BUFFER
    && s.buf + Flat(s.incoming) == Lines.Framed(frames) + tail
  }

  /** Whether or not a line is skipped, driving on goes through it. */
  lemma DriveUnfolds(decode: Decoder, me: Option<Id>, s: Stream)
    ensures var (p, rest) := Pull(s);
            var r := Interpret(decode, p);
            && (p.Ended? ==> Drive(decode, me, s) == [Lost])
            && (p.TimedOut? ==> Drive(decode, me, s) == [Stop] + Drive(decode, me, rest))
            && (r.Got? && !Own(me, r.frame) ==> Drive(decode, me, s) == Drive(decode, me, rest))
            && (r.Got? && Own(me, r.frame) ==>
                  Drive(decode, me, s) == [Yield(r.frame.sub, r.frame.body)] + Drive(decode, me, rest))
  {
  }

  /** An unfinished buffer takes the next chunk in and nothing else changes. */
  lemma DriveAbsorbs(decode: Decoder, me: Option<Id>, s: Stream, t: Stream)
    requires Pull(s) == Pull(t)
    ensures Drive(decode, me, s) == Drive(decode, me, t)
  {
    AdvanceAbsorbs(decode, me, s, t);
  }

  lemma AdvanceAbsorbs(decode: Decoder, me: Option<Id>, s: Stream, t: Stream)
    requires Pull(s) == Pull(t)
    ensures Advance(decode, me, s) == Advance(decode, me, t)
  {
  }

  lemma FirstFrame(s: Stream, f: Bytes, rest: Bytes)
    requires HasLine(s.buf) && Lines.NoNewline(f, |f|)
    requires s.buf + Flat(s.incoming) == f + [Lines.NEWLINE] + rest
    ensures |s.buf| > |f| && Pull(s) == (Line(f), Stream(s.buf[|f| + 1..], s.incoming))
    ensures s.buf[|f| + 1..] + Flat(s.incoming) == rest
  {
    var whole := s.buf + Flat(s.incoming);
    var k := Lines.FindNewline(s.buf);
    assert whole[k] == Lines.NEWLINE && forall i :: 0 <= i < k ==> whole[i] == s.buf[i];
    assert whole[|f|] == Lines.NEWLINE && forall i :: 0 <= i < |f| ==> whole[i] == f[i];
    assert k == |f|;
    assert s.buf[..k] == whole[..k] == f;
    assert whole[k + 1..] == rest;
    assert whole[k + 1..] == s.buf[k + 1..] + Flat(s.incoming);
  }

  lemma NoLineYet(s: Stream, f: Bytes, rest: Bytes)
    requires !HasLine(s.buf) && s.buf + Flat(s.incoming) == f + [Lines.NEWLINE] + rest
    ensures |s.buf| <= |f|
  {
    var whole := s.buf + Flat(s.incoming);
    assert whole[|f|] == Lines.NEWLINE && forall i :: 0 <= i < |s.buf| ==> whole[i] == s.buf[i];
  }

  /** Without a line in the buffer, what is buffered is short. */
  lemma ShortBuffer(decode: Decoder, s: Stream, frames: seq<Bytes>, tail: Bytes)
    requires Carries(decode, s, frames, tail) && !HasLine(s.buf)
    ensures Fits(|s.buf|) || frames == []
    ensures frames == [] ==> |s.buf| + |Flat(s.incoming)| == |tail|
  {
    if frames != [] {
      var f := frames[0];
      assert Lines.Framed(frames) + tail == f + [Lines.NEWLINE] + (Lines.Framed(frames[1..]) + tail);
      NoLineYet(s, f, Lines.Framed(frames[1..]) + tail);
    }
  }

  function Received(s: Stream): Stream
    requires s.incoming != []
  {
    Stream(if s.incoming[0].Idle? then s.buf else s.buf + s.incoming[0].bytes, s.incoming[1..])
  }

  /** One `recv`: the frames still to come stay the same. */
  lemma OneRecv(decode: Decoder, s: Stream, frames: seq<Bytes>, tail: Bytes)
    requires Carries(decode, s, frames, tail) && !HasLine(s.buf) && s.incoming != []
    ensures var next := Received(s);
            && Carries(decode, next, frames, tail)
            && Size(next) < Size(s)
            && (if s.incoming[0].Idle? then Pull(s) == (TimedOut, next) else Pull(s) == Pull(next))
  {
    ShortBuffer(decode, s, frames, tail);
    var later := Flat(s.incoming[1..]);
    if s.incoming[0].Idle? {
      assert [] + later == later;
    } else {
      Associates(s.buf, s.incoming[0].bytes, later);
    }
  }

  /** Exactly this subscription's events in order, one StopIteration per timeout, and
      ConnectionError at the end. */
  ghost predicate Delivers(decode: Decoder, me: Option<Id>, s: Stream, frames: seq<Bytes>) {
    var outs := Drive(decode, me, s);
    && Events(outs) == OwnEvents(decode, me, frames)
    && Stops(outs) == Timeouts(s.incoming)
    && |outs| == |Events(outs)| + Stops(outs) + 1
  }

  /** Reassembly: for any chunking of the frames, and timeouts anywhere, driving the iterator
      delivers; a timeout ends one `for` loop but loses no byte. */
  lemma {:induction false} Reassembly(decode: Decoder, me: Option<Id>, s: Stream, frames: seq<Bytes>, tail: Bytes)
    requires Carries(decode, s, frames, tail)
    ensures Delivers(decode, me, s, frames)
    decreases Size(s)
  {
    if HasLine(s.buf) {
      LineComesFirst(decode, s, frames, tail);
      Reassembly(decode, me, Pull(s).1, frames[1..], tail);
      LineDelivers(decode, me, s, frames);
    } else if s.incoming == [] {
      NothingLeft(decode, s, frames, tail);
      DriveUnfolds(decode, me, s);
    } else {
      OneRecv(decode, s, frames, tail);
      Reassembly(decode, me, Received(s), frames, tail);
      RecvDelivers(decode, me, s, frames);
    }
  }

  /** One `recv` that brings no line: a timeout stops, a chunk is taken in. */
  lemma RecvDelivers(decode: Decoder, me: Option<Id>, s: Stream, frames: seq<Bytes>)
    requires s.incoming != [] && Delivers(decode, me, Received(s), frames)
    requires if s.incoming[0].Idle? then Pull(s) == (TimedOut, Received(s)) else Pull(s) == Pull(Received(s))
    ensures Delivers(decode, me, s, frames)
  {
    if s.incoming[0].Idle? {
      DriveUnfolds(decode, me, s);
      ConsStop(Drive(decode, me, Received(s)));
    } else {
      DriveAbsorbs(decode, me, s, Received(s));
    }
  }

  lemma LineDelivers(decode: Decoder, me: Option<Id>, s: Stream, frames: seq<Bytes>)
    requires frames != [] && Pull(s).0 == Line(frames[0]) && decode(frames[0]).Json?
    requires Pull(s).1.incoming == s.incoming && Delivers(decode, me, Pull(s).1, frames[1..])
    ensures Delivers(decode, me, s, frames)
  {
    DriveUnfolds(decode, me, s);
    OwnUnfolds(decode, me, frames);
    var f, rest := decode(frames[0]).frame, Pull(s).1;
    assert Interpret(decode, Pull(s).0) == Got(f);
    if Own(me, f) {
      assert Drive(decode, me, s) == [Yield(f.sub, f.body)] + Drive(decode, me, rest);
      ConsEvent(Yield(f.sub, f.body), Drive(decode, me, rest));
    } else {
      assert Drive(decode, me, s) == Drive(decode, me, rest);
    }
  }

  lemma LineComesFirst(decode: Decoder, s: Stream, frames: seq<Bytes>, tail: Bytes)
    requires Carries(decode, s, frames, tail) && HasLine(s.buf)
    ensures frames != [] && Pull(s).0 == Line(frames[0]) && Pull(s).1.incoming == s.incoming
    ensures Carries(decode, Pull(s).1, frames[1..], tail) && Size(Pull(s).1) < Size(s)
  {
    var whole := s.buf + Flat(s.incoming);
    assert whole[Lines.FindNewline(s.buf)] == Lines.NEWLINE && (frames == [] ==> whole == tail);
    var rest := Lines.Framed(frames[1..]) + tail;
    assert Lines.Framed(frames) + tail == frames[0] + [Lines.NEWLINE] + rest;
    FirstFrame(s, frames[0], rest);
  }

  lemma NothingLeft(decode: Decoder, s: Stream, frames: seq<Bytes>, tail: Bytes)
    requires Carries(decode, s, frames, tail) && !HasLine(s.buf) && s.incoming == []
    ensures frames == [] && Pull(s).0.Ended?
  {
    if frames != [] {
      assert Lines.Framed(frames) + tail == frames[0] + [Lines.NEWLINE] + (Lines.Framed(frames[1..]) + tail);
      NoLineYet(s, frames[0], Lines.Framed(frames[1..]) + tail);
    }
  }

  lemma ConsStop(outs: seq<Outcome>)
    ensures Events([Stop] + outs) == Events(outs) && Stops([Stop] + outs) == 1 + Stops(outs)
  {
    assert ([Stop] + outs)[1..] == outs;
    assert [] + Events(outs) == Events(outs);
  }

  lemma ConsEvent(o: Outcome, outs: seq<Outcome>)
    requires o.Yield?
    ensures Events([o] + outs) == [o] + Events(outs) && Stops([o] + outs) == Stops(outs)
  {
    assert ([o] + outs)[1..] == outs;
  }

  lemma OwnUnfolds(decode: Decoder, me: Option<Id>, frames: seq<Bytes>)
    requires frames != [] && decode(frames[0]).Json?
    ensures var f := decode(frames[0]).frame;
            var others := OwnEvents(decode, me, frames[1..]);
            OwnEvents(decode, me, frames) == if Own(me, f) then [Yield(f.sub, f.body)] + others else others
  {
    assert [] + OwnEvents(decode, me, frames[1..]) == OwnEvents(decode, me, frames[1..]);
  }

  // ---------------------------------------------------------------- what is yielded, spelled out

  /** Frame `i` is an event that nobody or `me` is named by, and `o` carries its subscription and body. */
  predicate YieldsFrame(decode: Decoder, me: Option<Id>, frames: seq<Bytes>, i: nat, o: Outcome) {
    && i < |frames| && o.Yield? && decode(frames[i]) == Json(Event(o.sub, o.body))
    && (me.Some? ==> o.sub == me)
  }

  predicate ForMe(decode: Decoder, me: Option<Id>, frame: Bytes) {
    decode(frame).Json? && decode(frame).frame.Event? && (me.Some? ==> decode(frame).frame.sub == me)
  }

  /** The outcomes are those of exactly the events for `me`, each at its place `at` among the frames. */
  ghost predicate YieldsOwn(decode: Decoder, me: Option<Id>, frames: seq<Bytes>, outs: seq<Outcome>, at: seq<nat>) {
    && |at| == |outs|
    && (forall j, k :: 0 <= j < k < |at| ==> at[j] < at[k])
    && (forall k :: 0 <= k < |at| ==> YieldsFrame(decode, me, frames, at[k], outs[k]))
    && (forall i :: 0 <= i < |frames| && ForMe(decode, me, frames[i]) ==> i in at)
  }

  function Shifted(at: seq<nat>): seq<nat> { seq(|at|, k requires 0 <= k < |at| => at[k] + 1) }

  /** Places among the frames after the first, seen from the first. */
  lemma LaterFrames(decode: Decoder, me: Option<Id>, frames: seq<Bytes>, outs: seq<Outcome>, at: seq<nat>)
    requires frames != [] && YieldsOwn(decode, me, frames[1..], outs, at)
    ensures forall k :: 0 <= k < |at| ==> YieldsFrame(decode, me, frames, Shifted(at)[k], outs[k])
    ensures forall i :: 0 < i < |frames| && ForMe(decode, me, frames[i]) ==> i in Shifted(at)
  {
    forall k | 0 <= k < |at| ensures YieldsFrame(decode, me, frames, Shifted(at)[k], outs[k]) {
      assert YieldsFrame(decode, me, frames[1..], at[k], outs[k]);
    }
    forall i | 0 < i < |frames| && ForMe(decode, me, frames[i]) ensures i in Shifted(at) {
      assert frames[1..][i - 1] == frames[i];
      var k :| 0 <= k < |at| && at[k] == i - 1;
      assert Shifted(at)[k] == i;
    }
  }

  lemma ZeroFirst(at: seq<nat>)
    requires forall j, k :: 0 <= j < k < |at| ==> at[j] < at[k]
    ensures var all := [0] + Shifted(at);
            && (forall j, k :: 0 <= j < k < |all| ==> all[j] < all[k])
            && 0 in all && forall i :: i in Shifted(at) ==> i in all
  {
    var all := [0] + Shifted(at);
    assert all[0] == 0;
    forall j, k | 0 <= j < k < |all| ensures all[j] < all[k] {
      assert all[k] == at[k - 1] + 1 && (j > 0 ==> all[j] == at[j - 1] + 1);
    }
  }

  lemma OneMoreYield(decode: Decoder, me: Option<Id>, frames: seq<Bytes>, outs: seq<Outcome>, at: seq<nat>, o: Outcome)
    requires frames != [] && YieldsOwn(decode, me, frames[1..], outs, at) && YieldsFrame(decode, me, frames, 0, o)
    ensures YieldsOwn(decode, me, frames, [o] + outs, [0] + Shifted(at))
  {
    LaterFrames(decode, me, frames, outs, at);
    ZeroFirst(at);
    var all := [0] + Shifted(at);
    forall k | 0 <= k < |all| ensures YieldsFrame(decode, me, frames, all[k], ([o] + outs)[k]) {
      if k > 0 { assert all[k] == Shifted(at)[k - 1] && ([o] + outs)[k] == outs[k - 1]; }
    }
    forall i | 0 <= i < |frames| && ForMe(decode, me, frames[i]) ensures i in all {
      if i > 0 { assert i in Shifted(at); }
    }
  }

  lemma NoMoreYield(decode: Decoder, me: Option<Id>, frames: seq<Bytes>, outs: seq<Outcome>, at: seq<nat>)
    requires frames != [] && YieldsOwn(decode, me, frames[1..], outs, at) && !ForMe(decode, me, frames[0])
    ensures YieldsOwn(decode, me, frames, outs, Shifted(at))
  {
    LaterFrames(decode, me, frames, outs, at);
  }

  lemma OwnEventsFirst(decode: Decoder, me: Option<Id>, frames: seq<Bytes>)
    requires frames != []
    ensures var later := OwnEvents(decode, me, frames[1..]);
            OwnEvents(decode, me, frames) ==
            if ForMe(decode, me, frames[0])
            then [Yield(decode(frames[0]).frame.sub, decode(frames[0]).frame.body)] + later
            else later
  {
    assert [] + OwnEvents(decode, me, frames[1..]) == OwnEvents(decode, me, frames[1..]);
  }

  lemma {:induction false} OwnEventsAreOwn(decode: Decoder, me: Option<Id>, frames: seq<Bytes>) returns (at: seq<nat>)
    ensures YieldsOwn(decode, me, frames, OwnEvents(decode, me, frames), at)
    decreases |frames|
  {
    if frames == [] { return []; }
    var later := OwnEventsAreOwn(decode, me, frames[1..]);
    OwnEventsFirst(decode, me, frames);
    at := AddYield(decode, me, frames, OwnEvents(decode, me, frames[1..]), later);
  }

  lemma AddYield(decode: Decoder, me: Option<Id>, frames: seq<Bytes>, outs: seq<Outcome>, later: seq<nat>)
    returns (at: seq<nat>)
    requires frames != [] && YieldsOwn(decode, me, frames[1..], outs, later)
    ensures YieldsOwn(decode, me, frames,
              if ForMe(decode, me, frames[0])
              then [Yield(decode(frames[0]).frame.sub, decode(frames[0]).frame.body)] + outs else outs,
              at)
  {
    at := Shifted(later);
    if ForMe(decode, me, frames[0]) {
      var f := decode(frames[0]).frame;
      OneMoreYield(decode, me, frames, outs, later, Yield(f.sub, f.body));
      at := [0] + at;
    } else {
      NoMoreYield(decode, me, frames, outs, later);
    }
  }

  /** What driving the iterator over a stream of frames yields: the subscription and the body of
      exactly the events that name this subscription, in the order of their frames; a response or an
      event of another subscription never. */
  lemma YieldsExactly(decode: Decoder, me: Option<Id>, s: Stream, frames: seq<Bytes>, tail: Bytes)
    returns (at: seq<nat>)
    requires Carries(decode, s, frames, tail)
    ensures YieldsOwn(decode, me, frames, Events(Drive(decode, me, s)), at)
  {
    Reassembly(decode, me, s, frames, tail);
    at := OwnEventsAreOwn(decode, me, frames);
  }

  /** A line over the cap costs everything that was buffered, and only that: what `recv` has not brought
      yet is still to come. */
  lemma {:induction false} OverflowDiscards(s: Stream) returns (n: nat)
    requires Pull(s).0.Overflowed?
    ensures Pull(s).1.buf == [] && 0 < n <= |s.incoming| && Pull(s).1.incoming == s.incoming[n..]
    ensures |s.buf + Flat(s.incoming[..n])| > MAX_BUFFER
    decreases |s.incoming|
  {
    var later, chunk := s.incoming[1..], s.incoming[0].bytes;
    n := 0;
    if |s.buf + chunk| <= MAX_BUFFER {
      n := OverflowDiscards(Stream(s.buf + chunk, later));
      Associates(s.buf, chunk, Flat(later[..n]));
    }
    assert s.incoming[..n + 1][1..] == later[..n] && s.incoming[n + 1..] == later[n..];
    assert Flat(s.incoming[..n + 1]) == chunk + Flat(later[..n]);
    n := n + 1;
  }

  /** What else can come first: an empty line, a timeout or a line over the cap stops the iteration, a
      line that cannot be decoded raises, and the connection is lost only at the end of the stream. */
  lemma {:induction false} OtherReads(decode: Decoder, me: Option<Id>, s: Stream)
    ensures var (p, rest) := Pull(s);
            var (o, after) := Advance(decode, me, s);
            && (o.Lost? ==> after.incoming == [] && !HasLine(after.buf))
            && (p.Ended? ==> o == Lost && after == rest)
            && (p.TimedOut? || p.Overflowed? ==> o == Stop && after == rest)
            && (p.Line? && decode(p.bytes).Blank? ==> o == Stop && after == rest)
            && (p.Line? && decode(p.bytes).Bad? ==> o == Broken && after == rest)
    decreases Size(s)
  {
    if !Pull(s).0.Ended? { OtherReads(decode, me, Pull(s).1); }
  }

  // ---------------------------------------------------------------- where the cap bites

  /** `recv` chunks of `s`, none longer than `RECV_SIZE`. */
  function Chunked(s: Bytes): (r: seq<Recv>)
    ensures Proper(r) && Flat(r) == s && Timeouts(r) == 0
  {
    if s == [] then []
    else if |s| <= RECV_SIZE then
      assert [Data(s)][1..] == [];
      [Data(s)]
    else
      var r := [Data(s[..RECV_SIZE])] + Chunked(s[RECV_SIZE..]);
      assert r[1..] == Chunked(s[RECV_SIZE..]);
      r
  }

  /** The most that one `recv` can bring beyond a line when `after` bytes follow its newline. */
  function Beyond(after: nat): nat {
    if after + 1 < RECV_SIZE then after + 1 else RECV_SIZE
  }

  /** However `f`, its newline and what follows are cut, the first line read is `f`. */
  ghost predicate AlwaysRead(f: Bytes, rest: Bytes) {
    forall incoming ::
      Proper(incoming) && Timeouts(incoming) == 0 && Flat(incoming) == f + [Lines.NEWLINE] + rest ==>
        Pull(Stream([], incoming)).0 == Line(f)
  }

  /** A line is safe from the cap exactly if it fits together with the most that the chunk which
      ends it can bring: the cap is applied to the buffer before the newline is looked for. */
  lemma SafeFromTheCapExactly(f: Bytes, rest: Bytes)
    requires Lines.NoNewline(f, |f|)
    ensures AlwaysRead(f, rest) <==> |f| + Beyond(|rest|) <= MAX_BUFFER
  {
    if |f| + Beyond(|rest|) <= MAX_BUFFER {
      forall incoming | Proper(incoming) && Timeouts(incoming) == 0 && Flat(incoming) == f + [Lines.NEWLINE] + rest
        ensures Pull(Stream([], incoming)).0 == Line(f)
      {
        ShortLineIsRead(Stream([], incoming), f, rest);
      }
    } else {
      var n := Beyond(|rest|);
      var last := [Lines.NEWLINE] + rest[..n - 1];
      var after := [Data(last)] + Chunked(rest[n - 1..]);
      BadChunking(f, rest, n);
      LongLineIsDropped([], f, after);
      assert [] + f == f;
      assert Pull(Stream([], Chunked(f) + after)).0 == Overflowed;
    }
  }

  lemma BadChunking(f: Bytes, rest: Bytes, n: nat)
    requires 1 <= n <= |rest| + 1 && n <= RECV_SIZE
    ensures var incoming := Chunked(f) + ([Data([Lines.NEWLINE] + rest[..n - 1])] + Chunked(rest[n - 1..]));
            Proper(incoming) && Timeouts(incoming) == 0 && Flat(incoming) == f + [Lines.NEWLINE] + rest
  {
    var last, others := [Lines.NEWLINE] + rest[..n - 1], Chunked(rest[n - 1..]);
    var tail := [Data(last)] + others;
    assert tail[1..] == others;
    Associates([Lines.NEWLINE], rest[..n - 1], rest[n - 1..]);
    assert rest[..n - 1] + rest[n - 1..] == rest;
    assert Flat(tail) == [Lines.NEWLINE] + rest;
    FlatOfSum(Chunked(f), tail);
    Associates(f, [Lines.NEWLINE], rest);
  }

  lemma {:induction false} FlatOfSum(a: seq<Recv>, b: seq<Recv>)
    ensures Flat(a + b) == Flat(a) + Flat(b) && Timeouts(a + b) == Timeouts(a) + Timeouts(b)
  {
    if a == [] {
      assert a + b == b;
    } else {
      assert (a + b)[1..] == a[1..] + b;
      FlatOfSum(a[1..], b);
    }
  }

  lemma {:induction false} ShortLineIsRead(s: Stream, f: Bytes, rest: Bytes)
    requires Proper(s.incoming) && Timeouts(s.incoming) == 0 && Lines.NoNewline(f, |f|)
    requires |f| + Beyond(|rest|) <= MAX_BUFFER
    requires s.buf + Flat(s.incoming) == f + [Lines.NEWLINE] + rest
    ensures Pull(s).0 == Line(f)
    decreases |s.incoming|
  {
    if HasLine(s.buf) {
      FirstFrame(s, f, rest);
    } else {
      NoLineYet(s, f, rest);
      var chunk := s.incoming[0].bytes;
      Associates(s.buf, chunk, Flat(s.incoming[1..]));
      ShortLineIsRead(Stream(s.buf + chunk, s.incoming[1..]), f, rest);
    }
  }

  /** A line that has come in whole, without its newline, is lost with the chunk that ends it. */
  lemma {:induction false} LongLineIsDropped(buf: Bytes, f: Bytes, after: seq<Recv>)
    requires Lines.NoNewline(buf, |buf|) && Lines.NoNewline(f, |f|)
    requires after != [] && after[0].Data? && |buf| + |f| + |after[0].bytes| > MAX_BUFFER
    ensures Pull(Stream(buf, Chunked(f) + after)).0.Overflowed?
    decreases |f|
  {
    var incoming := Chunked(f) + after;
    if f == [] {
      assert incoming == after;
    } else {
      var n := if |f| <= RECV_SIZE then |f| else RECV_SIZE;
      assert incoming[0] == Data(f[..n]);
      assert Chunked(f[n..]) == Chunked(f)[1..];
      assert incoming[1..] == Chunked(f[n..]) + after;
      assert Lines.NoNewline(buf + f[..n], |buf + f[..n]|);
      LongLineIsDropped(buf + f[..n], f[n..], after);
    }
  }

  // ---------------------------------------------------------------- unsubscribe

  /** The server acknowledges in frame `i`, after `i` pushed events. */
  ghost predicate AcknowledgedAt(decode: Decoder, frames: seq<Bytes>, i: nat) {
    && i < |frames|
    && (forall j :: 0 <= j < i ==> decode(frames[j]).Json? && decode(frames[j]).frame.Event?)
    && decode(frames[i]).Json? && decode(frames[i]).frame.Response? && decode(frames[i]).frame.ok
  }

  /** A `recv` times out before the first line is there. */
  ghost predicate TimeoutAhead(s: Stream) {
    exists j :: 0 <= j < |s.incoming| && TimesOutAt(s, j)
  }

  predicate TimesOutAt(s: Stream, j: nat)
    requires j < |s.incoming|
  {
    s.incoming[j].Idle? && !HasLine(s.buf + Flat(s.incoming[..j]))
  }

  lemma LineStays(buf: Bytes, more: Bytes)
    requires HasLine(buf)
    ensures HasLine(buf + more)
  {
    var k := Lines.FindNewline(buf);
    assert (buf + more)[k] == Lines.NEWLINE;
  }

  lemma NoTimeoutWithLine(s: Stream)
    requires HasLine(s.buf)
    ensures !TimeoutAhead(s)
  {
    forall j | 0 <= j < |s.incoming| ensures !TimesOutAt(s, j) { LineStays(s.buf, Flat(s.incoming[..j])); }
  }

  /** A chunk moves into the buffer, and the timeouts ahead stay the same. */
  lemma TimeoutLater(s: Stream)
    requires s.incoming != [] && s.incoming[0].Data?
    ensures TimeoutAhead(s) <==> TimeoutAhead(Received(s))
  {
    var t := Received(s);
    forall j | 0 < j < |s.incoming| ensures TimesOutAt(s, j) <==> TimesOutAt(t, j - 1) {
      assert s.incoming[..j][1..] == t.incoming[..j - 1];
      Associates(s.buf, s.incoming[0].bytes, Flat(t.incoming[..j - 1]));
    }
    if j :| 0 <= j < |s.incoming| && TimesOutAt(s, j) { assert TimesOutAt(t, j - 1); }
    if j :| 0 <= j < |t.incoming| && TimesOutAt(t, j) { assert TimesOutAt(s, j + 1); }
  }

  /** The first read of a stream of frames: its first line, unless a timeout comes first. */
  lemma {:induction false} FirstRead(decode: Decoder, s: Stream, frames: seq<Bytes>, tail: Bytes)
    requires Carries(decode, s, frames, tail) && frames != []
    ensures Pull(s).0 == if TimeoutAhead(s) then TimedOut else Line(frames[0])
    decreases |s.incoming|
  {
    if HasLine(s.buf) {
      LineComesFirst(decode, s, frames, tail);
      NoTimeoutWithLine(s);
    } else if s.incoming == [] {
      NothingLeft(decode, s, frames, tail);
    } else {
      OneRecv(decode, s, frames, tail);
      if s.incoming[0].Idle? {
        assert s.buf + [] == s.buf;
        assert TimesOutAt(s, 0);
      } else {
        TimeoutLater(s);
        FirstRead(decode, Received(s), frames, tail);
      }
    }
  }

  /** What `unsubscribe` reports: whether no timeout comes before the first frame, and that frame is a
      positive response. */
  lemma FirstFrameAnswers(decode: Decoder, s: Stream, frames: seq<Bytes>, tail: Bytes)
    requires Carries(decode, s, frames, tail) && frames != []
    ensures Acknowledged(decode, s) <==>
              && !TimeoutAhead(s)
              && decode(frames[0]).frame.Response? && decode(frames[0]).frame.ok
  {
    FirstRead(decode, s, frames, tail);
  }

  /** Although the server acknowledges, `unsubscribe` says so exactly when no event and no timeout
      comes before: it takes whatever is read first for the answer. */
  lemma AcknowledgedExactly(decode: Decoder, s: Stream, frames: seq<Bytes>, tail: Bytes, i: nat)
    requires Carries(decode, s, frames, tail) && AcknowledgedAt(decode, frames, i)
    ensures Acknowledged(decode, s) <==> i == 0 && !TimeoutAhead(s)
  {
    FirstRead(decode, s, frames, tail);
  }
}
