/** What lines, joins and markers are: splitting a text into lines inverts writing them out, and a
    marker is one of four words in any case. */
module TailFacts {
  import opened Basics
  import opened TailLines

  // ---------------------------------------------------------------- splitting and joining

  /** A line with its terminator. */
  datatype Ended = Ended(text: string, crlf: bool) {
    predicate Ok() {
      '\n' !in text && (!crlf && text != [] ==> text[|text| - 1] != '\r')
    }
    function Written(): string { text + (if crlf then "\r\n" else "\n") }
  }

  function Write(lines: seq<Ended>): string {
    if lines == [] then "" else lines[0].Written() + Write(lines[1..])
  }

  function TextsOf(lines: seq<Ended>): seq<string> {
    if lines == [] then [] else [lines[0].text] + TextsOf(lines[1..])
  }

  lemma NewlineAt(s: string, k: nat)
    requires k < |s| && s[k] == '\n' && forall i :: 0 <= i < k ==> s[i] != '\n'
    ensures FindNewline(s) == k
  {
  }

  lemma FirstLine(line: Ended, rest: string)
    requires line.Ok()
    ensures Lines(line.Written() + rest) == [line.text] + Lines(rest)
  {
    var s, k := line.Written() + rest, |line.Written()| - 1;
    assert s[k] == '\n' && s[k + 1..] == rest;
    forall i | 0 <= i < k ensures s[i] != '\n' { assert i < |line.text| ==> s[i] == line.text[i]; }
    NewlineAt(s, k);
    if line.crlf {
      assert s[k - 1] == '\r' && s[..k - 1] == line.text;
    } else {
      assert s[..k] == line.text && (k > 0 ==> s[k - 1] == line.text[k - 1]);
    }
  }

  /** Splitting inverts writing: every terminated line without its terminator, and a rest that is not
      empty as a line of its own. */
  lemma {:induction false} LinesInvertWriting(lines: seq<Ended>, rest: string)
    requires forall i :: 0 <= i < |lines| ==> lines[i].Ok()
    requires '\n' !in rest
    ensures Lines(Write(lines) + rest) == TextsOf(lines) + (if rest == [] then [] else [rest])
    decreases |lines|
  {
    if lines == [] {
      assert Write(lines) + rest == rest;
      assert rest != [] ==> FindNewline(rest) == |rest|;
    } else {
      Associates(lines[0].Written(), Write(lines[1..]), rest);
      FirstLine(lines[0], Write(lines[1..]) + rest);
      LinesInvertWriting(lines[1..], rest);
      Associates([lines[0].text], TextsOf(lines[1..]), if rest == [] then [] else [rest]);
    }
  }

  /** Joined lines split into themselves, if none holds a newline or ends in a carriage return and the
      last is not empty. */
  lemma {:induction false} LinesInvertJoin(lines: seq<string>)
    requires forall i :: 0 <= i < |lines| ==> Ended(lines[i], false).Ok()
    requires lines != [] ==> lines[|lines| - 1] != []
    ensures Lines(Join(lines)) == lines
    decreases |lines|
  {
    if |lines| == 1 {
      assert Ended(lines[0], false).Ok();
      LinesInvertWriting([], lines[0]);
      assert Write([]) + lines[0] == lines[0];
    } else if |lines| > 1 {
      assert Ended(lines[0], false).Ok();
      FirstLine(Ended(lines[0], false), Join(lines[1..]));
      LinesInvertJoin(lines[1..]);
      assert lines == [lines[0]] + lines[1..];
    }
  }

  // ---------------------------------------------------------------- the words

  /** The character is `w`, or the capital of the small letter `w`. */
  predicate SameLetter(c: char, w: char) { c == w || ('a' <= w <= 'z' && c == w - 'a' + 'A') }

  /** The word stands in the line from `i` on, in any case. */
  predicate StandsAt(line: string, i: nat, word: string) {
    i + |word| <= |line| && forall k :: 0 <= k < |word| ==> SameLetter(line[i + k], word[k])
  }

  predicate Small(word: string) { forall k :: 0 <= k < |word| ==> !('A' <= word[k] <= 'Z') }

  lemma LowerExactly(c: char, w: char)
    requires !('A' <= w <= 'Z')
    ensures Lower(c) == w <==> SameLetter(c, w)
  {
  }

  lemma PrefixExactly(line: string, i: nat, word: string)
    requires Small(word) && i <= |line|
    ensures word <= AsciiLower(line)[i..] <==> StandsAt(line, i, word)
  {
    var low := AsciiLower(line);
    forall k | 0 <= k < |word| && i + k < |line| ensures low[i..][k] == word[k] <==> SameLetter(line[i + k], word[k]) {
      LowerExactly(line[i + k], word[k]);
    }
    if word <= low[i..] {
      forall k | 0 <= k < |word| ensures SameLetter(line[i + k], word[k]) { assert low[i..][k] == word[k]; }
    }
    if StandsAt(line, i, word) {
      assert |word| <= |low[i..]|;
      forall k | 0 <= k < |word| ensures low[i..][k] == word[k] {}
    }
  }

  lemma ContainsExactly(line: string, word: string)
    requires Small(word)
    ensures Contains(AsciiLower(line), word) <==> exists i :: StandsAt(line, i, word)
  {
    var low := AsciiLower(line);
    if Contains(low, word) {
      var i :| 0 <= i <= |low| && word <= low[i..];
      PrefixExactly(line, i, word);
    }
    if i: nat :| StandsAt(line, i, word) { PrefixExactly(line, i, word); }
  }

  /** A marker line has one of four words anywhere, in any case. */
  lemma MarkerExactly(line: string)
    ensures IsMarker(line) <==>
              exists i: nat, word :: word in {"error:", "exception:", "warning:", "panic:"} && StandsAt(line, i, word)
  {
    ContainsExactly(line, "error:");
    ContainsExactly(line, "exception:");
    ContainsExactly(line, "warning:");
    ContainsExactly(line, "panic:");
  }

  /** A header line starts with one of three words, in any case. */
  lemma HeaderExactly(line: string)
    ensures IsHeader(line) <==>
              exists word :: word in {"traceback (most recent call last", "panic:", "goroutine "} &&
                             StandsAt(line, 0, word)
  {
    assert AsciiLower(line)[0..] == AsciiLower(line);
    PrefixExactly(line, 0, "traceback (most recent call last");
    PrefixExactly(line, 0, "panic:");
    PrefixExactly(line, 0, "goroutine ");
  }

  // ---------------------------------------------------------------- the tail, line by line

  /** Line `i` is kept: it is among the last `n`, or it is a header or a marker, or a marker comes right
      before it. */
  lemma KeptExactly(lines: seq<string>, n: nat, i: nat)
    requires i < |lines|
    ensures Keep(lines, n, i) <==>
              || |lines| - i <= n
              || IsHeader(lines[i]) || IsMarker(lines[i])
              || (i >= 1 && IsMarker(lines[i - 1]))
  {
  }
}
