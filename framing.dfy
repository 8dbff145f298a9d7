/** Response framing of `WaveshareNbiotHat.at_command`: after the settle delay
    the inbound text is read piece by piece with `read_until(b'\r\n')`, each
    piece is stripped, and the pieces that are empty after stripping are
    dropped. What remains is the ordered list of response lines. */
module Framing {
  import opened Text

  /** A carriage return followed by a line feed starts at index `i`. */
  predicate CrLfAt(s: string, i: int) {
    0 <= i && i + 1 < |s| && s[i] == '\r' && s[i + 1] == '\n'
  }

  /** The length of the piece `read_until(b'\r\n')` takes from the front of
      `s`: up to and including the first CR LF, or all of `s` if there is none. */
  function PieceLength(s: string): (n: nat)
    requires s != []
    ensures 0 < n <= |s|
    decreases |s|
  {
    if CrLfAt(s, 0) then 2 else if |s| == 1 then 1 else 1 + PieceLength(s[1..])
  }

  /** The piece ends right after the first CR LF. */
  lemma {:induction false} PieceEndsAtFirstCrLf(s: string, i: nat)
    requires forall k :: 0 <= k < i ==> !CrLfAt(s, k)
    requires CrLfAt(s, i)
    ensures PieceLength(s) == i + 2
    decreases i
  {
    if i > 0 {
      assert !CrLfAt(s, 0);
      forall k | 0 <= k < i - 1 ensures !CrLfAt(s[1..], k) {
        assert !CrLfAt(s, k + 1);
      }
      PieceEndsAtFirstCrLf(s[1..], i - 1);
    }
  }

  /** Without a CR LF the piece is the whole remaining text. */
  lemma {:induction false} PieceWithoutCrLf(s: string)
    requires s != []
    requires forall k :: 0 <= k < |s| ==> !CrLfAt(s, k)
    ensures PieceLength(s) == |s|
    decreases |s|
  {
    if |s| > 1 {
      assert !CrLfAt(s, 0);
      forall k | 0 <= k < |s| - 1 ensures !CrLfAt(s[1..], k) {
        assert !CrLfAt(s, k + 1);
      }
      PieceWithoutCrLf(s[1..]);
    }
  }

  /** The lines `at_command` returns when `raw` is the inbound text: every
      piece stripped, the blank ones dropped, in arrival order. */
  function FrameLines(raw: string): seq<string>
    decreases |raw|
  {
    if raw == [] then []
    else
      var n := PieceLength(raw);
      var line := Strip(raw[..n]);
      (if line == [] then [] else [line]) + FrameLines(raw[n..])
  }

  /** Every line is non-empty and has no surrounding whitespace. */
  predicate CleanLines(lines: seq<string>) {
    forall i :: 0 <= i < |lines| ==> lines[i] != [] && IsStripped(lines[i])
  }

  lemma CleanLinesAppend(a: seq<string>, b: seq<string>)
    requires CleanLines(a) && CleanLines(b)
    ensures CleanLines(a + b)
  {
    forall i | 0 <= i < |a + b| ensures (a + b)[i] != [] && IsStripped((a + b)[i]) {
      if i >= |a| {
        assert (a + b)[i] == b[i - |a|];
      }
    }
  }

  /** Every response line is non-empty and has no surrounding whitespace. */
  lemma {:induction false} FrameLinesClean(raw: string)
    ensures CleanLines(FrameLines(raw))
    decreases |raw|
  {
    if raw != [] {
      var n := PieceLength(raw);
      FrameLinesClean(raw[n..]);
      var line := Strip(raw[..n]);
      StripSpec(raw[..n]);
      var head := if line == [] then [] else [line];
      var tail := FrameLines(raw[n..]);
      assert FrameLines(raw) == head + tail;
      CleanLinesAppend(head, tail);
    }
  }

  /** There are no more response lines than characters of inbound text. */
  lemma {:induction false} FrameLinesCount(raw: string)
    ensures |FrameLines(raw)| <= |raw|
    decreases |raw|
  {
    if raw != [] {
      var n := PieceLength(raw);
      FrameLinesCount(raw[n..]);
      var line := Strip(raw[..n]);
      var head := if line == [] then [] else [line];
      assert FrameLines(raw) == head + FrameLines(raw[n..]);
      assert |raw[n..]| == |raw| - n;
    }
  }

  /** Inbound text made only of whitespace, in particular no inbound text at
      all, gives no lines. */
  lemma {:induction false} BlankGivesNoLines(raw: string)
    requires AllSpace(raw)
    ensures FrameLines(raw) == []
    decreases |raw|
  {
    if raw != [] {
      var n := PieceLength(raw);
      assert AllSpace(raw[..n]);
      assert AllSpace(raw[n..]);
      StripSpec(raw[..n]);
      BlankGivesNoLines(raw[n..]);
    }
  }

  /** One piece of inbound text contributes its stripped form, unless blank. */
  lemma FrameStep(raw: string, pos: nat, stop: nat)
    requires pos < |raw| && stop == pos + PieceLength(raw[pos..])
    ensures FrameLines(raw[pos..]) ==
            (if Strip(raw[pos..stop]) == [] then [] else [Strip(raw[pos..stop])]) + FrameLines(raw[stop..])
  {
    var rest := raw[pos..];
    assert rest[..stop - pos] == raw[pos..stop];
    assert rest[stop - pos..] == raw[stop..];
  }

  /** `read_until(b'\r\n')` from index `pos`: the index just after the first
      CR LF at or after `pos`, or the end of the text if there is none. */
  method ReadUntilCrLf(raw: string, pos: nat) returns (stop: nat)
    requires pos < |raw|
    ensures stop == pos + PieceLength(raw[pos..])
  {
    var end := pos;
    while end < |raw| && !CrLfAt(raw, end)
      invariant pos <= end <= |raw|
      invariant forall k :: pos <= k < end ==> !CrLfAt(raw, k)
      decreases |raw| - end
    {
      end := end + 1;
    }
    ghost var rest := raw[pos..];
    forall k | 0 <= k < end - pos ensures !CrLfAt(rest, k) {
      assert !CrLfAt(raw, pos + k);
    }
    if end < |raw| {
      assert CrLfAt(rest, end - pos);
      PieceEndsAtFirstCrLf(rest, end - pos);
      stop := end + 2;
    } else {
      PieceWithoutCrLf(rest);
      stop := |raw|;
    }
  }

  /** The loop of `at_command`: read a piece up to and including CR LF, strip
      it, keep it when it is not blank, until no inbound text is left. */
  method ReadLines(raw: string) returns (lines: seq<string>)
    ensures lines == FrameLines(raw)
  {
    lines := [];
    var pos := 0;
    assert raw[pos..] == raw;
    while pos < |raw|
      invariant 0 <= pos <= |raw|
      invariant lines + FrameLines(raw[pos..]) == FrameLines(raw)
      decreases |raw| - pos
    {
      var stop := ReadUntilCrLf(raw, pos);
      var line := Strip(raw[pos..stop]);
      if line != [] {
        FrameStep(raw, pos, stop);
        assert lines + ([line] + FrameLines(raw[stop..])) == (lines + [line]) + FrameLines(raw[stop..]);
        lines := lines + [line];
      } else {
        FrameStep(raw, pos, stop);
        assert [] + FrameLines(raw[stop..]) == FrameLines(raw[stop..]);
      }
      pos := stop;
    }
    assert raw[pos..] == [];
    assert lines + [] == lines;
  }

  // ---------------------------------------------------------------------------
  // The partner: the modem's framing of its reply lines
  // ---------------------------------------------------------------------------

  /** A reply line as the modem can send it: not blank, no surrounding
      whitespace, and no CR LF inside. */
  predicate WellFormedLine(l: string) {
    l != [] && IsStripped(l) && forall k :: 0 <= k < |l| ==> !CrLfAt(l, k)
  }

  /** The modem's verbose response format (ITU-T V.250): each line of
      information text or result code is sent as CR LF, the text, CR LF. */
  function Transmit(lines: seq<string>): string
    decreases |lines|
  {
    if lines == [] then [] else "\r\n" + lines[0] + "\r\n" + Transmit(lines[1..])
  }

  /** The leading CR LF of a transmitted line is a blank piece. */
  lemma FrameLeadingCrLf(after: string)
    ensures FrameLines("\r\n" + after) == FrameLines(after)
  {
    var raw := "\r\n" + after;
    assert CrLfAt(raw, 0);
    assert raw[..2] == "\r\n";
    assert AllSpace(raw[..2]);
    StripSpec(raw[..2]);
    assert raw[2..] == after;
  }

  /** A well-formed line followed by its CR LF is one piece, kept whole. */
  lemma FrameLineWithTerminator(l: string, tail: string)
    requires WellFormedLine(l)
    ensures FrameLines(l + "\r\n" + tail) == [l] + FrameLines(tail)
  {
    var after := l + "\r\n" + tail;
    forall k | 0 <= k < |l| ensures !CrLfAt(after, k) {
      if k < |l| - 1 {
        assert !CrLfAt(l, k);
      } else {
        assert after[k] == l[|l| - 1];
      }
    }
    assert after[|l|] == '\r' && after[|l| + 1] == '\n';
    PieceEndsAtFirstCrLf(after, |l|);
    assert after[..|l| + 2] == [] + l + "\r\n";
    assert AllSpace("\r\n");
    StripPadded([], l, "\r\n");
    assert after[|l| + 2..] == tail;
  }

  /** Framing recovers exactly the lines the modem sent, in order. */
  lemma {:induction false} FrameTransmit(lines: seq<string>)
    requires forall i :: 0 <= i < |lines| ==> WellFormedLine(lines[i])
    ensures FrameLines(Transmit(lines)) == lines
    decreases |lines|
  {
    if lines != [] {
      var l := lines[0];
      var tail := Transmit(lines[1..]);
      assert Transmit(lines) == "\r\n" + (l + "\r\n" + tail);
      FrameLeadingCrLf(l + "\r\n" + tail);
      FrameLineWithTerminator(l, tail);
      FrameTransmit(lines[1..]);
      assert [l] + lines[1..] == lines;
    }
  }
}
