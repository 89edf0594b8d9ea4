/** The thread-per-client reader (BlockingConnectionHandler.java): the sequential reference for
    what a connection's frames are. */
module BlockingHandler {
  import opened NulFraming
  import opened Frames

  /** How run ends: the input ends, the loop condition becomes false, or an exception leaves it, from
      building a frame, from process, or from the decoder's array. */
  datatype End = EndOfInput | Stopped | FrameThrew | ProcessThrew | Overflow

  /** After which numbers of frames the loop condition has become false (process set terminate, or its
      response was an ERROR frame and close cleared connected), and on which frames, counted from 0,
      process throws. */
  datatype Protocol = Protocol(stops: iset<nat>, fails: iset<nat>)

  /** The handler after i bytes: it has handed all complete segments, none of which ended it. */
  ghost predicate Reading(input: string, p: Protocol, i: nat, handed: seq<string>) {
    && i <= |input| && handed == Segments(input[..i]).frames
    && forall k :: 0 <= k < |handed| ==> k !in p.stops && k !in p.fails && JavaParse(handed[k]).Parsed?
  }

  /** What run has handed to process when it ends: the segments of the input in order, up to the one
      that ended it. */
  ghost predicate Handed(input: string, p: Protocol, handed: seq<string>, end: End) {
    var frames := Segments(input).frames;
    && handed <= frames
    && (forall k :: 0 <= k < |handed| ==> k !in p.stops && JavaParse(handed[k]).Parsed?)
    && (forall k :: 0 <= k < |handed| && k in p.fails ==> end == ProcessThrew && k == |handed| - 1)
    && match end
       case EndOfInput => handed == frames
       case Stopped => |handed| in p.stops
       case FrameThrew => |handed| < |frames| && JavaParse(frames[|handed|]) == Threw
       case ProcessThrew => handed != [] && |handed| - 1 in p.fails
       case Overflow => exists r :: 0 <= r <= |input| && |Segments(input[..r]).rest| == HALF_RANGE
  }

  /** run: reads byte by byte, decodes, and hands every frame to process. */
  method Run(input: string, p: Protocol) returns (handed: seq<string>, end: End)
    ensures Handed(input, p, handed, end)
  {
    var encdec := new MessageDecoder();
    handed := [];
    var i := 0;
    while |handed| !in p.stops && i < |input|
      invariant 0 <= i <= |input| && encdec.Valid() && fresh(encdec) && fresh(encdec.bytes)
      invariant encdec.history == input[..i] && Reading(input, p, i, handed)
    {
      OneByte(input, i);
      var text, exception := DecodeFrame(encdec, input[i]);
      if exception.Some? {
        Throws(input, p, i, handed, exception.value);
        return handed, exception.value;
      }
      if text.Some? {
        OneFrame(input, p, i, handed);
        handed := handed + [text.value];
        if |handed| - 1 in p.fails { return handed, ProcessThrew; }
      } else {
        NoFrame(input, p, i, handed);
      }
      i := i + 1;
    }
    end := if |handed| in p.stops then Stopped else EndOfInput;
    Ends(input, p, i, handed, end);
  }

  /** decodeNextByte with the frame it builds: the text of a frame that could be built, if the byte
      completes one, or the exception. */
  method DecodeFrame(encdec: MessageDecoder, nextByte: char) returns (text: Option<string>, exception: Option<End>)
    requires encdec.Valid()
    modifies encdec, encdec.bytes
    ensures encdec.Valid() && (encdec.bytes == old(encdec.bytes) || fresh(encdec.bytes))
    ensures exception == Some(Overflow) <==> nextByte != NUL && |Segments(old(encdec.history)).rest| == HALF_RANGE
    ensures exception == Some(FrameThrew) <==> nextByte == NUL && JavaParse(Segments(old(encdec.history)).rest) == Threw
    ensures exception in {None, Some(Overflow), Some(FrameThrew)}
    ensures exception.None? ==>
              && encdec.history == old(encdec.history) + [nextByte]
              && text == (if nextByte == NUL then Some(Segments(old(encdec.history)).rest) else None)
              && (text.Some? ==> JavaParse(text.value).Parsed?)
  {
    ghost var before := Segments(encdec.history);
    SegmentsAppend(encdec.history, nextByte);
    var overflow;
    text, overflow := encdec.DecodeNextByte(nextByte);
    exception := if overflow then Some(Overflow) else None;
    if text.Some? {
      SameLast(before.frames, text.value, before.rest);
      var threw := NewFrame(text.value);
      if threw { return None, Some(FrameThrew); }
    }
  }

  lemma SameLast(frames: seq<string>, a: string, b: string)
    ensures frames + [a] == frames + [b] ==> a == b
  {
    if frames + [a] == frames + [b] { assert (frames + [a])[|frames|] == (frames + [b])[|frames|]; }
  }

  method NewFrame(text: string) returns (threw: bool)
    ensures threw <==> JavaParse(text) == Threw
  {
    var frame := new JavaFrame(text);
    threw := frame.MapMsgToFrame();
  }

  lemma OneByte(input: string, i: nat)
    requires i < |input|
    ensures input[..i + 1] == input[..i] + [input[i]]
    ensures Segments(input[..i + 1]) == Feed(Segments(input[..i]), input[i])
  {
    assert input[..i + 1] == input[..i] + [input[i]];
    SegmentsAppend(input[..i], input[i]);
  }

  lemma PrefixFrames(input: string, i: nat)
    requires i <= |input|
    ensures Segments(input[..i]).frames <= Segments(input).frames && (i == |input| ==> input[..i] == input)
  {
    SegmentsGrow(input[..i], input[i..]);
    assert input == input[..i] + input[i..];
  }

  lemma NoFrame(input: string, p: Protocol, i: nat, handed: seq<string>)
    requires Reading(input, p, i, handed) && i < |input| && input[i] != NUL
    ensures Reading(input, p, i + 1, handed)
  {
    OneByte(input, i);
  }

  /** A frame more: reading goes on, unless process throws on it. */
  lemma OneFrame(input: string, p: Protocol, i: nat, handed: seq<string>)
    requires Reading(input, p, i, handed) && i < |input| && input[i] == NUL && |handed| !in p.stops
    requires JavaParse(Segments(input[..i]).rest).Parsed?
    ensures var more := handed + [Segments(input[..i]).rest];
            if |handed| in p.fails then Handed(input, p, more, ProcessThrew) else Reading(input, p, i + 1, more)
  {
    var more := handed + [Segments(input[..i]).rest];
    FrameGrows(input, p, i, handed);
    PrefixFrames(input, i + 1);
    forall k | 0 <= k < |more|
      ensures k !in p.stops && JavaParse(more[k]).Parsed? && (k in p.fails ==> k == |handed|)
    {
      if k < |handed| { assert more[k] == handed[k]; }
    }
  }

  lemma FrameGrows(input: string, p: Protocol, i: nat, handed: seq<string>)
    requires Reading(input, p, i, handed) && i < |input| && input[i] == NUL
    ensures Segments(input[..i + 1]).frames == handed + [Segments(input[..i]).rest]
  {
    OneByte(input, i);
  }

  lemma Throws(input: string, p: Protocol, i: nat, handed: seq<string>, end: End)
    requires Reading(input, p, i, handed) && i < |input|
    requires (end == Overflow && |Segments(input[..i]).rest| == HALF_RANGE)
             || (end == FrameThrew && input[i] == NUL && JavaParse(Segments(input[..i]).rest) == Threw)
    ensures Handed(input, p, handed, end)
  {
    OneByte(input, i);
    PrefixFrames(input, i);
    PrefixFrames(input, i + 1);
  }

  lemma Ends(input: string, p: Protocol, i: nat, handed: seq<string>, end: End)
    requires Reading(input, p, i, handed)
    requires (end == Stopped && |handed| in p.stops) || (end == EndOfInput && i == |input|)
    ensures Handed(input, p, handed, end)
  {
    PrefixFrames(input, i);
  }
}
