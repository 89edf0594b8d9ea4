/** NUL-terminated framing on both sides of the wire: the growable decoder of
    MessageEncoderDecoderImpl.java and the client's getFrameAscii.
    A char stands for one byte. */
module NulFraming {

  datatype Option<+T> = None | Some(value: T)

  const NUL: char := '\0'

  /** The complete segments of a byte history and the partial one after the last NUL. */
  datatype Split = Split(frames: seq<string>, rest: string)

  function Segments(bytes: string): Split {
    if bytes == "" then Split([], "")
    else Feed(Segments(bytes[..|bytes| - 1]), bytes[|bytes| - 1])
  }

  /** One byte more. */
  function Feed(sp: Split, b: char): Split {
    if b == NUL then Split(sp.frames + [sp.rest], "") else Split(sp.frames, sp.rest + [b])
  }

  /** encode: the text followed by NUL. */
  function Encode(text: string): string {
    text + [NUL]
  }

  /** The encodings of texts, one after the other. */
  function Wire(texts: seq<string>): string {
    if texts == [] then "" else Wire(texts[..|texts| - 1]) + Encode(texts[|texts| - 1])
  }

  lemma Regroup(a: string, b: string, c: string)
    ensures (a + b) + c == a + (b + c)
  {
  }

  /** Texts, one right after the other. */
  function Joined(texts: seq<string>): string {
    if texts == [] then "" else Joined(texts[..|texts| - 1]) + texts[|texts| - 1]
  }

  lemma JoinedAppend(texts: seq<string>, text: string)
    ensures Joined(texts + [text]) == Joined(texts) + text
  {
    assert (texts + [text])[..|texts|] == texts;
  }

  lemma SegmentsAppend(bytes: string, b: char)
    ensures Segments(bytes + [b]) == Feed(Segments(bytes), b)
  {
    assert (bytes + [b])[..|bytes|] == bytes;
  }

  lemma WireAppend(texts: seq<string>, text: string)
    ensures Wire(texts + [text]) == Wire(texts) + Encode(text)
  {
    assert (texts + [text])[..|texts|] == texts;
  }

  /** A chunk more, byte by byte. */
  function FeedAll(sp: Split, chunk: string): Split {
    if chunk == "" then sp else Feed(FeedAll(sp, chunk[..|chunk| - 1]), chunk[|chunk| - 1])
  }

  /** Chunk independence: how the bytes are cut into chunks does not matter. */
  lemma {:induction false} SegmentsConcat(bytes: string, chunk: string)
    ensures Segments(bytes + chunk) == FeedAll(Segments(bytes), chunk)
    decreases |chunk|
  {
    if chunk == "" {
      assert bytes + chunk == bytes;
    } else {
      var front, b := chunk[..|chunk| - 1], chunk[|chunk| - 1];
      SegmentsConcat(bytes, front);
      assert bytes + chunk == (bytes + front) + [b];
      SegmentsAppend(bytes + front, b);
    }
  }

  lemma {:induction false} FeedAllText(sp: Split, text: string)
    requires NUL !in text
    ensures FeedAll(sp, text) == Split(sp.frames, sp.rest + text)
    decreases |text|
  {
    if text != "" {
      var front, b := text[..|text| - 1], text[|text| - 1];
      FeedAllText(sp, front);
      assert text == front + [b];
      assert sp.rest + text == (sp.rest + front) + [b];
    } else {
      assert sp.rest + text == sp.rest;
    }
  }

  /** NUL-free text only extends the partial segment. */
  lemma FeedText(bytes: string, text: string)
    requires NUL !in text
    ensures Segments(bytes + text) == Split(Segments(bytes).frames, Segments(bytes).rest + text)
  {
    SegmentsConcat(bytes, text);
    FeedAllText(Segments(bytes), text);
  }

  lemma EndSegment(bytes: string, frames: seq<string>, last: string)
    requires Segments(bytes + last) == Split(frames, last)
    ensures Segments(bytes + Encode(last)) == Split(frames + [last], "")
  {
    SegmentsAppend(bytes + last, NUL);
    assert bytes + Encode(last) == (bytes + last) + [NUL];
  }

  /** Splitting inverts any concatenation of encodings of NUL-free texts, and leaves the rest. */
  lemma {:induction false} SegmentsInvertWire(texts: seq<string>, rest: string)
    requires forall t :: t in texts ==> NUL !in t
    requires NUL !in rest
    ensures Segments(Wire(texts) + rest) == Split(texts, rest)
    decreases |texts|
  {
    if texts == [] {
      FeedText("", rest);
    } else {
      var front, last := texts[..|texts| - 1], texts[|texts| - 1];
      SegmentsInvertWire(front, last);
      EndSegment(Wire(front), front, last);
      assert front + [last] == texts;
      FeedText(Wire(texts), rest);
      assert "" + rest == rest;
    }
  }

  lemma FeedWire(sp: Split, b: char)
    ensures Wire(Feed(sp, b).frames) + Feed(sp, b).rest == (Wire(sp.frames) + sp.rest) + [b]
  {
    if b == NUL {
      WireAppend(sp.frames, sp.rest);
      assert Wire(sp.frames) + Encode(sp.rest) == (Wire(sp.frames) + sp.rest) + [b];
    } else {
      assert Wire(sp.frames) + (sp.rest + [b]) == (Wire(sp.frames) + sp.rest) + [b];
    }
  }

  lemma FrontAndLast(bytes: string)
    requires bytes != ""
    ensures bytes == bytes[..|bytes| - 1] + [bytes[|bytes| - 1]]
  {
  }

  lemma {:induction false} WireOfSegments(bytes: string)
    ensures Wire(Segments(bytes).frames) + Segments(bytes).rest == bytes
    decreases |bytes|
  {
    if bytes != "" {
      var front, b := bytes[..|bytes| - 1], bytes[|bytes| - 1];
      WireOfSegments(front);
      FeedWire(Segments(front), b);
      FrontAndLast(bytes);
    }
  }

  lemma {:induction false} SegmentsNulFree(bytes: string)
    ensures NUL !in Segments(bytes).rest
    ensures forall f :: f in Segments(bytes).frames ==> NUL !in f
    decreases |bytes|
  {
    if bytes != "" { SegmentsNulFree(bytes[..|bytes| - 1]); }
  }

  /** Splitting loses nothing: the segments, re-encoded, and the rest are the bytes. */
  lemma WireInvertsSegments(bytes: string)
    ensures Wire(Segments(bytes).frames) + Segments(bytes).rest == bytes
    ensures NUL !in Segments(bytes).rest
    ensures forall f :: f in Segments(bytes).frames ==> NUL !in f
  {
    WireOfSegments(bytes);
    SegmentsNulFree(bytes);
  }

  /** Reading more bytes never takes a segment back. */
  lemma {:induction false} SegmentsGrow(bytes: string, more: string)
    ensures Segments(bytes).frames <= Segments(bytes + more).frames
    decreases |more|
  {
    if more == "" {
      assert bytes + more == bytes;
    } else {
      var front := more[..|more| - 1];
      SegmentsGrow(bytes, front);
      SegmentsAppend(bytes + front, more[|more| - 1]);
      assert bytes + more == (bytes + front) + [more[|more| - 1]];
    }
  }

  /** Any prefix of a wire carries a prefix of its texts, and the whole wire all of them. */
  lemma PrefixOfWire(bytes: string, texts: seq<string>)
    requires forall t :: t in texts ==> NUL !in t
    requires bytes <= Wire(texts)
    ensures Segments(bytes).frames <= texts
    ensures bytes == Wire(texts) ==> Segments(bytes).frames == texts
  {
    SegmentsInvertWire(texts, "");
    assert Wire(texts) + "" == Wire(texts);
    SegmentsGrow(bytes, Wire(texts)[|bytes|..]);
    assert Wire(texts) == bytes + Wire(texts)[|bytes|..];
  }

  /** The greatest length of a segment, complete or partial, of a byte history. */
  function Longest(bytes: string): nat {
    if bytes == "" then 0
    else
      var before := Longest(bytes[..|bytes| - 1]);
      if |Segments(bytes).rest| > before then |Segments(bytes).rest| else before
  }

  lemma LongestAppend(bytes: string, b: char)
    ensures Longest(bytes + [b]) ==
              var r := |Segments(bytes + [b]).rest|; if r > Longest(bytes) then r else Longest(bytes)
  {
    assert (bytes + [b])[..|bytes|] == bytes;
  }

  lemma LongestGrows(bytes: string, b: char)
    requires b != NUL
    ensures Segments(bytes + [b]) == Split(Segments(bytes).frames, Segments(bytes).rest + [b])
    ensures Longest(bytes) <= Longest(bytes + [b]) && |Segments(bytes).rest| + 1 <= Longest(bytes + [b])
  {
    SegmentsAppend(bytes, b);
    LongestAppend(bytes, b);
  }

  /** Longest is an upper bound that is attained. */
  lemma {:induction false} LongestIsMaximum(bytes: string)
    ensures |Segments(bytes).rest| <= Longest(bytes)
    ensures forall f :: f in Segments(bytes).frames ==> |f| <= Longest(bytes)
    ensures Longest(bytes) == |Segments(bytes).rest| || exists f :: f in Segments(bytes).frames && |f| == Longest(bytes)
    decreases |bytes|
  {
    if bytes != "" {
      var front, b := bytes[..|bytes| - 1], bytes[|bytes| - 1];
      LongestIsMaximum(front);
      var sp := Segments(front);
      if b == NUL && Longest(front) == |sp.rest| {
        assert sp.rest in Segments(bytes).frames;
      } else if b == NUL {
        var f :| f in sp.frames && |f| == Longest(front);
        assert f in Segments(bytes).frames;
      }
    }
  }

  const INITIAL: nat := 1024
  const HALF_RANGE: nat := 0x4000_0000

  predicate IsPowerOfTwo(n: nat) {
    n == 1 || (n > 1 && n % 2 == 0 && IsPowerOfTwo(n / 2))
  }

  lemma {:induction false} NextPower(n: nat, m: nat)
    requires IsPowerOfTwo(n) && IsPowerOfTwo(m) && n < m
    ensures 2 * n <= m && IsPowerOfTwo(2 * n)
  {
    if n > 1 { NextPower(n / 2, m / 2); }
  }

  /** A capacity the array can have: 1024 times a power of two, and a legal int length. */
  predicate IsCapacity(c: nat) {
    0 < c <= HALF_RANGE && c % INITIAL == 0 && IsPowerOfTwo(c / INITIAL)
  }

  lemma DoubledCapacity(c: nat)
    requires IsCapacity(c) && c < HALF_RANGE
    ensures IsCapacity(2 * c)
  {
    assert HALF_RANGE / INITIAL == 0x10_0000;
    PowerOfTwo20();
    NextPower(c / INITIAL, 0x10_0000);
    assert 2 * c / INITIAL == 2 * (c / INITIAL);
  }

  lemma PowerOfTwo20()
    ensures IsPowerOfTwo(0x10_0000)
  {
    assert IsPowerOfTwo(1);
    assert IsPowerOfTwo(0x10);
    assert IsPowerOfTwo(0x100);
    assert IsPowerOfTwo(0x1000);
    assert IsPowerOfTwo(0x1_0000);
  }

  /** MessageEncoderDecoderImpl: the bytes of the current segment are bytes[..len]. */
  class MessageDecoder {
    var bytes: array<char>
    var len: nat
    ghost var history: string
    ghost var copied: nat

    ghost predicate Valid()
      reads this, bytes
    {
      && len <= bytes.Length
      && bytes[..len] == Segments(history).rest
      && IsCapacity(bytes.Length)
      && copied == bytes.Length - INITIAL
      && (bytes.Length > INITIAL ==> bytes.Length < 2 * Longest(history))
    }

    constructor ()
      ensures Valid() && fresh(bytes) && history == "" && copied == 0
    {
      bytes := new char[INITIAL];
      len, history, copied := 0, "", 0;
    }

    /** One byte: a frame text at NUL, otherwise nothing. The append fails, and changes nothing,
        exactly when doubling the array would overflow the int length. Over the decoder's whole
        life, all messages together, doubling copies fewer bytes than twice the longest segment. */
    method DecodeNextByte(nextByte: char) returns (frame: Option<string>, threw: bool)
      requires Valid()
      modifies this, bytes
      ensures Valid() && (bytes == old(bytes) || fresh(bytes))
      ensures threw <==> nextByte != NUL && |Segments(old(history)).rest| == HALF_RANGE
      ensures threw ==> history == old(history) && copied == old(copied) && frame == None
      ensures !threw ==> history == old(history) + [nextByte]
      ensures !threw ==> Segments(history).frames
                           == Segments(old(history)).frames + (if frame.Some? then [frame.value] else [])
      ensures !threw ==> (frame.Some? <==> nextByte == NUL)
      ensures bytes.Length == INITIAL + copied && IsCapacity(bytes.Length)
      ensures copied == 0 || copied + INITIAL < 2 * Longest(history)
    {
      SegmentsAppend(history, nextByte);
      LongestAppend(history, nextByte);
      if nextByte == NUL {
        var text := PopString();
        history := history + [nextByte];
        return Some(text), false;
      }
      if len == bytes.Length < HALF_RANGE { DoubledCapacity(bytes.Length); }
      threw := PushByte(nextByte);
      frame := None;
      if !threw {
        LongestGrows(history, nextByte);
        history := history + [nextByte];
      }
    }

    method PopString() returns (text: string)
      requires len <= bytes.Length
      modifies this`len
      ensures text == old(bytes[..len]) && len == 0
    {
      text := bytes[..len];
      len := 0;
    }

    method PushByte(nextByte: char) returns (threw: bool)
      requires len <= bytes.Length && 0 < bytes.Length <= HALF_RANGE
      modifies this`bytes, this`len, this`copied, bytes
      ensures len <= bytes.Length && (bytes == old(bytes) || fresh(bytes))
      ensures threw <==> old(len) == HALF_RANGE
      ensures threw ==> len == old(len) && bytes[..len] == old(bytes[..len]) && bytes.Length == old(bytes.Length)
                        && copied == old(copied)
      ensures !threw ==> bytes[..len] == old(bytes[..len]) + [nextByte]
      ensures !threw && old(len) < old(bytes.Length) ==> bytes.Length == old(bytes.Length) && copied == old(copied)
      ensures !threw && old(len) == old(bytes.Length) ==>
                bytes.Length == 2 * old(bytes.Length) && copied == old(copied) + old(bytes.Length)
    {
      if len >= bytes.Length {
        if len >= HALF_RANGE { return true; }
        var grown := new char[len * 2];
        forall i | 0 <= i < len { grown[i] := bytes[i]; }
        copied := copied + len;
        bytes := grown;
      }
      bytes[len] := nextByte;
      len := len + 1;
      threw := false;
    }
  }

  /** Feeding a decoder a chunk of bytes, one at a time, as a runnable of continueRead does. */
  method DecodeChunk(d: MessageDecoder, chunk: string) returns (frames: seq<string>, threw: bool)
    requires d.Valid()
    modifies d, d.bytes
    ensures d.Valid()
    ensures !threw ==> d.history == old(d.history) + chunk
    ensures !threw ==> Segments(d.history).frames == Segments(old(d.history)).frames + frames
    ensures d.copied == 0 || d.copied + INITIAL < 2 * Longest(d.history)
    ensures threw ==> exists k :: 0 <= k < |chunk| && |Segments(old(d.history) + chunk[..k]).rest| == HALF_RANGE
  {
    frames, threw := [], false;
    for i := 0 to |chunk|
      invariant d.Valid() && (d.bytes == old(d.bytes) || fresh(d.bytes))
      invariant d.history == old(d.history) + chunk[..i]
      invariant Segments(d.history).frames == Segments(old(d.history)).frames + frames
    {
      var frame, failed := d.DecodeNextByte(chunk[i]);
      if failed { return frames, true; }
      assert old(d.history) + chunk[..i + 1] == old(d.history) + chunk[..i] + [chunk[i]];
      if frame.Some? { frames := frames + [frame.value]; }
    }
    assert chunk[..|chunk|] == chunk;
  }

  /* ---- The client's reader ---- */

  /** The bytes of s that are not NUL. */
  function DropNul(s: string): string {
    if s == "" then "" else DropNul(s[..|s| - 1]) + (if s[|s| - 1] == NUL then "" else [s[|s| - 1]])
  }

  lemma {:induction false} DropNulId(s: string)
    requires NUL !in s
    ensures DropNul(s) == s
    decreases |s|
  {
    if s != "" { DropNulId(s[..|s| - 1]); }
  }

  /** The first delimiter of input is at k. */
  predicate EndsAt(input: string, delimiter: char, k: nat) {
    k < |input| && input[k] == delimiter && delimiter !in input[..k]
  }

  /** getFrameAscii: reads socket bytes up to the delimiter and appends those that are not NUL.
      ok is false when the bytes end first. */
  method GetFrameAscii(input: string, delimiter: char) returns (ok: bool, frame: string, rest: string)
    ensures ok <==> delimiter in input
    ensures ok ==> exists k :: EndsAt(input, delimiter, k) && frame == DropNul(input[..k + 1]) && rest == input[k + 1..]
  {
    frame, rest := "", input;
    var k := 0;
    while true
      invariant 0 <= k <= |input| && rest == input[k..]
      invariant delimiter !in input[..k] && frame == DropNul(input[..k])
      decreases |input| - k
    {
      if k == |input| {
        assert input[..k] == input;
        return false, frame, rest;
      }
      var ch := input[k];
      assert input[..k + 1][..k] == input[..k];
      if ch != NUL { frame := frame + [ch]; }
      k, rest := k + 1, input[k + 1..];
      if delimiter == ch {
        assert EndsAt(input, delimiter, k - 1);
        return true, frame, rest;
      }
    }
  }

  /** A NUL-free text and its NUL are one segment, and what getFrameAscii keeps of them. */
  lemma LineDecodes(text: string, sp: Split)
    requires NUL !in text
    ensures FeedAll(sp, Encode(text)) == Split(sp.frames + [sp.rest + text], "")
    ensures DropNul(Encode(text)) == text
  {
    assert Encode(text)[..|text|] == text;
    FeedAllText(sp, text);
    DropNulId(text);
  }

  lemma ReadOne(seen: string, input: string, k: nat)
    requires EndsAt(input, NUL, k) && Segments(seen).rest == ""
    ensures Segments(seen + input[..k + 1]) == Split(Segments(seen).frames + [DropNul(input[..k + 1])], "")
  {
    assert input[..k + 1] == Encode(input[..k]);
    LineDecodes(input[..k], Segments(seen));
    SegmentsConcat(seen, input[..k + 1]);
    assert "" + input[..k] == input[..k];
  }

  lemma CutAt(seen: string, input: string, n: nat)
    requires n <= |input|
    ensures (seen + input[..n]) + input[n..] == seen + input
  {
  }

  /** What has been read after one call more. */
  lemma ReadMore(seen: string, input: string, frames: seq<string>, frame: string, after: string) returns (more: string)
    requires Segments(seen) == Split(frames, "")
    requires exists k :: EndsAt(input, NUL, k) && frame == DropNul(input[..k + 1]) && after == input[k + 1..]
    ensures more + after == seen + input && Segments(more) == Split(frames + [frame], "") && |after| < |input|
  {
    var k: nat :| EndsAt(input, NUL, k) && frame == DropNul(input[..k + 1]) && after == input[k + 1..];
    ReadOne(seen, input, k);
    CutAt(seen, input, k + 1);
    more := seen + input[..k + 1];
  }

  /** The frames getFrameAscii returns, called until the bytes end. */
  method ReadAll(input: string) returns (frames: seq<string>, rest: string)
    ensures Split(frames, rest) == Segments(input)
  {
    frames, rest := [], input;
    ghost var seen := "";
    while true
      invariant seen + rest == input
      invariant Segments(seen) == Split(frames, "")
      decreases |rest|
    {
      ghost var before := rest;
      var ok, frame, after := GetFrameAscii(rest, NUL);
      if !ok {
        FeedText(seen, rest);
        return frames, rest;
      }
      seen := ReadMore(seen, before, frames, frame, after);
      frames, rest := frames + [frame], after;
    }
  }
}
