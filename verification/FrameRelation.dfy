/** How the two parsers relate to each other and to rendered frames, and the way of a server frame
    to the client. */
module FrameRelation {
  import opened NulFraming
  import opened Text
  import opened Frames

  /* ---- Rendered frames ---- */

  function HeaderLine(h: Header): string {
    h.0 + [':'] + h.1
  }

  function HeaderLines(hs: seq<Header>): string {
    if hs == [] then "" else HeaderLine(hs[0]) + ['\n'] + HeaderLines(hs[1..])
  }

  /** The STOMP 1.2 frame layout: command line, header lines, blank line, body. */
  function Render(command: string, hs: seq<Header>, body: string): string {
    command + ['\n'] + HeaderLines(hs) + ['\n'] + body
  }

  /** A header the two splits leave whole. */
  predicate WellFormed(h: Header) {
    ':' !in h.0 && '\n' !in h.0 && h.1 != "" && ':' !in h.1 && '\n' !in h.1
  }

  predicate AllWellFormed(hs: seq<Header>) {
    forall i :: 0 <= i < |hs| ==> WellFormed(hs[i])
  }

  function PutAll(m: Headers, hs: seq<Header>): Headers
    decreases |hs|
  {
    if hs == [] then m else PutAll(m[hs[0].0 := hs[0].1], hs[1..])
  }

  function InsertAll(m: Headers, hs: seq<Header>): Headers
    decreases |hs|
  {
    if hs == [] then m else InsertAll(Insert(m, hs[0].0, hs[0].1), hs[1..])
  }

  lemma CutRendered(line: string, rest: string)
    requires '\n' !in line
    ensures CutLine(line + ['\n'] + rest) == Some(Line(line, rest))
  {
    var s := line + ['\n'] + rest;
    assert s[..|line|] == line;
    IndexOfIs(s, '\n', |line|);
    assert s[|line| + 1..] == rest;
  }

  lemma FieldsOfPair(k: string, v: string)
    requires ':' !in k && ':' !in v
    ensures Fields(k + [':'] + v, ':') == [k, v]
  {
    var s := k + [':'] + v;
    assert s[..|k|] == k;
    IndexOfIs(s, ':', |k|);
    assert s[|k| + 1..] == v;
    assert Fields(v, ':') == [v] by {
      assert v[..|v|] == v;
    }
  }

  lemma SplitsOfPair(h: Header)
    requires WellFormed(h)
    ensures JavaHeader(HeaderLine(h)) == Parsed(h) && CppHeader(HeaderLine(h)) == Built(h)
  {
    FieldsOfPair(h.0, h.1);
  }

  /** Exactly the headers with a colon-free key and a non-empty colon-free value survive the
      server's split; any other comes out changed, or not at all. */
  lemma JavaHeaderExactly(k: string, v: string)
    ensures JavaHeader(HeaderLine((k, v))) == Parsed((k, v)) <==> ':' !in k && ':' !in v && v != ""
  {
    var fs := Fields(HeaderLine((k, v)), ':');
    StripKeepsPrefix(fs);
    if ':' !in k && ':' !in v {
      FieldsOfPair(k, v);
      if v == "" { EmptyValueThrows(k); } else { SplitsWhole(k, v); }
    }
  }

  lemma EmptyValueThrows(k: string)
    requires ':' !in k
    ensures JavaHeader(HeaderLine((k, ""))) == Threw
  {
    FieldsOfPair(k, "");
    assert [k, ""][..1] == [k];
    StripKeepsPrefix([k]);
    assert StripEmpty([k, ""]) == StripEmpty([k]);
  }

  lemma SplitsWhole(k: string, v: string)
    requires ':' !in k && ':' !in v && v != ""
    ensures JavaHeader(HeaderLine((k, v))) == Parsed((k, v))
  {
    FieldsOfPair(k, v);
  }

  lemma {:induction false} StripKeepsPrefix(fs: seq<string>)
    ensures StripEmpty(fs) <= fs
    decreases |fs|
  {
    if fs != [] && fs[|fs| - 1] == "" { StripKeepsPrefix(fs[..|fs| - 1]); }
  }

  /** The client's split has the same survivors. */
  lemma CppHeaderExactly(k: string, v: string)
    ensures CppHeader(HeaderLine((k, v))) == Built((k, v)) <==> ':' !in k && ':' !in v && v != ""
  {
    if ':' !in k && ':' !in v {
      FieldsOfPair(k, v);
    }
  }

  lemma {:induction false} JavaReadsHeaders(hs: seq<Header>, body: string, m: Headers)
    requires AllWellFormed(hs)
    ensures JavaHeaders(HeaderLines(hs) + ['\n'] + body, m) == Parsed((PutAll(m, hs), body))
    decreases |hs|
  {
    var text := HeaderLines(hs) + ['\n'] + body;
    if hs == [] {
      assert text == "" + ['\n'] + body;
      CutRendered("", body);
    } else {
      var rest := HeaderLines(hs[1..]) + ['\n'] + body;
      assert text == HeaderLine(hs[0]) + ['\n'] + rest;
      CutRendered(HeaderLine(hs[0]), rest);
      SplitsOfPair(hs[0]);
      JavaReadsHeaders(hs[1..], body, m[hs[0].0 := hs[0].1]);
    }
  }

  /** The server's parser on a rendered frame. */
  lemma JavaReadsFrame(command: string, hs: seq<Header>, body: string)
    requires '\n' !in command && AllWellFormed(hs)
    ensures JavaParse(Render(command, hs, body)) == Parsed(PutAll(map[COMMAND := command], hs)[BODY := body])
  {
    RenderCuts(command, HeaderLines(hs), body);
    CutRendered(command, HeaderLines(hs) + ['\n'] + body);
    JavaReadsHeaders(hs, body, map[COMMAND := command]);
  }

  lemma RenderCuts(command: string, lines: string, body: string)
    ensures command + ['\n'] + lines + ['\n'] + body == command + ['\n'] + (lines + ['\n'] + body)
  {
    assert command + ['\n'] + lines + ['\n'] == command + ['\n'] + (lines + ['\n']);
  }

  /** Without the blank line the server's parser throws: this is SEND's receipt text. */
  lemma {:induction false} JavaNeedsBlankLine(hs: seq<Header>, m: Headers)
    requires AllWellFormed(hs)
    ensures JavaHeaders(HeaderLines(hs), m) == Threw
    decreases |hs|
  {
    if hs != [] {
      CutRendered(HeaderLine(hs[0]), HeaderLines(hs[1..]));
      SplitsOfPair(hs[0]);
      JavaNeedsBlankLine(hs[1..], m[hs[0].0 := hs[0].1]);
    }
  }

  lemma {:induction false} CppReadsHeaders(hs: seq<Header>, body: string, m: Headers)
    requires AllWellFormed(hs)
    ensures CppHeaders(HeaderLines(hs) + ['\n'] + body, m) == Built((InsertAll(m, hs), body))
    decreases |hs|
  {
    var text := HeaderLines(hs) + ['\n'] + body;
    if hs == [] {
      assert text == "" + ['\n'] + body;
      CutRendered("", body);
    } else {
      var rest := HeaderLines(hs[1..]) + ['\n'] + body;
      assert text == HeaderLine(hs[0]) + ['\n'] + rest;
      CutRendered(HeaderLine(hs[0]), rest);
      SplitsOfPair(hs[0]);
      CppReadsHeaders(hs[1..], body, Insert(m, hs[0].0, hs[0].1));
    }
  }

  /** The client's parser also accepts headers that end without a blank line. */
  lemma {:induction false} CppReadsOpenHeaders(hs: seq<Header>, m: Headers)
    requires AllWellFormed(hs)
    ensures CppHeaders(HeaderLines(hs), m) == Built((InsertAll(m, hs), ""))
    decreases |hs|
  {
    if hs != [] {
      CutRendered(HeaderLine(hs[0]), HeaderLines(hs[1..]));
      SplitsOfPair(hs[0]);
      CppReadsOpenHeaders(hs[1..], Insert(m, hs[0].0, hs[0].1));
    }
  }

  /** What the client's parser builds from a rendered frame: an empty body leaves no entry. */
  function ClientFrame(command: string, hs: seq<Header>, body: string): Headers {
    var m := InsertAll(map[COMMAND := command], hs);
    if body == "" then m else Insert(m, BODY, body)
  }

  lemma CppReadsFrame(command: string, hs: seq<Header>, body: string)
    requires '\n' !in command && AllWellFormed(hs)
    ensures CppParse(Render(command, hs, body)) == Built(ClientFrame(command, hs, body))
    ensures CppParse(command + ['\n'] + HeaderLines(hs)) == Built(ClientFrame(command, hs, ""))
  {
    CppReadsWhole(command, hs, body);
    CppReadsOpen(command, hs);
  }

  lemma CppReadsWhole(command: string, hs: seq<Header>, body: string)
    requires '\n' !in command && AllWellFormed(hs)
    ensures CppParse(Render(command, hs, body)) == Built(ClientFrame(command, hs, body))
  {
    RenderCuts(command, HeaderLines(hs), body);
    CutRendered(command, HeaderLines(hs) + ['\n'] + body);
    CppReadsHeaders(hs, body, map[COMMAND := command]);
  }

  lemma CppReadsOpen(command: string, hs: seq<Header>)
    requires '\n' !in command && AllWellFormed(hs)
    ensures CppParse(command + ['\n'] + HeaderLines(hs)) == Built(ClientFrame(command, hs, ""))
  {
    CutRendered(command, HeaderLines(hs));
    CppReadsOpenHeaders(hs, map[COMMAND := command]);
    if HeaderLines(hs) == "" { assert hs == []; }
  }

  /* ---- Last wins against first wins ---- */

  function Reverse<T>(s: seq<T>): seq<T> {
    if s == [] then [] else [s[|s| - 1]] + Reverse(s[..|s| - 1])
  }

  lemma {:induction false} ReverseWellFormed(hs: seq<Header>)
    requires AllWellFormed(hs)
    ensures AllWellFormed(Reverse(hs))
    decreases |hs|
  {
    if hs != [] { ReverseWellFormed(hs[..|hs| - 1]); }
  }

  lemma {:induction false} PutLast(m: Headers, hs: seq<Header>, h: Header)
    ensures PutAll(m, hs + [h]) == PutAll(m, hs)[h.0 := h.1]
    decreases |hs|
  {
    if hs == [] {
      assert hs + [h] == [h];
      assert PutAll(m[h.0 := h.1], []) == m[h.0 := h.1];
      assert [h][1..] == [];
    } else {
      assert (hs + [h])[1..] == hs[1..] + [h];
      PutLast(m[hs[0].0 := hs[0].1], hs[1..], h);
    }
  }

  /** Inserting more headers never changes an entry that is there. */
  lemma {:induction false} InsertFirst(m: Headers, hs: seq<Header>, k: string, v: string)
    requires k !in m
    ensures InsertAll(m[k := v], hs) == InsertAll(m, hs)[k := v]
    decreases |hs|
  {
    if hs != [] {
      var h := hs[0];
      if h.0 == k {
        InsertFirst(m, hs[1..], k, v);
        assert Insert(m[k := v], h.0, h.1) == m[k := v];
        InsertFirst(m, hs[1..], k, h.1);
        assert InsertAll(m, hs)[k := v] == InsertAll(m, hs[1..])[k := v];
      } else {
        assert Insert(m[k := v], h.0, h.1) == Insert(m, h.0, h.1)[k := v];
        InsertFirst(Insert(m, h.0, h.1), hs[1..], k, v);
      }
    }
  }

  lemma {:induction false} PutIsReverseInsert(m: Headers, hs: seq<Header>)
    requires forall i :: 0 <= i < |hs| ==> hs[i].0 !in m
    ensures PutAll(m, hs) == InsertAll(m, Reverse(hs))
    decreases |hs|
  {
    if hs != [] {
      var front, h := hs[..|hs| - 1], hs[|hs| - 1];
      assert hs == front + [h];
      PutLast(m, front, h);
      PutIsReverseInsert(m, front);
      assert Reverse(hs)[1..] == Reverse(front);
      InsertFirst(m, Reverse(front), h.0, h.1);
      assert Insert(m, h.0, h.1) == m[h.0 := h.1];
    }
  }

  /** The keys do not collide with the two entries the parsers make themselves. */
  predicate NoReserved(hs: seq<Header>) {
    forall i :: 0 <= i < |hs| ==> hs[i].0 != COMMAND && hs[i].0 != BODY
  }

  lemma {:induction false} InsertKeys(m: Headers, hs: seq<Header>, k: string)
    requires k !in m && forall i :: 0 <= i < |hs| ==> hs[i].0 != k
    ensures k !in InsertAll(m, hs)
    decreases |hs|
  {
    if hs != [] { InsertKeys(Insert(m, hs[0].0, hs[0].1), hs[1..], k); }
  }

  lemma {:induction false} ReverseNoReserved(hs: seq<Header>)
    requires NoReserved(hs)
    ensures NoReserved(Reverse(hs))
    decreases |hs|
  {
    if hs != [] { ReverseNoReserved(hs[..|hs| - 1]); }
  }

  /** The two parsers are mirror images: for every well-formed header list, with repeated keys or
      not, the server's parse is the client's parse of the reversed list, with the body entry the
      client leaves out when it is empty. */
  lemma ParsersMirror(command: string, hs: seq<Header>, body: string)
    requires '\n' !in command && AllWellFormed(hs) && NoReserved(hs)
    ensures var java, cpp := JavaParse(Render(command, hs, body)), CppParse(Render(command, Reverse(hs), body));
            && java.Parsed? && cpp.Built?
            && java.value == cpp.value[BODY := body]
            && (body != "" ==> java.value == cpp.value)
  {
    ReverseWellFormed(hs);
    JavaReadsFrame(command, hs, body);
    CppReadsFrame(command, Reverse(hs), body);
    PutIsClient(command, hs, body);
  }

  lemma PutIsClient(command: string, hs: seq<Header>, body: string)
    requires NoReserved(hs)
    ensures var java, cpp := PutAll(map[COMMAND := command], hs)[BODY := body], ClientFrame(command, Reverse(hs), body);
            java == cpp[BODY := body] && (body != "" ==> java == cpp)
  {
    ReverseNoReserved(hs);
    PutIsReverseInsert(map[COMMAND := command], hs);
    InsertKeys(map[COMMAND := command], Reverse(hs), BODY);
  }

  /* ---- The order of headers ---- */

  predicate DistinctKeys(hs: seq<Header>) {
    forall i, j :: 0 <= i < j < |hs| ==> hs[i].0 != hs[j].0
  }

  /** PutAll, entry by entry, when no key repeats. */
  lemma {:induction false} PutDistinct(m: Headers, hs: seq<Header>, k: string)
    requires DistinctKeys(hs)
    ensures k in PutAll(m, hs) <==> k in m || exists i :: 0 <= i < |hs| && hs[i].0 == k
    ensures forall i :: 0 <= i < |hs| && hs[i].0 == k ==> PutAll(m, hs)[k] == hs[i].1
    ensures k in m && (forall i :: 0 <= i < |hs| ==> hs[i].0 != k) ==> PutAll(m, hs)[k] == m[k]
    decreases |hs|
  {
    if hs != [] {
      var m' := m[hs[0].0 := hs[0].1];
      PutDistinct(m', hs[1..], k);
      assert forall i :: 0 <= i < |hs| - 1 ==> hs[1..][i] == hs[i + 1];
      if k in PutAll(m', hs[1..]) && k !in m {
        if i :| 0 <= i < |hs| - 1 && hs[1..][i].0 == k { assert hs[i + 1].0 == k; }
      }
      if i :| 0 <= i < |hs| && hs[i].0 == k {
        if i > 0 { assert hs[1..][i - 1].0 == k; }
      }
    }
  }

  lemma SameMembers(hs: seq<Header>, hs': seq<Header>, h: Header)
    requires multiset(hs) == multiset(hs')
    ensures h in hs <==> h in hs'
  {
    assert h in hs <==> h in multiset(hs);
    assert h in hs' <==> h in multiset(hs');
  }

  lemma PutPermuted(m: Headers, hs: seq<Header>, hs': seq<Header>, k: string)
    requires DistinctKeys(hs) && DistinctKeys(hs') && multiset(hs) == multiset(hs')
    ensures k in PutAll(m, hs) <==> k in PutAll(m, hs')
    ensures k in PutAll(m, hs) ==> PutAll(m, hs)[k] == PutAll(m, hs')[k]
  {
    PutDistinct(m, hs, k);
    PutDistinct(m, hs', k);
    if i :| 0 <= i < |hs| && hs[i].0 == k {
      SameMembers(hs, hs', hs[i]);
      var j :| 0 <= j < |hs'| && hs'[j] == hs[i];
      assert hs'[j].0 == k;
    }
    if j :| 0 <= j < |hs'| && hs'[j].0 == k {
      SameMembers(hs, hs', hs'[j]);
      var i :| 0 <= i < |hs| && hs[i] == hs'[j];
      assert hs[i].0 == k;
    }
  }

  lemma PermutedKeepsDistinct(hs: seq<Header>, hs': seq<Header>)
    requires DistinctKeys(hs) && multiset(hs) == multiset(hs')
    ensures DistinctKeys(hs')
  {
    forall i, j | 0 <= i < j < |hs'| ensures hs'[i].0 != hs'[j].0 {
      if hs'[i].0 == hs'[j].0 {
        SameMembers(hs, hs', hs'[i]);
        SameMembers(hs, hs', hs'[j]);
        var p :| 0 <= p < |hs| && hs[p] == hs'[i];
        var q :| 0 <= q < |hs| && hs[q] == hs'[j];
        assert p == q;
        TwiceInPermuted(hs', i, j);
        OnceInDistinct(hs, p);
      }
    }
  }

  lemma TwiceInPermuted(hs: seq<Header>, i: nat, j: nat)
    requires i < j < |hs| && hs[i] == hs[j]
    ensures multiset(hs)[hs[i]] >= 2
  {
    assert hs == hs[..j] + [hs[j]] + hs[j + 1..];
    assert hs[i] in hs[..j];
    assert multiset(hs) == multiset(hs[..j]) + multiset{hs[j]} + multiset(hs[j + 1..]);
  }

  lemma OnceInDistinct(hs: seq<Header>, p: nat)
    requires DistinctKeys(hs) && p < |hs|
    ensures multiset(hs)[hs[p]] == 1
  {
    assert hs == hs[..p] + [hs[p]] + hs[p + 1..];
    assert hs[p] !in hs[..p] && hs[p] !in hs[p + 1..];
    assert multiset(hs) == multiset(hs[..p]) + multiset{hs[p]} + multiset(hs[p + 1..]);
  }

  /** With distinct keys neither parser cares about the order of the headers, and they agree. */
  lemma HeaderOrderIrrelevant(command: string, hs: seq<Header>, hs': seq<Header>, body: string)
    requires '\n' !in command && AllWellFormed(hs) && NoReserved(hs) && DistinctKeys(hs)
    requires multiset(hs) == multiset(hs')
    ensures JavaParse(Render(command, hs', body)) == JavaParse(Render(command, hs, body))
    ensures CppParse(Render(command, hs', body)) == CppParse(Render(command, hs, body))
    ensures CppParse(Render(command, hs', body)).Built?
    ensures body != "" ==>
              JavaParse(Render(command, hs, body)) == Parsed(CppParse(Render(command, hs', body)).value)
  {
    var m := map[COMMAND := command];
    PermutedKeepsDistinct(hs, hs');
    PermutedKeepsShape(hs, hs');
    PermutedPut(m, hs, hs');
    JavaReadsFrame(command, hs, body);
    JavaReadsFrame(command, hs', body);
    ReversedPut(m, hs);
    ReversedPut(m, hs');
    CppReadsFrame(command, hs, body);
    CppReadsFrame(command, hs', body);
    InsertKeys(m, hs, BODY);
  }

  lemma PermutedKeepsShape(hs: seq<Header>, hs': seq<Header>)
    requires AllWellFormed(hs) && NoReserved(hs) && multiset(hs) == multiset(hs')
    ensures AllWellFormed(hs') && NoReserved(hs')
  {
    forall i | 0 <= i < |hs'| ensures WellFormed(hs'[i]) && hs'[i].0 != COMMAND && hs'[i].0 != BODY {
      SameMembers(hs, hs', hs'[i]);
    }
  }

  lemma PermutedPut(m: Headers, hs: seq<Header>, hs': seq<Header>)
    requires DistinctKeys(hs) && DistinctKeys(hs') && multiset(hs) == multiset(hs')
    ensures PutAll(m, hs) == PutAll(m, hs')
  {
    forall k ensures k in PutAll(m, hs) <==> k in PutAll(m, hs') { PutPermuted(m, hs, hs', k); }
    forall k | k in PutAll(m, hs) ensures PutAll(m, hs)[k] == PutAll(m, hs')[k] { PutPermuted(m, hs, hs', k); }
  }

  lemma {:induction false} ReverseMembers<T>(s: seq<T>)
    ensures multiset(Reverse(s)) == multiset(s)
    decreases |s|
  {
    if s != [] {
      ReverseMembers(s[..|s| - 1]);
      assert s == s[..|s| - 1] + [s[|s| - 1]];
    }
  }

  lemma {:induction false} ReverseTwice<T>(s: seq<T>)
    ensures Reverse(Reverse(s)) == s && |Reverse(s)| == |s|
    decreases |s|
  {
    if s != [] {
      var front, x := s[..|s| - 1], s[|s| - 1];
      ReverseTwice(front);
      ReverseAppend([x], Reverse(front));
      assert s == front + [x];
    }
  }

  lemma {:induction false} ReverseAppend<T>(s: seq<T>, u: seq<T>)
    ensures Reverse(s + u) == Reverse(u) + Reverse(s)
    decreases |u|
  {
    if u == [] {
      assert s + u == s;
    } else {
      assert (s + u)[..|s + u| - 1] == s + u[..|u| - 1];
      ReverseAppend(s, u[..|u| - 1]);
    }
  }

  /** With distinct keys first-wins and last-wins are the same. */
  lemma ReversedPut(m: Headers, hs: seq<Header>)
    requires DistinctKeys(hs) && forall i :: 0 <= i < |hs| ==> hs[i].0 !in m
    ensures InsertAll(m, hs) == PutAll(m, hs)
  {
    var r := Reverse(hs);
    ReverseMembers(hs);
    ReverseTwice(hs);
    PermutedKeepsDistinct(hs, r);
    PermutedPut(m, hs, r);
    forall i | 0 <= i < |r| ensures r[i].0 !in m { SameMembers(hs, r, r[i]); }
    PutIsReverseInsert(m, r);
  }
}
