/**
 The browser's reassembly of messages from socket chunks (web/js/tmx.common.library.js, the
 onmessage handler installed by connect, and the framing done by sendCommand).
 */
module StreamReassembly {
  import opened Texts

  /** A stream cut at its terminators: the terminated pieces and what follows the last terminator. */
  datatype Cut = Cut(pieces: seq<string>, tail: string)

  function Next(c: Cut, x: char): Cut {
    if x == ETX then Cut(c.pieces + [c.tail], "") else Cut(c.pieces, c.tail + [x])
  }

  function Scan(c: Cut, s: string): Cut
    decreases |s|
  {
    if s == "" then c else Scan(Next(c, s[0]), s[1..])
  }

  function CutOf(stream: string): Cut {
    Scan(Cut([], ""), stream)
  }

  /** String.split: one piece more than there are terminators. */
  function Split(s: string): seq<string> {
    CutOf(s).pieces + [CutOf(s).tail]
  }

  /** The messages of a stream: its non-empty terminated segments.  The rest is its tail. */
  function Messages(stream: string): seq<string> {
    NonEmpty(CutOf(stream).pieces)
  }

  function Tail(stream: string): string {
    CutOf(stream).tail
  }

  lemma {:induction false} ScanAppend(c: Cut, a: string, b: string)
    ensures Scan(c, a + b) == Scan(Scan(c, a), b)
    decreases |a|
  {
    if a == "" {
      assert a + b == b;
    } else {
      assert (a + b)[0] == a[0] && (a + b)[1..] == a[1..] + b;
      ScanAppend(Next(c, a[0]), a[1..], b);
    }
  }

  /** Pieces already cut off stay in front. */
  lemma {:induction false} ScanCarries(pieces: seq<string>, c: Cut, s: string)
    ensures Scan(Cut(pieces + c.pieces, c.tail), s) == Cut(pieces + Scan(c, s).pieces, Scan(c, s).tail)
    decreases |s|
  {
    if s != "" {
      assert pieces + (c.pieces + [c.tail]) == (pieces + c.pieces) + [c.tail];
      ScanCarries(pieces, Next(c, s[0]), s[1..]);
    }
  }

  lemma {:induction false} Unterminated(c: Cut, s: string)
    requires ETX !in s
    ensures Scan(c, s) == Cut(c.pieces, c.tail + s)
    decreases |s|
  {
    if s == "" {
      assert c.tail + s == c.tail;
    } else {
      Unterminated(Next(c, s[0]), s[1..]);
      assert (c.tail + [s[0]]) + s[1..] == c.tail + s;
    }
  }

  lemma {:induction false} TailHasNoTerminator(c: Cut, s: string)
    requires ETX !in c.tail
    ensures ETX !in Scan(c, s).tail
    ensures |Scan(c, s).pieces| >= |c.pieces|
    ensures ETX in s ==> |Scan(c, s).pieces| > |c.pieces|
    decreases |s|
  {
    if s != "" { TailHasNoTerminator(Next(c, s[0]), s[1..]); }
  }

  function Terminated(ps: seq<string>): string {
    if ps == [] then "" else Terminated(ps[..|ps| - 1]) + (ps[|ps| - 1] + [ETX])
  }

  lemma {:induction false} ScanKeepsText(c: Cut, s: string)
    requires ETX !in c.tail && forall i :: 0 <= i < |c.pieces| ==> ETX !in c.pieces[i]
    ensures var e := Scan(c, s);
            && ETX !in e.tail && (forall i :: 0 <= i < |e.pieces| ==> ETX !in e.pieces[i])
            && Terminated(e.pieces) + e.tail == (Terminated(c.pieces) + c.tail) + s
    decreases |s|
  {
    if s != "" {
      var d := Next(c, s[0]);
      if s[0] == ETX {
        assert d.pieces[..|c.pieces|] == c.pieces;
        assert Terminated(d.pieces) + d.tail == (Terminated(c.pieces) + c.tail) + [s[0]];
      } else {
        assert Terminated(c.pieces) + (c.tail + [s[0]]) == (Terminated(c.pieces) + c.tail) + [s[0]];
      }
      ScanKeepsText(d, s[1..]);
      assert [s[0]] + s[1..] == s;
      assert ((Terminated(c.pieces) + c.tail) + [s[0]]) + s[1..] == (Terminated(c.pieces) + c.tail) + s;
    }
  }

  /** The pieces, each with its terminator, and the tail are the stream, and none of them holds a terminator. */
  lemma CutIsTheStream(s: string)
    ensures var c := CutOf(s);
            && ETX !in c.tail && (forall i :: 0 <= i < |c.pieces| ==> ETX !in c.pieces[i])
            && Terminated(c.pieces) + c.tail == s
  {
    ScanKeepsText(Cut([], ""), s);
    assert ("" + "") + s == s;
  }

  /** A longer stream only adds what its tail and the new text make together. */
  lemma StreamAppend(a: string, b: string)
    ensures Messages(a + b) == Messages(a) + Messages(Tail(a) + b)
    ensures Tail(a + b) == Tail(Tail(a) + b)
  {
    var start, c := Cut([], ""), CutOf(a);
    TailHasNoTerminator(start, a);
    ScanAppend(start, a, b);
    assert c.pieces + [] == c.pieces;
    ScanCarries(c.pieces, Cut([], c.tail), b);
    ScanAppend(start, c.tail, b);
    Unterminated(start, c.tail);
    assert "" + c.tail == c.tail;
    NonEmptyAppend(c.pieces, CutOf(c.tail + b).pieces);
  }

  lemma TerminatedTail(s: string)
    requires s != "" && s[|s| - 1] == ETX
    ensures Tail(s) == ""
  {
    var n := |s| - 1;
    ScanAppend(Cut([], ""), s[..n], [ETX]);
    assert s == s[..n] + [ETX] && [ETX][1..] == "";
  }

  class SocketReader {
    var msgBuffer: string
    var handled: seq<string>  // the calls of messageHandler, in order

    constructor ()
      ensures msgBuffer == "" && handled == []
    {
      msgBuffer, handled := "", [];
    }

    /** The onmessage handler, for a chunk that is already decoded. */
    method OnMessage(chunk: string)
      modifies this
      ensures handled == old(handled) + Messages(old(msgBuffer) + chunk)
      ensures msgBuffer == Tail(old(msgBuffer) + chunk)
    {
      var text := msgBuffer + chunk;
      msgBuffer := text;
      if ETX in text {
        SplitParts(text);
        var calls, rest := HandlePieces(Split(text), text[|text| - 1] == ETX);
        handled := handled + calls;
        msgBuffer := rest;
      } else {
        Unterminated(Cut([], ""), text);
        assert "" + text == text;
      }
    }
  }

  /** The loop over the split buffer: the calls of messageHandler, and what stays in the buffer. */
  method HandlePieces(newMessages: seq<string>, endsWithTerminator: bool) returns (calls: seq<string>, rest: string)
    requires |newMessages| >= 1 && (endsWithTerminator ==> newMessages[|newMessages| - 1] == "")
    ensures calls == NonEmpty(newMessages[..|newMessages| - 1])
    ensures rest == newMessages[|newMessages| - 1]
  {
    calls, rest := [], "";
    var i, last := 0, |newMessages| - 1;
    while i < |newMessages|
      invariant 0 <= i <= last + 1
      invariant calls == NonEmpty(newMessages[..if i < last then i else last])
      invariant i > last ==> rest == newMessages[last]
    {
      if i < last {
        NonEmptyStep(newMessages, i);
        if |newMessages[i]| > 0 { calls := calls + [newMessages[i]]; }
      } else if endsWithTerminator {
        // nothing follows the last terminator, so the handler call guarded by a length test is never made
        rest := "";
      } else {
        rest := newMessages[i];
      }
      i := i + 1;
    }
  }

  lemma SplitParts(text: string)
    ensures var ps := Split(text); ps[..|ps| - 1] == CutOf(text).pieces && ps[|ps| - 1] == Tail(text)
    ensures text != "" && text[|text| - 1] == ETX ==> Tail(text) == ""
  {
    if text != "" && text[|text| - 1] == ETX { TerminatedTail(text); }
  }

  lemma NonEmptyStep(ps: seq<string>, i: nat)
    requires i < |ps|
    ensures NonEmpty(ps[..i + 1]) == NonEmpty(ps[..i]) + if |ps[i]| > 0 then [ps[i]] else []
  {
    assert ps[..i + 1] == ps[..i] + [ps[i]] && [ps[i]][1..] == [];
    NonEmptyAppend(ps[..i], [ps[i]]);
  }

  // ---------- any splitting into chunks ----------

  datatype Reader = Reader(buffer: string, handled: seq<string>)

  /** The handler's effect, chunk after chunk. */
  function Received(chunks: seq<string>): Reader {
    if chunks == [] then Reader("", [])
    else
      var r := Received(chunks[..|chunks| - 1]);
      var text := r.buffer + chunks[|chunks| - 1];
      Reader(Tail(text), r.handled + Messages(text))
  }

  /** However the stream is cut, the handled messages are its non-empty terminated segments, in order. */
  lemma {:induction false} ChunksDoNotMatter(chunks: seq<string>)
    ensures Received(chunks) == Reader(Tail(Joined(chunks)), Messages(Joined(chunks)))
  {
    if chunks != [] {
      var n := |chunks| - 1;
      ChunksDoNotMatter(chunks[..n]);
      StreamAppend(Joined(chunks[..n]), chunks[n]);
    }
  }

  lemma OneFrame(m: string)
    requires ETX !in m
    ensures Messages(Framed(m)) == [[STX] + m] && Tail(Framed(m)) == ""
  {
    var s, start := [STX] + m, Cut([], "");
    Unterminated(start, s);
    ScanAppend(start, s, [ETX]);
    assert "" + s == s && [ETX][1..] == "" && [] + [s] == [s];
    assert CutOf(Framed(m)) == Cut([s], "");
    assert NonEmpty([s]) == [s] + NonEmpty([]);
  }

  /** Framing and reassembly are inverse: every command comes out once, in order, whatever the chunks. */
  lemma {:induction false} FramesComeBack(ms: seq<string>, chunks: seq<string>)
    requires Joined(chunks) == FramedAll(ms)
    requires forall i :: 0 <= i < |ms| ==> ETX !in ms[i]
    ensures Received(chunks).buffer == ""
    ensures Received(chunks).handled == seq(|ms|, i requires 0 <= i < |ms| => [STX] + ms[i])
  {
    ChunksDoNotMatter(chunks);
    FramesSplit(ms);
  }

  lemma {:induction false} FramesSplit(ms: seq<string>)
    requires forall i :: 0 <= i < |ms| ==> ETX !in ms[i]
    ensures Tail(FramedAll(ms)) == ""
    ensures Messages(FramedAll(ms)) == seq(|ms|, i requires 0 <= i < |ms| => [STX] + ms[i])
  {
    if ms != [] {
      OneFrame(ms[0]);
      FramesSplit(ms[1..]);
      StreamAppend(Framed(ms[0]), FramedAll(ms[1..]));
      assert "" + FramedAll(ms[1..]) == FramedAll(ms[1..]);
      var rest := seq(|ms| - 1, i requires 0 <= i < |ms| - 1 => [STX] + ms[1..][i]);
      assert Messages(FramedAll(ms)) == [[STX] + ms[0]] + rest;
    }
  }
}
