/**
 The framing of messages on the sockets between plugins and the core
 (src/tmx/TmxApi/tmx/utils/MsgFramer.c): STX, the text, ETX, reassembled in a fixed buffer.
 */
module MessageFraming {
  import opened Wrappers
  import opened Texts
  import opened Sets

  const NUL: char := '\U{0}'

  const MAX_BUF_SIZE := 20000

  // ---------- what one call finds in the buffered text ----------

  /** Every such character has a NUL before it, so that a search for it does not get there. */
  ghost predicate Hidden(s: string, c: char) {
    forall k :: 0 <= k < |s| && s[k] == c ==> NUL in s[..k]
  }

  /** strstr with a one-character pattern, which stops at a NUL; the length means not found. */
  function Search(s: string, c: char): (i: nat)
    requires c != NUL
    ensures i <= |s|
    ensures i < |s| ==> s[i] == c && c !in s[..i] && NUL !in s[..i]
    ensures i == |s| ==> Hidden(s, c)
  {
    if s == "" || s[0] == c then 0
    else if s[0] == NUL then |s|
    else
      var i := Search(s[1..], c);
      assert forall k :: 0 <= k < |s| ==> s[..k + 1] == [s[0]] + s[1..][..k];
      i + 1
  }

  lemma SearchStops(s: string, c: char, i: nat)
    requires c != NUL && i < |s| && c !in s[..i] && NUL !in s[..i] && s[i] in {c, NUL}
    ensures Search(s, c) == if s[i] == c then i else |s|
  {
    assert Search(s, c) < |s| ==> s[Search(s, c)] == c;
  }

  datatype Found = Found(msg: Option<string>, rest: string)

  /** Text before the first STX is dropped. */
  function NextMsg(text: string): (f: Found)
    ensures f.msg.Some? ==> |f.rest| < |text|
  {
    FirstMsg(text[Search(text, STX)..])
  }

  /** A buffer full of one unfinished message is dropped. */
  function FirstMsg(v: string): Found {
    var e := Search(v, ETX);
    if v == "" then Found(None, "")
    else if 1 <= e < |v| then Found(Some(v[1..e]), v[e + 1..])
    else Found(None, if |v| == MAX_BUF_SIZE then "" else v)
  }

  class MsgFramer {
    const buf: array<char>
    var bufpos: nat
    var readpos: nat

    ghost predicate Valid()
      reads this, buf
    {
      buf.Length == MAX_BUF_SIZE + 1 && readpos <= bufpos <= MAX_BUF_SIZE
    }

    /** The text is terminated as strstr needs it. */
    ghost predicate Ready()
      reads this, buf
    {
      Valid() && buf[bufpos] == NUL
    }

    ghost function Unread(): string
      requires Valid()
      reads this, buf
    {
      buf[readpos..bufpos]
    }

    constructor ()
      ensures Valid() && Unread() == "" && readpos == 0 && fresh(buf)
    {
      buf := new char[MAX_BUF_SIZE + 1];
      bufpos, readpos := 0, 0;
    }

    /** recv into the free part of the buffer, then incrementBufPos. */
    method Receive(data: string)
      requires Valid() && readpos == 0 && |data| <= MAX_BUF_SIZE - bufpos
      modifies this`bufpos, buf
      ensures Ready() && readpos == 0 && Unread() == old(Unread()) + data
    {
      var p, i := bufpos, 0;
      while i < |data|
        invariant 0 <= i <= |data|
        invariant buf[..p] == old(buf[..p]) && buf[p..p + i] == data[..i]
        modifies buf
      {
        buf[p + i] := data[i];
        i := i + 1;
      }
      assert data[..i] == data;
      buf[p + i] := NUL;
      bufpos := p + i;
      assert buf[..p + i] == old(buf[..p]) + data;
    }

    /** The copying loop that moves the text, with its terminator, to the front. */
    method Shift(shift: nat)
      requires buf.Length == MAX_BUF_SIZE + 1 && shift <= bufpos <= MAX_BUF_SIZE
      modifies this`bufpos, buf
      ensures bufpos == old(bufpos) - shift
      ensures buf[..bufpos] == old(buf[shift..bufpos]) && buf[bufpos] == old(buf[bufpos])
    {
      var i, n := 0, bufpos + 1 - shift;
      while i < n
        invariant 0 <= i <= n
        invariant forall k :: 0 <= k < i ==> buf[k] == old(buf[k + shift])
        invariant forall k :: i <= k < buf.Length ==> buf[k] == old(buf[k])
        modifies buf
      {
        buf[i] := buf[i + shift];
        i := i + 1;
      }
      bufpos := bufpos - shift;
    }

    /** strstr with a one-character pattern: its position, or that of the last terminator if not found. */
    method Find(c: char) returns (i: nat)
      requires buf.Length == MAX_BUF_SIZE + 1 && bufpos <= MAX_BUF_SIZE && buf[bufpos] == NUL && c != NUL
      ensures i == Search(buf[..bufpos], c)
    {
      i := 0;
      ghost var text := buf[..bufpos];
      while buf[i] != c && buf[i] != NUL
        invariant 0 <= i <= bufpos
        invariant c !in text[..i] && NUL !in text[..i]
        decreases bufpos - i
      {
        assert text[..i + 1] == text[..i] + [buf[i]];
        i := i + 1;
      }
      if i < bufpos { SearchStops(text, c, i); } else { assert text[..i] == text; }
      if buf[i] != c { i := bufpos; }
    }

    method GetNextMsg() returns (msg: Option<string>)
      requires Ready()
      modifies this, buf
      ensures Valid()
      ensures Found(msg, Unread()) == NextMsg(old(Unread()))
      ensures msg.Some? ==> Ready()
      ensures msg == None ==> readpos == 0
    {
      ghost var text := Unread();
      ToFront();
      assert buf[..bufpos] == text;
      var start := Find(STX);
      assert start == Search(text, STX);
      if start == bufpos {  // not found
        bufpos := 0;
        msg := None;
      } else {
        Shift(start);
        assert buf[..bufpos] == text[start..];
        msg := TakeMsg();
      }
    }

    /** The second half: the text starts with STX. */
    method TakeMsg() returns (msg: Option<string>)
      requires Ready() && readpos == 0 && bufpos > 0 && buf[0] == STX
      modifies this, buf
      ensures Valid()
      ensures Found(msg, Unread()) == FirstMsg(old(Unread()))
      ensures msg.Some? ==> Ready()
      ensures msg == None ==> readpos == 0
    {
      ghost var v := Unread();
      var end := Find(ETX);
      if end < bufpos {
        assert v[end + 1..] == buf[end + 1..bufpos];
        msg := Some(buf[1..end]);
        assert msg.value == v[1..end];
        buf[end] := NUL;
        readpos := end + 1;
        assert buf[readpos..bufpos] == v[end + 1..];
      } else {
        msg := None;
        if bufpos == MAX_BUF_SIZE {
          bufpos, readpos := 0, 0;
        }
      }
    }

    method ToFront()
      requires Ready()
      modifies this, buf
      ensures Ready() && readpos == 0 && Unread() == old(Unread())
    {
      if readpos != 0 {
        ghost var text := Unread();
        Shift(readpos);
        readpos := 0;
      }
    }

    /** What both receivers do with a chunk: take it in, then ask until there is nothing left. */
    method Deliver(data: string) returns (msgs: seq<string>)
      requires Valid() && readpos == 0 && |data| <= MAX_BUF_SIZE - bufpos
      modifies this, buf
      ensures Valid() && readpos == 0
      ensures Feed(msgs, Unread()) == Drain(old(Unread()) + data)
    {
      Receive(data);
      ghost var all, text := Drain(Unread()), Unread();
      msgs := [];
      var msg := GetNextMsg();
      DrainOnce(all, msgs, text, msg, Unread());
      while msg.Some?
        invariant Valid()
        invariant msg.Some? ==> Ready()
        invariant msg == None ==> readpos == 0
        invariant IsNext(all, msgs, msg, Unread())
        decreases msg.Some?, |Unread()|
      {
        msgs := msgs + [msg.value];
        text := Unread();
        msg := GetNextMsg();
        DrainOnce(all, msgs, text, msg, Unread());
      }
    }
  }

  datatype Feed = Feed(msgs: seq<string>, rest: string)

  function After(msgs: seq<string>, f: Feed): Feed {
    Feed(msgs + f.msgs, f.rest)
  }

  /** All messages in the buffered text, and what is kept for the next chunk. */
  function Drain(text: string): Feed
    decreases |text|
  {
    var n := NextMsg(text);
    if n.msg == None then Feed([], n.rest) else After([n.msg.value], Drain(n.rest))
  }

  /** Where the draining loop stands, having collected msgs and just been given msg. */
  ghost predicate IsNext(all: Feed, msgs: seq<string>, msg: Option<string>, rest: string) {
    all == if msg.Some? then After(msgs + [msg.value], Drain(rest)) else Feed(msgs, rest)
  }

  lemma {:induction false} DrainOnce(all: Feed, msgs: seq<string>, text: string, msg: Option<string>, rest: string)
    requires all == After(msgs, Drain(text)) && NextMsg(text) == Found(msg, rest)
    ensures IsNext(all, msgs, msg, rest)
    ensures msg.Some? ==> |rest| < |text|
  {
    if msg.Some? {
      var d := Drain(rest);
      assert msgs + ([msg.value] + d.msgs) == (msgs + [msg.value]) + d.msgs;
    } else {
      assert msgs + [] == msgs;
    }
  }

  // ---------- the reference: one character at a time ----------

  /** Inside a message a NUL hides its end, and it is lost when it has filled the buffer. */
  function Next(f: Feed, x: char): Feed {
    if f.rest == "" then (if x == STX then Feed(f.msgs, [STX]) else f)
    else if x == ETX && NUL !in f.rest then Feed(f.msgs + [f.rest[1..]], "")
    else if |f.rest| + 1 == MAX_BUF_SIZE then Feed(f.msgs, "")
    else Feed(f.msgs, f.rest + [x])
  }

  function Read(f: Feed, s: string): Feed
    decreases |s|
  {
    if s == "" then f else Read(Next(f, s[0]), s[1..])
  }

  lemma {:induction false} ReadAppend(f: Feed, a: string, b: string)
    ensures Read(f, a + b) == Read(Read(f, a), b)
    decreases |a|
  {
    if a == "" {
      assert a + b == b;
    } else {
      assert (a + b)[0] == a[0] && (a + b)[1..] == a[1..] + b;
      ReadAppend(Next(f, a[0]), a[1..], b);
    }
  }

  lemma {:induction false} ReadCarries(msgs: seq<string>, f: Feed, s: string)
    ensures Read(After(msgs, f), s) == After(msgs, Read(f, s))
    decreases |s|
  {
    if s != "" {
      assert msgs + (f.msgs + [f.rest[..]]) == (msgs + f.msgs) + [f.rest[..]];
      if f.rest != "" { assert msgs + (f.msgs + [f.rest[1..]]) == (msgs + f.msgs) + [f.rest[1..]]; }
      ReadCarries(msgs, Next(f, s[0]), s[1..]);
    }
  }

  lemma {:induction false} ReadSkips(f: Feed, s: string)
    requires f.rest == "" && STX !in s
    ensures Read(f, s) == f
    decreases |s|
  {
    if s != "" { ReadSkips(f, s[1..]); }
  }

  /** Inside a message characters pile up until the buffer is full; then all of it is lost. */
  lemma {:induction false} ReadPilesUp(f: Feed, s: string)
    requires f.rest != "" && |f.rest| < MAX_BUF_SIZE && Hidden(f.rest + s, ETX)
    ensures |f.rest| + |s| < MAX_BUF_SIZE ==> Read(f, s) == Feed(f.msgs, f.rest + s)
    ensures |f.rest| + |s| == MAX_BUF_SIZE ==> Read(f, s) == Feed(f.msgs, "")
    ensures |f.rest| + |s| <= MAX_BUF_SIZE ==> Enclosed(f, s)
    decreases |s|
  {
    if s == "" {
      assert f.rest + s == f.rest;
    } else if |f.rest| + |s| <= MAX_BUF_SIZE {
      HiddenNext(f.rest, s);
      if |f.rest| + 1 == MAX_BUF_SIZE {
        assert s[1..] == "";
      } else {
        assert (f.rest + [s[0]]) + s[1..] == f.rest + s;
        ReadPilesUp(Feed(f.msgs, f.rest + [s[0]]), s[1..]);
      }
    }
  }

  lemma HiddenNext(a: string, s: string)
    requires s != "" && Hidden(a + s, ETX)
    ensures s[0] == ETX ==> NUL in a
  {
    assert (a + s)[|a|] == s[0] && (a + s)[..|a|] == a;
  }

  // ---------- where a NUL does harm ----------

  /** No NUL is read between messages. */
  ghost predicate Enclosed(f: Feed, s: string)
    decreases |s|
  {
    s != "" ==> (f.rest == "" ==> s[0] != NUL) && Enclosed(Next(f, s[0]), s[1..])
  }

  /** Behind a NUL that is read between messages no message begins. */
  ghost predicate Harmless(f: Feed, s: string)
    decreases |s|
  {
    s != "" ==> (f.rest == "" && s[0] == NUL ==> STX !in s[1..]) && Harmless(Next(f, s[0]), s[1..])
  }

  lemma {:induction false} HarmlessAfter(f: Feed, a: string, b: string)
    requires Enclosed(f, a)
    ensures Harmless(f, a + b) <==> Harmless(Read(f, a), b)
    decreases |a|
  {
    if a == "" {
      assert a + b == b;
    } else {
      assert (a + b)[0] == a[0] && (a + b)[1..] == a[1..] + b;
      HarmlessAfter(Next(f, a[0]), a[1..], b);
    }
  }

  lemma {:induction false} HarmlessByRest(f: Feed, g: Feed, s: string)
    requires f.rest == g.rest
    ensures Harmless(f, s) <==> Harmless(g, s)
    decreases |s|
  {
    if s != "" { HarmlessByRest(Next(f, s[0]), Next(g, s[0]), s[1..]); }
  }

  lemma {:induction false} NoNulIsEnclosed(f: Feed, s: string)
    requires NUL !in s
    ensures Enclosed(f, s)
    decreases |s|
  {
    if s != "" { NoNulIsEnclosed(Next(f, s[0]), s[1..]); }
  }

  lemma {:induction false} NothingBegins(f: Feed, s: string)
    requires f.rest == "" && STX !in s
    ensures Harmless(f, s)
    decreases |s|
  {
    if s != "" { NothingBegins(f, s[1..]); }
  }

  /** If every STX has a NUL before it, there is none, or there is harm. */
  lemma {:induction false} HiddenDoesHarm(f: Feed, s: string)
    requires f.rest == "" && Hidden(s, STX) && STX in s
    ensures !Harmless(f, s)
    decreases |s|
  {
    if s[0] != NUL {
      var t := s[1..];
      forall k | 0 <= k < |t| && t[k] == STX ensures NUL in t[..k] {
        assert s[k + 1] == STX && s[..k + 1] == [s[0]] + t[..k];
      }
      assert s[..0] == "" && s[0] != STX;
      HiddenDoesHarm(f, t);
    }
  }

  /** A text too short to fill the buffer leaves a trace once a message has begun. */
  lemma {:induction false} LeavesATrace(f: Feed, s: string)
    requires f.msgs != [] || (f.rest != "" && |f.rest| + |s| < MAX_BUF_SIZE)
    ensures Read(f, s).msgs != [] || Read(f, s).rest != ""
    decreases |s|
  {
    if s != "" { LeavesATrace(Next(f, s[0]), s[1..]); }
  }

  lemma {:induction false} BeginningsAreSeen(s: string)
    requires STX in s && |s| <= MAX_BUF_SIZE && s[0] != STX
    ensures Read(START, s) != START
    decreases |s|
  {
    var t := s[1..];
    assert Next(START, s[0]) == START;
    if t[0] == STX {
      assert Next(START, STX) == Feed([], [STX]);
      LeavesATrace(Feed([], [STX]), t[1..]);
    } else {
      BeginningsAreSeen(t);
    }
  }

  const START := Feed([], "")

  lemma ReadOne(f: Feed, x: char)
    ensures Read(f, [x]) == Next(f, x)
  {
    assert [x][1..] == "";
  }

  /** An unfinished message is kept, unless it fills the buffer. */
  lemma ReadUnfinished(v: string)
    requires v != "" && v[0] == STX && |v| <= MAX_BUF_SIZE && Hidden(v, ETX)
    ensures Read(START, v) == Feed([], if |v| == MAX_BUF_SIZE then "" else v)
    ensures Enclosed(START, v)
  {
    var first := Feed([], [STX]);
    assert Next(START, v[0]) == first;
    assert [STX] + v[1..] == v;
    ReadPilesUp(first, v[1..]);
  }

  /** A finished message comes out. */
  lemma ReadFinished(text: string)
    requires text != "" && text[0] == STX && |text| < MAX_BUF_SIZE && ETX !in text && NUL !in text
    ensures Read(START, text + [ETX]) == Feed([text[1..]], "")
  {
    ReadUnfinished(text);
    ReadAppend(START, text, [ETX]);
    ReadOne(Feed([], text), ETX);
    assert [] + [text[1..]] == [text[1..]];
  }

  lemma SkipToStart(text: string, before: string, v: string)
    requires text == before + v && STX !in before && NUL !in before
    ensures Read(START, text) == Read(START, v) && (Harmless(START, text) <==> Harmless(START, v))
  {
    ReadAppend(START, before, v);
    NoNulIsEnclosed(START, before);
    HarmlessAfter(START, before, v);
    ReadSkips(START, before);
  }

  lemma Parts(v: string, e: nat)
    requires 1 <= e < |v| && v[e] == ETX
    ensures v == (v[..e] + [ETX]) + v[e + 1..] && v[..e][0] == v[0] && v[..e][1..] == v[1..e]
  {
  }

  lemma ReadMessage(v: string, text: string, rest: string)
    requires text != "" && text[0] == STX && |text| < MAX_BUF_SIZE && ETX !in text && NUL !in text
    requires v == (text + [ETX]) + rest
    ensures Read(START, v) == After([text[1..]], Read(START, rest))
    ensures Harmless(START, v) <==> Harmless(START, rest)
  {
    var m := text[1..];
    ReadFinished(text);
    ReadAppend(START, text + [ETX], rest);
    NoNulIsEnclosed(START, text + [ETX]);
    HarmlessAfter(START, text + [ETX], rest);
    HarmlessByRest(Feed([m], ""), START, rest);
    ReadCarries([m], START, rest);
    assert After([m], START) == Feed([m], "") by { assert [m] + [] == [m]; }
  }

  lemma UnfinishedIsHarmless(v: string)
    requires v != "" && v[0] == STX && |v| <= MAX_BUF_SIZE && Hidden(v, ETX)
    ensures Harmless(START, v)
  {
    ReadUnfinished(v);
    HarmlessAfter(START, v, "");
    assert v + "" == v;
  }

  lemma SameTail(m: string, f: Feed, g: Feed)
    ensures After([m], f) == After([m], g) <==> f == g
  {
    assert After([m], f).msgs[1..] == f.msgs && After([m], g).msgs[1..] == g.msgs;
  }

  /** Draining is reading exactly when there is no harm. */
  ghost predicate Right(text: string) {
    Drain(text) == Read(START, text) <==> Harmless(START, text)
  }

  lemma FinishedFirst(text: string, v: string, m: string, rest: string)
    requires NextMsg(text) == Found(Some(m), rest) && Right(rest)
    requires Read(START, text) == Read(START, v) && (Harmless(START, text) <==> Harmless(START, v))
    requires Read(START, v) == After([m], Read(START, rest)) && (Harmless(START, v) <==> Harmless(START, rest))
    ensures Right(text)
  {
    SameTail(m, Drain(rest), Read(START, rest));
  }

  lemma UnfinishedFirst(text: string, v: string)
    requires v != "" && v[0] == STX && |v| <= MAX_BUF_SIZE && Hidden(v, ETX)
    requires NextMsg(text) == Found(None, if |v| == MAX_BUF_SIZE then "" else v)
    requires Read(START, text) == Read(START, v) && (Harmless(START, text) <==> Harmless(START, v))
    ensures Right(text)
  {
    ReadUnfinished(v);
    UnfinishedIsHarmless(v);
  }

  lemma Beginning(text: string, before: string, v: string)
    requires text == before + v && STX !in before && NUL !in before
    requires v != "" && v[0] == STX && |v| <= MAX_BUF_SIZE && NextMsg(text) == FirstMsg(v)
    requires NextMsg(text).msg.Some? ==> Right(NextMsg(text).rest)
    ensures Right(text)
  {
    SkipToStart(text, before, v);
    var e := Search(v, ETX);
    if e < |v| {
      Parts(v, e);
      ReadMessage(v, v[..e], v[e + 1..]);
      FinishedFirst(text, v, v[1..e], v[e + 1..]);
    } else {
      UnfinishedFirst(text, v);
    }
  }

  lemma {:induction false} AllRight(text: string)
    requires |text| <= MAX_BUF_SIZE
    ensures Right(text)
    decreases |text|
  {
    var i := Search(text, STX);
    if i < |text| {
      if NextMsg(text).msg.Some? { AllRight(NextMsg(text).rest); }
      Beginning(text, text[..i], text[i..]);
    } else {
      NothingFound(text);
    }
  }

  /**
   Draining a buffer is reading it one character at a time exactly when no message begins behind a
   NUL that stands between messages.
   */
  lemma DrainIsReadExactlyWhen(text: string)
    requires |text| <= MAX_BUF_SIZE
    ensures Drain(text) == Read(START, text) <==> Harmless(START, text)
  {
    AllRight(text);
  }

  lemma NothingFound(text: string)
    requires |text| <= MAX_BUF_SIZE && Hidden(text, STX)
    ensures Read(START, text) == START <==> Harmless(START, text)
  {
    if STX in text {
      HiddenDoesHarm(START, text);
      assert text[..0] == "" && text[0] != STX;
      BeginningsAreSeen(text);
    } else {
      NothingBegins(START, text);
      ReadSkips(START, text);
    }
  }

  // ---------- any chunks that recv may return ----------

  /** The receiver's state after some chunks. */
  function Received(chunks: seq<string>): Feed {
    if chunks == [] then START
    else
      var f := Received(chunks[..|chunks| - 1]);
      After(f.msgs, Drain(f.rest + chunks[|chunks| - 1]))
  }

  /** Each chunk fits into what the buffer has free when it arrives. */
  predicate Fit(chunks: seq<string>) {
    chunks == [] ||
    (Fit(chunks[..|chunks| - 1]) && |Received(chunks[..|chunks| - 1]).rest| + |chunks[|chunks| - 1]| <= MAX_BUF_SIZE)
  }

  ghost predicate IsRest(s: string) {
    s == "" || (s[0] == STX && Hidden(s, ETX) && |s| < MAX_BUF_SIZE)
  }

  lemma {:induction false} ReadLeavesRest(f: Feed, s: string)
    requires IsRest(f.rest)
    ensures IsRest(Read(f, s).rest)
    decreases |s|
  {
    if s != "" {
      if f.rest != "" && (s[0] == ETX ==> NUL in f.rest) { HiddenGrows(f.rest, s[0]); }
      ReadLeavesRest(Next(f, s[0]), s[1..]);
    }
  }

  lemma HiddenGrows(s: string, x: char)
    requires Hidden(s, ETX) && (x == ETX ==> NUL in s)
    ensures Hidden(s + [x], ETX)
  {
    assert forall k :: 0 <= k <= |s| ==> (s + [x])[..k] == s[..k];
    assert s[..|s|] == s;
  }

  lemma RestReads(s: string)
    requires IsRest(s)
    ensures Read(START, s) == Feed([], s) && Enclosed(START, s)
  {
    if s != "" { ReadUnfinished(s); }
  }

  lemma SameAfter(msgs: seq<string>, f: Feed, g: Feed)
    ensures After(msgs, f) == After(msgs, g) <==> f == g
  {
    assert After(msgs, f).msgs[|msgs|..] == f.msgs && After(msgs, g).msgs[|msgs|..] == g.msgs;
  }

  /** One chunk is taken as the reference reads it exactly when it is harmless there. */
  lemma OneChunk(f: Feed, chunk: string)
    requires IsRest(f.rest) && |f.rest| + |chunk| <= MAX_BUF_SIZE
    ensures After(f.msgs, Drain(f.rest + chunk)) == Read(f, chunk) <==> Harmless(f, chunk)
  {
    RestReads(f.rest);
    HarmlessByRest(f, Feed([], f.rest), chunk);
    HarmlessAfter(START, f.rest, chunk);
    DrainIsReadExactlyWhen(f.rest + chunk);
    ReadAppend(START, f.rest, chunk);
    ReadCarries(f.msgs, Feed([], f.rest), chunk);
    assert After(f.msgs, Feed([], f.rest)) == f by { assert f.msgs + [] == f.msgs; }
    SameAfter(f.msgs, Drain(f.rest + chunk), Read(START, f.rest + chunk));
  }

  lemma ReceivedNext(chunks: seq<string>, chunk: string)
    ensures Received(chunks + [chunk]) == After(Received(chunks).msgs, Drain(Received(chunks).rest + chunk))
    ensures Joined(chunks + [chunk]) == Joined(chunks) + chunk
    ensures Fit(chunks + [chunk]) <==> Fit(chunks) && |Received(chunks).rest| + |chunk| <= MAX_BUF_SIZE
  {
    assert (chunks + [chunk])[..|chunks|] == chunks;
  }

  /** The code stands where the reference stands. */
  ghost predicate Agree(chunks: seq<string>) {
    Received(chunks) == Read(START, Joined(chunks))
  }

  lemma AgreeNext(chunks: seq<string>, chunk: string)
    requires Fit(chunks + [chunk]) && Agree(chunks)
    ensures Agree(chunks + [chunk]) <==> Harmless(Read(START, Joined(chunks)), chunk)
  {
    ReceivedNext(chunks, chunk);
    ReadLeavesRest(START, Joined(chunks));
    ReadAppend(START, Joined(chunks), chunk);
    OneChunk(Received(chunks), chunk);
  }

  /** Code and reference agree after each chunk. */
  ghost predicate AgreeThroughout(chunks: seq<string>) {
    chunks == [] || (AgreeThroughout(chunks[..|chunks| - 1]) && Agree(chunks))
  }

  /** Each chunk is harmless where the reference stands when it comes. */
  ghost predicate HarmlessThroughout(chunks: seq<string>) {
    chunks == [] ||
    (HarmlessThroughout(chunks[..|chunks| - 1]) &&
     Harmless(Read(START, Joined(chunks[..|chunks| - 1])), chunks[|chunks| - 1]))
  }

  /** For any chunks: they agree all the way exactly when each of them is harmless where it comes. */
  lemma {:induction false} ChunksAgreeExactlyWhen(chunks: seq<string>)
    requires Fit(chunks)
    ensures AgreeThroughout(chunks) <==> HarmlessThroughout(chunks)
  {
    if chunks != [] {
      var some, chunk := chunks[..|chunks| - 1], chunks[|chunks| - 1];
      ChunksAgreeExactlyWhen(some);
      assert chunks == some + [chunk];
      if AgreeThroughout(some) {
        assert Agree(some);
        AgreeNext(some, chunk);
      }
    }
  }

  // ---------- any cutting of a stream ----------

  /** What of a text can be in the buffer together. */
  function Window(s: string): string {
    if |s| <= MAX_BUF_SIZE then s else s[..MAX_BUF_SIZE]
  }

  /** Between a NUL that is read between messages and the next beginning lies a bufferful. */
  ghost predicate Spaced(f: Feed, s: string)
    decreases |s|
  {
    s != "" ==> (f.rest == "" && s[0] == NUL ==> STX !in Window(s)) && Spaced(Next(f, s[0]), s[1..])
  }

  lemma {:induction false} SpacedChunk(f: Feed, chunk: string)
    requires Spaced(f, chunk) && |chunk| <= MAX_BUF_SIZE
    ensures Harmless(f, chunk)
    decreases |chunk|
  {
    if chunk != "" { SpacedChunk(Next(f, chunk[0]), chunk[1..]); }
  }

  lemma {:induction false} SpacedParts(f: Feed, a: string, b: string)
    requires Spaced(f, a + b)
    ensures Spaced(f, a) && Spaced(Read(f, a), b)
    decreases |a|
  {
    if a == "" {
      assert a + b == b;
    } else {
      assert (a + b)[0] == a[0] && (a + b)[1..] == a[1..] + b;
      assert Window(a) <= Window(a + b);
      SpacedParts(Next(f, a[0]), a[1..], b);
    }
  }

  lemma SpacedNext(some: seq<string>, chunk: string)
    requires Fit(some + [chunk]) && Agree(some) && Spaced(Read(START, Joined(some)), chunk)
    ensures Agree(some + [chunk])
  {
    ReceivedNext(some, chunk);
    SpacedChunk(Read(START, Joined(some)), chunk);
    AgreeNext(some, chunk);
  }

  lemma {:induction false} SpacedAgrees(chunks: seq<string>)
    requires Fit(chunks) && Spaced(START, Joined(chunks))
    ensures Agree(chunks)
  {
    if chunks != [] {
      var some, chunk := chunks[..|chunks| - 1], chunks[|chunks| - 1];
      SpacedParts(START, Joined(some), chunk);
      SpacedAgrees(some);
      assert chunks == some + [chunk];
      SpacedNext(some, chunk);
    }
  }

  /** One character at a time. */
  ghost function Ones(s: string): seq<string> {
    if s == "" then [] else Ones(s[..|s| - 1]) + [[s[|s| - 1]]]
  }

  lemma OneMore(chunks: seq<string>, x: char)
    requires Fit(chunks) && Agree(chunks)
    ensures Fit(chunks + [[x]]) && Joined(chunks + [[x]]) == Joined(chunks) + [x] && Agree(chunks + [[x]])
  {
    ReadLeavesRest(START, Joined(chunks));
    ReceivedNext(chunks, [x]);
    assert [x][1..] == "";
    AgreeNext(chunks, [x]);
  }

  lemma {:induction false} OnesAgree(s: string)
    ensures Fit(Ones(s)) && Joined(Ones(s)) == s && Agree(Ones(s))
  {
    if s != "" {
      var n := |s| - 1;
      var some := s[..n];
      assert s == some + [s[n]] && Ones(s) == Ones(some) + [[s[n]]];
      OnesAgree(some);
      OneMore(Ones(some), s[n]);
    }
  }

  lemma {:induction false} FindHarm(f: Feed, s: string) returns (p: nat)
    requires !Spaced(f, s)
    ensures p < |s| && Read(f, s[..p]).rest == "" && s[p] == NUL && STX in Window(s[p..])
    decreases |s|
  {
    if f.rest == "" && s[0] == NUL && STX in Window(s) {
      p := 0;
      assert s[..0] == "" && s[0..] == s;
    } else {
      var q := FindHarm(Next(f, s[0]), s[1..]);
      p := q + 1;
      assert s[..p][0] == s[0] && s[..p][1..] == s[1..][..q] && s[p..] == s[1..][q..];
    }
  }

  lemma WindowIsHarmful(f: Feed, t: string)
    requires t != "" && f.rest == "" && t[0] == NUL && STX in Window(t)
    ensures !Harmless(f, Window(t))
  {
    var w := Window(t);
    var k :| 0 <= k < |w| && w[k] == STX;
    assert w[0] == NUL && w[1..][k - 1] == STX;
  }

  lemma JoinedBefore(s: string, p: nat)
    requires p < |s|
    ensures s[..p] + Window(s[p..]) <= s
  {
    assert s[..p] + Window(s[p..]) == s[..p + |Window(s[p..])|];
  }

  /** A cutting that brings the NUL and the beginning into the buffer together. */
  lemma HarmfulCut(s: string) returns (chunks: seq<string>)
    requires !Spaced(START, s)
    ensures Fit(chunks) && Joined(chunks) <= s && !Agree(chunks)
  {
    var p := FindHarm(START, s);
    var before, chunk := Ones(s[..p]), Window(s[p..]);
    OnesAgree(s[..p]);
    ReceivedNext(before, chunk);
    AgreeNext(before, chunk);
    WindowIsHarmful(Read(START, s[..p]), s[p..]);
    JoinedBefore(s, p);
    chunks := before + [chunk];
  }

  /** Whatever recv has returned of the stream so far, the code stands where the reference stands. */
  ghost predicate CutsDoNotMatter(s: string) {
    forall chunks :: Fit(chunks) && Joined(chunks) <= s ==> Agree(chunks)
  }

  /**
   What is received of a stream never depends on how recv cuts it exactly when a NUL between messages
   and the next beginning never fit into the buffer together.
   */
  lemma CutsDoNotMatterExactlyWhen(s: string)
    ensures CutsDoNotMatter(s) <==> Spaced(START, s)
  {
    if Spaced(START, s) {
      forall chunks | Fit(chunks) && Joined(chunks) <= s ensures Agree(chunks) {
        var a := Joined(chunks);
        assert s == a + s[|a|..];
        SpacedParts(START, a, s[|a|..]);
        SpacedAgrees(chunks);
      }
    } else {
      var chunks := HarmfulCut(s);
    }
  }

  lemma {:induction false} NoNulIsSpaced(f: Feed, s: string)
    requires NUL !in s
    ensures Spaced(f, s)
    decreases |s|
  {
    if s != "" { NoNulIsSpaced(Next(f, s[0]), s[1..]); }
  }

  // ---------- framed messages ----------

  predicate Plain(m: string) {
    STX !in m && ETX !in m && NUL !in m
  }

  /** The messages whose frames the buffer can hold. */
  function Fitting(ms: seq<string>): seq<string> {
    if ms == [] then [] else (if |ms[0]| + 2 <= MAX_BUF_SIZE then [ms[0]] else []) + Fitting(ms[1..])
  }

  lemma ReadFrame(msgs: seq<string>, m: string)
    requires Plain(m)
    ensures Read(Feed(msgs, ""), Framed(m)) == Feed(if |m| + 2 <= MAX_BUF_SIZE then msgs + [m] else msgs, "")
  {
    var f, first := Feed(msgs, ""), Feed(msgs, [STX]);
    assert Framed(m)[0] == STX && Framed(m)[1..] == m + [ETX];
    assert [ETX][1..] == "";
    if |m| + 2 <= MAX_BUF_SIZE {
      ReadPilesUp(first, m);
      ReadAppend(first, m, [ETX]);
      assert NUL !in [STX] + m;
      assert ([STX] + m)[1..] == m;
    } else {
      var k := MAX_BUF_SIZE - 1;
      ReadPilesUp(first, m[..k]);
      ReadAppend(first, m[..k], m[k..] + [ETX]);
      assert m + [ETX] == m[..k] + (m[k..] + [ETX]);
      ReadSkips(f, m[k..] + [ETX]);
    }
  }

  lemma {:induction false} ReadFrames(msgs: seq<string>, ms: seq<string>)
    requires forall i :: 0 <= i < |ms| ==> Plain(ms[i])
    ensures Read(Feed(msgs, ""), FramedAll(ms)) == Feed(msgs + Fitting(ms), "")
    decreases |ms|
  {
    if ms == [] {
      assert msgs + [] == msgs;
    } else {
      ReadFrame(msgs, ms[0]);
      ReadAppend(Feed(msgs, ""), Framed(ms[0]), FramedAll(ms[1..]));
      var msgs' := if |ms[0]| + 2 <= MAX_BUF_SIZE then msgs + [ms[0]] else msgs;
      ReadFrames(msgs', ms[1..]);
      FittingGrows(msgs, ms);
    }
  }

  lemma {:induction false} FittingGrows(msgs: seq<string>, ms: seq<string>)
    requires ms != []
    ensures (if |ms[0]| + 2 <= MAX_BUF_SIZE then msgs + [ms[0]] else msgs) + Fitting(ms[1..]) == msgs + Fitting(ms)
  {
    var rest := Fitting(ms[1..]);
    assert (msgs + [ms[0]]) + rest == msgs + ([ms[0]] + rest);
    assert [] + rest == rest;
  }

  ghost function FittingAt(ms: seq<string>): set<nat> {
    set i: nat | i < |ms| && |ms[i]| <= 19998
  }

  /** The messages of at most 19998 characters, in order. */
  ghost predicate AreThoseThatFit(out: seq<string>, ms: seq<string>) {
    exists at :: Lists(at, FittingAt(ms)) && Picks(at, out, ms)
  }

  lemma {:induction false} FittingAppend(ms: seq<string>, m: string)
    ensures Fitting(ms + [m]) == Fitting(ms) + if |m| + 2 <= MAX_BUF_SIZE then [m] else []
  {
    if ms == [] {
      assert ms + [m] == [m] && [m][1..] == [];
    } else {
      assert (ms + [m])[0] == ms[0] && (ms + [m])[1..] == ms[1..] + [m];
      FittingAppend(ms[1..], m);
    }
  }

  lemma {:induction false} FittingIsListed(ms: seq<string>) returns (at: seq<nat>)
    ensures Lists(at, FittingAt(ms)) && Picks(at, Fitting(ms), ms)
    decreases |ms|
  {
    if ms == [] {
      at := [];
    } else {
      var n := |ms| - 1;
      var some, m := ms[..n], ms[n];
      at := FittingIsListed(some);
      assert ms == some + [m];
      FittingAppend(some, m);
      assert FittingAt(ms) == FittingAt(some) + if |m| <= 19998 then {n} else {};
      if |m| <= 19998 {
        ListsNext(at, FittingAt(some), n);
        at := at + [n];
      }
    }
  }

  lemma {:induction false} FramesHaveNoNul(ms: seq<string>)
    requires forall i :: 0 <= i < |ms| ==> Plain(ms[i])
    ensures NUL !in FramedAll(ms)
  {
    if ms != [] { FramesHaveNoNul(ms[1..]); }
  }

  /**
   However the stream of framed messages is cut by recv, exactly the messages whose frames fit the
   buffer come out, once each and in order, and nothing is left over.
   */
  lemma {:induction false} FittingFramesComeOut(ms: seq<string>, chunks: seq<string>)
    requires (forall i :: 0 <= i < |ms| ==> Plain(ms[i])) && Fit(chunks) && Joined(chunks) == FramedAll(ms)
    ensures AreThoseThatFit(Received(chunks).msgs, ms) && Received(chunks).rest == ""
  {
    var at := FittingIsListed(ms);
    FramesHaveNoNul(ms);
    NoNulIsSpaced(START, FramedAll(ms));
    SpacedAgrees(chunks);
    ReadFrames([], ms);
    assert [] + Fitting(ms) == Fitting(ms);
  }

  /** A NUL hides all that follows it in the buffer. */
  lemma NulDropsTheRest(s: string)
    ensures Drain([NUL] + s) == START
  {
    SearchStops([NUL] + s, STX, 0);
  }

  lemma FrameComesOut(m: string)
    requires Plain(m) && |m| + 2 <= MAX_BUF_SIZE
    ensures Drain(Framed(m)) == Feed([m], "")
  {
    NoNulIsSpaced(START, Framed(m));
    SpacedChunk(START, Framed(m));
    DrainIsReadExactlyWhen(Framed(m));
    ReadFrame([], m);
    assert [] + [m] == [m];
  }

  /**
   With a NUL between messages the cut does matter: whatever came before, the next message is lost
   when it comes in one chunk with the NUL, and comes out when it does not.
   */
  lemma NulBetweenMessages(before: seq<string>, m: string)
    requires Received(before).rest == "" && Plain(m) && |m| + 3 <= MAX_BUF_SIZE
    ensures Received(before + [[NUL] + Framed(m)]) == Received(before)
    ensures Received(before + [[NUL]] + [Framed(m)]) == Feed(Received(before).msgs + [m], "")
  {
    var msgs := Received(before).msgs;
    assert msgs + [] == msgs;
    assert forall s: string :: "" + s == s;
    ReceivedNext(before, [NUL] + Framed(m));
    NulDropsTheRest(Framed(m));
    ReceivedNext(before, [NUL]);
    NulDropsTheRest("");
    assert [NUL] + "" == [NUL];
    ReceivedNext(before + [[NUL]], Framed(m));
    FrameComesOut(m);
  }
}
