/** Live and cached answers as streams: the producers, the gateway's proxy and its replay, and how they agree. */
module Streams {
  import opened Collections
  import opened Text
  import opened Json
  import opened Chunks
  import opened Sse

  // ---------------------------------------------------------------- what is sent

  /** The first word as it is, every other after a blank. */
  function Piece(ws: seq<string>, i: nat): string
    requires i < |ws|
  {
    if i > 0 then " " + ws[i] else ws[i]
  }

  function Pieces(ws: seq<string>): seq<string> {
    seq(|ws|, i requires 0 <= i < |ws| => Piece(ws, i))
  }

  /** The role first, then a delta a word, then the closing one. */
  function Script(ws: seq<string>): (ds: seq<Delta>)
    ensures |ds| == |ws| + 2 && ds[0] == Role && ds[|ws| + 1] == Closing
    ensures forall i :: 0 <= i < |ws| ==> ds[i + 1] == Content(Piece(ws, i))
  {
    [Role] + seq(|ws|, i requires 0 <= i < |ws| => Content(Piece(ws, i))) + [Closing]
  }

  function Texts(ds: seq<Delta>): (ts: seq<string>)
    ensures |ts| == |ds| && forall i :: 0 <= i < |ds| ==> ts[i] == TextOf(ds[i])
  {
    seq(|ds|, i requires 0 <= i < |ds| => TextOf(ds[i]))
  }

  function Payload(dialect: Dialect, m: Meta, d: Delta): string {
    Print(Chunk(dialect, m, d))
  }

  function Events(dialect: Dialect, m: Meta, ds: seq<Delta>): (es: seq<string>)
    ensures |es| == |ds| && forall i :: 0 <= i < |ds| ==> es[i] == Event(Payload(dialect, m, ds[i]))
  {
    seq(|ds|, i requires 0 <= i < |ds| => Event(Payload(dialect, m, ds[i])))
  }

  /** The lengths of the data lines. */
  function Sizes(dialect: Dialect, m: Meta, ds: seq<Delta>): (sizes: seq<nat>)
    ensures |sizes| == |ds| && forall i :: 0 <= i < |ds| ==> sizes[i] == |PREFIX| + |Payload(dialect, m, ds[i])|
  {
    seq(|ds|, i requires 0 <= i < |ds| => |PREFIX| + |Payload(dialect, m, ds[i])|)
  }

  lemma ChunkSplits(dialect: Dialect, m: Meta, d: Delta)
    ensures Splits(LineDelta, Event(Payload(dialect, m, d)), TextOf(d), |PREFIX| + |Payload(dialect, m, d)|)
  {
    ChunkDecodes(dialect, m, d);
    ObjectCarries(Chunk(dialect, m, d), TextOf(d));
    CarriesSplits(Payload(dialect, m, d), TextOf(d));
  }

  lemma EventsSplit(dialect: Dialect, m: Meta, ds: seq<Delta>)
    ensures AllSplit(LineDelta, Events(dialect, m, ds), Texts(ds), Sizes(dialect, m, ds))
  {
    forall i | 0 <= i < |ds|
      ensures Splits(LineDelta, Events(dialect, m, ds)[i], Texts(ds)[i], Sizes(dialect, m, ds)[i])
    {
      ChunkSplits(dialect, m, ds[i]);
    }
  }

  /** The first n events of a stream of words. */
  function Part(dialect: Dialect, m: Meta, ws: seq<string>, n: nat): string
    requires n <= |ws| + 2
  {
    Frames(Events(dialect, m, Script(ws)), n)
  }

  function Stream(dialect: Dialect, m: Meta, ws: seq<string>): string {
    Part(dialect, m, ws, |ws| + 2) + Event(DONE)
  }

  lemma PartNext(dialect: Dialect, m: Meta, ws: seq<string>, i: nat)
    requires i < |ws| + 2
    ensures Part(dialect, m, ws, i + 1) == Part(dialect, m, ws, i) + Event(Payload(dialect, m, Script(ws)[i]))
  {}

  lemma ScriptTexts(ws: seq<string>)
    ensures Texts(Script(ws)) == [""] + Pieces(ws) + [""]
  {}

  lemma {:induction false} FlattenPieces(ws: seq<string>)
    ensures Flatten(Pieces(ws)) == Join(ws)
  {
    if ws != [] {
      var n := |ws| - 1;
      FlattenPieces(ws[..n]);
      assert Pieces(ws)[..n] == Pieces(ws[..n]);
    }
  }

  /** How many words the first n deltas of a script spell. */
  function Spelled(total: nat, n: nat): (k: nat)
    ensures k <= total
  {
    if n == 0 then 0 else if n > total then total else n - 1
  }

  lemma PartTexts(ws: seq<string>, n: nat)
    requires n <= |ws| + 2
    ensures var mine := Pieces(ws[..Spelled(|ws|, n)]);
            Texts(Script(ws))[..n]
              == if n == 0 then [] else if n == |ws| + 2 then [""] + mine + [""] else [""] + mine
  {
    ScriptTexts(ws);
    assert Pieces(ws)[..Spelled(|ws|, n)] == Pieces(ws[..Spelled(|ws|, n)]);
  }

  lemma EmptyEnds(parts: seq<string>)
    ensures Flatten([""] + parts) == Flatten(parts) == Flatten([""] + parts + [""])
  {
    FlattenFirst("", parts);
    FlattenAppend([""] + parts, [""]);
    assert Flatten([""]) == "";
  }

  /** Any first part of the script spells the first few words joined. */
  lemma ScriptPart(ws: seq<string>, n: nat)
    requires n <= |ws| + 2
    ensures Flatten(Texts(Script(ws))[..n]) == Join(ws[..Spelled(|ws|, n)])
  {
    var k := Spelled(|ws|, n);
    PartTexts(ws, n);
    FlattenPieces(ws[..k]);
    EmptyEnds(Pieces(ws[..k]));
  }

  // ---------------------------------------------------------------- the proxy

  datatype StreamError = Cancelled | ReadFailed | WriteFailed

  /** How many times the reader is asked for a line. */
  function Reads(body: string): nat {
    |Lines(body)| + if EndsLine(body) then 1 else 0
  }

  function ProxyError(body: string, broken: bool, cancelAt: nat, failAt: nat): Option<StreamError> {
    if cancelAt <= failAt && cancelAt < Reads(body) then Some(Cancelled)
    else if failAt < |Lines(body)| then Some(WriteFailed)
    else if broken then Some(ReadFailed)
    else None
  }

  /** How many lines reach the client. */
  function Forwarded(body: string, cancelAt: nat, failAt: nat): (k: nat)
    ensures k <= |Lines(body)|
  {
    Min(|Lines(body)|, Min(cancelAt, failAt))
  }

  /** `rest` is what follows the first i lines of the body. */
  ghost predicate LeftToRead(body: string, rest: string, i: nat) {
    && i <= |Lines(body)| && Lines(rest) == Lines(body)[i..]
    && EndsLine(rest) == EndsLine(body)
  }

  lemma ReadLine(body: string, rest: string, i: nat)
    requires LeftToRead(body, rest, i) && rest != ""
    ensures var n := LineLength(rest);
            && i < |Lines(body)| && Lines(body)[i] == rest[..n]
            && (rest[n - 1] == '\n' ==> LeftToRead(body, rest[n..], i + 1))
            && (rest[n - 1] != '\n' ==> i + 1 == |Lines(body)| && !EndsLine(body))
  {
    var n := LineLength(rest);
    if n < |rest| {
      LineEnds(rest);
    }
    assert Lines(rest)[0] == rest[..n] && Lines(rest)[1..] == Lines(rest[n..]);
    assert Lines(body)[i + 1..] == Lines(body)[i..][1..];
  }

  /** What a line adds to the content. */
  function Added(line: string): string {
    if LineDelta(line).Some? then LineDelta(line).value else ""
  }

  lemma ForwardLine(lines: seq<string>, i: nat)
    requires i < |lines|
    ensures Flatten(lines[..i + 1]) == Flatten(lines[..i]) + lines[i]
    ensures Reassemble(lines[..i + 1])
         == Reassemble(lines[..i]) + Added(lines[i])
  {
    assert lines[..i + 1][..i] == lines[..i];
    if LineDelta(lines[i]).Some? {
      var ds := Deltas(LineDelta, lines[..i]);
      assert (ds + [LineDelta(lines[i]).value])[..|ds|] == ds;
    } else {
      assert Deltas(LineDelta, lines[..i]) + [] == Deltas(LineDelta, lines[..i]);
    }
  }

  /** What the proxy has sent, and what it has assembled, when it stops. */
  function SentOn(body: string, cancelAt: nat, failAt: nat): string {
    Flatten(Lines(body)[..Forwarded(body, cancelAt, failAt)])
  }

  function Assembled(body: string, cancelAt: nat, failAt: nat): string {
    Reassemble(Lines(body)[..Forwarded(body, cancelAt, failAt)])
  }

  /** The proxy sends on whole lines from the start of the body: all of them when it ends by itself, with an error
      exactly when the body did, and otherwise those before the stop. */
  lemma ProxyStops(body: string, broken: bool, cancelAt: nat, failAt: nat)
    ensures var sent := SentOn(body, cancelAt, failAt); var err := ProxyError(body, broken, cancelAt, failAt);
            && sent <= body
            && (err in {None, Some(ReadFailed)} ==> sent == body && broken == (err == Some(ReadFailed)))
            && (err == Some(Cancelled) ==> Lines(sent) == Lines(body)[..cancelAt])
            && (err == Some(WriteFailed) ==> Lines(sent) == Lines(body)[..failAt])
            && (err == Some(Cancelled) <==> cancelAt <= failAt && cancelAt < Reads(body))
  {
    var k := Forwarded(body, cancelAt, failAt);
    var j := FirstLines(body, k);
  }

  /** The text a line adds to the content, extracted the way the loop does. */
  method ReadChunk(line: string) returns (added: string)
    ensures added == Added(line)
  {
    added := "";
    if PREFIX <= line {
      var payload := TrimSpace(line[|PREFIX|..]);
      if payload != DONE {
        var chunk := Unmarshal(payload);
        if chunk.Some? {
          var choices := DecodeChunk(chunk.value);
          if choices.Some? && |choices.value| > 0 {
            added := choices.value[0];
          }
        }
      }
    }
  }

  /** The loop has forwarded and assembled the first i lines, and has `rest` to read. */
  ghost predicate Proxied(body: string, rest: string, i: nat, content: string, sent: string) {
    && LeftToRead(body, rest, i)
    && sent == Flatten(Lines(body)[..i]) && content == Reassemble(Lines(body)[..i])
  }

  lemma ProxiedNext(body: string, rest: string, i: nat, content: string, sent: string)
    requires Proxied(body, rest, i, content, sent) && rest != ""
    ensures var n := LineLength(rest);
            var line := rest[..n];
            && i < |Lines(body)|
            && (rest[n - 1] == '\n' ==> Proxied(body, rest[n..], i + 1, content + Added(line), sent + line))
            && (rest[n - 1] != '\n' ==>
                  && i + 1 == |Lines(body)| && !EndsLine(body)
                  && sent + line == Flatten(Lines(body)[..i + 1])
                  && content + Added(line) == Reassemble(Lines(body)[..i + 1]))
  {
    ReadLine(body, rest, i);
    ForwardLine(Lines(body), i);
  }

  /** Reads the body line by line, forwarding each line before looking into it. `broken` tells how the body ends:
      with a read error or properly. The context is cancelled before read cancelAt, the client gone at write failAt.
      Also returns what was sent. */
  method StreamProxy(body: string, broken: bool, cancelAt: nat, failAt: nat)
    returns (content: string, tokens: nat, err: Option<StreamError>, sent: string)
    ensures err == ProxyError(body, broken, cancelAt, failAt)
    ensures sent == SentOn(body, cancelAt, failAt) && content == Assembled(body, cancelAt, failAt)
    ensures tokens == if err == None then |Words(content)| else 0
  {
    content, tokens, sent := "", 0, "";
    var rest, i := body, 0;
    var ended := false;
    while !ended
      invariant i <= cancelAt && i <= failAt && tokens == 0
      invariant !ended ==> Proxied(body, rest, i, content, sent)
      invariant ended ==>
        && i == |Lines(body)| && sent == Flatten(Lines(body)[..i]) && content == Reassemble(Lines(body)[..i])
        && (i == cancelAt ==> !EndsLine(body))
      decreases !ended, |rest|
    {
      if i == cancelAt {
        err := Some(Cancelled);
        return;
      }
      var n := LineLength(rest);
      var line := rest[..n];
      ended := n == 0 || rest[n - 1] != '\n';
      if |line| > 0 {
        ProxiedNext(body, rest, i, content, sent);
        if i == failAt {
          err := Some(WriteFailed);
          return;
        }
        sent := sent + line;
        var added := ReadChunk(line);
        content := content + added;
        i := i + 1;
      }
      rest := rest[n..];
    }
    if broken {
      err := Some(ReadFailed);
      return;
    }
    tokens := |Words(content)|;
    err := None;
  }

  // ---------------------------------------------------------------- agreement

  /** How many deltas of a stream are complete within its first j characters. */
  function DeltasIn(dialect: Dialect, m: Meta, ws: seq<string>, j: nat): (n: nat)
    ensures n <= |ws| + 2
  {
    Complete(Sizes(dialect, m, Script(ws)), |ws| + 2, j)
  }

  /** What a client makes of the first j characters of a stream. */
  lemma CutHeard(dialect: Dialect, m: Meta, ws: seq<string>, j: nat)
    requires j <= |Stream(dialect, m, ws)|
    ensures Heard(LineDelta, Stream(dialect, m, ws)[..j]) == Texts(Script(ws))[..DeltasIn(dialect, m, ws, j)]
  {
    EventsSplit(dialect, m, Script(ws));
    DoneIsSilent();
    var ds := Script(ws);
    StreamCut(LineDelta, Events(dialect, m, ds), Texts(ds), Sizes(dialect, m, ds), Event(DONE), j);
  }

  lemma PartSize(dialect: Dialect, m: Meta, ws: seq<string>, n: nat)
    requires n <= |ws| + 2
    ensures |Part(dialect, m, ws, n)| == Offset(Sizes(dialect, m, Script(ws)), n)
  {
    EventsSplit(dialect, m, Script(ws));
    FramesSize(LineDelta, Events(dialect, m, Script(ws)), Texts(Script(ws)), Sizes(dialect, m, Script(ws)), n);
  }

  lemma AllComplete(dialect: Dialect, m: Meta, ws: seq<string>)
    ensures DeltasIn(dialect, m, ws, |Stream(dialect, m, ws)|) == |ws| + 2
  {
    PartSize(dialect, m, ws, |ws| + 2);
    CompleteAll(Sizes(dialect, m, Script(ws)), |ws| + 2, |Stream(dialect, m, ws)|);
  }

  /** A whole stream carries the role chunk's empty text, a piece a word, and the closing chunk's empty text. */
  lemma StreamHeard(dialect: Dialect, m: Meta, ws: seq<string>)
    ensures Heard(LineDelta, Stream(dialect, m, ws)) == [""] + Pieces(ws) + [""]
  {
    var stream := Stream(dialect, m, ws);
    CutHeard(dialect, m, ws, |stream|);
    AllComplete(dialect, m, ws);
    assert stream[..|stream|] == stream;
    ScriptTexts(ws);
  }

  /** Reassembling a stream, live or replayed, gives its words joined by blanks. */
  lemma StreamReassembles(dialect: Dialect, m: Meta, ws: seq<string>)
    ensures Reassemble(Lines(Stream(dialect, m, ws))) == Join(ws)
  {
    StreamHeard(dialect, m, ws);
    EmptyEnds(Pieces(ws));
    FlattenPieces(ws);
  }

  lemma PiecesInjective(a: seq<string>, b: seq<string>)
    requires [""] + Pieces(a) + [""] == [""] + Pieces(b) + [""]
    ensures a == b
  {
    var x, y := [""] + Pieces(a) + [""], [""] + Pieces(b) + [""];
    assert |a| == |x| - 2 && |b| == |y| - 2;
    forall i | 0 <= i < |a|
      ensures a[i] == b[i]
    {
      assert x[i + 1] == Piece(a, i) && y[i + 1] == Piece(b, i);
      if i > 0 {
        assert a[i] == Piece(a, i)[1..] && b[i] == Piece(b, i)[1..];
      }
    }
  }

  /** Storing a live stream and replaying it gives a client the very deltas of the live stream, in order, exactly
      when every token is a space-free word. */
  lemma CachedStreamIsLiveIff(live: Meta, cached: Meta, ws: seq<string>)
    ensures var stored := Reassemble(Lines(Stream(Live, live, ws)));
            (Heard(LineDelta, Stream(Cached, cached, Words(stored))) == Heard(LineDelta, Stream(Live, live, ws)))
            <==> AllWords(ws)
  {
    StreamReassembles(Live, live, ws);
    StreamHeard(Live, live, ws);
    StreamHeard(Cached, cached, Words(Join(ws)));
    if AllWords(ws) {
      WordsOfJoin(ws);
    } else if [""] + Pieces(Words(Join(ws))) + [""] == [""] + Pieces(ws) + [""] {
      PiecesInjective(Words(Join(ws)), ws);
    }
  }

  /** A replay spells the stored answer with its white space normalised; a second round changes nothing more; the
      answer itself comes through exactly when it was single-spaced to begin with. */
  lemma ReplayNormalises(m: Meta, content: string)
    ensures var spelled := Reassemble(Lines(Stream(Cached, m, Words(content))));
            && spelled == Join(Words(content))
            && Reassemble(Lines(Stream(Cached, m, Words(spelled)))) == spelled
            && (spelled == content <==> SingleSpaced(content))
  {
    StreamReassembles(Cached, m, Words(content));
    WordsOfJoin(Words(content));
    RejoinsIff(content);
  }

  // ---------------------------------------------------------------- what was sent

  const SENTINEL: seq<string> := ["data: [DONE]\n", "\n"]

  /** The text ends with the sentinel and its blank line. */
  ghost predicate EndsWithSentinel(text: string) {
    |Lines(text)| >= 2 && Lines(text)[|Lines(text)| - 2..] == SENTINEL
  }

  /** What a client has got when the first n of the |ws| + 3 events (role, words, closing, sentinel) were sent: a part
      of the stream with the deltas of those events and no other, with the sentinel at its end if it is all of it. */
  ghost predicate SentEvents(dialect: Dialect, m: Meta, ws: seq<string>, n: nat, sent: string) {
    && n <= |ws| + 3
    && sent <= Stream(dialect, m, ws)
    && Heard(LineDelta, sent) == ([""] + Pieces(ws) + [""])[..Min(n, |ws| + 2)]
    && EndsLine(sent)
    && (n == |ws| + 3 <==> sent == Stream(dialect, m, ws))
    && (n == |ws| + 3 <==> EndsWithSentinel(sent))
  }

  /** How many events go out before the stop. */
  function EventsBefore(words: nat, cancelAt: nat, failAt: nat): (n: nat)
    ensures n <= words + 3
  {
    Min(failAt, if cancelAt < words then cancelAt + 1 else words + 3)
  }

  lemma EventLines(payload: string)
    requires OneLine(PREFIX + payload)
    ensures Lines(Event(payload)) == [PREFIX + payload + "\n", "\n"]
  {
    var data := PREFIX + payload;
    assert Event(payload) == data + "\n" + "\n";
    FirstLine(data, "\n");
    LinesStep("\n", "");
    assert "\n" + "" == "\n";
  }

  lemma LastTwoLines(before: string, payload: string)
    requires EndsLine(before) && OneLine(PREFIX + payload)
    ensures var lines := Lines(before + Event(payload));
            |lines| >= 2 && lines[|lines| - 2..] == [PREFIX + payload + "\n", "\n"]
  {
    EventLines(payload);
    LinesAppend(before, Event(payload));
  }

  lemma PartIsPrefix(dialect: Dialect, m: Meta, ws: seq<string>, n: nat)
    requires n <= |ws| + 2
    ensures Part(dialect, m, ws, n) <= Stream(dialect, m, ws)
    ensures |Part(dialect, m, ws, n)| < |Stream(dialect, m, ws)|
  {
    FramesGrow(Events(dialect, m, Script(ws)), n, |ws| + 2);
  }

  lemma PartHeard(dialect: Dialect, m: Meta, ws: seq<string>, n: nat)
    requires n <= |ws| + 2
    ensures EndsLine(Part(dialect, m, ws, n)) && Heard(LineDelta, Part(dialect, m, ws, n)) == Texts(Script(ws))[..n]
  {
    var ds := Script(ws);
    EventsSplit(dialect, m, ds);
    FramesHeard(LineDelta, Events(dialect, m, ds), Texts(ds), Sizes(dialect, m, ds), n);
  }

  /** A chunk's data line is not the sentinel's. */
  lemma ChunkLast(before: string, payload: string)
    requires EndsLine(before) && OneLine(PREFIX + payload) && payload != "" && payload[0] == '{'
    ensures !EndsWithSentinel(before + Event(payload))
  {
    LastTwoLines(before, payload);
    assert (PREFIX + payload + "\n")[6] == '{' && SENTINEL[0][6] == '[';
  }

  lemma PartNoSentinel(dialect: Dialect, m: Meta, ws: seq<string>, n: nat)
    requires n <= |ws| + 2
    ensures !EndsWithSentinel(Part(dialect, m, ws, n))
  {
    if n > 0 {
      var chunk := Chunk(dialect, m, Script(ws)[n - 1]);
      PartHeard(dialect, m, ws, n - 1);
      EventOneLine(chunk);
      PrintEnds(chunk);
      ChunkLast(Part(dialect, m, ws, n - 1), Print(chunk));
      PartNext(dialect, m, ws, n - 1);
    }
  }

  lemma PartSent(dialect: Dialect, m: Meta, ws: seq<string>, n: nat)
    requires n <= |ws| + 2
    ensures SentEvents(dialect, m, ws, n, Part(dialect, m, ws, n))
  {
    PartIsPrefix(dialect, m, ws, n);
    PartHeard(dialect, m, ws, n);
    PartNoSentinel(dialect, m, ws, n);
    ScriptTexts(ws);
  }

  lemma DoneOneLine()
    ensures OneLine(PREFIX + DONE)
  {}

  // ---------------------------------------------------------------- the producers

  lemma DoneEnds(before: string)
    requires EndsLine(before)
    ensures EndsLine(before + Event(DONE)) && EndsWithSentinel(before + Event(DONE))
  {
    DoneOneLine();
    LastTwoLines(before, DONE);
    assert PREFIX + DONE + "\n" == SENTINEL[0];
    EndsAppend(before, Event(DONE));
  }

  lemma WholeEnds(dialect: Dialect, m: Meta, ws: seq<string>)
    ensures EndsLine(Stream(dialect, m, ws)) && EndsWithSentinel(Stream(dialect, m, ws))
  {
    PartHeard(dialect, m, ws, |ws| + 2);
    DoneEnds(Part(dialect, m, ws, |ws| + 2));
  }

  lemma WholeSent(dialect: Dialect, m: Meta, ws: seq<string>)
    ensures SentEvents(dialect, m, ws, |ws| + 3, Stream(dialect, m, ws))
  {
    var all := [""] + Pieces(ws) + [""];
    WholeEnds(dialect, m, ws);
    StreamHeard(dialect, m, ws);
    assert all[..|all|] == all;
  }

  /** What a replay has written when it stops. */
  function Replayed(m: Meta, ws: seq<string>, cancelAt: nat, failAt: nat): (string, Option<StreamError>) {
    if cancelAt < |ws| && cancelAt + 1 <= failAt then (Part(Cached, m, ws, cancelAt + 1), Some(Cancelled))
    else if failAt <= |ws| + 2 then (Part(Cached, m, ws, failAt), Some(WriteFailed))
    else (Stream(Cached, m, ws), None)
  }

  /** A replay fails when the client leaves before a word or a write fails, and has sent the events before that. */
  lemma ReplaySends(m: Meta, ws: seq<string>, cancelAt: nat, failAt: nat)
    ensures var (sent, err) := Replayed(m, ws, cancelAt, failAt);
            && (err == None <==> cancelAt >= |ws| && failAt >= |ws| + 3)
            && (err == Some(Cancelled) <==> cancelAt < |ws| && cancelAt < failAt)
            && err != Some(ReadFailed)
            && SentEvents(Cached, m, ws, EventsBefore(|ws|, cancelAt, failAt), sent)
  {
    var n := EventsBefore(|ws|, cancelAt, failAt);
    if n == |ws| + 3 {
      WholeSent(Cached, m, ws);
    } else {
      PartSent(Cached, m, ws, n);
    }
  }

  /** The loop over the words, after the role chunk. */
  method ReplayWords(m: Meta, words: seq<string>, cancelAt: nat, failAt: nat)
    returns (sent: string, err: Option<StreamError>)
    requires failAt >= 1
    ensures err == None ==> cancelAt >= |words| && failAt > |words| && sent == Part(Cached, m, words, |words| + 1)
    ensures err != None ==>
      && (cancelAt < |words| || failAt <= |words|) && (sent, err) == Replayed(m, words, cancelAt, failAt)
  {
    PartNext(Cached, m, words, 0);
    sent := Event(Payload(Cached, m, Role));
    for i := 0 to |words|
      invariant sent == Part(Cached, m, words, i + 1) && i + 1 <= failAt && i <= cancelAt
    {
      if i == cancelAt {
        err := Some(Cancelled);
        return;
      }
      var piece := words[i];
      if i > 0 {
        piece := " " + words[i];
      }
      PartNext(Cached, m, words, i + 1);
      if failAt == i + 1 {
        err := Some(WriteFailed);
        return;
      }
      sent := sent + Event(Payload(Cached, m, Content(piece)));
    }
    err := None;
  }

  /** Role, words, closing chunk and sentinel, until a write fails or the client leaves. */
  method ReplayEvents(m: Meta, words: seq<string>, cancelAt: nat, failAt: nat)
    returns (sent: string, err: Option<StreamError>)
    ensures (sent, err) == Replayed(m, words, cancelAt, failAt)
  {
    if failAt == 0 {
      return "", Some(WriteFailed);
    }
    sent, err := ReplayWords(m, words, cancelAt, failAt);
    if err != None {
      return;
    }
    PartNext(Cached, m, words, |words| + 1);
    if failAt == |words| + 1 {
      return sent, Some(WriteFailed);
    }
    sent := sent + Event(Payload(Cached, m, Closing));
    if failAt == |words| + 2 {
      return sent, Some(WriteFailed);
    }
    sent := sent + Event(DONE);
  }

  /** Emits a stored answer word by word. The context is found cancelled before word cancelAt; write failAt fails.
      Without an error everything was sent, down to the sentinel; otherwise the events before the stop and no more. */
  method ReplayCachedStream(m: Meta, content: string, cancelAt: nat, failAt: nat)
    returns (sent: string, err: Option<StreamError>)
    ensures (sent, err) == Replayed(m, Words(content), cancelAt, failAt)
    ensures var ws := Words(content);
            && (err == None <==> cancelAt >= |ws| && failAt >= |ws| + 3)
            && (err == Some(Cancelled) <==> cancelAt < |ws| && cancelAt < failAt)
            && SentEvents(Cached, m, ws, EventsBefore(|ws|, cancelAt, failAt), sent)
  {
    var words := Words(content);
    sent, err := ReplayEvents(m, words, cancelAt, failAt);
    ReplaySends(m, words, cancelAt, failAt);
  }

  function Emitted(m: Meta, tokens: seq<string>, cancelAt: nat): string {
    if cancelAt < |tokens| then Part(Live, m, tokens, cancelAt + 1) else Stream(Live, m, tokens)
  }

  lemma EmittedSends(m: Meta, tokens: seq<string>, cancelAt: nat)
    ensures SentEvents(Live, m, tokens, EventsBefore(|tokens|, cancelAt, |tokens| + 3), Emitted(m, tokens, cancelAt))
  {
    if cancelAt < |tokens| {
      PartSent(Live, m, tokens, cancelAt + 1);
    } else {
      WholeSent(Live, m, tokens);
    }
  }

  /** The live backend: one chunk a token, unless its client goes away before token cancelAt. */
  method StreamResponse(m: Meta, tokens: seq<string>, cancelAt: nat) returns (sent: string)
    ensures sent == Emitted(m, tokens, cancelAt)
    ensures SentEvents(Live, m, tokens, EventsBefore(|tokens|, cancelAt, |tokens| + 3), sent)
  {
    EmittedSends(m, tokens, cancelAt);
    PartNext(Live, m, tokens, 0);
    sent := Event(Payload(Live, m, Role));
    for i := 0 to |tokens|
      invariant sent == Part(Live, m, tokens, i + 1) && i <= cancelAt
    {
      if i == cancelAt {
        return;
      }
      var piece := tokens[i];
      if i > 0 {
        piece := " " + tokens[i];
      }
      PartNext(Live, m, tokens, i + 1);
      sent := sent + Event(Payload(Live, m, Content(piece)));
    }
    PartNext(Live, m, tokens, |tokens| + 1);
    sent := sent + Event(Payload(Live, m, Closing));
    sent := sent + Event(DONE);
  }
}
