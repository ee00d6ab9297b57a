/** Server-sent events: lines, the gateway's line reader, and what it recovers from any part of a stream. */
module Sse {
  import opened Collections
  import opened Text
  import opened Json
  import opened Chunks

  // ---------------------------------------------------------------- lines

  /** Up to and including the first line break. */
  function LineLength(s: string): (k: nat)
    ensures k <= |s| && (s != "" ==> k > 0)
  {
    if s == "" then 0 else if s[0] == '\n' then 1 else 1 + LineLength(s[1..])
  }

  function Lines(s: string): seq<string>
    decreases |s|
  {
    if s == "" then [] else [s[..LineLength(s)]] + Lines(s[LineLength(s)..])
  }

  predicate EndsLine(s: string) {
    s != "" ==> s[|s| - 1] == '\n'
  }

  ghost predicate OneLine(s: string) {
    forall i :: 0 <= i < |s| ==> s[i] != '\n'
  }

  lemma {:induction false} LineLengthIs(l: string, rest: string)
    requires OneLine(l)
    ensures LineLength(l + "\n" + rest) == |l| + 1
    ensures LineLength(l) == |l|
  {
    if l != "" {
      assert (l + "\n" + rest)[1..] == l[1..] + "\n" + rest;
      LineLengthIs(l[1..], rest);
    }
  }

  lemma {:induction false} LineEnds(s: string)
    requires LineLength(s) < |s|
    ensures s[LineLength(s) - 1] == '\n'
  {
    if s[0] != '\n' {
      LineEnds(s[1..]);
    }
  }

  lemma FirstLine(l: string, rest: string)
    requires OneLine(l)
    ensures Lines(l + "\n" + rest) == [l + "\n"] + Lines(rest)
  {
    var s := l + "\n" + rest;
    LineLengthIs(l, rest);
    assert s[..|l| + 1] == l + "\n" && s[|l| + 1..] == rest;
  }

  lemma LastLine(l: string)
    requires OneLine(l)
    ensures Lines(l) == if l == "" then [] else [l]
  {
    LineLengthIs(l, "");
    assert l[..|l|] == l && l[|l|..] == "";
  }

  /** One line, ended by a break or by the end of the text. */
  ghost predicate IsLine(l: string, rest: string) {
    l != "" && OneLine(l[..|l| - 1]) && (EndsLine(l) || rest == "")
  }

  lemma LinesStep(l: string, rest: string)
    requires IsLine(l, rest)
    ensures Lines(l + rest) == [l] + Lines(rest)
  {
    var k := |l| - 1;
    if l[k] == '\n' {
      assert l == l[..k] + "\n";
      FirstLine(l[..k], rest);
    } else {
      assert l + rest == l;
      LastLine(l);
    }
  }

  lemma {:induction false} SplitLine(s: string) returns (l: string, rest: string)
    requires s != ""
    ensures s == l + rest && IsLine(l, rest) && (EndsLine(s) ==> EndsLine(l) && EndsLine(rest))
  {
    if s[0] == '\n' || |s| == 1 {
      l, rest := s[..1], s[1..];
    } else {
      l, rest := SplitLine(s[1..]);
      assert s == [s[0]] + l + rest;
      l := [s[0]] + l;
    }
  }

  lemma Regroup<T>(x: T, a: seq<T>, b: seq<T>)
    ensures [x] + (a + b) == ([x] + a) + b
  {}

  /** A text that ends its last line contributes its own lines. */
  lemma {:induction false} LinesAppend(a: string, b: string)
    requires EndsLine(a)
    ensures Lines(a + b) == Lines(a) + Lines(b)
    decreases |a|
  {
    if a == "" {
      assert a + b == b;
    } else {
      var l, rest := SplitLine(a);
      LinesAppend(rest, b);
      assert a + b == l + (rest + b);
      LinesStep(l, rest + b);
      LinesStep(l, rest);
      Regroup(l, Lines(rest), Lines(b));
    }
  }

  lemma FlattenFirst(l: string, more: seq<string>)
    ensures Flatten([l] + more) == l + Flatten(more)
  {
    FlattenAppend([l], more);
    assert Flatten([l]) == l;
  }

  /** The first k lines of a text are the lines of a part of it. */
  lemma {:induction false} FirstLines(s: string, k: nat) returns (j: nat)
    requires k <= |Lines(s)|
    ensures j <= |s| && Lines(s[..j]) == Lines(s)[..k] && Flatten(Lines(s)[..k]) == s[..j]
    ensures k == |Lines(s)| ==> j == |s|
    decreases |s|
  {
    if s == "" || k == 0 {
      j := 0;
    } else {
      var l, rest := SplitLine(s);
      LinesStep(l, rest);
      var i := FirstLines(rest, k - 1);
      j := |l| + i;
      assert s[..j] == l + rest[..i];
      LinesStep(l, rest[..i]);
      FlattenFirst(l, Lines(rest)[..k - 1]);
    }
  }

  // ---------------------------------------------------------------- the reader

  const PREFIX := "data: "
  const DONE := "[DONE]"

  /** What one line adds to the content, if it is a chunk with a choice. */
  function LineDelta(line: string): Option<string> {
    if !(PREFIX <= line) then None
    else
      var payload := TrimSpace(line[|PREFIX|..]);
      if payload == DONE then None
      else
        match Unmarshal(payload)
        case None => None
        case Some(v) =>
          match DecodeChunk(v)
          case None => None
          case Some(choices) => if choices == [] then None else Some(choices[0])
  }

  function Listed<T>(o: Option<T>): seq<T> {
    if o.Some? then [o.value] else []
  }

  /** A way to read one line. */
  type Reader = string -> Option<string>

  /** The content deltas on the wire, in order: what a client sees. */
  function Deltas(read: Reader, lines: seq<string>): seq<string> {
    if lines == [] then [] else Deltas(read, lines[..|lines| - 1]) + Listed(read(lines[|lines| - 1]))
  }

  lemma {:induction false} DeltasAppend(read: Reader, a: seq<string>, b: seq<string>)
    ensures Deltas(read, a + b) == Deltas(read, a) + Deltas(read, b)
  {
    if b == [] {
      assert a + b == a;
    } else {
      var n := |b| - 1;
      assert (a + b)[..|a + b| - 1] == a + b[..n];
      DeltasAppend(read, a, b[..n]);
      Assoc(Deltas(read, a), Deltas(read, b[..n]), Listed(read(b[n])));
    }
  }

  function Heard(read: Reader, body: string): seq<string> {
    Deltas(read, Lines(body))
  }

  lemma HeardAppend(read: Reader, a: string, b: string)
    requires EndsLine(a)
    ensures Heard(read, a + b) == Heard(read, a) + Heard(read, b)
  {
    LinesAppend(a, b);
    DeltasAppend(read, Lines(a), Lines(b));
  }

  lemma DeltasOne(read: Reader, line: string)
    ensures Deltas(read, [line]) == Listed(read(line))
  {
    assert [line][..0] == [];
  }

  lemma HeardFirst(read: Reader, l: string, rest: string)
    requires OneLine(l)
    ensures Heard(read, l + "\n" + rest) == Listed(read(l + "\n")) + Heard(read, rest)
  {
    FirstLine(l, rest);
    DeltasOne(read, l + "\n");
    DeltasAppend(read, [l + "\n"], Lines(rest));
  }

  lemma HeardLast(read: Reader, l: string)
    requires OneLine(l)
    ensures Heard(read, l) == if l == "" then [] else Listed(read(l))
  {
    LastLine(l);
    DeltasOne(read, l);
  }

  /** The assistant's answer as the gateway assembles it. */
  function Reassemble(lines: seq<string>): string {
    Flatten(Deltas(LineDelta, lines))
  }

  // ---------------------------------------------------------------- one event

  /** fmt.Fprintf(w, "data: %s\n\n", ...) */
  function Event(payload: string): string {
    PREFIX + payload + "\n\n"
  }

  lemma PrintEnds(v: Json)
    requires v.Obj?
    ensures |Print(v)| >= 2 && Print(v)[0] == '{' && Print(v)[|Print(v)| - 1] == '}'
  {}

  /** Trimming part of a line whose payload starts with an object leaves part of that object. */
  lemma TrimPart(p: string)
    requires p != "" && p[0] == '{'
    ensures TrimSpace(p) <= p
  {
    TrimRightIsPrefix(p);
  }

  lemma TrimFull(v: Json, tail: string)
    requires v.Obj? && tail in {"", "\n"}
    ensures TrimSpace(Print(v) + tail) == Print(v)
  {
    var s := Print(v) + tail;
    PrintEnds(v);
    assert TrimLeft(s) == s && TrimRight(Print(v)) == Print(v);
    if tail == "\n" {
      assert IsSpace(s[|s| - 1]) && s[..|s| - 1] == Print(v);
    } else {
      assert s == Print(v);
    }
  }

  /** A data line with an object adds the content of its first choice, however many there are. */
  lemma ObjectLine(v: Json, texts: seq<string>, tail: string)
    requires v.Obj? && DecodeChunk(v) == Some(texts) && texts != [] && tail in {"", "\n"}
    ensures LineDelta(PREFIX + Print(v) + tail) == Some(texts[0])
  {
    var line := PREFIX + Print(v) + tail;
    assert line[|PREFIX|..] == Print(v) + tail;
    TrimFull(v, tail);
    PrintEnds(v);
    UnmarshalPrint(v);
  }

  lemma {:induction false} NoDeltas(lines: seq<string>)
    requires forall i :: 0 <= i < |lines| ==> !(PREFIX <= lines[i])
    ensures Deltas(LineDelta, lines) == []
  {
    if lines != [] {
      NoDeltas(lines[..|lines| - 1]);
    }
  }

  lemma SilenceFirst(read: Reader, noise: string, after: string)
    requires EndsLine(noise) && Heard(read, noise) == []
    ensures Heard(read, noise + after) == Heard(read, after)
  {
    HeardAppend(read, noise, after);
  }

  lemma SilenceBetween(read: Reader, before: string, noise: string, after: string)
    requires EndsLine(before) && EndsLine(noise) && Heard(read, noise) == []
    ensures Heard(read, before + noise + after) == Heard(read, before + after)
  {
    Assoc(before, noise, after);
    SilenceFirst(read, noise, after);
    HeardAppend(read, before, noise + after);
    HeardAppend(read, before, after);
  }

  /** Lines that do not begin with "data: " (blank lines, comments, other fields) change nothing wherever they stand. */
  lemma OtherLinesIgnored(before: string, noise: string, after: string)
    requires EndsLine(before) && EndsLine(noise)
    requires forall i :: 0 <= i < |Lines(noise)| ==> !("data: " <= Lines(noise)[i])
    ensures Heard(LineDelta, before + noise + after) == Heard(LineDelta, before + after)
  {
    NoDeltas(Lines(noise));
    SilenceBetween(LineDelta, before, noise, after);
  }

  lemma BrokenLine(v: Json, j: nat)
    requires v.Obj? && j < |PREFIX + Print(v)|
    ensures LineDelta((PREFIX + Print(v))[..j]) == None
  {
    var line := (PREFIX + Print(v))[..j];
    if j > |PREFIX| {
      var p := line[|PREFIX|..];
      assert p == Print(v)[..j - |PREFIX|];
      PrintEnds(v);
      TrimPart(p);
      var t := TrimSpace(p);
      assert t == Print(v)[..|t|];
      ProperPrefixFails(v, |t|);
    } else if j == |PREFIX| {
      assert line == PREFIX && line[|PREFIX|..] == "";
    }
  }

  lemma EventOneLine(v: Json)
    ensures OneLine(PREFIX + Print(v))
  {
    PrintNoControl(v);
  }

  /** What is heard of part of an event: at most its data line, broken off or whole. */
  lemma HeardPart(payload: string, j: nat)
    requires OneLine(PREFIX + payload) && j <= |Event(payload)|
    ensures var data := PREFIX + payload;
            Heard(LineDelta, Event(payload)[..j]) == Listed(LineDelta(if j <= |data| then data[..j] else data + "\n"))
  {
    var data := PREFIX + payload;
    if j <= |data| {
      assert Event(payload)[..j] == data[..j];
      HeardLast(LineDelta, data[..j]);
    } else {
      var rest := if j == |data| + 1 then "" else "\n";
      assert Event(payload)[..j] == data + "\n" + rest;
      HeardFirst(LineDelta, data, rest);
      assert "" + "\n" + "" == "\n";
      HeardFirst(LineDelta, "", "");
      HeardLast(LineDelta, "");
    }
  }

  /** An event with this payload adds this text; a part of it that breaks off in its data line adds nothing. */
  ghost predicate Carries(payload: string, text: string) {
    var data := PREFIX + payload;
    && OneLine(data) && LineDelta(data) == Some(text) && LineDelta(data + "\n") == Some(text)
    && forall j :: 0 <= j < |data| ==> LineDelta(data[..j]) == None
  }

  /** A printed object that decodes to one choice is such a payload. */
  lemma ObjectCarries(v: Json, text: string)
    requires v.Obj? && DecodeChunk(v) == Some([text])
    ensures Carries(Print(v), text)
  {
    var data := PREFIX + Print(v);
    EventOneLine(v);
    ObjectLine(v, [text], "");
    assert data + "" == data;
    ObjectLine(v, [text], "\n");
    forall j | 0 <= j < |data|
      ensures LineDelta(data[..j]) == None
    {
      BrokenLine(v, j);
    }
  }

  /** A cut inside one event keeps its text exactly when it keeps the data line: there is no half. */
  lemma EventCut(payload: string, text: string, j: nat)
    requires Carries(payload, text) && j <= |Event(payload)|
    ensures Heard(LineDelta, Event(payload)[..j]) == if j >= |PREFIX| + |payload| then [text] else []
  {
    var data := PREFIX + payload;
    HeardPart(payload, j);
    assert j == |data| ==> data[..j] == data;
  }

  lemma DoneChars()
    ensures |DONE| == 6 && DONE[0] == '[' && DONE[1] == 'D' && DONE[2] == 'O' && DONE[3] == 'N' && DONE[4] == 'E'
    ensures DONE[5] == ']'
  {}

  /** No value starts with a D. */
  lemma NoValue(u: string)
    requires u == "" || u[0] == 'D'
    ensures ParseArr(u) == None
  {
    assert Skip(u) == u;
    assert ParseLiteral(u) == None;
    assert ParseValue(u) == None;
    assert ParseItems(u) == None;
  }

  lemma TrimKeeps(p: string)
    requires p != "" ==> !IsSpace(p[0]) && !IsSpace(p[|p| - 1])
    ensures TrimSpace(p) == p
  {
    assert TrimLeft(p) == p;
  }

  lemma BracketFails(u: string)
    requires u == "" || u[0] == 'D'
    ensures Unmarshal("[" + u) == None
  {
    var p := "[" + u;
    assert Skip(p) == p && p[1..] == u;
    NoValue(u);
    assert ParseValue(p) == None;
  }

  lemma EmptyFails()
    ensures Unmarshal("") == None
  {
    assert ParseLiteral("") == None && ParseValue("") == None;
  }

  lemma DonePrefixFails(k: nat)
    requires k < |DONE|
    ensures Unmarshal(DONE[..k]) == None
  {
    DoneChars();
    if k == 0 {
      assert DONE[..k] == "";
      EmptyFails();
    } else {
      assert DONE[..k] == "[" + DONE[1..k];
      BracketFails(DONE[1..k]);
    }
  }

  lemma DoneTrimmed(k: nat)
    requires k <= |DONE|
    ensures TrimSpace(DONE[..k]) == DONE[..k]
  {
    DoneChars();
    if k > 0 {
      var last := DONE[..k][k - 1];
      assert last == DONE[k - 1];
      assert last in {'[', 'D', 'O', 'N', 'E', ']'};
    }
    TrimKeeps(DONE[..k]);
  }

  /** The sentinel adds nothing, and no part of it is JSON. */
  lemma DonePart(k: nat)
    requires k <= |DONE|
    ensures LineDelta(PREFIX + DONE[..k]) == None
  {
    var line := PREFIX + DONE[..k];
    assert line[|PREFIX|..] == DONE[..k];
    DoneTrimmed(k);
    if k < |DONE| {
      DonePrefixFails(k);
    } else {
      assert DONE[..k] == DONE;
    }
  }

  lemma DoneLine()
    ensures LineDelta(PREFIX + DONE + "\n") == None
  {
    var s := DONE + "\n";
    assert (PREFIX + DONE + "\n")[|PREFIX|..] == s;
    DoneTrimmed(|DONE|);
    assert DONE[..|DONE|] == DONE && TrimLeft(DONE) == DONE;
    assert TrimLeft(s) == s && IsSpace(s[|s| - 1]) && s[..|s| - 1] == DONE;
  }

  lemma DoneCut(j: nat)
    requires j <= |Event(DONE)|
    ensures Heard(LineDelta, Event(DONE)[..j]) == []
  {
    var data := PREFIX + DONE;
    HeardPart(DONE, j);
    if j < |PREFIX| {
      assert !(PREFIX <= data[..j]);
    } else if j <= |data| {
      assert data[..j] == PREFIX + DONE[..j - |PREFIX|];
      DonePart(j - |PREFIX|);
    } else {
      DoneLine();
    }
  }

  // ---------------------------------------------------------------- many events

  /** Any part of this event adds the text exactly when it has the first `size` characters. */
  ghost predicate Splits(read: Reader, event: string, text: string, size: nat) {
    && |event| == size + 2 && EndsLine(event)
    && forall j :: 0 <= j <= |event| ==> Heard(read, event[..j]) == if j >= size then [text] else []
  }

  lemma CarriesSplits(payload: string, text: string)
    requires Carries(payload, text)
    ensures Splits(LineDelta, Event(payload), text, |PREFIX| + |payload|)
  {
    forall j | 0 <= j <= |Event(payload)|
      ensures Heard(LineDelta, Event(payload)[..j]) == if j >= |PREFIX| + |payload| then [text] else []
    {
      EventCut(payload, text, j);
    }
  }

  /** The first n events, one after the other. */
  function Frames(es: seq<string>, n: nat): string
    requires n <= |es|
  {
    if n == 0 then "" else Frames(es, n - 1) + es[n - 1]
  }

  ghost predicate AllSplit(read: Reader, es: seq<string>, ts: seq<string>, sizes: seq<nat>) {
    && |es| == |ts| == |sizes|
    && forall i :: 0 <= i < |es| ==> Splits(read, es[i], ts[i], sizes[i])
  }

  lemma {:induction false} FramesGrow(es: seq<string>, n: nat, m: nat)
    requires n <= m <= |es|
    ensures Frames(es, n) <= Frames(es, m)
  {
    if n < m {
      FramesGrow(es, n, m - 1);
    }
  }

  lemma PartHeard(read: Reader, event: string, text: string, size: nat, k: nat)
    requires Splits(read, event, text, size) && k <= |event|
    ensures Heard(read, event[..k]) == if k >= size then [text] else []
  {}

  lemma CutPoint(before: string, event: string, j: nat)
    requires |before| <= j <= |before + event|
    ensures (before + event)[..j] == before + event[..j - |before|]
  {}

  lemma CutAfter(read: Reader, before: string, event: string, ts: seq<string>, text: string, size: nat, j: nat)
    requires EndsLine(before) && Heard(read, before) == ts && Splits(read, event, text, size)
    requires |before| <= j <= |before + event|
    ensures Heard(read, (before + event)[..j]) == if j >= |before| + size then ts + [text] else ts
  {
    var k := j - |before|;
    CutPoint(before, event, j);
    HeardAppend(read, before, event[..k]);
    PartHeard(read, event, text, size, k);
    assert ts + [] == ts;
  }

  lemma WholeEvent(read: Reader, event: string, text: string, size: nat)
    requires Splits(read, event, text, size)
    ensures Heard(read, event) == [text]
  {
    assert event[..|event|] == event;
  }

  lemma EndsAppend(a: string, b: string)
    requires EndsLine(a) && EndsLine(b)
    ensures EndsLine(a + b)
  {
    if b == "" {
      assert a + b == a;
    }
  }

  lemma TakeNext<T>(ts: seq<T>, n: nat)
    requires n < |ts|
    ensures ts[..n] + [ts[n]] == ts[..n + 1]
  {}

  lemma WholeAfter(read: Reader, before: string, event: string, ts: seq<string>, n: nat, size: nat)
    requires n < |ts| && EndsLine(before) && Heard(read, before) == ts[..n] && Splits(read, event, ts[n], size)
    ensures Heard(read, before + event) == ts[..n + 1] && EndsLine(before + event)
  {
    WholeEvent(read, event, ts[n], size);
    HeardAppend(read, before, event);
    TakeNext(ts, n);
    EndsAppend(before, event);
  }

  /** Reading back what was sent gives the texts that were sent. */
  lemma {:induction false} FramesHeard(read: Reader, es: seq<string>, ts: seq<string>, sizes: seq<nat>, n: nat)
    requires AllSplit(read, es, ts, sizes) && n <= |es|
    ensures Heard(read, Frames(es, n)) == ts[..n] && EndsLine(Frames(es, n))
  {
    if n == 0 {
      HeardLast(read, "");
    } else {
      FramesHeard(read, es, ts, sizes, n - 1);
      WholeAfter(read, Frames(es, n - 1), es[n - 1], ts, n - 1, sizes[n - 1]);
    }
  }

  /** Where event i begins, given the sizes of the data lines; two line breaks follow each. */
  function Offset(sizes: seq<nat>, i: nat): nat
    requires i <= |sizes|
  {
    if i == 0 then 0 else Offset(sizes, i - 1) + sizes[i - 1] + 2
  }

  /** Where its data line ends. */
  function DataEnd(sizes: seq<nat>, i: nat): nat
    requires i < |sizes|
  {
    Offset(sizes, i) + sizes[i]
  }

  /** How many of the first n events have their whole data line within the first j characters. */
  function Complete(sizes: seq<nat>, n: nat, j: nat): (k: nat)
    requires n <= |sizes|
    ensures k <= n
  {
    if n == 0 then 0 else if j >= DataEnd(sizes, n - 1) then n else Complete(sizes, n - 1, j)
  }

  lemma {:induction false} EndsGrow(sizes: seq<nat>, i: nat, n: nat)
    requires i < n <= |sizes|
    ensures DataEnd(sizes, i) < Offset(sizes, n)
  {
    if i < n - 1 {
      EndsGrow(sizes, i, n - 1);
    }
  }

  lemma CompleteAll(sizes: seq<nat>, n: nat, j: nat)
    requires n <= |sizes| && j >= Offset(sizes, n)
    ensures Complete(sizes, n, j) == n
  {}

  /** Event i is among the complete ones exactly when its data line ends in time. */
  lemma {:induction false} CompleteIff(sizes: seq<nat>, n: nat, j: nat, i: nat)
    requires i < n <= |sizes|
    ensures i < Complete(sizes, n, j) <==> DataEnd(sizes, i) <= j
  {
    if i < n - 1 {
      CompleteIff(sizes, n - 1, j, i);
      EndsGrow(sizes, i, n - 1);
    }
  }

  lemma {:induction false} FramesSize(read: Reader, es: seq<string>, ts: seq<string>, sizes: seq<nat>, n: nat)
    requires AllSplit(read, es, ts, sizes) && n <= |es|
    ensures |Frames(es, n)| == Offset(sizes, n)
  {
    if n > 0 {
      FramesSize(read, es, ts, sizes, n - 1);
      assert Splits(read, es[n - 1], ts[n - 1], sizes[n - 1]);
    }
  }

  lemma CutInEvent(read: Reader, es: seq<string>, ts: seq<string>, sizes: seq<nat>, n: nat, j: nat)
    requires AllSplit(read, es, ts, sizes) && n < |es| && |Frames(es, n)| <= j <= |Frames(es, n + 1)|
    ensures Heard(read, Frames(es, n + 1)[..j]) == if j >= |Frames(es, n)| + sizes[n] then ts[..n + 1] else ts[..n]
  {
    FramesHeard(read, es, ts, sizes, n);
    CutAfter(read, Frames(es, n), es[n], ts[..n], ts[n], sizes[n], j);
    TakeNext(ts, n);
  }

  lemma CutBefore(es: seq<string>, n: nat, j: nat)
    requires n < |es| && j <= |Frames(es, n)|
    ensures j <= |Frames(es, n + 1)| && Frames(es, n + 1)[..j] == Frames(es, n)[..j]
  {}

  /** A connection that dies after any number of characters leaves the reader with the texts whose data lines were
      complete. */
  lemma {:induction false} FramesCut(read: Reader, es: seq<string>, ts: seq<string>, sizes: seq<nat>, n: nat, j: nat)
    requires AllSplit(read, es, ts, sizes) && n <= |es| && j <= |Frames(es, n)|
    ensures Heard(read, Frames(es, n)[..j]) == ts[..Complete(sizes, n, j)]
  {
    if n == 0 {
      HeardLast(read, "");
    } else {
      FramesSize(read, es, ts, sizes, n - 1);
      if j >= |Frames(es, n - 1)| {
        CutInEvent(read, es, ts, sizes, n - 1, j);
        CompleteAll(sizes, n - 1, j);
      } else {
        CutBefore(es, n - 1, j);
        FramesCut(read, es, ts, sizes, n - 1, j);
      }
    }
  }

  /** A tail no part of which adds anything. */
  ghost predicate Silent(read: Reader, tail: string) {
    forall k :: 0 <= k <= |tail| ==> Heard(read, tail[..k]) == []
  }

  lemma TailAfter(read: Reader, wire: string, ts: seq<string>, tail: string, j: nat)
    requires EndsLine(wire) && Heard(read, wire) == ts && Silent(read, tail) && |wire| <= j <= |wire + tail|
    ensures Heard(read, (wire + tail)[..j]) == ts
  {
    var k := j - |wire|;
    assert (wire + tail)[..j] == wire + tail[..k];
    HeardAppend(read, wire, tail[..k]);
    assert ts + [] == ts;
  }

  /** Nor does a silent tail change anything. */
  lemma StreamCut(read: Reader, es: seq<string>, ts: seq<string>, sizes: seq<nat>, tail: string, j: nat)
    requires AllSplit(read, es, ts, sizes) && Silent(read, tail) && j <= |Frames(es, |es|) + tail|
    ensures Heard(read, (Frames(es, |es|) + tail)[..j]) == ts[..Complete(sizes, |es|, j)]
  {
    var n := |es|;
    var wire := Frames(es, n);
    if j <= |wire| {
      FramesCut(read, es, ts, sizes, n, j);
      assert (wire + tail)[..j] == wire[..j];
    } else {
      FramesHeard(read, es, ts, sizes, n);
      FramesSize(read, es, ts, sizes, n);
      CompleteAll(sizes, n, j);
      TailAfter(read, wire, ts[..n], tail, j);
    }
  }

  lemma DoneIsSilent()
    ensures Silent(LineDelta, Event(DONE))
  {
    forall k | 0 <= k <= |Event(DONE)|
      ensures Heard(LineDelta, Event(DONE)[..k]) == []
    {
      DoneCut(k);
    }
  }
}
