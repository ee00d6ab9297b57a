/** Streams that stop early: what the gateway has assembled, and what it then stores. */
module Interruptions {
  import opened Collections
  import opened Text
  import opened Chunks
  import opened Sse
  import opened Streams

  // ---------------------------------------------------------------- how much is assembled

  /** How many words the first j characters of a stream spell. */
  function WordsIn(dialect: Dialect, m: Meta, ws: seq<string>, j: nat): (n: nat)
    ensures n <= |ws|
  {
    Spelled(|ws|, DeltasIn(dialect, m, ws, j))
  }

  lemma CutReassembles(dialect: Dialect, m: Meta, ws: seq<string>, j: nat)
    requires j <= |Stream(dialect, m, ws)|
    ensures Reassemble(Lines(Stream(dialect, m, ws)[..j])) == Join(ws[..WordsIn(dialect, m, ws, j)])
  {
    CutHeard(dialect, m, ws, j);
    ScriptPart(ws, DeltasIn(dialect, m, ws, j));
  }

  lemma PartOfText(s: string, k: nat) returns (i: nat)
    requires k <= |Lines(s)|
    ensures i <= |s| && Lines(s[..i]) == Lines(s)[..k] && |Flatten(Lines(s)[..k])| == i
    ensures Flatten(Lines(s)[..k]) == s[..i]
  {
    i := FirstLines(s, k);
  }

  /** However a stream is interrupted (the connection dies after character j, the proxy stops after line k), the gateway
      is left with the words whose data lines were complete in what it forwarded, joined: never a part of a word, never
      anything that was not sent. */
  lemma InterruptedStream(dialect: Dialect, m: Meta, ws: seq<string>, j: nat, k: nat)
    requires j <= |Stream(dialect, m, ws)| && k <= |Lines(Stream(dialect, m, ws)[..j])|
    ensures var lines := Lines(Stream(dialect, m, ws)[..j])[..k];
            Reassemble(lines) == Join(ws[..WordsIn(dialect, m, ws, |Flatten(lines)|)])
  {
    var body := Stream(dialect, m, ws)[..j];
    var i := PartOfText(body, k);
    assert body[..i] == Stream(dialect, m, ws)[..i];
    CutReassembles(dialect, m, ws, i);
  }

  lemma EmittedIsPrefix(m: Meta, tokens: seq<string>, stopAt: nat)
    ensures Emitted(m, tokens, stopAt) <= Stream(Live, m, tokens)
  {
    PartIsPrefix(Live, m, tokens, if stopAt < |tokens| then stopAt + 1 else |tokens| + 2);
  }

  /** However the backend (before token stopAt), the connection (after character j) and the proxy stop, the content
      StreamProxy returns is the tokens whose data lines were complete in what it has sent on, joined. */
  lemma InterruptedAnswer(m: Meta, tokens: seq<string>, stopAt: nat, j: nat, cancelAt: nat, failAt: nat)
    requires j <= |Emitted(m, tokens, stopAt)|
    ensures var body := Emitted(m, tokens, stopAt)[..j];
            Assembled(body, cancelAt, failAt)
              == Join(tokens[..WordsIn(Live, m, tokens, |SentOn(body, cancelAt, failAt)|)])
  {
    var body := Emitted(m, tokens, stopAt)[..j];
    EmittedIsPrefix(m, tokens, stopAt);
    assert body == Stream(Live, m, tokens)[..j];
    InterruptedStream(Live, m, tokens, j, Forwarded(body, cancelAt, failAt));
  }

  // ---------------------------------------------------------------- when it is whole

  /** Where the data line of the last token's event ends. */
  function LastTokenEnd(m: Meta, tokens: seq<string>): nat
    requires tokens != []
  {
    DataEnd(Sizes(Live, m, Script(tokens)), |tokens|)
  }

  lemma AllWordsIn(m: Meta, tokens: seq<string>, j: nat)
    requires tokens != []
    ensures WordsIn(Live, m, tokens, j) == |tokens| <==> LastTokenEnd(m, tokens) <= j
  {
    CompleteIff(Sizes(Live, m, Script(tokens)), |tokens| + 2, j, |tokens|);
  }

  lemma JoinInjective(a: seq<string>, b: seq<string>)
    requires AllWords(a) && AllWords(b)
    ensures Join(a) == Join(b) <==> a == b
  {
    WordsOfJoin(a);
    WordsOfJoin(b);
  }

  lemma PartIsWhole(tokens: seq<string>, k: nat)
    requires AllWords(tokens) && k <= |tokens|
    ensures Join(tokens[..k]) == Join(tokens) <==> k == |tokens|
  {
    assert k == |tokens| ==> tokens[..k] == tokens;
    JoinInjective(tokens[..k], tokens);
  }

  /** The content StreamProxy returns is the whole answer if and only if the data line of the last token's event is
      within what it has sent on. Its error says nothing about that: an answer can be whole with an error, and the
      closing chunk and the sentinel are not waited for. */
  lemma AnswerIsWholeIff(m: Meta, tokens: seq<string>, stopAt: nat, j: nat, cancelAt: nat, failAt: nat)
    requires AllWords(tokens) && tokens != [] && j <= |Emitted(m, tokens, stopAt)|
    ensures var body := Emitted(m, tokens, stopAt)[..j];
            Assembled(body, cancelAt, failAt) == Join(tokens)
            <==> LastTokenEnd(m, tokens) <= |SentOn(body, cancelAt, failAt)|
  {
    var body := Emitted(m, tokens, stopAt)[..j];
    var f := |SentOn(body, cancelAt, failAt)|;
    InterruptedAnswer(m, tokens, stopAt, j, cancelAt, failAt);
    PartIsWhole(tokens, WordsIn(Live, m, tokens, f));
    AllWordsIn(m, tokens, f);
  }

  // ---------------------------------------------------------------- what is stored

  /** What chatHandler puts into the cache after streaming: any content there is, whatever error came with it. */
  function Stored(content: string, err: Option<StreamError>): Option<string> {
    if content != "" then Some(content) else None
  }

  /** A request's interruption: where the backend, the connection and the proxy stop, and whether the body ends in a
      read error. */
  datatype Stop = Stop(stopAt: nat, j: nat, broken: bool, cancelAt: nat, failAt: nat)

  function BodyOf(m: Meta, tokens: seq<string>, s: Stop): string
    requires s.j <= |Emitted(m, tokens, s.stopAt)|
  {
    Emitted(m, tokens, s.stopAt)[..s.j]
  }

  function StoredAfter(m: Meta, tokens: seq<string>, s: Stop): Option<string>
    requires s.j <= |Emitted(m, tokens, s.stopAt)|
  {
    var body := BodyOf(m, tokens, s);
    Stored(Assembled(body, s.cancelAt, s.failAt), ProxyError(body, s.broken, s.cancelAt, s.failAt))
  }

  /** Whatever happens, nothing or the whole answer is stored. */
  ghost predicate NeverStoresPart(m: Meta, tokens: seq<string>) {
    forall s: Stop :: s.j <= |Emitted(m, tokens, s.stopAt)| ==> StoredAfter(m, tokens, s) in {None, Some(Join(tokens))}
  }

  lemma LinesWhole(body: string)
    ensures Flatten(Lines(body)) == body && Lines(body)[..|Lines(body)|] == Lines(body)
  {
    var i := FirstLines(body, |Lines(body)|);
    assert Lines(body)[..|Lines(body)|] == Lines(body) && body[..|body|] == body;
  }

  lemma AllForwarded(body: string)
    ensures SentOn(body, Reads(body), |Lines(body)|) == body
  {
    var i := PartOfText(body, |Lines(body)|);
    LinesWhole(body);
  }

  lemma FirstTokenOnly(m: Meta, tokens: seq<string>)
    requires |tokens| >= 2
    ensures var j := |Part(Live, m, tokens, 2)|;
            j <= |Stream(Live, m, tokens)| && WordsIn(Live, m, tokens, j) == 1
  {
    var sizes := Sizes(Live, m, Script(tokens));
    var j := |Part(Live, m, tokens, 2)|;
    PartIsPrefix(Live, m, tokens, 2);
    PartSize(Live, m, tokens, 2);
    CompleteIff(sizes, |tokens| + 2, j, 1);
    CompleteIff(sizes, |tokens| + 2, j, 2);
  }

  /** A connection that breaks after the first of several tokens: the proxy reports the read error, and the one token is
      stored as if it were the answer. */
  lemma PartStoredDespiteError(m: Meta, tokens: seq<string>) returns (s: Stop)
    requires AllWords(tokens) && |tokens| >= 2
    ensures s.j <= |Emitted(m, tokens, s.stopAt)|
    ensures ProxyError(BodyOf(m, tokens, s), s.broken, s.cancelAt, s.failAt) == Some(ReadFailed)
    ensures StoredAfter(m, tokens, s) == Some(tokens[0]) && tokens[0] != Join(tokens)
  {
    var j := |Part(Live, m, tokens, 2)|;
    FirstTokenOnly(m, tokens);
    var body := Stream(Live, m, tokens)[..j];
    s := Stop(|tokens|, j, true, Reads(body), |Lines(body)|);
    InterruptedAnswer(m, tokens, |tokens|, j, s.cancelAt, s.failAt);
    AllForwarded(body);
    assert tokens[..1] == [tokens[0]];
    PartIsWhole(tokens, 1);
  }

  lemma OneTokenWholeOrNothing(m: Meta, tokens: seq<string>, s: Stop)
    requires AllWords(tokens) && |tokens| <= 1 && s.j <= |Emitted(m, tokens, s.stopAt)|
    ensures StoredAfter(m, tokens, s) in {None, Some(Join(tokens))}
  {
    var n := WordsIn(Live, m, tokens, |SentOn(BodyOf(m, tokens, s), s.cancelAt, s.failAt)|);
    InterruptedAnswer(m, tokens, s.stopAt, s.j, s.cancelAt, s.failAt);
    assert n == |tokens| ==> tokens[..n] == tokens;
  }

  /** The handler's comment stores after a successful full stream. The code keeps to whole answers, whatever happens,
      exactly for answers of at most one token. */
  lemma NeverStoresPartIff(m: Meta, tokens: seq<string>)
    requires AllWords(tokens)
    ensures NeverStoresPart(m, tokens) <==> |tokens| <= 1
  {
    if |tokens| <= 1 {
      forall s: Stop | s.j <= |Emitted(m, tokens, s.stopAt)|
        ensures StoredAfter(m, tokens, s) in {None, Some(Join(tokens))}
      {
        OneTokenWholeOrNothing(m, tokens, s);
      }
    } else {
      var s := PartStoredDespiteError(m, tokens);
    }
  }
}
