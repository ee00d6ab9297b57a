/** The tokens the mock backend answers with. */
module MockTokens {
  import opened Text
  import opened Tokenizer

  const OPENING: seq<string> := ["The", "Velo", "gateway", "is", "an", "LLM"]
  const NATURE: seq<string> := ["inference", "proxy", "with", "continuous", "batching", "semantic"]
  const LIMITS: seq<string> := ["cache", "and", "rate", "limiting", "."]
  const SUPPORT: seq<string> := ["It", "supports", "multi-backend", "failover"]
  const OUTPUT: seq<string> := ["streaming", "SSE", "tokens"]
  const WATCH: seq<string> := ["and", "Prometheus", "metrics", "for", "observability", "."]
  const GROWTH: seq<string> := ["Throughput", "scales", "linearly", "with", "batch", "size"]
  const CLOSING: seq<string> := ["until", "the", "backend", "saturates", "."]
  const VOCAB: seq<string> := OPENING + NATURE + LIMITS + SUPPORT + OUTPUT + WATCH + GROWTH + CLOSING

  lemma OpeningWords()
    ensures AllWords(OPENING)
  {}

  lemma NatureWords()
    ensures AllWords(NATURE)
  {}

  lemma LimitsWords()
    ensures AllWords(LIMITS)
  {}

  lemma SupportWords()
    ensures AllWords(SUPPORT)
  {}

  lemma OutputWords()
    ensures AllWords(OUTPUT)
  {}

  lemma WatchWords()
    ensures AllWords(WATCH)
  {}

  lemma GrowthWords()
    ensures AllWords(GROWTH)
  {}

  lemma ClosingWords()
    ensures AllWords(CLOSING)
  {}

  lemma BothWords(a: seq<string>, b: seq<string>)
    requires AllWords(a) && AllWords(b)
    ensures AllWords(a + b)
  {}

  lemma VocabWords()
    ensures AllWords(VOCAB)
  {
    OpeningWords();
    NatureWords();
    BothWords(OPENING, NATURE);
    LimitsWords();
    BothWords(OPENING + NATURE, LIMITS);
    SupportWords();
    BothWords(OPENING + NATURE + LIMITS, SUPPORT);
    OutputWords();
    BothWords(OPENING + NATURE + LIMITS + SUPPORT, OUTPUT);
    WatchWords();
    BothWords(OPENING + NATURE + LIMITS + SUPPORT + OUTPUT, WATCH);
    GrowthWords();
    BothWords(OPENING + NATURE + LIMITS + SUPPORT + OUTPUT + WATCH, GROWTH);
    ClosingWords();
    BothWords(OPENING + NATURE + LIMITS + SUPPORT + OUTPUT + WATCH + GROWTH, CLOSING);
  }

  /** The content of the last user message. */
  function LastUser(msgs: seq<Message>): string {
    if msgs == [] then ""
    else if msgs[|msgs| - 1].role == "user" then msgs[|msgs| - 1].content
    else LastUser(msgs[..|msgs| - 1])
  }

  function Tail<T>(s: seq<T>, n: nat): seq<T> {
    if |s| > n then s[|s| - n..] else s
  }

  function Echo(msgs: seq<Message>): seq<string> {
    ["Answer:"] + Tail(Words(LastUser(msgs)), 6)
  }

  /** "Answer:" and the last six words of that message, or all it has. */
  lemma EchoIs(msgs: seq<Message>)
    ensures var ws, echo := Words(LastUser(msgs)), Echo(msgs);
            && |echo| == 1 + (if |ws| < 6 then |ws| else 6)
            && echo[0] == "Answer:" && echo[1..] == ws[|ws| + 1 - |echo|..]
  {}

  lemma LastUserStep(msgs: seq<Message>, i: nat)
    requires i < |msgs|
    ensures LastUser(msgs[..i + 1]) == if msgs[i].role == "user" then msgs[i].content else LastUser(msgs[..i])
  {
    assert msgs[..i + 1][..i] == msgs[..i];
  }

  ghost predicate IsLastUser(msgs: seq<Message>, i: nat)
    requires i < |msgs|
  {
    msgs[i].role == "user" && forall j :: i < j < |msgs| ==> msgs[j].role != "user"
  }

  /** The search for the last user message, from the end. */
  method FindLastUser(msgs: seq<Message>) returns (lastUser: string)
    ensures lastUser == LastUser(msgs)
    ensures (forall i :: 0 <= i < |msgs| ==> msgs[i].role != "user") ==> lastUser == ""
    ensures forall i :: 0 <= i < |msgs| && IsLastUser(msgs, i) ==> lastUser == msgs[i].content
  {
    lastUser := "";
    var i := |msgs|;
    assert msgs[..i] == msgs;
    while i > 0
      invariant 0 <= i <= |msgs| && lastUser == ""
      invariant forall j :: i <= j < |msgs| ==> msgs[j].role != "user"
      invariant LastUser(msgs) == LastUser(msgs[..i])
    {
      i := i - 1;
      LastUserStep(msgs, i);
      if msgs[i].role == "user" {
        return msgs[i].content;
      }
    }
  }

  /** n words: an echo of the last user message, padded from the vocabulary. draws are the random indices. */
  method BuildTokens(msgs: seq<Message>, n: nat, draws: seq<nat>) returns (out: seq<string>)
    requires |draws| >= n && forall i :: 0 <= i < |draws| ==> draws[i] < |VOCAB|
    ensures |out| == n && AllWords(out)
    ensures var echo := Echo(msgs);
            if n <= |echo| then out == echo[..n]
            else out[..|echo|] == echo && forall i :: |echo| <= i < n ==> out[i] == VOCAB[draws[i]]
  {
    var lastUser := FindLastUser(msgs);
    var echo := Words(lastUser);
    if |echo| > 6 {
      echo := echo[|echo| - 6..];
    }
    out := ["Answer:"];
    out := out + echo;
    ghost var start := out;
    VocabWords();
    while |out| < n
      invariant AllWords(out) && start <= out && (|out| <= n || out == start)
      invariant forall k :: |start| <= k < |out| ==> out[k] == VOCAB[draws[k]]
    {
      out := out + [VOCAB[draws[|out|]]];
    }
    return out[..n];
  }
}
