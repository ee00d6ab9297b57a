/** The words of a prompt: lower-cased maximal alphanumeric runs. */
module Tokenizer {
  import opened Text

  // ---------------------------------------------------------------- tokens

  predicate Alnum(c: char) {
    'a' <= c <= 'z' || '0' <= c <= '9'
  }

  /** unicode.ToLower, as far as a test for ASCII letters and digits can tell: besides the ASCII capitals only
      U+0130 and U+212A have an ASCII lower case; any other character stays outside ASCII. */
  function Lower(c: char): char {
    if 'A' <= c <= 'Z' then (c as int + 32) as char
    else if c as int == 0x130 then 'i'
    else if c as int == 0x212A then 'k'
    else c
  }

  function ToLower(s: string): (t: string)
    ensures |t| == |s| && forall i :: 0 <= i < |s| ==> t[i] == Lower(s[i])
  {
    seq(|s|, i requires 0 <= i < |s| => Lower(s[i]))
  }

  /** The length of the maximal alphanumeric run s begins with. */
  function RunLength(s: string): (k: nat)
    ensures k <= |s| && (forall i :: 0 <= i < k ==> Alnum(s[i])) && (k < |s| ==> !Alnum(s[k]))
  {
    if s == "" || !Alnum(s[0]) then 0 else 1 + RunLength(s[1..])
  }

  /** The maximal alphanumeric runs of s, left to right. */
  function Runs(s: string): seq<string>
    decreases |s|
  {
    if s == "" then []
    else if !Alnum(s[0]) then Runs(s[1..])
    else [s[..RunLength(s)]] + Runs(s[RunLength(s)..])
  }

  function Tokens(s: string): seq<string> {
    Runs(ToLower(s))
  }

  ghost predicate AllAlnum(s: string) {
    forall i :: 0 <= i < |s| ==> Alnum(s[i])
  }

  /** A run followed by nothing or by a separator is one token. */
  lemma RunFirst(b: string, rest: string)
    requires AllAlnum(b) && b != "" && (rest != "" ==> !Alnum(rest[0]))
    ensures Runs(b + rest) == [b] + Runs(rest)
  {
    var s := b + rest;
    var k := RunLength(s);
    assert rest != "" ==> s[|b|] == rest[0];
    assert forall i :: 0 <= i < |b| ==> s[i] == b[i];
    assert k == |b|;
    assert s[..|b|] == b && s[|b|..] == rest;
  }

  /** The token a builder holding b would add, if any. */
  function Pending(b: string): seq<string> {
    if b == "" then [] else [b]
  }

  /** The scan of `low` has produced `out`, holds the run b, and has `rest` to read. */
  ghost predicate Scanned(low: string, out: seq<string>, b: string, rest: string) {
    AllAlnum(b) && Runs(low) == out + Runs(b + rest)
  }

  lemma ScanStart(low: string)
    ensures Scanned(low, [], "", low)
  {
    assert "" + low == low;
  }

  lemma ScanLetter(low: string, out: seq<string>, b: string, rest: string)
    requires Scanned(low, out, b, rest) && rest != "" && Alnum(rest[0])
    ensures Scanned(low, out, b + [rest[0]], rest[1..])
  {
    assert b + rest == (b + [rest[0]]) + rest[1..];
  }

  lemma ScanSeparator(low: string, out: seq<string>, b: string, rest: string)
    requires Scanned(low, out, b, rest) && rest != "" && !Alnum(rest[0])
    ensures Scanned(low, out + Pending(b), "", rest[1..])
  {
    assert "" + rest[1..] == rest[1..] && "" + rest == rest;
    if b != "" {
      RunFirst(b, rest);
    }
  }

  lemma ScanEnd(low: string, out: seq<string>, b: string)
    requires Scanned(low, out, b, "")
    ensures Runs(low) == out + Pending(b)
  {
    assert b + "" == b;
    if b != "" {
      RunFirst(b, "");
    }
  }

  method Tokenize(s: string) returns (out: seq<string>)
    ensures out == Tokens(s)
  {
    var low := ToLower(s);
    out := [];
    var b := "";
    ScanStart(low);
    for i := 0 to |low|
      invariant Scanned(low, out, b, low[i..])
    {
      var c := low[i];
      ghost var rest := low[i..];
      assert rest[0] == c && rest[1..] == low[i + 1..];
      if 'a' <= c <= 'z' || '0' <= c <= '9' {
        ScanLetter(low, out, b, rest);
        b := b + [c];
      } else {
        ScanSeparator(low, out, b, rest);
        if |b| > 0 {
          out := out + [b];
          b := "";
        }
      }
    }
    ScanEnd(low, out, b);
    if |b| > 0 {
      out := out + [b];
    }
  }

  lemma {:induction false} RunsSplit(a: string, sep: char, b: string)
    requires !Alnum(sep)
    ensures Runs(a + [sep] + b) == Runs(a) + Runs(b)
    decreases |a|
  {
    var s := a + [sep] + b;
    if a == "" {
      assert s[1..] == b;
    } else if !Alnum(a[0]) {
      assert s[1..] == a[1..] + [sep] + b;
      RunsSplit(a[1..], sep, b);
    } else {
      var k := RunLength(a);
      assert s == a[..k] + (a[k..] + [sep] + b);
      RunFirst(a[..k], a[k..] + [sep] + b);
      RunFirst(a[..k], a[k..]);
      assert a[..k] + a[k..] == a;
      RunsSplit(a[k..], sep, b);
    }
  }

  /** A separator in the text separates its tokens. */
  lemma TokensSplit(a: string, sep: char, b: string)
    requires !Alnum(Lower(sep))
    ensures Tokens(a + [sep] + b) == Tokens(a) + Tokens(b)
  {
    assert ToLower(a + [sep] + b) == ToLower(a) + [Lower(sep)] + ToLower(b);
    RunsSplit(ToLower(a), Lower(sep), ToLower(b));
  }

  /** The same letter, or one the capital of the other. */
  predicate SameLetter(c: char, d: char) {
    || c == d
    || ('A' <= c <= 'Z' && d as int == c as int + 32)
    || ('A' <= d <= 'Z' && c as int == d as int + 32)
  }

  /** Capitals make no difference. */
  lemma CaseBlind(s: string, t: string)
    requires |s| == |t| && forall i :: 0 <= i < |s| ==> SameLetter(s[i], t[i])
    ensures Tokens(s) == Tokens(t)
  {
    assert ToLower(s) == ToLower(t);
  }

  /** An ASCII letter or digit. */
  predicate InWord(c: char) {
    'a' <= c <= 'z' || 'A' <= c <= 'Z' || '0' <= c <= '9'
  }

  /** A run of ASCII letters and digits is one token, in small letters. */
  lemma WordIsToken(w: string) returns (tok: string)
    requires w != "" && forall i :: 0 <= i < |w| ==> InWord(w[i])
    ensures Tokens(w) == [tok] && |tok| == |w|
    ensures forall i :: 0 <= i < |w| ==> SameLetter(w[i], tok[i]) && !('A' <= tok[i] <= 'Z')
  {
    tok := ToLower(w);
    RunFirst(tok, "");
    assert tok + "" == tok;
  }

  /** Any other ASCII character ends a token. */
  lemma OthersSeparate(a: string, sep: char, b: string)
    requires sep as int < 128 && !InWord(sep)
    ensures Tokens(a + [sep] + b) == Tokens(a) + Tokens(b)
  {
    TokensSplit(a, sep, b);
  }

  lemma SpaceSeparates(c: char)
    requires IsSpace(c)
    ensures !Alnum(Lower(c))
  {}

  lemma {:induction false} TrimLeftTokens(s: string)
    ensures Tokens(TrimLeft(s)) == Tokens(s)
  {
    if s != "" && IsSpace(s[0]) {
      TrimLeftTokens(s[1..]);
      SpaceSeparates(s[0]);
      TokensSplit("", s[0], s[1..]);
      assert "" + [s[0]] + s[1..] == s;
    }
  }

  lemma {:induction false} TrimRightTokens(s: string)
    ensures Tokens(TrimRight(s)) == Tokens(s)
  {
    if s != "" && IsSpace(s[|s| - 1]) {
      var n := |s| - 1;
      TrimRightTokens(s[..n]);
      SpaceSeparates(s[n]);
      TokensSplit(s[..n], s[n], "");
      assert s[..n] + [s[n]] + "" == s;
    }
  }

  // ---------------------------------------------------------------- prompts

  datatype Message = Message(role: string, content: string)

  function Flat(msgs: seq<Message>): string {
    if msgs == [] then ""
    else
      var m := msgs[|msgs| - 1];
      Flat(msgs[..|msgs| - 1]) + m.role + ": " + m.content + "\n"
  }

  method FlattenPrompt(msgs: seq<Message>) returns (prompt: string)
    ensures prompt == TrimSpace(Flat(msgs))
  {
    var b := "";
    for i := 0 to |msgs|
      invariant b == Flat(msgs[..i])
    {
      assert msgs[..i + 1][..i] == msgs[..i];
      b := b + msgs[i].role;
      b := b + ": ";
      b := b + msgs[i].content;
      b := b + "\n";
    }
    assert msgs[..|msgs|] == msgs;
    return TrimSpace(b);
  }

  /** The words of each message in turn: role, then content. */
  function MessageTokens(msgs: seq<Message>): seq<string> {
    if msgs == [] then []
    else
      var m := msgs[|msgs| - 1];
      MessageTokens(msgs[..|msgs| - 1]) + Tokens(m.role) + Tokens(m.content)
  }

  /** Text that ends a line does not run into what follows. */
  lemma StartsAfterBreak(a: string, b: string)
    requires a != "" ==> a[|a| - 1] == '\n'
    ensures Tokens(a + b) == Tokens(a) + Tokens(b)
  {
    if a == "" {
      assert a + b == b;
    } else {
      var n := |a| - 1;
      assert a == a[..n] + "\n" + "" && a + b == a[..n] + "\n" + b;
      TokensSplit(a[..n], '\n', b);
      TokensSplit(a[..n], '\n', "");
    }
  }

  lemma LineTokens(before: string, role: string, content: string)
    requires before != "" ==> before[|before| - 1] == '\n'
    ensures Tokens(before + role + ": " + content + "\n") == Tokens(before) + Tokens(role) + Tokens(content)
  {
    var line := before + role;
    StartsAfterBreak(before, role);
    TokensSplit(line + ":" + " " + content, '\n', "");
    TokensSplit(line + ":", ' ', content);
    TokensSplit(line, ':', "");
    assert line + ":" + "" == line + ":" && Tokens("") == [];
    assert line + ": " + content + "\n" == line + ":" + " " + content + "\n" + "";
  }

  lemma {:induction false} FlatTokens(msgs: seq<Message>)
    ensures Tokens(Flat(msgs)) == MessageTokens(msgs)
    ensures msgs != [] ==> Flat(msgs)[|Flat(msgs)| - 1] == '\n'
  {
    if msgs != [] {
      var n := |msgs| - 1;
      FlatTokens(msgs[..n]);
      LineTokens(Flat(msgs[..n]), msgs[n].role, msgs[n].content);
    }
  }

  /** The tokens of a flattened prompt are those of its messages, one after the other: the punctuation flattening
      adds and the space it trims never join or split a word. */
  lemma PromptTokens(msgs: seq<Message>)
    ensures Tokens(TrimSpace(Flat(msgs))) == MessageTokens(msgs)
  {
    TrimLeftTokens(Flat(msgs));
    TrimRightTokens(TrimLeft(Flat(msgs)));
    FlatTokens(msgs);
  }
}
