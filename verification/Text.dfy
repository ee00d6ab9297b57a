/** Characters, white space and words. */
module Text {
  /** unicode.IsSpace. */
  predicate IsSpace(c: char) {
    var n := c as int;
    || 9 <= n <= 13 || n == 0x20 || n == 0x85 || n == 0xA0 || n == 0x1680 || 0x2000 <= n <= 0x200A
    || n == 0x2028 || n == 0x2029 || n == 0x202F || n == 0x205F || n == 0x3000
  }

  /** strings.TrimSpace. */
  function TrimLeft(s: string): (t: string)
    ensures |t| <= |s|
  {
    if s != "" && IsSpace(s[0]) then TrimLeft(s[1..]) else s
  }

  function TrimRight(s: string): (t: string)
    ensures |t| <= |s|
  {
    if s != "" && IsSpace(s[|s| - 1]) then TrimRight(s[..|s| - 1]) else s
  }

  function TrimSpace(s: string): string {
    TrimRight(TrimLeft(s))
  }

  lemma {:induction false} TrimRightIsPrefix(s: string)
    ensures TrimRight(s) <= s
  {
    if s != "" && IsSpace(s[|s| - 1]) {
      TrimRightIsPrefix(s[..|s| - 1]);
    }
  }

  // ---------------------------------------------------------------- words

  ghost predicate IsWord(w: string) {
    w != "" && forall i :: 0 <= i < |w| ==> !IsSpace(w[i])
  }

  ghost predicate AllWords(ws: seq<string>) {
    forall i :: 0 <= i < |ws| ==> IsWord(ws[i])
  }

  /** The length of the space-free run s begins with. */
  function WordLength(s: string): (k: nat)
    ensures k <= |s| && (forall i :: 0 <= i < k ==> !IsSpace(s[i])) && (k < |s| ==> IsSpace(s[k]))
  {
    if s == "" || IsSpace(s[0]) then 0 else 1 + WordLength(s[1..])
  }

  /** strings.Fields. */
  function Words(s: string): (ws: seq<string>)
    ensures AllWords(ws)
    decreases |s|
  {
    if s == "" then []
    else if IsSpace(s[0]) then Words(s[1..])
    else [s[..WordLength(s)]] + Words(s[WordLength(s)..])
  }

  /** strings.Join with a blank. */
  function Join(ws: seq<string>): string {
    if ws == [] then ""
    else if |ws| == 1 then ws[0]
    else Join(ws[..|ws| - 1]) + " " + ws[|ws| - 1]
  }

  lemma OneWord(w: string)
    requires IsWord(w)
    ensures Words(w) == [w]
  {
    assert w[..|w|] == w && w[|w|..] == "";
  }

  lemma {:induction false} WordsSplit(a: string, b: string)
    ensures Words(a + " " + b) == Words(a) + Words(b)
    decreases |a|
  {
    var s := a + " " + b;
    if a == "" {
      assert s[1..] == b;
    } else if IsSpace(a[0]) {
      assert s[1..] == a[1..] + " " + b;
      WordsSplit(a[1..], b);
    } else {
      var k := WordLength(a);
      assert k < |a| ==> s[k] == a[k];
      assert k == |a| ==> s[k] == ' ';
      assert WordLength(s) == k;
      assert s[..k] == a[..k] && s[k..] == a[k..] + " " + b;
      WordsSplit(a[k..], b);
    }
  }

  /** Joined words split back into themselves. */
  lemma {:induction false} WordsOfJoin(ws: seq<string>)
    requires AllWords(ws)
    ensures Words(Join(ws)) == ws
  {
    if ws != [] {
      var n := |ws| - 1;
      OneWord(ws[n]);
      assert ws[..n] + [ws[n]] == ws;
      if n > 0 {
        WordsOfJoin(ws[..n]);
        WordsSplit(Join(ws[..n]), ws[n]);
      }
    }
  }

  lemma {:induction false} JoinAppend(a: seq<string>, b: seq<string>)
    requires a != [] && b != []
    ensures Join(a + b) == Join(a) + " " + Join(b)
  {
    var n := |b| - 1;
    assert (a + b)[..|a| + n] == a + b[..n];
    if n == 0 {
      assert a + b[..n] == a;
    } else {
      JoinAppend(a, b[..n]);
      assert Join(a) + " " + (Join(b[..n]) + " " + b[n]) == (Join(a) + " " + Join(b[..n])) + " " + b[n];
    }
  }

  /** Nothing but single blanks between words: every white space is a blank with a word on either side. */
  ghost predicate SingleSpaced(s: string) {
    forall i :: 0 <= i < |s| && IsSpace(s[i]) ==> s[i] == ' ' && 0 < i < |s| - 1 && !IsSpace(s[i + 1])
  }

  lemma Spliced(a: string, b: string)
    requires SingleSpaced(a) && SingleSpaced(b) && a != "" && b != ""
    ensures SingleSpaced(a + " " + b)
  {
    var s := a + " " + b;
    assert !IsSpace(b[0]);
    forall i | 0 <= i < |s| && IsSpace(s[i])
      ensures s[i] == ' ' && 0 < i < |s| - 1 && !IsSpace(s[i + 1])
    {
      if i < |a| {
        assert a[i] == s[i] && a[i + 1] == s[i + 1];
      } else if i > |a| {
        var k := i - |a| - 1;
        assert b[k] == s[i] && b[k + 1] == s[i + 1];
      } else {
        assert s[i + 1] == b[0];
      }
    }
  }

  lemma {:induction false} JoinSingleSpaced(ws: seq<string>)
    requires AllWords(ws)
    ensures SingleSpaced(Join(ws)) && (ws != [] ==> Join(ws) != "")
  {
    if |ws| > 1 {
      var n := |ws| - 1;
      JoinSingleSpaced(ws[..n]);
      Spliced(Join(ws[..n]), ws[n]);
    }
  }

  lemma Halves(s: string, p: nat)
    requires SingleSpaced(s) && p < |s| && IsSpace(s[p])
    ensures s == s[..p] + " " + s[p + 1..]
    ensures SingleSpaced(s[..p]) && SingleSpaced(s[p + 1..]) && s[..p] != "" && s[p + 1..] != ""
  {
    var a, b := s[..p], s[p + 1..];
    forall i | 0 <= i < |a| && IsSpace(a[i])
      ensures a[i] == ' ' && 0 < i < |a| - 1 && !IsSpace(a[i + 1])
    {
      assert s[i] == a[i] && !IsSpace(s[i + 1]);
    }
    forall i | 0 <= i < |b| && IsSpace(b[i])
      ensures b[i] == ' ' && 0 < i < |b| - 1 && !IsSpace(b[i + 1])
    {
      assert s[p + 1 + i] == b[i] && s[p + 1 + i + 1] == s[i + p + 2];
      assert !IsSpace(s[p + 1]);
    }
  }

  lemma {:induction false} SingleSpacedRejoins(s: string)
    requires SingleSpaced(s)
    ensures Join(Words(s)) == s
    decreases |s|
  {
    if p: nat :| p < |s| && IsSpace(s[p]) {
      var a, b := s[..p], s[p + 1..];
      Halves(s, p);
      SingleSpacedRejoins(a);
      SingleSpacedRejoins(b);
      WordsSplit(a, b);
      JoinAppend(Words(a), Words(b));
    } else if s != "" {
      OneWord(s);
    }
  }

  /** Splitting into words and joining again changes nothing exactly on single-spaced text. */
  lemma RejoinsIff(s: string)
    ensures Join(Words(s)) == s <==> SingleSpaced(s)
  {
    JoinSingleSpaced(Words(s));
    if SingleSpaced(s) {
      SingleSpacedRejoins(s);
    }
  }
}
