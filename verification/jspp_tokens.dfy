/** What the tokens of JavaScript text are, said of the text alone: where each kind starts and ends. The cutting of the
    scanners is the only one that keeps to it. */
module TokenRules {
  import opened Common
  import opened Scanner

  // ---------- Ends ----------

  /** e is behind the first of the characters from i on that has the property at hand, or the end if none has. */
  predicate EndsLine(code: string, i: nat, e: nat) {
    && i <= e <= |code|
    && (forall k :: i <= k < |code| && code[k] == '\n' ==> e <= k + 1)
    && (e == |code| || (e > i && code[e - 1] == '\n'))
  }

  predicate EndsLiteral(code: string, i: nat, quote: char, e: nat) {
    && i <= e <= |code|
    && (forall k: nat :: Bare(code, i, k, quote) ==> e <= k + 1)
    && (e == |code| || (e > i && Bare(code, i, e - 1, quote)))
  }

  predicate EndsBlock(code: string, i: nat, e: nat) {
    && i + 2 <= e <= |code| && ClosesBlock(code, e - 2)
    && forall k: nat :: i <= k && ClosesBlock(code, k) ==> e <= k + 2
  }

  predicate FirstStop(code: string, from: nat, r: nat) {
    RegexStop(code, from, r) && forall k: nat :: k < r ==> !RegexStop(code, from, k)
  }

  /** The slash at r closes the regular expression that the one at i opens. */
  predicate ClosesRegex(code: string, i: nat, r: nat) {
    FirstStop(code, i + 1, r) && code[r] == '/'
  }

  /** Behind the slash come flags up to e, and no more of them. */
  predicate EndsFlags(code: string, i: nat, e: nat) {
    && i <= e <= |code| && (forall k :: i <= k < e ==> IsRegexFlag(code[k]))
    && (e < |code| ==> !IsRegexFlag(code[e]))
  }

  ghost predicate IsBlockComment(code: string, i: nat) {
    StartsBlockComment(code, i) && exists k: nat :: i + 2 <= k && ClosesBlock(code, k)
  }

  /** A slash that stands where no value has just ended, and that another one closes. */
  ghost predicate IsRegex(code: string, i: nat, last: char) {
    i < |code| && code[i] == '/' && LooksLikeRegexStart(last) && exists r: nat :: ClosesRegex(code, i, r)
  }

  // ---------- Tokens ----------

  /** What stands from t.from up to t.to, and what the next token finds before it. */
  ghost predicate Proper(code: string, t: Token, last: char) {
    t.from < t.to <= |code| && var ch := code[t.from];
    match t.kind
    case Literal => IsQuote(ch) && EndsLiteral(code, t.from + 1, ch, t.to) && t.last == 'x'
    case Comment =>
      && t.last == last
      && (if StartsLineComment(code, t.from) then EndsLine(code, t.from, t.to)
          else StartsBlockComment(code, t.from) && EndsBlock(code, t.from + 2, t.to))
    case Regex =>
      && !StartsLineComment(code, t.from) && !IsBlockComment(code, t.from) && ch == '/' && LooksLikeRegexStart(last)
      && (exists r: nat :: ClosesRegex(code, t.from, r) && EndsFlags(code, r + 1, t.to)) && t.last == 'x'
    case Code =>
      && !IsQuote(ch) && !StartsLineComment(code, t.from) && !IsBlockComment(code, t.from) && !IsRegex(code, t.from, last)
      && t.to == t.from + 1 && t.last == if IsSpace(ch) then last else ch
  }

  /** The text from i on, cut into such tokens without gaps. */
  ghost predicate IsCut(code: string, ts: seq<Token>, i: nat, last: char) {
    if ts == [] then i == |code|
    else ts[0].from == i && Proper(code, ts[0], last) && IsCut(code, ts[1..], ts[0].to, ts[0].last)
  }

  // ---------- The scanners keep to it ----------

  lemma {:induction false} LineEndIs(code: string, i: nat)
    requires i <= |code|
    ensures EndsLine(code, i, LineEnd(code, i))
    decreases |code| - i
  {
    if i < |code| && code[i] != '\n' { LineEndIs(code, i + 1); }
  }

  lemma {:induction false} FlagsEndIs(code: string, i: nat)
    requires i <= |code|
    ensures EndsFlags(code, i, FlagsEnd(code, i))
    decreases |code| - i
  {
    if i < |code| && IsRegexFlag(code[i]) { FlagsEndIs(code, i + 1); }
  }

  lemma LiteralEndIs(code: string, i: nat, quote: char)
    requires i <= |code| && quote != '\\'
    ensures EndsLiteral(code, i, quote, StringEnd(code, i, quote))
  {
    StringEndIsFirstBare(code, i, quote);
  }

  lemma RegexCloseIs(code: string, i: nat)
    requires i < |code|
    ensures var r := RegexClose(code, i + 1, false);
      if r == -1 then forall k: nat :: !ClosesRegex(code, i, k) else ClosesRegex(code, i, r)
  {
    RegexCloseIsFirstStop(code, i + 1);
  }

  lemma NextIsProper(code: string, i: nat, last: char)
    requires i < |code|
    ensures Proper(code, Next(code, i, last), last)
  {
    var ch := code[i];
    if IsQuote(ch) {
      LiteralEndIs(code, i + 1, ch);
    } else if StartsLineComment(code, i) {
      LineEndIs(code, i);
    } else if StartsBlockComment(code, i) && BlockClose(code, i + 2) != -1 {
    } else if ch == '/' && LooksLikeRegexStart(last) {
      RegexCloseIs(code, i);
      var r := RegexClose(code, i + 1, false);
      if r != -1 { FlagsEndIs(code, r + 1); }
    }
  }

  // ---------- There is no other ----------

  lemma OneClose(code: string, i: nat, r: nat, q: nat)
    requires ClosesRegex(code, i, r) && ClosesRegex(code, i, q)
    ensures r == q
  {
    assert !(q < r) && !(r < q);
  }

  lemma OneFlagsEnd(code: string, i: nat, e: nat, f: nat)
    requires EndsFlags(code, i, e) && EndsFlags(code, i, f)
    ensures e == f
  {
    assert !(e < f) && !(f < e);
  }

  lemma OneKind(code: string, t: Token, u: Token, last: char)
    requires Proper(code, t, last) && Proper(code, u, last) && t.from == u.from
    ensures t.kind == u.kind
  {
    assert t.kind == Comment && !StartsLineComment(code, t.from) ==> ClosesBlock(code, t.to - 2);
    assert u.kind == Comment && !StartsLineComment(code, t.from) ==> ClosesBlock(code, u.to - 2);
  }

  lemma OneProper(code: string, t: Token, u: Token, last: char)
    requires Proper(code, t, last) && Proper(code, u, last) && t.from == u.from
    ensures t == u
  {
    OneKind(code, t, u, last);
    if t.kind == Regex {
      var r: nat :| ClosesRegex(code, t.from, r) && EndsFlags(code, r + 1, t.to);
      var q: nat :| ClosesRegex(code, t.from, q) && EndsFlags(code, q + 1, u.to);
      OneClose(code, t.from, r, q);
      OneFlagsEnd(code, r + 1, t.to, u.to);
    } else {
      assert !(t.to < u.to) && !(u.to < t.to);
    }
  }

  /** The tokens that the scanners follow are the one cutting of the text that keeps to the rules. */
  lemma {:induction false} TokensExactly(code: string, ts: seq<Token>, i: nat, last: char)
    requires i <= |code|
    ensures IsCut(code, ts, i, last) <==> ts == Tokens(code, i, last)
    decreases |code| - i
  {
    if i < |code| {
      var t := Next(code, i, last);
      NextIsProper(code, i, last);
      assert Tokens(code, i, last) == [t] + Tokens(code, t.to, t.last) && Tokens(code, i, last)[1..] == Tokens(code, t.to, t.last);
      if ts != [] && ts[0] == t {
        TokensExactly(code, ts[1..], t.to, t.last);
        assert ts == [t] + ts[1..];
      } else if IsCut(code, ts, i, last) {
        OneProper(code, t, ts[0], last);
      }
    }
  }
}
