/** One cutting of JavaScript text into tokens - literals, comments and single characters of code - and the two
    scanners that follow it without building it. */
module Scanner {
  import opened Common

  // ---------- Escapes ----------

  /** Position k, seen from `from`, is behind an escaping backslash. */
  predicate Escaped(code: string, from: nat, k: nat)
    requires from <= k <= |code|
  {
    k > from && code[k - 1] == '\\' && !Escaped(code, from, k - 1)
  }

  /** How many backslashes stand directly before k, counted back to `from`. */
  function Backslashes(code: string, from: nat, k: nat): nat
    requires from <= k <= |code|
  {
    if k > from && code[k - 1] == '\\' then 1 + Backslashes(code, from, k - 1) else 0
  }

  lemma {:induction false} EscapedIsOdd(code: string, from: nat, k: nat)
    requires from <= k <= |code|
    ensures Escaped(code, from, k) <==> Backslashes(code, from, k) % 2 == 1
    decreases k
  {
    if k > from && code[k - 1] == '\\' { EscapedIsOdd(code, from, k - 1); }
  }

  predicate Bare(code: string, from: nat, k: nat, target: char) {
    from <= k < |code| && code[k] == target && !Escaped(code, from, k)
  }

  /** findUnescapedBacktick and findUnescapedByte: the first target that is not escaped. */
  method FindUnescapedByte(text: string, from: nat, target: char) returns (r: int)
    ensures r == -1 ==> forall k: nat :: !Bare(text, from, k, target)
    ensures r != -1 ==> r >= 0 && Bare(text, from, r, target) && forall k: nat :: k < r ==> !Bare(text, from, k, target)
  {
    var j := from;
    while j < |text|
      invariant from <= j && (from <= |text| ==> j <= |text|)
      invariant forall k: nat :: k < j ==> !Bare(text, from, k, target)
    {
      if text[j] != target {
        j := j + 1;
        continue;
      }
      var bs, k := 0, j - 1;
      while k >= from && text[k] == '\\'
        invariant from - 1 <= k < j && bs == j - 1 - k
        invariant Backslashes(text, from, j) == bs + Backslashes(text, from, k + 1)
      {
        bs := bs + 1;
        k := k - 1;
      }
      EscapedIsOdd(text, from, j);
      if bs % 2 == 0 {
        return j;
      }
      j := j + 1;
    }
    return -1;
  }

  // ---------- The ends of tokens ----------

  /** Behind the quote that closes a literal, or the end of the text if none does. */
  function StringEnd(code: string, i: nat, quote: char): (e: nat)
    requires i <= |code|
    ensures i <= e <= |code|
    decreases |code| - i
  {
    if i == |code| then i
    else if code[i] == '\\' && i + 1 < |code| then StringEnd(code, i + 2, quote)
    else if code[i] == quote then i + 1
    else StringEnd(code, i + 1, quote)
  }

  lemma {:induction false} EscapeSkips(code: string, from: nat, i: nat, quote: char)
    requires from <= i <= |code| && quote != '\\' && !Escaped(code, from, i)
    ensures var e := StringEnd(code, i, quote);
      if exists k: nat :: k >= i && Bare(code, from, k, quote)
      then e > i && Bare(code, from, e - 1, quote) && forall k: nat :: i <= k < e - 1 ==> !Bare(code, from, k, quote)
      else e == |code|
    decreases |code| - i
  {
    if i < |code| {
      if code[i] == '\\' && i + 1 < |code| {
        assert Escaped(code, from, i + 1);
        assert !Escaped(code, from, i + 2);
        EscapeSkips(code, from, i + 2, quote);
        assert forall k: nat :: i <= k < i + 2 ==> !Bare(code, from, k, quote);
      } else if code[i] == quote {
        assert Bare(code, from, i, quote);
      } else {
        if i + 1 < |code| {
          assert !Escaped(code, from, i + 1);
        }
        if code[i] != '\\' {
          EscapeSkips(code, from, i + 1, quote);
        } else {
          assert StringEnd(code, i + 1, quote) == |code|;
        }
        assert !Bare(code, from, i, quote);
      }
    }
  }

  /** Stepping over escaped characters from the front finds the same closing quote as counting backslashes back
      from every quote: the end of a template literal is where both say. */
  lemma StringEndIsFirstBare(code: string, from: nat, quote: char)
    requires from <= |code| && quote != '\\'
    ensures var e := StringEnd(code, from, quote);
      if exists k: nat :: Bare(code, from, k, quote)
      then e > from && Bare(code, from, e - 1, quote) && forall k: nat :: k < e - 1 ==> !Bare(code, from, k, quote)
      else e == |code|
  {
    EscapeSkips(code, from, from, quote);
    assert forall k: nat :: Bare(code, from, k, quote) ==> k >= from;
  }

  predicate StartsLineComment(code: string, i: nat) {
    i + 1 < |code| && code[i] == '/' && code[i + 1] == '/'
  }

  predicate StartsBlockComment(code: string, i: nat) {
    i + 1 < |code| && code[i] == '/' && code[i + 1] == '*'
  }

  predicate ClosesBlock(code: string, k: nat) {
    k + 1 < |code| && code[k] == '*' && code[k + 1] == '/'
  }

  /** The library search for the end of a block comment, from i on; -1 if there is none. */
  function BlockClose(code: string, i: nat): (r: int)
    ensures r == -1 ==> forall k: nat :: k >= i ==> !ClosesBlock(code, k)
    ensures r != -1 ==> r >= i && ClosesBlock(code, r) && forall k: nat :: i <= k < r ==> !ClosesBlock(code, k)
    decreases |code| - i
  {
    if i >= |code| then -1 else if ClosesBlock(code, i) then i else BlockClose(code, i + 1)
  }

  /** Behind the newline that ends a line, or the end of the text. */
  function LineEnd(code: string, i: nat): (e: nat)
    requires i <= |code|
    ensures i <= e <= |code|
    decreases |code| - i
  {
    if i == |code| then i else if code[i] == '\n' then i + 1 else LineEnd(code, i + 1)
  }

  predicate LooksLikeRegexStart(last: char) {
    last in {'\0', '(', '=', ',', ':', ';', '[', '{', '!', '&', '|', '?', '+', '-', '*', '%', '<', '>', '\n'}
  }

  predicate IsRegexFlag(ch: char) {
    ch in {'g', 'i', 'm', 's', 'u', 'y', 'd'}
  }

  function FlagsEnd(code: string, i: nat): (e: nat)
    requires i <= |code|
    ensures i <= e <= |code|
    decreases |code| - i
  {
    if i < |code| && IsRegexFlag(code[i]) then FlagsEnd(code, i + 1) else i
  }

  /** Where a regular expression that goes on at i closes: at the first bare slash outside a character class, if
      that comes before any bare newline; -1 otherwise. */
  function RegexClose(code: string, i: nat, inClass: bool): (r: int)
    requires i <= |code|
    ensures r == -1 || (i <= r < |code| && code[r] == '/')
    decreases |code| - i
  {
    if i == |code| then -1
    else if code[i] == '\\' && i + 1 < |code| then RegexClose(code, i + 2, inClass)
    else if code[i] == '\n' then -1
    else if code[i] == '[' then RegexClose(code, i + 1, true)
    else if code[i] == ']' then RegexClose(code, i + 1, false)
    else if code[i] == '/' && !inClass then i
    else RegexClose(code, i + 1, inClass)
  }

  method FindRegexLiteralEnd(code: string, from: nat) returns (r: int)
    requires from <= |code|
    ensures r == RegexClose(code, from, false)
  {
    var inClass, i := false, from;
    while i < |code|
      invariant i <= |code| && RegexClose(code, from, false) == RegexClose(code, i, inClass)
    {
      var ch := code[i];
      if ch == '\\' && i + 1 < |code| {
        i := i + 2;
        continue;
      }
      if ch == '\n' { return -1; }
      if ch == '[' {
        inClass := true;
      } else if ch == ']' {
        inClass := false;
      } else if ch == '/' && !inClass {
        return i;
      }
      i := i + 1;
    }
    return -1;
  }

  /** Between `from` and k a character class is open: the last bare bracket before k is an opening one. */
  predicate InClass(code: string, from: nat, k: nat)
    requires from <= k <= |code|
  {
    k > from
    && if Escaped(code, from, k - 1) then InClass(code, from, k - 1)
       else code[k - 1] == '[' || (code[k - 1] != ']' && InClass(code, from, k - 1))
  }

  predicate RegexStop(code: string, from: nat, k: nat) {
    from <= k < |code| && !Escaped(code, from, k)
    && (code[k] == '\n' || (code[k] == '/' && !InClass(code, from, k)))
  }

  lemma {:induction false} RegexCloseFrom(code: string, from: nat, i: nat)
    requires from <= i <= |code| && !Escaped(code, from, i)
    requires forall k: nat :: k < i ==> !RegexStop(code, from, k)
    ensures var r := RegexClose(code, i, InClass(code, from, i));
      if r == -1 then forall k: nat :: RegexStop(code, from, k) ==> exists j: nat :: j <= k && RegexStop(code, from, j) && code[j] == '\n'
      else RegexStop(code, from, r) && code[r] == '/' && forall k: nat :: k < r ==> !RegexStop(code, from, k)
    decreases |code| - i
  {
    if i < |code| {
      if code[i] == '\\' && i + 1 < |code| {
        assert Escaped(code, from, i + 1) && !Escaped(code, from, i + 2);
        assert InClass(code, from, i + 2) == InClass(code, from, i + 1) == InClass(code, from, i);
        RegexCloseFrom(code, from, i + 2);
      } else if code[i] == '\n' {
        assert RegexStop(code, from, i);
      } else if code[i] != '/' || InClass(code, from, i) {
        if code[i] == '\\' {
          assert RegexClose(code, i + 1, InClass(code, from, i)) == -1;
        } else {
          RegexCloseFrom(code, from, i + 1);
        }
      }
    }
  }

  /** FindRegexLiteralEnd answers the first stop of the literal if that is a slash, and -1 if it is a newline or
      there is none. */
  lemma RegexCloseIsFirstStop(code: string, from: nat)
    requires from <= |code|
    ensures var r := RegexClose(code, from, false);
      if r == -1 then forall k: nat :: RegexStop(code, from, k) ==> exists j: nat :: j <= k && RegexStop(code, from, j) && code[j] == '\n'
      else RegexStop(code, from, r) && code[r] == '/' && forall k: nat :: k < r ==> !RegexStop(code, from, k)
  {
    RegexCloseFrom(code, from, from);
  }

  // ---------- Tokens ----------

  datatype Kind = Literal | Comment | Regex | Code

  /** A token is the text from `from` up to `to`; `last` is the last significant character behind it. */
  datatype Token = Token(kind: Kind, from: nat, to: nat, last: char)

  predicate IsQuote(ch: char) {
    ch == '\'' || ch == '"' || ch == '`'
  }

  predicate IsSpace(ch: char) {
    ch == ' ' || ch == '\t' || ch == '\n' || ch == '\r'
  }

  /** The token at i, when `last` is the last significant character before it. */
  function Next(code: string, i: nat, last: char): (t: Token)
    requires i < |code|
    ensures t.from == i < t.to <= |code|
  {
    if IsQuote(code[i]) then
      Token(Literal, i, StringEnd(code, i + 1, code[i]), 'x')
    else if StartsLineComment(code, i) then
      Token(Comment, i, LineEnd(code, i), last)
    else if StartsBlockComment(code, i) && BlockClose(code, i + 2) != -1 then
      Token(Comment, i, BlockClose(code, i + 2) + 2, last)
    else if code[i] == '/' && LooksLikeRegexStart(last) && RegexClose(code, i + 1, false) != -1 then
      Token(Regex, i, FlagsEnd(code, RegexClose(code, i + 1, false) + 1), 'x')
    else
      Token(Code, i, i + 1, if IsSpace(code[i]) then last else code[i])
  }

  function Tokens(code: string, i: nat, last: char): seq<Token>
    requires i <= |code|
    decreases |code| - i
  {
    if i == |code| then []
    else var t := Next(code, i, last); [t] + Tokens(code, t.to, t.last)
  }

  function Text(code: string, t: Token): string
    requires t.from <= t.to <= |code|
  {
    code[t.from..t.to]
  }

  predicate Fits(code: string, ts: seq<Token>) {
    forall k :: 0 <= k < |ts| ==> ts[k].from <= ts[k].to <= |code|
  }

  function AllText(code: string, ts: seq<Token>): string
    requires Fits(code, ts)
  {
    if ts == [] then "" else Text(code, ts[0]) + AllText(code, ts[1..])
  }

  /** The tokens are the text, cut without gaps. */
  lemma {:induction false} TokensPartition(code: string, i: nat, last: char)
    requires i <= |code|
    ensures Fits(code, Tokens(code, i, last)) && AllText(code, Tokens(code, i, last)) == code[i..]
    decreases |code| - i
  {
    if i < |code| {
      var t := Next(code, i, last);
      TokensPartition(code, t.to, t.last);
      assert Tokens(code, i, last)[1..] == Tokens(code, t.to, t.last);
      assert code[i..] == code[i..t.to] + code[t.to..];
    }
  }

  lemma AllTextPlus(code: string, t: Token, rest: seq<Token>)
    requires t.from <= t.to <= |code| && Fits(code, rest)
    ensures Fits(code, [t] + rest) && AllText(code, [t] + rest) == Text(code, t) + AllText(code, rest)
  {
  }

  // ---------- Cutting comments ----------

  function NoComments(ts: seq<Token>): seq<Token> {
    if ts == [] then [] else (if ts[0].kind == Comment then [] else [ts[0]]) + NoComments(ts[1..])
  }

  /** The text from i on without its comments, token by token. */
  function Uncommented(code: string, i: nat, last: char): string
    requires i <= |code|
    decreases |code| - i
  {
    if i == |code| then ""
    else
      var t := Next(code, i, last);
      (if t.kind == Comment then "" else Text(code, t)) + Uncommented(code, t.to, t.last)
  }

  lemma {:induction false} UncommentedIsTheRest(code: string, i: nat, last: char)
    requires i <= |code|
    ensures Fits(code, NoComments(Tokens(code, i, last)))
    ensures Uncommented(code, i, last) == AllText(code, NoComments(Tokens(code, i, last)))
    decreases |code| - i
  {
    if i < |code| {
      var t := Next(code, i, last);
      UncommentedIsTheRest(code, t.to, t.last);
      assert Tokens(code, i, last)[1..] == Tokens(code, t.to, t.last);
      var rest := NoComments(Tokens(code, t.to, t.last));
      assert NoComments(Tokens(code, i, last)) == if t.kind == Comment then rest else [t] + rest;
      AllTextPlus(code, t, rest);
    }
  }

  /** What a scanner at i has still to put out: inside a literal (quote is its quote) or between tokens. */
  function Remaining(code: string, i: nat, quote: char, last: char): string
    requires i <= |code|
  {
    if quote == '\0' then Uncommented(code, i, last)
    else code[i..StringEnd(code, i, quote)] + Uncommented(code, StringEnd(code, i, quote), 'x')
  }

  lemma LiteralEscape(code: string, i: nat, quote: char, last: char)
    requires i + 1 < |code| && IsQuote(quote) && code[i] == '\\'
    ensures Remaining(code, i, quote, last) == code[i..i + 2] + Remaining(code, i + 2, quote, last)
  {
    var e := StringEnd(code, i + 2, quote);
    assert StringEnd(code, i, quote) == e && code[i..e] == code[i..i + 2] + code[i + 2..e];
    Assoc(code[i..i + 2], code[i + 2..e], Uncommented(code, e, 'x'));
  }

  lemma LiteralChar(code: string, i: nat, quote: char, last: char)
    requires i < |code| && IsQuote(quote) && (code[i] == '\\' ==> i + 1 == |code|)
    ensures Remaining(code, i, quote, last)
      == [code[i]] + if code[i] == quote then Remaining(code, i + 1, '\0', 'x') else Remaining(code, i + 1, quote, last)
  {
    if code[i] == quote {
      assert StringEnd(code, i, quote) == i + 1 && code[i..i + 1] == [code[i]];
    } else {
      var e := StringEnd(code, i + 1, quote);
      assert StringEnd(code, i, quote) == e && code[i..e] == [code[i]] + code[i + 1..e];
      Assoc([code[i]], code[i + 1..e], Uncommented(code, e, 'x'));
    }
  }

  lemma AtToken(code: string, i: nat, last: char)
    requires i < |code|
    ensures var t := Next(code, i, last);
      Remaining(code, i, '\0', last) == (if t.kind == Comment then "" else Text(code, t)) + Remaining(code, t.to, '\0', t.last)
  {
  }

  lemma AtQuote(code: string, i: nat, last: char)
    requires i < |code| && IsQuote(code[i])
    ensures Remaining(code, i, '\0', last) == [code[i]] + Remaining(code, i + 1, code[i], last)
  {
    var e := StringEnd(code, i + 1, code[i]);
    assert Next(code, i, last) == Token(Literal, i, e, 'x');
    assert code[i..e] == [code[i]] + code[i + 1..e];
    Assoc([code[i]], code[i + 1..e], Uncommented(code, e, 'x'));
  }

  method SkipLine(code: string, i: nat) returns (j: nat)
    requires StartsLineComment(code, i)
    ensures j == LineEnd(code, i)
  {
    j := i + 2;
    while j < |code| && code[j] != '\n'
      invariant i + 2 <= j <= |code| && LineEnd(code, i) == LineEnd(code, j)
    {
      j := j + 1;
    }
    if j < |code| { j := j + 1; }
  }

  /** From the slash that closes a literal over its flags. */
  method SkipFlags(code: string, end: nat) returns (i: nat)
    requires end < |code|
    ensures i + 1 == FlagsEnd(code, end + 1)
  {
    i := end;
    while i + 1 < |code| && IsRegexFlag(code[i + 1])
      invariant end <= i < |code| && FlagsEnd(code, end + 1) == FlagsEnd(code, i + 1)
    {
      i := i + 1;
    }
  }

  /** One round of the loop of cutComments inside a literal, and the piece of text it copies. */
  method CutInLiteral(code: string, i0: nat, quote0: char, last0: char)
    returns (i: nat, quote: char, last: char, piece: string)
    requires i0 < |code| && IsQuote(quote0)
    ensures i0 < i <= |code| && (quote == '\0' || IsQuote(quote))
    ensures Remaining(code, i0, quote0, last0) == piece + Remaining(code, i, quote, last)
  {
    var ch := code[i0];
    quote, last := quote0, last0;
    if ch == '\\' && i0 + 1 < |code| {
      LiteralEscape(code, i0, quote, last);
      return i0 + 2, quote, last, code[i0..i0 + 2];
    }
    LiteralChar(code, i0, quote, last);
    if ch == quote {
      quote, last := '\0', 'x';
    }
    i, piece := i0 + 1, [ch];
  }

  /** What both scanners do at a character that opens no literal: step over a comment, a regular expression with
      its flags, or this one character. */
  method StepOver(code: string, i: nat, last: char) returns (t: Token)
    requires i < |code| && !IsQuote(code[i])
    ensures t == Next(code, i, last)
  {
    var ch := code[i];
    if ch == '/' && i + 1 < |code| && code[i + 1] == '/' {
      var j := SkipLine(code, i);
      return Token(Comment, i, j, last);
    }
    if ch == '/' && i + 1 < |code| && code[i + 1] == '*' {
      var end := BlockClose(code, i + 2);
      if end != -1 {
        return Token(Comment, i, end + 2, last);
      }
    }
    if ch == '/' && LooksLikeRegexStart(last) {
      var end := FindRegexLiteralEnd(code, i + 1);
      if end != -1 {
        var flags := SkipFlags(code, end);
        return Token(Regex, i, flags + 1, 'x');
      }
    }
    t := Token(Code, i, i + 1, last);
    if ch != ' ' && ch != '\t' && ch != '\n' && ch != '\r' {
      t := t.(last := ch);
    }
  }

  /** One round of the loop of cutComments between tokens. */
  method CutToken(code: string, i0: nat, last0: char) returns (i: nat, quote: char, last: char, piece: string)
    requires i0 < |code|
    ensures i0 < i <= |code| && (quote == '\0' || IsQuote(quote))
    ensures Remaining(code, i0, '\0', last0) == piece + Remaining(code, i, quote, last)
  {
    var ch := code[i0];
    if ch == '\'' || ch == '"' || ch == '`' {
      AtQuote(code, i0, last0);
      return i0 + 1, ch, last0, [ch];
    }
    AtToken(code, i0, last0);
    var t := StepOver(code, i0, last0);
    i, quote, last, piece := t.to, '\0', t.last, if t.kind == Comment then "" else code[i0..t.to];
  }

  /** cutComments keeps exactly the tokens that are not comments. */
  method CutComments(code: string) returns (out: string)
    ensures Fits(code, NoComments(Tokens(code, 0, '\0')))
    ensures out == AllText(code, NoComments(Tokens(code, 0, '\0')))
  {
    UncommentedIsTheRest(code, 0, '\0');
    out := "";
    var quote, last, i := '\0', '\0', 0;
    while i < |code|
      invariant i <= |code| && (quote == '\0' || IsQuote(quote))
      invariant Uncommented(code, 0, '\0') == out + Remaining(code, i, quote, last)
    {
      var piece;
      if quote != '\0' {
        i, quote, last, piece := CutInLiteral(code, i, quote, last);
      } else {
        i, quote, last, piece := CutToken(code, i, last);
      }
      Assoc(out, piece, Remaining(code, i, quote, last));
      out := out + piece;
    }
  }

  // ---------- Matching braces ----------

  function Closer(brace: char): char {
    match brace
    case '{' => '}'
    case '(' => ')'
    case '[' => ']'
    case _ => '\0'
  }

  predicate IsCode(code: string, t: Token, ch: char) {
    t.kind == Code && t.from < |code| && code[t.from] == ch
  }

  /** How many braces the first k tokens leave open (negative if they close too many). */
  function Depth(code: string, ts: seq<Token>, k: nat, brace: char): int
    requires k <= |ts|
  {
    if k == 0 then 0
    else
      var most := Depth(code, ts, k - 1, brace);
      if IsCode(code, ts[k - 1], brace) then most + 1
      else if IsCode(code, ts[k - 1], Closer(brace)) then most - 1
      else most
  }

  /** The same search along the text. */
  function Match(code: string, i: nat, last: char, depth: int, brace: char): int
    requires i <= |code|
    decreases |code| - i
  {
    if i == |code| then -1
    else
      var t := Next(code, i, last);
      if IsCode(code, t, brace) then Match(code, t.to, t.last, depth + 1, brace)
      else if IsCode(code, t, Closer(brace)) then
        if depth == 1 then i else Match(code, t.to, t.last, depth - 1, brace)
      else Match(code, t.to, t.last, depth, brace)
  }

  lemma {:induction false} DepthTail(code: string, ts: seq<Token>, k: nat, brace: char)
    requires 0 < k <= |ts|
    ensures Depth(code, ts, k, brace) == Depth(code, ts, 1, brace) + Depth(code, ts[1..], k - 1, brace)
    decreases k
  {
    if k > 1 { DepthTail(code, ts, k - 1, brace); }
  }

  lemma NoneOpenedByOne(code: string, ts: seq<Token>, brace: char)
    requires ts != []
    ensures Depth(code, ts, 1, brace) == if IsCode(code, ts[0], brace) then 1 else if IsCode(code, ts[0], Closer(brace)) then -1 else 0
  {
  }

  /** Where the k-th token of a text closes the `extra` braces that were open before it and all that it opened. */
  predicate ClosesTo(code: string, ts: seq<Token>, k: nat, extra: int, brace: char) {
    k < |ts| && !IsCode(code, ts[k], brace) && IsCode(code, ts[k], Closer(brace)) && extra + Depth(code, ts, k + 1, brace) == 0
  }

  predicate FirstAt(code: string, ts: seq<Token>, k: nat, extra: int, brace: char) {
    ClosesTo(code, ts, k, extra, brace) && forall j: nat :: j < k ==> !ClosesTo(code, ts, j, extra, brace)
  }

  /** r is where the first token that closes the braces stands, or -1 if none does. */
  predicate FirstToClose(code: string, ts: seq<Token>, extra: int, brace: char, r: int) {
    if r == -1 then forall k: nat :: k < |ts| ==> !ClosesTo(code, ts, k, extra, brace)
    else exists k: nat :: k < |ts| && ts[k].from == r && FirstAt(code, ts, k, extra, brace)
  }

  lemma ClosesLater(code: string, ts: seq<Token>, k: nat, extra: int, brace: char)
    requires 0 < k < |ts|
    ensures ClosesTo(code, ts, k, extra, brace) <==> ClosesTo(code, ts[1..], k - 1, extra + Depth(code, ts, 1, brace), brace)
  {
    DepthTail(code, ts, k + 1, brace);
  }

  lemma FirstLater(code: string, ts: seq<Token>, extra: int, brace: char, r: int)
    requires ts != [] && !ClosesTo(code, ts, 0, extra, brace)
    requires FirstToClose(code, ts[1..], extra + Depth(code, ts, 1, brace), brace, r)
    ensures FirstToClose(code, ts, extra, brace, r)
  {
    forall k | 0 < k < |ts| ensures
      ClosesTo(code, ts, k, extra, brace) <==> ClosesTo(code, ts[1..], k - 1, extra + Depth(code, ts, 1, brace), brace)
    {
      ClosesLater(code, ts, k, extra, brace);
    }
    if r != -1 {
      var inner := extra + Depth(code, ts, 1, brace);
      var k: nat :| k < |ts[1..]| && ts[1..][k].from == r && FirstAt(code, ts[1..], k, inner, brace);
      assert ts[k + 1].from == r && FirstAt(code, ts, k + 1, extra, brace);
    }
  }

  lemma {:induction false} MatchIsFirst(code: string, i: nat, last: char, depth: int, brace: char)
    requires i <= |code|
    ensures FirstToClose(code, Tokens(code, i, last), depth, brace, Match(code, i, last, depth, brace))
    decreases |code| - i
  {
    if i < |code| {
      var t, ts := Next(code, i, last), Tokens(code, i, last);
      NoneOpenedByOne(code, ts, brace);
      assert ts[0] == t && ts[1..] == Tokens(code, t.to, t.last);
      if ClosesTo(code, ts, 0, depth, brace) {
        assert Match(code, i, last, depth, brace) == i && FirstAt(code, ts, 0, depth, brace);
      } else {
        MatchIsFirst(code, t.to, t.last, depth + Depth(code, ts, 1, brace), brace);
        FirstLater(code, ts, depth, brace, Match(code, t.to, t.last, depth + Depth(code, ts, 1, brace), brace));
      }
    }
  }

  /** Where a scanner at i still has to look: behind the literal it is in, if any. */
  function Sought(code: string, i: nat, quote: char, last: char, depth: int, brace: char): int
    requires i <= |code|
  {
    if quote == '\0' then Match(code, i, last, depth, brace)
    else Match(code, StringEnd(code, i, quote), 'x', depth, brace)
  }

  method FindMatchingBrace(code: string, start: nat, brace: char) returns (r: int)
    requires start <= |code|
    ensures FirstToClose(code, Tokens(code, start, '\0'), 0, brace, r)
    ensures r == Match(code, start, '\0', 0, brace)
    ensures r != -1 ==> start <= r < |code|
    ensures r != -1 ==> (brace == '{' ==> code[r] == '}') && (brace == '(' ==> code[r] == ')') && (brace == '[' ==> code[r] == ']')
  {
    MatchIsFirst(code, start, '\0', 0, brace);
    var contr := Closer(brace);
    var stack, quote, last, i := 0, '\0', '\0', start;
    while i < |code|
      invariant i <= |code| && (quote == '\0' || IsQuote(quote))
      invariant Match(code, start, '\0', 0, brace) == Sought(code, i, quote, last, stack, brace)
    {
      var ch := code[i];
      if quote != '\0' {
        if ch == '\\' && i + 1 < |code| {
          i := i + 2;
          continue;
        }
        if ch == quote {
          quote, last := '\0', 'x';
        }
        i := i + 1;
        continue;
      }
      if ch == '\'' || ch == '"' || ch == '`' {
        quote := ch;
        i := i + 1;
        continue;
      }
      var t := StepOver(code, i, last);
      if t.kind == Code {
        if ch == brace {
          stack := stack + 1;
        } else if ch == contr {
          stack := stack - 1;
          if stack == 0 {
            return i;
          }
        }
      }
      i, last := t.to, t.last;
    }
    return -1;
  }

  /** From an opening brace of code, the answer is the brace that closes it: everything before leaves it open. */
  lemma {:induction false} OpenUntilMatched(code: string, ts: seq<Token>, k: nat, j: nat, brace: char)
    requires ts != [] && IsCode(code, ts[0], brace) && brace != Closer(brace)
    requires k < |ts| && FirstAt(code, ts, k, 0, brace) && 0 < j <= k
    ensures Depth(code, ts, j, brace) > 0
    decreases j
  {
    if j == 1 {
      NoneOpenedByOne(code, ts, brace);
    } else {
      OpenUntilMatched(code, ts, k, j - 1, brace);
      assert !ClosesTo(code, ts, j - 1, 0, brace);
    }
  }

  // ---------- Import calls ----------

  const MARKER := "lx.import("

  predicate MarkerAt(code: string, i: nat) {
    i + |MARKER| <= |code| && code[i..i + |MARKER|] == MARKER
  }

  predicate IsIdentByte(b: char) {
    b == '_' || b == '$' || 'a' <= b <= 'z' || 'A' <= b <= 'Z' || '0' <= b <= '9'
  }

  /** The end of an import call at i: behind its closing parenthesis; -1 if there is no such call. */
  function CallEnd(code: string, i: nat): int {
    if MarkerAt(code, i) && (i == 0 || !IsIdentByte(code[i - 1])) && Match(code, i + |MARKER| - 1, '\0', 0, '(') != -1
    then Match(code, i + |MARKER| - 1, '\0', 0, '(') + 1
    else -1
  }

  lemma {:induction false} MatchInside(code: string, i: nat, last: char, depth: int, brace: char)
    requires i <= |code|
    ensures var r := Match(code, i, last, depth, brace); r == -1 || i <= r < |code|
    decreases |code| - i
  {
    if i < |code| {
      var t := Next(code, i, last);
      var d := if IsCode(code, t, brace) then depth + 1 else if IsCode(code, t, Closer(brace)) then depth - 1 else depth;
      MatchInside(code, t.to, t.last, d, brace);
    }
  }

  datatype Span = Span(start: nat, end: nat)

  /** The library search for the marker. */
  method IndexOfMarker(code: string, i: nat) returns (r: int)
    requires i <= |code|
    ensures r == -1 ==> forall k: nat :: k >= i ==> !MarkerAt(code, k)
    ensures r != -1 ==> r >= i && MarkerAt(code, r) && forall k: nat :: i <= k < r ==> !MarkerAt(code, k)
  {
    var k := i;
    while k < |code|
      invariant i <= k <= |code| && forall j: nat :: i <= j < k ==> !MarkerAt(code, j)
    {
      if k + |MARKER| <= |code| && code[k..k + |MARKER|] == MARKER {
        return k;
      }
      k := k + 1;
    }
    return -1;
  }

  predicate InSpan(spans: seq<Span>, i: nat) {
    exists k :: 0 <= k < |spans| && spans[k].start <= i < spans[k].end
  }

  predicate AreCalls(code: string, spans: seq<Span>) {
    && (forall k :: 0 <= k < |spans| ==> spans[k].start < spans[k].end <= |code| && CallEnd(code, spans[k].start) == spans[k].end)
    && (forall j, k :: 0 <= j < k < |spans| ==> spans[j].end <= spans[k].start)
  }

  /** Up to n every call is found or lies inside one that is. */
  ghost predicate FoundUpTo(code: string, spans: seq<Span>, n: nat) {
    forall i: nat :: i < n && CallEnd(code, i) != -1 ==> InSpan(spans, i)
  }

  ghost predicate NoCall(code: string, from: nat, to: nat) {
    forall i: nat :: from <= i < to ==> CallEnd(code, i) == -1
  }

  lemma FoundMore(code: string, spans: seq<Span>, n: nat, to: nat)
    requires FoundUpTo(code, spans, n) && NoCall(code, n, to)
    ensures FoundUpTo(code, spans, to)
  {
  }

  lemma AddCall(code: string, spans: seq<Span>, s: Span)
    requires AreCalls(code, spans) && FoundUpTo(code, spans, s.start)
    requires s.start < s.end <= |code| && CallEnd(code, s.start) == s.end
    requires forall k :: 0 <= k < |spans| ==> spans[k].end <= s.start
    ensures AreCalls(code, spans + [s]) && FoundUpTo(code, spans + [s], s.end)
  {
    forall i: nat | i < s.end && CallEnd(code, i) != -1 ensures InSpan(spans + [s], i) {
      if i < s.start {
        var k :| 0 <= k < |spans| && spans[k].start <= i < spans[k].end;
        assert (spans + [s])[k] == spans[k];
      } else {
        assert (spans + [s])[|spans|] == s;
      }
    }
  }

  /** A marker does not begin inside another. */
  lemma NoMarkerInside(code: string, i: nat)
    requires MarkerAt(code, i)
    ensures forall k: nat :: i < k < i + |MARKER| ==> !MarkerAt(code, k)
  {
    forall k: nat | i < k < i + |MARKER| ensures !MarkerAt(code, k) {
      assert code[k] == code[i..i + |MARKER|][k - i] == MARKER[k - i] != 'l';
      assert k + |MARKER| <= |code| ==> code[k..k + |MARKER|][0] == code[k] && MARKER[0] == 'l';
    }
  }

  /** One round of the loop of findImportCalls, at a marker. */
  method ImportCallAt(code: string, idx: nat) returns (close: int, next: nat)
    requires MarkerAt(code, idx)
    ensures idx < next <= |code|
    ensures close == -1 ==> NoCall(code, idx, next)
    ensures close != -1 ==> next == close + 1 && CallEnd(code, idx) == next
  {
    NoMarkerInside(code, idx);
    if idx > 0 && IsIdentByte(code[idx - 1]) {
      return -1, idx + 1;
    }
    var open := idx + |MARKER| - 1;
    close := FindMatchingBrace(code, open, '(');
    MatchInside(code, open, '\0', 0, '(');
    next := if close == -1 then idx + |MARKER| else close + 1;
  }

  /** findImportCalls: separate spans in order, each a whole call; every other call lies inside one of them. */
  method FindImportCalls(code: string) returns (spans: seq<Span>)
    ensures AreCalls(code, spans) && FoundUpTo(code, spans, |code|)
  {
    spans := [];
    var i := 0;
    while i < |code|
      invariant i <= |code| && AreCalls(code, spans) && FoundUpTo(code, spans, i)
      invariant forall k :: 0 <= k < |spans| ==> spans[k].end <= i
    {
      var idx := IndexOfMarker(code, i);
      if idx == -1 {
        FoundMore(code, spans, i, |code|);
        return;
      }
      FoundMore(code, spans, i, idx);
      var close, next := ImportCallAt(code, idx);
      if close == -1 {
        FoundMore(code, spans, idx, next);
      } else {
        AddCall(code, spans, Span(idx, next));
        spans := spans + [Span(idx, next)];
      }
      i := next;
    }
  }
}
