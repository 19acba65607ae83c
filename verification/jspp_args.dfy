/** Cutting the argument list of an import call at its top-level commas. */
module ImportArgs {
  import opened Scanner

  // ---------- Where an argument ends ----------

  /** Inside a literal (quote is its quote), or outside with so many brackets open. */
  datatype Place = Place(quote: char, depth: int)

  predicate Opens(c: char) { c == '(' || c == '[' || c == '{' }

  predicate Closes(c: char) { c == ')' || c == ']' || c == '}' }

  /** The place behind the character at i. A quote behind an odd number of backslashes ends no literal. */
  function Behind(text: string, i: nat, p: Place): Place
    requires i < |text|
  {
    var c := text[i];
    if p.quote != '\0' then
      if c == p.quote && Backslashes(text, 0, i) % 2 == 0 then p.(quote := '\0') else p
    else if c == '\'' || c == '"' then p.(quote := c)
    else if Opens(c) then p.(depth := p.depth + 1)
    else if Closes(c) then p.(depth := p.depth - 1)
    else p
  }

  function PlaceAt(text: string, i: nat): Place
    requires i <= |text|
  {
    if i == 0 then Place('\0', 0) else Behind(text, i - 1, PlaceAt(text, i - 1))
  }

  predicate TopComma(text: string, i: nat) {
    i < |text| && text[i] == ',' && PlaceAt(text, i) == Place('\0', 0)
  }

  // ---------- The arguments ----------

  /** White space as the library trims it. */
  predicate IsWhite(c: char) {
    '\t' <= c <= '\r' || c == ' ' || c == '\U{85}' || c == '\U{A0}' || c == '\U{1680}' || '\U{2000}' <= c <= '\U{200A}'
    || c == '\U{2028}' || c == '\U{2029}' || c == '\U{202F}' || c == '\U{205F}' || c == '\U{3000}'
  }

  function TrimLeft(s: string): string {
    if s != "" && IsWhite(s[0]) then TrimLeft(s[1..]) else s
  }

  function Trim(s: string): string {
    if s != "" && IsWhite(s[|s| - 1]) then Trim(s[..|s| - 1]) else TrimLeft(s)
  }

  /** Neither end is white space. */
  predicate Bare(s: string) {
    s != "" ==> !IsWhite(s[0]) && !IsWhite(s[|s| - 1])
  }

  lemma {:induction false} Trimmed(s: string)
    ensures Bare(Trim(s))
    decreases |s|
  {
    if s != "" {
      if IsWhite(s[|s| - 1]) { Trimmed(s[..|s| - 1]); } else { LeftTrimmed(s); }
    }
  }

  lemma {:induction false} LeftTrimmed(s: string)
    ensures TrimLeft(s) != "" ==> !IsWhite(TrimLeft(s)[0]) && TrimLeft(s)[|TrimLeft(s)| - 1] == s[|s| - 1]
    decreases |s|
  {
    if s != "" && IsWhite(s[0]) { LeftTrimmed(s[1..]); }
  }

  function Start(commas: seq<nat>): nat {
    if commas == [] then 0 else commas[|commas| - 1] + 1
  }

  /** Positions in the text, one behind the other. */
  predicate Ascends(text: string, commas: seq<nat>) {
    commas == [] || (Ascends(text, commas[..|commas| - 1]) && Start(commas[..|commas| - 1]) <= commas[|commas| - 1] < |text|)
  }

  /** The arguments in front of the given commas. */
  function Closed(text: string, commas: seq<nat>): seq<string>
    requires Ascends(text, commas)
  {
    if commas == [] then []
    else
      var most, last := commas[..|commas| - 1], commas[|commas| - 1];
      Closed(text, most) + [Trim(text[Start(most)..last])]
  }

  /** The arguments between and behind them; an empty one at the end does not count. */
  function Args(text: string, commas: seq<nat>): seq<string>
    requires Ascends(text, commas)
  {
    var last := Trim(text[Start(commas)..]);
    Closed(text, commas) + if last != "" then [last] else []
  }

  /** There are as many arguments as commas, and none begins or ends with white space. */
  lemma {:induction false} ClosedBare(text: string, commas: seq<nat>)
    requires Ascends(text, commas)
    ensures |Closed(text, commas)| == |commas|
    ensures forall a :: a in Closed(text, commas) ==> Bare(a)
    decreases |commas|
  {
    if commas != [] {
      var most, last := commas[..|commas| - 1], commas[|commas| - 1];
      ClosedBare(text, most);
      Trimmed(text[Start(most)..last]);
    }
  }

  /** The top-level commas of the first n characters. */
  function CommasOf(text: string, n: nat): (commas: seq<nat>)
    requires n <= |text|
    ensures Ascends(text, commas) && Start(commas) <= n
  {
    if n == 0 then []
    else
      var before := CommasOf(text, n - 1);
      assert (before + [n - 1])[..|before|] == before;
      if TopComma(text, n - 1) then before + [n - 1] else before
  }

  lemma {:induction false} CommasAreTop(text: string, n: nat)
    requires n <= |text|
    ensures forall i: nat :: i in CommasOf(text, n) <==> i < n && TopComma(text, i)
  {
    if n > 0 { CommasAreTop(text, n - 1); }
  }

  lemma {:induction false} BackslashesSince(text: string, from: nat, q: nat, i: nat)
    requires from <= q < i <= |text| && text[q] != '\\'
    ensures Backslashes(text, from, i) == Backslashes(text, 0, i)
    decreases i
  {
    if i - 1 > q { BackslashesSince(text, from, q, i - 1); }
  }

  /** Up to i: the arguments in front of the top-level commas, and where the next one starts. */
  predicate Cutting(text: string, i: nat, args: seq<string>, start: nat) {
    i <= |text| && start == Start(CommasOf(text, i)) <= i && args == Closed(text, CommasOf(text, i))
  }

  lemma GoesOn(text: string, i: nat, args: seq<string>, start: nat)
    requires Cutting(text, i, args, start) && i < |text| && !TopComma(text, i)
    ensures Cutting(text, i + 1, args, start)
  {
    assert CommasOf(text, i + 1) == CommasOf(text, i);
  }

  lemma CutsHere(text: string, i: nat, args: seq<string>, start: nat)
    requires Cutting(text, i, args, start) && TopComma(text, i)
    ensures Cutting(text, i + 1, args + [Trim(text[start..i])], i + 1)
  {
    var commas := CommasOf(text, i);
    assert CommasOf(text, i + 1) == commas + [i] && (commas + [i])[..|commas|] == commas;
  }

  /** splitImportArgs */
  method SplitImportArgs(text: string) returns (args: seq<string>)
    ensures args == Args(text, CommasOf(text, |text|))
    ensures |CommasOf(text, |text|)| <= |args| <= |CommasOf(text, |text|)| + 1
    ensures forall a :: a in args ==> Bare(a)
  {
    args := [];
    var depth, quote, start := 0, '\0', 0;
    ghost var q: nat := 0;
    for i := 0 to |text|
      invariant PlaceAt(text, i) == Place(quote, depth) && Cutting(text, i, args, start)
      invariant quote == '\0' || (start <= q < i && text[q] == quote && quote != '\\')
    {
      if quote == '\0' && text[i] == ',' && depth == 0 {
        CutsHere(text, i, args, start);
        args := args + [Trim(text[start..i])];
        start := i + 1;
      } else {
        GoesOn(text, i, args, start);
        quote, depth, q := MoveOn(text, start, i, quote, depth, q);
      }
    }
    ClosedBare(text, CommasOf(text, |text|));
    Trimmed(text[start..]);
    var last := Trim(text[start..]);
    if last != "" {
      args := args + [last];
    }
  }

  /** The place behind any other character. */
  method MoveOn(text: string, start: nat, i: nat, quote: char, depth: int, ghost q: nat)
    returns (quote': char, depth': int, ghost q': nat)
    requires start <= i < |text|
    requires quote == '\0' || (start <= q < i && text[q] == quote && quote != '\\')
    ensures Place(quote', depth') == Behind(text, i, Place(quote, depth))
    ensures quote' == '\0' || (start <= q' <= i && text[q'] == quote' && quote' != '\\')
  {
    quote', depth', q' := quote, depth, q;
    var c := text[i];
    if quote != '\0' {
      var ends := EndsLiteral(text, start, i, quote, q);
      if ends { quote' := '\0'; }
    } else if c == '\'' || c == '"' {
      quote', q' := c, i;
    } else if Opens(c) {
      depth' := depth + 1;
    } else if Closes(c) {
      depth' := depth - 1;
    }
  }

  /** The character at i ends the literal that was opened at q: backslashes are counted back to the argument's start. */
  method EndsLiteral(text: string, start: nat, i: nat, quote: char, ghost q: nat) returns (ends: bool)
    requires start <= q < i < |text| && text[q] != '\\'
    ensures ends <==> text[i] == quote && Backslashes(text, 0, i) % 2 == 0
  {
    if text[i] != quote {
      return false;
    }
    var bs, k := 0, i - 1;
    while k >= start && text[k] == '\\'
      invariant start - 1 <= k < i && bs == i - 1 - k
      invariant Backslashes(text, start, i) == bs + Backslashes(text, start, k + 1)
    {
      bs, k := bs + 1, k - 1;
    }
    BackslashesSince(text, start, q, i);
    return bs % 2 == 0;
  }

  // ---------- What is kept ----------

  /** The text in front of the given commas, and the commas. */
  function Front(text: string, commas: seq<nat>): string
    requires Ascends(text, commas)
  {
    if commas == [] then ""
    else
      var most, last := commas[..|commas| - 1], commas[|commas| - 1];
      Front(text, most) + text[Start(most)..last] + [text[last]]
  }

  /** Nothing but commas and white space around an argument is lost: the pieces, with their commas, are the text. */
  lemma {:induction false} PiecesAreText(text: string, commas: seq<nat>)
    requires Ascends(text, commas)
    ensures Front(text, commas) + text[Start(commas)..] == text
    decreases |commas|
  {
    if commas != [] {
      var most, last := commas[..|commas| - 1], commas[|commas| - 1];
      PiecesAreText(text, most);
      assert text[Start(most)..] == text[Start(most)..last] + [text[last]] + text[last + 1..];
    }
  }
}
