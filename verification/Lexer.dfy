/** The lexer (src/ir/input/lexer.cpp): a loop over the characters, and the recursive
    specification it refines. */
module Lexer {
  import opened Wrappers
  import opened Text

  datatype TokenType = Identifier | Number | StringToken | Symbol | BreakLine

  datatype Token = Token(kind: TokenType, value: string)

  const SYMBOLS: set<char> := {'%', '=', ',', ':', '-', '(', ')', '.'}

  const BREAK := Token(BreakLine, "\n")

  predicate IsBreak(c: char) {
    c == '\n' || c == '\r'
  }

  /** isspace of the C locale. */
  predicate IsSpace(c: char) {
    c == ' ' || ('\t' <= c <= '\r')
  }

  /** Position of the first closing quote after an opening one at the start. */
  function FindFrom(s: string, c: char, i: nat): (r: nat)
    requires i <= |s|
    ensures i <= r <= |s|
    ensures r < |s| ==> s[r] == c
    ensures forall j | i <= j < r :: s[j] != c
    decreases |s| - i
  {
    if i == |s| || s[i] == c then i else FindFrom(s, c, i + 1)
  }

  /** The text starts with a quoted string. */
  predicate StartsString(s: string) {
    s != [] && s[0] == '"' && FindFrom(s, '"', 1) < |s|
  }

  function Quoted(s: string): string
    requires StartsString(s)
  {
    s[1..FindFrom(s, '"', 1)]
  }

  function AfterString(s: string): (r: string)
    requires StartsString(s)
    ensures |r| < |s|
  {
    s[FindFrom(s, '"', 1) + 1..]
  }

  function SkipSpaces(s: string): (r: string)
    ensures |r| <= |s| && (r != [] ==> !IsSpace(r[0]))
  {
    if s != [] && IsSpace(s[0]) then SkipSpaces(s[1..]) else s
  }

  /** The token of what was collected, if anything. */
  function Word(word: string): seq<Token> {
    if word == [] then [] else [Token(if IsDigit(word[0]) then Number else Identifier, word)]
  }

  /** Tokens of a text that follows the collected characters of a word. The text after
      a semicolon, up to and with its newline, starts the next word. */
  function LexFrom(word: string, s: string): seq<Token>
    decreases |s|
  {
    if s == [] then Word(word)
    else if IsBreak(s[0]) then Word(word) + [BREAK] + LexFrom([], SkipSpaces(s[1..]))
    else if IsSpace(s[0]) then Word(word) + LexFrom([], SkipSpaces(s[1..]))
    else if s[0] == ';' then
      var stop := FindFrom(s, '\n', 1);
      Word(word) + if stop == |s| then Word(s[1..]) else LexFrom(s[1..stop + 1], s[stop + 1..])
    else if s[0] in SYMBOLS then Word(word) + [Token(Symbol, [s[0]])] + LexFrom([], s[1..])
    else if StartsString(s) then Word(word) + [Token(StringToken, Quoted(s))] + LexFrom([], AfterString(s))
    else LexFrom(word + [s[0]], s[1..])
  }

  function Tokens(input: string): seq<Token> {
    LexFrom([], input)
  }

  lemma {:induction false} FindFromSuffix(s: string, c: char, k: nat, i: nat)
    requires k <= i <= |s|
    ensures FindFrom(s, c, i) == k + FindFrom(s[k..], c, i - k)
    decreases |s| - i
  {
    if i < |s| && s[i] != c {
      FindFromSuffix(s, c, k, i + 1);
    }
  }

  lemma Associates<T>(a: seq<T>, b: seq<T>, c: seq<T>)
    ensures (a + b) + c == a + (b + c)
  {
  }

  /** get_symbol: the token and where it ends. */
  method GetSymbol(input: string, start: nat) returns (r: Option<(Token, nat)>)
    requires start < |input|
    ensures r == if input[start] in SYMBOLS then Some((Token(Symbol, [input[start]]), start + 1)) else None
  {
    if input[start] !in SYMBOLS {
      return None;
    }
    assert input[start..start + 1] == [input[start]];
    return Some((Token(Symbol, input[start..start + 1]), start + 1));
  }

  /** get_string: the token and where it ends. */
  method GetString(input: string, start: nat) returns (r: Option<(Token, nat)>)
    requires start < |input|
    ensures var s := input[start..];
            if StartsString(s)
            then r.Some? && start < r.value.1 <= |input| && r.value.0 == Token(StringToken, Quoted(s)) &&
              input[r.value.1..] == AfterString(s)
            else r == None
  {
    if input[start] != '"' {
      return None;
    }
    FindFromSuffix(input, '"', start, start + 1);
    var quote := FindFrom(input, '"', start + 1);
    if quote == |input| {
      return None;
    }
    return Some((Token(StringToken, input[start + 1..quote]), quote + 1));
  }

  /** dump_unconsumed: the token of the unconsumed range, if any, and the step over the
      current character. */
  method DumpUnconsumed(input: string, tokens: seq<Token>, unconsumed: nat, iter: nat)
      returns (r: seq<Token>, next: nat)
    requires unconsumed <= iter <= |input|
    ensures r == tokens + Word(input[unconsumed..iter]) && next == iter + 1
  {
    r := tokens;
    if unconsumed != iter {
      var kind := if IsDigit(input[unconsumed]) then Number else Identifier;
      r := r + [Token(kind, input[unconsumed..iter])];
    }
    next := iter + 1;
  }

  /** The unconsumed range, and what is left of the input. */
  ghost predicate Lexed(input: string, tokens: seq<Token>, unconsumed: nat, iter: nat) {
    unconsumed <= iter <= |input| && tokens + LexFrom(input[unconsumed..iter], input[iter..]) == Tokens(input)
  }

  lemma LexedBreak(input: string, tokens: seq<Token>, u: nat, i: nat)
    requires Lexed(input, tokens, u, i) && i < |input| && IsBreak(input[i])
    ensures (tokens + Word(input[u..i]) + [BREAK]) + LexFrom([], SkipSpaces(input[i + 1..])) == Tokens(input)
  {
    var s := input[i..];
    assert s[1..] == input[i + 1..];
    Associates(tokens, Word(input[u..i]) + [BREAK], LexFrom([], SkipSpaces(input[i + 1..])));
    Associates(tokens, Word(input[u..i]), [BREAK]);
  }

  lemma LexedSpace(input: string, tokens: seq<Token>, u: nat, i: nat)
    requires Lexed(input, tokens, u, i) && i < |input| && IsSpace(input[i]) && !IsBreak(input[i])
    ensures (tokens + Word(input[u..i])) + LexFrom([], SkipSpaces(input[i..])) == Tokens(input)
  {
    var s := input[i..];
    assert s[1..] == input[i + 1..];
    Associates(tokens, Word(input[u..i]), LexFrom([], SkipSpaces(input[i + 1..])));
  }

  lemma {:induction false} LexedComment(input: string, tokens: seq<Token>, u: nat, i: nat)
    requires Lexed(input, tokens, u, i) && i < |input| && input[i] == ';'
    ensures var stop := FindFrom(input, '\n', i + 1);
            var rest := if stop == |input| then Word(input[i + 1..])
              else LexFrom(input[i + 1..stop + 1], input[stop + 1..]);
            (tokens + Word(input[u..i])) + rest == Tokens(input)
  {
    var s := input[i..];
    FindFromSuffix(input, '\n', i, i + 1);
    var stop := FindFrom(s, '\n', 1);
    assert s[1..] == input[i + 1..];
    if stop == |s| {
      Associates(tokens, Word(input[u..i]), Word(s[1..]));
    } else {
      assert s[1..stop + 1] == input[i + 1..i + stop + 1] && s[stop + 1..] == input[i + stop + 1..];
      Associates(tokens, Word(input[u..i]), LexFrom(s[1..stop + 1], s[stop + 1..]));
    }
  }

  lemma LexedToken(input: string, tokens: seq<Token>, u: nat, i: nat, token: Token, next: nat)
    requires Lexed(input, tokens, u, i) && i < |input| && !IsSpace(input[i]) && input[i] != ';' && i < next <= |input|
    requires if input[i] in SYMBOLS then token == Token(Symbol, [input[i]]) && next == i + 1
             else
               StartsString(input[i..]) && token == Token(StringToken, Quoted(input[i..])) &&
               input[next..] == AfterString(input[i..])
    ensures Lexed(input, tokens + Word(input[u..i]) + [token], next, next)
  {
    var s := input[i..];
    assert s[1..] == input[i + 1..] && input[next..next] == [];
    Associates(tokens, Word(input[u..i]) + [token], LexFrom([], input[next..]));
    Associates(tokens, Word(input[u..i]), [token]);
  }

  lemma LexedPlain(input: string, tokens: seq<Token>, u: nat, i: nat)
    requires Lexed(input, tokens, u, i) && i < |input| && !IsSpace(input[i]) && input[i] != ';'
    requires input[i] !in SYMBOLS && !StartsString(input[i..])
    ensures Lexed(input, tokens, u, i + 1)
  {
    var s := input[i..];
    assert s[1..] == input[i + 1..] && input[u..i + 1] == input[u..i] + [input[i]];
  }

  /** The inner loop: each white space character is dumped. */
  method DumpSpaces(input: string, tokens: seq<Token>, unconsumed: nat, iter: nat)
      returns (r: seq<Token>, u: nat, i: nat)
    requires unconsumed <= iter <= |input|
    ensures u <= i <= |input| && (i < |input| ==> !IsSpace(input[i]))
    ensures if iter < |input| && IsSpace(input[iter])
            then r == tokens + Word(input[unconsumed..iter]) && u == i && input[i..] == SkipSpaces(input[iter..])
            else r == tokens && u == unconsumed && i == iter
  {
    r, u, i := tokens, unconsumed, iter;
    while i < |input| && IsSpace(input[i])
      invariant u <= i <= |input| && iter <= i
      invariant i == iter ==> r == tokens && u == unconsumed
      invariant i > iter ==> IsSpace(input[iter]) && r == tokens + Word(input[unconsumed..iter]) && u == i
      invariant SkipSpaces(input[iter..]) == SkipSpaces(input[i..])
      decreases |input| - i
    {
      assert input[i..][1..] == input[i + 1..] && (u == i ==> input[u..i] == []);
      r, i := DumpUnconsumed(input, r, u, i);
      u := i;
    }
  }

  /** The first half of a turn: line breaks and white space. */
  method LexSpace(input: string, tokens: seq<Token>, unconsumed: nat, iter: nat) returns (r: seq<Token>, u: nat, i: nat)
    requires Lexed(input, tokens, unconsumed, iter) && iter < |input|
    ensures Lexed(input, r, u, i) && i >= iter && (i < |input| ==> !IsSpace(input[i]))
  {
    hide LexFrom, StartsString, Word, SkipSpaces;
    r, u, i := tokens, unconsumed, iter;
    if IsBreak(input[i]) {
      LexedBreak(input, r, u, i);
      r, i := DumpUnconsumed(input, r, u, i);
      r := r + [BREAK];
      u := i;
      assert input[u..i] == [] && Word([]) == [] by { NoWord(); }
      NoSpaces(input[i..]);
    } else if IsSpace(input[i]) {
      LexedSpace(input, r, u, i);
    }
    r, u, i := DumpSpaces(input, r, u, i);
    assert u == i ==> input[u..i] == [];
  }

  /** The lexer's loop computes the specified tokens. Beyond the end of the input it sees
      a character that is neither white space nor a semicolon. */
  method Lex(input: string) returns (tokens: seq<Token>)
    ensures tokens == Tokens(input)
  {
    hide LexFrom, StartsString, Word, SkipSpaces, Lexed, Tokens;
    tokens := [];
    var iter: nat, unconsumed: nat := 0, 0;
    LexedStart(input);
    while iter < |input|
      invariant unconsumed <= iter <= |input| && Lexed(input, tokens, unconsumed, iter)
      decreases |input| - iter
    {
      tokens, unconsumed, iter := LexSpace(input, tokens, unconsumed, iter);
      LexedBounds(input, tokens, unconsumed, iter);
      if iter < |input| && input[iter] == ';' {
        ghost var before, u, i := tokens, unconsumed, iter;
        tokens, iter := DumpUnconsumed(input, tokens, unconsumed, iter);
        unconsumed := iter;
        iter := FindFrom(input, '\n', iter);
        CommentLexed(input, before, u, i);
        if iter == |input| {
          break;
        }
        iter := iter + 1;
        continue;
      }
      if iter == |input| {
        break;
      }
      var symbol := GetSymbol(input, iter);
      var str := GetString(input, iter);
      if symbol.Some? {
        LexedToken(input, tokens, unconsumed, iter, symbol.value.0, symbol.value.1);
        tokens, iter := DumpUnconsumed(input, tokens, unconsumed, iter);
        tokens := tokens + [symbol.value.0];
        iter := symbol.value.1;
        unconsumed := iter;
      } else if str.Some? {
        LexedToken(input, tokens, unconsumed, iter, str.value.0, str.value.1);
        tokens, iter := DumpUnconsumed(input, tokens, unconsumed, iter);
        tokens := tokens + [str.value.0];
        iter := str.value.1;
        unconsumed := iter;
      } else {
        LexedPlain(input, tokens, unconsumed, iter);
        iter := iter + 1;
      }
    }
    LexedEnd(input, tokens, unconsumed, iter);
    tokens, iter := DumpUnconsumed(input, tokens, unconsumed, iter);
  }

  lemma LexedStart(input: string)
    ensures Lexed(input, [], 0, 0)
  {
    assert input[0..0] == [] && input[0..] == input;
  }

  lemma LexedBounds(input: string, tokens: seq<Token>, u: nat, i: nat)
    requires Lexed(input, tokens, u, i)
    ensures u <= i <= |input|
  {
  }

  lemma LexedEnd(input: string, tokens: seq<Token>, u: nat, i: nat)
    requires Lexed(input, tokens, u, i) && i == |input|
    ensures u <= i && tokens + Word(input[u..i]) == Tokens(input)
  {
    assert input[i..] == [];
  }

  /** The state after a semicolon: at the newline that ends the comment, where no token
      starts, or at the end of the input. */
  lemma CommentLexed(input: string, tokens: seq<Token>, u: nat, i: nat)
    requires Lexed(input, tokens, u, i) && i < |input| && input[i] == ';'
    ensures var stop := FindFrom(input, '\n', i + 1);
            if stop == |input| then Lexed(input, tokens + Word(input[u..i]), i + 1, stop)
            else Lexed(input, tokens + Word(input[u..i]), i + 1, stop + 1)
  {
    LexedComment(input, tokens, u, i);
    var stop := FindFrom(input, '\n', i + 1);
    if stop == |input| {
      assert input[stop..] == [] && input[i + 1..stop] == input[i + 1..];
    }
  }

  lemma NoWord()
    ensures Word([]) == []
  {
  }

  lemma NoSpaces(s: string)
    ensures s == [] || !IsSpace(s[0]) ==> SkipSpaces(s) == s
  {
  }

  // What the tokens are, on input without comments

  /** A character that matters, a quoted string, or a line break that counts. */
  datatype Item = Char(c: char) | Quote(text: string) | Break

  /** The input character by character: white space outside strings counts only where a
      newline or carriage return starts the input or directly follows other characters. */
  function Items(s: string, first: bool): seq<Item>
    decreases |s|
  {
    if s == [] then []
    else if IsBreak(s[0]) && first then [Break] + Items(s[1..], false)
    else if IsSpace(s[0]) then Items(s[1..], false)
    else if StartsString(s) then [Quote(Quoted(s))] + Items(AfterString(s), true)
    else [Char(s[0])] + Items(s[1..], true)
  }

  function Chars(s: string): seq<Item> {
    if s == [] then [] else [Char(s[0])] + Chars(s[1..])
  }

  function TokenItems(token: Token): seq<Item> {
    match token.kind
    case BreakLine => [Break]
    case StringToken => [Quote(token.value)]
    case _ => Chars(token.value)
  }

  function Flatten(tokens: seq<Token>): seq<Item> {
    if tokens == [] then [] else TokenItems(tokens[0]) + Flatten(tokens[1..])
  }

  /** No semicolon outside strings. */
  predicate CommentFree(s: string)
    decreases |s|
  {
    s == [] || (if StartsString(s) then CommentFree(AfterString(s)) else s[0] != ';' && CommentFree(s[1..]))
  }

  lemma {:induction false} FlattenAppend(a: seq<Token>, b: seq<Token>)
    ensures Flatten(a + b) == Flatten(a) + Flatten(b)
  {
    if a == [] {
      assert a + b == b;
    } else {
      assert (a + b)[1..] == a[1..] + b && (a + b)[0] == a[0];
      FlattenAppend(a[1..], b);
      Associates(TokenItems(a[0]), Flatten(a[1..]), Flatten(b));
    }
  }

  lemma FlattenOne(token: Token)
    ensures Flatten([token]) == TokenItems(token)
  {
    assert [token][1..] == [];
  }

  lemma FlattenWord(word: string)
    ensures Flatten(Word(word)) == Chars(word)
  {
    if word != [] {
      FlattenOne(Word(word)[0]);
    }
  }

  lemma {:induction false} CharsGrow(word: string, c: char)
    ensures Chars(word + [c]) == Chars(word) + [Char(c)]
  {
    if word == [] {
      assert word + [c] == [c] && [c][1..] == [];
    } else {
      assert (word + [c])[1..] == word[1..] + [c];
      CharsGrow(word[1..], c);
    }
  }

  lemma {:induction false} SpacesVanish(s: string)
    requires CommentFree(s)
    ensures Items(s, false) == Items(SkipSpaces(s), true) && CommentFree(SkipSpaces(s))
  {
    if s != [] && IsSpace(s[0]) {
      SpacesVanish(s[1..]);
    }
  }

  /** Nothing is lost and nothing is added: read back in order, the tokens are the
      characters of the input without its white space, its strings, and one break for
      every newline or carriage return that starts the input or directly follows a
      character that is not white space. */
  lemma {:induction false} LexingKeepsText(word: string, s: string)
    requires CommentFree(s)
    ensures Flatten(LexFrom(word, s)) == Chars(word) + Items(s, true)
    decreases |s|
  {
    hide Flatten, Chars, Word, SkipSpaces, StartsString;
    FlattenWord(word);
    if s == [] {
      Associates(Chars(word), [], []);
    } else if IsSpace(s[0]) {
      assert CommentFree(s[1..]) by { SpaceIsNoQuote(s); }
      SpacesVanish(s[1..]);
      LexingKeepsText([], SkipSpaces(s[1..]));
      NoChars();
      var rest := LexFrom([], SkipSpaces(s[1..]));
      if IsBreak(s[0]) {
        FlattenAppend(Word(word) + [BREAK], rest);
        FlattenAppend(Word(word), [BREAK]);
        FlattenOne(BREAK);
        Associates(Chars(word), [Break], Flatten(rest));
      } else {
        FlattenAppend(Word(word), rest);
      }
    } else if s[0] in SYMBOLS {
      SymbolIsNoQuote(s);
      LexingKeepsText([], s[1..]);
      NoChars();
      TokenKeepsText(word, Token(Symbol, [s[0]]), LexFrom([], s[1..]));
      OneChar(s[0]);
    } else if StartsString(s) {
      QuoteFirst(s);
      LexingKeepsText([], AfterString(s));
      NoChars();
      TokenKeepsText(word, Token(StringToken, Quoted(s)), LexFrom([], AfterString(s)));
    } else {
      LexingKeepsText(word + [s[0]], s[1..]);
      CharsGrow(word, s[0]);
      Associates(Chars(word), [Char(s[0])], Items(s[1..], true));
    }
  }

  lemma TokenKeepsText(word: string, token: Token, rest: seq<Token>)
    ensures Flatten(Word(word) + [token] + rest) == Chars(word) + (TokenItems(token) + Flatten(rest))
  {
    FlattenAppend(Word(word) + [token], rest);
    FlattenAppend(Word(word), [token]);
    FlattenWord(word);
    FlattenOne(token);
    Associates(Chars(word), TokenItems(token), Flatten(rest));
  }

  lemma NoChars()
    ensures Chars([]) == [] && forall x: seq<Item> :: [] + x == x
  {
  }

  lemma OneChar(c: char)
    ensures Chars([c]) == [Char(c)]
  {
    assert [c][1..] == [];
  }

  lemma QuoteFirst(s: string)
    requires StartsString(s)
    ensures s[0] == '"'
  {
  }

  lemma SpaceIsNoQuote(s: string)
    requires s != [] && IsSpace(s[0])
    ensures !StartsString(s)
  {
  }

  lemma SymbolIsNoQuote(s: string)
    requires s != [] && s[0] in SYMBOLS
    ensures !StartsString(s)
  {
  }
}
