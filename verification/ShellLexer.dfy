/**
How a POSIX shell reads a simple command line: the quoting rules of section 2.2
of the POSIX.1-2017 Shell Command Language (backslash, single quotes, double
quotes) and the token boundaries of section 2.3, with parameter expansion inside
double quotes. A construct outside this fragment makes the line unreadable.
*/
module ShellLexer {
  import opened Primitives

  datatype ShellToken = Word(text: string) | Operator(op: string)

  datatype Mode = Unquoted | SingleQuoted | DoubleQuoted

  type Environment = map<string, string>

  function Lookup(env: Environment, name: string): string {
    if name in env then env[name] else ""
  }

  predicate IsNameChar(c: char) {
    'a' <= c <= 'z' || 'A' <= c <= 'Z' || '0' <= c <= '9' || c == '_'
  }

  /** The longest prefix made of name characters. */
  function NameLength(s: string): (n: nat)
    ensures n <= |s|
  {
    if s == "" || !IsNameChar(s[0]) then 0 else 1 + NameLength(s[1..])
  }

  predicate IsBlank(c: char) {
    c == ' ' || c == '\t'
  }

  predicate IsOperatorChar(c: char) {
    c == '&' || c == '|' || c == ';' || c == '<' || c == '>' || c == '(' || c == ')' || c == '\n'
  }

  /** Characters whose unquoted meaning lies outside the fragment: expansions, patterns, comments. */
  predicate IsUnread(c: char) {
    c == '$' || c == '`' || c == '*' || c == '?' || c == '[' || c == '#' || c == '~'
  }

  /** Characters a backslash escapes inside double quotes. */
  predicate IsDoubleEscapable(c: char) {
    c == '$' || c == '`' || c == '"' || c == '\\'
  }

  function Finish(word: Option<string>): seq<ShellToken> {
    if word.None? then [] else [Word(word.value)]
  }

  function Grow(word: Option<string>, text: string): Option<string> {
    if word.None? then Some(text) else if text == "" then word else Some(word.value + text)
  }

  function After(tokens: seq<ShellToken>, rest: Option<seq<ShellToken>>): Option<seq<ShellToken>> {
    if rest.None? then None else Some(tokens + rest.value)
  }

  /** The tokens of `s`, `word` being the one already begun. */
  function Lex(mode: Mode, word: Option<string>, s: string, env: Environment): Option<seq<ShellToken>>
    decreases |s|
  {
    if s == "" then (if mode == Unquoted then Some(Finish(word)) else None)
    else
      match mode
      case Unquoted => LexUnquoted(word, s, env)
      case SingleQuoted =>
        if s[0] == '\'' then Lex(Unquoted, word, s[1..], env)
        else Lex(SingleQuoted, Grow(word, [s[0]]), s[1..], env)
      case DoubleQuoted => LexDoubleQuoted(word, s, env)
  }

  function LexUnquoted(word: Option<string>, s: string, env: Environment): Option<seq<ShellToken>>
    requires s != ""
    decreases |s|, 0
  {
    var c, rest := s[0], s[1..];
    if IsBlank(c) then After(Finish(word), Lex(Unquoted, None, rest, env))
    else if c == '\'' then Lex(SingleQuoted, Grow(word, ""), rest, env)
    else if c == '"' then Lex(DoubleQuoted, Grow(word, ""), rest, env)
    else if c == '\\' then
      if rest == "" then None
      else if rest[0] == '\n' then Lex(Unquoted, word, rest[1..], env)
      else Lex(Unquoted, Grow(word, [rest[0]]), rest[1..], env)
    else if c == '&' && rest != "" && rest[0] == '&' then
      After(Finish(word) + [Operator("&&")], Lex(Unquoted, None, rest[1..], env))
    else if IsOperatorChar(c) then After(Finish(word) + [Operator([c])], Lex(Unquoted, None, rest, env))
    else if IsUnread(c) then None
    else Lex(Unquoted, Grow(word, [c]), rest, env)
  }

  function LexDoubleQuoted(word: Option<string>, s: string, env: Environment): Option<seq<ShellToken>>
    requires s != ""
    decreases |s|, 0
  {
    var c, rest := s[0], s[1..];
    if c == '"' then Lex(Unquoted, word, rest, env)
    else if c == '\\' then
      if rest == "" then None
      else if rest[0] == '\n' then Lex(DoubleQuoted, word, rest[1..], env)
      else if IsDoubleEscapable(rest[0]) then Lex(DoubleQuoted, Grow(word, [rest[0]]), rest[1..], env)
      else Lex(DoubleQuoted, Grow(word, "\\"), rest, env)
    else if c == '$' then
      var n := NameLength(rest);
      if n == 0 then None else Lex(DoubleQuoted, Grow(word, Lookup(env, rest[..n])), rest[n..], env)
    else if c == '`' then None
    else Lex(DoubleQuoted, Grow(word, [c]), rest, env)
  }

  /** A command line, from its start. */
  function Tokens(line: string, env: Environment): Option<seq<ShellToken>> {
    Lex(Unquoted, None, line, env)
  }

  // ---- characters that mean themselves --------------------------------------

  /** No quoting, splitting or expansion touches this character. */
  predicate IsPlain(c: char) {
    !IsBlank(c) && !IsOperatorChar(c) && !IsUnread(c) && c != '\'' && c != '"' && c != '\\'
  }

  predicate IsPlainWord(w: string) {
    w != "" && forall c :: c in w ==> IsPlain(c)
  }

  lemma GrowGrow(word: Option<string>, a: string, b: string)
    ensures Grow(Grow(word, a), b) == Grow(word, a + b)
  {
    assert a + "" == a && "" + b == b;
    if word.Some? { assert word.value + a + b == word.value + (a + b); }
  }

  // ---- single steps ---------------------------------------------------------

  lemma UnquotedStep(word: Option<string>, c: char, rest: string, env: Environment)
    ensures IsBlank(c) ==>
              Lex(Unquoted, word, [c] + rest, env) == After(Finish(word), Lex(Unquoted, None, rest, env))
    ensures c == '\'' ==> Lex(Unquoted, word, [c] + rest, env) == Lex(SingleQuoted, Grow(word, ""), rest, env)
    ensures c == '"' ==> Lex(Unquoted, word, [c] + rest, env) == Lex(DoubleQuoted, Grow(word, ""), rest, env)
    ensures IsPlain(c) ==> Lex(Unquoted, word, [c] + rest, env) == Lex(Unquoted, Grow(word, [c]), rest, env)
  {
    var s := [c] + rest;
    assert s[0] == c && s[1..] == rest;
    assert Lex(Unquoted, word, s, env) == LexUnquoted(word, s, env);
  }

  lemma UnquotedEscape(word: Option<string>, c: char, rest: string, env: Environment)
    requires c != '\n'
    ensures Lex(Unquoted, word, ['\\', c] + rest, env) == Lex(Unquoted, Grow(word, [c]), rest, env)
  {
    var s := ['\\', c] + rest;
    assert s[0] == '\\' && s[1..][0] == c && s[1..][1..] == rest;
    assert Lex(Unquoted, word, s, env) == LexUnquoted(word, s, env);
  }

  lemma UnquotedAnd(word: Option<string>, rest: string, env: Environment)
    ensures Lex(Unquoted, word, ['&', '&'] + rest, env)
            == After(Finish(word) + [Operator("&&")], Lex(Unquoted, None, rest, env))
  {
    var s := ['&', '&'] + rest;
    assert s[0] == '&' && s[1..][0] == '&' && s[1..][1..] == rest;
    assert Lex(Unquoted, word, s, env) == LexUnquoted(word, s, env);
  }

  lemma SingleStep(word: Option<string>, c: char, rest: string, env: Environment)
    ensures Lex(SingleQuoted, word, [c] + rest, env)
            == if c == '\'' then Lex(Unquoted, word, rest, env) else Lex(SingleQuoted, Grow(word, [c]), rest, env)
  {
    var s := [c] + rest;
    assert s[0] == c && s[1..] == rest;
  }

  lemma DoubleStep(word: Option<string>, c: char, rest: string, env: Environment)
    ensures c == '"' ==> Lex(DoubleQuoted, word, [c] + rest, env) == Lex(Unquoted, word, rest, env)
    ensures !IsDoubleEscapable(c) ==>
              Lex(DoubleQuoted, word, [c] + rest, env) == Lex(DoubleQuoted, Grow(word, [c]), rest, env)
  {
    var s := [c] + rest;
    assert s[0] == c && s[1..] == rest;
    assert Lex(DoubleQuoted, word, s, env) == LexDoubleQuoted(word, s, env);
  }

  lemma DoubleEscape(word: Option<string>, c: char, rest: string, env: Environment)
    requires IsDoubleEscapable(c)
    ensures Lex(DoubleQuoted, word, ['\\', c] + rest, env) == Lex(DoubleQuoted, Grow(word, [c]), rest, env)
  {
    var s := ['\\', c] + rest;
    assert s[0] == '\\' && s[1..][0] == c && s[1..][1..] == rest;
    assert Lex(DoubleQuoted, word, s, env) == LexDoubleQuoted(word, s, env);
  }

  lemma DoubleVariable(word: Option<string>, name: string, after: string, env: Environment)
    requires name != "" && forall c :: c in name ==> IsNameChar(c)
    requires after != "" && !IsNameChar(after[0])
    ensures Lex(DoubleQuoted, word, ['$'] + (name + after), env)
            == Lex(DoubleQuoted, Grow(word, Lookup(env, name)), after, env)
  {
    var s := ['$'] + (name + after);
    assert s[0] == '$' && s[1..] == name + after;
    NameEnds(name, after);
    assert s[1..][..|name|] == name && s[1..][|name|..] == after;
    assert Lex(DoubleQuoted, word, s, env) == LexDoubleQuoted(word, s, env);
  }

  lemma {:induction false} NameEnds(name: string, after: string)
    requires forall c :: c in name ==> IsNameChar(c)
    requires after != "" && !IsNameChar(after[0])
    ensures NameLength(name + after) == |name|
  {
    if name == "" {
      assert name + after == after;
    } else {
      assert name[0] in name && (name + after)[1..] == name[1..] + after;
      assert forall c :: c in name[1..] ==> c in name;
      NameEnds(name[1..], after);
    }
  }

  lemma {:induction false} PlainText(word: Option<string>, w: string, rest: string, env: Environment)
    requires IsPlainWord(w)
    ensures Lex(Unquoted, word, w + rest, env) == Lex(Unquoted, Grow(word, w), rest, env)
    decreases |w|
  {
    assert w[0] in w;
    assert w + rest == [w[0]] + (w[1..] + rest);
    UnquotedStep(word, w[0], w[1..] + rest, env);
    if |w| == 1 {
      assert w[1..] + rest == rest && [w[0]] == w;
    } else {
      assert forall c :: c in w[1..] ==> c in w;
      PlainText(Grow(word, [w[0]]), w[1..], rest, env);
      GrowGrow(word, [w[0]], w[1..]);
      assert [w[0]] + w[1..] == w;
    }
  }

  // ---- putting token lists together -----------------------------------------

  lemma AfterNothing(rest: Option<seq<ShellToken>>)
    ensures After([], rest) == rest
  {
    if rest.Some? { assert [] + rest.value == rest.value; }
  }

  lemma AfterAfter(a: seq<ShellToken>, b: seq<ShellToken>, rest: Option<seq<ShellToken>>)
    ensures After(a, After(b, rest)) == After(a + b, rest)
  {
    if rest.Some? { assert a + (b + rest.value) == a + b + rest.value; }
  }
}
