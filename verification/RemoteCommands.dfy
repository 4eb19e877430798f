/**
Command lines for a workspace on another machine. Two shells read what is built
here: the local one splits the `ssh` line, the remote one its last argument.
*/
module RemoteCommands {
  import opened Primitives
  import opened ProjectModel
  import opened ShellLexer
  import opened UnicodeText

  // ---- quoting --------------------------------------------------------------

  /** Each single quote closed, escaped and reopened. */
  function ReplaceQuotes(v: string): string {
    if v == "" then ""
    else (if v[0] == '\'' then "'\\''" else [v[0]]) + ReplaceQuotes(v[1..])
  }

  function QuoteForLocalShell(v: string): string {
    "'" + ReplaceQuotes(v) + "'"
  }

  function QuoteForRemoteShell(v: string): string {
    "'" + ReplaceQuotes(v) + "'"
  }

  function EscapedForDoubleQuotes(v: string): string {
    if v == "" then ""
    else EscapedChar(v[0]) + EscapedForDoubleQuotes(v[1..])
  }

  /** The same, pushing onto a buffer character by character. */
  method EscapeForDoubleQuotes(v: string) returns (escaped: string)
    ensures escaped == EscapedForDoubleQuotes(v)
  {
    escaped := "";
    for i := 0 to |v|
      invariant escaped == EscapedForDoubleQuotes(v[..i])
    {
      EscapedSnoc(v[..i], v[i]);
      assert v[..i + 1] == v[..i] + [v[i]];
      if v[i] == '"' || v[i] == '\\' || v[i] == '$' || v[i] == '`' {
        escaped := escaped + ['\\'];
      }
      escaped := escaped + [v[i]];
    }
    assert v[..|v|] == v;
  }

  function EscapedChar(c: char): string {
    if IsDoubleEscapable(c) then ['\\', c] else [c]
  }

  lemma {:induction false} EscapedSnoc(v: string, c: char)
    ensures EscapedForDoubleQuotes(v + [c]) == EscapedForDoubleQuotes(v) + EscapedChar(c)
  {
    if v == "" {
      assert v + [c] == [c] && [c][1..] == "";
      assert EscapedChar(c) + "" == EscapedChar(c) && "" + EscapedChar(c) == EscapedChar(c);
    } else {
      assert (v + [c])[1..] == v[1..] + [c];
      EscapedSnoc(v[1..], c);
      assert EscapedChar(v[0]) + (EscapedForDoubleQuotes(v[1..]) + EscapedChar(c))
             == EscapedChar(v[0]) + EscapedForDoubleQuotes(v[1..]) + EscapedChar(c);
    }
  }

  // ---- errors and tokens ----------------------------------------------------

  datatype RemoteError =
    | EmptyDestination | DestinationLooksLikeAnOption | DestinationHasWhitespace
    | DestinationHasControlCharacter | EmptyPath | EmptyCommand

  predicate HasWhitespace(s: string) {
    exists c :: c in s && IsWhitespace(c)
  }

  predicate HasControl(s: string) {
    exists c :: c in s && IsControl(c)
  }

  function CheckDestination(destination: string): (r: Result<string, RemoteError>)
    ensures r.Ok? ==> r.value == Trim(destination)
  {
    var d := Trim(destination);
    if d == "" then Err(EmptyDestination)
    else if d[0] == '-' then Err(DestinationLooksLikeAnOption)
    else if HasWhitespace(d) then Err(DestinationHasWhitespace)
    else if HasControl(d) then Err(DestinationHasControlCharacter)
    else Ok(d)
  }

  /** The `cd` operand: quoted, with a leading `~` turned into the remote `HOME`. */
  function RemotePathToken(path: string): Result<string, RemoteError> {
    var p := Trim(path);
    if p == "" then Err(EmptyPath)
    else if p == "~" then Ok("\"$HOME\"")
    else if |p| >= 2 && p[..2] == "~/" then Ok("\"$HOME/" + EscapedForDoubleQuotes(p[2..]) + "\"")
    else Ok(QuoteForRemoteShell(p))
  }

  // ---- builders -------------------------------------------------------------

  /** Words separated by single spaces. */
  function Spaced(words: seq<string>): string {
    if words == [] then "" else if |words| == 1 then words[0] else words[0] + " " + Spaced(words[1..])
  }

  function SshCommand(destination: string, remote: string): string {
    Spaced(["ssh", "-t", QuoteForLocalShell(destination), QuoteForLocalShell(remote)])
  }

  const AGENT_TITLE_FORMAT := "#{?#{==:#T,#{host}},,#T}"

  // The four tmux commands of one line, each given the words to write between its own.
  function NewSession(session: string, directory: string, command: string): seq<string> {
    ["tmux", "new-session", "-A", "-d", "-s"] + [session] + ["-c"] + [directory] + [command]
  }

  function Targeted(semicolon: string, words: seq<string>, session: string): seq<string> {
    [semicolon] + words + [session]
  }

  function SetOption(semicolon: string, session: string): seq<string> {
    Targeted(semicolon, ["set-option", "-t"], session)
  }

  function TitlesOn(semicolon: string, session: string): seq<string> {
    SetOption(semicolon, session) + ["set-titles", "on"]
  }

  function TitleFormat(semicolon: string, session: string, format: string): seq<string> {
    SetOption(semicolon, session) + ["set-titles-string"] + [format]
  }

  function AttachSession(semicolon: string, session: string): seq<string> {
    Targeted(semicolon, ["attach-session", "-t"], session)
  }

  function TmuxCommands(session: string, directory: string, command: string, semicolon: string,
                        format: string): seq<string>
  {
    NewSession(session, directory, command) + TitlesOn(semicolon, session)
    + TitleFormat(semicolon, session, format) + AttachSession(semicolon, session)
  }

  /** What the remote shell is sent to create or join the agent's session. */
  function TmuxLine(session: string, directory: string, command: string): string {
    Spaced(TmuxCommands(QuoteForRemoteShell(session), directory, QuoteForRemoteShell(command),
                        "';'", QuoteForRemoteShell(AGENT_TITLE_FORMAT)))
  }

  function TmuxAgentCommand(target: RemoteTarget, command: string): Result<string, RemoteError> {
    var destination, directory := CheckDestination(target.host), RemotePathToken(target.path);
    if destination.Err? then destination
    else if directory.Err? then directory
    else if Trim(command) == "" then Err(EmptyCommand)
    else Ok(SshCommand(destination.value, TmuxLine(target.session, directory.value, Trim(command))))
  }

  function LoginShellCommand(target: RemoteTarget): Result<string, RemoteError> {
    var destination, directory := CheckDestination(target.host), RemotePathToken(target.path);
    if destination.Err? then destination
    else if directory.Err? then directory
    else Ok(SshCommand(destination.value, "cd " + directory.value + " && exec \"$SHELL\" -l"))
  }

  function WrappedCommand(target: RemoteTarget, command: string): Result<string, RemoteError> {
    var destination, directory := CheckDestination(target.host), RemotePathToken(target.path);
    if destination.Err? then destination
    else if directory.Err? then directory
    else Ok(SshCommand(destination.value, "cd " + directory.value + " && " + Trim(command)))
  }

  // ---- what the shells make of them -----------------------------------------

  /** Where the remote shell ends up: a leading `~` is the home it has, anything else is verbatim. */
  function RemoteDirectory(path: string, home: string): string {
    var p := Trim(path);
    if p == "~" then home
    else if |p| >= 2 && p[..2] == "~/" then home + "/" + p[2..]
    else p
  }

  lemma {:induction false} QuotedText(word: Option<string>, v: string, rest: string, env: Environment)
    requires word.Some?
    ensures Lex(SingleQuoted, word, ReplaceQuotes(v) + ("'" + rest), env) == Lex(Unquoted, Grow(word, v), rest, env)
    decreases |v|
  {
    if v == "" {
      assert ReplaceQuotes(v) + ("'" + rest) == ['\''] + rest;
      SingleStep(word, '\'', rest, env);
    } else {
      var tail := ReplaceQuotes(v[1..]) + ("'" + rest);
      QuotedText(Grow(word, [v[0]]), v[1..], rest, env);
      GrowGrow(word, [v[0]], v[1..]);
      assert [v[0]] + v[1..] == v;
      if v[0] == '\'' {
        assert ReplaceQuotes(v) + ("'" + rest) == "'\\''" + tail;
        ReopenedQuote(word, tail, env);
      } else {
        assert ReplaceQuotes(v) + ("'" + rest) == [v[0]] + tail;
        SingleStep(word, v[0], tail, env);
      }
    }
  }

  /** `'\''` inside single quotes is one single quote. */
  lemma ReopenedQuote(word: Option<string>, tail: string, env: Environment)
    requires word.Some?
    ensures Lex(SingleQuoted, word, "'\\''" + tail, env) == Lex(SingleQuoted, Grow(word, "'"), tail, env)
  {
    var s3 := ['\''] + tail;
    var s1 := ['\\', '\''] + s3;
    assert "'\\''" + tail == ['\''] + s1;
    SingleStep(word, '\'', s1, env);
    UnquotedEscape(word, '\'', s3, env);
    UnquotedStep(Grow(word, "'"), '\'', tail, env);
  }

  /** A quoted value is one word, verbatim, whatever it holds. */
  lemma QuotedIsOneWord(v: string, rest: string, env: Environment)
    ensures Lex(Unquoted, None, QuoteForLocalShell(v) + rest, env) == Lex(Unquoted, Some(v), rest, env)
  {
    var inner := ReplaceQuotes(v) + ("'" + rest);
    assert QuoteForLocalShell(v) + rest == ['\''] + inner;
    UnquotedStep(None, '\'', inner, env);
    QuotedText(Some(""), v, rest, env);
    assert "" + v == v;
  }

  lemma {:induction false} EscapedText(word: Option<string>, v: string, rest: string, env: Environment)
    requires word.Some?
    ensures Lex(DoubleQuoted, word, EscapedForDoubleQuotes(v) + rest, env)
            == Lex(DoubleQuoted, Grow(word, v), rest, env)
    decreases |v|
  {
    if v == "" {
      assert EscapedForDoubleQuotes(v) + rest == rest;
    } else {
      var tail := EscapedForDoubleQuotes(v[1..]) + rest;
      EscapedText(Grow(word, [v[0]]), v[1..], rest, env);
      GrowGrow(word, [v[0]], v[1..]);
      assert [v[0]] + v[1..] == v;
      assert EscapedForDoubleQuotes(v) + rest == EscapedChar(v[0]) + tail;
      if IsDoubleEscapable(v[0]) {
        DoubleEscape(word, v[0], tail, env);
      } else {
        DoubleStep(word, v[0], tail, env);
      }
    }
  }

  /** `"$NAME` opens double quotes with the variable's value. */
  lemma OpenVariable(name: string, after: string, env: Environment)
    requires name != "" && forall c :: c in name ==> IsNameChar(c)
    requires after != "" && !IsNameChar(after[0])
    ensures Lex(Unquoted, None, "\"$" + (name + after), env)
            == Lex(DoubleQuoted, Some(Lookup(env, name)), after, env)
  {
    var inner := ['$'] + (name + after);
    assert "\"$" + (name + after) == ['"'] + inner;
    UnquotedStep(None, '"', inner, env);
    DoubleVariable(Some(""), name, after, env);
    assert "" + Lookup(env, name) == Lookup(env, name);
  }

  /** The path token is one word: the directory meant, with `~` expanded by the shell that reads it. */
  lemma PathIsOneWord(path: string, rest: string, env: Environment)
    requires RemotePathToken(path).Ok?
    ensures Lex(Unquoted, None, RemotePathToken(path).value + rest, env)
            == Lex(Unquoted, Some(RemoteDirectory(path, Lookup(env, "HOME"))), rest, env)
  {
    var p, home := Trim(path), Lookup(env, "HOME");
    if p == "~" {
      HomeToken("", rest, env);
      HomeAlone(home);
    } else if |p| >= 2 && p[..2] == "~/" {
      HomeToken("/" + p[2..], rest, env);
      BelowHome(home, p[2..]);
    } else {
      QuotedIsOneWord(p, rest, env);
    }
  }

  lemma BelowHome(home: string, below: string)
    ensures "\"$HOME" + EscapedForDoubleQuotes("/" + below) + "\"" == "\"$HOME/" + EscapedForDoubleQuotes(below) + "\""
    ensures home + ("/" + below) == home + "/" + below
  {
    assert ("/" + below)[1..] == below;
  }

  lemma HomeAlone(home: string)
    ensures "\"$HOME" + EscapedForDoubleQuotes("") + "\"" == "\"$HOME\"" && home + "" == home
  {
  }

  /** `"$HOME...",` the rest escaped: the home directory followed by that rest. */
  lemma HomeToken(below: string, rest: string, env: Environment)
    requires below == "" || below[0] == '/'
    ensures Lex(Unquoted, None, "\"$HOME" + EscapedForDoubleQuotes(below) + "\"" + rest, env)
            == Lex(Unquoted, Some(Lookup(env, "HOME") + below), rest, env)
  {
    var closing := ['"'] + rest;
    var after := EscapedForDoubleQuotes(below) + closing;
    assert "\"$HOME" + EscapedForDoubleQuotes(below) + "\"" + rest == "\"$" + ("HOME" + after);
    OpenVariable("HOME", after, env);
    EscapedText(Some(Lookup(env, "HOME")), below, closing, env);
    assert Lookup(env, "HOME") + "" == Lookup(env, "HOME");
    DoubleStep(Some(Lookup(env, "HOME") + below), '"', rest, env);
  }

  // ---- whole lines ----------------------------------------------------------

  /** A word of a built line: what is written, by what it is meant to be. */
  datatype Piece = Plain(text: string) | Quoted(value: string) | Path(path: string)

  predicate Buildable(p: Piece) {
    match p
    case Plain(text) => IsPlainWord(text)
    case Quoted(value) => true
    case Path(path) => RemotePathToken(path).Ok?
  }

  function Written(p: Piece): string
    requires Buildable(p)
  {
    match p
    case Plain(text) => text
    case Quoted(value) => QuoteForLocalShell(value)
    case Path(path) => RemotePathToken(path).value
  }

  function Meant(p: Piece, env: Environment): string {
    match p
    case Plain(text) => text
    case Quoted(value) => value
    case Path(path) => RemoteDirectory(path, Lookup(env, "HOME"))
  }

  function AllWritten(ps: seq<Piece>): seq<string>
    requires forall p :: p in ps ==> Buildable(p)
  {
    seq(|ps|, i requires 0 <= i < |ps| => Written(ps[i]))
  }

  function AllMeant(ps: seq<Piece>, env: Environment): seq<ShellToken> {
    seq(|ps|, i requires 0 <= i < |ps| => Word(Meant(ps[i], env)))
  }

  lemma PieceIsOneWord(p: Piece, rest: string, env: Environment)
    requires Buildable(p)
    ensures Lex(Unquoted, None, Written(p) + rest, env) == Lex(Unquoted, Some(Meant(p, env)), rest, env)
  {
    match p
    case Plain(text) => PlainText(None, text, rest, env);
    case Quoted(value) => QuotedIsOneWord(value, rest, env);
    case Path(path) => PathIsOneWord(path, rest, env);
  }

  lemma LastPiece(p: Piece, env: Environment)
    requires Buildable(p)
    ensures Tokens(Written(p), env) == Some([Word(Meant(p, env))])
  {
    PieceIsOneWord(p, "", env);
    assert Written(p) + "" == Written(p);
  }

  lemma PieceThenSpace(p: Piece, tail: string, env: Environment)
    requires Buildable(p)
    ensures Tokens(Written(p) + (" " + tail), env) == After([Word(Meant(p, env))], Tokens(tail, env))
  {
    PieceIsOneWord(p, " " + tail, env);
    assert " " + tail == [' '] + tail;
    UnquotedStep(Some(Meant(p, env)), ' ', tail, env);
  }

  /** A spaced line of built words reads back as those words, one each. */
  lemma {:induction false} SpacedLine(ps: seq<Piece>, env: Environment)
    requires ps != [] && forall p :: p in ps ==> Buildable(p)
    ensures Tokens(Spaced(AllWritten(ps)), env) == Some(AllMeant(ps, env))
    decreases |ps|
  {
    assert ps[0] in ps;
    if |ps| == 1 {
      LastPiece(ps[0], env);
      assert AllMeant(ps, env) == [Word(Meant(ps[0], env))];
    } else {
      var rest := ps[1..];
      assert forall p :: p in rest ==> p in ps;
      SpacedLine(rest, env);
      WrittenCons(ps, rest);
      MeantCons(ps, env);
      SpacedCons(Written(ps[0]), Spaced(AllWritten(rest)));
      PieceThenSpace(ps[0], Spaced(AllWritten(rest)), env);
    }
  }

  lemma WrittenCons(ps: seq<Piece>, rest: seq<Piece>)
    requires |ps| > 1 && rest == ps[1..]
    requires forall p :: p in ps ==> Buildable(p)
    requires forall p :: p in rest ==> Buildable(p)
    ensures AllWritten(ps)[1..] == AllWritten(rest)
  {
  }

  lemma MeantCons(ps: seq<Piece>, env: Environment)
    requires |ps| > 1
    ensures AllMeant(ps, env) == [Word(Meant(ps[0], env))] + AllMeant(ps[1..], env)
  {
  }

  lemma SpacedCons(first: string, tail: string)
    ensures first + " " + tail == first + (" " + tail)
  {
  }

  function Words(texts: seq<string>): seq<ShellToken> {
    seq(|texts|, i requires 0 <= i < |texts| => Word(texts[i]))
  }

  /** A shell reads `line` as `ssh`, its option, the destination and one remote line. */
  predicate SshReads(line: string, destination: string, remote: string, env: Environment) {
    Tokens(line, env) == Some(Words(["ssh", "-t", destination, remote]))
  }

  /** The local shell hands `ssh` its four words, whatever its own environment. */
  lemma LocalShellSplitsSsh(destination: string, remote: string, env: Environment)
    ensures SshReads(SshCommand(destination, remote), destination, remote, env)
  {
    var words := ["ssh", "-t"];
    var d, r := QuoteForLocalShell(destination), QuoteForLocalShell(remote);
    var ps := PlainParts(words, env);
    OnePart(Quoted(destination), env);
    OnePart(Quoted(remote), env);
    JoinParts(ps, [Quoted(destination)], words, [d], words, [destination], env);
    JoinParts(ps + [Quoted(destination)], [Quoted(remote)], words + [d], [r], words + [destination], [remote], env);
    SpacedLine(ps + [Quoted(destination)] + [Quoted(remote)], env);
    FourWords(words, d, r);
    FourWords(words, destination, remote);
  }

  lemma FourWords(words: seq<string>, a: string, b: string)
    requires |words| == 2
    ensures words + [a] + [b] == [words[0], words[1], a, b]
  {
  }

  /** The argument vector `tmux` is meant to get. */
  function TmuxArguments(session: string, directory: string, command: string): seq<string> {
    TmuxCommands(session, directory, command, ";", AGENT_TITLE_FORMAT)
  }

  /** What is written and what is meant, part by part of a line. */
  ghost predicate Part(ps: seq<Piece>, written: seq<string>, meant: seq<string>, env: Environment) {
    && (forall p :: p in ps ==> Buildable(p))
    && AllWritten(ps) == written && AllMeant(ps, env) == Words(meant)
  }

  lemma JoinParts(a: seq<Piece>, b: seq<Piece>, wa: seq<string>, wb: seq<string>,
                  ma: seq<string>, mb: seq<string>, env: Environment)
    requires Part(a, wa, ma, env) && Part(b, wb, mb, env)
    ensures Part(a + b, wa + wb, ma + mb, env)
  {
    assert forall p :: p in a + b ==> p in a || p in b;
    assert AllWritten(a + b) == AllWritten(a) + AllWritten(b);
    assert AllMeant(a + b, env) == AllMeant(a, env) + AllMeant(b, env);
    assert Words(ma + mb) == Words(ma) + Words(mb);
  }

  lemma PlainParts(texts: seq<string>, env: Environment) returns (ps: seq<Piece>)
    requires forall t :: t in texts ==> IsPlainWord(t)
    ensures Part(ps, texts, texts, env)
  {
    ps := seq(|texts|, i requires 0 <= i < |texts| => Plain(texts[i]));
    assert forall i :: 0 <= i < |texts| ==> texts[i] in texts;
  }

  lemma OnePart(p: Piece, env: Environment)
    requires Buildable(p)
    ensures Part([p], [Written(p)], [Meant(p, env)], env)
  {
  }

  lemma NewSessionPart(session: string, path: string, command: string, env: Environment) returns (ps: seq<Piece>)
    requires RemotePathToken(path).Ok?
    ensures Part(ps, NewSession(QuoteForRemoteShell(session), RemotePathToken(path).value,
                                QuoteForRemoteShell(command)),
                 NewSession(session, RemoteDirectory(path, Lookup(env, "HOME")), command), env)
    ensures ps != []
  {
    var s, t, c := QuoteForRemoteShell(session), RemotePathToken(path).value, QuoteForRemoteShell(command);
    var directory := RemoteDirectory(path, Lookup(env, "HOME"));
    var create, inDirectory := NewSessionWords(env);
    var w1, w3 := ["tmux", "new-session", "-A", "-d", "-s"], ["-c"];
    OnePart(Quoted(session), env);
    OnePart(Path(path), env);
    OnePart(Quoted(command), env);
    JoinParts(create, [Quoted(session)], w1, [s], w1, [session], env);
    JoinParts(create + [Quoted(session)], inDirectory, w1 + [s], w3, w1 + [session], w3, env);
    ps := create + [Quoted(session)] + inDirectory;
    JoinParts(ps, [Path(path)], w1 + [s] + w3, [t], w1 + [session] + w3, [directory], env);
    JoinParts(ps + [Path(path)], [Quoted(command)], w1 + [s] + w3 + [t], [c],
              w1 + [session] + w3 + [directory], [command], env);
    ps := ps + [Path(path)] + [Quoted(command)];
  }

  lemma NewSessionWords(env: Environment) returns (create: seq<Piece>, inDirectory: seq<Piece>)
    ensures Part(create, ["tmux", "new-session", "-A", "-d", "-s"], ["tmux", "new-session", "-A", "-d", "-s"], env)
    ensures Part(inDirectory, ["-c"], ["-c"], env)
  {
    TmuxIsPlain();
    OptionsArePlain();
    create := FiveWords("tmux", "new-session", "-A", "-d", "-s", env);
    inDirectory := OneWord("-c", env);
  }

  lemma TmuxIsPlain()
    ensures IsPlainWord("tmux") && IsPlainWord("new-session")
  {
  }

  lemma OptionsArePlain()
    ensures IsPlainWord("-A") && IsPlainWord("-d") && IsPlainWord("-s") && IsPlainWord("-c")
  {
  }

  lemma OneWord(a: string, env: Environment) returns (ps: seq<Piece>)
    requires IsPlainWord(a)
    ensures Part(ps, [a], [a], env)
  {
    ps := PlainParts([a], env);
  }

  lemma FiveWords(a: string, b: string, c: string, d: string, e: string, env: Environment) returns (ps: seq<Piece>)
    requires IsPlainWord(a) && IsPlainWord(b) && IsPlainWord(c) && IsPlainWord(d) && IsPlainWord(e)
    ensures Part(ps, [a, b, c, d, e], [a, b, c, d, e], env)
  {
    ps := PlainParts([a, b, c, d, e], env);
  }

  lemma QuotedSemicolon(env: Environment)
    ensures Part([Quoted(";")], ["';'"], [";"], env)
  {
    SemicolonWritten();
    OnePart(Quoted(";"), env);
  }

  lemma SemicolonWritten()
    ensures QuoteForLocalShell(";") == "';'"
  {
    assert ";"[1..] == "" && ReplaceQuotes(";") == ";";
  }

  lemma TargetedPart(words: seq<string>, session: string, env: Environment) returns (ps: seq<Piece>)
    requires forall t :: t in words ==> IsPlainWord(t)
    ensures Part(ps, Targeted("';'", words, QuoteForRemoteShell(session)), Targeted(";", words, session), env)
  {
    QuotedSemicolon(env);
    ps := PlainParts(words, env);
    JoinParts([Quoted(";")], ps, ["';'"], words, [";"], words, env);
    ps := [Quoted(";")] + ps;
    OnePart(Quoted(session), env);
    JoinParts(ps, [Quoted(session)], ["';'"] + words, [QuoteForRemoteShell(session)], [";"] + words, [session], env);
    ps := ps + [Quoted(session)];
  }

  /** Words added after a part, all of them plain. */
  lemma ThenWords(ps: seq<Piece>, written: seq<string>, meant: seq<string>, words: seq<string>, env: Environment)
    returns (longer: seq<Piece>)
    requires Part(ps, written, meant, env) && forall t :: t in words ==> IsPlainWord(t)
    ensures Part(longer, written + words, meant + words, env)
  {
    var more := PlainParts(words, env);
    JoinParts(ps, more, written, words, meant, words, env);
    longer := ps + more;
  }

  lemma SetOptionPart(session: string, env: Environment) returns (ps: seq<Piece>)
    ensures Part(ps, SetOption("';'", QuoteForRemoteShell(session)), SetOption(";", session), env)
  {
    ps := TargetedPart(["set-option", "-t"], session, env);
  }

  lemma TitlesOnPart(session: string, env: Environment) returns (ps: seq<Piece>)
    ensures Part(ps, TitlesOn("';'", QuoteForRemoteShell(session)), TitlesOn(";", session), env)
  {
    var option := SetOptionPart(session, env);
    ps := ThenWords(option, SetOption("';'", QuoteForRemoteShell(session)), SetOption(";", session),
                    ["set-titles", "on"], env);
  }

  lemma TitleFormatPart(session: string, format: string, env: Environment) returns (ps: seq<Piece>)
    ensures Part(ps, TitleFormat("';'", QuoteForRemoteShell(session), QuoteForRemoteShell(format)),
                 TitleFormat(";", session, format), env)
  {
    var words := ["set-titles-string"];
    var w, m := SetOption("';'", QuoteForRemoteShell(session)), SetOption(";", session);
    var option := SetOptionPart(session, env);
    var title := ThenWords(option, w, m, words, env);
    OnePart(Quoted(format), env);
    JoinParts(title, [Quoted(format)], w + words, [QuoteForRemoteShell(format)], m + words, [format], env);
    ps := title + [Quoted(format)];
  }

  lemma AttachPart(session: string, env: Environment) returns (ps: seq<Piece>)
    ensures Part(ps, AttachSession("';'", QuoteForRemoteShell(session)), AttachSession(";", session), env)
  {
    ps := TargetedPart(["attach-session", "-t"], session, env);
  }

  /** A shell reads `line` as exactly the intended `tmux` arguments. */
  predicate TmuxReads(line: string, session: string, directory: string, command: string, env: Environment) {
    Tokens(line, env) == Some(Words(TmuxArguments(session, directory, command)))
  }

  lemma RemoteShellSplitsTmux(session: string, path: string, command: string, env: Environment)
    requires RemotePathToken(path).Ok?
    ensures TmuxReads(TmuxLine(session, RemotePathToken(path).value, command), session,
                      RemoteDirectory(path, Lookup(env, "HOME")), command, env)
  {
    var s, f := QuoteForRemoteShell(session), QuoteForRemoteShell(AGENT_TITLE_FORMAT);
    var token, c := RemotePathToken(path).value, QuoteForRemoteShell(command);
    var directory := RemoteDirectory(path, Lookup(env, "HOME"));
    var w1, m1 := NewSession(s, token, c), NewSession(session, directory, command);
    var w2, m2 := TitlesOn("';'", s), TitlesOn(";", session);
    var w3, m3 := TitleFormat("';'", s, f), TitleFormat(";", session, AGENT_TITLE_FORMAT);
    var w4, m4 := AttachSession("';'", s), AttachSession(";", session);
    var a := NewSessionPart(session, path, command, env);
    var on := TitlesOnPart(session, env);
    var format := TitleFormatPart(session, AGENT_TITLE_FORMAT, env);
    var d := AttachPart(session, env);
    JoinParts(a, on, w1, w2, m1, m2, env);
    JoinParts(a + on, format, w1 + w2, w3, m1 + m2, m3, env);
    JoinParts(a + on + format, d, w1 + w2 + w3, w4, m1 + m2 + m3, m4, env);
    SpacedLine(a + on + format + d, env);
  }

  /** The line an accepted agent command sends to the far side. */
  function SentToTmux(target: RemoteTarget, command: string): string
    requires RemotePathToken(target.path).Ok?
  {
    TmuxLine(target.session, RemotePathToken(target.path).value, Trim(command))
  }

  lemma AcceptedCommandIs(target: RemoteTarget, command: string)
    ensures TmuxAgentCommand(target, command).Ok? ==>
              TmuxAgentCommand(target, command).value == SshCommand(Trim(target.host), SentToTmux(target, command))
  {
  }

  /**
  Both shells together, for every target and command: the local one, in any
  environment, gives `ssh` four words, the last of which the remote one splits
  into exactly the intended `tmux` arguments, with `~` its own home.
  */
  lemma BothShellsAgree(target: RemoteTarget, command: string, local: Environment, remote: Environment)
    ensures TmuxAgentCommand(target, command).Ok? ==>
              && SshReads(TmuxAgentCommand(target, command).value, Trim(target.host), SentToTmux(target, command),
                          local)
              && TmuxReads(SentToTmux(target, command), target.session,
                           RemoteDirectory(target.path, Lookup(remote, "HOME")), Trim(command), remote)
  {
    if TmuxAgentCommand(target, command).Ok? {
      AcceptedCommandIs(target, command);
      LocalShellSplitsSsh(Trim(target.host), SentToTmux(target, command), local);
      RemoteShellSplitsTmux(target.session, target.path, Trim(command), remote);
    }
  }

  // ---- commands run in the project directory --------------------------------

  /** `cd DIR && ` in front of a line leaves that line's own tokens as they are. */
  lemma CdPrefix(path: string, rest: string, env: Environment)
    requires RemotePathToken(path).Ok?
    ensures Tokens("cd " + RemotePathToken(path).value + " && " + rest, env)
            == After([Word("cd"), Word(RemoteDirectory(path, Lookup(env, "HOME"))), Operator("&&")],
                     Tokens(rest, env))
  {
    var token, directory := RemotePathToken(path).value, RemoteDirectory(path, Lookup(env, "HOME"));
    var tail := " && " + rest;
    assert "cd " + token + " && " + rest == "cd" + (" " + (token + tail));
    PieceThenSpace(Plain("cd"), token + tail, env);
    PathIsOneWord(path, tail, env);
    AndThen(directory, rest, env);
    AfterAfter([Word("cd")], [Word(directory), Operator("&&")], Tokens(rest, env));
    assert [Word("cd")] + [Word(directory), Operator("&&")] == [Word("cd"), Word(directory), Operator("&&")];
  }

  lemma AndThen(word: string, rest: string, env: Environment)
    ensures Lex(Unquoted, Some(word), " && " + rest, env)
            == After([Word(word), Operator("&&")], Tokens(rest, env))
  {
    var spaced := [' '] + rest;
    var joined := ['&', '&'] + spaced;
    assert " && " + rest == [' '] + joined;
    UnquotedStep(Some(word), ' ', joined, env);
    UnquotedAnd(None, spaced, env);
    UnquotedStep(None, ' ', rest, env);
    AfterNothing(Tokens(rest, env));
    assert Finish(None) + [Operator("&&")] == [Operator("&&")];
    AfterAfter([Word(word)], [Operator("&&")], Tokens(rest, env));
    assert [Word(word)] + [Operator("&&")] == [Word(word), Operator("&&")];
  }

  /** What an accepted wrapped command sends to the far side. */
  function SentWrapped(target: RemoteTarget, command: string): string
    requires RemotePathToken(target.path).Ok?
  {
    "cd " + RemotePathToken(target.path).value + " && " + Trim(command)
  }

  /**
  A command run on the other machine reaches its shell as the user wrote it,
  after a `cd` to the project: its own tokens are what the remote shell makes of
  the text alone.
  */
  lemma WrappedCommandIsUntouched(target: RemoteTarget, command: string, local: Environment, remote: Environment)
    requires WrappedCommand(target, command).Ok?
    ensures SshReads(WrappedCommand(target, command).value, Trim(target.host), SentWrapped(target, command), local)
    ensures Tokens(SentWrapped(target, command), remote)
            == After([Word("cd"), Word(RemoteDirectory(target.path, Lookup(remote, "HOME"))), Operator("&&")],
                     Tokens(Trim(command), remote))
  {
    LocalShellSplitsSsh(Trim(target.host), SentWrapped(target, command), local);
    CdPrefix(target.path, Trim(command), remote);
  }

  function SentLogin(target: RemoteTarget): string
    requires RemotePathToken(target.path).Ok?
  {
    "cd " + RemotePathToken(target.path).value + " && exec \"$SHELL\" -l"
  }

  /** A remote terminal: `cd`, then the remote user's own login shell. */
  lemma LoginShellIsTheirs(target: RemoteTarget, local: Environment, remote: Environment)
    requires LoginShellCommand(target).Ok?
    ensures SshReads(LoginShellCommand(target).value, Trim(target.host), SentLogin(target), local)
    ensures Tokens(SentLogin(target), remote)
            == After([Word("cd"), Word(RemoteDirectory(target.path, Lookup(remote, "HOME"))), Operator("&&")],
                     Some([Word("exec"), Word(Lookup(remote, "SHELL")), Word("-l")]))
  {
    LocalShellSplitsSsh(Trim(target.host), SentLogin(target), local);
    SentLoginIs(target);
    CdPrefix(target.path, EXEC_SHELL, remote);
    ExecShell(remote);
  }

  const EXEC_SHELL := "exec \"$SHELL\" -l"

  lemma SentLoginIs(target: RemoteTarget)
    requires RemotePathToken(target.path).Ok?
    ensures SentLogin(target) == "cd " + RemotePathToken(target.path).value + " && " + EXEC_SHELL
  {
    var cd := "cd " + RemotePathToken(target.path).value;
    assert " && exec \"$SHELL\" -l" == " && " + EXEC_SHELL;
    assert cd + (" && " + EXEC_SHELL) == cd + " && " + EXEC_SHELL;
  }

  lemma ExecShell(env: Environment)
    ensures Tokens(EXEC_SHELL, env) == Some([Word("exec"), Word(Lookup(env, "SHELL")), Word("-l")])
  {
    var shell := Lookup(env, "SHELL");
    var closing := ['"'] + ([' '] + "-l");
    ExecText();
    PieceThenSpace(Plain("exec"), "\"$" + ("SHELL" + closing), env);
    OpenVariable("SHELL", closing, env);
    ShellWord(shell, env);
    assert [Word("exec")] + [Word(shell), Word("-l")] == [Word("exec"), Word(shell), Word("-l")];
  }

  lemma ExecText()
    ensures EXEC_SHELL == "exec" + (" " + ("\"$" + ("SHELL" + (['"'] + ([' '] + "-l")))))
  {
  }

  lemma TwoTokens(a: ShellToken, b: ShellToken)
    ensures [a] + [b] == [a, b]
  {
  }

  lemma ShellWord(shell: string, env: Environment)
    ensures Lex(DoubleQuoted, Some(shell), ['"'] + ([' '] + "-l"), env) == Some([Word(shell), Word("-l")])
  {
    DoubleStep(Some(shell), '"', [' '] + "-l", env);
    UnquotedStep(Some(shell), ' ', "-l", env);
    LastPiece(Plain("-l"), env);
    TwoTokens(Word(shell), Word("-l"));
  }
}
