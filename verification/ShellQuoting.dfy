/** Command lines for remote language servers, against a tokenizer for the POSIX
    Shell Command Language (POSIX.1-2017, sections 2.2 and 2.3). */
module ShellQuoting {
  import opened Wrappers

  // ---- the shell's tokenizer ----

  datatype Quoting = Bare | Escaped | Single | Double

  datatype QChar = QChar(c: char, how: Quoting)

  datatype Token = Word(chars: seq<QChar>) | Operator(op: string)

  /** `Unsupported`: a substitution outside single quotes, which would need the
      expansions of section 2.6. Parameters in double quotes stay marked `Double`. */
  datatype Mode =
    | Between | InWord | Backslash(started: bool) | InSingle | InDouble | DoubleBackslash
    | InOperator(op: string) | Comment | Unsupported

  datatype Lexer = Lexer(tokens: seq<Token>, word: seq<QChar>, mode: Mode)
  {
    function Emit(t: Token): Lexer { Lexer(tokens + [t], [], Between) }
    function Add(c: char, how: Quoting, m: Mode): Lexer { Lexer(tokens, word + [QChar(c, how)], m) }
    function To(m: Mode): Lexer { Lexer(tokens, word, m) }
  }

  predicate IsOperator(op: string) {
    op in {"&", "|", ";", "<", ">", "(", ")", "&&", "||", ";;", "<<", ">>", "<&", ">&", "<>", "<<-", ">|"}
  }

  predicate IsBlank(c: char) { c == ' ' || c == '\t' }

  /** A character outside all quotes. */
  function StepBare(lx: Lexer, c: char): Lexer {
    var inWord := lx.mode.InWord?;
    if IsBlank(c) then if inWord then lx.Emit(Word(lx.word)) else lx
    else if c == '\n' then (if inWord then lx.Emit(Word(lx.word)) else lx).Emit(Operator("\n"))
    else if c == '\'' then lx.To(InSingle)
    else if c == '"' then lx.To(InDouble)
    else if c == '\\' then lx.To(Backslash(inWord))
    else if IsOperator([c]) then (if inWord then lx.Emit(Word(lx.word)) else lx).To(InOperator([c]))
    else if c == '$' || c == '`' then lx.To(Unsupported)
    else if c == '#' && !inWord then lx.To(Comment)
    else lx.Add(c, Bare, InWord)
  }

  function Step(lx: Lexer, c: char): Lexer {
    match lx.mode
    case Between => StepBare(lx, c)
    case InWord => StepBare(lx, c)
    case Backslash(started) =>
      if c == '\n' then lx.To(if started then InWord else Between) else lx.Add(c, Escaped, InWord)
    case InSingle => if c == '\'' then lx.To(InWord) else lx.Add(c, Single, InSingle)
    case InDouble =>
      if c == '"' then lx.To(InWord)
      else if c == '\\' then lx.To(DoubleBackslash)
      else if c == '`' then lx.To(Unsupported)
      else lx.Add(c, Double, InDouble)
    case DoubleBackslash =>
      if c == '\n' then lx.To(InDouble)
      else if c == '$' || c == '`' || c == '"' || c == '\\' then lx.Add(c, Escaped, InDouble)
      else lx.Add('\\', Double, InDouble).Add(c, Double, InDouble)
    case InOperator(op) =>
      if IsOperator(op + [c]) then lx.To(InOperator(op + [c])) else StepBare(lx.Emit(Operator(op)), c)
    case Comment => if c == '\n' then lx.Emit(Operator("\n")) else lx
    case Unsupported => lx
  }

  function Lex(lx: Lexer, s: string): Lexer
    decreases |s|
  {
    if s == "" then lx else Lex(Step(lx, s[0]), s[1..])
  }

  const EMPTY := Lexer([], [], Between)

  /** The tokens of a complete command line; nothing if a quote is left open. */
  function Tokenize(s: string): Option<seq<Token>> {
    var lx := Lex(EMPTY, s);
    match lx.mode
    case Between => Some(lx.tokens)
    case Comment => Some(lx.tokens)
    case InWord => Some(lx.tokens + [Word(lx.word)])
    case InOperator(op) => Some(lx.tokens + [Operator(op)])
    case _ => None
  }

  // ---- quoting ----

  function Replace(s: string): string {
    if s == "" then ""
    else (if s[0] == '\'' then "'\\''" else [s[0]]) + Replace(s[1..])
  }

  function ShellQuote(value: string): string { "'" + Replace(value) + "'" }

  function JoinBlank(words: seq<string>): string {
    if words == [] then ""
    else if |words| == 1 then words[0]
    else words[0] + " " + JoinBlank(words[1..])
  }

  function QuoteAll(args: seq<string>): seq<string> {
    if args == [] then [] else [ShellQuote(args[0])] + QuoteAll(args[1..])
  }

  // ---- what a word means ----

  function Text(chars: seq<QChar>): string {
    if chars == [] then "" else [chars[0].c] + Text(chars[1..])
  }

  /** Every character is quoted: no expansion, splitting or globbing applies. */
  predicate Verbatim(t: Token, value: string) {
    t.Word? && Text(t.chars) == value && forall q <- t.chars :: q.how == Single || q.how == Escaped
  }

  predicate AllVerbatim(tokens: seq<Token>, values: seq<string>) {
    |tokens| == |values| && forall i | 0 <= i < |values| :: Verbatim(tokens[i], values[i])
  }

  // ---- proofs ----

  lemma {:induction false} LexConcat(lx: Lexer, a: string, b: string)
    ensures Lex(lx, a + b) == Lex(Lex(lx, a), b)
    decreases |a|
  {
    if a == "" {
      assert a + b == b;
    } else {
      assert (a + b)[1..] == a[1..] + b;
      LexConcat(Step(lx, a[0]), a[1..], b);
    }
  }

  lemma LexOne(lx: Lexer, c: char)
    ensures Lex(lx, [c]) == Step(lx, c)
  {
    assert [c][1..] == "";
  }

  function Quoted(s: string): seq<QChar> {
    if s == "" then []
    else [QChar(s[0], if s[0] == '\'' then Escaped else Single)] + Quoted(s[1..])
  }

  lemma {:induction false} QuotedText(s: string)
    ensures Text(Quoted(s)) == s
    ensures forall q <- Quoted(s) :: q.how == Single || q.how == Escaped
  {
    if s != "" {
      QuotedText(s[1..]);
      assert ([QChar(s[0], Single)] + Quoted(s[1..]))[1..] == Quoted(s[1..]);
    }
  }

  /** A literal quote leaves the single quotes, is escaped, and enters them again. */
  lemma LexEscapedQuote(lx: Lexer)
    requires lx.mode.InSingle?
    ensures Lex(lx, "'\\''") == lx.Add('\'', Escaped, InSingle)
  {
    var s := "'\\''";
    assert s[1..] == "\\''" && s[1..][1..] == "''" && s[1..][1..][1..] == "'" && s[1..][1..][1..][1..] == "";
    var a := Step(lx, '\'');
    var b := Step(a, '\\');
    var c := Step(b, '\'');
    assert Lex(lx, s) == Lex(a, "\\''") == Lex(b, "''") == Lex(c, "'") == Lex(Step(c, '\''), "");
  }

  lemma {:induction false} LexReplaced(lx: Lexer, s: string)
    requires lx.mode.InSingle?
    ensures Lex(lx, Replace(s)) == Lexer(lx.tokens, lx.word + Quoted(s), InSingle)
    decreases |s|
  {
    if s == "" {
      assert lx.word + [] == lx.word;
    } else {
      var head := if s[0] == '\'' then "'\\''" else [s[0]];
      var q := QChar(s[0], if s[0] == '\'' then Escaped else Single);
      LexConcat(lx, head, Replace(s[1..]));
      if s[0] == '\'' { LexEscapedQuote(lx); } else { LexOne(lx, s[0]); }
      var mid := Lexer(lx.tokens, lx.word + [q], InSingle);
      LexReplaced(mid, s[1..]);
      assert (lx.word + [q]) + Quoted(s[1..]) == lx.word + Quoted(s);
    }
  }

  predicate Ready(lx: Lexer) { lx.mode.Between? && lx.word == [] }

  lemma LexQuote(lx: Lexer, value: string)
    requires Ready(lx)
    ensures Lex(lx, ShellQuote(value)) == Lexer(lx.tokens, Quoted(value), InWord)
  {
    var open := lx.To(InSingle);
    LexConcat(lx, "'" + Replace(value), "'");
    LexConcat(lx, "'", Replace(value));
    LexOne(lx, '\'');
    LexReplaced(open, value);
    assert [] + Quoted(value) == Quoted(value);
    LexOne(Lexer(lx.tokens, Quoted(value), InSingle), '\'');
  }

  function Words(args: seq<string>): seq<Token> {
    if args == [] then [] else [Word(Quoted(args[0]))] + Words(args[1..])
  }

  lemma {:induction false} WordsVerbatim(args: seq<string>)
    ensures AllVerbatim(Words(args), args)
  {
    if args != [] {
      WordsVerbatim(args[1..]);
      QuotedText(args[0]);
    }
  }

  /** The state after a list of quoted words: all but the last word emitted. */
  lemma {:induction false} LexQuoted(lx: Lexer, args: seq<string>)
    requires Ready(lx) && args != []
    ensures Lex(lx, JoinBlank(QuoteAll(args)))
            == Lexer(lx.tokens + Words(args[..|args| - 1]), Quoted(args[|args| - 1]), InWord)
    decreases |args|
  {
    hide *;
    var first, rest := ShellQuote(args[0]), args[1..];
    JoinQuoted(lx.tokens, args);
    LexQuote(lx, args[0]);
    if rest != [] {
      var more := JoinBlank(QuoteAll(rest));
      LexConcat(lx, first + " ", more);
      LexConcat(lx, first, " ");
      var after := Lexer(lx.tokens, Quoted(args[0]), InWord);
      WordDone(after);
      LexQuoted(after.Emit(Word(Quoted(args[0]))), rest);
    }
  }

  lemma WordDone(lx: Lexer)
    requires lx.mode.InWord?
    ensures Lex(lx, " ") == lx.Emit(Word(lx.word)) == Lexer(lx.tokens + [Word(lx.word)], [], Between)
    ensures Ready(lx.Emit(Word(lx.word)))
  {
    LexOne(lx, ' ');
  }

  lemma JoinQuoted(tokens: seq<Token>, args: seq<string>)
    requires args != []
    ensures var first, rest := ShellQuote(args[0]), args[1..];
      JoinBlank(QuoteAll(args)) == if rest == [] then first else first + " " + JoinBlank(QuoteAll(rest))
    ensures |args| == 1 ==> tokens + Words(args[..|args| - 1]) == tokens
    ensures |args| > 1 ==>
              var rest := args[1..];
              && args[|args| - 1] == rest[|rest| - 1]
              && tokens + [Word(Quoted(args[0]))] + Words(rest[..|rest| - 1]) == tokens + Words(args[..|args| - 1])
  {
    JoinUnfold(args);
    hide *;
    if |args| > 1 {
      FrontWords(tokens, args);
    } else {
      NoWords(tokens, args);
    }
  }

  lemma JoinUnfold(args: seq<string>)
    requires args != []
    ensures var first, rest := ShellQuote(args[0]), args[1..];
      JoinBlank(QuoteAll(args)) == if rest == [] then first else first + " " + JoinBlank(QuoteAll(rest))
  {
    hide ShellQuote;
    assert QuoteAll(args)[1..] == QuoteAll(args[1..]);
  }

  lemma NoWords(tokens: seq<Token>, args: seq<string>)
    requires |args| == 1
    ensures tokens + Words(args[..|args| - 1]) == tokens
  {
    assert args[..|args| - 1] == [];
  }

  lemma FrontWords(tokens: seq<Token>, args: seq<string>)
    requires |args| > 1
    ensures var rest := args[1..];
      && args[|args| - 1] == rest[|rest| - 1]
      && tokens + [Word(Quoted(args[0]))] + Words(rest[..|rest| - 1]) == tokens + Words(args[..|args| - 1])
  {
    hide Quoted;
    var front := args[..|args| - 1];
    assert front[1..] == args[1..][..|args| - 2] && front[0] == args[0];
    assert Words(front) == [Word(Quoted(args[0]))] + Words(front[1..]);
  }

  lemma {:induction false} WordsSnoc(args: seq<string>)
    requires args != []
    ensures Words(args) == Words(args[..|args| - 1]) + [Word(Quoted(args[|args| - 1]))]
  {
    if |args| > 1 {
      WordsSnoc(args[1..]);
      assert args[1..][..|args| - 2] == args[..|args| - 1][1..];
      assert args[..|args| - 1][0] == args[0];
    }
  }

  /** Quoting round trip: a shell reads the joined quoted words as exactly the
      original arguments, each one verbatim, empty ones included. */
  lemma QuoteRoundTrip(args: seq<string>)
    ensures Tokenize(JoinBlank(QuoteAll(args))) == Some(Words(args))
    ensures AllVerbatim(Words(args), args)
  {
    WordsVerbatim(args);
    if args != [] {
      LexQuoted(EMPTY, args);
      WordsSnoc(args);
      assert [] + Words(args[..|args| - 1]) == Words(args[..|args| - 1]);
    }
  }

  // ---- remote servers ----

  datatype RemoteConfig = RemoteConfig(kind: string, target: string, root: string, runtime: Option<string>)

  const ENTER_VENV := "&& if [ -d .venv/bin ]; then "

  const PATH_VALUE := "$PWD/.venv/bin:$PATH"

  const EXPORT_PATH := "PATH=\"" + PATH_VALUE + "\"; " + "export PATH; fi; exec "

  function Script(root: string, command: string, args: seq<string>): string {
    "cd " + ShellQuote(root) + " " + ENTER_VENV + EXPORT_PATH + JoinBlank(QuoteAll([command] + args))
  }

  /** Program and arguments to start; nothing for an unknown transport. */
  function RemoteCommand(remote: RemoteConfig, command: string, args: seq<string>): Option<(string, seq<string>)> {
    if remote.runtime.Some? && remote.runtime.value != "" then
      Some((remote.runtime.value,
            ["exec", "--kind", remote.kind, "--target", remote.target, "--root", remote.root, "--", command] + args))
    else if remote.kind == "ssh" then
      Some(("ssh", ["-T", remote.target, "sh", "-c", ShellQuote(Script(remote.root, command, args))]))
    else if remote.kind == "docker" then
      Some(("docker", ["exec", "-i", remote.target, "sh", "-c", Script(remote.root, command, args)]))
    else None
  }

  predicate IsPlain(c: char) {
    !IsBlank(c) && c != '\n' && c != '\'' && c != '"' && c != '\\' && c != '$' && c != '`' && c != '#' && !IsOperator([c])
  }

  predicate PlainWord(w: string) { w != "" && forall c <- w :: IsPlain(c) }

  function Marked(s: string, how: Quoting): seq<QChar> {
    if s == "" then [] else [QChar(s[0], how)] + Marked(s[1..], how)
  }

  lemma {:induction false} LexPlain(lx: Lexer, w: string)
    requires (Ready(lx) && w != "") || lx.mode.InWord?
    requires forall c <- w :: IsPlain(c)
    ensures Lex(lx, w) == Lexer(lx.tokens, lx.word + Marked(w, Bare), InWord)
    decreases |w|
  {
    if w == "" {
      assert lx.word + [] == lx.word;
    } else {
      var next := lx.Add(w[0], Bare, InWord);
      assert w[0] in w;
      assert Step(lx, w[0]) == next;
      LexPlain(next, w[1..]);
      assert (lx.word + [QChar(w[0], Bare)]) + Marked(w[1..], Bare) == lx.word + Marked(w, Bare);
    }
  }

  predicate StaysDouble(c: char) { c != '"' && c != '\\' && c != '`' }

  lemma {:induction false} LexDouble(lx: Lexer, w: string)
    requires lx.mode.InDouble? && forall c <- w :: StaysDouble(c)
    ensures Lex(lx, w) == Lexer(lx.tokens, lx.word + Marked(w, Double), InDouble)
    decreases |w|
  {
    if w == "" {
      assert lx.word + [] == lx.word;
    } else {
      var next := lx.Add(w[0], Double, InDouble);
      assert w[0] in w;
      LexDouble(next, w[1..]);
      assert (lx.word + [QChar(w[0], Double)]) + Marked(w[1..], Double) == lx.word + Marked(w, Double);
    }
  }

  lemma LexWord(lx: Lexer, w: string)
    requires Ready(lx) && PlainWord(w)
    ensures Lex(lx, w + " ") == lx.Emit(Word(Marked(w, Bare)))
  {
    LexConcat(lx, w, " ");
    LexPlain(lx, w);
    assert lx.word + Marked(w, Bare) == Marked(w, Bare);
    LexOne(Lexer(lx.tokens, Marked(w, Bare), InWord), ' ');
  }

  /** A finished word, then a semicolon and a blank. */
  lemma LexSemicolon(lx: Lexer)
    requires lx.mode.InWord?
    ensures Lex(lx, "; ") == lx.Emit(Word(lx.word)).Emit(Operator(";"))
  {
    assert "; "[1..] == " " && " "[1..] == "";
    var a := Step(lx, ';');
    assert a == lx.Emit(Word(lx.word)).To(InOperator(";"));
    assert ";" + [' '] == "; " && !IsOperator("; ");
    assert Lex(lx, "; ") == Lex(a, " ") == Lex(Step(a, ' '), "");
  }

  lemma LexLast(lx: Lexer, w: string)
    requires Ready(lx) && PlainWord(w)
    ensures Lex(lx, w + "; ") == lx.Emit(Word(Marked(w, Bare))).Emit(Operator(";"))
  {
    LexConcat(lx, w, "; ");
    LexPlain(lx, w);
    assert lx.word + Marked(w, Bare) == Marked(w, Bare);
    LexSemicolon(Lexer(lx.tokens, Marked(w, Bare), InWord));
  }

  lemma LexAnd(lx: Lexer)
    requires Ready(lx)
    ensures Lex(lx, "&& ") == lx.Emit(Operator("&&"))
  {
    assert "&& "[1..] == "& " && "& "[1..] == " " && " "[1..] == "";
    var a := Step(lx, '&');
    var b := Step(a, '&');
    assert a == lx.To(InOperator("&")) && "&" + ['&'] == "&&";
    assert b == lx.To(InOperator("&&")) && "&&" + [' '] == "&& " && !IsOperator("&& ");
    assert Lex(lx, "&& ") == Lex(a, "& ") == Lex(b, " ") == Lex(Step(b, ' '), "");
  }

  function Assignment(): Token { Word(Marked("PATH=", Bare) + Marked(PATH_VALUE, Double)) }

  lemma LexAssignment(lx: Lexer)
    requires Ready(lx)
    ensures Lex(lx, "PATH=" + ("\"" + (PATH_VALUE + ("\"" + "; ")))) == lx.Emit(Assignment()).Emit(Operator(";"))
  {
    hide Lex, Marked;
    var inner := "\"" + (PATH_VALUE + ("\"" + "; "));
    var l1 := Lexer(lx.tokens, Marked("PATH=", Bare), InWord);
    LexConcat(lx, "PATH=", inner);
    LexPlain(lx, "PATH=");
    assert lx.word + Marked("PATH=", Bare) == Marked("PATH=", Bare);
    LexConcat(l1, "\"", PATH_VALUE + ("\"" + "; "));
    LexOne(l1, '"');
    var l2 := l1.To(InDouble);
    LexConcat(l2, PATH_VALUE, "\"" + "; ");
    LexDouble(l2, PATH_VALUE);
    var l3 := Lexer(lx.tokens, l1.word + Marked(PATH_VALUE, Double), InDouble);
    LexConcat(l3, "\"", "; ");
    LexOne(l3, '"');
    LexSemicolon(l3.To(InWord));
  }

  function W(w: string): Token { Word(Marked(w, Bare)) }

  function TestTokens(): seq<Token> {
    [Operator("&&"), W("if"), W("["), W("-d"), W(".venv/bin"), W("]"), Operator(";"), W("then")]
  }

  function RestTokens(): seq<Token> {
    [Assignment(), Operator(";"), W("export"), W("PATH"), Operator(";"), W("fi"), Operator(";"), W("exec")]
  }

  // Each of these reads one piece at the head of a longer text.

  lemma WordThen(lx: Lexer, w: string, rest: string)
    requires Ready(lx) && PlainWord(w)
    ensures Ready(lx.Emit(W(w))) && Lex(lx, w + " " + rest) == Lex(lx.Emit(W(w)), rest)
  {
    LexConcat(lx, w + " ", rest);
    LexWord(lx, w);
  }

  lemma LastThen(lx: Lexer, w: string, rest: string)
    requires Ready(lx) && PlainWord(w)
    ensures Lex(lx, w + "; " + rest) == Lex(lx.Emit(W(w)).Emit(Operator(";")), rest)
  {
    LexConcat(lx, w + "; ", rest);
    LexLast(lx, w);
  }

  lemma EnterVenvText(rest: string)
    ensures ENTER_VENV + rest
            == "&& " + ("if" + " " + ("[" + " " + ("-d" + " " + (".venv/bin" + " " + ("]" + "; " + ("then" + " " + rest))))))
  {
  }

  lemma EnterVenvEmitted(lx: Lexer)
    ensures lx.Emit(Operator("&&")).Emit(W("if")).Emit(W("[")).Emit(W("-d")).Emit(W(".venv/bin"))
              .Emit(W("]")).Emit(Operator(";")).Emit(W("then"))
            == Lexer(lx.tokens + TestTokens(), [], Between)
  {
    hide Marked;
  }

  lemma EmitReady(lx: Lexer, t: Token)
    ensures Ready(lx.Emit(t))
  {
  }

  lemma LexEnterVenv(lx: Lexer, rest: string)
    requires Ready(lx)
    ensures Lex(lx, ENTER_VENV + rest) == Lex(Lexer(lx.tokens + TestTokens(), [], Between), rest)
  {
    PlainTest();
    PlainThen();
    hide *;
    EnterVenvText(rest);
    var r7 := "then" + " " + rest;
    var r6 := "]" + "; " + r7;
    var r5 := ".venv/bin" + " " + r6;
    var r4 := "-d" + " " + r5;
    var r3 := "[" + " " + r4;
    var r2 := "if" + " " + r3;
    LexConcat(lx, "&& ", r2);
    LexAnd(lx);
    var a := lx.Emit(Operator("&&"));
    EmitReady(lx, Operator("&&"));
    WordThen(a, "if", r3);
    var b := a.Emit(W("if"));
    WordThen(b, "[", r4);
    var c := b.Emit(W("["));
    WordThen(c, "-d", r5);
    var d := c.Emit(W("-d"));
    WordThen(d, ".venv/bin", r6);
    var e := d.Emit(W(".venv/bin"));
    LastThen(e, "]", r7);
    var f := e.Emit(W("]")).Emit(Operator(";"));
    EmitReady(e.Emit(W("]")), Operator(";"));
    WordThen(f, "then", rest);
    EnterVenvEmitted(lx);
  }

  lemma PlainTest()
    ensures PlainWord("if") && PlainWord("[") && PlainWord("-d")
  {
  }

  lemma PlainThen()
    ensures PlainWord(".venv/bin") && PlainWord("]") && PlainWord("then")
  {
  }

  lemma PlainExport()
    ensures PlainWord("export") && PlainWord("PATH") && PlainWord("fi") && PlainWord("exec")
  {
  }

  lemma PlainCommands()
    ensures PlainWord("cd") && PlainWord("sh") && PlainWord("-c")
  {
  }

  lemma ExportPathText(rest: string)
    ensures EXPORT_PATH + rest
            == ("PATH=" + ("\"" + (PATH_VALUE + ("\"" + "; "))))
               + ("export" + " " + ("PATH" + "; " + ("fi" + "; " + ("exec" + " " + rest))))
  {
  }

  lemma ExportPathEmitted(lx: Lexer)
    ensures lx.Emit(Assignment()).Emit(Operator(";")).Emit(W("export")).Emit(W("PATH")).Emit(Operator(";"))
              .Emit(W("fi")).Emit(Operator(";")).Emit(W("exec"))
            == Lexer(lx.tokens + RestTokens(), [], Between)
  {
    hide Marked, Assignment;
  }

  lemma LexExportPath(lx: Lexer, rest: string)
    requires Ready(lx)
    ensures Lex(lx, EXPORT_PATH + rest) == Lex(Lexer(lx.tokens + RestTokens(), [], Between), rest)
  {
    PlainExport();
    hide *;
    ExportPathText(rest);
    var r5 := "exec" + " " + rest;
    var r4 := "fi" + "; " + r5;
    var r3 := "PATH" + "; " + r4;
    var r2 := "export" + " " + r3;
    LexConcat(lx, "PATH=" + ("\"" + (PATH_VALUE + ("\"" + "; "))), r2);
    LexAssignment(lx);
    var a := lx.Emit(Assignment()).Emit(Operator(";"));
    EmitReady(lx.Emit(Assignment()), Operator(";"));
    WordThen(a, "export", r3);
    var b := a.Emit(W("export"));
    LastThen(b, "PATH", r4);
    var c := b.Emit(W("PATH")).Emit(Operator(";"));
    EmitReady(b.Emit(W("PATH")), Operator(";"));
    LastThen(c, "fi", r5);
    var d := c.Emit(W("fi")).Emit(Operator(";"));
    EmitReady(c.Emit(W("fi")), Operator(";"));
    WordThen(d, "exec", rest);
    ExportPathEmitted(lx);
  }

  /** The fixed text between the remote root and the server's own words. */
  function Preamble(root: string): seq<Token> {
    [W("cd"), Word(Quoted(root))] + TestTokens() + RestTokens()
  }

  /** The inner shell reads the script as the fixed commands around the verbatim
      root directory, then the verbatim command and arguments. */
  lemma ScriptTokens(root: string, command: string, args: seq<string>)
    ensures Tokenize(Script(root, command, args)) == Some(Preamble(root) + Words([command] + args))
    ensures Verbatim(Preamble(root)[1], root) && AllVerbatim(Words([command] + args), [command] + args)
  {
    hide *;
    var words := [command] + args;
    WordsVerbatim(words);
    PreambleRoot(root);
    LexScript(root, words);
    ScriptText(root, command, args);
    TokenizeEnds(ScriptOf(root, words), Preamble(root) + Words(words[..|words| - 1]), Quoted(words[|words| - 1]));
    WordsSnoc(words);
    assert Preamble(root) + Words(words[..|words| - 1]) + [Word(Quoted(words[|words| - 1]))]
        == Preamble(root) + Words(words);
  }

  ghost function Spelling(t: Token): string { if t.Word? then Text(t.chars) else t.op }

  lemma {:induction false} MarkedText(w: string, how: Quoting)
    ensures Text(Marked(w, how)) == w && |Marked(w, how)| == |w|
    ensures forall q <- Marked(w, how) :: q.how == how
  {
    if w != "" {
      MarkedText(w[1..], how);
      assert ([QChar(w[0], how)] + Marked(w[1..], how))[1..] == Marked(w[1..], how);
    }
  }

  lemma {:induction false} TextConcat(a: seq<QChar>, b: seq<QChar>)
    ensures Text(a + b) == Text(a) + Text(b)
  {
    if a == [] {
      assert a + b == b;
    } else {
      assert (a + b)[1..] == a[1..] + b;
      TextConcat(a[1..], b);
    }
  }

  lemma WordSpelt(w: string)
    ensures W(w).Word? && Spelling(W(w)) == w && forall q <- W(w).chars :: q.how.Bare?
  {
    MarkedText(w, Bare);
  }

  /** The search path is assigned in double quotes: its parameters are expanded,
      and the result is one word. */
  lemma AssignmentSpelt()
    ensures Assignment().Word? && Spelling(Assignment()) == "PATH=$PWD/.venv/bin:$PATH"
    ensures exists a: seq<QChar>, b: seq<QChar> ::
      && Assignment().chars == a + b && Text(a) == "PATH="
      && (forall q <- a :: q.how.Bare?) && (forall q <- b :: q.how.Double?)
  {
    hide Marked, Text;
    var a, b := Marked("PATH=", Bare), Marked("$PWD/.venv/bin:$PATH", Double);
    MarkedText("PATH=", Bare);
    MarkedText("$PWD/.venv/bin:$PATH", Double);
    TextConcat(a, b);
    assert "PATH=" + "$PWD/.venv/bin:$PATH" == "PATH=$PWD/.venv/bin:$PATH";
  }

  ghost function Spellings(tokens: seq<Token>): seq<string> {
    seq(|tokens|, i requires 0 <= i < |tokens| => Spelling(tokens[i]))
  }

  /** Word by word: enter the root, put the project's own programs first if it has
      any, and become the server. */
  lemma PreambleSpelt(root: string)
    ensures Spellings(Preamble(root))
            == ["cd", root, "&&", "if", "[", "-d", ".venv/bin", "]", ";", "then",
                "PATH=$PWD/.venv/bin:$PATH", ";", "export", "PATH", ";", "fi", ";", "exec"]
  {
    hide Marked, Text, Quoted;
    QuotedText(root);
    AssignmentSpelt();
    WordSpelt("cd");
    WordSpelt("if");
    WordSpelt("[");
    WordSpelt("-d");
    WordSpelt(".venv/bin");
    WordSpelt("]");
    WordSpelt("then");
    WordSpelt("export");
    WordSpelt("PATH");
    WordSpelt("fi");
    WordSpelt("exec");
  }

  lemma TokenizeEnds(s: string, tokens: seq<Token>, word: seq<QChar>)
    requires Lex(EMPTY, s) == Lexer(tokens, word, InWord)
    ensures Tokenize(s) == Some(tokens + [Word(word)])
  {
  }

  lemma QuotedVerbatim(value: string)
    ensures Verbatim(Word(Quoted(value)), value)
  {
    QuotedText(value);
  }

  lemma PreambleRoot(root: string)
    ensures |Preamble(root)| > 1 && Verbatim(Preamble(root)[1], root)
  {
    QuotedText(root);
    hide Quoted, TestTokens, RestTokens;
  }

  function ScriptOf(root: string, words: seq<string>): string {
    "cd" + " " + (ShellQuote(root) + (" " + (ENTER_VENV + (EXPORT_PATH + JoinBlank(QuoteAll(words))))))
  }

  lemma ScriptText(root: string, command: string, args: seq<string>)
    ensures Script(root, command, args) == ScriptOf(root, [command] + args)
  {
    hide ShellQuote, QuoteAll, JoinBlank, ENTER_VENV, EXPORT_PATH;
    Associate("cd ", ShellQuote(root), " ", ENTER_VENV, EXPORT_PATH, JoinBlank(QuoteAll([command] + args)));
    assert "cd" + " " == "cd ";
  }

  lemma Associate(a: string, b: string, c: string, d: string, e: string, f: string)
    ensures a + b + c + d + e + f == a + (b + (c + (d + (e + f))))
  {
  }

  lemma PreambleEmitted(root: string)
    ensures EMPTY.Emit(W("cd")).Emit(Word(Quoted(root))).tokens + TestTokens() + RestTokens() == Preamble(root)
  {
    hide Marked, Quoted, TestTokens, RestTokens;
  }

  lemma LexScript(root: string, words: seq<string>)
    requires words != []
    ensures Lex(EMPTY, ScriptOf(root, words))
            == Lexer(Preamble(root) + Words(words[..|words| - 1]), Quoted(words[|words| - 1]), InWord)
  {
    PlainCommands();
    assert Ready(EMPTY);
    hide Lex, Marked, Quoted, ShellQuote, Assignment, Words, QuoteAll, JoinBlank, TestTokens, RestTokens, Preamble;
    var server := JoinBlank(QuoteAll(words));
    var r4 := EXPORT_PATH + server;
    var r3 := ENTER_VENV + r4;
    WordThen(EMPTY, "cd", ShellQuote(root) + (" " + r3));
    var l1 := EMPTY.Emit(W("cd"));
    QuoteThen(l1, root, r3);
    var l2 := l1.Emit(Word(Quoted(root)));
    LexEnterVenv(l2, r4);
    var l3 := Lexer(l2.tokens + TestTokens(), [], Between);
    LexExportPath(l3, server);
    var l4 := Lexer(l3.tokens + RestTokens(), [], Between);
    LexQuoted(l4, words);
    PreambleEmitted(root);
  }

  lemma QuoteThen(lx: Lexer, value: string, rest: string)
    requires Ready(lx)
    ensures Lex(lx, ShellQuote(value) + (" " + rest)) == Lex(lx.Emit(Word(Quoted(value))), rest)
  {
    hide Lex, Quoted, ShellQuote;
    var quoted := Lexer(lx.tokens, Quoted(value), InWord);
    LexConcat(lx, ShellQuote(value), " " + rest);
    LexQuote(lx, value);
    LexConcat(quoted, " ", rest);
    LexOne(quoted, ' ');
  }

  /** What the remote login shell gets from ssh: the words after the host, joined. */
  function SshCommandLine(argv: seq<string>): string
    requires |argv| >= 2
  {
    JoinBlank(argv[2..])
  }

  /** And that shell passes the script, unchanged, to a second shell. */
  lemma SshSurvivesBothShells(remote: RemoteConfig, command: string, args: seq<string>)
    requires remote.kind == "ssh" && (remote.runtime.Some? ==> remote.runtime.value == "")
    ensures RemoteCommand(remote, command, args).Some?
    ensures var (program, argv) := RemoteCommand(remote, command, args).value;
      var script := Script(remote.root, command, args);
      && program == "ssh" && |argv| == 5 && argv[1] == remote.target
      && Tokenize(SshCommandLine(argv)) == Some([W("sh"), W("-c"), Word(Quoted(script))])
      && Verbatim(Word(Quoted(script)), script)
      && Tokenize(script) == Some(Preamble(remote.root) + Words([command] + args))
      && Verbatim(Preamble(remote.root)[1], remote.root)
      && AllVerbatim(Words([command] + args), [command] + args)
  {
    var script := Script(remote.root, command, args);
    ScriptTokens(remote.root, command, args);
    QuotedVerbatim(script);
    SshWords(script);
    hide Script, Tokenize, Words, Preamble, ShellQuote, Quoted, Marked, AllVerbatim, Verbatim;
    var argv := RemoteCommand(remote, command, args).value.1;
    assert argv[2..] == ["sh", "-c", ShellQuote(script)];
  }

  /** Docker starts the second shell directly: the script is one argument. */
  lemma DockerPassesScript(remote: RemoteConfig, command: string, args: seq<string>)
    requires remote.kind == "docker" && (remote.runtime.Some? ==> remote.runtime.value == "")
    ensures exists script ::
      && RemoteCommand(remote, command, args) == Some(("docker", ["exec", "-i", remote.target, "sh", "-c", script]))
      && Tokenize(script) == Some(Preamble(remote.root) + Words([command] + args))
      && AllVerbatim(Words([command] + args), [command] + args)
  {
    hide Script, Tokenize, Words, Preamble, AllVerbatim;
    ScriptTokens(remote.root, command, args);
    var script := Script(remote.root, command, args);
    assert RemoteCommand(remote, command, args) == Some(("docker", ["exec", "-i", remote.target, "sh", "-c", script]));
  }

  /** A runtime, whatever the transport, is handed every word as it is. */
  lemma RuntimePassesWords(remote: RemoteConfig, command: string, args: seq<string>)
    requires remote.runtime.Some? && remote.runtime.value != ""
    ensures RemoteCommand(remote, command, args)
            == Some((remote.runtime.value, ["exec", "--kind", remote.kind, "--target", remote.target,
                                            "--root", remote.root, "--"] + ([command] + args)))
  {
    assert ["exec", "--kind", remote.kind, "--target", remote.target, "--root", remote.root, "--", command] + args
        == ["exec", "--kind", remote.kind, "--target", remote.target, "--root", remote.root, "--"] + ([command] + args);
  }

  lemma RefusedExactly(remote: RemoteConfig, command: string, args: seq<string>)
    ensures RemoteCommand(remote, command, args).None?
            <==> remote.runtime in {None, Some("")} && remote.kind !in {"ssh", "docker"}
  {
  }

  lemma JoinThree(a: string, b: string, c: string)
    ensures JoinBlank([a, b, c]) == a + " " + (b + " " + c)
  {
    assert [a, b, c][1..] == [b, c] && [b, c][1..] == [c];
    assert JoinBlank([c]) == c;
    assert JoinBlank([b, c]) == b + " " + c;
  }

  lemma SshWords(script: string)
    ensures Tokenize(JoinBlank(["sh", "-c", ShellQuote(script)])) == Some([W("sh"), W("-c"), Word(Quoted(script))])
  {
    PlainCommands();
    assert Ready(EMPTY);
    hide Lex, Marked, Quoted, ShellQuote, JoinBlank;
    var quoted := ShellQuote(script);
    JoinThree("sh", "-c", quoted);
    WordThen(EMPTY, "sh", "-c" + " " + quoted);
    var a := EMPTY.Emit(W("sh"));
    WordThen(a, "-c", quoted);
    LexQuote(a.Emit(W("-c")), script);
    assert a.Emit(W("-c")).tokens + [Word(Quoted(script))] == [W("sh"), W("-c"), Word(Quoted(script))];
  }
}
