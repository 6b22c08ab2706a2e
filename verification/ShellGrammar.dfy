/** The grammar of the shell's command lines, on tokens, and what the lines of the grammar mean; and the
    proof that the parser of Shell accepts exactly these lines, whatever the white space between the
    tokens, and returns what they mean.

      line     = pipeline "&"* [";" line]
      pipeline = command ["|" pipeline]
      command  = redir* (word redir*)*  |  "(" line ")" redir*
      redir    = ("<" | ">" | ">>") word */
module ShellGrammar {
  import opened Basics
  import opened Shell

  /** Tokens, with words as positions in the line or as texts. */
  datatype Tok<W> = Sym(kind: char) | Word(w: W)

  datatype Arg<W> = Arg(w: W, rs: seq<Redirect<W>>)
  datatype Command<W> = Simple(rs: seq<Redirect<W>>, args: seq<Arg<W>>) | Block(line: Line<W>, rs: seq<Redirect<W>>)
  datatype Pipeline<W> = One(c: Command<W>) | Piped(c: Command<W>, rest: Pipeline<W>)
  datatype Line<W> = Last(p: Pipeline<W>, backs: nat) | Semi(p: Pipeline<W>, backs: nat, rest: Line<W>)

  // ---------------------------------------------------------------- the tokens of the grammar

  /** The symbol of a redirection, as gettoken() returns it. */
  function SymOf(m: Mode): char { if m.Read? then '<' else if m.Create? then '>' else '+' }

  function RedirToks<W>(rs: seq<Redirect<W>>): seq<Tok<W>>
  {
    if |rs| == 0 then [] else [Sym(SymOf(rs[0].mode)), Word(rs[0].file)] + RedirToks(rs[1..])
  }

  function ArgToks<W>(args: seq<Arg<W>>): seq<Tok<W>>
  {
    if |args| == 0 then [] else [Word(args[0].w)] + RedirToks(args[0].rs) + ArgToks(args[1..])
  }

  function CommandToks<W>(c: Command<W>): seq<Tok<W>>
  {
    match c
    case Simple(rs, args) => RedirToks(rs) + ArgToks(args)
    case Block(line, rs) => [Sym('(')] + LineToks(line) + [Sym(')')] + RedirToks(rs)
  }

  function PipeToks<W>(p: Pipeline<W>): seq<Tok<W>>
  {
    match p
    case One(c) => CommandToks(c)
    case Piped(c, rest) => CommandToks(c) + [Sym('|')] + PipeToks(rest)
  }

  function Amps<W>(n: nat): seq<Tok<W>> { if n == 0 then [] else [Sym('&')] + Amps(n - 1) }

  function LineToks<W>(l: Line<W>): seq<Tok<W>>
  {
    match l
    case Last(p, n) => PipeToks(p) + Amps(n)
    case Semi(p, n, rest) => PipeToks(p) + Amps(n) + [Sym(';')] + LineToks(rest)
  }

  // ---------------------------------------------------------------- what a line means

  function ArgWords<W>(args: seq<Arg<W>>): seq<W> { seq(|args|, k requires 0 <= k < |args| => args[k].w) }

  /** The redirections among the arguments, in order. */
  function ArgRedirs<W>(args: seq<Arg<W>>): seq<Redirect<W>>
  {
    if |args| == 0 then [] else args[0].rs + ArgRedirs(args[1..])
  }

  /** Redirections around a command, the last outermost. */
  function Around(c: Cmd, rs: seq<Redirect<Span>>): Cmd
  {
    if rs == [] then c
    else var n := |rs| - 1; Redir(Around(c, rs[..n]), rs[n].file, rs[n].mode)
  }

  function BackN(n: nat, c: Cmd): Cmd { if n == 0 then c else Back(BackN(n - 1, c)) }

  function CommandCmd(c: Command<Span>): Cmd
  {
    match c
    case Simple(rs, args) => Around(Exec(ArgWords(args)), rs + ArgRedirs(args))
    case Block(line, rs) => Around(LineCmd(line), rs)
  }

  function PipeCmd(p: Pipeline<Span>): Cmd
  {
    match p
    case One(c) => CommandCmd(c)
    case Piped(c, rest) => Pipe(CommandCmd(c), PipeCmd(rest))
  }

  function LineCmd(l: Line<Span>): Cmd
  {
    match l
    case Last(p, n) => BackN(n, PipeCmd(p))
    case Semi(p, n, rest) => List(BackN(n, PipeCmd(p)), LineCmd(rest))
  }

  // The bound on the number of arguments.

  predicate CommandFits<W>(c: Command<W>)
  {
    match c
    case Simple(_, args) => |args| < MAXARGS
    case Block(line, _) => LineFits(line)
  }

  predicate PipeFits<W>(p: Pipeline<W>)
  {
    match p
    case One(c) => CommandFits(c)
    case Piped(c, rest) => CommandFits(c) && PipeFits(rest)
  }

  predicate LineFits<W>(l: Line<W>)
  {
    match l
    case Last(p, _) => PipeFits(p)
    case Semi(p, _, rest) => PipeFits(p) && LineFits(rest)
  }

  // ---------------------------------------------------------------- the tokens of a line

  function TokOf(t: Token): Tok<Span> { if t.kind == 'a' then Word(t.span) else Sym(t.kind) }

  /** The tokens from position i on. */
  function Tokens(s: string, i: nat): seq<Tok<Span>>
    requires i <= |s| && IsLine(s)
    decreases |s| - i
  {
    var t := GetToken(s, i);
    if t.kind == '\0' then [] else [TokOf(t)] + Tokens(s, t.next)
  }

  /** The kind of the first token; NUL for none. */
  function First<W>(ts: seq<Tok<W>>): char
  {
    if |ts| == 0 then '\0' else if ts[0].Sym? then ts[0].kind else 'a'
  }

  /** What gettoken() and peek() see, in terms of the tokens. */
  lemma Head(s: string, i: nat)
    requires i <= |s| && IsLine(s)
    ensures var t := GetToken(s, i);
      && First(Tokens(s, i)) == t.kind && Tokens(s, SkipSpace(s, i)) == Tokens(s, i)
      && (Tokens(s, i) == [] <==> t.kind == '\0') && (t.kind == '\0' ==> Tokens(s, t.next) == [])
      && (t.kind != '\0' ==> Tokens(s, i)[0] == TokOf(t) && Tokens(s, i)[1..] == Tokens(s, t.next) && i < t.next)
  {
    SkipTwice(s, i, "");
    KindIsNot(s, SkipSpace(s, i));
  }

  /** Only the end of the line has kind NUL. */
  lemma KindIsNot(s: string, q: nat)
    requires IsLine(s) && q <= |s|
    ensures KindAt(s, q) == '\0' <==> q == |s|
  {
  }

  lemma Peeked(s: string, i: nat)
    requires i <= |s| && IsLine(s)
    ensures var k := GetToken(s, i).kind;
      && (Peek(s, i, "<>") <==> k == '<' || k == '>' || k == '+') && (Peek(s, i, "(") <==> k == '(')
      && (Peek(s, i, ")") <==> k == ')') && (Peek(s, i, "|") <==> k == '|') && (Peek(s, i, "&") <==> k == '&')
      && (Peek(s, i, ";") <==> k == ';') && (Peek(s, i, "|)&;") <==> k == '|' || k == ')' || k == '&' || k == ';')
  {
    var q := SkipSpace(s, i);
    assert GetToken(s, i).kind == KindAt(s, q);
  }

  /** The first token, when it is known, and the others. */
  lemma Step(s: string, i: nat, x: Tok<Span>, rest: seq<Tok<Span>>)
    requires i <= |s| && IsLine(s) && Tokens(s, i) == [x] + rest
    ensures var t := GetToken(s, i);
      && TokOf(t) == x && t.kind == First([x]) && t.kind != '\0' && i < t.next <= |s| && Tokens(s, t.next) == rest
  {
    hide Tokens, GetToken, IsLine;
    Head(s, i);
    assert Tokens(s, i)[1..] == rest;
  }

  // ---------------------------------------------------------------- every line of the grammar parses

  predicate IsRedir(k: char) { k == '<' || k == '>' || k == '+' }

  /** What can follow a command. */
  predicate Follows(k: char) { k == '\0' || k == '|' || k == ')' || k == '&' || k == ';' }

  lemma {:induction false} RedirsRead(s: string, i: nat, rs: seq<Redirect<Span>>, rest: seq<Tok<Span>>)
    requires i <= |s| && IsLine(s) && Tokens(s, i) == RedirToks(rs) + rest && !IsRedir(First(rest))
    ensures var r := Redirs(s, i); r.Ok? && r.value == rs && Tokens(s, r.at) == rest
    decreases |rs|
  {
    hide Tokens, GetToken, IsLine, Peek;
    Peeked(s, i);
    Head(s, i);
    if rs == [] {
      assert RedirToks(rs) + rest == rest;
    } else {
      var tail := RedirToks(rs[1..]) + rest;
      assert RedirToks(rs) + rest == [Sym(SymOf(rs[0].mode))] + ([Word(rs[0].file)] + tail);
      Step(s, i, Sym(SymOf(rs[0].mode)), [Word(rs[0].file)] + tail);
      var t := GetToken(s, i);
      Step(s, t.next, Word(rs[0].file), tail);
      RedirsRead(s, GetToken(s, t.next).next, rs[1..], rest);
      assert [rs[0]] + rs[1..] == rs;
    }
  }

  /** The redirections after a command, or between its words. */
  lemma FirstAfter(rs: seq<Redirect<Span>>, rest: seq<Tok<Span>>)
    ensures First(RedirToks(rs) + rest) == if rs == [] then First(rest) else SymOf(rs[0].mode)
  {
    assert rs == [] ==> RedirToks(rs) + rest == rest;
  }

  lemma FirstOfArgs(args: seq<Arg<Span>>, rest: seq<Tok<Span>>)
    ensures First(ArgToks(args) + rest) == if |args| == 0 then First(rest) else 'a'
  {
    assert |args| == 0 ==> ArgToks(args) + rest == rest;
  }

  lemma WordsAre(s: string, argv: seq<Span>, w: Span)
    requires Words(s, Exec(argv)) && IsWord(s, w)
    ensures Words(s, Exec(argv + [w]))
  {
  }

  /** The arguments and redirections of a simple command. */
  lemma {:induction false} ArgsRead(s: string, i: nat, args: seq<Arg<Span>>, rest: seq<Tok<Span>>,
                                    argv: seq<Span>, rs: seq<Redirect<Span>>)
    requires i <= |s| && IsLine(s) && Tokens(s, i) == ArgToks(args) + rest && Follows(First(rest))
    requires Words(s, Exec(argv)) && (forall k :: 0 <= k < |rs| ==> IsWord(s, rs[k].file))
    requires |argv| + |args| < MAXARGS
    ensures var r := Args(s, i, argv, rs);
      && r.Ok? && r.value == Wrap(Exec(argv + ArgWords(args)), rs + ArgRedirs(args)) && Tokens(s, r.at) == rest
    decreases |args|
  {
    hide Tokens, GetToken, IsLine, Peek, IsWord, Wrap, Redirs;
    Peeked(s, i);
    Head(s, i);
    if |args| == 0 {
      assert ArgToks(args) + rest == rest;
      assert argv + ArgWords(args) == argv && rs + ArgRedirs(args) == rs;
    } else {
      var a := args[0];
      var tail := ArgToks(args[1..]) + rest;
      assert ArgToks(args) + rest == [Word(a.w)] + (RedirToks(a.rs) + tail);
      Step(s, i, Word(a.w), RedirToks(a.rs) + tail);
      var t := GetToken(s, i);
      FirstOfArgs(args[1..], rest);
      RedirsRead(s, t.next, a.rs, tail);
      ArgsRead(s, Redirs(s, t.next).at, args[1..], rest, argv + [t.span], rs + a.rs);
      assert argv + [a.w] + ArgWords(args[1..]) == argv + ArgWords(args);
      assert rs + a.rs + ArgRedirs(args[1..]) == rs + ArgRedirs(args);
    }
  }

  lemma {:induction false} WrapIsAround(c: Cmd, rs: seq<Redirect<Span>>)
    ensures Wrap(c, rs) == Around(c, rs)
    decreases |rs|
  {
    if |rs| > 1 {
      var n, d := |rs| - 1, Redir(c, rs[0].file, rs[0].mode);
      WrapIsAround(d, rs[1..]);
      WrapIsAround(d, rs[1..n]);
      WrapIsAround(c, rs[..n]);
      assert rs[1..][..n - 1] == rs[1..n] && rs[..n][1..] == rs[1..n];
    }
  }

  lemma {:induction false} CommandReads(s: string, i: nat, c: Command<Span>, rest: seq<Tok<Span>>)
    requires i <= |s| && IsLine(s) && Tokens(s, i) == CommandToks(c) + rest && Follows(First(rest)) && CommandFits(c)
    ensures var r := ParseExec(s, i); r.Ok? && r.value == CommandCmd(c) && Tokens(s, r.at) == rest
    decreases c, 0
  {
    match c
    case Simple(rs, args) => SimpleReads(s, i, rs, args, rest);
    case Block(line, rs) => BlockReads(s, i, line, rs, rest);
  }

  lemma BlockReads(s: string, i: nat, line: Line<Span>, rs: seq<Redirect<Span>>, rest: seq<Tok<Span>>)
    requires i <= |s| && IsLine(s) && Tokens(s, i) == CommandToks(Block(line, rs)) + rest
    requires Follows(First(rest)) && LineFits(line)
    ensures var r := ParseExec(s, i); r.Ok? && r.value == CommandCmd(Block(line, rs)) && Tokens(s, r.at) == rest
    decreases line, 1
  {
    hide Tokens, GetToken, IsLine, Peek, Redirs, ParseLine, LineToks, Wrap, Around, LineCmd, Words, RedirToks;
    var after := RedirToks(rs) + rest;
    var inside := LineToks(line) + ([Sym(')')] + after);
    assert CommandToks(Block(line, rs)) + rest == [Sym('(')] + inside;
    Peeked(s, i);
    Step(s, i, Sym('('), inside);
    var t := GetToken(s, i);
    LineReads(s, t.next, line, [Sym(')')] + after);
    var k := ParseLine(s, t.next).at;
    Peeked(s, k);
    Step(s, k, Sym(')'), after);
    RedirsRead(s, GetToken(s, k).next, rs, rest);
    WrapIsAround(LineCmd(line), rs);
  }

  lemma SimpleReads(s: string, i: nat, rs: seq<Redirect<Span>>, args: seq<Arg<Span>>, rest: seq<Tok<Span>>)
    requires i <= |s| && IsLine(s) && Tokens(s, i) == RedirToks(rs) + ArgToks(args) + rest && Follows(First(rest))
    requires |args| < MAXARGS
    ensures var r := ParseExec(s, i);
      r.Ok? && r.value == Around(Exec(ArgWords(args)), rs + ArgRedirs(args)) && Tokens(s, r.at) == rest
  {
    hide Tokens, GetToken, IsLine, Peek, Redirs, Args, Wrap;
    var tail := ArgToks(args) + rest;
    assert RedirToks(rs) + ArgToks(args) + rest == RedirToks(rs) + tail;
    Peeked(s, i);
    Head(s, i);
    FirstAfter(rs, tail);
    FirstOfArgs(args, rest);
    RedirsRead(s, i, rs, tail);
    ArgsRead(s, Redirs(s, i).at, args, rest, [], rs);
    assert [] + ArgWords(args) == ArgWords(args);
    WrapIsAround(Exec(ArgWords(args)), rs + ArgRedirs(args));
  }

  lemma {:induction false} PipeReads(s: string, i: nat, p: Pipeline<Span>, rest: seq<Tok<Span>>)
    requires i <= |s| && IsLine(s) && Tokens(s, i) == PipeToks(p) + rest && PipeFits(p)
    requires Follows(First(rest)) && First(rest) != '|'
    ensures var r := ParsePipe(s, i); r.Ok? && r.value == PipeCmd(p) && Tokens(s, r.at) == rest
    decreases p, 0
  {
    hide Tokens, GetToken, IsLine, Peek, ParseExec;
    match p
    case One(c) =>
      CommandReads(s, i, c, rest);
      Peeked(s, ParseExec(s, i).at);
      Head(s, ParseExec(s, i).at);
    case Piped(c, more) =>
      var tail := PipeToks(more) + rest;
      assert PipeToks(p) + rest == CommandToks(c) + ([Sym('|')] + tail);
      CommandReads(s, i, c, [Sym('|')] + tail);
      var k := ParseExec(s, i).at;
      Peeked(s, k);
      Step(s, k, Sym('|'), tail);
      PipeReads(s, GetToken(s, k).next, more, rest);
  }

  lemma {:induction false} BackInner(n: nat, c: Cmd)
    ensures BackN(n, Back(c)) == BackN(n + 1, c)
  {
    if n > 0 {
      BackInner(n - 1, c);
    }
  }

  lemma {:induction false} BacksRead(s: string, i: nat, n: nat, c: Cmd, rest: seq<Tok<Span>>)
    requires i <= |s| && IsLine(s) && Tokens(s, i) == Amps(n) + rest && First(rest) != '&' && Words(s, c)
    ensures var r := Backs(s, i, c); r.Ok? && r.value == BackN(n, c) && Tokens(s, r.at) == rest
    decreases n
  {
    hide Tokens, GetToken, IsLine, Peek, Words;
    Peeked(s, i);
    Head(s, i);
    if n == 0 {
      assert Amps(n) + rest == rest;
    } else {
      assert Amps(n) + rest == [Sym('&')] + (Amps(n - 1) + rest);
      Step(s, i, Sym('&'), Amps(n - 1) + rest);
      BackWords(s, c);
      BacksRead(s, GetToken(s, i).next, n - 1, Back(c), rest);
      BackInner(n - 1, c);
    }
  }

  lemma BackWords(s: string, c: Cmd)
    requires Words(s, c)
    ensures Words(s, Back(c))
  {
  }

  lemma FirstOfAmps(n: nat, rest: seq<Tok<Span>>)
    ensures First(Amps(n) + rest) == if n == 0 then First(rest) else '&'
  {
    assert n == 0 ==> Amps<Span>(n) + rest == rest;
  }

  lemma {:induction false} LineReads(s: string, i: nat, l: Line<Span>, rest: seq<Tok<Span>>)
    requires i <= |s| && IsLine(s) && Tokens(s, i) == LineToks(l) + rest && LineFits(l)
    requires First(rest) == '\0' || First(rest) == ')'
    ensures var r := ParseLine(s, i); r.Ok? && r.value == LineCmd(l) && Tokens(s, r.at) == rest
    decreases l, 0
  {
    hide Tokens, GetToken, IsLine, Peek, ParsePipe, Backs, Words;
    var tail := if l.Last? then rest else [Sym(';')] + (LineToks(l.rest) + rest);
    assert LineToks(l) + rest == PipeToks(l.p) + (Amps(l.backs) + tail);
    FirstOfAmps(l.backs, tail);
    PipeReads(s, i, l.p, Amps(l.backs) + tail);
    var p := ParsePipe(s, i);
    BacksRead(s, p.at, l.backs, p.value, tail);
    var k := Backs(s, p.at, p.value).at;
    Peeked(s, k);
    Head(s, k);
    if l.Semi? {
      Step(s, k, Sym(';'), LineToks(l.rest) + rest);
      LineReads(s, GetToken(s, k).next, l.rest, rest);
    }
  }

  // ---------------------------------------------------------------- too many arguments

  lemma {:induction false} ArgsFail(s: string, i: nat, args: seq<Arg<Span>>, rest: seq<Tok<Span>>,
                                    argv: seq<Span>, rs: seq<Redirect<Span>>)
    requires i <= |s| && IsLine(s) && Tokens(s, i) == ArgToks(args) + rest
    requires Words(s, Exec(argv)) && (forall k :: 0 <= k < |rs| ==> IsWord(s, rs[k].file))
    requires |argv| < MAXARGS <= |argv| + |args|
    ensures Args(s, i, argv, rs).Fail?
    decreases |args|
  {
    hide Tokens, GetToken, IsLine, Peek, IsWord, Wrap, Redirs;
    Peeked(s, i);
    var a := args[0];
    var tail := ArgToks(args[1..]) + rest;
    assert ArgToks(args) + rest == [Word(a.w)] + (RedirToks(a.rs) + tail);
    Step(s, i, Word(a.w), RedirToks(a.rs) + tail);
    var t := GetToken(s, i);
    if |argv| + 1 < MAXARGS {
      FirstOfArgs(args[1..], rest);
      RedirsRead(s, t.next, a.rs, tail);
      ArgsFail(s, Redirs(s, t.next).at, args[1..], rest, argv + [t.span], rs + a.rs);
    }
  }

  lemma {:induction false} CommandFails(s: string, i: nat, c: Command<Span>, rest: seq<Tok<Span>>)
    requires i <= |s| && IsLine(s) && Tokens(s, i) == CommandToks(c) + rest && !CommandFits(c)
    ensures ParseExec(s, i).Fail?
    decreases c, 0
  {
    hide Tokens, GetToken, IsLine, Peek, Redirs, Args, ParseLine, Words, LineToks;
    Peeked(s, i);
    Head(s, i);
    match c
    case Simple(rs, args) =>
      var tail := ArgToks(args) + rest;
      assert CommandToks(c) + rest == RedirToks(rs) + tail;
      FirstAfter(rs, tail);
      FirstOfArgs(args, rest);
      RedirsRead(s, i, rs, tail);
      NoWords(s);
      ArgsFail(s, Redirs(s, i).at, args, rest, [], rs);
    case Block(line, rs) =>
      var inside := LineToks(line) + ([Sym(')')] + RedirToks(rs) + rest);
      assert CommandToks(c) + rest == [Sym('(')] + inside;
      Step(s, i, Sym('('), inside);
      LineFails(s, GetToken(s, i).next, line, [Sym(')')] + RedirToks(rs) + rest);
  }

  lemma NoWords(s: string)
    ensures Words(s, Exec([]))
  {
  }

  lemma {:induction false} PipeFails(s: string, i: nat, p: Pipeline<Span>, rest: seq<Tok<Span>>)
    requires i <= |s| && IsLine(s) && Tokens(s, i) == PipeToks(p) + rest && !PipeFits(p)
    ensures ParsePipe(s, i).Fail?
    decreases p, 1
  {
    hide Tokens, GetToken, IsLine, Peek, ParseExec, Words, CommandToks, CommandFits;
    var tail := if p.One? then rest else [Sym('|')] + (PipeToks(p.rest) + rest);
    assert PipeToks(p) + rest == CommandToks(p.c) + tail;
    if !CommandFits(p.c) {
      CommandFails(s, i, p.c, tail);
    } else {
      CommandReads(s, i, p.c, tail);
      var k := ParseExec(s, i).at;
      Peeked(s, k);
      Step(s, k, Sym('|'), PipeToks(p.rest) + rest);
      PipeFails(s, GetToken(s, k).next, p.rest, rest);
    }
  }

  lemma {:induction false} LineFails(s: string, i: nat, l: Line<Span>, rest: seq<Tok<Span>>)
    requires i <= |s| && IsLine(s) && Tokens(s, i) == LineToks(l) + rest && !LineFits(l)
    ensures ParseLine(s, i).Fail?
    decreases l, 2
  {
    hide Tokens, GetToken, IsLine, Peek, ParsePipe, Backs, Words, PipeToks, PipeFits;
    var tail := if l.Last? then rest else [Sym(';')] + (LineToks(l.rest) + rest);
    assert LineToks(l) + rest == PipeToks(l.p) + (Amps(l.backs) + tail);
    if !PipeFits(l.p) {
      PipeFails(s, i, l.p, Amps(l.backs) + tail);
    } else {
      FirstOfAmps(l.backs, tail);
      PipeReads(s, i, l.p, Amps(l.backs) + tail);
      var p := ParsePipe(s, i);
      BacksRead(s, p.at, l.backs, p.value, tail);
      var k := Backs(s, p.at, p.value).at;
      Peeked(s, k);
      Step(s, k, Sym(';'), LineToks(l.rest) + rest);
      LineFails(s, GetToken(s, k).next, l.rest, rest);
    }
  }

  // ---------------------------------------------------------------- and no other line does

  lemma {:induction false} RedirsDerive(s: string, i: nat)
    requires i <= |s| && IsLine(s) && Redirs(s, i).Ok?
    ensures Tokens(s, i) == RedirToks(Redirs(s, i).value) + Tokens(s, Redirs(s, i).at)
    decreases |s| - i
  {
    hide Tokens, GetToken, IsLine, Peek;
    Peeked(s, i);
    Head(s, i);
    var r := Redirs(s, i);
    if r.value != [] {
      var t := GetToken(s, i);
      var f := GetToken(s, t.next);
      Head(s, t.next);
      var rest := Redirs(s, f.next);
      RedirsDerive(s, f.next);
      assert r.value[1..] == rest.value;
      assert Tokens(s, i) == [TokOf(t)] + ([TokOf(f)] + Tokens(s, f.next));
    }
  }

  lemma {:induction false} ArgsDerive(s: string, i: nat, argv: seq<Span>, rs: seq<Redirect<Span>>)
    returns (args: seq<Arg<Span>>)
    requires i <= |s| && IsLine(s) && Words(s, Exec(argv)) && (forall k :: 0 <= k < |rs| ==> IsWord(s, rs[k].file))
    requires |argv| < MAXARGS && Args(s, i, argv, rs).Ok?
    ensures var r := Args(s, i, argv, rs);
      && Tokens(s, i) == ArgToks(args) + Tokens(s, r.at) && |argv| + |args| < MAXARGS
      && r.value == Wrap(Exec(argv + ArgWords(args)), rs + ArgRedirs(args))
    decreases |s| - i
  {
    hide Tokens, GetToken, IsLine, Peek, IsWord, Wrap, Redirs;
    Peeked(s, i);
    Head(s, i);
    var t := GetToken(s, i);
    if t.kind != 'a' {
      args := [];
      assert argv + ArgWords(args) == argv && rs + ArgRedirs(args) == rs;
    } else {
      var more := Redirs(s, t.next);
      RedirsDerive(s, t.next);
      var others := ArgsDerive(s, more.at, argv + [t.span], rs + more.value);
      var a := Arg(t.span, more.value);
      args := [a] + others;
      assert args[1..] == others;
      assert argv + [a.w] + ArgWords(others) == argv + ArgWords(args);
      assert rs + a.rs + ArgRedirs(others) == rs + ArgRedirs(args);
      assert Tokens(s, i) == [Word(a.w)] + Tokens(s, t.next);
    }
  }

  lemma {:induction false} CommandDerives(s: string, i: nat) returns (c: Command<Span>)
    requires i <= |s| && IsLine(s) && ParseExec(s, i).Ok?
    ensures var r := ParseExec(s, i);
      CommandFits(c) && Tokens(s, i) == CommandToks(c) + Tokens(s, r.at) && r.value == CommandCmd(c)
    decreases |s| - i, 1
  {
    hide Tokens, GetToken, IsLine, Peek, IsWord, Wrap, Redirs, ParseBlock, Args;
    Peeked(s, i);
    if GetToken(s, i).kind == '(' {
      c := BlockDerives(s, i);
    } else {
      var rs := Redirs(s, i);
      RedirsDerive(s, i);
      var args := ArgsDerive(s, rs.at, [], rs.value);
      c := Simple(rs.value, args);
      assert [] + ArgWords(args) == ArgWords(args);
      WrapIsAround(Exec(ArgWords(args)), rs.value + ArgRedirs(args));
    }
  }

  lemma BlockDerives(s: string, i: nat) returns (c: Command<Span>)
    requires i <= |s| && IsLine(s) && Peek(s, i, "(") && ParseBlock(s, i).Ok?
    ensures var r := ParseBlock(s, i);
      CommandFits(c) && Tokens(s, i) == CommandToks(c) + Tokens(s, r.at) && r.value == CommandCmd(c)
    decreases |s| - i, 0
  {
    hide Tokens, GetToken, IsLine, Peek, Wrap, Redirs, ParseLine, Words, Around, LineCmd, LineToks;
    Peeked(s, i);
    Head(s, i);
    var t := GetToken(s, i);
    var line := LineDerives(s, t.next);
    var k := ParseLine(s, t.next).at;
    Peeked(s, k);
    Head(s, k);
    var u := GetToken(s, k);
    var rs := Redirs(s, u.next);
    RedirsDerive(s, u.next);
    WrapIsAround(LineCmd(line), rs.value);
    c := Block(line, rs.value);
    assert Tokens(s, i) == [Sym('(')] + Tokens(s, t.next) && Tokens(s, k) == [Sym(')')] + Tokens(s, u.next);
  }

  lemma {:induction false} PipeDerives(s: string, i: nat) returns (p: Pipeline<Span>)
    requires i <= |s| && IsLine(s) && ParsePipe(s, i).Ok?
    ensures var r := ParsePipe(s, i);
      PipeFits(p) && Tokens(s, i) == PipeToks(p) + Tokens(s, r.at) && r.value == PipeCmd(p)
    decreases |s| - i, 2
  {
    hide Tokens, GetToken, IsLine, Peek, ParseExec, Words;
    var c := CommandDerives(s, i);
    var k := ParseExec(s, i).at;
    Peeked(s, k);
    Head(s, k);
    var t := GetToken(s, k);
    if t.kind == '|' {
      var rest := PipeDerives(s, t.next);
      p := Piped(c, rest);
      assert Tokens(s, k) == [Sym('|')] + Tokens(s, t.next);
    } else {
      p := One(c);
    }
  }

  lemma {:induction false} BacksDerive(s: string, i: nat, c: Cmd) returns (n: nat)
    requires i <= |s| && IsLine(s) && Words(s, c)
    ensures var r := Backs(s, i, c); Tokens(s, i) == Amps(n) + Tokens(s, r.at) && r.value == BackN(n, c)
    decreases |s| - i
  {
    hide Tokens, GetToken, IsLine, Peek, Words;
    Peeked(s, i);
    Head(s, i);
    var t := GetToken(s, i);
    if t.kind == '&' {
      BackWords(s, c);
      var m := BacksDerive(s, t.next, Back(c));
      BackInner(m, c);
      n := m + 1;
      assert Tokens(s, i) == [Sym('&')] + Tokens(s, t.next);
    } else {
      n := 0;
    }
  }

  lemma {:induction false} LineDerives(s: string, i: nat) returns (l: Line<Span>)
    requires i <= |s| && IsLine(s) && ParseLine(s, i).Ok?
    ensures var r := ParseLine(s, i);
      LineFits(l) && Tokens(s, i) == LineToks(l) + Tokens(s, r.at) && r.value == LineCmd(l)
    decreases |s| - i, 3
  {
    hide Tokens, GetToken, IsLine, Peek, ParsePipe, Backs, Words;
    var p := PipeDerives(s, i);
    var c := ParsePipe(s, i);
    var n := BacksDerive(s, c.at, c.value);
    var k := Backs(s, c.at, c.value).at;
    Peeked(s, k);
    Head(s, k);
    var t := GetToken(s, k);
    if t.kind == ';' {
      var rest := LineDerives(s, t.next);
      l := Semi(p, n, rest);
      assert Tokens(s, k) == [Sym(';')] + Tokens(s, t.next);
    } else {
      l := Last(p, n);
    }
  }

  /** The tokens of the line are those of l. */
  ghost predicate Derives(s: string, l: Line<Span>)
    requires IsLine(s)
  {
    LineToks(l) == Tokens(s, 0)
  }

  lemma LineParses(s: string, l: Line<Span>)
    requires IsLine(s) && Derives(s, l)
    ensures ParseCmd(s).Ok? <==> LineFits(l)
    ensures LineFits(l) ==> ParseCmd(s).value == LineCmd(l)
  {
    hide Tokens, GetToken, IsLine, ParseLine, LineToks, LineFits;
    assert LineToks(l) + [] == Tokens(s, 0);
    if LineFits(l) {
      LineReads(s, 0, l, []);
      TokensEnd(s, ParseLine(s, 0).at);
    } else {
      LineFails(s, 0, l, []);
    }
  }

  lemma TokensEnd(s: string, i: nat)
    requires i <= |s| && IsLine(s)
    ensures Tokens(s, i) == [] <==> SkipSpace(s, i) == |s|
  {
  }

  lemma ParseDerives(s: string) returns (l: Line<Span>)
    requires IsLine(s) && ParseCmd(s).Ok?
    ensures Derives(s, l) && LineFits(l) && ParseCmd(s).value == LineCmd(l)
  {
    hide Tokens, GetToken, IsLine, ParseLine, LineToks;
    l := LineDerives(s, 0);
    TokensEnd(s, ParseLine(s, 0).at);
  }

  /** The parser accepts exactly the lines of the grammar in which every command has fewer than MAXARGS
      arguments, and returns what they mean; so no token is lost, and no line means two things. */
  lemma ParsesExactly(s: string)
    requires IsLine(s)
    ensures ParseCmd(s).Ok? <==> exists l :: Derives(s, l) && LineFits(l)
    ensures forall l :: Derives(s, l) ==>
      (ParseCmd(s).Ok? <==> LineFits(l)) && (LineFits(l) ==> ParseCmd(s).value == LineCmd(l))
  {
    hide ParseCmd, Derives, IsLine, LineCmd, LineFits;
    if ParseCmd(s).Ok? {
      var l := ParseDerives(s);
    }
    forall l | Derives(s, l)
      ensures (ParseCmd(s).Ok? <==> LineFits(l)) && (LineFits(l) ==> ParseCmd(s).value == LineCmd(l))
    {
      LineParses(s, l);
    }
  }

  // ---------------------------------------------------------------- no word is lost

  /** A word of the line, from its first character to its last. */
  predicate WholeWord(s: string, w: Span)
  {
    IsWord(s, w) && (w.q > 0 ==> !IsWordChar(s[w.q - 1]))
  }

  lemma {:induction false} WordsAreTokens(s: string, i: nat, w: Span)
    requires i <= |s| && IsLine(s) && WholeWord(s, w) && i <= w.q
    ensures Word(w) in Tokens(s, i)
    decreases |s| - i
  {
    var t := GetToken(s, i);
    assert IsWordChar(s[w.q]);
    if t.span != w {
      WordsApart(s, i, w);
      WordsAreTokens(s, t.next, w);
    }
  }

  /** A word that is not the first token comes after it. */
  lemma WordsApart(s: string, i: nat, w: Span)
    requires i <= |s| && IsLine(s) && WholeWord(s, w) && i <= w.q && GetToken(s, i).span != w
    ensures GetToken(s, i).kind != '\0' && i < GetToken(s, i).next <= w.q
  {
    var t := GetToken(s, i);
    assert IsWordChar(s[w.q]);
    if t.kind == 'a' && w.q == t.span.q {
      SameEnd(s, t.span, w);
    }
  }

  lemma SameEnd(s: string, v: Span, w: Span)
    requires IsWord(s, v) && IsWord(s, w) && v.q == w.q
    ensures v == w
  {
  }

  lemma {:induction false} RedirWords(c: Cmd, rs: seq<Redirect<Span>>, w: Span)
    ensures HasToken(Around(c, rs), w) <==> HasToken(c, w) || Word(w) in RedirToks(rs)
    decreases |rs|
  {
    if rs != [] {
      var n := |rs| - 1;
      RedirWords(c, rs[..n], w);
      RedirToksSplit(rs[..n], [rs[n]]);
      assert rs[..n] + [rs[n]] == rs;
      assert RedirToks([rs[n]]) == [Sym(SymOf(rs[n].mode)), Word(rs[n].file)];
    }
  }

  lemma {:induction false} RedirToksSplit(a: seq<Redirect<Span>>, b: seq<Redirect<Span>>)
    ensures RedirToks(a + b) == RedirToks(a) + RedirToks(b)
  {
    if a == [] {
      assert a + b == b;
    } else {
      assert (a + b)[1..] == a[1..] + b;
      RedirToksSplit(a[1..], b);
    }
  }

  lemma {:induction false} ArgWordsHave(args: seq<Arg<Span>>, w: Span)
    ensures Word(w) in ArgToks(args) <==> w in ArgWords(args) || Word(w) in RedirToks(ArgRedirs(args))
    decreases |args|
  {
    if |args| > 0 {
      ArgWordsHave(args[1..], w);
      RedirToksSplit(args[0].rs, ArgRedirs(args[1..]));
      assert ArgWords(args) == [args[0].w] + ArgWords(args[1..]);
    }
  }

  lemma {:induction false} CommandWords(c: Command<Span>, w: Span)
    ensures HasToken(CommandCmd(c), w) <==> Word(w) in CommandToks(c)
    decreases c, 0
  {
    match c
    case Simple(rs, args) =>
      RedirWords(Exec(ArgWords(args)), rs + ArgRedirs(args), w);
      RedirToksSplit(rs, ArgRedirs(args));
      ArgWordsHave(args, w);
    case Block(line, rs) =>
      LineWords(line, w);
      RedirWords(LineCmd(line), rs, w);
  }

  lemma {:induction false} PipeWords(p: Pipeline<Span>, w: Span)
    ensures HasToken(PipeCmd(p), w) <==> Word(w) in PipeToks(p)
    decreases p, 1
  {
    CommandWords(p.c, w);
    if p.Piped? {
      PipeWords(p.rest, w);
    }
  }

  lemma {:induction false} BackWordsHave(n: nat, c: Cmd, w: Span)
    ensures HasToken(BackN(n, c), w) <==> HasToken(c, w)
    ensures Word(w) !in Amps(n)
  {
    if n > 0 {
      BackWordsHave(n - 1, c, w);
    }
  }

  lemma {:induction false} LineWords(l: Line<Span>, w: Span)
    ensures HasToken(LineCmd(l), w) <==> Word(w) in LineToks(l)
    decreases l, 2
  {
    PipeWords(l.p, w);
    BackWordsHave(l.backs, PipeCmd(l.p), w);
    if l.Semi? {
      LineWords(l.rest, w);
    }
  }

  /** Every word of a line that parses is an argument or a file name of its command. */
  lemma NoWordIsLost(s: string, w: Span)
    requires IsLine(s) && ParseCmd(s).Ok? && WholeWord(s, w)
    ensures HasToken(ParseCmd(s).value, w)
  {
    hide ParseCmd, Tokens, LineCmd, LineToks, HasToken, WholeWord;
    var l := ParseDerives(s);
    WordsAreTokens(s, 0, w);
    LineWords(l, w);
  }
}
