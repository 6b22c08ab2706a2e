/** Printing the shell's command lines, and reading them back: what a line of ShellGrammar says, by the
    texts of its words, is what the parser makes of any line with those tokens. */
module ShellPrint {
  import opened Basics
  import opened Shell
  import opened ShellGrammar

  /** Commands with the text of their tokens. */
  datatype Tree =
    | TExec(argv: seq<string>)
    | TRedir(cmd: Tree, file: string, mode: Mode)
    | TPipe(left: Tree, right: Tree)
    | TList(left: Tree, right: Tree)
    | TBack(cmd: Tree)

  function Slice(s: string, w: Span): string { if w.q <= w.eq <= |s| then s[w.q..w.eq] else [] }

  function Texts(s: string, ws: seq<Span>): seq<string>
  {
    seq(|ws|, k requires 0 <= k < |ws| => Slice(s, ws[k]))
  }

  /** The tree a parsed command stands for. */
  function Text(s: string, c: Cmd): Tree
  {
    match c
    case Exec(argv) => TExec(Texts(s, argv))
    case Redir(d, file, mode) => TRedir(Text(s, d), Slice(s, file), mode)
    case Pipe(l, r) => TPipe(Text(s, l), Text(s, r))
    case List(l, r) => TList(Text(s, l), Text(s, r))
    case Back(d) => TBack(Text(s, d))
  }

  predicate GoodWord(w: string) { w != [] && forall k :: 0 <= k < |w| ==> IsWordChar(w[k]) }

  /** Words that can be written down, and no more arguments than parseexec() takes. */
  predicate Printable(t: Tree)
  {
    match t
    case TExec(argv) => |argv| < MAXARGS && forall k :: 0 <= k < |argv| ==> GoodWord(argv[k])
    case TRedir(d, file, _) => Printable(d) && GoodWord(file)
    case TPipe(l, r) => Printable(l) && Printable(r)
    case TList(l, r) => Printable(l) && Printable(r)
    case TBack(d) => Printable(d)
  }

  /** Words that can be written down, in any number. */
  predicate Writable(t: Tree)
  {
    match t
    case TExec(argv) => forall k :: 0 <= k < |argv| ==> GoodWord(argv[k])
    case TRedir(d, file, _) => Writable(d) && GoodWord(file)
    case TPipe(l, r) => Writable(l) && Writable(r)
    case TList(l, r) => Writable(l) && Writable(r)
    case TBack(d) => Writable(d)
  }

  /** The tree that a line of texts stands for. */
  function AroundTree(t: Tree, rs: seq<Redirect<string>>): Tree
  {
    if rs == [] then t
    else var n := |rs| - 1; TRedir(AroundTree(t, rs[..n]), rs[n].file, rs[n].mode)
  }

  function BackTree(n: nat, t: Tree): Tree { if n == 0 then t else TBack(BackTree(n - 1, t)) }

  function CommandTree(c: Command<string>): Tree
  {
    match c
    case Simple(rs, args) => AroundTree(TExec(ArgWords(args)), rs + ArgRedirs(args))
    case Block(line, rs) => AroundTree(LineTree(line), rs)
  }

  function PipeTree(p: Pipeline<string>): Tree
  {
    match p
    case One(c) => CommandTree(c)
    case Piped(c, rest) => TPipe(CommandTree(c), PipeTree(rest))
  }

  function LineTree(l: Line<string>): Tree
  {
    match l
    case Last(p, n) => BackTree(n, PipeTree(p))
    case Semi(p, n, rest) => TList(BackTree(n, PipeTree(p)), LineTree(rest))
  }

  /** The text of a token. */
  function Said(s: string, t: Tok<Span>): Tok<string> { if t.Sym? then Sym(t.kind) else Word(Slice(s, t.w)) }

  function AllSaid(s: string, ts: seq<Tok<Span>>): seq<Tok<string>>
  {
    seq(|ts|, k requires 0 <= k < |ts| => Said(s, ts[k]))
  }

  lemma SaidParts(s: string, ts: seq<Tok<Span>>, a: seq<Tok<string>>, b: seq<Tok<string>>)
    requires AllSaid(s, ts) == a + b
    ensures |a| <= |ts| && AllSaid(s, ts[..|a|]) == a && AllSaid(s, ts[|a|..]) == b
    ensures ts[..|a|] + ts[|a|..] == ts
  {
    assert AllSaid(s, ts)[..|a|] == a && AllSaid(s, ts)[|a|..] == b;
  }

  lemma SaidSym(s: string, ts: seq<Tok<Span>>, k: char)
    requires AllSaid(s, ts) == [Sym(k)]
    ensures ts == [Sym(k)]
  {
    assert Said(s, ts[0]) == AllSaid(s, ts)[0];
  }

  lemma SaidWord(s: string, ts: seq<Tok<Span>>, w: string)
    requires AllSaid(s, ts) == [Word(w)]
    ensures |ts| == 1 && ts[0].Word? && ts == [Word(ts[0].w)] && Slice(s, ts[0].w) == w
  {
    assert Said(s, ts[0]) == AllSaid(s, ts)[0];
  }

  lemma NoneSaid(s: string)
    ensures forall ts :: AllSaid(s, ts) == [] ==> ts == []
    ensures Same(s, [], [])
  {
    forall ts | AllSaid(s, ts) == [] ensures ts == [] {
      assert |AllSaid(s, ts)| == |ts|;
    }
  }

  // A line of texts that says what the tokens say, read with the positions of the tokens.

  lemma {:induction false} PlaceRedirs(s: string, rs: seq<Redirect<string>>, ts: seq<Tok<Span>>)
    returns (ps: seq<Redirect<Span>>)
    requires AllSaid(s, ts) == RedirToks(rs)
    ensures RedirToks(ps) == ts && Same(s, ps, rs)
    decreases |rs|
  {
    if rs == [] {
      ps := [];
    } else {
      SaidParts(s, ts, [Sym(SymOf(rs[0].mode)), Word(rs[0].file)], RedirToks(rs[1..]));
      var head := ts[..2];
      assert Said(s, head[0]) == AllSaid(s, head)[0] && Said(s, head[1]) == AllSaid(s, head)[1];
      var others := PlaceRedirs(s, rs[1..], ts[2..]);
      ps := [Redirect(head[1].w, rs[0].mode)] + others;
      assert ps[1..] == others;
    }
  }

  /** The same redirections, by position and by text. */
  ghost predicate Same(s: string, ps: seq<Redirect<Span>>, rs: seq<Redirect<string>>)
  {
    |ps| == |rs| && forall k :: 0 <= k < |ps| ==> rs[k] == Redirect(Slice(s, ps[k].file), ps[k].mode)
  }

  lemma {:induction false} SameAround(s: string, c: Cmd, ps: seq<Redirect<Span>>, rs: seq<Redirect<string>>)
    requires Same(s, ps, rs)
    ensures Text(s, Around(c, ps)) == AroundTree(Text(s, c), rs)
    decreases |ps|
  {
    if ps != [] {
      SameAround(s, c, ps[..|ps| - 1], rs[..|ps| - 1]);
    }
  }

  lemma {:induction false} PlaceArgs(s: string, args: seq<Arg<string>>, ts: seq<Tok<Span>>) returns (ps: seq<Arg<Span>>)
    requires AllSaid(s, ts) == ArgToks(args)
    ensures ArgToks(ps) == ts && Texts(s, ArgWords(ps)) == ArgWords(args) && |ps| == |args|
    ensures Same(s, ArgRedirs(ps), ArgRedirs(args))
    decreases |args|
  {
    hide Same, AllSaid, RedirToks, Slice;
    if |args| == 0 {
      ps := [];
      NoneSaid(s);
    } else {
      var a, rest := args[0], ArgToks(args[1..]);
      SaidParts(s, ts, [Word(a.w)] + RedirToks(a.rs), rest);
      var head, tail := ts[..1 + |RedirToks(a.rs)|], ts[1 + |RedirToks(a.rs)|..];
      SaidParts(s, head, [Word(a.w)], RedirToks(a.rs));
      SaidWord(s, head[..1], a.w);
      var rs := PlaceRedirs(s, a.rs, head[1..]);
      var others := PlaceArgs(s, args[1..], tail);
      ps := [Arg(head[0].w, rs)] + others;
      JoinArgs(s, ps, args);
    }
  }

  /** One more argument, by position and by text. */
  lemma JoinArgs(s: string, ps: seq<Arg<Span>>, args: seq<Arg<string>>)
    requires |ps| == |args| > 0 && Slice(s, ps[0].w) == args[0].w && Same(s, ps[0].rs, args[0].rs)
    requires Texts(s, ArgWords(ps[1..])) == ArgWords(args[1..])
    requires Same(s, ArgRedirs(ps[1..]), ArgRedirs(args[1..]))
    ensures Texts(s, ArgWords(ps)) == ArgWords(args) && Same(s, ArgRedirs(ps), ArgRedirs(args))
  {
    hide Slice;
    assert ArgWords(ps) == [ps[0].w] + ArgWords(ps[1..]) && ArgWords(args) == [args[0].w] + ArgWords(args[1..]);
    assert Texts(s, ArgWords(ps)) == [Slice(s, ps[0].w)] + Texts(s, ArgWords(ps[1..]));
  }

  lemma {:induction false} PlaceCommand(s: string, c: Command<string>, ts: seq<Tok<Span>>) returns (p: Command<Span>)
    requires AllSaid(s, ts) == CommandToks(c)
    ensures CommandToks(p) == ts && Text(s, CommandCmd(p)) == CommandTree(c) && (CommandFits(p) <==> CommandFits(c))
    decreases c, 0
  {
    match c
    case Simple(rs, args) =>
      SaidParts(s, ts, RedirToks(rs), ArgToks(args));
      var qs := PlaceRedirs(s, rs, ts[..|RedirToks(rs)|]);
      var ps := PlaceArgs(s, args, ts[|RedirToks(rs)|..]);
      p := Simple(qs, ps);
      SameAround(s, Exec(ArgWords(ps)), qs + ArgRedirs(ps), rs + ArgRedirs(args));
    case Block(line, rs) => p := PlaceBlock(s, line, rs, ts);
  }

  lemma PlaceBlock(s: string, line: Line<string>, rs: seq<Redirect<string>>, ts: seq<Tok<Span>>)
    returns (p: Command<Span>)
    requires AllSaid(s, ts) == CommandToks(Block(line, rs))
    ensures CommandToks(p) == ts && Text(s, CommandCmd(p)) == CommandTree(Block(line, rs))
    ensures CommandFits(p) <==> LineFits(line)
    decreases line, 3
  {
    var n := |LineToks(line)|;
    SaidParts(s, ts, [Sym('(')] + LineToks(line) + [Sym(')')], RedirToks(rs));
    var head := ts[..n + 2];
    SaidParts(s, head, [Sym('(')] + LineToks(line), [Sym(')')]);
    SaidParts(s, head[..n + 1], [Sym('(')], LineToks(line));
    SaidSym(s, head[..n + 1][..1], '(');
    SaidSym(s, head[n + 1..], ')');
    var l := PlaceLine(s, line, head[..n + 1][1..]);
    var qs := PlaceRedirs(s, rs, ts[n + 2..]);
    p := Block(l, qs);
    SameAround(s, LineCmd(l), qs, rs);
  }

  lemma {:induction false} PlacePipe(s: string, p: Pipeline<string>, ts: seq<Tok<Span>>) returns (q: Pipeline<Span>)
    requires AllSaid(s, ts) == PipeToks(p)
    ensures PipeToks(q) == ts && Text(s, PipeCmd(q)) == PipeTree(p) && (PipeFits(q) <==> PipeFits(p))
    decreases p, 1
  {
    if p.One? {
      var c := PlaceCommand(s, p.c, ts);
      q := One(c);
    } else {
      var n := |CommandToks(p.c)|;
      SaidParts(s, ts, CommandToks(p.c) + [Sym('|')], PipeToks(p.rest));
      SaidParts(s, ts[..n + 1], CommandToks(p.c), [Sym('|')]);
      SaidSym(s, ts[..n + 1][n..], '|');
      var c := PlaceCommand(s, p.c, ts[..n + 1][..n]);
      var rest := PlacePipe(s, p.rest, ts[n + 1..]);
      q := Piped(c, rest);
    }
  }

  lemma {:induction false} PlaceAmps(s: string, n: nat, ts: seq<Tok<Span>>)
    requires AllSaid(s, ts) == Amps(n)
    ensures ts == Amps(n)
  {
    if n > 0 {
      SaidParts(s, ts, [Sym('&')], Amps(n - 1));
      SaidSym(s, ts[..1], '&');
      PlaceAmps(s, n - 1, ts[1..]);
    }
  }

  lemma {:induction false} BackText(s: string, n: nat, c: Cmd)
    ensures Text(s, BackN(n, c)) == BackTree(n, Text(s, c))
  {
    if n > 0 {
      BackText(s, n - 1, c);
    }
  }

  /** A pipeline and the & after it. */
  lemma PlaceBacks(s: string, p: Pipeline<string>, backs: nat, ts: seq<Tok<Span>>) returns (q: Pipeline<Span>)
    requires AllSaid(s, ts) == PipeToks(p) + Amps(backs)
    ensures PipeToks(q) + Amps(backs) == ts && Text(s, BackN(backs, PipeCmd(q))) == BackTree(backs, PipeTree(p))
    ensures PipeFits(q) <==> PipeFits(p)
    decreases p, 2
  {
    hide AllSaid, PipeToks, PipeTree, PipeCmd, PipeFits, Amps, BackN, BackTree;
    var n := |PipeToks(p)|;
    SaidParts(s, ts, PipeToks(p), Amps(backs));
    q := PlacePipe(s, p, ts[..n]);
    PlaceAmps(s, backs, ts[n..]);
    BackText(s, backs, PipeCmd(q));
  }

  lemma {:induction false} PlaceLine(s: string, l: Line<string>, ts: seq<Tok<Span>>) returns (m: Line<Span>)
    requires AllSaid(s, ts) == LineToks(l)
    ensures LineToks(m) == ts && Text(s, LineCmd(m)) == LineTree(l) && (LineFits(m) <==> LineFits(l))
    decreases l, 2
  {
    hide AllSaid, PipeToks, PipeTree, PipeCmd, PipeFits, Amps, BackN, BackTree;
    if l.Last? {
      var p := PlaceBacks(s, l.p, l.backs, ts);
      m := Last(p, l.backs);
    } else {
      var front := PipeToks(l.p) + Amps(l.backs);
      var n := |front|;
      SaidParts(s, ts, front + [Sym(';')], LineToks(l.rest));
      SaidParts(s, ts[..n + 1], front, [Sym(';')]);
      SaidSym(s, ts[..n + 1][n..], ';');
      var p := PlaceBacks(s, l.p, l.backs, ts[..n + 1][..n]);
      var more := PlaceLine(s, l.rest, ts[n + 1..]);
      m := Semi(p, l.backs, more);
    }
  }

  // ---------------------------------------------------------------- writing tokens

  /** The text p is at position i of the line. */
  ghost predicate Has(s: string, i: nat, p: string)
  {
    i + |p| <= |s| && s[i..i + |p|] == p
  }

  lemma HasParts(s: string, i: nat, p: string, q: string)
    ensures Has(s, i, p + q) <==> Has(s, i, p) && Has(s, i + |p|, q)
  {
    if Has(s, i, p + q) {
      assert s[i..i + |p|] == s[i..i + |p + q|][..|p|];
      assert s[i + |p|..i + |p| + |q|] == s[i..i + |p + q|][|p|..];
    }
    if Has(s, i, p) && Has(s, i + |p|, q) {
      assert s[i..i + |p + q|] == s[i..i + |p|] + s[i + |p|..i + |p| + |q|];
    }
  }

  lemma HasChar(s: string, i: nat, c: char)
    ensures Has(s, i, [c]) <==> i < |s| && s[i] == c
  {
    if i < |s| {
      assert s[i..i + 1] == [s[i]];
    }
  }

  /** No white space at i, so nothing is skipped. */
  lemma NoSkip(s: string, i: nat)
    requires i <= |s| && (i < |s| ==> !IsSpace(s[i]))
    ensures SkipSpace(s, i) == i
  {
  }

  /** A word, up to a character that is not of a word. */
  lemma {:induction false} WordEndIs(s: string, i: nat, e: nat)
    requires i <= e <= |s| && (forall k :: i <= k < e ==> IsWordChar(s[k]))
    requires (e < |s| ==> IsSpace(s[e]) || IsSymbol(s[e]))
    ensures WordEnd(s, i) == e
    decreases e - i
  {
    if i < e {
      WordEndIs(s, i + 1, e);
    }
  }

  lemma WordToken(s: string, i: nat, w: string)
    requires IsLine(s) && Has(s, i, w) && GoodWord(w) && (i + |w| < |s| ==> IsSpace(s[i + |w|]) || IsSymbol(s[i + |w|]))
    ensures GetToken(s, i) == Token('a', Span(i, i + |w|), SkipSpace(s, i + |w|)) && Slice(s, Span(i, i + |w|)) == w
    ensures i + |w| <= |s| && i < |s|
    ensures IsWord(s, Span(i, i + |w|)) && IsWordChar(s[i])
  {
    forall k | i <= k < i + |w| ensures IsWordChar(s[k]) {
      assert s[k] == w[k - i];
    }
    NoSkip(s, i);
    WordEndIs(s, i, i + |w|);
  }

  /** The kinds of symbols. */
  predicate SymKind(k: char) { IsRedir(k) || k == '|' || k == '&' || k == ';' || k == '(' || k == ')' }

  ghost predicate SymsOk(ts: seq<Tok<string>>) { forall t :: t in ts && t.Sym? ==> SymKind(t.kind) }

  lemma {:induction false} RedirSyms(rs: seq<Redirect<string>>)
    ensures SymsOk(RedirToks(rs))
  {
    if rs != [] {
      RedirSyms(rs[1..]);
    }
  }

  lemma {:induction false} ArgSyms(args: seq<Arg<string>>)
    ensures SymsOk(ArgToks(args))
  {
    if |args| > 0 {
      RedirSyms(args[0].rs);
      ArgSyms(args[1..]);
    }
  }

  lemma {:induction false} CommandSyms(c: Command<string>)
    ensures SymsOk(CommandToks(c))
    decreases c, 0
  {
    RedirSyms(c.rs);
    match c
    case Simple(_, args) => ArgSyms(args);
    case Block(line, _) => LineSyms(line);
  }

  lemma {:induction false} PipeSyms(p: Pipeline<string>)
    ensures SymsOk(PipeToks(p))
    decreases p, 1
  {
    CommandSyms(p.c);
    if p.Piped? {
      PipeSyms(p.rest);
    }
  }

  lemma {:induction false} AmpSyms(n: nat)
    ensures SymsOk(Amps(n))
  {
    if n > 0 {
      AmpSyms(n - 1);
    }
  }

  lemma {:induction false} LineSyms(l: Line<string>)
    ensures SymsOk(LineToks(l))
    decreases l, 2
  {
    PipeSyms(l.p);
    AmpSyms(l.backs);
    if l.Semi? {
      LineSyms(l.rest);
    }
  }

  /** Tokens written one after the other, each followed by a blank. */
  function Spelled(t: Tok<string>): string { if t.Word? then t.w else if t.kind == '+' then ">>" else [t.kind] }

  function Join(ts: seq<Tok<string>>): string
  {
    if |ts| == 0 then [] else Spelled(ts[0]) + " " + Join(ts[1..])
  }

  function PrintLine(l: Line<string>): string { Join(LineToks(l)) }

  predicate GoodTok(t: Tok<string>) { if t.Word? then GoodWord(t.w) else SymKind(t.kind) }

  lemma {:induction false} JoinIsLine(ts: seq<Tok<string>>)
    requires forall k :: 0 <= k < |ts| ==> GoodTok(ts[k])
    ensures IsLine(Join(ts))
  {
    if |ts| > 0 {
      assert GoodTok(ts[0]);
      JoinIsLine(ts[1..]);
    }
  }

  lemma SpelledSym(s: string, i: nat, k: char)
    requires IsLine(s) && SymKind(k) && Has(s, i, Spelled(Sym(k)))
    requires i + |Spelled(Sym(k))| < |s| && s[i + |Spelled(Sym(k))|] == ' '
    ensures var e, x := i + |Spelled(Sym(k))|, GetToken(s, i); x == Token(k, Span(i, e), SkipSpace(s, e + 1))
  {
    var e := i + |Spelled(Sym(k))|;
    assert s[i] == s[i..e][0] && (k == '+' ==> s[i + 1] == s[i..e][1]);
    NoSkip(s, i);
  }

  /** A token followed by a blank. */
  lemma SpelledToken(s: string, i: nat, t: Tok<string>)
    requires IsLine(s) && GoodTok(t) && Has(s, i, Spelled(t)) && Has(s, i + |Spelled(t)|, " ")
    ensures i + |Spelled(t)| < |s|
    ensures var e, x := i + |Spelled(t)|, GetToken(s, i);
      x.kind != '\0' && Said(s, TokOf(x)) == t && x.next == SkipSpace(s, e + 1)
  {
    hide GetToken, Has, IsLine, GoodWord, Slice;
    var e := i + |Spelled(t)|;
    HasChar(s, e, ' ');
    if t.Word? {
      WordToken(s, i, t.w);
    } else {
      SpelledSym(s, i, t.kind);
    }
  }

  /** The first token written, and the tokens after its blank. */
  lemma FirstSaid(s: string, i: nat, t: Tok<string>) returns (x: Tok<Span>)
    requires IsLine(s) && GoodTok(t) && Has(s, i, Spelled(t)) && Has(s, i + |Spelled(t)|, " ")
    ensures i + |Spelled(t)| < |s| && Said(s, x) == t
    ensures Tokens(s, i) == [x] + Tokens(s, i + |Spelled(t)| + 1)
  {
    hide Has, GetToken, IsLine, GoodTok, Said, Spelled, Tokens;
    SpelledToken(s, i, t);
    Head(s, i);
    Head(s, i + |Spelled(t)| + 1);
    x := TokOf(GetToken(s, i));
  }

  lemma AllSaidCons(s: string, x: Tok<Span>, ts: seq<Tok<Span>>)
    ensures AllSaid(s, [x] + ts) == [Said(s, x)] + AllSaid(s, ts)
  {
  }

  lemma {:induction false} JoinReads(s: string, i: nat, ts: seq<Tok<string>>)
    requires IsLine(s) && Has(s, i, Join(ts)) && i + |Join(ts)| == |s| && forall k :: 0 <= k < |ts| ==> GoodTok(ts[k])
    ensures AllSaid(s, Tokens(s, i)) == ts
    decreases |ts|
  {
    hide Has, GetToken, IsLine, GoodTok, Said, AllSaid, Spelled, Tokens;
    if |ts| == 0 {
      TokensEnd(s, i);
      NoneSaidAt(s);
    } else {
      var t, e := ts[0], i + |Spelled(ts[0])|;
      HasParts(s, i, Spelled(t) + " ", Join(ts[1..]));
      HasParts(s, i, Spelled(t), " ");
      var x := FirstSaid(s, i, t);
      JoinReads(s, e + 1, ts[1..]);
      AllSaidCons(s, x, Tokens(s, e + 1));
    }
  }

  lemma NoneSaidAt(s: string)
    ensures AllSaid(s, []) == []
  {
  }

  /** Whatever the white space: a line whose tokens say what l says is read as l. */
  lemma LayoutDoesNotMatter(s: string, l: Line<string>)
    requires IsLine(s) && AllSaid(s, Tokens(s, 0)) == LineToks(l)
    ensures ParseCmd(s).Ok? <==> LineFits(l)
    ensures LineFits(l) ==> Text(s, ParseCmd(s).value) == LineTree(l)
  {
    hide ParseCmd, LineToks, LineFits, LineTree, LineCmd, Text, Tokens, AllSaid;
    var m := PlaceLine(s, l, Tokens(s, 0));
    LineParses(s, m);
  }

  /** Parsing inverts printing: any line of the grammar, with redirections anywhere among the words, any
      number of them, pipelines and lists with and without parentheses, and & wherever it may stand, is
      read back as what it means if, and only if, no command in it has MAXARGS arguments or more. */
  lemma PrintLineReads(l: Line<string>)
    requires forall w :: Word(w) in LineToks(l) ==> GoodWord(w)
    ensures var s := PrintLine(l);
      && IsLine(s) && (ParseCmd(s).Ok? <==> LineFits(l))
      && (LineFits(l) ==> Text(s, ParseCmd(s).value) == LineTree(l))
  {
    hide ParseCmd, LineToks, LineFits, LineTree, Text, Tokens, AllSaid, Join, GoodWord, SymKind;
    var s, ts := PrintLine(l), LineToks(l);
    LineSyms(l);
    forall k | 0 <= k < |ts| ensures GoodTok(ts[k]) {
      assert ts[k] in ts;
    }
    JoinIsLine(ts);
    assert s[0..0 + |s|] == s;
    JoinReads(s, 0, ts);
    LayoutDoesNotMatter(s, l);
  }

  // ---------------------------------------------------------------- every tree can be written

  function Bare(ws: seq<string>): seq<Arg<string>> { seq(|ws|, k requires 0 <= k < |ws| => Arg(ws[k], [])) }

  /** A tree as a line, with parentheses around every part. */
  function TreeLine(t: Tree): Line<string>
  {
    match t
    case TExec(argv) => Last(One(Simple([], Bare(argv))), 0)
    case TRedir(d, file, mode) => Last(One(Block(TreeLine(d), [Redirect(file, mode)])), 0)
    case TPipe(l, r) => Last(Piped(Block(TreeLine(l), []), One(Block(TreeLine(r), []))), 0)
    case TList(l, r) => Semi(One(Block(TreeLine(l), [])), 0, Last(One(Block(TreeLine(r), [])), 0))
    case TBack(d) => Last(One(Block(TreeLine(d), [])), 1)
  }

  lemma {:induction false} BareIs(ws: seq<string>)
    ensures ArgWords(Bare(ws)) == ws && ArgRedirs(Bare(ws)) == []
    ensures forall w :: Word(w) in ArgToks(Bare(ws)) ==> w in ws
    decreases |ws|
  {
    if ws != [] {
      BareIs(ws[1..]);
      assert Bare(ws)[1..] == Bare(ws[1..]);
    }
  }

  /** A line of one command. */
  lemma OneCommand(c: Command<string>, n: nat)
    ensures LineTree(Last(One(c), n)) == BackTree(n, CommandTree(c)) && (LineFits(Last(One(c), n)) <==> CommandFits(c))
    ensures LineToks(Last(One(c), n)) == CommandToks(c) + Amps(n)
  {
  }

  lemma TwoCommands(c: Command<string>, d: Command<string>)
    ensures var l := Last(Piped(c, One(d)), 0);
      && LineTree(l) == TPipe(CommandTree(c), CommandTree(d)) && (LineFits(l) <==> CommandFits(c) && CommandFits(d))
      && LineToks(l) == CommandToks(c) + [Sym('|')] + CommandToks(d)
  {
    var p := Piped(c, One(d));
    assert PipeToks(p) == CommandToks(c) + [Sym('|')] + PipeToks(One(d));
    assert PipeTree(p) == TPipe(CommandTree(c), PipeTree(One(d)));
    assert PipeFits(p) == (CommandFits(c) && PipeFits(One(d)));
  }

  lemma InParens(l: Line<string>)
    ensures CommandTree(Block(l, [])) == LineTree(l) && (CommandFits(Block(l, [])) <==> LineFits(l))
    ensures CommandToks(Block(l, [])) == [Sym('(')] + LineToks(l) + [Sym(')')]
  {
  }

  lemma InParensTo(l: Line<string>, file: string, mode: Mode)
    ensures CommandTree(Block(l, [Redirect(file, mode)])) == TRedir(LineTree(l), file, mode)
    ensures CommandFits(Block(l, [Redirect(file, mode)])) <==> LineFits(l)
    ensures CommandToks(Block(l, [Redirect(file, mode)])) ==
      [Sym('(')] + LineToks(l) + [Sym(')')] + [Sym(SymOf(mode)), Word(file)]
  {
    var r := Redirect(file, mode);
    assert [r][..0] == [] && [r][1..] == [];
    assert AroundTree(LineTree(l), [r]) == TRedir(AroundTree(LineTree(l), []), file, mode);
    assert RedirToks([r]) == [Sym(SymOf(mode)), Word(file)] + RedirToks<string>([]);
  }

  lemma {:induction false} TreeLineIs(t: Tree)
    requires Writable(t)
    ensures LineTree(TreeLine(t)) == t && (LineFits(TreeLine(t)) <==> Printable(t))
    ensures forall w :: Word(w) in LineToks(TreeLine(t)) ==> GoodWord(w)
  {
    hide CommandToks, CommandTree, CommandFits, GoodWord;
    match t
    case TExec(argv) => ExecLineIs(argv);
    case TRedir(d, file, mode) =>
      TreeLineIs(d);
      InParensTo(TreeLine(d), file, mode);
      OneCommand(Block(TreeLine(d), [Redirect(file, mode)]), 0);
    case TPipe(l, r) =>
      TreeLineIs(l);
      TreeLineIs(r);
      InParens(TreeLine(l));
      InParens(TreeLine(r));
      TwoCommands(Block(TreeLine(l), []), Block(TreeLine(r), []));
    case TList(l, r) =>
      TreeLineIs(l);
      TreeLineIs(r);
      InParens(TreeLine(l));
      InParens(TreeLine(r));
      OneCommand(Block(TreeLine(r), []), 0);
    case TBack(d) =>
      TreeLineIs(d);
      InParens(TreeLine(d));
      OneCommand(Block(TreeLine(d), []), 1);
  }

  lemma ExecLineIs(argv: seq<string>)
    requires Writable(TExec(argv))
    ensures var l := TreeLine(TExec(argv));
      && LineTree(l) == TExec(argv) && (LineFits(l) <==> Printable(TExec(argv)))
      && forall w :: Word(w) in LineToks(l) ==> GoodWord(w)
  {
    BareIs(argv);
    OneCommand(Simple([], Bare(argv)), 0);
  }

  /** Every tree of words that can be written down has a line that is read back as that tree if, and only
      if, no command in it has MAXARGS arguments or more. */
  lemma ParseInvertsPrint(t: Tree)
    requires Writable(t)
    ensures var s := PrintLine(TreeLine(t));
      && IsLine(s) && (ParseCmd(s).Ok? <==> Printable(t)) && (Printable(t) ==> Text(s, ParseCmd(s).value) == t)
  {
    hide LineToks, LineTree, LineFits, Printable, PrintLine, ParseCmd, Text, GoodWord;
    TreeLineIs(t);
    PrintLineReads(TreeLine(t));
  }
}
