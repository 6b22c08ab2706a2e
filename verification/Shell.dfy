/** The command parser of user/sh.c.  A line is a sequence of characters without NUL, and its end stands
    for the terminating NUL; a position in it is an index.  A panic of the parser is Fail. */
module Shell {

  const MAXARGS: nat := 10

  predicate IsSpace(c: char) { c == ' ' || c == '\t' || c == '\r' || c == '\n' || c == (11 as char) }
  predicate IsSymbol(c: char) { c == '<' || c == '|' || c == '>' || c == '&' || c == ';' || c == '(' || c == ')' }
  predicate IsWordChar(c: char) { !IsSpace(c) && !IsSymbol(c) && c != '\0' }

  /** *s, where the line ends with NUL. */
  function At(s: string, i: nat): char { if i < |s| then s[i] else '\0' }

  predicate IsLine(s: string) { forall i :: 0 <= i < |s| ==> s[i] != '\0' }

  /** A token's characters: those from q up to eq. */
  datatype Span = Span(q: nat, eq: nat)

  datatype Mode = Read | Create | Append

  datatype Redirect<W> = Redirect(file: W, mode: Mode)

  datatype Cmd =
    | Exec(argv: seq<Span>)
    | Redir(cmd: Cmd, file: Span, mode: Mode)
    | Pipe(left: Cmd, right: Cmd)
    | List(left: Cmd, right: Cmd)
    | Back(cmd: Cmd)

  datatype Result<T> = Ok(value: T, at: nat) | Fail

  // ---------------------------------------------------------------- tokens

  /** The first position from i on that is not white space. */
  function SkipSpace(s: string, i: nat): (r: nat)
    requires i <= |s|
    ensures i <= r <= |s| && (r < |s| ==> !IsSpace(s[r])) && forall k :: i <= k < r ==> IsSpace(s[k])
    decreases |s| - i
  {
    if i < |s| && IsSpace(s[i]) then SkipSpace(s, i + 1) else i
  }

  function WordEnd(s: string, i: nat): (r: nat)
    requires i <= |s|
    ensures i <= r <= |s| && (r < |s| ==> IsSpace(s[r]) || IsSymbol(s[r])) && forall k :: i <= k < r ==>
      !IsSpace(s[k]) && !IsSymbol(s[k])
    decreases |s| - i
  {
    if i < |s| && !IsSpace(s[i]) && !IsSymbol(s[i]) then WordEnd(s, i + 1) else i
  }

  /** The kind of a token as gettoken() returns it ('a' for a word, '+' for >>, NUL at the end), its
      characters, and where the next token starts. */
  datatype Token = Token(kind: char, span: Span, next: nat)

  function TokenEnd(s: string, q: nat): nat
    requires q <= |s|
  {
    var c := At(s, q);
    if c == '\0' then q
    else if c == '>' then (if At(s, q + 1) == '>' then q + 2 else q + 1)
    else if IsSymbol(c) then q + 1
    else WordEnd(s, q)
  }

  function KindAt(s: string, q: nat): char
  {
    var c := At(s, q);
    if c == '\0' then c
    else if c == '>' then (if At(s, q + 1) == '>' then '+' else '>')
    else if IsSymbol(c) then c
    else 'a'
  }

  function GetToken(s: string, i: nat): (t: Token)
    requires i <= |s| && IsLine(s)
    ensures i <= t.span.q <= t.span.eq <= t.next <= |s|
    ensures t.kind == '\0' <==> t.span.q == |s|
    ensures t.kind != '\0' ==> t.span.q < t.span.eq
    ensures t.kind == 'a' ==> IsWord(s, t.span)
  {
    var q := SkipSpace(s, i);
    var eq := TokenEnd(s, q);
    Token(KindAt(s, q), Span(q, eq), SkipSpace(s, eq))
  }

  /** A whole word: word characters only, and none after it. */
  predicate IsWord(s: string, w: Span)
  {
    && w.q < w.eq <= |s| && (forall k :: w.q <= k < w.eq ==> IsWordChar(s[k]))
    && (w.eq < |s| ==> !IsWordChar(s[w.eq]))
  }

  /** peek() */
  predicate Peek(s: string, i: nat, toks: string)
    requires i <= |s|
  {
    SkipSpace(s, i) < |s| && s[SkipSpace(s, i)] in toks
  }

  /** The loop over white space that gettoken() and peek() start with, and gettoken() ends with. */
  method Skip(s: string, ps: nat) returns (p: nat)
    requires ps <= |s|
    ensures p == SkipSpace(s, ps)
  {
    p := ps;
    while p < |s| && IsSpace(s[p])
      invariant ps <= p <= |s| && SkipSpace(s, p) == SkipSpace(s, ps)
    {
      p := p + 1;
    }
  }

  method Gettoken(s: string, ps: nat) returns (ret: char, q: nat, eq: nat, next: nat)
    requires ps <= |s| && IsLine(s)
    ensures Token(ret, Span(q, eq), next) == GetToken(s, ps)
  {
    var p := Skip(s, ps);
    q := p;
    ret := At(s, p);
    if ret == '\0' {
    } else if ret == '|' || ret == '(' || ret == ')' || ret == ';' || ret == '&' || ret == '<' {
      p := p + 1;
    } else if ret == '>' {
      p := p + 1;
      if At(s, p) == '>' {
        ret := '+';
        p := p + 1;
      }
    } else {
      ret := 'a';
      while p < |s| && !IsSpace(s[p]) && !IsSymbol(s[p])
        invariant q <= p <= |s| && WordEnd(s, p) == WordEnd(s, q)
      {
        p := p + 1;
      }
    }
    eq := p;
    next := Skip(s, p);
  }

  // ---------------------------------------------------------------- the grammar

  function ModeOf(tok: char): Mode { if tok == '<' then Read else if tok == '>' then Create else Append }

  /** parseredirs(): the redirections from i on. */
  function Redirs(s: string, i: nat): (r: Result<seq<Redirect<Span>>>)
    requires i <= |s| && IsLine(s)
    ensures r.Ok? ==> i <= r.at <= |s| && forall k :: 0 <= k < |r.value| ==> IsWord(s, r.value[k].file)
    decreases |s| - i
  {
    if !Peek(s, i, "<>") then Ok([], SkipSpace(s, i))
    else
      var t := GetToken(s, i);
      var f := GetToken(s, t.next);
      if f.kind != 'a' then Fail
      else
        var rest := Redirs(s, f.next);
        if rest.Fail? then Fail else Ok([Redirect(f.span, ModeOf(t.kind))] + rest.value, rest.at)
  }

  /** Redirections around a command, the first innermost. */
  function Wrap(c: Cmd, rs: seq<Redirect<Span>>): Cmd
    decreases |rs|
  {
    if rs == [] then c else Wrap(Redir(c, rs[0].file, rs[0].mode), rs[1..])
  }

  /** Every argument and file name of the command is a whole word of the line. */
  predicate Words(s: string, c: Cmd)
  {
    match c
    case Exec(argv) => forall k :: 0 <= k < |argv| ==> IsWord(s, argv[k])
    case Redir(d, file, _) => Words(s, d) && IsWord(s, file)
    case Pipe(l, r) => Words(s, l) && Words(s, r)
    case List(l, r) => Words(s, l) && Words(s, r)
    case Back(d) => Words(s, d)
  }

  lemma {:induction false} WrapWords(s: string, c: Cmd, rs: seq<Redirect<Span>>)
    requires Words(s, c) && forall k :: 0 <= k < |rs| ==> IsWord(s, rs[k].file)
    ensures Words(s, Wrap(c, rs))
    decreases |rs|
  {
    if rs != [] {
      WrapWords(s, Redir(c, rs[0].file, rs[0].mode), rs[1..]);
    }
  }

  /** The loop of parseexec(), with the arguments and the redirections so far. */
  function Args(s: string, i: nat, argv: seq<Span>, rs: seq<Redirect<Span>>): (r: Result<Cmd>)
    requires i <= |s| && IsLine(s) && Words(s, Exec(argv)) && forall k :: 0 <= k < |rs| ==> IsWord(s, rs[k].file)
    ensures r.Ok? ==> i <= r.at <= |s| && Words(s, r.value)
    decreases |s| - i
  {
    WrapWords(s, Exec(argv), rs);
    if Peek(s, i, "|)&;") then Ok(Wrap(Exec(argv), rs), SkipSpace(s, i))
    else
      var t := GetToken(s, i);
      if t.kind == '\0' then Ok(Wrap(Exec(argv), rs), t.next)
      else if t.kind != 'a' || |argv| + 1 >= MAXARGS then Fail
      else
        var more := Redirs(s, t.next);
        if more.Fail? then Fail else Args(s, more.at, argv + [t.span], rs + more.value)
  }

  /** parseexec() */
  function ParseExec(s: string, i: nat): (r: Result<Cmd>)
    requires i <= |s| && IsLine(s)
    ensures r.Ok? ==> i <= r.at <= |s| && Words(s, r.value)
    decreases |s| - i, 1
  {
    if Peek(s, i, "(") then ParseBlock(s, i)
    else
      var rs := Redirs(s, i);
      if rs.Fail? then Fail else Args(s, rs.at, [], rs.value)
  }

  /** parseblock() */
  function ParseBlock(s: string, i: nat): (r: Result<Cmd>)
    requires i <= |s| && IsLine(s) && Peek(s, i, "(")
    ensures r.Ok? ==> i <= r.at <= |s| && Words(s, r.value)
    decreases |s| - i, 0
  {
    var t := GetToken(s, i);
    var c := ParseLine(s, t.next);
    if c.Fail? || !Peek(s, c.at, ")") then Fail
    else
      var rs := Redirs(s, GetToken(s, c.at).next);
      if rs.Fail? then Fail
      else
        WrapWords(s, c.value, rs.value);
        Ok(Wrap(c.value, rs.value), rs.at)
  }

  /** parsepipe() */
  function ParsePipe(s: string, i: nat): (r: Result<Cmd>)
    requires i <= |s| && IsLine(s)
    ensures r.Ok? ==> i <= r.at <= |s| && Words(s, r.value)
    decreases |s| - i, 2
  {
    var c := ParseExec(s, i);
    if c.Fail? then Fail
    else if Peek(s, c.at, "|") then
      var d := ParsePipe(s, GetToken(s, c.at).next);
      if d.Fail? then Fail else Ok(Pipe(c.value, d.value), d.at)
    else Ok(c.value, SkipSpace(s, c.at))
  }

  /** The loop of parseline(). */
  function Backs(s: string, i: nat, c: Cmd): (r: Result<Cmd>)
    requires i <= |s| && IsLine(s) && Words(s, c)
    ensures r.Ok? && i <= r.at <= |s| && Words(s, r.value)
    decreases |s| - i
  {
    if Peek(s, i, "&") then Backs(s, GetToken(s, i).next, Back(c)) else Ok(c, SkipSpace(s, i))
  }

  /** parseline() */
  function ParseLine(s: string, i: nat): (r: Result<Cmd>)
    requires i <= |s| && IsLine(s)
    ensures r.Ok? ==> i <= r.at <= |s| && Words(s, r.value)
    decreases |s| - i, 3
  {
    var p := ParsePipe(s, i);
    if p.Fail? then Fail
    else
      var c := Backs(s, p.at, p.value);
      if Peek(s, c.at, ";") then
        var d := ParseLine(s, GetToken(s, c.at).next);
        if d.Fail? then Fail else Ok(List(c.value, d.value), d.at)
      else Ok(c.value, SkipSpace(s, c.at))
  }

  /** parsecmd(), before nulterminate() */
  function ParseCmd(s: string): Result<Cmd>
    requires IsLine(s)
  {
    var c := ParseLine(s, 0);
    if c.Fail? || SkipSpace(s, c.at) != |s| then Fail else c
  }

  // ---------------------------------------------------------------- the parser

  method PeekAt(s: string, ps: nat, toks: string) returns (r: bool, next: nat)
    requires ps <= |s|
    ensures r == Peek(s, ps, toks) && next == SkipSpace(s, ps)
  {
    next := Skip(s, ps);
    r := next < |s| && s[next] in toks;
  }

  /** White space already skipped makes no difference. */
  lemma SkipTwice(s: string, i: nat, toks: string)
    requires i <= |s| && IsLine(s)
    ensures SkipSpace(s, SkipSpace(s, i)) == SkipSpace(s, i) && Peek(s, SkipSpace(s, i), toks) == Peek(s, i, toks)
    ensures GetToken(s, SkipSpace(s, i)) == GetToken(s, i)
  {
  }

  /** Redirections found so far, and the rest. */
  function Prepend(acc: seq<Redirect<Span>>, r: Result<seq<Redirect<Span>>>): Result<seq<Redirect<Span>>>
  {
    if r.Fail? then Fail else Ok(acc + r.value, r.at)
  }

  lemma PrependNone(r: Result<seq<Redirect<Span>>>)
    ensures Prepend([], r) == r
  {
    assert r.Ok? ==> [] + r.value == r.value;
  }

  lemma PrependOne(acc: seq<Redirect<Span>>, x: Redirect<Span>, r: Result<seq<Redirect<Span>>>)
    ensures Prepend(acc, Prepend([x], r)) == Prepend(acc + [x], r)
  {
    assert r.Ok? ==> acc + ([x] + r.value) == acc + [x] + r.value;
  }

  method Parseredirs(s: string, ps: nat) returns (r: Result<seq<Redirect<Span>>>)
    requires ps <= |s| && IsLine(s)
    ensures r == Redirs(s, ps)
  {
    var p: nat, acc: seq<Redirect<Span>> := ps, [];
    PrependNone(Redirs(s, ps));
    while true
      invariant ps <= p <= |s| && Prepend(acc, Redirs(s, p)) == Redirs(s, ps)
      decreases |s| - p
    {
      SkipTwice(s, p, "<>");
      var more, next := PeekAt(s, p, "<>");
      if !more {
        assert acc + [] == acc;
        return Ok(acc, next);
      }
      var tok, _, _, after := Gettoken(s, next);
      var kind, q, eq, rest := Gettoken(s, after);
      if kind != 'a' {
        return Fail;
      }
      PrependOne(acc, Redirect(Span(q, eq), ModeOf(tok)), Redirs(s, rest));
      acc := acc + [Redirect(Span(q, eq), ModeOf(tok))];
      p := rest;
    }
  }

  method Parseexec(s: string, ps: nat) returns (r: Result<Cmd>)
    requires ps <= |s| && IsLine(s)
    ensures r == ParseExec(s, ps)
    decreases |s| - ps, 1
  {
    hide GetToken, Redirs, ParseBlock, Wrap, IsWord, IsLine, IsSpace, IsSymbol;
    SkipTwice(s, ps, "(");
    var block, _ := PeekAt(s, ps, "(");
    if block {
      r := Parseblock(s, ps);
      return;
    }
    var rs := Parseredirs(s, ps);
    if rs.Fail? {
      return Fail;
    }
    var p, argv, redirs := rs.at, [], rs.value;
    while true
      invariant ps <= p <= |s| && Words(s, Exec(argv)) && (forall k :: 0 <= k < |redirs| ==> IsWord(s, redirs[k].file))
      invariant Args(s, p, argv, redirs) == ParseExec(s, ps)
      decreases |s| - p
    {
      SkipTwice(s, p, "|)&;");
      var stop, next := PeekAt(s, p, "|)&;");
      if stop {
        return Ok(Wrap(Exec(argv), redirs), next);
      }
      var tok, q, eq, after := Gettoken(s, next);
      if tok == '\0' {
        return Ok(Wrap(Exec(argv), redirs), after);
      }
      if tok != 'a' || |argv| + 1 >= MAXARGS {
        return Fail;
      }
      var more := Parseredirs(s, after);
      if more.Fail? {
        return Fail;
      }
      argv, redirs, p := argv + [Span(q, eq)], redirs + more.value, more.at;
    }
  }

  method Parseblock(s: string, ps: nat) returns (r: Result<Cmd>)
    requires ps <= |s| && IsLine(s) && Peek(s, ps, "(")
    ensures r == ParseBlock(s, ps)
    decreases |s| - ps, 0
  {
    var _, _, _, inside := Gettoken(s, ps);
    var c := Parseline(s, inside);
    if c.Fail? {
      return Fail;
    }
    var closed, next := PeekAt(s, c.at, ")");
    if !closed {
      return Fail;
    }
    SkipTwice(s, c.at, ")");
    var _, _, _, after := Gettoken(s, next);
    var rs := Parseredirs(s, after);
    if rs.Fail? {
      return Fail;
    }
    return Ok(Wrap(c.value, rs.value), rs.at);
  }

  method Parsepipe(s: string, ps: nat) returns (r: Result<Cmd>)
    requires ps <= |s| && IsLine(s)
    ensures r == ParsePipe(s, ps)
    decreases |s| - ps, 2
  {
    var c := Parseexec(s, ps);
    if c.Fail? {
      return Fail;
    }
    SkipTwice(s, c.at, "|");
    var piped, next := PeekAt(s, c.at, "|");
    if !piped {
      return Ok(c.value, next);
    }
    var _, _, _, after := Gettoken(s, next);
    var d := Parsepipe(s, after);
    if d.Fail? {
      return Fail;
    }
    return Ok(Pipe(c.value, d.value), d.at);
  }

  method Parseline(s: string, ps: nat) returns (r: Result<Cmd>)
    requires ps <= |s| && IsLine(s)
    ensures r == ParseLine(s, ps)
    decreases |s| - ps, 3
  {
    var p := Parsepipe(s, ps);
    if p.Fail? {
      return Fail;
    }
    var cmd, at := p.value, p.at;
    while true
      invariant ps <= at <= |s| && Words(s, cmd) && Backs(s, at, cmd) == Backs(s, p.at, p.value)
      decreases |s| - at
    {
      SkipTwice(s, at, "&");
      var back, next := PeekAt(s, at, "&");
      if !back {
        at := next;
        break;
      }
      var _, _, _, after := Gettoken(s, next);
      cmd, at := Back(cmd), after;
    }
    SkipTwice(s, at, ";");
    var listed, next := PeekAt(s, at, ";");
    if !listed {
      return Ok(cmd, next);
    }
    var _, _, _, after := Gettoken(s, next);
    var d := Parseline(s, after);
    if d.Fail? {
      return Fail;
    }
    return Ok(List(cmd, d.value), d.at);
  }

  // ---------------------------------------------------------------- NUL-terminating the tokens

  /** The ends of the tokens of a command. */
  function Ends(c: Cmd): set<nat>
  {
    match c
    case Exec(argv) => set k | 0 <= k < |argv| :: argv[k].eq
    case Redir(d, file, _) => Ends(d) + {file.eq}
    case Pipe(l, r) => Ends(l) + Ends(r)
    case List(l, r) => Ends(l) + Ends(r)
    case Back(d) => Ends(d)
  }

  /** The buffer with NULs at those places. */
  function Terminated(b: string, ends: set<nat>): (r: string)
    ensures |r| == |b|
  {
    seq(|b|, i requires 0 <= i < |b| => if i in ends then '\0' else b[i])
  }

  lemma TerminatedTwice(b: string, x: set<nat>, y: set<nat>)
    ensures Terminated(Terminated(b, x), y) == Terminated(b, x + y)
  {
  }

  /** nulterminate() */
  method Nulterminate(c: Cmd, buf: array<char>)
    requires forall e :: e in Ends(c) ==> e < buf.Length
    modifies buf
    ensures buf[..] == Terminated(old(buf[..]), Ends(c))
    decreases c
  {
    match c
    case Exec(argv) =>
      var i := 0;
      while i < |argv|
        invariant 0 <= i <= |argv| && buf[..] == Terminated(old(buf[..]), set k | 0 <= k < i :: argv[k].eq)
      {
        assert argv[i].eq in Ends(c);
        ghost var b, done := buf[..], set k | 0 <= k < i :: argv[k].eq;
        buf[argv[i].eq] := '\0';
        assert buf[..] == Terminated(b, {argv[i].eq});
        TerminatedTwice(old(buf[..]), done, {argv[i].eq});
        assert done + {argv[i].eq} == set k | 0 <= k < i + 1 :: argv[k].eq;
        i := i + 1;
      }
    case Redir(d, file, _) =>
      assert forall e :: e in Ends(d) ==> e in Ends(c);
      Nulterminate(d, buf);
      ghost var b := buf[..];
      assert file.eq in Ends(c);
      buf[file.eq] := '\0';
      assert buf[..] == Terminated(b, {file.eq});
      TerminatedTwice(old(buf[..]), Ends(d), {file.eq});
    case Pipe(l, r) =>
      assert forall e :: e in Ends(l) || e in Ends(r) ==> e in Ends(c);
      Nulterminate(l, buf);
      Nulterminate(r, buf);
      TerminatedTwice(old(buf[..]), Ends(l), Ends(r));
    case List(l, r) =>
      assert forall e :: e in Ends(l) || e in Ends(r) ==> e in Ends(c);
      Nulterminate(l, buf);
      Nulterminate(r, buf);
      TerminatedTwice(old(buf[..]), Ends(l), Ends(r));
    case Back(d) =>
      assert forall e :: e in Ends(d) ==> e in Ends(c);
      Nulterminate(d, buf);
  }

  /** Is w an argument or a file name of the command? */
  predicate HasToken(c: Cmd, w: Span)
  {
    match c
    case Exec(argv) => w in argv
    case Redir(d, file, _) => HasToken(d, w) || w == file
    case Pipe(l, r) => HasToken(l, w) || HasToken(r, w)
    case List(l, r) => HasToken(l, w) || HasToken(r, w)
    case Back(d) => HasToken(d, w)
  }

  /** The C string at q: the characters before the first NUL. */
  function CString(b: string, q: nat): string
    requires q <= |b|
    decreases |b| - q
  {
    if q == |b| || b[q] == '\0' then [] else [b[q]] + CString(b, q + 1)
  }

  lemma {:induction false} EndsAreEnds(s: string, c: Cmd, e: nat)
    requires Words(s, c) && e in Ends(c)
    ensures e <= |s| && !IsWordChar(At(s, e))
  {
    match c
    case Exec(argv) =>
      var k :| 0 <= k < |argv| && argv[k].eq == e;
      assert IsWord(s, argv[k]);
    case Redir(d, file, _) =>
      if e in Ends(d) {
        EndsAreEnds(s, d, e);
      }
    case Pipe(l, r) =>
      if e in Ends(l) {
        EndsAreEnds(s, l, e);
      } else {
        EndsAreEnds(s, r, e);
      }
    case List(l, r) =>
      if e in Ends(l) {
        EndsAreEnds(s, l, e);
      } else {
        EndsAreEnds(s, r, e);
      }
    case Back(d) => EndsAreEnds(s, d, e);
  }

  lemma {:induction false} TokensAreWords(s: string, c: Cmd, w: Span)
    requires Words(s, c) && HasToken(c, w)
    ensures IsWord(s, w) && w.eq in Ends(c)
  {
    match c
    case Exec(argv) =>
      var k :| 0 <= k < |argv| && argv[k] == w;
      assert argv[k].eq in Ends(c);
    case Redir(d, file, _) =>
      if w != file {
        TokensAreWords(s, d, w);
      }
    case Pipe(l, r) =>
      if HasToken(l, w) {
        TokensAreWords(s, l, w);
      } else {
        TokensAreWords(s, r, w);
      }
    case List(l, r) =>
      if HasToken(l, w) {
        TokensAreWords(s, l, w);
      } else {
        TokensAreWords(s, r, w);
      }
    case Back(d) => TokensAreWords(s, d, w);
  }

  lemma {:induction false} CStringIs(b: string, q: nat, e: nat)
    requires q <= e < |b| && b[e] == '\0' && forall k :: q <= k < e ==> b[k] != '\0'
    ensures CString(b, q) == b[q..e]
    decreases e - q
  {
    if q < e {
      CStringIs(b, q + 1, e);
    }
  }

  /** No NUL lands inside a token: after nulterminate(), each argument and each file name of a parsed
      line reads back as exactly its token. */
  lemma TokensReadBack(s: string, w: Span)
    requires IsLine(s) && ParseCmd(s).Ok? && HasToken(ParseCmd(s).value, w)
    ensures w.q < w.eq <= |s|
    ensures CString(Terminated(s + ['\0'], Ends(ParseCmd(s).value)), w.q) == s[w.q..w.eq]
  {
    var c := ParseCmd(s).value;
    var b := Terminated(s + ['\0'], Ends(c));
    TokensAreWords(s, c, w);
    forall k | w.q <= k < w.eq ensures b[k] == s[k] && b[k] != '\0' {
      if k in Ends(c) {
        EndsAreEnds(s, c, k);
      }
    }
    CStringIs(b, w.q, w.eq);
    assert b[w.q..w.eq] == s[w.q..w.eq];
  }

  /** parsecmd(): parse, then terminate the tokens in the buffer that holds the line and its NUL. */
  method Parsecmd(buf: array<char>) returns (r: Result<Cmd>)
    requires buf.Length > 0 && IsLine(buf[..buf.Length - 1]) && buf[buf.Length - 1] == '\0'
    modifies buf
    ensures r == ParseCmd(old(buf[..buf.Length - 1]))
    ensures r.Fail? ==> buf[..] == old(buf[..])
    ensures r.Ok? ==> forall w :: HasToken(r.value, w) ==>
      w.q < w.eq < buf.Length && CString(buf[..], w.q) == old(buf[..])[w.q..w.eq]
  {
    hide ParseLine, CString, Terminated, HasToken, Ends;
    ghost var s := buf[..buf.Length - 1];
    assert buf[..] == s + ['\0'];
    var c := Parseline(buf[..buf.Length - 1], 0);
    if c.Fail? {
      return Fail;
    }
    var _, next := PeekAt(buf[..buf.Length - 1], c.at, "");
    if next != buf.Length - 1 {
      return Fail;
    }
    forall e | e in Ends(c.value) ensures e < buf.Length {
      EndsAreEnds(s, c.value, e);
    }
    Nulterminate(c.value, buf);
    forall w | HasToken(c.value, w)
      ensures w.q < w.eq < buf.Length && CString(buf[..], w.q) == old(buf[..])[w.q..w.eq]
    {
      TokensReadBack(s, w);
    }
    return c;
  }
}
