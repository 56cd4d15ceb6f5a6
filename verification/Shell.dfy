/** sh.c: the lexer and the recursive-descent parser. s is the line without its NUL;
    positions index it, and |s| is where the NUL is. */
module Shell {
  const MAXARGS: nat := 10
  const O_RDONLY: nat := 0
  const O_WRONLY: nat := 1
  const O_CREATE: nat := 0x200

  /** A word, from its first character up to the one after it (q and eq). */
  datatype Span = Span(q: nat, e: nat)

  /** A command tree: over the line it was parsed from, words are spans. */
  datatype Cmd<W> =
    | Exec(argv: seq<W>)
    | Redir(cmd: Cmd<W>, file: W, mode: nat, fd: nat)
    | Pipe(left: Cmd<W>, right: Cmd<W>)
    | List(left: Cmd<W>, right: Cmd<W>)
    | Back(cmd: Cmd<W>)

  datatype Parsed = Ok(cmd: Cmd<Span>, pos: nat) | Panic

  predicate White(c: char) { c == ' ' || c == '\t' || c == '\r' || c == '\n' || c == '\U{000B}' }

  predicate Symbol(c: char) { c == '<' || c == '|' || c == '>' || c == '&' || c == ';' || c == '(' || c == ')' }

  predicate Plain(c: char) { !White(c) && !Symbol(c) && c != '\0' }

  /** A line as a C string: no NUL inside. */
  predicate Line(s: string) { forall k | 0 <= k < |s| :: s[k] != '\0' }

  function Ch(s: string, i: nat): char { if i < |s| then s[i] else '\0' }

  function Skip(s: string, i: nat): (r: nat)
    requires i <= |s|
    ensures i <= r <= |s| && (r < |s| ==> !White(s[r]))
    decreases |s| - i
  {
    if i < |s| && White(s[i]) then Skip(s, i + 1) else i
  }

  function WordEnd(s: string, i: nat): (r: nat)
    requires i <= |s|
    ensures i <= r <= |s| && (r < |s| ==> White(s[r]) || Symbol(s[r]))
    ensures forall k | i <= k < r :: !White(s[k]) && !Symbol(s[k])
    decreases |s| - i
  {
    if i < |s| && !White(s[i]) && !Symbol(s[i]) then WordEnd(s, i + 1) else i
  }

  datatype Token = Token(tok: char, q: nat, e: nat, pos: nat)

  /** gettoken: 'a' is a word, '+' is >>, NUL the end, and a symbol itself. */
  function TokenAt(s: string, i: nat): (t: Token)
    requires i <= |s| && Line(s)
    ensures i <= t.q <= t.e <= t.pos <= |s| && (t.tok == '\0' <==> t.q == |s|) && (t.q < |s| ==> t.q < t.e)
    ensures t.tok == 'a' <==> t.q < |s| && Plain(s[t.q])
    ensures t.tok == 'a' ==> forall k | t.q <= k < t.e :: Plain(s[k])
    ensures t.tok == 'a' ==> t.e == |s| || !Plain(s[t.e])
  {
    var q := Skip(s, i);
    var c := Ch(s, q);
    var (tok, e) :=
      if q == |s| then ('\0', q)
      else if c == '>' then if Ch(s, q + 1) == '>' then ('+', q + 2) else ('>', q + 1)
      else if Symbol(c) then (c, q + 1)
      else ('a', WordEnd(s, q));
    Token(tok, q, e, Skip(s, e))
  }

  /** peek's answer; the position moves to Skip(s, i). */
  predicate PeekAt(s: string, i: nat, toks: string)
    requires i <= |s|
  {
    var c := Ch(s, Skip(s, i));
    c != '\0' && c in toks
  }

  function ModeOf(tok: char): nat { if tok == '<' then O_RDONLY else O_WRONLY + O_CREATE }

  function FdOf(tok: char): nat { if tok == '<' then 0 else 1 }

  function RedirsAt(cmd: Cmd<Span>, s: string, i: nat): (r: Parsed)
    requires i <= |s| && Line(s)
    ensures r.Ok? ==> Skip(s, i) <= r.pos <= |s|
    decreases |s| - i
  {
    var p := Skip(s, i);
    if !PeekAt(s, i, "<>") then Ok(cmd, p)
    else
      var t := TokenAt(s, p);
      var w := TokenAt(s, t.pos);
      if w.tok != 'a' then Panic
      else RedirsAt(Redir(cmd, Span(w.q, w.e), ModeOf(t.tok), FdOf(t.tok)), s, w.pos)
  }

  /** The execcmd under the redirections gets one more argument. */
  function AddArg(c: Cmd<Span>, w: Span): Cmd<Span>
  {
    match c
    case Exec(argv) => Exec(argv + [w])
    case Redir(d, file, mode, fd) => Redir(AddArg(d, w), file, mode, fd)
    case _ => c
  }

  /** parseexec's loop, with argc arguments so far. */
  function ArgsAt(cmd: Cmd<Span>, argc: nat, s: string, i: nat): (r: Parsed)
    requires i <= |s| && Line(s)
    ensures r.Ok? ==> i <= r.pos <= |s|
    decreases |s| - i
  {
    var p := Skip(s, i);
    var t := TokenAt(s, p);
    if PeekAt(s, i, "|)&;") then Ok(cmd, p)
    else if t.tok == '\0' then Ok(cmd, t.pos)
    else if t.tok != 'a' || argc + 1 >= MAXARGS then Panic
    else
      var r := RedirsAt(AddArg(cmd, Span(t.q, t.e)), s, t.pos);
      if r.Panic? then Panic else ArgsAt(r.cmd, argc + 1, s, r.pos)
  }

  function ExecAt(s: string, i: nat): (r: Parsed)
    requires i <= |s| && Line(s)
    ensures r.Ok? ==> i <= r.pos <= |s|
    decreases |s| - i, 1
  {
    if PeekAt(s, i, "(") then BlockAt(s, Skip(s, i))
    else
      var r := RedirsAt(Exec([]), s, i);
      if r.Panic? then Panic else ArgsAt(r.cmd, 0, s, r.pos)
  }

  function BlockAt(s: string, i: nat): (r: Parsed)
    requires i <= |s| && Line(s)
    ensures r.Ok? ==> i <= r.pos <= |s|
    decreases |s| - i, 0
  {
    if !PeekAt(s, i, "(") then Panic
    else
      var r := LineAt(s, TokenAt(s, i).pos);
      if r.Panic? || !PeekAt(s, r.pos, ")") then Panic
      else RedirsAt(r.cmd, s, TokenAt(s, r.pos).pos)
  }

  function PipeAt(s: string, i: nat): (r: Parsed)
    requires i <= |s| && Line(s)
    ensures r.Ok? ==> i <= r.pos <= |s|
    decreases |s| - i, 2
  {
    var l := ExecAt(s, i);
    if l.Panic? then Panic
    else if !PeekAt(s, l.pos, "|") then Ok(l.cmd, Skip(s, l.pos))
    else
      var r := PipeAt(s, TokenAt(s, l.pos).pos);
      if r.Panic? then Panic else Ok(Pipe(l.cmd, r.cmd), r.pos)
  }

  function BacksAt(cmd: Cmd<Span>, s: string, i: nat): (r: (Cmd<Span>, nat))
    requires i <= |s| && Line(s)
    ensures Skip(s, i) <= r.1 <= |s|
    decreases |s| - i
  {
    if PeekAt(s, i, "&") then BacksAt(Back(cmd), s, TokenAt(s, i).pos) else (cmd, Skip(s, i))
  }

  function LineAt(s: string, i: nat): (r: Parsed)
    requires i <= |s| && Line(s)
    ensures r.Ok? ==> i <= r.pos <= |s|
    decreases |s| - i, 3
  {
    var l := PipeAt(s, i);
    if l.Panic? then Panic
    else
      var (cmd, p) := BacksAt(l.cmd, s, l.pos);
      if !PeekAt(s, p, ";") then Ok(cmd, Skip(s, p))
      else
        var r := LineAt(s, TokenAt(s, p).pos);
        if r.Panic? then Panic else Ok(List(cmd, r.cmd), r.pos)
  }

  function Parse(s: string): Parsed
    requires Line(s)
  {
    var r := LineAt(s, 0);
    if r.Panic? || Skip(s, r.pos) != |s| then Panic else Ok(r.cmd, |s|)
  }

  /** The parser as it runs: ps moves along the line. A result is absent after a panic. */
  class Parser {
    const s: string
    var ps: nat

    constructor (line: string)
      requires Line(line)
      ensures s == line && ps == 0 && Valid()
    {
      s, ps := line, 0;
    }

    predicate Valid()
      reads this
    {
      ps <= |s| && Line(s)
    }

    method Gettoken() returns (tok: char, q: nat, e: nat)
      requires Valid()
      modifies this
      ensures Valid() && Token(tok, q, e, ps) == TokenAt(s, old(ps))
    {
      hide Skip, WordEnd;
      var p := SkipWhite(ps);
      q := p;
      tok := Ch(s, p);
      if tok == '\0' {
      } else if tok == '|' || tok == '(' || tok == ')' || tok == ';' || tok == '&' || tok == '<' {
        p := p + 1;
      } else if tok == '>' {
        p := p + 1;
        if Ch(s, p) == '>' {
          tok := '+';
          p := p + 1;
        }
      } else {
        tok := 'a';
        p := SkipWord(p);
      }
      e := p;
      ps := SkipWhite(p);
    }

    /** The loop over white space. */
    method SkipWhite(i: nat) returns (p: nat)
      requires Valid() && i <= |s|
      ensures p == Skip(s, i)
    {
      p := i;
      while p < |s| && White(s[p])
        invariant p <= |s| && Skip(s, p) == Skip(s, i)
      {
        p := p + 1;
      }
    }

    /** The loop over a word. */
    method SkipWord(i: nat) returns (p: nat)
      requires Valid() && i <= |s|
      ensures p == WordEnd(s, i)
    {
      p := i;
      while p < |s| && !White(s[p]) && !Symbol(s[p])
        invariant p <= |s| && WordEnd(s, p) == WordEnd(s, i)
      {
        p := p + 1;
      }
    }

    method Peek(toks: string) returns (r: bool)
      requires Valid()
      modifies this
      ensures Valid() && ps == Skip(s, old(ps)) && r == PeekAt(s, old(ps), toks)
    {
      ghost var i := ps;
      var p := ps;
      while p < |s| && White(s[p])
        invariant p <= |s| && Skip(s, p) == Skip(s, i) && ps == i
      {
        p := p + 1;
      }
      ps := p;
      r := Ch(s, p) != '\0' && Ch(s, p) in toks;
    }

    method Parseredirs(cmd: Cmd<Span>) returns (c: Cmd<Span>, ok: bool)
      requires Valid()
      modifies this
      ensures Valid() && (if ok then Ok(c, ps) else Panic) == RedirsAt(cmd, s, old(ps))
    {
      ghost var r := RedirsAt(cmd, s, ps);
      c, ok := cmd, true;
      while true
        invariant Valid() && RedirsAt(c, s, ps) == r
        decreases |s| - ps
      {
        ghost var i := ps;
        var more := Peek("<>");
        if !more { return; }
        SkipTwice(s, i);
        var tok, q, e, w;
        tok, q, e := Gettoken();
        w, q, e := Gettoken();
        if w != 'a' { return c, false; }
        c := Redir(c, Span(q, e), ModeOf(tok), FdOf(tok));
      }
    }

    method Parseexec() returns (c: Cmd<Span>, ok: bool)
      requires Valid()
      modifies this
      ensures Valid() && (if ok then Ok(c, ps) else Panic) == ExecAt(s, old(ps))
      decreases |s| - ps, 1
    {
      hide TokenAt, Skip, PeekAt, RedirsAt, ArgsAt, BlockAt;
      ghost var i := ps;
      var block := Peek("(");
      if block {
        c, ok := Parseblock();
        return;
      }
      RedirsSkip(Exec([]), s, i);
      c, ok := Parseredirs(Exec([]));
      if ok {
        c, ok := Parseargs(c);
      }
    }

    /** parseexec's loop. */
    method Parseargs(cmd: Cmd<Span>) returns (c: Cmd<Span>, ok: bool)
      requires Valid()
      modifies this
      ensures Valid() && (if ok then Ok(c, ps) else Panic) == ArgsAt(cmd, 0, s, old(ps))
    {
      hide TokenAt, Skip, PeekAt, RedirsAt;
      ghost var r := ArgsAt(cmd, 0, s, ps);
      var argc := 0;
      c, ok := cmd, true;
      while true
        invariant Valid() && ok && ArgsAt(c, argc, s, ps) == r
        decreases |s| - ps
      {
        ghost var j := ps;
        var stop := Peek("|)&;");
        if stop { return; }
        var tok, q, e;
        tok, q, e := Gettoken();
        if tok == '\0' { return; }
        if tok != 'a' { return c, false; }
        argc := argc + 1;
        if argc >= MAXARGS { return c, false; }
        c, ok := Parseredirs(AddArg(c, Span(q, e)));
        if !ok { return; }
      }
    }

    method Parseblock() returns (c: Cmd<Span>, ok: bool)
      requires Valid()
      modifies this
      ensures Valid() && (if ok then Ok(c, ps) else Panic) == BlockAt(s, old(ps))
      decreases |s| - ps, 0
    {
      ghost var i := ps;
      var there := Peek("(");
      c := Exec([]);
      if !there { return c, false; }
      SkipTwice(s, i);
      var tok, q, e;
      tok, q, e := Gettoken();
      c, ok := Parseline();
      if !ok { return; }
      ghost var j := ps;
      there := Peek(")");
      if !there { return c, false; }
      SkipTwice(s, j);
      tok, q, e := Gettoken();
      c, ok := Parseredirs(c);
    }

    method Parsepipe() returns (c: Cmd<Span>, ok: bool)
      requires Valid()
      modifies this
      ensures Valid() && (if ok then Ok(c, ps) else Panic) == PipeAt(s, old(ps))
      decreases |s| - ps, 2
    {
      c, ok := Parseexec();
      if !ok { return; }
      ghost var j := ps;
      var more := Peek("|");
      SkipTwice(s, j);
      if more {
        var tok, q, e, d;
        tok, q, e := Gettoken();
        d, ok := Parsepipe();
        c := Pipe(c, d);
      }
    }

    method Parseline() returns (c: Cmd<Span>, ok: bool)
      requires Valid()
      modifies this
      ensures Valid() && (if ok then Ok(c, ps) else Panic) == LineAt(s, old(ps))
      decreases |s| - ps, 3
    {
      c, ok := Parsepipe();
      if !ok { return; }
      ghost var b := BacksAt(c, s, ps);
      var tok, q, e;
      var more := Backs(c);
      while more
        invariant Valid() && b == if more then BacksAt(Back(c), s, TokenAt(s, ps).pos) else (c, ps)
        invariant more ==> ps < |s|
        decreases |s| - ps, more
      {
        tok, q, e := Gettoken();
        c := Back(c);
        more := Backs(c);
      }
      var list := Peek(";");
      SkipTwice(s, b.1);
      if list {
        var d;
        tok, q, e := Gettoken();
        d, ok := Parseline();
        c := List(c, d);
      }
    }

    /** The test of parseline's loop. */
    method Backs(ghost c: Cmd<Span>) returns (more: bool)
      requires Valid()
      modifies this
      ensures Valid() && ps == Skip(s, old(ps)) && (more ==> ps < |s|)
      ensures BacksAt(c, s, old(ps)) == if more then BacksAt(Back(c), s, TokenAt(s, ps).pos) else (c, ps)
    {
      SkipTwice(s, ps);
      more := Peek("&");
    }

    method Parsecmd() returns (c: Cmd<Span>, ok: bool)
      requires Valid() && ps == 0
      modifies this
      ensures Valid() && (if ok then Ok(c, ps) else Panic) == Parse(s)
    {
      c, ok := Parseline();
      if ok {
        var end := Peek("");
        ok := ps == |s|;
      }
    }
  }

  lemma SkipTwice(s: string, i: nat)
    requires i <= |s|
    ensures Skip(s, Skip(s, i)) == Skip(s, i)
    ensures forall toks :: PeekAt(s, Skip(s, i), toks) == PeekAt(s, i, toks)
    ensures Line(s) ==> TokenAt(s, Skip(s, i)) == TokenAt(s, i)
  {
  }

  lemma RedirsSkip(c: Cmd<Span>, s: string, i: nat)
    requires i <= |s| && Line(s)
    ensures RedirsAt(c, s, Skip(s, i)) == RedirsAt(c, s, i)
  {
    SkipTwice(s, i);
  }
}
