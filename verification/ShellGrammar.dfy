/** sh.c: what the parser accepts, and with which tree, said by the lexemes of the line
    and a grammar over them. */
module ShellGrammar {
  import opened Shell

  // ----- lexemes -----

  /** A piece of the line: a word ('a'), one of < | > & ; ( ), or >> ('+'). */
  datatype Lexeme = Lexeme(tok: char, w: Span)

  /** x stands in the line, and could not be longer. */
  predicate Stands(s: string, x: Lexeme)
  {
    && x.w.q < x.w.e <= |s|
    && if x.tok == 'a' then (forall k | x.w.q <= k < x.w.e :: Plain(s[k])) && (x.w.e < |s| ==> !Plain(s[x.w.e]))
       else if x.tok == '+' then x.w.e == x.w.q + 2 && s[x.w.q] == '>' && s[x.w.q + 1] == '>'
       else if x.tok == '>' then x.w.e == x.w.q + 1 && s[x.w.q] == '>' && (x.w.e < |s| ==> s[x.w.e] != '>')
       else x.tok in "<|&;()" && x.w.e == x.w.q + 1 && s[x.w.q] == x.tok
  }

  /** From i on the line is the lexemes ts, one after the other, and white space. */
  predicate Lexes(s: string, i: nat, ts: seq<Lexeme>)
    decreases |ts|
  {
    i <= |s| &&
    if ts == [] then forall k | i <= k < |s| :: White(s[k])
    else
      && i <= ts[0].w.q && Stands(s, ts[0]) && (forall k | i <= k < ts[0].w.q :: White(s[k]))
      && Lexes(s, ts[0].w.e, ts[1..])
  }

  /** The lexemes, one gettoken after the other. */
  function Lex(s: string, i: nat): (ts: seq<Lexeme>)
    requires Line(s) && i <= |s|
    decreases |s| - i
  {
    var t := TokenAt(s, i);
    if t.tok == '\0' then [] else [Lexeme(t.tok, Span(t.q, t.e))] + Lex(s, t.pos)
  }

  lemma {:induction false} SkipsWhite(s: string, i: nat)
    requires i <= |s|
    ensures forall k | i <= k < Skip(s, i) :: White(s[k])
    decreases |s| - i
  {
    if i < |s| && White(s[i]) { SkipsWhite(s, i + 1); }
  }

  lemma {:induction false} SkipTo(s: string, i: nat, q: nat)
    requires i <= q <= |s| && (forall k | i <= k < q :: White(s[k])) && (q < |s| ==> !White(s[q]))
    ensures Skip(s, i) == q
    decreases q - i
  {
    if i < q { SkipTo(s, i + 1, q); }
  }

  lemma TokenStands(s: string, i: nat)
    requires Line(s) && i <= |s| && TokenAt(s, i).tok != '\0'
    ensures var t := TokenAt(s, i); t.q == Skip(s, i) && Stands(s, Lexeme(t.tok, Span(t.q, t.e)))
  {
    hide TokenAt, Skip, Plain;
    TokenEnd(s, i);
    if TokenAt(s, i).tok != 'a' { SymbolStands(s, i); }
  }

  lemma SymbolStands(s: string, i: nat)
    requires Line(s) && i <= |s| && TokenAt(s, i).tok != '\0' && TokenAt(s, i).tok != 'a'
    ensures var t := TokenAt(s, i); Stands(s, Lexeme(t.tok, Span(t.q, t.e)))
  {
    hide Skip, WordEnd, Plain, White, Line;
    IsSymbol(Ch(s, Skip(s, i)));
  }

  lemma IsSymbol(c: char)
    ensures Symbol(c) && c != '>' ==> c in "<|&;()" && c != 'a' && c != '+'
  {
  }

  /** gettoken finds the lexemes ... */
  lemma {:induction false} LexOk(s: string, i: nat)
    requires Line(s) && i <= |s|
    ensures Lexes(s, i, Lex(s, i)) && Lex(s, i) == Lex(s, Skip(s, i))
    decreases |s| - i
  {
    hide TokenAt, Stands;
    SkipTwice(s, i);
    SkipsWhite(s, i);
    TokenEnd(s, i);
    var t := TokenAt(s, i);
    if t.tok != '\0' {
      TokenStands(s, i);
      LexOk(s, t.e);
      assert Lex(s, i)[1..] == Lex(s, t.pos);
    }
  }

  lemma TokenEnd(s: string, i: nat)
    requires Line(s) && i <= |s|
    ensures var t := TokenAt(s, i);
            && t.q == Skip(s, i) && t.pos == Skip(s, t.e) && i <= t.q <= t.e <= t.pos <= |s|
            && (t.tok == '\0' <==> t.q == |s|) && (t.tok != '\0' ==> i < t.e)
  {
  }

  /** ... and there is no other way to see them. */
  lemma {:induction false} LexOnly(s: string, i: nat, ts: seq<Lexeme>)
    requires Line(s) && Lexes(s, i, ts)
    ensures ts == Lex(s, i)
    decreases |ts|
  {
    hide TokenAt, Stands;
    TokenEnd(s, i);
    if ts == [] {
      SkipTo(s, i, |s|);
    } else {
      var x := ts[0];
      StandsHead(s, x);
      SkipTo(s, i, x.w.q);
      TokenIs(s, i, x);
      LexOnly(s, x.w.e, ts[1..]);
      LexOk(s, x.w.e);
    }
  }

  lemma StandsHead(s: string, x: Lexeme)
    requires Stands(s, x)
    ensures x.w.q < |s| && !White(s[x.w.q])
  {
  }

  lemma TokenIs(s: string, i: nat, x: Lexeme)
    requires Line(s) && i <= |s| && Stands(s, x) && Skip(s, i) == x.w.q
    ensures var t := TokenAt(s, i); t.tok == x.tok && t.q == x.w.q && t.e == x.w.e
  {
    if x.tok == 'a' { WordTo(s, x.w.q, x.w.e); }
  }

  lemma {:induction false} WordTo(s: string, q: nat, e: nat)
    requires q <= e <= |s| && (forall k | q <= k < e :: Plain(s[k])) && (e < |s| ==> !Plain(s[e])) && Line(s)
    ensures WordEnd(s, q) == e
    decreases e - q
  {
    if q < e { WordTo(s, q + 1, e); }
  }

  // ----- what the parser sees of them -----

  predicate Starts(ts: seq<Lexeme>, toks: string) { ts != [] && ts[0].tok in toks }

  lemma LexStep(s: string, i: nat)
    requires Line(s) && i <= |s|
    ensures Lex(s, Skip(s, i)) == Lex(s, i) && (Skip(s, i) == |s| <==> Lex(s, i) == [])
    ensures var t := TokenAt(s, i);
            && i <= t.pos <= |s| && Lex(s, t.pos) == (if Lex(s, i) == [] then [] else Lex(s, i)[1..])
            && (Lex(s, i) == [] <==> t.tok == '\0')
            && (Lex(s, i) != [] ==> Lex(s, i)[0] == Lexeme(t.tok, Span(t.q, t.e)) && i < t.pos)
  {
    hide TokenAt, Lexes;
    LexOk(s, i);
    TokenEnd(s, i);
    if TokenAt(s, i).tok == '\0' { LexEnd(s); }
  }

  lemma LexEnd(s: string)
    requires Line(s)
    ensures Lex(s, |s|) == []
  {
  }

  lemma LexPeek(s: string, i: nat)
    requires Line(s) && i <= |s|
    ensures PeekAt(s, i, "<>") <==> Starts(Lex(s, i), "<>+")
    ensures forall toks | forall c | c in toks :: c in "|)&;(" :: PeekAt(s, i, toks) <==> Starts(Lex(s, i), toks)
  {
  }

  // ----- the grammar -----

  /** One word of a simple command: an argument, or an operator and a file. */
  datatype Item = Arg(word: Lexeme) | To(op: Lexeme, file: Lexeme)
  {
    predicate Ok()
    {
      match this
      case Arg(x) => x.tok == 'a'
      case To(op, file) => op.tok in "<>+" && file.tok == 'a'
    }

    function Lexemes(): seq<Lexeme>
    {
      match this
      case Arg(x) => [x]
      case To(op, file) => [op, file]
    }
  }

  function Lexemes(items: seq<Item>): seq<Lexeme>
  {
    if items == [] then []
    else items[0].Lexemes() + Lexemes(items[1..])
  }

  /** The arguments, in order. */
  function Args(items: seq<Item>): seq<Span>
  {
    if items == [] then [] else (if items[0].Arg? then [items[0].word.w] else []) + Args(items[1..])
  }

  /** The redirection around c, if x is one: < opens the file to read as 0, > and >> open it
      to write, created if need be, as 1. */
  function With(c: Cmd<Span>, x: Item): Cmd<Span>
  {
    match x
    case Arg(_) => c
    case To(op, file) =>
      if op.tok == '<' then Redir(c, file.w, O_RDONLY, 0) else Redir(c, file.w, O_WRONLY + O_CREATE, 1)
  }

  /** All of them, the last one outermost. */
  function Around(c: Cmd<Span>, items: seq<Item>): Cmd<Span>
    decreases |items|
  {
    if items == [] then c else Around(With(c, items[0]), items[1..])
  }

  /** A simple command: arguments and redirections in any order, fewer than MAXARGS arguments. */
  ghost predicate IsSimple(ts: seq<Lexeme>, c: Cmd<Span>)
  {
    exists items: seq<Item> {:trigger Lexemes(items)} ::
      && (forall k | 0 <= k < |items| :: items[k].Ok())
      && ts == Lexemes(items) && |Args(items)| < MAXARGS && c == Around(Exec(Args(items)), items)
  }

  /** A line in parentheses, and redirections. */
  ghost predicate IsBlock(ts: seq<Lexeme>, c: Cmd<Span>)
    decreases |ts|, 0
  {
    var n := |ts|;
    || (n >= 2 && ts[0].tok == '(' && ts[n - 1].tok == ')' && IsLine(ts[1..n - 1], c))
    || (n >= 2 && To(ts[n - 2], ts[n - 1]).Ok() && c.Redir? && IsBlock(ts[..n - 2], c.cmd)
        && c == With(c.cmd, To(ts[n - 2], ts[n - 1])))
  }

  /** A block or a simple command, and what it is piped into. */
  ghost predicate IsPipe(ts: seq<Lexeme>, c: Cmd<Span>)
    decreases |ts|, 1
  {
    || IsSimple(ts, c) || IsBlock(ts, c)
    || (c.Pipe? && exists k ::
          && 0 <= k < |ts| && ts[k].tok == '|' && (IsSimple(ts[..k], c.left) || IsBlock(ts[..k], c.left))
          && IsPipe(ts[k + 1..], c.right))
  }

  /** Any number of & after it. */
  ghost predicate IsBacks(ts: seq<Lexeme>, c: Cmd<Span>)
    decreases |ts|, 2
  {
    var n := |ts|;
    IsPipe(ts, c) || (c.Back? && n > 0 && ts[n - 1].tok == '&' && IsBacks(ts[..n - 1], c.cmd))
  }

  /** And what follows after a ; */
  ghost predicate IsLine(ts: seq<Lexeme>, c: Cmd<Span>)
    decreases |ts|, 3
  {
    || IsBacks(ts, c)
    || (c.List? && exists k ::
          0 <= k < |ts| && ts[k].tok == ';' && IsBacks(ts[..k], c.left) && IsLine(ts[k + 1..], c.right))
  }

  // ----- simple commands -----

  function Tree(items: seq<Item>): Cmd<Span> { Around(Exec(Args(items)), items) }

  lemma {:induction false} LexemesThen(a: seq<Item>, b: seq<Item>)
    ensures Lexemes(a + b) == Lexemes(a) + Lexemes(b) && Args(a + b) == Args(a) + Args(b)
    decreases |a|
  {
    if a == [] {
      assert a + b == b;
    } else {
      assert (a + b)[1..] == a[1..] + b;
      LexemesThen(a[1..], b);
    }
  }

  lemma {:induction false} AroundThen(c: Cmd<Span>, a: seq<Item>, b: seq<Item>)
    ensures Around(c, a + b) == Around(Around(c, a), b)
    decreases |a|
  {
    hide With;
    if a == [] {
      assert a + b == b;
    } else {
      assert (a + b)[1..] == a[1..] + b;
      AroundThen(With(c, a[0]), a[1..], b);
    }
  }

  lemma {:induction false} AroundArg(c: Cmd<Span>, items: seq<Item>, w: Span)
    requires c.Exec? || c.Redir?
    ensures Around(AddArg(c, w), items) == AddArg(Around(c, items), w)
    decreases |items|
  {
    if items != [] {
      assert With(AddArg(c, w), items[0]) == AddArg(With(c, items[0]), w);
      AroundArg(With(c, items[0]), items[1..], w);
    }
  }

  lemma TreeNext(done: seq<Item>, x: Item)
    requires x.Ok()
    ensures x.Arg? ==> Tree(done + [x]) == AddArg(Tree(done), x.word.w)
    ensures x.To? ==> Tree(done + [x]) == Redir(Tree(done), x.file.w, ModeOf(x.op.tok), FdOf(x.op.tok))
    ensures |Args(done + [x])| == |Args(done)| + if x.Arg? then 1 else 0
  {
    hide Around, Args, Lexemes;
    LexemesThen(done, [x]);
    var c := Exec(Args(done + [x]));
    AroundThen(c, done, [x]);
    AroundOne(Around(c, done), x);
    if x.Arg? {
      AroundArg(Exec(Args(done)), done, x.word.w);
    } else {
      assert Args(done) + [] == Args(done);
    }
  }

  lemma AroundOne(c: Cmd<Span>, x: Item)
    ensures Around(c, [x]) == With(c, x) && Args([x]) == if x.Arg? then [x.word.w] else []
  {
    assert [x][1..] == [];
  }

  ghost predicate Fine(items: seq<Item>) { forall k | 0 <= k < |items| :: items[k].Ok() }

  /** What may come after a command. */
  predicate Follows(rest: seq<Lexeme>, toks: string) { rest == [] || rest[0].tok in toks }

  lemma ItemHead(items: seq<Item>, rest: seq<Lexeme>)
    requires items != [] && Fine(items)
    ensures var ts, x := Lexemes(items) + rest, items[0];
            x.Ok() && ts == x.Lexemes() + (Lexemes(items[1..]) + rest)
  {
  }

  lemma HeadOfTwo(a: Lexeme, b: Lexeme, rest: seq<Lexeme>)
    ensures var ts := [a, b] + rest; |ts| >= 2 && ts[0] == a && ts[1] == b && ts[1..][1..] == rest
    ensures var ts := [a] + rest; ts != [] && ts[0] == a && ts[1..] == rest
  {
  }

  /** One redirection, as the parser takes it. */
  lemma RedirsOne(c: Cmd<Span>, s: string, i: nat)
    requires Line(s) && i <= |s|
    ensures var ts := Lex(s, i);
            if !Starts(ts, "<>+") then RedirsAt(c, s, i) == Ok(c, Skip(s, i))
            else if |ts| < 2 || ts[1].tok != 'a' then RedirsAt(c, s, i) == Panic
            else
              var q := TokenAt(s, TokenAt(s, i).pos).pos;
              && i < q <= |s| && Lex(s, q) == ts[1..][1..]
              && RedirsAt(c, s, i) == RedirsAt(Redir(c, ts[1].w, ModeOf(ts[0].tok), FdOf(ts[0].tok)), s, q)
  {
    hide TokenAt, PeekAt, Lex;
    SkipTwice(s, i);
    LexPeek(s, i);
    LexStep(s, i);
    LexStep(s, TokenAt(s, i).pos);
  }

  /** One turn of parseexec's loop. */
  lemma ArgsOne(c: Cmd<Span>, argc: nat, s: string, i: nat)
    requires Line(s) && i <= |s|
    ensures var ts := Lex(s, i);
            if ts == [] then ArgsAt(c, argc, s, i) == Ok(c, |s|)
            else if ts[0].tok in "|)&;" then ArgsAt(c, argc, s, i) == Ok(c, Skip(s, i))
            else if ts[0].tok != 'a' || argc + 1 >= MAXARGS then ArgsAt(c, argc, s, i) == Panic
            else
              var p := TokenAt(s, i).pos;
              && i < p <= |s| && Lex(s, p) == ts[1..]
              && var r := RedirsAt(AddArg(c, ts[0].w), s, p);
                 ArgsAt(c, argc, s, i) == if r.Panic? then Panic else ArgsAt(r.cmd, argc + 1, s, r.pos)
  {
    hide TokenAt, PeekAt, Lex, RedirsAt, AddArg;
    SkipTwice(s, i);
    LexPeek(s, i);
    LexStep(s, i);
  }

  function Simply(c: Cmd<Span>, argc: nat, s: string, i: nat): Parsed
    requires Line(s) && i <= |s|
  {
    var r := RedirsAt(c, s, i);
    if r.Panic? then Panic else ArgsAt(r.cmd, argc, s, r.pos)
  }

  lemma SimpleStops(c: Cmd<Span>, argc: nat, s: string, i: nat) returns (p: nat)
    requires Line(s) && i <= |s| && Follows(Lex(s, i), "|)&;")
    ensures p <= |s| && Lex(s, p) == Lex(s, i) && Simply(c, argc, s, i) == Ok(c, p)
  {
    hide Lex, RedirsAt, ArgsAt, TokenAt;
    RedirsOne(c, s, i);
    p := Skip(s, i);
    LexStep(s, i);
    LexStep(s, p);
    SkipTwice(s, i);
    ArgsOne(c, argc, s, p);
  }

  /** The parser at i, after the items done, takes x and is then at q. */
  ghost predicate Steps(done: seq<Item>, x: Item, s: string, i: nat, q: nat)
    requires Line(s) && i <= |s|
  {
    && i < q <= |s| && x.Ok() && Lex(s, i) == x.Lexemes() + Lex(s, q)
    && Simply(Tree(done), |Args(done)|, s, i) == Simply(Tree(done + [x]), |Args(done + [x])|, s, q)
  }

  lemma RedirSteps(done: seq<Item>, s: string, i: nat)
    requires Line(s) && i <= |s| && Starts(Lex(s, i), "<>+")
    ensures var ts := Lex(s, i);
            if |ts| < 2 || ts[1].tok != 'a' then Simply(Tree(done), |Args(done)|, s, i) == Panic
            else Steps(done, To(ts[0], ts[1]), s, i, TokenAt(s, TokenAt(s, i).pos).pos)
  {
    hide Lex, RedirsAt, ArgsAt, TokenAt, Tree, Args;
    var ts := Lex(s, i);
    RedirsOne(Tree(done), s, i);
    if |ts| >= 2 && ts[1].tok == 'a' {
      TreeNext(done, To(ts[0], ts[1]));
      assert ts == [ts[0], ts[1]] + ts[1..][1..];
    }
  }

  lemma ArgSteps(done: seq<Item>, s: string, i: nat)
    requires Line(s) && i <= |s| && Lex(s, i) != [] && Lex(s, i)[0].tok !in "<>+|)&;"
    ensures var ts := Lex(s, i);
            if ts[0].tok != 'a' || |Args(done)| + 1 >= MAXARGS then Simply(Tree(done), |Args(done)|, s, i) == Panic
            else Steps(done, Arg(ts[0]), s, i, TokenAt(s, i).pos)
  {
    hide Lex, RedirsAt, ArgsAt, TokenAt, Tree, Args;
    var ts, p := Lex(s, i), Skip(s, i);
    RedirsOne(Tree(done), s, i);
    SkipTwice(s, i);
    LexStep(s, i);
    ArgsOne(Tree(done), |Args(done)|, s, p);
    if ts[0].tok == 'a' { TreeNext(done, Arg(ts[0])); }
    assert ts == [ts[0]] + ts[1..];
  }

  /** After the items done, the parser takes the items to come. */
  lemma {:induction false} SimpleBack(done: seq<Item>, items: seq<Item>, rest: seq<Lexeme>, s: string, i: nat)
      returns (p: nat)
    requires Line(s) && i <= |s| && Fine(done) && Fine(items) && Lex(s, i) == Lexemes(items) + rest
    requires Follows(rest, "|)&;") && |Args(done + items)| < MAXARGS
    ensures p <= |s| && Lex(s, p) == rest && Simply(Tree(done), |Args(done)|, s, i) == Ok(Tree(done + items), p)
    decreases |items|
  {
    hide Lex, RedirsAt, ArgsAt, TokenAt, Tree, Args, Lexemes, Simply;
    if items == [] {
      LexemesNone();
      assert Lex(s, i) == rest && done + items == done;
      p := SimpleStops(Tree(done), |Args(done)|, s, i);
    } else {
      var q := ItemSteps(done, items, rest, s, i);
      assert done + [items[0]] + items[1..] == done + items;
      p := SimpleBack(done + [items[0]], items[1..], rest, s, q);
    }
  }

  lemma ItemSteps(done: seq<Item>, items: seq<Item>, rest: seq<Lexeme>, s: string, i: nat) returns (q: nat)
    requires Line(s) && i <= |s| && Fine(items) && items != [] && Lex(s, i) == Lexemes(items) + rest
    requires |Args(done + items)| < MAXARGS
    ensures Steps(done, items[0], s, i, q) && Lex(s, q) == Lexemes(items[1..]) + rest
  {
    hide Lex, RedirsAt, ArgsAt, TokenAt, Tree, Args, Lexemes, Simply;
    var x, more := items[0], Lexemes(items[1..]) + rest;
    ItemHead(items, rest);
    HeadOfTwo(if x.Arg? then x.word else x.op, if x.Arg? then x.word else x.file, more);
    LexemesThen(done + [x], items[1..]);
    assert done + [x] + items[1..] == done + items;
    TreeNext(done, x);
    if x.Arg? {
      ArgSteps(done, s, i);
      q := TokenAt(s, i).pos;
      Rest([x.word], more, Lex(s, q));
    } else {
      RedirSteps(done, s, i);
      q := TokenAt(s, TokenAt(s, i).pos).pos;
      Rest([x.op, x.file], more, Lex(s, q));
    }
  }

  lemma Rest(a: seq<Lexeme>, b: seq<Lexeme>, c: seq<Lexeme>)
    requires a + b == a + c
    ensures b == c
  {
    assert b == (a + b)[|a|..] && c == (a + c)[|a|..];
  }

  lemma LexemesNone()
    ensures Lexemes([]) == []
  {
  }

  /** What the parser takes for a simple command is one. */
  lemma {:induction false} SimpleOnly(done: seq<Item>, s: string, i: nat) returns (items: seq<Item>)
    requires Line(s) && i <= |s| && Fine(done) && |Args(done)| < MAXARGS
    requires Simply(Tree(done), |Args(done)|, s, i).Ok?
    ensures var r := Simply(Tree(done), |Args(done)|, s, i);
            && Fine(items) && r.pos <= |s| && Lex(s, i) == Lexemes(items) + Lex(s, r.pos)
            && r.cmd == Tree(done + items) && |Args(done + items)| < MAXARGS
    decreases |s| - i
  {
    hide Lex, RedirsAt, ArgsAt, TokenAt, Tree, Args, Lexemes, Simply;
    var ts := Lex(s, i);
    if Follows(ts, "|)&;") {
      items := [];
      LexemesNone();
      var p := SimpleStops(Tree(done), |Args(done)|, s, i);
      assert done + items == done;
    } else {
      var x, q;
      if Starts(ts, "<>+") {
        RedirSteps(done, s, i);
        x, q := To(ts[0], ts[1]), TokenAt(s, TokenAt(s, i).pos).pos;
      } else {
        ArgSteps(done, s, i);
        x, q := Arg(ts[0]), TokenAt(s, i).pos;
      }
      TreeNext(done, x);
      var more := SimpleOnly(done + [x], s, q);
      items := [x] + more;
      ItemCons(x, more);
      assert done + [x] + more == done + items;
    }
  }

  lemma ItemCons(x: Item, more: seq<Item>)
    ensures Lexemes([x] + more) == x.Lexemes() + Lexemes(more)
  {
  }

  // ----- what the grammar derives is what the parser gives -----

  lemma Joined(a: seq<Lexeme>, x: Lexeme, b: seq<Lexeme>, rest: seq<Lexeme>)
    ensures a + [x] + b + rest == a + ([x] + (b + rest)) && ([x] + (b + rest))[1..] == b + rest
    ensures (a + [x] + b)[..|a|] == a && (a + [x] + b)[|a|] == x && (a + [x] + b)[|a| + 1..] == b
  {
  }

  lemma Parted(ts: seq<Lexeme>, k: nat)
    requires k < |ts|
    ensures ts == ts[..k] + [ts[k]] + ts[k + 1..]
  {
  }

  /** peek at the symbols that part commands. */
  lemma SymbolPeek(s: string, i: nat)
    requires Line(s) && i <= |s|
    ensures PeekAt(s, i, "(") <==> Starts(Lex(s, i), "(")
    ensures PeekAt(s, i, ")") <==> Starts(Lex(s, i), ")")
    ensures PeekAt(s, i, "|") <==> Starts(Lex(s, i), "|")
    ensures PeekAt(s, i, "&") <==> Starts(Lex(s, i), "&")
    ensures PeekAt(s, i, ";") <==> Starts(Lex(s, i), ";")
  {
  }

  lemma TreeNone()
    ensures Tree([]) == Exec([]) && Args([]) == [] && Lexemes([]) == []
  {
  }

  lemma SimpleHead(ts: seq<Lexeme>, c: Cmd<Span>)
    requires IsSimple(ts, c)
    ensures ts == [] || ts[0].tok in "a<>+"
  {
    var items: seq<Item> :| (forall k | 0 <= k < |items| :: items[k].Ok()) && ts == Lexemes(items);
    if items != [] {
      assert items[0].Ok();
      ItemHead(items, []);
    }
  }

  lemma {:induction false} BlockHead(ts: seq<Lexeme>, c: Cmd<Span>)
    requires IsBlock(ts, c)
    ensures ts != [] && ts[0].tok == '('
    decreases |ts|
  {
    if !(ts[0].tok == '(' && ts[|ts| - 1].tok == ')') { BlockHead(ts[..|ts| - 2], c.cmd); }
  }

  lemma SimpleGiven(ts: seq<Lexeme>, c: Cmd<Span>, rest: seq<Lexeme>, s: string, i: nat) returns (p: nat)
    requires Line(s) && i <= |s| && Lex(s, i) == ts + rest && IsSimple(ts, c) && Follows(rest, "|)&;")
    ensures p <= |s| && Lex(s, p) == rest && ExecAt(s, i) == Ok(c, p)
  {
    hide Lex, RedirsAt, ArgsAt, TokenAt, PeekAt, BlockAt;
    var items: seq<Item> :| Fine(items) && ts == Lexemes(items) && |Args(items)| < MAXARGS && c == Tree(items);
    TreeNone();
    assert [] + items == items;
    SimpleHead(ts, c);
    SymbolPeek(s, i);
    p := SimpleBack([], items, rest, s, i);
  }

  /** A block ends where its redirections may go on. */
  lemma {:induction false} BlockGiven(ts: seq<Lexeme>, c: Cmd<Span>, rest: seq<Lexeme>, s: string, i: nat)
      returns (p: nat)
    requires Line(s) && i <= |s| && Lex(s, i) == ts + rest && IsBlock(ts, c)
    ensures p <= |s| && Lex(s, p) == rest && ExecAt(s, i) == RedirsAt(c, s, p)
    decreases |ts|, 0
  {
    hide Lex, RedirsAt, TokenAt, PeekAt, LineAt, ArgsAt, IsLine;
    var n := |ts|;
    if n >= 2 && ts[0].tok == '(' && ts[n - 1].tok == ')' && IsLine(ts[1..n - 1], c) {
      var inner, close := ts[1..n - 1], [ts[n - 1]] + rest;
      assert ts + rest == [ts[0]] + (inner + close) && (ts + rest)[1..] == inner + close;
      LexStep(s, i);
      SkipTwice(s, i);
      SymbolPeek(s, i);
      var j := TokenAt(s, i).pos;
      var q := LineGiven(inner, c, close, s, j);
      LexStep(s, q);
      SymbolPeek(s, q);
      p := TokenAt(s, q).pos;
      assert close[1..] == rest;
      BlockUnfold(s, i, c, q);
    } else {
      var op, file := ts[n - 2], ts[n - 1];
      var rest' := [op, file] + rest;
      assert ts + rest == ts[..n - 2] + rest';
      var q := BlockGiven(ts[..n - 2], c.cmd, rest', s, i);
      HeadOfTwo(op, file, rest);
      RedirsOne(c.cmd, s, q);
      p := TokenAt(s, TokenAt(s, q).pos).pos;
    }
  }

  lemma BlockUnfold(s: string, i: nat, c: Cmd<Span>, q: nat)
    requires Line(s) && i <= |s| && PeekAt(s, i, "(") && LineAt(s, TokenAt(s, i).pos) == Ok(c, q) && PeekAt(s, q, ")")
    ensures ExecAt(s, i) == RedirsAt(c, s, TokenAt(s, q).pos)
  {
    hide RedirsAt, TokenAt, PeekAt, LineAt, Skip;
    SkipTwice(s, i);
  }

  lemma {:induction false} ExecGiven(ts: seq<Lexeme>, c: Cmd<Span>, rest: seq<Lexeme>, s: string, i: nat)
      returns (p: nat)
    requires Line(s) && i <= |s| && Lex(s, i) == ts + rest && (IsSimple(ts, c) || IsBlock(ts, c))
    requires Follows(rest, "|)&;")
    ensures p <= |s| && Lex(s, p) == rest && ExecAt(s, i) == Ok(c, p)
    decreases |ts|, 1
  {
    hide Lex, RedirsAt, IsSimple, IsBlock, ExecAt;
    if IsBlock(ts, c) {
      var q := BlockGiven(ts, c, rest, s, i);
      RedirsOne(c, s, q);
      LexStep(s, q);
      p := Skip(s, q);
    } else {
      p := SimpleGiven(ts, c, rest, s, i);
    }
  }

  lemma {:induction false} PipeGiven(ts: seq<Lexeme>, c: Cmd<Span>, rest: seq<Lexeme>, s: string, i: nat)
      returns (p: nat)
    requires Line(s) && i <= |s| && Lex(s, i) == ts + rest && IsPipe(ts, c) && Follows(rest, ")&;")
    ensures p <= |s| && Lex(s, p) == rest && PipeAt(s, i) == Ok(c, p)
    decreases |ts|, 2
  {
    hide Lex, TokenAt, PeekAt, ExecAt, IsSimple, IsBlock;
    if IsSimple(ts, c) || IsBlock(ts, c) {
      var q := ExecGiven(ts, c, rest, s, i);
      LexStep(s, q);
      SymbolPeek(s, q);
      p := Skip(s, q);
    } else {
      var k :| 0 <= k < |ts| && ts[k].tok == '|' && (IsSimple(ts[..k], c.left) || IsBlock(ts[..k], c.left))
               && IsPipe(ts[k + 1..], c.right);
      Parted(ts, k);
      Joined(ts[..k], ts[k], ts[k + 1..], rest);
      var q := ExecGiven(ts[..k], c.left, [ts[k]] + (ts[k + 1..] + rest), s, i);
      LexStep(s, q);
      SymbolPeek(s, q);
      p := PipeGiven(ts[k + 1..], c.right, rest, s, TokenAt(s, q).pos);
    }
  }

  /** The & are taken one by one. */
  lemma {:induction false} BacksGiven(ts: seq<Lexeme>, c: Cmd<Span>, rest: seq<Lexeme>, s: string, i: nat)
      returns (p: nat)
    requires Line(s) && i <= |s| && Lex(s, i) == ts + rest && IsBacks(ts, c) && Follows(rest, ")&;")
    ensures p <= |s| && Lex(s, p) == rest
    ensures PipeAt(s, i).Ok? && BacksAt(PipeAt(s, i).cmd, s, PipeAt(s, i).pos) == BacksAt(c, s, p)
    decreases |ts|, 3
  {
    hide Lex, TokenAt, PeekAt, PipeAt, IsPipe;
    if IsPipe(ts, c) {
      p := PipeGiven(ts, c, rest, s, i);
    } else {
      var n := |ts|;
      var rest' := [ts[n - 1]] + rest;
      assert ts + rest == ts[..n - 1] + rest' && rest'[1..] == rest;
      var q := BacksGiven(ts[..n - 1], c.cmd, rest', s, i);
      LexStep(s, q);
      SymbolPeek(s, q);
      p := TokenAt(s, q).pos;
    }
  }

  lemma {:induction false} LineGiven(ts: seq<Lexeme>, c: Cmd<Span>, rest: seq<Lexeme>, s: string, i: nat)
      returns (p: nat)
    requires Line(s) && i <= |s| && Lex(s, i) == ts + rest && IsLine(ts, c) && Follows(rest, ")")
    ensures p <= |s| && Lex(s, p) == rest && LineAt(s, i) == Ok(c, p)
    decreases |ts|, 4
  {
    hide Lex, TokenAt, PeekAt, IsBacks, LineAt, BacksAt;
    if IsBacks(ts, c) {
      var q := BacksGiven(ts, c, rest, s, i);
      LexStep(s, q);
      p := LineStops(c, s, i, q);
    } else {
      var k :| 0 <= k < |ts| && ts[k].tok == ';' && IsBacks(ts[..k], c.left) && IsLine(ts[k + 1..], c.right);
      Parted(ts, k);
      Joined(ts[..k], ts[k], ts[k + 1..], rest);
      var q := BacksGiven(ts[..k], c.left, [ts[k]] + (ts[k + 1..] + rest), s, i);
      LexStep(s, q);
      p := LineGiven(ts[k + 1..], c.right, rest, s, TokenAt(s, q).pos);
      LineGoes(c.left, s, i, q);
    }
  }

  /** parseline after its & loop, when no ; follows ... */
  lemma LineStops(c: Cmd<Span>, s: string, i: nat, q: nat) returns (p: nat)
    requires Line(s) && i <= |s| && q <= |s| && PipeAt(s, i).Ok?
    requires BacksAt(PipeAt(s, i).cmd, s, PipeAt(s, i).pos) == BacksAt(c, s, q)
    requires !Starts(Lex(s, q), "&") && !Starts(Lex(s, q), ";")
    ensures p <= |s| && Lex(s, p) == Lex(s, q) && LineAt(s, i) == Ok(c, p)
  {
    hide Lex, TokenAt, PeekAt, PipeAt, Skip, BacksAt;
    BacksStop(c, s, q);
    LexStep(s, q);
    p := Skip(s, q);
    SymbolPeek(s, p);
    SkipTwice(s, q);
  }

  /** ... and when one does. */
  lemma LineGoes(c: Cmd<Span>, s: string, i: nat, q: nat)
    requires Line(s) && i <= |s| && q <= |s| && PipeAt(s, i).Ok?
    requires BacksAt(PipeAt(s, i).cmd, s, PipeAt(s, i).pos) == BacksAt(c, s, q)
    requires Starts(Lex(s, q), ";") && LineAt(s, TokenAt(s, q).pos).Ok?
    ensures var r := LineAt(s, TokenAt(s, q).pos); LineAt(s, i) == Ok(List(c, r.cmd), r.pos)
  {
    hide Lex, PeekAt, PipeAt, BacksAt;
    BacksStop(c, s, q);
    LexStep(s, q);
    SymbolPeek(s, Skip(s, q));
    SkipTwice(s, q);
  }

  lemma BacksStop(c: Cmd<Span>, s: string, i: nat)
    requires Line(s) && i <= |s| && !Starts(Lex(s, i), "&")
    ensures BacksAt(c, s, i) == (c, Skip(s, i))
  {
    hide Lex, PeekAt, TokenAt;
    SymbolPeek(s, i);
  }

  // ----- and the parser gives nothing else -----

  lemma {:induction false} RedirsTaken(ts: seq<Lexeme>, c: Cmd<Span>, s: string, i: nat) returns (ts': seq<Lexeme>)
    requires Line(s) && i <= |s| && IsBlock(ts, c) && RedirsAt(c, s, i).Ok?
    ensures var r := RedirsAt(c, s, i);
            r.pos <= |s| && ts + Lex(s, i) == ts' + Lex(s, r.pos) && IsBlock(ts', r.cmd)
    decreases |s| - i
  {
    hide Lex, RedirsAt, TokenAt, IsLine;
    RedirsOne(c, s, i);
    LexStep(s, i);
    var l := Lex(s, i);
    if Starts(l, "<>+") {
      var d := Redir(c, l[1].w, ModeOf(l[0].tok), FdOf(l[0].tok));
      var q := TokenAt(s, TokenAt(s, i).pos).pos;
      var more := ts + [l[0], l[1]];
      assert more[..|more| - 2] == ts && l == [l[0], l[1]] + l[1..][1..];
      assert IsBlock(more, d);
      ts' := RedirsTaken(more, d, s, q);
      assert ts + l == more + Lex(s, q);
    } else {
      ts' := ts;
    }
  }

  lemma {:induction false} ExecTaken(s: string, i: nat) returns (ts: seq<Lexeme>)
    requires Line(s) && i <= |s| && ExecAt(s, i).Ok?
    ensures var r := ExecAt(s, i);
            r.pos <= |s| && Lex(s, i) == ts + Lex(s, r.pos) && (IsSimple(ts, r.cmd) || IsBlock(ts, r.cmd))
    decreases |s| - i, 1
  {
    hide Lex, RedirsAt, TokenAt, PeekAt, LineAt, ArgsAt, IsLine, Skip, IsSimple, IsBlock, Tree, Lexemes, Args;
    SymbolPeek(s, i);
    LexStep(s, i);
    SkipTwice(s, i);
    if PeekAt(s, i, "(") {
      var j := TokenAt(s, i).pos;
      var inner := LineTaken(s, j);
      var l := LineAt(s, j);
      LexStep(s, l.pos);
      SymbolPeek(s, l.pos);
      var l0, l1 := Lex(s, i), Lex(s, l.pos);
      var q := TokenAt(s, l.pos).pos;
      var block := Closed(l0[0], inner, l1[0], l.cmd);
      assert l0 == [l0[0]] + l0[1..] && l1 == [l1[0]] + l1[1..];
      assert l0 == block + Lex(s, q);
      BlockUnfold(s, i, l.cmd, l.pos);
      ts := RedirsTaken(block, l.cmd, s, q);
    } else {
      TreeNone();
      var items := SimpleOnly([], s, i);
      assert [] + items == items;
      ts := Lexemes(items);
      ItemsSimple(items);
    }
  }

  lemma Closed(open: Lexeme, inner: seq<Lexeme>, close: Lexeme, c: Cmd<Span>) returns (ts: seq<Lexeme>)
    requires open.tok == '(' && close.tok == ')' && IsLine(inner, c)
    ensures ts == [open] + inner + [close] && IsBlock(ts, c)
  {
    hide IsLine;
    ts := [open] + inner + [close];
    assert ts[1..|ts| - 1] == inner;
  }

  lemma ItemsSimple(items: seq<Item>)
    requires Fine(items) && |Args(items)| < MAXARGS
    ensures IsSimple(Lexemes(items), Tree(items))
  {
  }

  lemma {:induction false} PipeTaken(s: string, i: nat) returns (ts: seq<Lexeme>)
    requires Line(s) && i <= |s| && PipeAt(s, i).Ok?
    ensures var r := PipeAt(s, i); r.pos <= |s| && Lex(s, i) == ts + Lex(s, r.pos) && IsPipe(ts, r.cmd)
    decreases |s| - i, 2
  {
    hide Lex, TokenAt, PeekAt, ExecAt, IsSimple, IsBlock, Skip;
    var left := ExecTaken(s, i);
    var l := ExecAt(s, i);
    LexStep(s, l.pos);
    SymbolPeek(s, l.pos);
    ts := left;
    if PeekAt(s, l.pos, "|") {
      var bar := Lex(s, l.pos)[0];
      var right := PipeTaken(s, TokenAt(s, l.pos).pos);
      ts := left + [bar] + right;
      Joined(left, bar, right, Lex(s, PipeAt(s, i).pos));
      assert Lex(s, l.pos) == [bar] + Lex(s, l.pos)[1..];
      assert ts[|left|].tok == '|';
    }
  }

  lemma {:induction false} BacksTaken(ts: seq<Lexeme>, c: Cmd<Span>, s: string, i: nat) returns (ts': seq<Lexeme>)
    requires Line(s) && i <= |s| && IsBacks(ts, c)
    ensures var r := BacksAt(c, s, i);
            r.1 <= |s| && ts + Lex(s, i) == ts' + Lex(s, r.1) && IsBacks(ts', r.0)
    decreases |s| - i
  {
    hide Lex, TokenAt, PeekAt, IsPipe, Skip;
    LexStep(s, i);
    SymbolPeek(s, i);
    var l := Lex(s, i);
    if PeekAt(s, i, "&") {
      var more := ts + [l[0]];
      assert more[..|more| - 1] == ts && l == [l[0]] + l[1..];
      assert ts + l == more + l[1..];
      assert IsBacks(more, Back(c));
      ts' := BacksTaken(more, Back(c), s, TokenAt(s, i).pos);
    } else {
      ts' := ts;
    }
  }

  lemma {:induction false} LineTaken(s: string, i: nat) returns (ts: seq<Lexeme>)
    requires Line(s) && i <= |s| && LineAt(s, i).Ok?
    ensures var r := LineAt(s, i); r.pos <= |s| && Lex(s, i) == ts + Lex(s, r.pos) && IsLine(ts, r.cmd)
    decreases |s| - i, 3
  {
    hide Lex, TokenAt, PeekAt, PipeAt, IsBacks, IsPipe, BacksAt, Skip;
    var left := PipeTaken(s, i);
    var l := PipeAt(s, i);
    PipeIsBacks(left, l.cmd);
    left := BacksTaken(left, l.cmd, s, l.pos);
    var p := BacksAt(l.cmd, s, l.pos).1;
    LexStep(s, p);
    SymbolPeek(s, p);
    ts := left;
    if PeekAt(s, p, ";") {
      var semi := Lex(s, p)[0];
      var right := LineTaken(s, TokenAt(s, p).pos);
      ts := left + [semi] + right;
      Joined(left, semi, right, Lex(s, LineAt(s, i).pos));
      assert Lex(s, p) == [semi] + Lex(s, p)[1..];
      assert ts[|left|].tok == ';';
    }
  }

  lemma PipeIsBacks(ts: seq<Lexeme>, c: Cmd<Span>)
    requires IsPipe(ts, c)
    ensures IsBacks(ts, c)
  {
  }

  /** The parser accepts exactly the lines that the grammar derives, with exactly its tree. */
  lemma ParseExactly(s: string, c: Cmd<Span>)
    requires Line(s)
    ensures Parse(s) == Ok(c, |s|) <==> exists ts :: Lexes(s, 0, ts) && IsLine(ts, c)
    ensures Parse(s).Ok? ==> Parse(s).pos == |s|
  {
    hide Lexes, IsLine, LineAt, Lex;
    LexOk(s, 0);
    if Parse(s) == Ok(c, |s|) {
      var ts := LineTaken(s, 0);
      LexStep(s, LineAt(s, 0).pos);
      assert ts + [] == ts;
    }
    forall ts | Lexes(s, 0, ts) && IsLine(ts, c) ensures Parse(s) == Ok(c, |s|) {
      LexOnly(s, 0, ts);
      assert ts + [] == ts;
      var p := LineGiven(ts, c, [], s, 0);
      LexStep(s, p);
    }
  }
}
