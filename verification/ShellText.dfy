/** sh.c: what is printed from a command tree, the parser reads back. */
module ShellText {
  import opened Shell

  function Word(s: string, w: Span): string
  {
    if w.q <= w.e <= |s| then s[w.q..w.e] else ""
  }

  function Words(s: string, ws: seq<Span>): (r: seq<string>)
    ensures |r| == |ws|
  {
    if ws == [] then [] else Words(s, ws[..|ws| - 1]) + [Word(s, ws[|ws| - 1])]
  }

  /** The tree with its words spelt out. */
  function Text(s: string, c: Cmd<Span>): Cmd<string>
  {
    match c
    case Exec(argv) => Exec(Words(s, argv))
    case Redir(d, file, mode, fd) => Redir(Text(s, d), Word(s, file), mode, fd)
    case Pipe(l, r) => Pipe(Text(s, l), Text(s, r))
    case List(l, r) => List(Text(s, l), Text(s, r))
    case Back(d) => Back(Text(s, d))
  }

  predicate PlainWord(w: string) { w != "" && forall k | 0 <= k < |w| :: Plain(w[k]) }

  predicate PlainWords(ws: seq<string>) { forall k | 0 <= k < |ws| :: PlainWord(ws[k]) }

  /** The trees the parser can build: fewer than MAXARGS plain words to a command. */
  predicate Printable(c: Cmd<string>)
  {
    match c
    case Exec(argv) => |argv| < MAXARGS && PlainWords(argv)
    case Redir(d, file, mode, fd) =>
      Printable(d) && PlainWord(file) && ((mode == O_RDONLY && fd == 0) || (mode == O_WRONLY + O_CREATE && fd == 1))
    case Pipe(l, r) => Printable(l) && Printable(r)
    case List(l, r) => Printable(l) && Printable(r)
    case Back(d) => Printable(d)
  }

  function PrintWords(ws: seq<string>): string
  {
    if ws == [] then "" else if |ws| == 1 then ws[0] else ws[0] + " " + PrintWords(ws[1..])
  }

  /** A tree in full parentheses. */
  function Print(c: Cmd<string>): string
  {
    match c
    case Exec(argv) => PrintWords(argv)
    case Redir(d, file, mode, _) => "(" + Print(d) + ")" + (if mode == O_RDONLY then "<" else ">") + file
    case Pipe(l, r) => "(" + Print(l) + ")" + "|" + "(" + Print(r) + ")"
    case List(l, r) => "(" + Print(l) + ")" + ";" + "(" + Print(r) + ")"
    case Back(d) => "(" + Print(d) + ")" + "&"
  }

  /** What may follow a printed command. */
  predicate Ends(post: string) { post == "" || post[0] == ')' }

  lemma After(s: string, i: nat, a: string, b: string)
    requires i <= |s| && s[i..] == a + b
    ensures i + |a| <= |s| && s[i + |a|..] == b && s[i..i + |a|] == a
    ensures a != "" ==> Ch(s, i) == a[0]
    ensures b != "" ==> Ch(s, i + |a|) == b[0]
    ensures b == "" ==> i + |a| == |s|
  {
    assert |s| - i == |a| + |b|;
    assert s[i + |a|..] == s[i..][|a|..];
    assert s[i..i + |a|] == s[i..][..|a|];
    assert a != "" ==> s[i..][0] == a[0];
    assert b != "" ==> s[i..][|a|] == b[0];
  }

  lemma {:induction false} WordEndAt(s: string, i: nat, w: string, post: string)
    requires i <= |s| && s[i..] == w + post && (forall k | 0 <= k < |w| :: Plain(w[k]))
    requires post != "" ==> !Plain(post[0]) && post[0] != '\0'
    ensures WordEnd(s, i) == i + |w|
    decreases |w|
  {
    After(s, i, w, post);
    if w != "" {
      assert s[i + 1..] == w[1..] + post;
      WordEndAt(s, i + 1, w[1..], post);
    }
  }

  lemma WordToken(s: string, i: nat, w: string, post: string)
    requires Line(s) && i <= |s| && s[i..] == w + post && PlainWord(w)
    requires post != "" ==> !Plain(post[0]) && post[0] != '\0'
    ensures i + |w| <= |s| && TokenAt(s, i) == Token('a', i, i + |w|, Skip(s, i + |w|)) &&
            Word(s, Span(i, i + |w|)) == w
  {
    hide TokenAt, WordEnd, Skip, Line, Word, Plain;
    WordAt(s, i, w, post);
    WordEndAt(s, i, w, post);
    PlainToken(s, i);
  }

  lemma WordAt(s: string, i: nat, w: string, post: string)
    requires i <= |s| && s[i..] == w + post && PlainWord(w)
    ensures i < |s| && i + |w| <= |s| && Plain(s[i]) && Word(s, Span(i, i + |w|)) == w
  {
    After(s, i, w, post);
  }

  lemma PlainToken(s: string, i: nat)
    requires Line(s) && i < |s| && Plain(s[i])
    ensures Skip(s, i) == i && TokenAt(s, i) == Token('a', i, WordEnd(s, i), Skip(s, WordEnd(s, i)))
  {
  }

  /** What the parser sees where a printed command ends. */
  lemma EndsStop(s: string, i: nat, post: string)
    requires Line(s) && i <= |s| && s[i..] == post && Ends(post)
    ensures Skip(s, i) == i && !PeekAt(s, i, "<>") && !PeekAt(s, i, "|") && !PeekAt(s, i, "&") && !PeekAt(s, i, ";")
    ensures post == "" ==> i == |s| && !PeekAt(s, i, "|)&;") && TokenAt(s, i) == Token('\0', i, i, i)
    ensures post != "" ==> i < |s| && s[i] == ')' && PeekAt(s, i, "|)&;") && PeekAt(s, i, ")")
  {
    After(s, i, "", post);
  }

  /** What it sees at a word. */
  lemma WordStop(s: string, i: nat, w: string, post: string)
    requires Line(s) && i <= |s| && s[i..] == w + post && PlainWord(w)
    ensures Skip(s, i) == i && !PeekAt(s, i, "<>") && !PeekAt(s, i, "|)&;") && !PeekAt(s, i, "(")
  {
    After(s, i, w, post);
    assert Plain(s[i]) && Skip(s, i) == i;
  }

  /** What follows a word in a printed command. */
  function Tail(rest: seq<string>, post: string): string
  {
    if rest == [] then post else " " + PrintWords(rest) + post
  }

  lemma TailOk(ws: seq<string>, post: string)
    requires ws != [] && PlainWords(ws) && Ends(post)
    ensures PrintWords(ws) + post == ws[0] + Tail(ws[1..], post) && PlainWord(ws[0]) && PlainWords(ws[1..])
    ensures Tail(ws[1..], post) != "" ==> !Plain(Tail(ws[1..], post)[0]) && Tail(ws[1..], post)[0] != '\0'
  {
    hide PlainWord, Plain;
    assert PlainWord(ws[0]);
    TailHead(ws[1..], post);
    if |ws| == 1 {
      assert ws[1..] == [];
    } else {
      assert PrintWords(ws) + post == ws[0] + (" " + PrintWords(ws[1..]) + post);
    }
  }

  lemma TailHead(rest: seq<string>, post: string)
    requires Ends(post)
    ensures Tail(rest, post) != "" ==> !Plain(Tail(rest, post)[0]) && Tail(rest, post)[0] != '\0'
  {
    if rest != [] {
      assert Tail(rest, post)[0] == ' ';
    }
  }

  /** After a word: the next one, or the end. */
  lemma NextArg(s: string, e: nat, rest: seq<string>, post: string)
    requires Line(s) && e <= |s| && Ends(post) && PlainWords(rest) && s[e..] == Tail(rest, post)
    ensures var p := Skip(s, e); s[p..] == PrintWords(rest) + post && Skip(s, p) == p && !PeekAt(s, p, "<>")
  {
    if rest == [] {
      EndsStop(s, e, post);
    } else {
      TailOk(rest, post);
      assert s[e..] == " " + (PrintWords(rest) + post);
      After(s, e, " ", PrintWords(rest) + post);
      WordStop(s, e + 1, rest[0], Tail(rest[1..], post));
      assert Skip(s, e) == e + 1;
    }
  }

  lemma WordsSnoc(s: string, a: seq<Span>, w: Span)
    ensures Words(s, a + [w]) == Words(s, a) + [Word(s, w)]
  {
    assert (a + [w])[..|a + [w]| - 1] == a;
  }

  lemma ArgsStep(s: string, i: nat, a: seq<Span>, t: Token, p: nat)
    requires Line(s) && i <= |s| && t == TokenAt(s, i) && t.tok == 'a' && Skip(s, i) == i && !PeekAt(s, i, "|)&;")
    requires |a| + 1 < MAXARGS && RedirsAt(Exec(a + [Span(t.q, t.e)]), s, t.pos) == Ok(Exec(a + [Span(t.q, t.e)]), p)
    ensures p <= |s| && ArgsAt(Exec(a), |a|, s, i) == ArgsAt(Exec(a + [Span(t.q, t.e)]), |a| + 1, s, p)
  {
    hide TokenAt, Skip, PeekAt, RedirsAt, Line;
  }

  lemma ArgsEnd(s: string, i: nat, a: seq<Span>, post: string)
    requires Line(s) && i <= |s| && s[i..] == "" + post && Ends(post)
    ensures ArgsAt(Exec(a), |a|, s, i) == Ok(Exec(a), |s| - |post|)
  {
    EndsStop(s, i, post);
  }

  lemma RedirsNone(s: string, i: nat, c: Cmd<Span>)
    requires Line(s) && i <= |s| && Skip(s, i) == i && !PeekAt(s, i, "<>")
    ensures RedirsAt(c, s, i) == Ok(c, i)
  {
  }

  /** The words of a command are read back, |a| of them being there already. */
  lemma {:induction false} ArgsBack(s: string, i: nat, a: seq<Span>, ws: seq<string>, post: string)
    requires Line(s) && i <= |s| && s[i..] == PrintWords(ws) + post && Ends(post)
    requires |a| + |ws| < MAXARGS && PlainWords(ws)
    ensures var r := ArgsAt(Exec(a), |a|, s, i);
            r.Ok? && r.pos == |s| - |post| && r.cmd.Exec? && Words(s, r.cmd.argv) == Words(s, a) + ws
    decreases |ws|
  {
    hide TokenAt, Skip, PeekAt, Word, Words, Line, Plain, Ends, PlainWord, PlainWords, Tail, ArgsAt, RedirsAt;
    if ws == [] {
      ArgsEnd(s, i, a, post);
    } else {
      var w, rest := ws[0], ws[1..];
      TailOk(ws, post);
      WordToken(s, i, w, Tail(rest, post));
      WordStop(s, i, w, Tail(rest, post));
      After(s, i, w, Tail(rest, post));
      var e := i + |w|;
      var a' := a + [Span(i, e)];
      WordsSnoc(s, a, Span(i, e));
      assert Words(s, a) + [w] + rest == Words(s, a) + ws;
      NextArg(s, e, rest, post);
      var p := Skip(s, e);
      RedirsNone(s, p, Exec(a'));
      ArgsStep(s, i, a, TokenAt(s, i), p);
      ArgsBack(s, p, a', rest, post);
    }
  }

  /** A command that ends the line, or the block, is the whole line. */
  lemma FinishLine(s: string, i: nat, t: Cmd<Span>, p: nat, post: string)
    requires Line(s) && i <= p <= |s| && ExecAt(s, i) == Ok(t, p) && s[p..] == post && Ends(post)
    ensures PipeAt(s, i) == Ok(t, p) && LineAt(s, i) == Ok(t, p)
  {
    hide TokenAt, Skip, PeekAt, ExecAt;
    EndsStop(s, p, post);
  }

  /** What the parser sees at a symbol. */
  lemma SymbolStop(s: string, i: nat, c: char, post: string)
    requires Line(s) && i <= |s| && s[i..] == [c] + post && Symbol(c) && c != '>'
    requires post != "" ==> !White(post[0])
    ensures i < |s| && TokenAt(s, i) == Token(c, i, i + 1, i + 1) && Skip(s, i) == i && s[i + 1..] == post
    ensures forall toks :: PeekAt(s, i, toks) <==> c in toks
  {
    After(s, i, [c], post);
    assert c != '\0' && !White(c) && Ch(s, i) == c;
    assert post != "" ==> !White(s[i + 1]);
  }

  lemma Regroup(a: string, b: string, c: string, d: string)
    ensures a + b + c + d == a + (b + (c + d)) == a + b + (c + d)
  {
  }

  lemma RegroupPair(a: string, b: string, c: string, d: string, e: string, f: string, g: string, h: string)
    ensures a + b + c + d + e + f + g + h == a + b + c + (d + (e + f + g + h))
  {
    Regroup(a + b + c, d, e, f);
    Regroup(a + b + c, d + (e + f), g, h);
    assert d + (e + f) + (g + h) == d + (e + f + g + h);
  }

  /** A block's command is read back, and the redirections come next. */
  lemma BlockBack(c: Cmd<string>, s: string, i: nat, rest: string) returns (t: Cmd<Span>, p: nat)
    requires Printable(c) && Line(s) && i <= |s| && s[i..] == "(" + Print(c) + ")" + rest
    requires rest != "" ==> !White(rest[0])
    ensures i < p <= |s| && s[p..] == rest && Text(s, t) == c && ExecAt(s, i) == RedirsAt(t, s, p)
    decreases c, 1
  {
    hide TokenAt, Skip, PeekAt, PipeAt, ExecAt, RedirsAt, LineAt, Line, Symbol, White, Print, Text;
    var inner := Print(c) + (")" + rest);
    Regroup("(", Print(c), ")", rest);
    SymbolFacts();
    PrintHead(c, ")" + rest);
    SymbolStop(s, i, '(', inner);
    t := LineBack(c, s, i + 1, ")" + rest);
    After(s, i + 1, Print(c), ")" + rest);
    var q := i + 1 + |Print(c)|;
    SymbolStop(s, q, ')', rest);
    p := q + 1;
    BlockStep(s, i, t, q);
  }

  lemma BlockStep(s: string, i: nat, t: Cmd<Span>, q: nat)
    requires Line(s) && i < |s| && Skip(s, i) == i && PeekAt(s, i, "(") && TokenAt(s, i).pos == i + 1
    requires LineAt(s, i + 1) == Ok(t, q) && q < |s| && PeekAt(s, q, ")") && TokenAt(s, q).pos == q + 1
    ensures ExecAt(s, i) == RedirsAt(t, s, q + 1)
  {
    hide TokenAt, Skip, PeekAt, LineAt, RedirsAt;
  }

  lemma SymbolFacts()
    ensures Symbol('(') && Symbol(')') && Symbol('<') && Symbol('|') && Symbol(';') && Symbol('&')
    ensures !White(')') && !White('(') && !White('<') && !White('|') && !White(';') && !White('&') && !White('>')
  {
  }

  /** No printed command starts with white space. */
  lemma PrintHead(c: Cmd<string>, post: string)
    requires Printable(c) && (post != "" ==> !White(post[0]))
    ensures Print(c) + post != "" ==> !White((Print(c) + post)[0])
  {
    if c.Exec? && c.argv != [] {
      assert PlainWord(c.argv[0]);
      assert Print(c)[0] == c.argv[0][0];
    }
  }

  /** The parser reads back what was printed. */
  lemma LineBack(c: Cmd<string>, s: string, i: nat, post: string) returns (t: Cmd<Span>)
    requires Printable(c) && Line(s) && i <= |s| && s[i..] == Print(c) + post && Ends(post)
    ensures LineAt(s, i) == Ok(t, |s| - |post|) && Text(s, t) == c
    decreases c, 0
  {
    match c
    case Exec(argv) => t := ExecBack(argv, s, i, post);
    case Redir(d, file, mode, fd) => t := RedirBack(c, s, i, post);
    case Pipe(l, r) => t := PairBack(c, s, i, post);
    case List(l, r) => t := PairBack(c, s, i, post);
    case Back(d) => t := BackBack(c, s, i, post);
  }

  lemma WordsNone(s: string)
    ensures Words(s, []) == []
  {
  }

  /** A command starts neither with a redirection nor with a parenthesis. */
  lemma ExecStart(argv: seq<string>, s: string, i: nat, post: string)
    requires PlainWords(argv) && Line(s) && i <= |s| && s[i..] == PrintWords(argv) + post && Ends(post)
    ensures Skip(s, i) == i && !PeekAt(s, i, "<>") && !PeekAt(s, i, "(")
  {
    hide Skip, PeekAt, TokenAt;
    if argv == [] {
      assert s[i..] == post;
      EndsStop(s, i, post);
      EndsOpen(s, i, post);
    } else {
      TailOk(argv, post);
      WordStop(s, i, argv[0], Tail(argv[1..], post));
    }
  }

  lemma ExecPlain(s: string, i: nat)
    requires Line(s) && i <= |s| && Skip(s, i) == i && !PeekAt(s, i, "<>") && !PeekAt(s, i, "(")
    ensures ExecAt(s, i) == ArgsAt(Exec([]), 0, s, i)
  {
    hide Skip, PeekAt, TokenAt, ArgsAt, RedirsAt;
    RedirsNone(s, i, Exec([]));
  }

  lemma ExecBack(argv: seq<string>, s: string, i: nat, post: string) returns (t: Cmd<Span>)
    requires Printable(Exec(argv)) && Line(s) && i <= |s| && s[i..] == PrintWords(argv) + post && Ends(post)
    ensures LineAt(s, i) == Ok(t, |s| - |post|) && Text(s, t) == Exec(argv)
  {
    hide TokenAt, Skip, PeekAt, ArgsAt, RedirsAt, LineAt, PipeAt, ExecAt, PrintWords, PlainWords, Ends, Words;
    ExecStart(argv, s, i, post);
    ExecPlain(s, i);
    ArgsBack(s, i, [], argv, post);
    var r := ArgsAt(Exec([]), 0, s, i);
    t := r.cmd;
    After(s, i, PrintWords(argv), post);
    WordsNone(s);
    assert [] + argv == argv;
    FinishLine(s, i, t, r.pos, post);
  }

  lemma EndsOpen(s: string, i: nat, post: string)
    requires i <= |s| && s[i..] == post && Ends(post)
    ensures !PeekAt(s, i, "(")
  {
    After(s, i, "", post);
  }

  lemma RedirBack(c: Cmd<string>, s: string, i: nat, post: string) returns (t: Cmd<Span>)
    requires c.Redir? && Printable(c) && Line(s) && i <= |s| && s[i..] == Print(c) + post && Ends(post)
    ensures LineAt(s, i) == Ok(t, |s| - |post|) && Text(s, t) == c
    decreases c.cmd, 2
  {
    hide TokenAt, Skip, PeekAt, LineAt, PipeAt, ExecAt, RedirsAt, Line, Word, Ends, PlainWord, White;
    var sym := if c.mode == O_RDONLY then '<' else '>';
    var rest := [sym] + c.file + post;
    Regroup("(" + Print(c.cmd) + ")", [sym], c.file, post);
    Regroup("", [sym], c.file, post);
    SymbolFacts();
    assert rest[0] == sym;
    var t1, p := BlockBack(c.cmd, s, i, rest);
    t := Redir(t1, Span(p + 1, p + 1 + |c.file|), c.mode, c.fd);
    RedirLine(s, i, t1, p, sym, c.file, post);
    assert Text(s, t) == Redir(c.cmd, c.file, c.mode, c.fd);
  }

  lemma RedirLine(s: string, i: nat, c: Cmd<Span>, p: nat, sym: char, file: string, post: string)
    requires Line(s) && i <= p <= |s| && s[p..] == [sym] + file + post && (sym == '<' || sym == '>') &&
             PlainWord(file) && Ends(post)
    requires ExecAt(s, i) == RedirsAt(c, s, p)
    ensures var w := Span(p + 1, p + 1 + |file|);
            Word(s, w) == file && LineAt(s, i) == Ok(Redir(c, w, ModeOf(sym), FdOf(sym)), |s| - |post|)
  {
    hide TokenAt, Skip, PeekAt, LineAt, PipeAt, ExecAt, RedirsAt, Line, Word, Ends, PlainWord;
    RedirToken(s, p, sym, file, post);
    var q := p + 1 + |file|;
    var t := Redir(c, Span(p + 1, q), ModeOf(sym), FdOf(sym));
    EndsStop(s, q, post);
    RedirsStep(s, p, c);
    RedirsNone(s, q, t);
    FinishLine(s, i, t, q, post);
  }

  lemma RedirsStep(s: string, p: nat, c: Cmd<Span>)
    requires Line(s) && p <= |s| && PeekAt(s, p, "<>") && Skip(s, p) == p
    requires TokenAt(s, TokenAt(s, p).pos).tok == 'a'
    ensures var t := TokenAt(s, p);
            var w := TokenAt(s, t.pos);
            RedirsAt(c, s, p) == RedirsAt(Redir(c, Span(w.q, w.e), ModeOf(t.tok), FdOf(t.tok)), s, w.pos)
  {
    hide TokenAt, Skip, PeekAt;
  }

  lemma PipeStep(s: string, i: nat, l: Cmd<Span>, p: nat, r: Cmd<Span>, q: nat)
    requires Line(s) && i <= p < |s| && ExecAt(s, i) == Ok(l, p) && PeekAt(s, p, "|") && TokenAt(s, p).pos == p + 1
    requires PipeAt(s, p + 1) == Ok(r, q) && q <= |s| && Skip(s, q) == q && !PeekAt(s, q, "&") && !PeekAt(s, q, ";")
    ensures LineAt(s, i) == Ok(Pipe(l, r), q)
  {
    hide TokenAt, Skip, PeekAt, ExecAt;
  }

  lemma ListStep(s: string, i: nat, l: Cmd<Span>, p: nat, r: Cmd<Span>, q: nat)
    requires Line(s) && i <= p < |s| && ExecAt(s, i) == Ok(l, p) && Skip(s, p) == p && TokenAt(s, p).pos == p + 1
    requires !PeekAt(s, p, "|") && !PeekAt(s, p, "&") && PeekAt(s, p, ";") && LineAt(s, p + 1) == Ok(r, q)
    ensures LineAt(s, i) == Ok(List(l, r), q)
  {
    hide TokenAt, Skip, PeekAt, ExecAt;
    assert BacksAt(l, s, p) == (l, p);
  }

  lemma BackStep(s: string, i: nat, c: Cmd<Span>, p: nat)
    requires Line(s) && i <= p < |s| && ExecAt(s, i) == Ok(c, p) && Skip(s, p) == p && TokenAt(s, p).pos == p + 1
    requires !PeekAt(s, p, "|") && PeekAt(s, p, "&")
    requires Skip(s, p + 1) == p + 1 && !PeekAt(s, p + 1, "&") && !PeekAt(s, p + 1, ";")
    ensures LineAt(s, i) == Ok(Back(c), p + 1)
  {
    hide TokenAt, Skip, PeekAt, ExecAt;
    assert BacksAt(Back(c), s, p + 1) == (Back(c), p + 1);
    assert BacksAt(c, s, p) == (Back(c), p + 1);
  }

  lemma AngleToken(s: string, p: nat, sym: char, rest: string)
    requires Line(s) && p <= |s| && s[p..] == [sym] + rest && (sym == '<' || sym == '>') && rest != "" && Plain(rest[0])
    ensures PeekAt(s, p, "<>") && Skip(s, p) == p && TokenAt(s, p) == Token(sym, p, p + 1, p + 1)
  {
    After(s, p, [sym], rest);
    assert Ch(s, p) == sym && Ch(s, p + 1) == rest[0];
  }

  lemma EndsNotPlain(post: string)
    requires Ends(post)
    ensures post != "" ==> !Plain(post[0]) && post[0] != '\0'
  {
  }

  lemma RedirSymbol(s: string, p: nat, sym: char, file: string, post: string)
    requires Line(s) && p <= |s| && s[p..] == [sym] + (file + post) && (sym == '<' || sym == '>') && PlainWord(file)
    ensures PeekAt(s, p, "<>") && Skip(s, p) == p && TokenAt(s, p) == Token(sym, p, p + 1, p + 1)
  {
    hide TokenAt, Skip, PeekAt, Line, Plain;
    assert (file + post)[0] == file[0];
    AngleToken(s, p, sym, file + post);
  }

  lemma RedirWord(s: string, p: nat, file: string, post: string)
    requires Line(s) && p <= |s| && s[p..] == file + post && PlainWord(file) && Ends(post)
    ensures var q := p + |file|;
            q <= |s| && TokenAt(s, p) == Token('a', p, q, q) && s[q..] == post && Word(s, Span(p, q)) == file
  {
    hide Word, WordEnd, TokenAt, Skip, PeekAt, Line, Ends, PlainWord;
    EndsNotPlain(post);
    WordToken(s, p, file, post);
    After(s, p, file, post);
    EndsStop(s, p + |file|, post);
  }

  lemma RedirToken(s: string, p: nat, sym: char, file: string, post: string)
    requires Line(s) && p <= |s| && s[p..] == [sym] + file + post && (sym == '<' || sym == '>') && PlainWord(file) &&
             Ends(post)
    ensures PeekAt(s, p, "<>") && Skip(s, p) == p && TokenAt(s, p) == Token(sym, p, p + 1, p + 1)
    ensures var q := p + 1 + |file|;
            q <= |s| && TokenAt(s, p + 1) == Token('a', p + 1, q, q) && s[q..] == post &&
                Word(s, Span(p + 1, q)) == file
  {
    hide Word, TokenAt, Skip, PeekAt, Line, Ends, PlainWord;
    assert s[p..] == [sym] + (file + post);
    RedirSymbol(s, p, sym, file, post);
    After(s, p, [sym], file + post);
    RedirWord(s, p + 1, file, post);
  }

  lemma PrintPair(c: Cmd<string>, post: string)
    requires c.Pipe? || c.List?
    ensures Print(c) + post ==
              "(" + Print(c.left) + ")" + ([if c.Pipe? then '|' else ';'] + ("(" + Print(c.right) + ")" + post))
  {
    RegroupPair("(", Print(c.left), ")", [if c.Pipe? then '|' else ';'], "(", Print(c.right), ")", post);
  }

  lemma PairBack(c: Cmd<string>, s: string, i: nat, post: string) returns (t: Cmd<Span>)
    requires (c.Pipe? || c.List?) && Printable(c) && Line(s) && i <= |s| && s[i..] == Print(c) + post && Ends(post)
    ensures LineAt(s, i) == Ok(t, |s| - |post|) && Text(s, t) == c
    decreases c, -1
  {
    hide TokenAt, Skip, PeekAt, RedirsAt, ExecAt, PipeAt, LineAt, Line, Print, Symbol, White;
    var sym := if c.Pipe? then '|' else ';';
    SymbolFacts();
    var right := "(" + Print(c.right) + ")" + post;
    PrintPair(c, post);
    assert right[0] == '(' && ([sym] + right)[0] == sym;
    var t1, p := BlockBack(c.left, s, i, [sym] + right);
    SymbolStop(s, p, sym, right);
    RedirsNone(s, p, t1);
    var t2, q := BlockBack(c.right, s, p + 1, post);
    EndsStop(s, q, post);
    RedirsNone(s, q, t2);
    FinishLine(s, p + 1, t2, q, post);
    if c.Pipe? {
      PipeStep(s, i, t1, p, t2, q);
      t := Pipe(t1, t2);
    } else {
      ListStep(s, i, t1, p, t2, q);
      t := List(t1, t2);
    }
  }

  lemma BackBack(c: Cmd<string>, s: string, i: nat, post: string) returns (t: Cmd<Span>)
    requires c.Back? && Printable(c) && Line(s) && i <= |s| && s[i..] == Print(c) + post && Ends(post)
    ensures LineAt(s, i) == Ok(t, |s| - |post|) && Text(s, t) == c
    decreases c, -1
  {
    hide TokenAt, Skip, PeekAt, RedirsAt, ExecAt, PipeAt, LineAt, Line;
    SymbolFacts();
    Regroup("(" + Print(c.cmd) + ")", "", "&", post);
    assert "(" + Print(c.cmd) + ")" + "" == "(" + Print(c.cmd) + ")";
    var t1, p := BlockBack(c.cmd, s, i, ['&'] + post);
    SymbolStop(s, p, '&', post);
    RedirsNone(s, p, t1);
    EndsStop(s, p + 1, post);
    BackStep(s, i, t1, p);
    t := Back(t1);
  }

  /** Parsing undoes printing. */
  lemma RoundTrip(c: Cmd<string>)
    requires Printable(c)
    ensures Line(Print(c)) && Parse(Print(c)).Ok? && Text(Print(c), Parse(Print(c)).cmd) == c
  {
    PrintLine(c);
    var s := Print(c);
    assert s[0..] == Print(c) + "";
    var t := LineBack(c, s, 0, "");
  }

  lemma {:induction false} PrintLine(c: Cmd<string>)
    requires Printable(c)
    ensures Line(Print(c))
    decreases c
  {
    match c
    case Exec(argv) => PrintWordsLine(argv);
    case Redir(d, _, _, _) => PrintLine(d);
    case Pipe(l, r) => PrintLine(l); PrintLine(r);
    case List(l, r) => PrintLine(l); PrintLine(r);
    case Back(d) => PrintLine(d);
  }

  lemma {:induction false} PrintWordsLine(ws: seq<string>)
    requires PlainWords(ws)
    ensures Line(PrintWords(ws))
  {
    if ws != [] {
      assert PlainWord(ws[0]);
      PrintWordsLine(ws[1..]);
    }
  }
}
