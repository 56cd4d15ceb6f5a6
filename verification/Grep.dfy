/** grep.c: the matcher, against what a pattern means. Strings are without their NUL. */
module Grep {
  /** match. */
  predicate MatchAt(re: string, text: string)
  {
    if re != "" && re[0] == '^' then HereAt(re[1..], text) else AnyAt(re, text)
  }

  /** match's loop: the pattern at this or a later place, the end included. */
  predicate AnyAt(re: string, text: string)
    decreases |text|
  {
    HereAt(re, text) || (text != "" && AnyAt(re, text[1..]))
  }

  /** matchhere. */
  predicate HereAt(re: string, text: string)
    decreases |re|, |text|, 0
  {
    if re == "" then true
    else if |re| > 1 && re[1] == '*' then StarAt(re[0], re[2..], text)
    else if re == "$" then text == ""
    else text != "" && (re[0] == '.' || re[0] == text[0]) && HereAt(re[1..], text[1..])
  }

  /** matchstar. */
  predicate StarAt(c: char, re: string, text: string)
    decreases |re|, |text|, 1
  {
    HereAt(re, text) || (text != "" && (text[0] == c || c == '.') && StarAt(c, re, text[1..]))
  }

  method Match(re: string, text: string) returns (r: bool)
    ensures r == MatchAt(re, text)
  {
    if re != "" && re[0] == '^' {
      r := Matchhere(re[1..], text);
      return;
    }
    var t := text;
    while true                               // also tried at the end of the text
      invariant AnyAt(re, t) == AnyAt(re, text)
      decreases |t|
    {
      r := Matchhere(re, t);
      if r || t == "" { return; }
      t := t[1..];
    }
  }

  method Matchhere(re: string, text: string) returns (r: bool)
    ensures r == HereAt(re, text)
    decreases |re|, |text|, 0
  {
    if re == "" { return true; }
    if |re| > 1 && re[1] == '*' {
      r := Matchstar(re[0], re[2..], text);
      return;
    }
    if re[0] == '$' && |re| == 1 { return text == ""; }
    if text != "" && (re[0] == '.' || re[0] == text[0]) {
      r := Matchhere(re[1..], text[1..]);
      return;
    }
    return false;
  }

  method Matchstar(c: char, re: string, text: string) returns (r: bool)
    ensures r == StarAt(c, re, text)
    decreases |re|, |text|, 1
  {
    var t := text;
    while true                               // first with no c at all, then one more each turn
      invariant |t| <= |text| && StarAt(c, re, t) == StarAt(c, re, text)
      decreases |t|
    {
      r := Matchhere(re, t);
      if r || t == "" { return; }
      var x := t[0];
      t := t[1..];
      if !(x == c || c == '.') { return false; }
    }
  }

  // ---- what a pattern means ----

  /** A pattern is a row of items. ^ is special only in front, $ only as the last item,
      and * only after another character, whatever that is. */
  datatype Item = One(c: char) | Star(c: char)

  datatype Pattern = Pattern(start: bool, items: seq<Item>, end: bool)

  function Items(re: string): (seq<Item>, bool)
    decreases |re|
  {
    if re == "" then ([], false)
    else if |re| > 1 && re[1] == '*' then
      var (items, end) := Items(re[2..]);
      ([Star(re[0])] + items, end)
    else if re == "$" then ([], true)
    else
      var (items, end) := Items(re[1..]);
      ([One(re[0])] + items, end)
  }

  function PatternOf(re: string): Pattern
  {
    var start := re != "" && re[0] == '^';
    var (items, end) := Items(if start then re[1..] else re);
    Pattern(start, items, end)
  }

  predicate CharOk(c: char, x: char) { c == '.' || c == x }

  /** The pieces of text an item stands for. */
  predicate Fits(item: Item, piece: string)
  {
    match item
    case One(c) => |piece| == 1 && CharOk(c, piece[0])
    case Star(c) => forall k | 0 <= k < |piece| :: CharOk(c, piece[k])
  }

  predicate FitAll(items: seq<Item>, pieces: seq<string>)
  {
    |pieces| == |items| && forall k | 0 <= k < |items| :: Fits(items[k], pieces[k])
  }

  function Flat(pieces: seq<string>): string
  {
    if pieces == [] then "" else pieces[0] + Flat(pieces[1..])
  }

  /** A way to read text: something before, a piece for each item, something after. */
  datatype Split = Split(before: string, pieces: seq<string>, after: string)

  predicate Reads(p: Pattern, text: string, w: Split)
  {
    && text == w.before + Flat(w.pieces) + w.after && FitAll(p.items, w.pieces)
    && (p.start ==> w.before == "") && (p.end ==> w.after == "")
  }

  /** match answers yes exactly if the text can be read as the pattern says. */
  lemma MatchMeaning(re: string, text: string)
    ensures MatchAt(re, text) <==> exists w :: Reads(PatternOf(re), text, w)
  {
    if MatchAt(re, text) {
      var w := MatchReads(re, text);
    }
    forall w | Reads(PatternOf(re), text, w) ensures MatchAt(re, text) {
      ReadsMatch(re, text, w);
    }
  }

  lemma MatchReads(re: string, text: string) returns (w: Split)
    requires MatchAt(re, text)
    ensures Reads(PatternOf(re), text, w)
  {
    if re != "" && re[0] == '^' {
      w := HereReads(re[1..], text);
    } else {
      w := AnyReads(re, text);
    }
  }

  lemma AnyReads(re: string, text: string) returns (w: Split)
    requires AnyAt(re, text)
    ensures Reads(Pattern(false, Items(re).0, Items(re).1), text, w)
    decreases |text|
  {
    if HereAt(re, text) {
      w := HereReads(re, text);
    } else {
      var v := AnyReads(re, text[1..]);
      w := Split([text[0]] + v.before, v.pieces, v.after);
      assert text == [text[0]] + text[1..];
      Assoc([text[0]], v.before, Flat(v.pieces), v.after);
    }
  }

  lemma Assoc(a: string, b: string, c: string, d: string)
    ensures a + (b + c + d) == a + b + c + d
  {
  }

  lemma FitCons(item: Item, piece: string, items: seq<Item>, pieces: seq<string>)
    requires Fits(item, piece) && FitAll(items, pieces)
    ensures FitAll([item] + items, [piece] + pieces) && Flat([piece] + pieces) == piece + Flat(pieces)
  {
    assert ([piece] + pieces)[1..] == pieces;
  }

  lemma HereReads(re: string, text: string) returns (w: Split)
    requires HereAt(re, text)
    ensures w.before == "" && Reads(Pattern(true, Items(re).0, Items(re).1), text, w)
    decreases |re|, |text|, 0
  {
    if re == "" {
      w := Split("", [], text);
    } else if |re| > 1 && re[1] == '*' {
      w := StarReads(re[0], re[2..], text);
    } else if re == "$" {
      w := Split("", [], "");
    } else {
      var v := HereReads(re[1..], text[1..]);
      w := Split("", [[text[0]]] + v.pieces, v.after);
      FitCons(One(re[0]), [text[0]], Items(re[1..]).0, v.pieces);
      Front([text[0]], text[1..], v);
      assert text == [text[0]] + text[1..];
    }
  }

  /** One more character in front. */
  lemma Front(a: string, text: string, v: Split)
    requires text == v.before + Flat(v.pieces) + v.after && v.before == ""
    ensures a + text == "" + (a + Flat(v.pieces)) + v.after
  {
    Assoc("", a, Flat(v.pieces), v.after);
    Assoc(a, v.before, Flat(v.pieces), v.after);
  }

  lemma StarReads(c: char, re: string, text: string) returns (w: Split)
    requires StarAt(c, re, text)
    ensures w.before == "" && Reads(Pattern(true, [Star(c)] + Items(re).0, Items(re).1), text, w) && w.pieces != []
    decreases |re|, |text|, 1
  {
    if HereAt(re, text) {
      var v := HereReads(re, text);
      w := Split("", [""] + v.pieces, v.after);
      FitCons(Star(c), "", Items(re).0, v.pieces);
    } else {
      var v := StarReads(c, re, text[1..]);
      var first, others := [text[0]] + v.pieces[0], v.pieces[1..];
      w := Split("", [first] + others, v.after);
      assert v.pieces == [v.pieces[0]] + others;
      assert FitAll(Items(re).0, others) && Fits(Star(c), v.pieces[0]) by {
        assert ([Star(c)] + Items(re).0)[1..] == Items(re).0;
        assert forall k {:trigger others[k]} | 0 <= k < |others| :: Fits(([Star(c)] + Items(re).0)[k + 1],
            v.pieces[k + 1]);
      }
      FitCons(Star(c), first, Items(re).0, others);
      Front([text[0]], text[1..], v);
      assert text == [text[0]] + text[1..];
      assert [text[0]] + Flat(v.pieces) == first + Flat(others);
    }
  }

  lemma ReadsMatch(re: string, text: string, w: Split)
    requires Reads(PatternOf(re), text, w)
    ensures MatchAt(re, text)
  {
    if re != "" && re[0] == '^' {
      ReadsHere(re[1..], text, w);
    } else {
      ReadsAny(re, text, w);
    }
  }

  lemma {:induction false} ReadsAny(re: string, text: string, w: Split)
    requires Reads(Pattern(false, Items(re).0, Items(re).1), text, w)
    ensures AnyAt(re, text)
    decreases |w.before|
  {
    if w.before == "" {
      ReadsHere(re, text, w);
    } else {
      Assoc(w.before[..1], w.before[1..], Flat(w.pieces), w.after);
      assert w.before == w.before[..1] + w.before[1..];
      assert text[1..] == w.before[1..] + Flat(w.pieces) + w.after;
      ReadsAny(re, text[1..], w.(before := w.before[1..]));
    }
  }

  lemma {:induction false} ReadsHere(re: string, text: string, w: Split)
    requires w.before == "" && Reads(Pattern(true, Items(re).0, Items(re).1), text, w)
    ensures HereAt(re, text)
    decreases |re|, |text|, 0
  {
    if re == "" || re == "$" {
    } else {
      var first, others := w.pieces[0], w.pieces[1..];
      var step := if |re| > 1 && re[1] == '*' then 2 else 1;
      assert FitAll(Items(re[step..]).0, others) by {
        assert forall k | 0 <= k < |others| ::
            others[k] == w.pieces[k + 1] && Items(re).0[k + 1] == Items(re[step..]).0[k];
      }
      assert Fits(Items(re).0[0], first);
      assert text == first + (Flat(others) + w.after);
      var v := Split("", others, w.after);
      assert Flat(others) + w.after == "" + Flat(others) + w.after;
      if step == 2 {
        ReadsStar(re[0], re[2..], text, first, v);
      } else {
        assert text[1..] == Flat(others) + w.after;
        ReadsHere(re[1..], text[1..], v);
      }
    }
  }

  lemma {:induction false} ReadsStar(c: char, re: string, text: string, first: string, v: Split)
    requires Fits(Star(c), first) && text == first + (Flat(v.pieces) + v.after)
    requires v.before == "" && Reads(Pattern(true, Items(re).0, Items(re).1), Flat(v.pieces) + v.after, v)
    ensures StarAt(c, re, text)
    decreases |re|, |text|, 1
  {
    if first == "" {
      ReadsHere(re, text, v);
    } else {
      assert text[0] == first[0] && text[1..] == first[1..] + (Flat(v.pieces) + v.after);
      ReadsStar(c, re, text[1..], first[1..], v);
    }
  }
}
