/** Command trees and their fully bracketed text, which derives them. */
module ShellRoundTrip {
  import opened Basics
  import opened ShellLex
  import opened ShellParse
  import opened ShellGrammar

  /** A word that runs to its end without a space or a symbol. */
  predicate PlainWord(w: string) { |w| > 0 && WordEnd(w, 0) == |w| }

  predicate PlainWords(ws: seq<string>) { ws == [] || (PlainWord(ws[0]) && PlainWords(ws[1..])) }

  /** A tree the shell can hold: plain words, and fewer than MAXARGS of them. */
  predicate Holdable(t: Tree) {
    match t
    case TExec(args) => |args| < MAXARGS && PlainWords(args)
    case TRedir(c, _, f) => Holdable(c) && PlainWord(f)
    case TPipe(l, r) => Holdable(l) && Holdable(r)
    case TList(l, r) => Holdable(l) && Holdable(r)
    case TBack(c) => Holdable(c)
  }

  // ---- the printer ----

  function Words(args: seq<string>): seq<Token> {
    if args == [] then [] else [Word(args[0])] + Words(args[1..])
  }

  function Paren(t: Tree): seq<Token>
    decreases t, 1
  {
    [Sym('(')] + Toks(t) + [Sym(')')]
  }

  function Toks(t: Tree): seq<Token>
    decreases t, 0
  {
    match t
    case TExec(args) => Words(args)
    case TRedir(c, out, f) => Paren(c) + [Sym(if out then '>' else '<'), Word(f)]
    case TPipe(l, r) => Paren(l) + [Sym('|')] + Paren(r)
    case TList(l, r) => Paren(l) + [Sym(';')] + Paren(r)
    case TBack(c) => Paren(c) + [Sym('&')]
  }

  function Text(t: Token): string {
    match t case Sym(c) => [c] case Append => ">>" case Word(w) => w
  }

  /** The tokens with a space after each. */
  function Render(ts: seq<Token>): string {
    if ts == [] then "" else Text(ts[0]) + " " + Render(ts[1..])
  }

  predicate TokensOk(ts: seq<Token>) { ts == [] || (TokenOk(ts[0]) && TokensOk(ts[1..])) }

  predicate TokenOk(t: Token) {
    match t case Sym(c) => Symbol(c) case Append => true case Word(w) => PlainWord(w)
  }

  /** From position p on, s is the rendered tokens. */
  predicate RenderedAt(s: string, p: nat, ts: seq<Token>)
    decreases |ts|
  {
    if ts == [] then p == |s|
    else var e := p + |Text(ts[0])|; e < |s| && s[p..e] == Text(ts[0]) && s[e] == ' ' && RenderedAt(s, e + 1, ts[1..])
  }

  lemma {:induction false} RenderIs(s: string, p: nat, ts: seq<Token>)
    requires p <= |s| && s[p..] == Render(ts)
    ensures RenderedAt(s, p, ts)
    decreases |ts|
  {
    if ts != [] {
      RenderedHere(s, p, Text(ts[0]), Render(ts[1..]));
      RenderIs(s, p + |Text(ts[0])| + 1, ts[1..]);
    }
  }

  lemma RenderedHere(s: string, p: nat, w: string, tail: string)
    requires p <= |s| && s[p..] == w + " " + tail
    ensures var e := p + |w|; e < |s| && s[p..e] == w && s[e] == ' ' && s[e + 1..] == tail
  {
    var e := p + |w|;
    assert s[e] == s[p..][|w|];
    assert s[p..e] == s[p..][..|w|];
    assert s[e + 1..] == s[p..][|w| + 1..];
  }

  /** Lexing undoes rendering. */
  lemma {:induction false} LexRendered(s: string, p: nat, ts: seq<Token>)
    requires p <= |s| && TokensOk(ts) && RenderedAt(s, p, ts)
    ensures Lex(s, p) == ts
    decreases |ts|
  {
    if ts != [] {
      var t, more := ts[0], ts[1..];
      var e := p + |Text(t)|;
      NotSpace(s, e + 1, more);
      LexRendered(s, e + 1, more);
      LexOne(s, p, t, e, more);
      assert [t] + more == ts;
    }
  }

  lemma LexOne(s: string, p: nat, t: Token, e: nat, more: seq<Token>)
    requires TokenOk(t) && e == p + |Text(t)| < |s| && s[p..e] == Text(t) && s[e] == ' ' && (e + 1 < |s| ==> !Ws(s[e + 1]))
    requires Lex(s, e + 1) == more
    ensures Lex(s, p) == [t] + more
  {
    TokenAt(s, p, t, e);
    LexHead(s, p);
  }

  lemma LexRender(ts: seq<Token>)
    requires TokensOk(ts)
    ensures Lex(Render(ts), 0) == ts
  {
    RenderIs(Render(ts), 0, ts);
    LexRendered(Render(ts), 0, ts);
  }

  /** Rendered text begins with a token, not a space. */
  lemma NotSpace(s: string, p: nat, ts: seq<Token>)
    requires p <= |s| && TokensOk(ts) && RenderedAt(s, p, ts)
    ensures p < |s| ==> !Ws(s[p])
  {
    if ts != [] {
      assert s[p] == Text(ts[0])[0];
    }
  }

  lemma TokenAt(s: string, p: nat, t: Token, e: nat)
    requires TokenOk(t) && e == p + |Text(t)| < |s| && s[p..e] == Text(t) && s[e] == ' ' && (e + 1 < |s| ==> !Ws(s[e + 1]))
    ensures Get(s, p).tok == Some(t) && Get(s, p).next == e + 1
  {
    assert s[p] == Text(t)[0] && (t.Append? ==> s[p + 1] == Text(t)[1]);
    if t.Word? {
      WordPlain(t.w, 0);
      assert forall k | p <= k < e :: s[k] == s[p..e][k - p];
      WordStops(s, p, e);
    }
    GetAt(s, p, t, e);
  }

  /** A token and one space after it. */
  lemma GetAt(s: string, p: nat, t: Token, e: nat)
    requires p < e < |s| && s[e] == ' ' && (e + 1 < |s| ==> !Ws(s[e + 1]))
    requires t.Sym? ==> e == p + 1 && s[p] == t.c && Symbol(t.c)
    requires t.Append? ==> e == p + 2 && s[p] == s[p + 1] == '>'
    requires t.Word? ==> Plain(s[p]) && WordEnd(s, p) == e && s[p..e] == t.w
    ensures Get(s, p).tok == Some(t) && Get(s, p).next == e + 1
  {
    assert Skip(s, p) == p && Skip(s, e + 1) == e + 1;
    assert Skip(s, e) == e + 1;
  }

  lemma {:induction false} WordStops(s: string, p: nat, e: nat)
    requires p <= e < |s| && !Plain(s[e]) && forall k | p <= k < e :: Plain(s[k])
    ensures WordEnd(s, p) == e
    decreases e - p
  {
    if p < e {
      WordStops(s, p + 1, e);
    }
  }

  // ---- the bracketed text derives its tree ----

  function PlainArgs(ws: seq<string>): (args: seq<Arg>)
    ensures |args| == |ws|
  {
    if ws == [] then [] else [Arg(ws[0], [])] + PlainArgs(ws[1..])
  }

  function Bracket(t: Tree): DCmd
    decreases t, 1
  {
    DBlock(Derivation(t), [])
  }

  function Derivation(t: Tree): DLine
    decreases t, 0
  {
    match t
    case TExec(args) => DLast(DOne(DPlain([], PlainArgs(args))), 0)
    case TRedir(c, out, f) => DLast(DOne(DBlock(Derivation(c), [File(Sym(if out then '>' else '<'), f)])), 0)
    case TPipe(l, r) => DLast(DBar(Bracket(l), DOne(Bracket(r))), 0)
    case TList(l, r) => DSeq(DOne(Bracket(l)), 0, DLast(DOne(Bracket(r)), 0))
    case TBack(c) => DLast(DOne(Bracket(c)), 1)
  }

  lemma {:induction false} PlainArgsMean(ws: seq<string>, rest: seq<Token>)
    ensures ArgsT(PlainArgs(ws), rest) == Words(ws) + rest
    ensures ArgWords(PlainArgs(ws)) == ws && ArgFiles(PlainArgs(ws)) == [] && ArgsOk(PlainArgs(ws))
    decreases |ws|
  {
    if ws == [] {
      assert Words(ws) + rest == rest;
    } else {
      PlainArgsMean(ws[1..], rest);
      ArgsCons(Arg(ws[0], []), PlainArgs(ws[1..]), rest);
      ConsAppend(Word(ws[0]), Words(ws[1..]), rest);
      assert [ws[0]] + ws[1..] == ws;
    }
  }

  lemma ConsAppend<T>(x: T, a: seq<T>, b: seq<T>)
    ensures [x] + a + b == [x] + (a + b)
  {
  }

  lemma Infix<T>(a: seq<T>, x: T, b: seq<T>, c: seq<T>)
    ensures a + [x] + b + c == a + ([x] + (b + c))
  {
  }

  lemma ParenToks(t: Tree, rest: seq<Token>)
    requires LineT(Derivation(t), [Sym(')')] + rest) == Toks(t) + ([Sym(')')] + rest)
    ensures CmdT(Bracket(t), rest) == Paren(t) + rest
  {
    ConsAppend(Sym('('), Toks(t) + [Sym(')')], rest);
    assert Toks(t) + [Sym(')')] + rest == Toks(t) + ([Sym(')')] + rest);
    assert Paren(t) == [Sym('(')] + (Toks(t) + [Sym(')')]);
  }

  /** A line that is one command. */
  lemma OneCommand(c: DCmd, rest: seq<Token>)
    ensures LineT(DLast(DOne(c), 0), rest) == CmdT(c, rest)
    ensures LineTree(DLast(DOne(c), 0)) == CmdTree(c) && (LineOk(DLast(DOne(c), 0)) <==> CmdOk(c))
  {
  }

  lemma TwoPiped(c: DCmd, e: DCmd, rest: seq<Token>)
    ensures LineT(DLast(DBar(c, DOne(e)), 0), rest) == CmdT(c, [Sym('|')] + CmdT(e, rest))
    ensures LineTree(DLast(DBar(c, DOne(e)), 0)) == TPipe(CmdTree(c), CmdTree(e))
    ensures LineOk(DLast(DBar(c, DOne(e)), 0)) <==> CmdOk(c) && CmdOk(e)
  {
    assert PipeT(DOne(e), rest) == CmdT(e, rest);
    assert PipeOk(DOne(e)) == CmdOk(e) && PipeTree(DOne(e)) == CmdTree(e);
  }

  lemma TwoListed(c: DCmd, e: DCmd, rest: seq<Token>)
    ensures LineT(DSeq(DOne(c), 0, DLast(DOne(e), 0)), rest) == CmdT(c, [Sym(';')] + CmdT(e, rest))
    ensures LineTree(DSeq(DOne(c), 0, DLast(DOne(e), 0))) == TList(CmdTree(c), CmdTree(e))
    ensures LineOk(DSeq(DOne(c), 0, DLast(DOne(e), 0))) <==> CmdOk(c) && CmdOk(e)
  {
    OneCommand(e, rest);
  }

  lemma OneFile(t: Tree, f: File)
    requires FileOp(f.op)
    ensures WrapT(t, [f]) == TRedir(t, f.op != Sym('<'), f.name) && FilesOk([f])
  {
    assert [f][..0] == [] && [f][1..] == [];
  }

  /** The derivation has the tokens of the bracketed text, stands for the tree, and is one
      the grammar admits if the tree can be held. */
  lemma {:induction false} DerivationToks(t: Tree, rest: seq<Token>)
    ensures LineT(Derivation(t), rest) == Toks(t) + rest
    decreases t
  {
    match t
    case TExec(args) =>
      var c := DPlain([], PlainArgs(args));
      PlainArgsMean(args, rest);
      OneCommand(c, rest);
      assert CmdT(c, rest) == ArgsT(PlainArgs(args), rest);
    case TRedir(c, out, f) =>
      var op := Sym(if out then '>' else '<');
      var more := [op] + ([Word(f)] + rest);
      DerivationToks(c, [Sym(')')] + more);
      ParenToks(c, more);
      FilesCons(File(op, f), [], rest);
      assert [File(op, f)] + [] == [File(op, f)];
      OneCommand(DBlock(Derivation(c), [File(op, f)]), rest);
      assert CmdT(DBlock(Derivation(c), [File(op, f)]), rest) == CmdT(Bracket(c), more);
      assert Paren(c) + [op, Word(f)] + rest == Paren(c) + more;
    case TPipe(l, r) =>
      DerivationToks(r, [Sym(')')] + rest);
      ParenToks(r, rest);
      DerivationToks(l, [Sym(')')] + ([Sym('|')] + (Paren(r) + rest)));
      ParenToks(l, [Sym('|')] + (Paren(r) + rest));
      TwoPiped(Bracket(l), Bracket(r), rest);
      Infix(Paren(l), Sym('|'), Paren(r), rest);
    case TList(l, r) =>
      DerivationToks(r, [Sym(')')] + rest);
      ParenToks(r, rest);
      DerivationToks(l, [Sym(')')] + ([Sym(';')] + (Paren(r) + rest)));
      ParenToks(l, [Sym(';')] + (Paren(r) + rest));
      TwoListed(Bracket(l), Bracket(r), rest);
      Infix(Paren(l), Sym(';'), Paren(r), rest);
    case TBack(c) =>
      DerivationToks(c, [Sym(')')] + ([Sym('&')] + rest));
      ParenToks(c, [Sym('&')] + rest);
      AmpsCons(c, 0, rest);
      assert Paren(c) + [Sym('&')] + rest == Paren(c) + ([Sym('&')] + rest);
  }

  lemma {:induction false} DerivationTree(t: Tree)
    requires Holdable(t)
    ensures LineTree(Derivation(t)) == t && LineOk(Derivation(t))
  {
    match t
    case TExec(args) =>
      var c := DPlain([], PlainArgs(args));
      PlainArgsMean(args, []);
      assert [] + ArgFiles(PlainArgs(args)) == [];
      OneCommand(c, []);
      assert CmdTree(c) == TExec(args);
    case TRedir(c, out, f) =>
      var file := File(Sym(if out then '>' else '<'), f);
      DerivationTree(c);
      OneFile(c, file);
      OneCommand(DBlock(Derivation(c), [file]), []);
    case TPipe(l, r) =>
      DerivationTree(l);
      DerivationTree(r);
      TwoPiped(Bracket(l), Bracket(r), []);
    case TList(l, r) =>
      DerivationTree(l);
      DerivationTree(r);
      TwoListed(Bracket(l), Bracket(r), []);
    case TBack(c) =>
      DerivationTree(c);
      OneCommand(Bracket(c), []);
      AmpsCons(c, 0, []);
      assert PipeTree(DOne(Bracket(c))) == c;
  }
}
