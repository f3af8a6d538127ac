/** parsecmd: the whole command line, and its words cut into C strings in place. */
module Shell {
  import opened Basics
  import opened ShellLex
  import opened ShellParse
  import opened ShellGrammar
  import opened ShellRoundTrip

  // ---- printing and parsing ----

  lemma {:induction false} TokensOkTwo(a: seq<Token>, b: seq<Token>)
    requires TokensOk(a) && TokensOk(b)
    ensures TokensOk(a + b)
    decreases |a|
  {
    if a == [] {
      assert a + b == b;
    } else {
      assert (a + b)[1..] == a[1..] + b;
      TokensOkTwo(a[1..], b);
    }
  }

  lemma {:induction false} WordsOk(ws: seq<string>)
    requires PlainWords(ws)
    ensures TokensOk(Words(ws))
    decreases |ws|
  {
    if ws != [] {
      WordsOk(ws[1..]);
      assert Words(ws)[1..] == Words(ws[1..]);
    }
  }

  lemma OneOk(t: Token)
    requires TokenOk(t)
    ensures TokensOk([t])
  {
    assert [t][1..] == [];
  }

  lemma ParenOk(t: Tree)
    requires TokensOk(Toks(t))
    ensures TokensOk(Paren(t))
  {
    OneOk(Sym('('));
    OneOk(Sym(')'));
    TokensOkTwo([Sym('(')], Toks(t));
    TokensOkTwo([Sym('(')] + Toks(t), [Sym(')')]);
  }

  lemma InfixOk(a: seq<Token>, c: char, b: seq<Token>)
    requires TokensOk(a) && TokensOk(b) && Symbol(c)
    ensures TokensOk(a + [Sym(c)] + b)
  {
    OneOk(Sym(c));
    TokensOkTwo(a, [Sym(c)]);
    TokensOkTwo(a + [Sym(c)], b);
  }

  lemma {:induction false} ToksOk(t: Tree)
    requires Holdable(t)
    ensures TokensOk(Toks(t))
  {
    match t
    case TExec(args) =>
      WordsOk(args);
    case TRedir(c, out, f) =>
      ToksOk(c);
      ParenOk(c);
      OneOk(Word(f));
      var op := if out then '>' else '<';
      InfixOk(Paren(c), op, [Word(f)]);
      assert Paren(c) + [Sym(op)] + [Word(f)] == Paren(c) + [Sym(op), Word(f)];
    case TPipe(l, r) =>
      ToksOk(l);
      ToksOk(r);
      ParenOk(l);
      ParenOk(r);
      InfixOk(Paren(l), '|', Paren(r));
    case TList(l, r) =>
      ToksOk(l);
      ToksOk(r);
      ParenOk(l);
      ParenOk(r);
      InfixOk(Paren(l), ';', Paren(r));
    case TBack(c) =>
      ToksOk(c);
      ParenOk(c);
      InfixOk(Paren(c), '&', []);
      assert Paren(c) + [Sym('&')] + [] == Paren(c) + [Sym('&')];
  }

  /** Any text whose tokens are those of the bracketed tree, however spaced, parses to
      the tree and leaves nothing over. */
  lemma ParsesText(s: string, t: Tree)
    requires Holdable(t) && Lex(s, 0) == Toks(t)
    ensures ParsesTo(s, t)
  {
    DerivationToks(t, []);
    DerivationTree(t);
    assert Toks(t) + [] == Toks(t);
    ParsesExactly(s, t);
  }

  /** Printing a tree and parsing the text gives the tree back. */
  lemma RoundTrip(t: Tree)
    requires Holdable(t)
    ensures ParsesTo(Render(Toks(t)), t)
  {
    ToksOk(t);
    LexRender(Toks(t));
    ParsesText(Render(Toks(t)), t);
  }

  lemma {:induction false} TooManyWords(s: string, p: nat, ws: seq<string>, argv: seq<Slice>)
    requires p <= |s| && Lex(s, p) == Words(ws) && |argv| < MAXARGS <= |argv| + |ws|
    ensures Args(s, p, argv, []).Panic?
    decreases |ws|
  {
    if |argv| + 1 < MAXARGS {
      var a := Arg(ws[0], []);
      assert FilesT(a.files, Words(ws[1..])) == Words(ws[1..]);
      var x, ys, q := ArgAhead(s, p, argv, [], a, Words(ws[1..]));
      assert [] + ys == [];
      TooManyWords(s, q, ws[1..], argv + [x]);
    } else {
      PeekFirst(s, p, "|)&;");
      TakeToken(s, p, Word(ws[0]), Words(ws[1..]));
    }
  }

  lemma TooManyLine(s: string, p: nat, ws: seq<string>)
    requires p <= |s| && Lex(s, p) == Words(ws) && |ws| >= MAXARGS
    ensures Line(s, p).Panic?
  {
    PeekFirst(s, p, "(");
    PeekFirst(s, p, "<>");
    NoRedirs(s, p, []);
    TooManyWords(s, Skip(s, p), ws, []);
    assert Simple(s, p).Panic?;
  }

  /** The bound on a tree's words is exact: a command of MAXARGS plain words panics. */
  lemma TooManyArgs(ws: seq<string>)
    requires PlainWords(ws) && |ws| >= MAXARGS
    ensures Line(Render(Words(ws)), 0).Panic?
  {
    WordsOk(ws);
    LexRender(Words(ws));
    TooManyLine(Render(Words(ws)), 0, ws);
  }

  // ---- words in place ----

  /** Node n names the slice x. */
  predicate Has(n: Node, x: Slice) {
    match n
    case Exec(argv) => x in argv
    case Redir(c, r) => x == r.file || Has(c, x)
    case Pipe(l, r) => Has(l, x) || Has(r, x)
    case List(l, r) => Has(l, x) || Has(r, x)
    case Back(c) => Has(c, x)
  }

  /** x is a whole word of s: plain characters up to one that is not, or the end. */
  ghost predicate WordAt(s: string, x: Slice) {
    x.q < x.eq <= |s| && (forall k | x.q <= k < x.eq :: Plain(s[k])) && (x.eq < |s| ==> !Plain(s[x.eq]))
  }

  ghost predicate WordsAt(s: string, n: Node) { forall x | Has(n, x) :: WordAt(s, x) }

  ghost predicate FilesAt(s: string, rs: seq<Redirect>) { forall i | 0 <= i < |rs| :: WordAt(s, rs[i].file) }

  lemma GetWordAt(s: string, p: nat)
    requires p <= |s| && Get(s, p).tok.Some? && Get(s, p).tok.value.Word?
    ensures WordAt(s, Slice(Get(s, p).q, Get(s, p).eq))
  {
    WordPlain(s, Skip(s, p));
  }

  lemma {:induction false} WrapWords(s: string, n: Node, rs: seq<Redirect>)
    requires WordsAt(s, n) && FilesAt(s, rs)
    ensures WordsAt(s, Wrap(n, rs))
    decreases |rs|
  {
    if rs != [] {
      WrapWords(s, n, rs[..|rs| - 1]);
    }
  }

  lemma {:induction false} RedirsWords(s: string, p: nat, rs: seq<Redirect>)
    requires p <= |s| && FilesAt(s, rs)
    ensures Redirs(s, p, rs).Ok? ==> FilesAt(s, Redirs(s, p, rs).v)
    decreases |s| - p
  {
    var t := Get(s, p);
    if Peeks(s, p, "<>") && Get(s, t.next).tok.Some? && Get(s, t.next).tok.value.Word? {
      var w := Get(s, t.next);
      GetWordAt(s, t.next);
      RedirsWords(s, w.next, rs + [Redirect(t.tok != Some(Sym('<')), Slice(w.q, w.eq))]);
    }
  }

  lemma {:induction false} ArgsWords(s: string, p: nat, argv: seq<Slice>, rs: seq<Redirect>)
    requires p <= |s| && WordsAt(s, Exec(argv)) && FilesAt(s, rs)
    ensures Args(s, p, argv, rs).Ok? ==> WordsAt(s, Args(s, p, argv, rs).v)
    decreases |s| - p
  {
    WrapWords(s, Exec(argv), rs);
    var t := Get(s, p);
    if !Peeks(s, p, "|)&;") && t.tok.Some? && t.tok.value.Word? && |argv| + 1 < MAXARGS {
      GetWordAt(s, p);
      RedirsWords(s, t.next, rs);
      var q := Redirs(s, t.next, rs);
      if q.Ok? {
        ArgsWords(s, q.p, argv + [Slice(t.q, t.eq)], q.v);
      }
    }
  }

  lemma {:induction false} BacksWords(s: string, p: nat, n: Node)
    requires p <= |s| && WordsAt(s, n)
    ensures WordsAt(s, Backs(s, p, n).v)
    decreases |s| - p
  {
    if Peeks(s, p, "&") {
      BacksWords(s, Get(s, p).next, Back(n));
    }
  }

  /** Every argument and file name the parser finds is a whole word of the text. */
  lemma {:induction false} LineWords(s: string, p: nat)
    requires p <= |s|
    ensures Line(s, p).Ok? ==> WordsAt(s, Line(s, p).v)
    decreases |s| - p, 3
  {
    PipeWords(s, p);
    var a := PipeLine(s, p);
    if a.Ok? {
      BacksWords(s, a.p, a.v);
      var b := Backs(s, a.p, a.v);
      if Peeks(s, b.p, ";") {
        LineWords(s, Get(s, b.p).next);
      }
    }
  }

  lemma {:induction false} PipeWords(s: string, p: nat)
    requires p <= |s|
    ensures PipeLine(s, p).Ok? ==> WordsAt(s, PipeLine(s, p).v)
    decreases |s| - p, 2
  {
    SimpleWords(s, p);
    var a := Simple(s, p);
    if a.Ok? && Peeks(s, a.p, "|") {
      PipeWords(s, Get(s, a.p).next);
    }
  }

  lemma {:induction false} SimpleWords(s: string, p: nat)
    requires p <= |s|
    ensures Simple(s, p).Ok? ==> WordsAt(s, Simple(s, p).v)
    decreases |s| - p, 1
  {
    if Peeks(s, p, "(") {
      BlockWords(s, Skip(s, p));
    } else {
      RedirsWords(s, p, []);
      var a := Redirs(s, p, []);
      if a.Ok? {
        ArgsWords(s, a.p, [], a.v);
      }
    }
  }

  lemma {:induction false} BlockWords(s: string, p: nat)
    requires p <= |s|
    ensures Block(s, p).Ok? ==> WordsAt(s, Block(s, p).v)
    decreases |s| - p, 0
  {
    if Peeks(s, p, "(") {
      LineWords(s, Get(s, p).next);
      var a := Line(s, Get(s, p).next);
      if a.Ok? && Peeks(s, a.p, ")") {
        RedirsWords(s, Get(s, a.p).next, []);
        var b := Redirs(s, Get(s, a.p).next, []);
        if b.Ok? {
          WrapWords(s, a.v, b.v);
        }
      }
    }
  }

  /** k is where some word of n ends. */
  ghost predicate Ends(n: Node, k: int) { exists x :: Has(n, x) && x.eq == k }

  ghost predicate Cut(n: Node, was: seq<char>, now: seq<char>) {
    |now| == |was| && forall k | 0 <= k < |was| :: now[k] == if Ends(n, k) then '\0' else was[k]
  }

  /** nulterminate. */
  method NulTerminate(n: Node, buf: array<char>)
    requires forall x | Has(n, x) :: x.eq < buf.Length
    modifies buf
    ensures Cut(n, old(buf[..]), buf[..])
    decreases n
  {
    match n {
      case Exec(argv) =>
        var i := 0;
        while i < |argv|
          invariant i <= |argv|
          invariant forall k {:trigger buf[k]} | 0 <= k < buf.Length ::
                      buf[k] == if EndsBefore(argv, i, k) then '\0' else old(buf[k])
        {
          assert Has(n, argv[i]);
          buf[argv[i].eq] := '\0';
          i := i + 1;
        }
        ExecEnds(argv);
      case Redir(c, r) =>
        assert forall x | Has(c, x) :: Has(n, x);
        NulTerminate(c, buf);
        assert Has(n, r.file);
        buf[r.file.eq] := '\0';
        forall k ensures Ends(n, k) <==> Ends(c, k) || k == r.file.eq { RedirEnds(c, r, k); }
      case Pipe(l, r) =>
        NulTerminateTwo(n, l, r, buf);
      case List(l, r) =>
        NulTerminateTwo(n, l, r, buf);
      case Back(c) =>
        assert forall x :: Has(c, x) <==> Has(n, x);
        NulTerminate(c, buf);
        assert forall k :: Ends(n, k) <==> Ends(c, k);
    }
  }

  method NulTerminateTwo(n: Node, l: Node, r: Node, buf: array<char>)
    requires forall x | Has(n, x) :: x.eq < buf.Length
    requires (n.Pipe? || n.List?) && n.left == l && n.right == r
    modifies buf
    ensures Cut(n, old(buf[..]), buf[..])
    decreases n, 0
  {
    assert forall x | Has(l, x) :: Has(n, x);
    assert forall x | Has(r, x) :: Has(n, x);
    NulTerminate(l, buf);
    NulTerminate(r, buf);
    forall k ensures Ends(n, k) <==> Ends(l, k) || Ends(r, k) { TwoEnds(n, l, r, k); }
  }

  ghost predicate EndsBefore(argv: seq<Slice>, i: int, k: int) { exists j :: 0 <= j < i && j < |argv| && argv[j].eq == k }

  lemma ExecEnds(argv: seq<Slice>)
    ensures forall k :: Ends(Exec(argv), k) <==> EndsBefore(argv, |argv|, k)
  {
    forall k
      ensures Ends(Exec(argv), k) <==> EndsBefore(argv, |argv|, k)
    {
      if x :| Has(Exec(argv), x) && x.eq == k {
        var j :| 0 <= j < |argv| && argv[j] == x;
      }
      if j :| 0 <= j < |argv| && argv[j].eq == k {
        assert Has(Exec(argv), argv[j]);
      }
    }
  }

  lemma RedirEnds(c: Node, r: Redirect, k: int)
    ensures Ends(Redir(c, r), k) <==> Ends(c, k) || k == r.file.eq
  {
    if x :| Has(c, x) && x.eq == k {
      assert Has(Redir(c, r), x);
    }
    assert Has(Redir(c, r), r.file);
  }

  lemma TwoEnds(n: Node, l: Node, r: Node, k: int)
    requires (n.Pipe? || n.List?) && n.left == l && n.right == r
    ensures Ends(n, k) <==> Ends(l, k) || Ends(r, k)
  {
    if x :| Has(l, x) && x.eq == k {
      assert Has(n, x);
    }
    if x :| Has(r, x) && x.eq == k {
      assert Has(n, x);
    }
  }

  /** The C string at position q of a buffer. */
  function CString(b: seq<char>, q: nat): string
    requires q <= |b|
    decreases |b| - q
  {
    if q == |b| || b[q] == '\0' then "" else [b[q]] + CString(b, q + 1)
  }

  lemma {:induction false} CStringIs(b: seq<char>, q: nat, e: nat)
    requires q <= e < |b| && b[e] == '\0' && forall k | q <= k < e :: b[k] != '\0'
    ensures CString(b, q) == b[q..e]
    decreases e - q
  {
    if q < e {
      CStringIs(b, q + 1, e);
      assert b[q..e] == [b[q]] + b[q + 1..e];
    }
  }

  lemma NotAnEnd(s: string, n: Node, k: nat)
    requires WordsAt(s, n) && k < |s| && Plain(s[k])
    ensures !Ends(n, k)
  {
    forall y | Has(n, y)
      ensures y.eq != k
    {
      assert WordAt(s, y);
    }
  }

  /** After nulterminate each argument and file name is the C string it was cut out as:
      no word's end falls inside another word. */
  lemma WordsAreStrings(s: string, n: Node, b: seq<char>, x: Slice)
    requires WordsAt(s, n) && Has(n, x) && '\0' !in s && Cut(n, s + ['\0'], b)
    ensures x.q <= |b| && CString(b, x.q) == Str(s, x)
  {
    var was := s + ['\0'];
    assert WordAt(s, x);
    forall k | x.q <= k < x.eq
      ensures b[k] == s[k] && b[k] != '\0'
    {
      assert was[k] == s[k];
      NotAnEnd(s, n, k);
    }
    assert Ends(n, x.eq);
    CStringIs(b, x.q, x.eq);
    assert b[x.q..x.eq] == s[x.q..x.eq];
  }

  lemma AcceptsExactly(s: string)
    ensures Line(s, 0).Ok? && Skip(s, Line(s, 0).p) == |s| <==> exists t: Tree :: Derives(s, t)
    ensures Line(s, 0).Ok? && Skip(s, Line(s, 0).p) == |s| ==> Derives(s, Read(s, Line(s, 0).v))
  {
    if Line(s, 0).Ok? && Skip(s, Line(s, 0).p) == |s| {
      ParsesExactly(s, Read(s, Line(s, 0).v));
    } else if t: Tree :| Derives(s, t) {
      ParsesExactly(s, t);
    }
  }

  /** parsecmd: the tree that the line derives, its words now C strings in buf; None, a
      panic, exactly when it derives none. */
  method ParseCmd(s: string, buf: array<char>) returns (r: Option<Node>)
    requires '\0' !in s && buf[..] == s + ['\0']
    modifies buf
    ensures r.Some? <==> exists t: Tree :: Derives(s, t)
    ensures r.Some? ==> Derives(s, Read(s, r.value))
                        && forall x | Has(r.value, x) :: x.q <= buf.Length && CString(buf[..], x.q) == Str(s, x)
  {
    AcceptsExactly(s);
    var x := ParseLine(s, 0);
    if x.Panic? {
      return None;
    }
    var p, _ := Peek(s, x.p, "");
    if p != |s| {
      return None;
    }
    LineWords(s, 0);
    forall y | Has(x.v, y) ensures y.eq < buf.Length { assert WordAt(s, y); }
    NulTerminate(x.v, buf);
    forall y | Has(x.v, y)
      ensures y.q <= buf.Length && CString(buf[..], y.q) == Str(s, y)
    {
      WordsAreStrings(s, x.v, buf[..], y);
    }
    r := Some(x.v);
  }
}
