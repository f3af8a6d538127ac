/** The grammar of command lines, as derivations, and the parser against it: it accepts
    exactly the lines that have one, and builds the tree the derivation stands for. */
module ShellGrammar {
  import opened Basics
  import opened ShellLex
  import opened ShellParse

  // ---- trees ----

  /** What the parser's nodes stand for, with the words themselves. */
  datatype Tree =
    | TExec(args: seq<string>)
    | TRedir(cmd: Tree, out: bool, file: string)
    | TPipe(left: Tree, right: Tree)
    | TList(left: Tree, right: Tree)
    | TBack(cmd: Tree)

  function Str(s: string, x: Slice): string { if x.q <= x.eq <= |s| then s[x.q..x.eq] else "" }

  function Strs(s: string, xs: seq<Slice>): seq<string> {
    if xs == [] then [] else [Str(s, xs[0])] + Strs(s, xs[1..])
  }

  function Read(s: string, n: Node): Tree {
    match n
    case Exec(argv) => TExec(Strs(s, argv))
    case Redir(c, r) => TRedir(Read(s, c), r.out, Str(s, r.file))
    case Pipe(l, r) => TPipe(Read(s, l), Read(s, r))
    case List(l, r) => TList(Read(s, l), Read(s, r))
    case Back(c) => TBack(Read(s, c))
  }

  // ---- derivations ----

  /** A redirection as written: <, > or >>, and a word. */
  datatype File = File(op: Token, name: string)

  /** An argument and the redirections written after it. */
  datatype Arg = Arg(word: string, files: seq<File>)

  /** line ::= pipe '&'* | pipe '&'* ';' line */
  datatype DLine = DLast(pipe: DPipe, amps: nat) | DSeq(pipe: DPipe, amps: nat, rest: DLine)

  /** pipe ::= command | command '|' pipe */
  datatype DPipe = DOne(cmd: DCmd) | DBar(cmd: DCmd, rest: DPipe)

  /** command ::= '(' line ')' file* | file* (word file*)* */
  datatype DCmd = DBlock(line: DLine, files: seq<File>) | DPlain(files: seq<File>, args: seq<Arg>)

  predicate FilesOk(fs: seq<File>) {
    fs == [] || ((fs[0].op == Sym('<') || fs[0].op == Sym('>') || fs[0].op == Append) && FilesOk(fs[1..]))
  }

  predicate ArgsOk(args: seq<Arg>) { args == [] || (FilesOk(args[0].files) && ArgsOk(args[1..])) }

  predicate CmdOk(c: DCmd) {
    match c
    case DBlock(l, fs) => LineOk(l) && FilesOk(fs)
    case DPlain(fs, args) => FilesOk(fs) && ArgsOk(args) && |args| < MAXARGS
  }

  predicate PipeOk(d: DPipe) {
    match d
    case DOne(c) => CmdOk(c)
    case DBar(c, r) => CmdOk(c) && PipeOk(r)
  }

  predicate LineOk(l: DLine) {
    match l
    case DLast(d, _) => PipeOk(d)
    case DSeq(d, _, r) => PipeOk(d) && LineOk(r)
  }

  /** The tokens of a derivation, followed by `rest`. */
  function FilesT(fs: seq<File>, rest: seq<Token>): seq<Token> {
    if fs == [] then rest else [fs[0].op] + ([Word(fs[0].name)] + FilesT(fs[1..], rest))
  }

  function ArgsT(args: seq<Arg>, rest: seq<Token>): seq<Token> {
    if args == [] then rest else [Word(args[0].word)] + FilesT(args[0].files, ArgsT(args[1..], rest))
  }

  function CmdT(c: DCmd, rest: seq<Token>): seq<Token> {
    match c
    case DBlock(l, fs) => [Sym('(')] + LineT(l, [Sym(')')] + FilesT(fs, rest))
    case DPlain(fs, args) => FilesT(fs, ArgsT(args, rest))
  }

  function PipeT(d: DPipe, rest: seq<Token>): seq<Token> {
    match d
    case DOne(c) => CmdT(c, rest)
    case DBar(c, r) => CmdT(c, [Sym('|')] + PipeT(r, rest))
  }

  function AmpsT(n: nat, rest: seq<Token>): seq<Token> {
    if n == 0 then rest else [Sym('&')] + AmpsT(n - 1, rest)
  }

  function LineT(l: DLine, rest: seq<Token>): seq<Token> {
    match l
    case DLast(d, n) => PipeT(d, AmpsT(n, rest))
    case DSeq(d, n, r) => PipeT(d, AmpsT(n, [Sym(';')] + LineT(r, rest)))
  }

  /** The tree of a derivation: bars and semicolons group to the right, ampersands apply to
      the pipeline before them, and a command's redirections wrap it in the order they
      are written, wherever they stand among its arguments. */
  function WrapT(t: Tree, fs: seq<File>): Tree
    decreases |fs|
  {
    if fs == [] then t
    else TRedir(WrapT(t, fs[..|fs| - 1]), fs[|fs| - 1].op != Sym('<'), fs[|fs| - 1].name)
  }

  function ArgWords(args: seq<Arg>): seq<string> {
    if args == [] then [] else [args[0].word] + ArgWords(args[1..])
  }

  function ArgFiles(args: seq<Arg>): seq<File> {
    if args == [] then [] else args[0].files + ArgFiles(args[1..])
  }

  function CmdTree(c: DCmd): Tree {
    match c
    case DBlock(l, fs) => WrapT(LineTree(l), fs)
    case DPlain(fs, args) => WrapT(TExec(ArgWords(args)), fs + ArgFiles(args))
  }

  function PipeTree(d: DPipe): Tree {
    match d
    case DOne(c) => CmdTree(c)
    case DBar(c, r) => TPipe(CmdTree(c), PipeTree(r))
  }

  function Backed(t: Tree, n: nat): Tree
    decreases n
  {
    if n == 0 then t else Backed(TBack(t), n - 1)
  }

  function LineTree(l: DLine): Tree {
    match l
    case DLast(d, n) => Backed(PipeTree(d), n)
    case DSeq(d, n, r) => TList(Backed(PipeTree(d), n), LineTree(r))
  }

  // ---- reading redirections ----

  /** The slices rs stand for the redirections fs. */
  predicate FilesRead(s: string, rs: seq<Redirect>, fs: seq<File>) {
    |rs| == |fs| && forall i | 0 <= i < |rs| :: rs[i].out == (fs[i].op != Sym('<')) && Str(s, rs[i].file) == fs[i].name
  }

  lemma {:induction false} ReadWrap(s: string, n: Node, rs: seq<Redirect>, fs: seq<File>)
    requires FilesRead(s, rs, fs)
    ensures Read(s, Wrap(n, rs)) == WrapT(Read(s, n), fs)
    decreases |rs|
  {
    if rs != [] {
      ReadWrap(s, n, rs[..|rs| - 1], fs[..|fs| - 1]);
    }
  }

  lemma FilesReadTwo(s: string, r1: seq<Redirect>, f1: seq<File>, r2: seq<Redirect>, f2: seq<File>)
    requires FilesRead(s, r1, f1) && FilesRead(s, r2, f2)
    ensures FilesRead(s, r1 + r2, f1 + f2)
  {
  }

  /** The next token, taken off. */
  lemma TakeToken(s: string, p: nat, t: Token, rest: seq<Token>)
    requires p <= |s| && Lex(s, p) == [t] + rest
    ensures Get(s, p).tok == Some(t) && Lex(s, Get(s, p).next) == rest
  {
    LexNext(s, p);
    assert ([t] + rest)[1..] == rest;
  }

  lemma LexHead(s: string, p: nat)
    requires p <= |s| && Get(s, p).tok.Some?
    ensures Lex(s, p) == [Get(s, p).tok.value] + Lex(s, Get(s, p).next)
  {
  }

  lemma GetWord(s: string, p: nat)
    requires p <= |s| && Get(s, p).tok.Some? && Get(s, p).tok.value.Word?
    ensures Str(s, Slice(Get(s, p).q, Get(s, p).eq)) == Get(s, p).tok.value.w
  {
  }

  /** A peek for symbols, told by the next token. */
  lemma PeekGet(s: string, p: nat, toks: string)
    requires p <= |s| && forall c | c in toks :: Symbol(c)
    ensures Peeks(s, p, toks) <==> Get(s, p).tok.Some? && First([Get(s, p).tok.value], toks)
  {
  }

  /** The symbol a peek has seen. */
  lemma SymAhead(s: string, p: nat, c: char)
    requires p <= |s| && Symbol(c) && c != '>' && Peeks(s, p, [c])
    ensures Lex(s, p) == [Sym(c)] + Lex(s, Get(s, p).next)
  {
    PeekGet(s, p, [c]);
    LexHead(s, p);
  }

  // ---- what the parser accepts has a derivation ----

  predicate FileOp(t: Token) { t == Sym('<') || t == Sym('>') || t == Append }

  lemma FilesCons(f: File, fs: seq<File>, rest: seq<Token>)
    ensures FilesT([f] + fs, rest) == [f.op] + ([Word(f.name)] + FilesT(fs, rest))
    ensures FilesOk([f] + fs) <==> FileOp(f.op) && FilesOk(fs)
  {
    assert ([f] + fs)[0] == f && ([f] + fs)[1..] == fs;
  }

  /** One turn of parseredirs's loop. */
  lemma RedirsTurn(s: string, p: nat, rs: seq<Redirect>) returns (x: Redirect, f: File, q: nat)
    requires p <= |s| && Peeks(s, p, "<>") && Redirs(s, p, rs).Ok?
    ensures p < q <= |s| && Redirs(s, p, rs) == Redirs(s, q, rs + [x]) && FilesRead(s, [x], [f]) && FileOp(f.op)
    ensures Lex(s, p) == [f.op] + ([Word(f.name)] + Lex(s, q))
  {
    PeekGet(s, p, "<>");
    var t := Get(s, p);
    var w := Get(s, t.next);
    x := Redirect(t.tok != Some(Sym('<')), Slice(w.q, w.eq));
    f := File(t.tok.value, w.tok.value.w);
    q := w.next;
    GetWord(s, t.next);
    LexHead(s, p);
    LexHead(s, t.next);
  }

  lemma NoRedirs(s: string, p: nat, rs: seq<Redirect>)
    requires p <= |s| && !Peeks(s, p, "<>")
    ensures Redirs(s, p, rs) == Ok(rs, Skip(s, p)) && Lex(s, Skip(s, p)) == Lex(s, p)
  {
    LexSkip(s, p);
  }

  lemma Cancel<T>(x: T, a: seq<T>, b: seq<T>)
    requires [x] + a == [x] + b
    ensures a == b
  {
    assert ([x] + a)[1..] == a && ([x] + b)[1..] == b;
  }

  lemma AppendCons<T>(a: seq<T>, x: T, b: seq<T>)
    ensures a + [x] + b == a + ([x] + b)
  {
  }

  lemma {:induction false} RedirsSound(s: string, p: nat, rs: seq<Redirect>, r: Res<seq<Redirect>>)
    returns (ys: seq<Redirect>, fs: seq<File>)
    requires p <= |s| && r == Redirs(s, p, rs) && r.Ok?
    ensures r.v == rs + ys && FilesRead(s, ys, fs) && FilesOk(fs) && Lex(s, p) == FilesT(fs, Lex(s, r.p))
    decreases |s| - p
  {
    if !Peeks(s, p, "<>") {
      ys, fs := [], [];
      NoRedirs(s, p, rs);
    } else {
      var x, f, q := RedirsTurn(s, p, rs);
      ys, fs := RedirsSound(s, q, rs + [x], r);
      AppendCons(rs, x, ys);
      FilesReadTwo(s, [x], [f], ys, fs);
      FilesCons(f, fs, Lex(s, r.p));
      ys, fs := [x] + ys, [f] + fs;
    }
  }

  /** The tokens that end a plain command. */
  predicate Ends(ts: seq<Token>) { ts == [] || First(ts, "|)&;") }

  lemma ArgsCons(a: Arg, args: seq<Arg>, rest: seq<Token>)
    ensures ArgsT([a] + args, rest) == [Word(a.word)] + FilesT(a.files, ArgsT(args, rest))
    ensures ArgsOk([a] + args) <==> FilesOk(a.files) && ArgsOk(args)
    ensures ArgWords([a] + args) == [a.word] + ArgWords(args) && ArgFiles([a] + args) == a.files + ArgFiles(args)
  {
    assert ([a] + args)[0] == a && ([a] + args)[1..] == args;
  }

  lemma StrsCons(s: string, x: Slice, xs: seq<Slice>)
    ensures Strs(s, [x] + xs) == [Str(s, x)] + Strs(s, xs)
  {
    assert ([x] + xs)[0] == x && ([x] + xs)[1..] == xs;
  }

  lemma ArgsStop(s: string, p: nat, argv: seq<Slice>, rs: seq<Redirect>, r: Res<Node>)
    requires p <= |s| && r == Args(s, p, argv, rs) && (Peeks(s, p, "|)&;") || Get(s, p).tok.None?)
    ensures r.Ok? && r.v == Wrap(Exec(argv), rs) && Lex(s, r.p) == Lex(s, p) && Ends(Lex(s, p))
  {
    PeekFirst(s, p, "|)&;");
    LexSkip(s, p);
  }

  /** One turn of parseexec's loop. */
  lemma ArgsTurn(s: string, p: nat, argv: seq<Slice>, rs: seq<Redirect>, r: Res<Node>)
    returns (x: Slice, ys: seq<Redirect>, a: Arg, q: nat)
    requires p <= |s| && r == Args(s, p, argv, rs) && r.Ok? && !Peeks(s, p, "|)&;") && Get(s, p).tok.Some?
    ensures p < q <= |s| && r == Args(s, q, argv + [x], rs + ys) && |argv| + 1 < MAXARGS
    ensures Str(s, x) == a.word && FilesRead(s, ys, a.files) && FilesOk(a.files)
    ensures Lex(s, p) == [Word(a.word)] + FilesT(a.files, Lex(s, q))
  {
    var t := Get(s, p);
    var f := Redirs(s, t.next, rs);
    var fs;
    ys, fs := RedirsSound(s, t.next, rs, f);
    x, a, q := Slice(t.q, t.eq), Arg(t.tok.value.w, fs), f.p;
    GetWord(s, p);
    LexHead(s, p);
  }

  /** v is the command with the words xs added to argv and the redirections ys to rs. */
  predicate ArgsMean(s: string, argv: seq<Slice>, rs: seq<Redirect>, v: Node, xs: seq<Slice>, ys: seq<Redirect>, args: seq<Arg>) {
    && v == Wrap(Exec(argv + xs), rs + ys)
    && Strs(s, xs) == ArgWords(args) && FilesRead(s, ys, ArgFiles(args)) && ArgsOk(args)
  }

  lemma ArgsMeanCons(s: string, argv: seq<Slice>, rs: seq<Redirect>, v: Node, x: Slice, zs: seq<Redirect>, a: Arg,
                     xs: seq<Slice>, ys: seq<Redirect>, args: seq<Arg>)
    requires ArgsMean(s, argv + [x], rs + zs, v, xs, ys, args)
    requires Str(s, x) == a.word && FilesRead(s, zs, a.files) && FilesOk(a.files)
    ensures ArgsMean(s, argv, rs, v, [x] + xs, zs + ys, [a] + args)
  {
    AppendCons(argv, x, xs);
    StrsCons(s, x, xs);
    assert rs + zs + ys == rs + (zs + ys);
    FilesReadTwo(s, zs, a.files, ys, ArgFiles(args));
    ArgsCons(a, args, []);
  }

  lemma {:induction false} ArgsSound(s: string, p: nat, argv: seq<Slice>, rs: seq<Redirect>, r: Res<Node>)
    returns (xs: seq<Slice>, ys: seq<Redirect>, args: seq<Arg>)
    requires p <= |s| && r == Args(s, p, argv, rs) && r.Ok? && |argv| < MAXARGS
    ensures ArgsMean(s, argv, rs, r.v, xs, ys, args) && |argv| + |args| < MAXARGS
    ensures Lex(s, p) == ArgsT(args, Lex(s, r.p))
    decreases |s| - p
  {
    if Peeks(s, p, "|)&;") || Get(s, p).tok.None? {
      xs, ys, args := [], [], [];
      ArgsStop(s, p, argv, rs, r);
      assert argv + xs == argv && rs + ys == rs;
    } else {
      var x, zs, a, q := ArgsTurn(s, p, argv, rs, r);
      var vs, ws, bs := ArgsSound(s, q, argv + [x], rs + zs, r);
      ArgsMeanCons(s, argv, rs, r.v, x, zs, a, vs, ws, bs);
      ArgsCons(a, bs, Lex(s, r.p));
      xs, ys, args := [x] + vs, zs + ws, [a] + bs;
    }
  }

  lemma AmpsCons(t: Tree, k: nat, rest: seq<Token>)
    ensures AmpsT(k + 1, rest) == [Sym('&')] + AmpsT(k, rest) && Backed(t, k + 1) == Backed(TBack(t), k)
  {
  }

  /** One turn of parseline's loop over '&'. */
  lemma BacksTurn(s: string, p: nat, n: Node, r: Res<Node>) returns (more: bool, q: nat)
    requires p <= |s| && r == Backs(s, p, n)
    ensures more <==> First(Lex(s, p), "&")
    ensures more ==> p < q <= |s| && r == Backs(s, q, Back(n)) && Lex(s, p) == [Sym('&')] + Lex(s, q)
    ensures !more ==> r.Ok? && r.v == n && Lex(s, r.p) == Lex(s, p)
  {
    PeekFirst(s, p, "&");
    more, q := Peeks(s, p, "&"), Get(s, p).next;
    if more {
      SymAhead(s, p, '&');
    } else {
      LexSkip(s, p);
    }
  }

  lemma {:induction false} BacksSound(s: string, p: nat, n: Node, t: Tree, r: Res<Node>) returns (k: nat)
    requires p <= |s| && r == Backs(s, p, n) && t == Read(s, n)
    ensures r.Ok? && Read(s, r.v) == Backed(t, k) && Lex(s, p) == AmpsT(k, Lex(s, r.p))
    decreases |s| - p
  {
    var more, q := BacksTurn(s, p, n, r);
    if more {
      var j := BacksSound(s, q, Back(n), TBack(t), r);
      AmpsCons(t, j, Lex(s, r.p));
      k := j + 1;
    } else {
      k := 0;
    }
  }

  lemma SimpleSound(s: string, p: nat, r: Res<Node>) returns (c: DCmd)
    requires p <= |s| && r == Simple(s, p) && r.Ok?
    ensures CmdOk(c) && Read(s, r.v) == CmdTree(c) && Lex(s, p) == CmdT(c, Lex(s, r.p))
    decreases |s| - p, 1
  {
    if Peeks(s, p, "(") {
      LexSkip(s, p);
      c := BlockSound(s, Skip(s, p), r);
    } else {
      var a := Redirs(s, p, []);
      var zs, fs := RedirsSound(s, p, [], a);
      assert [] + zs == zs;
      var xs, ys, args := ArgsSound(s, a.p, [], zs, r);
      assert [] + xs == xs;
      FilesReadTwo(s, zs, fs, ys, ArgFiles(args));
      ReadWrap(s, Exec(xs), zs + ys, fs + ArgFiles(args));
      c := DPlain(fs, args);
    }
  }

  lemma BlockSound(s: string, p: nat, r: Res<Node>) returns (c: DCmd)
    requires p <= |s| && r == Block(s, p) && r.Ok?
    ensures CmdOk(c) && Read(s, r.v) == CmdTree(c) && Lex(s, p) == CmdT(c, Lex(s, r.p))
    decreases |s| - p, 0
  {
    SymAhead(s, p, '(');
    var a := Line(s, Get(s, p).next);
    var l := LineSound(s, Get(s, p).next, a);
    SymAhead(s, a.p, ')');
    var b := Redirs(s, Get(s, a.p).next, []);
    var ys, fs := RedirsSound(s, Get(s, a.p).next, [], b);
    assert [] + ys == ys;
    ReadWrap(s, a.v, ys, fs);
    c := DBlock(l, fs);
  }

  lemma PipeSound(s: string, p: nat, r: Res<Node>) returns (d: DPipe)
    requires p <= |s| && r == PipeLine(s, p) && r.Ok?
    ensures PipeOk(d) && Read(s, r.v) == PipeTree(d) && Lex(s, p) == PipeT(d, Lex(s, r.p))
    decreases |s| - p, 2
  {
    var a := Simple(s, p);
    var c := SimpleSound(s, p, a);
    if Peeks(s, a.p, "|") {
      SymAhead(s, a.p, '|');
      var b := PipeLine(s, Get(s, a.p).next);
      var e := PipeSound(s, Get(s, a.p).next, b);
      d := DBar(c, e);
    } else {
      LexSkip(s, a.p);
      d := DOne(c);
    }
  }

  /** A list of a backgrounded pipeline and a line. */
  lemma SeqMeans(s: string, b: Node, c: Node, d: DPipe, k: nat, m: DLine)
    requires Read(s, b) == Backed(PipeTree(d), k) && Read(s, c) == LineTree(m)
    ensures Read(s, List(b, c)) == LineTree(DSeq(d, k, m))
  {
  }

  /** parseline's own steps. */
  lemma LineSteps(s: string, p: nat, r: Res<Node>) returns (a: Res<Node>, b: Res<Node>, semi: bool, q: nat)
    requires p <= |s| && r == Line(s, p) && r.Ok?
    ensures a == PipeLine(s, p) && a.Ok? && b == Backs(s, a.p, a.v) && p <= a.p <= b.p <= |s|
    ensures !semi ==> r.v == b.v && Lex(s, r.p) == Lex(s, b.p)
    ensures semi ==> && b.p < q <= |s| && Line(s, q).Ok? && r.v == List(b.v, Line(s, q).v) && r.p == Line(s, q).p
                     && Lex(s, b.p) == [Sym(';')] + Lex(s, q)
  {
    a := PipeLine(s, p);
    b := Backs(s, a.p, a.v);
    semi := Peeks(s, b.p, ";");
    q := Get(s, b.p).next;
    if semi {
      SymAhead(s, b.p, ';');
    } else {
      LexSkip(s, b.p);
    }
  }

  /** What the parser takes from position p is a line of the grammar, and its tree is the
      line's. */
  lemma LineSound(s: string, p: nat, r: Res<Node>) returns (l: DLine)
    requires p <= |s| && r == Line(s, p) && r.Ok?
    ensures LineOk(l) && Read(s, r.v) == LineTree(l) && Lex(s, p) == LineT(l, Lex(s, r.p))
    decreases |s| - p, 3
  {
    var a, b, semi, q := LineSteps(s, p, r);
    var d := PipeSound(s, p, a);
    var k := BacksSound(s, a.p, a.v, PipeTree(d), b);
    if semi {
      var c := Line(s, q);
      var m := LineSound(s, q, c);
      l := DSeq(d, k, m);
      assert Read(s, r.v) == LineTree(l) by {
        SeqMeans(s, b.v, c.v, d, k, m);
      }
    } else {
      l := DLast(d, k);
    }
  }

  // ---- what has a derivation the parser accepts ----

  /** One redirection ahead. */
  lemma FileAhead(s: string, p: nat, rs: seq<Redirect>, f: File, more: seq<Token>) returns (x: Redirect, q: nat)
    requires p <= |s| && FileOp(f.op) && Lex(s, p) == [f.op] + ([Word(f.name)] + more)
    ensures q <= |s| && Redirs(s, p, rs) == Redirs(s, q, rs + [x]) && FilesRead(s, [x], [f]) && Lex(s, q) == more
  {
    PeekFirst(s, p, "<>");
    TakeToken(s, p, f.op, [Word(f.name)] + more);
    var t := Get(s, p);
    TakeToken(s, t.next, Word(f.name), more);
    GetWord(s, t.next);
    var w := Get(s, t.next);
    x, q := Redirect(t.tok != Some(Sym('<')), Slice(w.q, w.eq)), w.next;
  }

  lemma {:induction false} RedirsComplete(s: string, p: nat, rs: seq<Redirect>, fs: seq<File>, rest: seq<Token>)
    returns (ys: seq<Redirect>, r: Res<seq<Redirect>>)
    requires p <= |s| && Lex(s, p) == FilesT(fs, rest) && FilesOk(fs) && !First(rest, "<>")
    ensures r == Redirs(s, p, rs) && r.Ok? && r.v == rs + ys && Lex(s, r.p) == rest && FilesRead(s, ys, fs)
    decreases |fs|
  {
    if fs == [] {
      PeekFirst(s, p, "<>");
      NoRedirs(s, p, rs);
      ys, r := [], Ok(rs, Skip(s, p));
      assert rs + ys == rs;
    } else {
      var f, gs := fs[0], fs[1..];
      var x, q := FileAhead(s, p, rs, f, FilesT(gs, rest));
      var zs;
      zs, r := RedirsComplete(s, q, rs + [x], gs, rest);
      AppendCons(rs, x, zs);
      FilesReadTwo(s, [x], [f], zs, gs);
      assert [f] + gs == fs;
      ys := [x] + zs;
    }
  }

  /** Arguments do not begin with a redirection, nor with a bracket. */
  lemma ArgsFirst(args: seq<Arg>, rest: seq<Token>)
    requires Ends(rest)
    ensures !First(ArgsT(args, rest), "<>") && !First(ArgsT(args, rest), "(")
    ensures args != [] ==> !Ends(ArgsT(args, rest))
  {
  }

  lemma {:induction false} FilesFirst(fs: seq<File>, rest: seq<Token>)
    requires FilesOk(fs) && !First(rest, "(")
    ensures !First(FilesT(fs, rest), "(")
  {
  }

  /** One argument ahead. */
  lemma ArgAhead(s: string, p: nat, argv: seq<Slice>, rs: seq<Redirect>, a: Arg, more: seq<Token>)
    returns (x: Slice, ys: seq<Redirect>, q: nat)
    requires p <= |s| && Lex(s, p) == [Word(a.word)] + FilesT(a.files, more)
    requires FilesOk(a.files) && !First(more, "<>") && |argv| + 1 < MAXARGS
    ensures q <= |s| && Args(s, p, argv, rs) == Args(s, q, argv + [x], rs + ys) && Lex(s, q) == more
    ensures Str(s, x) == a.word && FilesRead(s, ys, a.files)
  {
    PeekFirst(s, p, "|)&;");
    TakeToken(s, p, Word(a.word), FilesT(a.files, more));
    GetWord(s, p);
    var t := Get(s, p);
    x := Slice(t.q, t.eq);
    var f;
    ys, f := RedirsComplete(s, t.next, rs, a.files, more);
    q := f.p;
  }

  lemma {:induction false} ArgsComplete(s: string, p: nat, argv: seq<Slice>, rs: seq<Redirect>, args: seq<Arg>, rest: seq<Token>)
    returns (xs: seq<Slice>, ys: seq<Redirect>, r: Res<Node>)
    requires p <= |s| && Lex(s, p) == ArgsT(args, rest) && ArgsOk(args) && Ends(rest) && |argv| + |args| < MAXARGS
    ensures r == Args(s, p, argv, rs) && r.Ok? && ArgsMean(s, argv, rs, r.v, xs, ys, args) && Lex(s, r.p) == rest
    decreases |args|
  {
    if args == [] {
      r := Args(s, p, argv, rs);
      xs, ys := [], [];
      PeekFirst(s, p, "|)&;");
      ArgsStop(s, p, argv, rs, r);
      assert argv + xs == argv && rs + ys == rs;
    } else {
      var a, bs := args[0], args[1..];
      ArgsFirst(bs, rest);
      var x, zs, q := ArgAhead(s, p, argv, rs, a, ArgsT(bs, rest));
      var vs, ws;
      vs, ws, r := ArgsComplete(s, q, argv + [x], rs + zs, bs, rest);
      ArgsMeanCons(s, argv, rs, r.v, x, zs, a, vs, ws, bs);
      assert [a] + bs == args;
      xs, ys := [x] + vs, zs + ws;
    }
  }

  lemma {:induction false} BacksComplete(s: string, p: nat, n: Node, t: Tree, k: nat, rest: seq<Token>, r: Res<Node>)
    requires p <= |s| && Lex(s, p) == AmpsT(k, rest) && !First(rest, "&") && t == Read(s, n) && r == Backs(s, p, n)
    ensures r.Ok? && Read(s, r.v) == Backed(t, k) && Lex(s, r.p) == rest
    decreases k
  {
    if k > 0 {
      var q := AmpTaken(s, p, n, k, rest, r);
      AmpsCons(t, k - 1, rest);
      BacksComplete(s, q, Back(n), TBack(t), k - 1, rest, r);
    } else {
      var more, q := BacksTurn(s, p, n, r);
    }
  }

  lemma AmpTaken(s: string, p: nat, n: Node, k: nat, rest: seq<Token>, r: Res<Node>) returns (q: nat)
    requires p <= |s| && Lex(s, p) == AmpsT(k, rest) && k > 0 && r == Backs(s, p, n)
    ensures q <= |s| && Lex(s, q) == AmpsT(k - 1, rest) && r == Backs(s, q, Back(n))
  {
    var more;
    more, q := BacksTurn(s, p, n, r);
    Cancel(Sym('&'), Lex(s, q), AmpsT(k - 1, rest));
  }

  lemma PlainComplete(s: string, p: nat, fs: seq<File>, args: seq<Arg>, rest: seq<Token>) returns (r: Res<Node>)
    requires p <= |s| && CmdOk(DPlain(fs, args)) && Lex(s, p) == CmdT(DPlain(fs, args), rest) && Ends(rest)
    ensures r == Simple(s, p) && r.Ok? && Read(s, r.v) == CmdTree(DPlain(fs, args)) && Lex(s, r.p) == rest
  {
    ArgsFirst(args, rest);
    FilesFirst(fs, ArgsT(args, rest));
    PeekFirst(s, p, "(");
    var zs, f := RedirsComplete(s, p, [], fs, ArgsT(args, rest));
    assert [] + zs == zs;
    var xs, ys;
    xs, ys, r := ArgsComplete(s, f.p, [], zs, args, rest);
    assert [] + xs == xs;
    FilesReadTwo(s, zs, fs, ys, ArgFiles(args));
    ReadWrap(s, Exec(xs), zs + ys, fs + ArgFiles(args));
  }

  /** A bracketed line, read up to its closing bracket, and the redirections after it. */
  lemma Bracketed(s: string, p: nat, inner: seq<Token>, a: Res<Node>, fs: seq<File>, rest: seq<Token>) returns (r: Res<Node>)
    requires p <= |s| && Lex(s, p) == [Sym('(')] + inner && a == Line(s, Get(s, p).next) && a.Ok?
    requires Lex(s, a.p) == [Sym(')')] + FilesT(fs, rest) && FilesOk(fs) && !First(rest, "<>")
    ensures r == Simple(s, p) && r.Ok? && Read(s, r.v) == WrapT(Read(s, a.v), fs) && Lex(s, r.p) == rest
  {
    PeekFirst(s, p, "(");
    SkipGet(s, p);
    PeekFirst(s, a.p, ")");
    TakeToken(s, a.p, Sym(')'), FilesT(fs, rest));
    var ys, f := RedirsComplete(s, Get(s, a.p).next, [], fs, rest);
    assert [] + ys == ys;
    ReadWrap(s, a.v, ys, fs);
    r := Ok(Wrap(a.v, ys), f.p);
  }

  lemma SimpleComplete(s: string, p: nat, c: DCmd, rest: seq<Token>) returns (r: Res<Node>)
    requires p <= |s| && CmdOk(c) && Lex(s, p) == CmdT(c, rest) && Ends(rest)
    ensures r == Simple(s, p) && r.Ok? && Read(s, r.v) == CmdTree(c) && Lex(s, r.p) == rest
    decreases c, 0
  {
    match c
    case DPlain(fs, args) =>
      r := PlainComplete(s, p, fs, args, rest);
    case DBlock(l, fs) =>
      r := BlockComplete(s, p, l, fs, rest);
  }

  lemma BlockComplete(s: string, p: nat, l: DLine, fs: seq<File>, rest: seq<Token>) returns (r: Res<Node>)
    requires p <= |s| && LineOk(l) && FilesOk(fs) && !First(rest, "<>")
    requires Lex(s, p) == [Sym('(')] + LineT(l, [Sym(')')] + FilesT(fs, rest))
    ensures r == Simple(s, p) && r.Ok? && Read(s, r.v) == WrapT(LineTree(l), fs) && Lex(s, r.p) == rest
    decreases l, 3
  {
    var close := [Sym(')')] + FilesT(fs, rest);
    TakeToken(s, p, Sym('('), LineT(l, close));
    var a := LineComplete(s, Get(s, p).next, l, close);
    r := Bracketed(s, p, LineT(l, close), a, fs, rest);
  }

  lemma PipeComplete(s: string, p: nat, d: DPipe, rest: seq<Token>) returns (r: Res<Node>)
    requires p <= |s| && PipeOk(d) && Lex(s, p) == PipeT(d, rest) && Ends(rest) && !First(rest, "|")
    ensures r == PipeLine(s, p) && r.Ok? && Read(s, r.v) == PipeTree(d) && Lex(s, r.p) == rest
    decreases d, 0
  {
    match d
    case DOne(c) =>
      var a := SimpleComplete(s, p, c, rest);
      PeekFirst(s, a.p, "|");
      LexSkip(s, a.p);
      r := Ok(a.v, Skip(s, a.p));
    case DBar(c, e) =>
      var a := SimpleComplete(s, p, c, [Sym('|')] + PipeT(e, rest));
      PeekFirst(s, a.p, "|");
      TakeToken(s, a.p, Sym('|'), PipeT(e, rest));
      var b := PipeComplete(s, Get(s, a.p).next, e, rest);
      r := Ok(Pipe(a.v, b.v), b.p);
  }

  /** What may follow a line: nothing, or the bracket that closes it. */
  predicate Follow(ts: seq<Token>) { ts == [] || ts[0] == Sym(')') }

  lemma {:induction false} AmpsEnds(n: nat, rest: seq<Token>)
    requires rest == [] || First(rest, ");")
    ensures Ends(AmpsT(n, rest)) && !First(AmpsT(n, rest), "|")
  {
  }

  /** A pipeline, its ampersands, and the token after them. */
  lemma LineHead(s: string, p: nat, d: DPipe, n: nat, rest: seq<Token>) returns (b: Res<Node>)
    requires p <= |s| && PipeOk(d) && Lex(s, p) == PipeT(d, AmpsT(n, rest)) && (rest == [] || First(rest, ");"))
    ensures b.Ok? && b.p <= |s| && Read(s, b.v) == Backed(PipeTree(d), n) && Lex(s, b.p) == rest
    ensures PipeLine(s, p).Ok? && b == Backs(s, PipeLine(s, p).p, PipeLine(s, p).v)
    decreases d, 1
  {
    AmpsEnds(n, rest);
    var a := PipeComplete(s, p, d, AmpsT(n, rest));
    b := Backs(s, a.p, a.v);
    BacksComplete(s, a.p, a.v, PipeTree(d), n, rest, b);
  }

  lemma LineStops(s: string, p: nat, b: Res<Node>)
    requires p <= |s| && PipeLine(s, p).Ok? && b == Backs(s, PipeLine(s, p).p, PipeLine(s, p).v) && !First(Lex(s, b.p), ";")
    ensures Line(s, p) == Ok(b.v, Skip(s, b.p)) && Lex(s, Skip(s, b.p)) == Lex(s, b.p)
  {
    PeekFirst(s, b.p, ";");
    LexSkip(s, b.p);
  }

  lemma LineGoesOn(s: string, p: nat, b: Res<Node>, more: seq<Token>) returns (q: nat)
    requires p <= |s| && PipeLine(s, p).Ok? && b == Backs(s, PipeLine(s, p).p, PipeLine(s, p).v)
    requires Lex(s, b.p) == [Sym(';')] + more
    ensures q <= |s| && Lex(s, q) == more
    ensures Line(s, q).Ok? ==> Line(s, p) == Ok(List(b.v, Line(s, q).v), Line(s, q).p)
  {
    PeekFirst(s, b.p, ";");
    TakeToken(s, b.p, Sym(';'), more);
    q := Get(s, b.p).next;
  }

  /** A line of the grammar, before a closing bracket or the end, is what the parser takes,
      and the tree it builds is the line's. */
  lemma LineComplete(s: string, p: nat, l: DLine, rest: seq<Token>) returns (r: Res<Node>)
    requires p <= |s| && LineOk(l) && Lex(s, p) == LineT(l, rest) && Follow(rest)
    ensures r == Line(s, p) && r.Ok? && Read(s, r.v) == LineTree(l) && Lex(s, r.p) == rest
    decreases l, 2
  {
    match l
    case DLast(d, n) =>
      var b := LineHead(s, p, d, n, rest);
      LineStops(s, p, b);
      r := Ok(b.v, Skip(s, b.p));
    case DSeq(d, n, m) =>
      var more := LineT(m, rest);
      var b := LineHead(s, p, d, n, [Sym(';')] + more);
      var q := LineGoesOn(s, p, b, more);
      var c := LineComplete(s, q, m, rest);
      SeqMeans(s, b.v, c.v, d, n, m);
      r := Ok(List(b.v, c.v), c.p);
  }

  // ---- exactly ----

  /** The text's tokens derive tree t. */
  ghost predicate Derives(s: string, t: Tree) {
    exists l: DLine :: LineOk(l) && LineT(l, []) == Lex(s, 0) && LineTree(l) == t
  }

  /** parseline takes the whole text and gives tree t. */
  ghost predicate ParsesTo(s: string, t: Tree) {
    Line(s, 0).Ok? && Skip(s, Line(s, 0).p) == |s| && Read(s, Line(s, 0).v) == t
  }

  /** The parser accepts a line with nothing left over exactly when its tokens have a
      derivation, and then its tree is that derivation's. */
  lemma ParsesExactly(s: string, t: Tree)
    ensures ParsesTo(s, t) <==> Derives(s, t)
  {
    if ParsesTo(s, t) {
      var l := LineSound(s, 0, Line(s, 0));
      assert Get(s, Line(s, 0).p).tok.None?;
      assert LineT(l, []) == Lex(s, 0);
    }
    if Derives(s, t) {
      var l: DLine :| LineOk(l) && LineT(l, []) == Lex(s, 0) && LineTree(l) == t;
      var r := LineComplete(s, 0, l, []);
      assert Get(s, r.p).tok.None?;
    }
  }

  /** So a text derives one tree at most. */
  lemma Unambiguous(s: string, t: Tree, u: Tree)
    requires Derives(s, t) && Derives(s, u)
    ensures t == u
  {
    ParsesExactly(s, t);
    ParsesExactly(s, u);
  }
}
