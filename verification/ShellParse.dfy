/** The shell's recursive-descent parser, as functions of the text and as the code. */
module ShellParse {
  import opened Basics
  import opened ShellLex

  const MAXARGS: nat := 10

  /** A word of the text, by its two ends. */
  datatype Slice = Slice(q: nat, eq: nat)

  /** A redirection: to the file for `out`, from it otherwise. */
  datatype Redirect = Redirect(out: bool, file: Slice)

  datatype Node =
    | Exec(argv: seq<Slice>)
    | Redir(cmd: Node, r: Redirect)
    | Pipe(left: Node, right: Node)
    | List(left: Node, right: Node)
    | Back(cmd: Node)

  /** What a parsing function leaves: a value and the cursor, or a panic. */
  datatype Res<+T> = Ok(v: T, p: nat) | Panic

  function Wrap(n: Node, rs: seq<Redirect>): Node
    decreases |rs|
  {
    if rs == [] then n else Redir(Wrap(n, rs[..|rs| - 1]), rs[|rs| - 1])
  }

  // ---- the grammar the code recognises ----

  /** parseredirs. */
  function Redirs(s: string, p: nat, rs: seq<Redirect>): (r: Res<seq<Redirect>>)
    requires p <= |s|
    ensures r.Ok? ==> p <= r.p <= |s|
    decreases |s| - p
  {
    if !Peeks(s, p, "<>") then Ok(rs, Skip(s, p))
    else
      var t := Get(s, p);
      var w := Get(s, t.next);
      if !(w.tok.Some? && w.tok.value.Word?) then Panic
      else Redirs(s, w.next, rs + [Redirect(t.tok != Some(Sym('<')), Slice(w.q, w.eq))])
  }

  /** parseexec's loop: words and redirections up to a symbol that ends the command. */
  function Args(s: string, p: nat, argv: seq<Slice>, rs: seq<Redirect>): (r: Res<Node>)
    requires p <= |s|
    ensures r.Ok? ==> p <= r.p <= |s|
    decreases |s| - p
  {
    if Peeks(s, p, "|)&;") then Ok(Wrap(Exec(argv), rs), Skip(s, p))
    else
      var t := Get(s, p);
      if t.tok.None? then Ok(Wrap(Exec(argv), rs), t.next)
      else if !t.tok.value.Word? || |argv| + 1 >= MAXARGS then Panic
      else
        var q := Redirs(s, t.next, rs);
        if q.Panic? then Panic else Args(s, q.p, argv + [Slice(t.q, t.eq)], q.v)
  }

  /** parseline's loop over '&'. */
  function Backs(s: string, p: nat, n: Node): (r: Res<Node>)
    requires p <= |s|
    ensures r.Ok? && p <= r.p <= |s|
    decreases |s| - p
  {
    if Peeks(s, p, "&") then Backs(s, Get(s, p).next, Back(n)) else Ok(n, Skip(s, p))
  }

  function Line(s: string, p: nat): (r: Res<Node>)
    requires p <= |s|
    ensures r.Ok? ==> p <= r.p <= |s|
    decreases |s| - p, 3
  {
    var a := PipeLine(s, p);
    if a.Panic? then Panic
    else
      var b := Backs(s, a.p, a.v);
      if !Peeks(s, b.p, ";") then Ok(b.v, Skip(s, b.p))
      else
        var c := Line(s, Get(s, b.p).next);
        if c.Panic? then Panic else Ok(List(b.v, c.v), c.p)
  }

  function PipeLine(s: string, p: nat): (r: Res<Node>)
    requires p <= |s|
    ensures r.Ok? ==> p <= r.p <= |s|
    decreases |s| - p, 2
  {
    var a := Simple(s, p);
    if a.Panic? then Panic
    else if !Peeks(s, a.p, "|") then Ok(a.v, Skip(s, a.p))
    else
      var b := PipeLine(s, Get(s, a.p).next);
      if b.Panic? then Panic else Ok(Pipe(a.v, b.v), b.p)
  }

  /** parseexec. */
  function Simple(s: string, p: nat): (r: Res<Node>)
    requires p <= |s|
    ensures r.Ok? ==> p <= r.p <= |s|
    decreases |s| - p, 1
  {
    if Peeks(s, p, "(") then Block(s, Skip(s, p))
    else
      var a := Redirs(s, p, []);
      if a.Panic? then Panic else Args(s, a.p, [], a.v)
  }

  /** parseblock. */
  function Block(s: string, p: nat): (r: Res<Node>)
    requires p <= |s|
    ensures r.Ok? ==> p <= r.p <= |s|
    decreases |s| - p, 0
  {
    if !Peeks(s, p, "(") then Panic
    else
      var a := Line(s, Get(s, p).next);
      if a.Panic? || !Peeks(s, a.p, ")") then Panic
      else
        var b := Redirs(s, Get(s, a.p).next, []);
        if b.Panic? then Panic else Ok(Wrap(a.v, b.v), b.p)
  }

  // ---- the code ----

  // Each method computes the function of the same shape above. What a parse means is said
  // elsewhere: ShellGrammar.ParsesExactly says which texts have which tree,
  // Shell.LineWords that its words are words of the text, Shell.TooManyArgs where it panics.
  //
  // A redirection node points at a command whose argv parseexec may still be filling;
  // the redirections are kept in a list here and wrapped around it at the end.

  method ParseRedirs(s: string, p: nat, rs0: seq<Redirect>) returns (r: Res<seq<Redirect>>)
    requires p <= |s|
    ensures r == Redirs(s, p, rs0)
  {
    var rs, at := rs0, p;
    while true
      invariant p <= at <= |s| && Redirs(s, p, rs0) == Redirs(s, at, rs)
      decreases |s| - at
    {
      var a, more := Peek(s, at, "<>");
      if !more {
        return Ok(rs, a);
      }
      SkipGet(s, at);
      var tok := GetToken(s, a);
      var w := GetToken(s, tok.next);
      if w.tok.None? || !w.tok.value.Word? {
        return Panic;
      }
      rs := rs + [Redirect(tok.tok != Some(Sym('<')), Slice(w.q, w.eq))];
      at := w.next;
    }
  }

  lemma SkipGet(s: string, p: nat)
    requires p <= |s|
    ensures Get(s, Skip(s, p)) == Get(s, p) && Skip(s, Skip(s, p)) == Skip(s, p)
  {
  }

  method ParseExec(s: string, p: nat) returns (r: Res<Node>)
    requires p <= |s|
    ensures r == Simple(s, p)
    decreases |s| - p, 1
  {
    SkipGet(s, p);
    var a, block := Peek(s, p, "(");
    if block {
      r := ParseBlock(s, a);
      return;
    }
    var x := ParseRedirs(s, p, []);
    if x.Panic? {
      return Panic;
    }
    r := ParseArgs(s, x.p, x.v);
  }

  /** parseexec's loop. */
  method ParseArgs(s: string, p: nat, rs0: seq<Redirect>) returns (r: Res<Node>)
    requires p <= |s|
    ensures r == Args(s, p, [], rs0)
  {
    var argv: seq<Slice>, rs, at := [], rs0, p;
    while true
      invariant p <= at <= |s| && Args(s, p, [], rs0) == Args(s, at, argv, rs)
      decreases |s| - at
    {
      SkipGet(s, at);
      var b, done := Peek(s, at, "|)&;");
      if done {
        return Ok(Wrap(Exec(argv), rs), b);
      }
      var t := GetToken(s, b);
      if t.tok.None? {
        return Ok(Wrap(Exec(argv), rs), t.next);
      }
      if !t.tok.value.Word? || |argv| + 1 >= MAXARGS {
        return Panic;
      }
      var y := ParseRedirs(s, t.next, rs);
      if y.Panic? {
        return Panic;
      }
      argv, rs, at := argv + [Slice(t.q, t.eq)], y.v, y.p;
    }
  }

  method ParseBlock(s: string, p: nat) returns (r: Res<Node>)
    requires p <= |s|
    ensures r == Block(s, p)
    decreases |s| - p, 0
  {
    SkipGet(s, p);
    var a, open := Peek(s, p, "(");
    if !open {
      return Panic;
    }
    var t := GetToken(s, a);
    var x := ParseLine(s, t.next);
    if x.Panic? {
      return Panic;
    }
    SkipGet(s, x.p);
    var b, close := Peek(s, x.p, ")");
    if !close {
      return Panic;
    }
    var u := GetToken(s, b);
    var y := ParseRedirs(s, u.next, []);
    r := if y.Panic? then Panic else Ok(Wrap(x.v, y.v), y.p);
  }

  method ParsePipe(s: string, p: nat) returns (r: Res<Node>)
    requires p <= |s|
    ensures r == PipeLine(s, p)
    decreases |s| - p, 2
  {
    var x := ParseExec(s, p);
    if x.Panic? {
      return Panic;
    }
    SkipGet(s, x.p);
    var a, bar := Peek(s, x.p, "|");
    if !bar {
      return Ok(x.v, a);
    }
    var t := GetToken(s, a);
    var y := ParsePipe(s, t.next);
    r := if y.Panic? then Panic else Ok(Pipe(x.v, y.v), y.p);
  }

  method ParseLine(s: string, p: nat) returns (r: Res<Node>)
    requires p <= |s|
    ensures r == Line(s, p)
    decreases |s| - p, 3
  {
    var x := ParsePipe(s, p);
    if x.Panic? {
      return Panic;
    }
    var cmd, at := x.v, x.p;
    while true
      invariant x.p <= at <= |s| && Backs(s, x.p, x.v) == Backs(s, at, cmd)
      decreases |s| - at
    {
      SkipGet(s, at);
      var a, amp := Peek(s, at, "&");
      if !amp {
        at := a;
        break;
      }
      var t := GetToken(s, a);
      cmd, at := Back(cmd), t.next;
    }
    SkipGet(s, at);
    var b, semi := Peek(s, at, ";");
    if !semi {
      return Ok(cmd, b);
    }
    var t := GetToken(s, b);
    var y := ParseLine(s, t.next);
    r := if y.Panic? then Panic else Ok(List(cmd, y.v), y.p);
  }
}
