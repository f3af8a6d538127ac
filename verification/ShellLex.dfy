/** Tokens of a shell command line: gettoken and peek of sh.c. Positions index the text;
    a position at its end stands for the NUL that ends a C string. */
module ShellLex {
  import opened Basics

  /** whitespace and symbols. */
  predicate Ws(c: char) { c == ' ' || c == '\t' || c == '\r' || c == '\n' || c == '\U{000B}' }
  predicate Symbol(c: char) { c == '<' || c == '|' || c == '>' || c == '&' || c == ';' || c == '(' || c == ')' }

  /** A character of a word. */
  predicate Plain(c: char) { !Ws(c) && !Symbol(c) }

  /** Append is the token >>. */
  datatype Token = Sym(c: char) | Append | Word(w: string)

  /** A token, where it begins and ends, and where the next one begins. */
  datatype Lexeme = Lexeme(tok: Option<Token>, q: nat, eq: nat, next: nat)

  function Skip(s: string, p: nat): (r: nat)
    requires p <= |s|
    ensures p <= r <= |s| && (r < |s| ==> !Ws(s[r]))
    decreases |s| - p
  {
    if p < |s| && Ws(s[p]) then Skip(s, p + 1) else p
  }

  function WordEnd(s: string, p: nat): (r: nat)
    requires p <= |s|
    ensures p <= r <= |s| && (r < |s| ==> !Plain(s[r]))
    ensures p < |s| && Plain(s[p]) ==> r > p
    decreases |s| - p
  {
    if p < |s| && Plain(s[p]) then WordEnd(s, p + 1) else p
  }

  /** A word is made of plain characters, and ends where they do. */
  lemma {:induction false} WordPlain(s: string, p: nat)
    requires p <= |s|
    ensures forall k | p <= k < WordEnd(s, p) :: Plain(s[k])
    decreases |s| - p
  {
    if p < |s| && Plain(s[p]) {
      WordPlain(s, p + 1);
    }
  }

  function Get(s: string, p: nat): (x: Lexeme)
    requires p <= |s|
    ensures p <= x.q <= x.eq <= x.next <= |s| && (x.tok.Some? ==> x.next > p) && x.next == Skip(s, x.next)
    ensures x.tok.None? <==> Skip(s, p) == |s|
  {
    var a := Skip(s, p);
    if a == |s| then Lexeme(None, a, a, a)
    else if s[a] == '>' then
      if a + 1 < |s| && s[a + 1] == '>' then AtSkip(s, a + 2); Lexeme(Some(Append), a, a + 2, Skip(s, a + 2))
      else AtSkip(s, a + 1); Lexeme(Some(Sym('>')), a, a + 1, Skip(s, a + 1))
    else if Symbol(s[a]) then AtSkip(s, a + 1); Lexeme(Some(Sym(s[a])), a, a + 1, Skip(s, a + 1))
    else AtSkip(s, WordEnd(s, a)); Lexeme(Some(Word(s[a..WordEnd(s, a)])), a, WordEnd(s, a), Skip(s, WordEnd(s, a)))
  }

  lemma AtSkip(s: string, p: nat)
    requires p <= |s|
    ensures Skip(s, Skip(s, p)) == Skip(s, p)
  {
  }

  /** The next character but whitespace is one of toks. */
  predicate Peeks(s: string, p: nat, toks: string)
    requires p <= |s|
  {
    Skip(s, p) < |s| && s[Skip(s, p)] in toks
  }

  /** The rest of the text, as tokens. */
  function Lex(s: string, p: nat): seq<Token>
    requires p <= |s|
    decreases |s| - p
  {
    var x := Get(s, p);
    if x.tok.None? then [] else [x.tok.value] + Lex(s, x.next)
  }

  /** The first token decides what a peek for symbols sees. */
  predicate First(ts: seq<Token>, toks: string) {
    ts != [] && match ts[0] case Sym(c) => c in toks case Append => '>' in toks case Word(_) => false
  }

  lemma PeekFirst(s: string, p: nat, toks: string)
    requires p <= |s| && forall c | c in toks :: Symbol(c)
    ensures Peeks(s, p, toks) <==> First(Lex(s, p), toks)
  {
    var x := Get(s, p);
    if x.tok.Some? {
      assert Lex(s, p)[0] == x.tok.value;
    }
  }

  lemma LexSkip(s: string, p: nat)
    requires p <= |s|
    ensures Lex(s, Skip(s, p)) == Lex(s, p)
  {
    AtSkip(s, p);
    assert Get(s, Skip(s, p)) == Get(s, p);
  }

  /** Taking a token off. */
  lemma LexNext(s: string, p: nat)
    requires p <= |s| && Lex(s, p) != []
    ensures Get(s, p).tok == Some(Lex(s, p)[0]) && Lex(s, Get(s, p).next) == Lex(s, p)[1..]
  {
  }

  // ---- the code ----

  method Spaces(s: string, p: nat) returns (r: nat)
    requires p <= |s|
    ensures r == Skip(s, p)
  {
    r := p;
    while r < |s| && Ws(s[r])
      invariant p <= r <= |s| && Skip(s, r) == Skip(s, p)
    {
      r := r + 1;
    }
  }

  /** gettoken. */
  method GetToken(s: string, p: nat) returns (x: Lexeme)
    requires p <= |s|
    ensures x == Get(s, p)
  {
    var q := Spaces(s, p);
    var e := q;
    var tok: Option<Token>;
    if q == |s| {
      tok := None;
    } else if s[q] == '>' {
      tok, e := Some(Sym('>')), q + 1;
      if e < |s| && s[e] == '>' {
        tok, e := Some(Append), e + 1;
      }
    } else if Symbol(s[q]) {
      tok, e := Some(Sym(s[q])), q + 1;
    } else {
      while e < |s| && !Ws(s[e]) && !Symbol(s[e])
        invariant q <= e <= |s| && WordEnd(s, e) == WordEnd(s, q)
      {
        e := e + 1;
      }
      tok := Some(Word(s[q..e]));
    }
    var next := Spaces(s, e);
    AtSkip(s, p);
    x := Lexeme(tok, q, e, next);
  }

  /** peek. */
  method Peek(s: string, p: nat, toks: string) returns (r: nat, b: bool)
    requires p <= |s|
    ensures r == Skip(s, p) && b == Peeks(s, p, toks)
  {
    r := Spaces(s, p);
    b := r < |s| && s[r] in toks;
  }
}
