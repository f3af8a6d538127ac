/** The matcher of grep.c against a declarative meaning of its patterns. A C string is
    the sequence of its characters before the NUL. */
module Grep {

  // ---- what a pattern means ----

  /** One character, or any number of them; '.' stands for any character. */
  datatype Item = One(c: char) | Many(c: char)

  predicate Fits(c: char, x: char) { c == '.' || c == x }

  predicate Starred(re: string) { |re| > 1 && re[1] == '*' }

  /** The items of a pattern without its leading '^': a character before '*' is
      starred, whatever it is; a '$' that ends the pattern is no item. */
  function Items(re: string): seq<Item>
    decreases |re|
  {
    if re == [] then []
    else if Starred(re) then [Many(re[0])] + Items(re[2..])
    else if re == "$" then []
    else [One(re[0])] + Items(re[1..])
  }

  /** The pattern ends with an anchoring '$'. */
  predicate Anchored(re: string)
    decreases |re|
  {
    if re == [] then false
    else if Starred(re) then Anchored(re[2..])
    else re == "$" || Anchored(re[1..])
  }

  ghost predicate Denotes(it: Item, s: string) {
    match it
    case One(c) => |s| == 1 && Fits(c, s[0])
    case Many(c) => forall i | 0 <= i < |s| :: Fits(c, s[i])
  }

  /** s is a concatenation of strings the items denote, in order. */
  ghost predicate Lang(items: seq<Item>, s: string)
    decreases |items|
  {
    if items == [] then s == []
    else exists k :: 0 <= k <= |s| && Denotes(items[0], s[..k]) && Lang(items[1..], s[k..])
  }

  /** Some prefix of text is in the pattern's language, all of text if it is anchored. */
  ghost predicate At(re: string, text: string) {
    exists j :: 0 <= j <= |text| && Lang(Items(re), text[..j]) && (Anchored(re) ==> j == |text|)
  }

  /** The pattern matches somewhere in text; with a leading '^', at its start. */
  ghost predicate Matches(re: string, text: string) {
    if re != [] && re[0] == '^' then At(re[1..], text)
    else exists i :: 0 <= i <= |text| && At(re, text[i..])
  }

  // ---- how the meaning unfolds ----

  lemma AtEmpty(text: string)
    ensures At([], text)
  {
    assert Lang(Items([]), text[..0]);
  }

  lemma AtEnd(text: string)
    ensures At("$", text) <==> text == []
  {
    assert Items("$") == [] && Anchored("$");
    assert Lang([], text[..|text|]) <==> text == [];
  }

  lemma AtOne(re: string, text: string)
    requires re != [] && !Starred(re) && re != "$"
    ensures At(re, text) <==> text != [] && Fits(re[0], text[0]) && At(re[1..], text[1..])
  {
    assert Items(re)[1..] == Items(re[1..]);
    if At(re, text) {
      var j :| 0 <= j <= |text| && Lang(Items(re), text[..j]) && (Anchored(re) ==> j == |text|);
      var k :| 0 <= k <= j && Denotes(One(re[0]), text[..j][..k]) && Lang(Items(re[1..]), text[..j][k..]);
      assert text[..j][1..] == text[1..][..j - 1];
    }
    if text != [] && Fits(re[0], text[0]) && At(re[1..], text[1..]) {
      var j :| 0 <= j <= |text| - 1 && Lang(Items(re[1..]), text[1..][..j]) && (Anchored(re[1..]) ==> j == |text| - 1);
      assert text[..j + 1][..1] == [text[0]] && text[..j + 1][1..] == text[1..][..j];
      assert Lang(Items(re), text[..j + 1]);
    }
  }

  ghost predicate StarAt(c: char, re: string, text: string, k: int) {
    0 <= k <= |text| && (forall i | 0 <= i < k :: Fits(c, text[i])) && At(re, text[k..])
  }

  lemma AtStar(re: string, text: string)
    requires Starred(re)
    ensures At(re, text) <==> exists k :: StarAt(re[0], re[2..], text, k)
  {
    assert Items(re)[1..] == Items(re[2..]);
    if At(re, text) {
      var j :| 0 <= j <= |text| && Lang(Items(re), text[..j]) && (Anchored(re) ==> j == |text|);
      var k :| 0 <= k <= j && Denotes(Many(re[0]), text[..j][..k]) && Lang(Items(re[2..]), text[..j][k..]);
      assert text[..j][k..] == text[k..][..j - k];
      assert forall i | 0 <= i < k :: text[i] == text[..j][..k][i];
      assert StarAt(re[0], re[2..], text, k);
    }
    if k :| StarAt(re[0], re[2..], text, k) {
      var j :| 0 <= j <= |text| - k && Lang(Items(re[2..]), text[k..][..j]) && (Anchored(re[2..]) ==> j == |text| - k);
      assert text[..k + j][..k] == text[..k] && text[..k + j][k..] == text[k..][..j];
      assert Denotes(Many(re[0]), text[..k]);
      assert Lang(Items(re), text[..k + j]);
    }
  }

  // ---- the code ----

  /** matchhere: search for re at the beginning of text. */
  method MatchHere(re: string, text: string) returns (r: bool)
    ensures r <==> At(re, text)
    decreases 2 * |re|
  {
    if re == [] {
      AtEmpty(text);
      return true;
    }
    if |re| > 1 && re[1] == '*' {
      AtStar(re, text);
      r := MatchStar(re[0], re[2..], text);
      return;
    }
    if re[0] == '$' && |re| == 1 {
      AtEnd(text);
      return text == [];
    }
    AtOne(re, text);
    if text != [] && (re[0] == '.' || re[0] == text[0]) {
      r := MatchHere(re[1..], text[1..]);
      return;
    }
    r := false;
  }

  /** matchstar: search for c*re at the beginning of text. */
  method MatchStar(c: char, re: string, text: string) returns (r: bool)
    ensures r <==> exists k :: StarAt(c, re, text, k)
    decreases 2 * |re| + 1
  {
    var t := 0;
    while true
      invariant 0 <= t <= |text| && (forall i | 0 <= i < t :: Fits(c, text[i]))
      invariant forall k | 0 <= k < t :: !StarAt(c, re, text, k)
      decreases |text| - t
    {
      r := MatchHere(re, text[t..]);
      if r {
        assert StarAt(c, re, text, t);
        return;
      }
      if t == |text| || !(text[t] == c || c == '.') {
        break;
      }
      t := t + 1;
    }
    assert forall k | t < k <= |text| :: !StarAt(c, re, text, k);
    r := false;
  }

  /** match: search for re anywhere in text. */
  method Match(re: string, text: string) returns (r: bool)
    ensures r <==> Matches(re, text)
  {
    if re != [] && re[0] == '^' {
      r := MatchHere(re[1..], text);
      return;
    }
    var t := 0;
    while true
      invariant 0 <= t <= |text| && forall i | 0 <= i < t :: !At(re, text[i..])
      decreases |text| - t
    {
      r := MatchHere(re, text[t..]);
      if r {
        return;
      }
      if t == |text| {
        break;
      }
      t := t + 1;
    }
    r := false;
  }
}
