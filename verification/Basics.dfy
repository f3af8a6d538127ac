/** Optional values, and lists without repeats. */
module Basics {
  datatype Option<+T> = None | Some(value: T)

  ghost predicate Once(s: seq<nat>)
    decreases |s|
  {
    s == [] || (s[0] !in s[1..] && Once(s[1..]))
  }

  /** The same by places, for proofs that index. */
  ghost predicate NoRepeats(s: seq<nat>) {
    forall i, j | 0 <= i < j < |s| :: s[i] != s[j]
  }

  lemma {:induction false} OnceIff(s: seq<nat>)
    ensures Once(s) <==> NoRepeats(s)
    decreases |s|
  {
    if s != [] {
      OnceIff(s[1..]);
      if NoRepeats(s) {
        forall i, j | 0 <= i < j < |s[1..]|
          ensures s[1..][i] != s[1..][j]
        {
          assert s[i + 1] != s[j + 1];
        }
      }
      if Once(s) {
        forall i, j | 0 <= i < j < |s|
          ensures s[i] != s[j]
        {
          assert s[j] == s[1..][j - 1];
          assert i > 0 ==> s[i] == s[1..][i - 1];
        }
      }
    }
  }

  lemma OnceAt(s: seq<nat>, i: nat, j: nat)
    requires Once(s) && i < |s| && j < |s| && i != j
    ensures s[i] != s[j]
  {
    OnceIff(s);
  }

  lemma {:induction false} OnceSnoc(s: seq<nat>, b: nat)
    requires Once(s) && b !in s
    ensures Once(s + [b])
    decreases |s|
  {
    if s != [] {
      assert (s + [b])[0] == s[0] && (s + [b])[1..] == s[1..] + [b];
      OnceSnoc(s[1..], b);
    }
  }
}
