/** String replacement with the semantics of Go's `strings.ReplaceAll`.
    Strings are sequences of characters, one character per byte. */
module Text {

  /** Go's `strings.ReplaceAll(s, pat, rep)` for a non-empty pattern: scan `s`
      from the left and replace every leftmost, non-overlapping occurrence of
      `pat` by `rep`. Every character of the result comes from `s` or `rep`. */
  function ReplaceAll(s: string, pat: string, rep: string): (r: string)
    requires |pat| > 0
    ensures forall i :: 0 <= i < |r| ==> r[i] in s || r[i] in rep
    decreases |s|
  {
    if |s| == 0 then ""
    else if pat <= s then rep + ReplaceAll(s[|pat|..], pat, rep)
    else [s[0]] + ReplaceAll(s[1..], pat, rep)
  }

  /** No suffix of `s` starts with `pat`: `pat` occurs nowhere in `s`. */
  predicate Free(s: string, pat: string) {
    forall i :: 0 <= i <= |s| ==> !(pat <= s[i..])
  }

  /** A character that does not appear in `s` does not occur in it as a pattern. */
  lemma CharFree(s: string, c: char)
    requires c !in s
    ensures Free(s, [c])
  {
    forall i | 0 <= i <= |s|
      ensures !([c] <= s[i..])
    {
      if i < |s| {
        assert s[i..][0] == s[i];
      }
    }
  }

  /** Replacing a pattern that does not occur changes nothing. */
  lemma {:induction false} ReplaceAllIdentity(s: string, pat: string, rep: string)
    requires |pat| > 0
    requires Free(s, pat)
    ensures ReplaceAll(s, pat, rep) == s
    decreases |s|
  {
    if |s| > 0 {
      assert s[0..] == s;
      assert Free(s[1..], pat) by {
        forall i | 0 <= i <= |s[1..]|
          ensures !(pat <= s[1..][i..])
        {
          assert s[1..][i..] == s[i + 1..];
        }
      }
      ReplaceAllIdentity(s[1..], pat, rep);
      assert s == [s[0]] + s[1..];
    }
  }

  /** Replacing a single character by a text that does not contain it removes
      every occurrence of that character. */
  lemma {:induction false} ReplaceCharRemoves(s: string, c: char, rep: string)
    requires c !in rep
    ensures c !in ReplaceAll(s, [c], rep)
    decreases |s|
  {
    if |s| > 0 {
      if [c] <= s {
        ReplaceCharRemoves(s[1..], c, rep);
        assert s[|[c]|..] == s[1..];
      } else {
        assert s[0] != c by { assert [s[0]] == s[..1]; }
        ReplaceCharRemoves(s[1..], c, rep);
      }
    }
  }

  /** No character of `s` belongs to `cs`. */
  predicate Avoids(s: string, cs: set<char>) {
    forall i :: 0 <= i < |s| ==> s[i] !in cs
  }

  /** Replacing a character `c` by a text free of `c` and of `cs`, in a string
      already free of `cs`, leaves a string free of both. */
  lemma ReplaceCharAvoids(s: string, c: char, rep: string, cs: set<char>)
    requires Avoids(s, cs)
    requires Avoids(rep, cs + {c})
    ensures Avoids(ReplaceAll(s, [c], rep), cs + {c})
  {
    ReplaceCharRemoves(s, c, rep);
  }

  /** After `strings.ReplaceAll(s, "OR", "or")` no "OR" is left, not even one
      formed across a replaced occurrence and its neighbours. */
  lemma {:induction false} ReplaceOrRemoves(s: string)
    ensures Free(ReplaceAll(s, "OR", "or"), "OR")
    decreases |s|
  {
    var r := ReplaceAll(s, "OR", "or");
    if |s| == 0 {
    } else if "OR" <= s {
      var t := ReplaceAll(s[2..], "OR", "or");
      ReplaceOrRemoves(s[2..]);
      assert r == "or" + t;
      forall i | 0 <= i <= |r|
        ensures !("OR" <= r[i..])
      {
        if i == 0 {
          assert r[0] == 'o';
        } else if i == 1 {
          assert r[1] == 'r';
        } else {
          assert r[i..] == t[i - 2..];
        }
      }
    } else {
      var t := ReplaceAll(s[1..], "OR", "or");
      ReplaceOrRemoves(s[1..]);
      assert r == [s[0]] + t;
      forall i | 0 <= i <= |r|
        ensures !("OR" <= r[i..])
      {
        if i > 0 {
          assert r[i..] == t[i - 1..];
        }
      }
    }
  }

  /** A prefix of a string free of `pat` is free of it too. */
  lemma PrefixFree(s: string, n: nat, pat: string)
    requires n <= |s|
    requires Free(s, pat)
    ensures Free(s[..n], pat)
  {
    forall i | 0 <= i <= n
      ensures !(pat <= s[..n][i..])
    {
      assert s[..n][i..] <= s[i..];
    }
  }
}
