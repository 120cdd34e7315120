/** Byte strings and the two operations of Python's `bytes` that the updater
    relies on: `startswith` (the eligibility test) and `replace` (the patch of
    the dependency batch file). `count` is modelled too, because it is the
    quantity that fixes the length of a `replace` result. */
module Bytes {

  /** One 8-bit byte. */
  type byte = b: int | 0 <= b < 256

  /** The value of a `b"..."` literal: one byte per character, the
      character's code modulo 256 (exact for the ASCII literals used here). */
  function Literal(s: string): seq<byte> {
    seq(|s|, i requires 0 <= i < |s| => (s[i] as int) % 256)
  }

  /** `s.startswith(prefix)`. */
  predicate StartsWith(s: seq<byte>, prefix: seq<byte>) {
    |prefix| <= |s| && s[..|prefix|] == prefix
  }

  /** `pat` occurs in `s` at index `i`. */
  predicate OccursAt(s: seq<byte>, pat: seq<byte>, i: int) {
    0 <= i && i + |pat| <= |s| && s[i..i + |pat|] == pat
  }

  /** `pat in s`. */
  predicate Occurs(s: seq<byte>, pat: seq<byte>) {
    exists i | 0 <= i <= |s| :: OccursAt(s, pat, i)
  }

  /** `s.replace(pat, repl)`: scans left to right; at each position where `pat`
      starts, emits `repl` and resumes after the match (so the occurrences
      replaced are the leftmost non-overlapping ones); elsewhere emits one byte
      and moves on. An empty `pat` matches before every byte and at the end. */
  function Replace(s: seq<byte>, pat: seq<byte>, repl: seq<byte>): seq<byte>
    decreases |s|
  {
    if |pat| == 0 then Interleave(s, repl)
    else if |s| < |pat| then s
    else if s[..|pat|] == pat then repl + Replace(s[|pat|..], pat, repl)
    else [s[0]] + Replace(s[1..], pat, repl)
  }

  /** `s.replace(b"", sep)`: `sep` before each byte of `s` and once at the end. */
  function Interleave(s: seq<byte>, sep: seq<byte>): seq<byte>
    decreases |s|
  {
    if |s| == 0 then sep else sep + [s[0]] + Interleave(s[1..], sep)
  }

  /** `s.count(pat)`: the number of leftmost non-overlapping occurrences, and
      `len(s) + 1` for an empty `pat`. */
  function Count(s: seq<byte>, pat: seq<byte>): nat
    decreases |s|
  {
    if |pat| == 0 then |s| + 1
    else if |s| < |pat| then 0
    else if s[..|pat|] == pat then 1 + Count(s[|pat|..], pat)
    else Count(s[1..], pat)
  }

  /** Occurrences in a suffix are occurrences in the whole, shifted. */
  lemma OccursInSuffix(s: seq<byte>, pat: seq<byte>, k: nat, i: nat)
    requires k <= |s|
    ensures OccursAt(s[k..], pat, i) <==> OccursAt(s, pat, i + k)
  {
    if 0 <= i && i + |pat| <= |s| - k {
      assert s[k..][i..i + |pat|] == s[i + k..i + k + |pat|];
    }
  }

  /** Interleaving `|s|` bytes adds `|s| + 1` copies of the separator. */
  lemma {:induction false} InterleaveLength(s: seq<byte>, sep: seq<byte>)
    ensures |Interleave(s, sep)| == |s| + (|s| + 1) * |sep|
    decreases |s|
  {
    if |s| > 0 {
      InterleaveLength(s[1..], sep);
    }
  }

  /** Distributes one step of the count over the length change. */
  lemma MulSucc(c: int, k: int)
    ensures (1 + c) * k == k + c * k
  {
  }

  /** Each replacement changes the length by `|repl| - |pat|`. */
  lemma {:induction false} ReplaceLength(s: seq<byte>, pat: seq<byte>, repl: seq<byte>)
    ensures |Replace(s, pat, repl)| == |s| + Count(s, pat) * (|repl| - |pat|)
    decreases |s|
  {
    if |pat| == 0 {
      InterleaveLength(s, repl);
    } else if |s| < |pat| {
    } else if s[..|pat|] == pat {
      ReplaceLength(s[|pat|..], pat, repl);
      MulSucc(Count(s[|pat|..], pat), |repl| - |pat|);
    } else {
      ReplaceLength(s[1..], pat, repl);
    }
  }

  /** The number of replacements is zero exactly when `pat` does not occur. */
  lemma {:induction false} CountZero(s: seq<byte>, pat: seq<byte>)
    ensures Count(s, pat) == 0 <==> !Occurs(s, pat)
    decreases |s|
  {
    if |pat| == 0 {
      assert OccursAt(s, pat, 0);
    } else if |s| < |pat| {
    } else if s[..|pat|] == pat {
      assert OccursAt(s, pat, 0);
    } else {
      CountZero(s[1..], pat);
      if Occurs(s, pat) {
        var i :| 0 <= i <= |s| && OccursAt(s, pat, i);
        assert i != 0;
        OccursInSuffix(s, pat, 1, i - 1);
        assert Occurs(s[1..], pat);
      }
      if Occurs(s[1..], pat) {
        var j :| 0 <= j <= |s[1..]| && OccursAt(s[1..], pat, j);
        OccursInSuffix(s, pat, 1, j);
      }
    }
  }

  /** Content in which `pat` does not occur comes back byte-identical. */
  lemma {:induction false} ReplaceAbsent(s: seq<byte>, pat: seq<byte>, repl: seq<byte>)
    requires !Occurs(s, pat)
    ensures Replace(s, pat, repl) == s
    decreases |s|
  {
    if |pat| == 0 {
      assert OccursAt(s, pat, 0);
    } else if |s| < |pat| {
    } else {
      assert !OccursAt(s, pat, 0);
      forall j | OccursAt(s[1..], pat, j) ensures false {
        OccursInSuffix(s, pat, 1, j);
      }
      ReplaceAbsent(s[1..], pat, repl);
      assert [s[0]] + s[1..] == s;
    }
  }

  /** When `pat` occurs in `a + pat + b` only at `|a|`, that one occurrence is
      replaced and every other byte is kept. */
  lemma {:induction false} ReplaceSingle(a: seq<byte>, pat: seq<byte>, b: seq<byte>, repl: seq<byte>)
    requires forall i :: OccursAt(a + pat + b, pat, i) ==> i == |a|
    ensures Replace(a + pat + b, pat, repl) == a + repl + b
    decreases |a|
  {
    var s := a + pat + b;
    if |pat| == 0 {
      assert OccursAt(s, pat, 0) && OccursAt(s, pat, |s|);
      assert a == [] && b == [];
    } else if |a| == 0 {
      assert s[..|pat|] == pat && s[|pat|..] == b;
      forall j | OccursAt(b, pat, j) ensures false {
        OccursInSuffix(s, pat, |pat|, j);
      }
      ReplaceAbsent(b, pat, repl);
    } else {
      assert !OccursAt(s, pat, 0);
      assert s[1..] == a[1..] + pat + b;
      forall j | OccursAt(a[1..] + pat + b, pat, j) ensures j == |a[1..]| {
        OccursInSuffix(s, pat, 1, j);
      }
      ReplaceSingle(a[1..], pat, b, repl);
      assert [a[0]] + a[1..] == a;
    }
  }
}
