/** The few java.lang.String operations the task code relies on. */
module Strings {

  /** Every character is at or below U+0020, so `s.trim().isEmpty()` holds (see Trim). */
  predicate IsBlank(s: string) {
    forall i | 0 <= i < |s| :: s[i] <= ' '
  }

  /** The scan from the front of `trim()`: the first index at or after k whose character is
      above U+0020, or |s| when there is none. */
  function TrimFrom(s: string, k: nat): (st: nat)
    requires k <= |s|
    ensures k <= st <= |s|
    ensures forall j | k <= j < st :: s[j] <= ' '
    ensures st < |s| ==> s[st] > ' '
    decreases |s| - k
  {
    if k < |s| && s[k] <= ' ' then TrimFrom(s, k + 1) else k
  }

  /** The scan from the back of `trim()`: the end, at most len and no lower than st, after
      which every character up to len is at or below U+0020. */
  function TrimTo(s: string, st: nat, len: nat): (e: nat)
    requires st <= len <= |s|
    ensures st <= e <= len
    ensures forall j | e <= j < len :: s[j] <= ' '
    ensures e > st ==> s[e - 1] > ' '
    decreases len
  {
    if st < len && s[len - 1] <= ' ' then TrimTo(s, st, len - 1) else len
  }

  /** `s.trim()`: the text between the blank ends of `s`. */
  function Trim(s: string): (r: string)
    // r is the slice of s that starts where the front scan stops, with only characters at or
    // below U+0020 before and after it
    ensures var st := TrimFrom(s, 0);
            st + |r| <= |s| && r == s[st..st + |r|]
            && (forall j | 0 <= j < st :: s[j] <= ' ')
            && (forall j | st + |r| <= j < |s| :: s[j] <= ' ')
    // it is empty exactly when s is blank, and otherwise starts and ends above U+0020
    ensures r == [] <==> IsBlank(s)
    ensures r != [] ==> r[0] > ' ' && r[|r| - 1] > ' '
  {
    var st := TrimFrom(s, 0);
    var e := TrimTo(s, st, |s|);
    s[st..e]
  }

  /** Trimming twice is trimming once. */
  lemma TrimIsIdempotent(s: string)
    ensures Trim(Trim(s)) == Trim(s)
  {
    var r := Trim(s);
    if r != [] {
      assert TrimFrom(r, 0) == 0;
      assert TrimTo(r, 0, |r|) == |r|;
      assert r[0..|r|] == r;
    }
  }

  /** Lower-case of an ASCII letter; every other character is its own lower case. */
  function ToLowerAscii(c: char): (r: char)
    // the result is never an upper-case letter, and is a lower-case letter exactly when c is a letter
    ensures !('A' <= r <= 'Z')
    ensures 'a' <= r <= 'z' <==> 'a' <= c <= 'z' || 'A' <= c <= 'Z'
    // only upper-case letters change, and two letters fold together only when they spell the same letter
    ensures r != c ==> 'A' <= c <= 'Z'
    ensures 'a' <= r <= 'z' ==> r as int - c as int in {0, 32}
  {
    if 'A' <= c <= 'Z' then (c as int + 32) as char else c
  }

  /** `a.equalsIgnoreCase(b)` for a non-null b, with the case folding of ASCII letters. */
  predicate EqualsIgnoreCase(a: string, b: string) {
    |a| == |b| && forall i | 0 <= i < |a| :: ToLowerAscii(a[i]) == ToLowerAscii(b[i])
  }

  /** Equality ignoring case is an equivalence that contains plain equality, and folding
      never identifies two different lower-case letters. */
  lemma EqualsIgnoreCaseIsEquivalence(a: string, b: string, c: string)
    ensures a == b ==> EqualsIgnoreCase(a, b)
    ensures EqualsIgnoreCase(a, b) ==> EqualsIgnoreCase(b, a)
    ensures EqualsIgnoreCase(a, b) && EqualsIgnoreCase(b, c) ==> EqualsIgnoreCase(a, c)
    ensures (EqualsIgnoreCase(a, b) && (forall i | 0 <= i < |a| :: !('A' <= a[i] <= 'Z'))
             && (forall i | 0 <= i < |b| :: !('A' <= b[i] <= 'Z'))) ==> a == b
  {
    if EqualsIgnoreCase(a, b) && (forall i | 0 <= i < |a| :: !('A' <= a[i] <= 'Z'))
       && (forall i | 0 <= i < |b| :: !('A' <= b[i] <= 'Z')) {
      forall i | 0 <= i < |a| ensures a[i] == b[i] {
        assert ToLowerAscii(a[i]) == a[i] && ToLowerAscii(b[i]) == b[i];
      }
    }
  }
}
