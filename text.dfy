/**
 * The string normalisation the coach applies to what a user types:
 * Python's `str.strip()` followed by `str.lower()`, restricted to ASCII.
 *
 * The functions carry no postconditions of their own, so that comparing two
 * normalised names stays cheap for the verifier; what they compute is stated
 * by the lemmas that follow them.
 */
module Text {

  /** Python's `str.isspace()` on the ASCII range: space, \t, \n, \v, \f, \r and \x1c-\x1f. */
  predicate IsSpace(c: char) {
    c == ' ' || ('\t' <= c <= '\r') || ('\U{1C}' <= c <= '\U{1F}')
  }

  predicate IsUpper(c: char) {
    'A' <= c <= 'Z'
  }

  function LowerChar(c: char): (r: char)
    ensures !IsUpper(r)
    ensures IsSpace(r) <==> IsSpace(c)
    ensures !IsUpper(c) ==> r == c
  {
    if IsUpper(c) then (c as int - 'A' as int + 'a' as int) as char else c
  }

  /** `str.lstrip()` */
  function StripStart(s: string): string {
    if s != [] && IsSpace(s[0]) then StripStart(s[1..]) else s
  }

  /** `str.rstrip()` */
  function StripEnd(s: string): string {
    if s != [] && IsSpace(s[|s| - 1]) then StripEnd(s[..|s| - 1]) else s
  }

  /** `str.strip()` */
  function Strip(s: string): string {
    StripEnd(StripStart(s))
  }

  /** `str.lower()` on ASCII letters. */
  function Lower(s: string): (r: string)
    ensures |r| == |s|
  {
    if s == [] then [] else [LowerChar(s[0])] + Lower(s[1..])
  }

  /** `s.strip().lower()`, the key under which names and commands are compared. */
  function Normalize(s: string): string {
    Lower(Strip(s))
  }

  /** `lstrip` drops a prefix made only of whitespace, and nothing after it. */
  lemma {:induction false} StripStartShape(s: string)
    ensures |StripStart(s)| <= |s| && StripStart(s) == s[|s| - |StripStart(s)|..]
    ensures StripStart(s) == [] || !IsSpace(StripStart(s)[0])
    ensures forall i :: 0 <= i < |s| - |StripStart(s)| ==> IsSpace(s[i])
  {
    if s != [] && IsSpace(s[0]) {
      StripStartShape(s[1..]);
      assert forall i :: 1 <= i < |s| ==> s[i] == s[1..][i - 1];
    }
  }

  /** `rstrip` drops a suffix made only of whitespace, and nothing before it. */
  lemma {:induction false} StripEndShape(s: string)
    ensures |StripEnd(s)| <= |s| && StripEnd(s) == s[..|StripEnd(s)|]
    ensures StripEnd(s) == [] || !IsSpace(StripEnd(s)[|StripEnd(s)| - 1])
    ensures forall i :: |StripEnd(s)| <= i < |s| ==> IsSpace(s[i])
  {
    if s != [] && IsSpace(s[|s| - 1]) {
      StripEndShape(s[..|s| - 1]);
    }
  }

  /** `lower` maps each character on its own. */
  lemma {:induction false} LowerAt(s: string)
    ensures forall i :: 0 <= i < |s| ==> Lower(s)[i] == LowerChar(s[i])
  {
    if s != [] {
      LowerAt(s[1..]);
    }
  }

  /** A string with no whitespace at either end is its own strip. */
  lemma StripTrimmed(s: string)
    requires s == [] || (!IsSpace(s[0]) && !IsSpace(s[|s| - 1]))
    ensures Strip(s) == s
  {
  }

  /** Lower-casing commutes with slicing. */
  lemma {:induction false} LowerSlice(s: string, i: nat, j: nat)
    requires i <= j <= |s|
    ensures Lower(s)[i..j] == Lower(s[i..j])
  {
    var whole, part := Lower(s), Lower(s[i..j]);
    LowerAt(s);
    LowerAt(s[i..j]);
    forall m | 0 <= m < j - i
      ensures whole[i..j][m] == part[m]
    {
      calc {
        part[m];
        LowerChar(s[i..j][m]);
        LowerChar(s[i + m]);
        whole[i + m];
      }
    }
  }

  /** Lower-casing neither adds nor removes leading whitespace. */
  lemma StripStartLower(s: string)
    ensures StripStart(Lower(s)) == Lower(StripStart(s))
  {
    StripStartShape(s);
    LowerAt(s);
    var a := StripStart(s);
    var k := |s| - |a|;
    var ls := Lower(s);
    LowerSlice(s, k, |s|);
    forall i | 0 <= i < k
      ensures IsSpace(ls[i])
    {
      assert IsSpace(s[i]);
    }
    if k < |s| {
      assert s[k] == a[0];
    }
    StripStartAt(ls, k);
  }

  /** Lower-casing neither adds nor removes trailing whitespace. */
  lemma StripEndLower(s: string)
    ensures StripEnd(Lower(s)) == Lower(StripEnd(s))
  {
    StripEndShape(s);
    LowerAt(s);
    var b := StripEnd(s);
    var ls := Lower(s);
    LowerSlice(s, 0, |b|);
    forall i | |b| <= i < |s|
      ensures IsSpace(ls[i])
    {
      assert IsSpace(s[i]);
    }
    if |b| > 0 {
      assert s[|b| - 1] == b[|b| - 1];
    }
    StripEndAt(ls, |b|);
  }

  /** Lower-casing commutes with strip. */
  lemma StripLower(s: string)
    ensures Strip(Lower(s)) == Lower(Strip(s))
  {
    StripStartLower(s);
    StripEndLower(StripStart(s));
  }

  /** `StripStart` cuts exactly the first `k` characters when those are its whitespace prefix. */
  lemma {:induction false} StripStartAt(s: string, k: nat)
    requires k <= |s|
    requires forall i :: 0 <= i < k ==> IsSpace(s[i])
    requires k == |s| || !IsSpace(s[k])
    ensures StripStart(s) == s[k..]
    decreases k
  {
    if k > 0 {
      StripStartAt(s[1..], k - 1);
    }
  }

  /** `StripEnd` keeps exactly the first `n` characters when the rest is its whitespace suffix. */
  lemma {:induction false} StripEndAt(s: string, n: nat)
    requires n <= |s|
    requires forall i :: n <= i < |s| ==> IsSpace(s[i])
    requires n == 0 || !IsSpace(s[n - 1])
    ensures StripEnd(s) == s[..n]
    decreases |s| - n
  {
    if n < |s| {
      StripEndAt(s[..|s| - 1], n);
    }
  }

  /** Lower-casing an already lower-cased string changes nothing. */
  lemma LowerLower(s: string)
    ensures Lower(Lower(s)) == Lower(s)
  {
    LowerAt(s);
    LowerAt(Lower(s));
  }

  /** Normalising twice is normalising once, so a normalised key matches itself. */
  lemma NormalizeIdempotent(s: string)
    ensures Normalize(Normalize(s)) == Normalize(s)
  {
    var t := Strip(s);
    StripLower(t);
    StripStartShape(s);
    StripEndShape(StripStart(s));
    assert Strip(t) == t by {
      StripTrimmed(t);
    }
    LowerLower(t);
  }
}
