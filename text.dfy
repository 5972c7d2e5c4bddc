/** String operations of the JavaScript runtime that the page objects use:
    `trim`, `includes`, `replace` with a string pattern and `toLowerCase`.
    Whitespace and case mapping are the ASCII ones. */
module Text {
  import opened Outcomes

  /** The ASCII characters `String.prototype.trim` removes. */
  predicate IsSpace(c: char) {
    c == ' ' || c == '\t' || c == '\n' || c == '\r' || c == '\U{000B}' || c == '\U{000C}'
  }

  predicate AllSpace(s: string) {
    forall i :: 0 <= i < |s| ==> IsSpace(s[i])
  }

  /** No whitespace at either end. */
  predicate IsTrimmed(s: string) {
    s == [] || (!IsSpace(s[0]) && !IsSpace(s[|s| - 1]))
  }

  /** Drops the leading whitespace: what remains does not start with whitespace. */
  function TrimStart(s: string): (r: string)
    ensures |r| <= |s|
    ensures r == [] || !IsSpace(r[0])
    decreases |s|
  {
    if |s| > 0 && IsSpace(s[0]) then TrimStart(s[1..]) else s
  }

  /** What TrimStart keeps is a suffix of `s`, and everything it drops is whitespace. */
  lemma {:induction false} TrimStartIsSuffix(s: string)
    ensures TrimStart(s) == s[|s| - |TrimStart(s)|..]
    ensures AllSpace(s[..|s| - |TrimStart(s)|])
    decreases |s|
  {
    if |s| > 0 && IsSpace(s[0]) {
      TrimStartIsSuffix(s[1..]);
      var k := |s| - |TrimStart(s)|;
      assert s[1..][k - 1..] == s[k..];
      assert forall i :: 1 <= i < k ==> s[i] == s[1..][..k - 1][i - 1];
    }
  }

  /** Drops the trailing whitespace: what remains does not end with whitespace. */
  function TrimEnd(s: string): (r: string)
    ensures |r| <= |s|
    ensures r == [] || !IsSpace(r[|r| - 1])
    decreases |s|
  {
    if |s| > 0 && IsSpace(s[|s| - 1]) then TrimEnd(s[..|s| - 1]) else s
  }

  /** What TrimEnd keeps is a prefix of `s`, and everything it drops is whitespace. */
  lemma {:induction false} TrimEndIsPrefix(s: string)
    ensures TrimEnd(s) == s[..|TrimEnd(s)|]
    ensures AllSpace(s[|TrimEnd(s)|..])
    decreases |s|
  {
    if |s| > 0 && IsSpace(s[|s| - 1]) {
      var u := s[..|s| - 1];
      TrimEndIsPrefix(u);
      var k := |TrimEnd(s)|;
      assert u[..k] == s[..k];
      assert forall i :: k <= i < |s| - 1 ==> s[i] == u[k..][i - k];
    }
  }

  /** `s.trim()`: no whitespace at either end, and no longer than `s`. */
  function Trim(s: string): (r: string)
    ensures IsTrimmed(r) && |r| <= |s|
  {
    var t := TrimStart(s);
    assert TrimEnd(t) == t[..|TrimEnd(t)|] by { TrimEndIsPrefix(t); }
    TrimEnd(t)
  }

  /** The result of trim is the infix of `s` that starts after the leading whitespace. */
  lemma TrimIsInfix(s: string)
    ensures |s| - |TrimStart(s)| + |Trim(s)| <= |s|
    ensures Trim(s) == s[|s| - |TrimStart(s)|..|s| - |TrimStart(s)| + |Trim(s)|]
  {
    var t := TrimStart(s);
    var r := TrimEnd(t);
    var k := |s| - |t|;
    TrimStartIsSuffix(s);
    TrimEndIsPrefix(t);
    assert Trim(s) == r;
    assert r == s[k..][..|r|];
    assert s[k..][..|r|] == s[k..k + |r|];
  }

  /** What trim removes on either side of that infix is whitespace. */
  lemma TrimDropsOnlySpace(s: string)
    ensures |s| - |TrimStart(s)| + |Trim(s)| <= |s|
    ensures AllSpace(s[..|s| - |TrimStart(s)|])
    ensures AllSpace(s[|s| - |TrimStart(s)| + |Trim(s)|..])
  {
    var t := TrimStart(s);
    var r := TrimEnd(t);
    var k := |s| - |t|;
    TrimStartIsSuffix(s);
    TrimEndIsPrefix(t);
    assert t == s[k..];
    assert s[k + |r|..] == t[|r|..];
  }

  /** Trimming a string that has no whitespace at either end leaves it unchanged. */
  lemma TrimOfTrimmed(s: string)
    requires IsTrimmed(s)
    ensures Trim(s) == s
  {
    if s != [] {
      assert TrimStart(s) == s;
      assert TrimEnd(s) == s;
    }
  }

  /** Trim is determined by its contract: padding a non-empty trimmed string with
      whitespace on both sides and trimming gives the string back. */
  lemma {:induction false} TrimOfPadded(a: string, t: string, b: string)
    requires AllSpace(a) && AllSpace(b) && IsTrimmed(t) && t != []
    ensures Trim(a + t + b) == t
  {
    assert a + t + b == a + (t + b);
    TrimStartOfPadded(a, t + b);
    TrimEndOfPadded(t, b);
    assert Trim(a + t + b) == TrimEnd(t + b);
  }

  lemma {:induction false} TrimStartOfPadded(a: string, u: string)
    requires AllSpace(a) && u != [] && !IsSpace(u[0])
    ensures TrimStart(a + u) == u
    decreases |a|
  {
    if a == [] {
      assert a + u == u;
    } else {
      assert (a + u)[1..] == a[1..] + u;
      TrimStartOfPadded(a[1..], u);
    }
  }

  lemma {:induction false} TrimEndOfPadded(u: string, b: string)
    requires AllSpace(b) && u != [] && !IsSpace(u[|u| - 1])
    ensures TrimEnd(u + b) == u
    decreases |b|
  {
    if b == [] {
      assert u + b == u;
    } else {
      assert (u + b)[..|u + b| - 1] == u + b[..|b| - 1];
      TrimEndOfPadded(u, b[..|b| - 1]);
    }
  }

  /** `sub` occurs in `s` starting at position `i`. */
  predicate OccursAt(s: string, sub: string, i: int) {
    0 <= i && i + |sub| <= |s| && s[i..i + |sub|] == sub
  }

  /** `s.includes(sub)`: `sub` occurs somewhere in `s`, so it is no longer than `s`. */
  predicate Contains(s: string, sub: string)
    ensures Contains(s, sub) ==> |sub| <= |s|
  {
    exists i :: 0 <= i <= |s| - |sub| && OccursAt(s, sub, i)
  }

  /** A string containing `sub` between any two strings includes it. */
  lemma ContainsInfix(a: string, sub: string, b: string)
    ensures Contains(a + sub + b, sub)
  {
    var s := a + sub + b;
    assert s[|a|..|a| + |sub|] == sub;
    assert OccursAt(s, sub, |a|);
  }

  /** Every string contains the empty string. */
  lemma ContainsEmpty(s: string)
    ensures Contains(s, "")
  {
    assert OccursAt(s, "", 0);
  }

  /** The first position at or after `from` where `sub` occurs, if any. */
  function IndexFrom(s: string, sub: string, from: nat): (r: Option<nat>)
    ensures r.Some? ==> from <= r.value && OccursAt(s, sub, r.value)
    ensures r.Some? ==> forall j :: from <= j < r.value ==> !OccursAt(s, sub, j)
    ensures r.None? ==> forall j :: from <= j ==> !OccursAt(s, sub, j)
    decreases |s| - from
  {
    if from + |sub| > |s| then None
    else if s[from..from + |sub|] == sub then Some(from)
    else IndexFrom(s, sub, from + 1)
  }

  /** `s.indexOf(sub)`, with None for -1: the first occurrence of `sub` in `s`. */
  function IndexOf(s: string, sub: string): (r: Option<nat>)
    ensures r.Some? <==> Contains(s, sub)
    ensures r.Some? ==> OccursAt(s, sub, r.value) && forall j :: 0 <= j < r.value ==> !OccursAt(s, sub, j)
  {
    IndexFrom(s, sub, 0)
  }

  /** `sub` occurs in `s` at position `i` and at no earlier position. */
  predicate FirstOccursAt(s: string, sub: string, i: int) {
    OccursAt(s, sub, i) && forall j :: 0 <= j < i ==> !OccursAt(s, sub, j)
  }

  /** There is at most one first occurrence. */
  lemma FirstOccurrenceUnique(s: string, sub: string, i: int, k: int)
    requires FirstOccursAt(s, sub, i) && FirstOccursAt(s, sub, k)
    ensures i == k
  {
  }

  /** `s.replace(pattern, '')` with a string pattern: only the first occurrence
      is removed, and a string without the pattern is unchanged. (An empty
      replacement has no `$` patterns for `replace` to expand.) */
  function RemoveFirst(s: string, pattern: string): (r: string)
    ensures !Contains(s, pattern) ==> r == s
    ensures Contains(s, pattern) ==> |r| == |s| - |pattern|
    ensures Contains(s, pattern) ==>
      exists i :: FirstOccursAt(s, pattern, i) && r == s[..i] + s[i + |pattern|..]
    ensures forall i :: FirstOccursAt(s, pattern, i) ==> r == s[..i] + s[i + |pattern|..]
  {
    match IndexOf(s, pattern)
    case None => s
    case Some(k) =>
      assert FirstOccursAt(s, pattern, k);
      assert forall i :: FirstOccursAt(s, pattern, i) ==> i == k by {
        forall i | FirstOccursAt(s, pattern, i) ensures i == k {
          FirstOccurrenceUnique(s, pattern, i, k);
        }
      }
      s[..k] + s[k + |pattern|..]
  }

  /** Removing a pattern from a string that starts with it leaves exactly the rest,
      even when the rest contains the pattern again. */
  lemma RemoveFirstAtStart(pattern: string, rest: string)
    ensures RemoveFirst(pattern + rest, pattern) == rest
  {
    var s := pattern + rest;
    assert OccursAt(s, pattern, 0);
    assert IndexOf(s, pattern) == Some(0);
    assert s[|pattern|..] == rest;
  }

  /** ASCII lower-casing of one character. */
  function LowerChar(c: char): (r: char)
    ensures 'A' <= c <= 'Z' ==> 'a' <= r <= 'z' && r as int == c as int + 32
    ensures !('A' <= c <= 'Z') ==> r == c
  {
    if 'A' <= c <= 'Z' then (c as int + 32) as char else c
  }

  /** `s.toLowerCase()` on ASCII letters: same length, each character lower-cased. */
  function ToLower(s: string): (r: string)
    ensures |r| == |s|
    ensures forall i :: 0 <= i < |s| ==> r[i] == LowerChar(s[i])
  {
    if s == [] then [] else [LowerChar(s[0])] + ToLower(s[1..])
  }

  /** Lower-casing distributes over concatenation. */
  lemma ToLowerOfConcat(a: string, b: string)
    ensures ToLower(a + b) == ToLower(a) + ToLower(b)
  {
    assert forall i :: 0 <= i < |a + b| ==> ToLower(a + b)[i] == (ToLower(a) + ToLower(b))[i];
  }

  /** Lower-casing twice is lower-casing once. */
  lemma ToLowerIdempotent(s: string)
    ensures ToLower(ToLower(s)) == ToLower(s)
  {
    assert forall i :: 0 <= i < |s| ==> ToLower(ToLower(s))[i] == ToLower(s)[i];
  }

  /** `name.toLowerCase().includes(term.toLowerCase())`: a match is never longer
      than the name. */
  predicate ContainsIgnoringCase(name: string, term: string)
    ensures ContainsIgnoringCase(name, term) ==> |term| <= |name|
  {
    Contains(ToLower(name), ToLower(term))
  }

  /** A name that contains the term verbatim matches it, ignoring case. */
  lemma ContainsIgnoringCaseOfInfix(a: string, term: string, b: string)
    ensures ContainsIgnoringCase(a + term + b, term)
  {
    ToLowerOfConcat(a + term, b);
    ToLowerOfConcat(a, term);
    ContainsInfix(ToLower(a), ToLower(term), ToLower(b));
  }

  /** The case of the name does not matter: its lower-cased form matches the
      same terms. */
  lemma ContainsIgnoringCaseOfLowered(name: string, term: string)
    ensures ContainsIgnoringCase(ToLower(name), term) <==> ContainsIgnoringCase(name, term)
  {
    ToLowerIdempotent(name);
  }

  /** `xs.map(x => x.trim())`: same length, each element trimmed. */
  function TrimAll(xs: seq<string>): (r: seq<string>)
    ensures |r| == |xs|
    ensures forall i :: 0 <= i < |xs| ==> r[i] == Trim(xs[i])
  {
    if xs == [] then [] else [Trim(xs[0])] + TrimAll(xs[1..])
  }

  /** `a` is `b` with some elements deleted: order kept, nothing invented. */
  ghost predicate IsSubsequence(a: seq<string>, b: seq<string>)
    decreases |b|
  {
    if a == [] then true
    else if b == [] then false
    else (a[0] == b[0] && IsSubsequence(a[1..], b[1..])) || IsSubsequence(a, b[1..])
  }

  /** A subsequence is no longer than the sequence it is taken from, and each of
      its elements comes from that sequence. */
  lemma {:induction false} SubsequenceBounds(a: seq<string>, b: seq<string>)
    requires IsSubsequence(a, b)
    ensures |a| <= |b|
    ensures forall x :: x in a ==> x in b
    decreases |b|
  {
    if a != [] {
      if a[0] == b[0] && IsSubsequence(a[1..], b[1..]) {
        SubsequenceBounds(a[1..], b[1..]);
        assert forall x :: x in a ==> x == a[0] || x in a[1..];
      } else {
        SubsequenceBounds(a, b[1..]);
      }
    }
  }
}
