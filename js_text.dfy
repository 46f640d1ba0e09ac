/**
 * The few JavaScript string operations the server module relies on:
 * `String.prototype.trim`, `startsWith`, `includes` and the truthiness
 * of an optional string.
 */
module JsText {
  import opened Wrappers

  /** A JavaScript string value that may be `undefined` is truthy when it is present and not empty. */
  predicate Truthy(s: Option<string>) {
    s.Some? && s.value != ""
  }

  /**
   * The characters `trim` removes at both ends: the ECMAScript WhiteSpace
   * characters (tab, vertical tab, form feed, space, no-break space, the
   * byte order mark and every space separator) and the LineTerminator
   * characters (line feed, carriage return, line and paragraph separator).
   */
  predicate IsWhiteSpace(c: char) {
    || c == '\t' || c == '\n' || c == '\U{B}' || c == '\U{C}' || c == '\r'
    || c == ' ' || c == '\U{A0}' || c == '\U{1680}'
    || ('\U{2000}' <= c <= '\U{200A}')
    || c == '\U{2028}' || c == '\U{2029}' || c == '\U{202F}' || c == '\U{205F}'
    || c == '\U{3000}' || c == '\U{FEFF}'
  }

  /** Every character of `s` from index `lo` up to `hi` is white space. */
  predicate WhiteSpaceBetween(s: string, lo: nat, hi: nat)
    requires lo <= hi <= |s|
  {
    forall i :: lo <= i < hi ==> IsWhiteSpace(s[i])
  }

  predicate AllWhiteSpace(s: string) {
    WhiteSpaceBetween(s, 0, |s|)
  }

  /** `s.startsWith(prefix)` */
  predicate StartsWith(s: string, prefix: string) {
    |prefix| <= |s| && s[..|prefix|] == prefix
  }

  /** `s.endsWith(suffix)` */
  predicate EndsWith(s: string, suffix: string) {
    |suffix| <= |s| && s[|s| - |suffix|..] == suffix
  }

  /** `sub` occurs in `s` starting at index `i`. */
  predicate OccursAt(s: string, sub: string, i: nat) {
    i + |sub| <= |s| && s[i..i + |sub|] == sub
  }

  /** `s.includes(sub)`, scanning from the left. */
  function Includes(s: string, sub: string): bool
    decreases |s|
  {
    StartsWith(s, sub) || (s != [] && Includes(s[1..], sub))
  }

  /** `includes` holds exactly when `sub` occurs somewhere in `s`. */
  lemma {:induction false} IncludesIff(s: string, sub: string)
    ensures Includes(s, sub) <==> exists i: nat :: OccursAt(s, sub, i)
    decreases |s|
  {
    if StartsWith(s, sub) {
      assert s[0..|sub|] == s[..|sub|];
      assert OccursAt(s, sub, 0);
    }
    if s != [] {
      IncludesIff(s[1..], sub);
      if Includes(s[1..], sub) {
        var i: nat :| OccursAt(s[1..], sub, i);
        assert s[i + 1..i + 1 + |sub|] == s[1..][i..i + |sub|];
        assert OccursAt(s, sub, i + 1);
      }
      if i: nat :| OccursAt(s, sub, i) {
        if i > 0 {
          assert s[1..][i - 1..i - 1 + |sub|] == s[i..i + |sub|];
          assert OccursAt(s[1..], sub, i - 1);
          assert Includes(s[1..], sub);
        } else {
          assert s[..|sub|] == s[0..|sub|];
          assert StartsWith(s, sub);
        }
        assert Includes(s, sub);
      }
    } else {
      if i: nat :| OccursAt(s, sub, i) {
        assert |sub| == 0;
        assert StartsWith(s, sub);
      }
    }
  }

  /** The middle of a concatenation occurs in it, right after the first part. */
  lemma MiddleIncluded(a: string, b: string, c: string)
    ensures OccursAt(a + b + c, b, |a|)
    ensures Includes(a + b + c, b)
  {
    assert (a + b + c)[|a|..|a| + |b|] == b;
    assert OccursAt(a + b + c, b, |a|);
    IncludesIff(a + b + c, b);
  }

  /** Concatenation is associative. */
  lemma ConcatAssociates(x: string, y: string, z: string)
    ensures (x + y) + z == x + (y + z)
  {
  }

  /** Each of four concatenated parts can be read back at its offset. */
  lemma FourParts(a: string, b: string, c: string, d: string)
    ensures var s := a + b + c + d;
            && |s| == |a| + |b| + |c| + |d|
            && s[..|a|] == a
            && s[|a|..|a| + |b|] == b
            && s[|a| + |b|..|a| + |b| + |c|] == c
            && s[|a| + |b| + |c|..] == d
  {
    var s := a + b + c + d;
    assert s[|a|..|a| + |b|] == b;
    assert s[|a| + |b|..|a| + |b| + |c|] == c;
  }

  /** A concatenation starts with its first part, and what follows that part is the second. */
  lemma ConcatSplits(a: string, b: string)
    ensures StartsWith(a + b, a) && (a + b)[|a|..] == b
  {
    assert (a + b)[..|a|] == a;
  }

  /** A string that lacks one of the characters of `sub` does not include `sub`. */
  lemma {:induction false} MissingCharNotIncluded(s: string, sub: string, k: nat)
    requires k < |sub| && sub[k] !in s
    ensures !Includes(s, sub)
    decreases |s|
  {
    if |sub| <= |s| {
      assert s[..|sub|][k] in s;
    }
    if s != [] {
      assert forall c :: c in s[1..] ==> c in s;
      MissingCharNotIncluded(s[1..], sub, k);
    }
  }

  /** `trimStart` */
  function TrimStart(s: string): string
    decreases |s|
  {
    if s != [] && IsWhiteSpace(s[0]) then TrimStart(s[1..]) else s
  }

  /** `trimEnd` */
  function TrimEnd(s: string): string
    decreases |s|
  {
    if s != [] && IsWhiteSpace(s[|s| - 1]) then TrimEnd(s[..|s| - 1]) else s
  }

  /** `trim`: white space removed at both ends. */
  function Trim(s: string): string {
    TrimEnd(TrimStart(s))
  }

  /** `trimStart` drops a run of leading white space, and only that. */
  lemma {:induction false} TrimStartSpec(s: string)
    ensures |TrimStart(s)| <= |s|
    ensures TrimStart(s) == s[|s| - |TrimStart(s)|..]
    ensures WhiteSpaceBetween(s, 0, |s| - |TrimStart(s)|)
    ensures TrimStart(s) == [] || !IsWhiteSpace(TrimStart(s)[0])
    decreases |s|
  {
    if s != [] && IsWhiteSpace(s[0]) {
      var t := s[1..];
      TrimStartSpec(t);
      var k := |t| - |TrimStart(t)|;
      assert TrimStart(s) == t[k..] == s[k + 1..];
      forall i | 0 <= i < k + 1 ensures IsWhiteSpace(s[i]) {
        if i > 0 { assert s[i] == t[i - 1]; }
      }
    }
  }

  /** `trimEnd` drops a run of trailing white space, and only that. */
  lemma {:induction false} TrimEndSpec(s: string)
    ensures |TrimEnd(s)| <= |s|
    ensures TrimEnd(s) == s[..|TrimEnd(s)|]
    ensures WhiteSpaceBetween(s, |TrimEnd(s)|, |s|)
    ensures TrimEnd(s) == [] || !IsWhiteSpace(TrimEnd(s)[|TrimEnd(s)| - 1])
    decreases |s|
  {
    if s != [] && IsWhiteSpace(s[|s| - 1]) {
      var t := s[..|s| - 1];
      TrimEndSpec(t);
      var k := |TrimEnd(t)|;
      assert TrimEnd(s) == t[..k] == s[..k];
      forall i | k <= i < |s| ensures IsWhiteSpace(s[i]) {
        if i < |s| - 1 { assert s[i] == t[i]; }
      }
    }
  }

  /** Where the text kept by `trim` begins in `s`. */
  function TrimOffset(s: string): nat {
    if |TrimStart(s)| <= |s| then |s| - |TrimStart(s)| else 0
  }

  /**
   * What `trim` returns: the part of `s` starting at `TrimOffset(s)` with
   * only white space cut off around it, neither starting nor ending with
   * white space; it is empty exactly when `s` is nothing but white space.
   */
  lemma TrimSpec(s: string)
    ensures var r, i := Trim(s), TrimOffset(s);
            && i + |r| <= |s| && r == s[i..i + |r|]
            && WhiteSpaceBetween(s, 0, i) && WhiteSpaceBetween(s, i + |r|, |s|)
            && (r != [] ==> !IsWhiteSpace(r[0]) && !IsWhiteSpace(r[|r| - 1]))
            && (r == [] <==> AllWhiteSpace(s))
  {
    TrimStartSpec(s);
    var t := TrimStart(s);
    TrimEndSpec(t);
    var r := TrimEnd(t);
    var i := |s| - |t|;
    assert r == s[i..i + |r|];
    forall k | i + |r| <= k < |s| ensures IsWhiteSpace(s[k]) {
      assert s[k] == t[k - i];
    }
  }

  /** Trimming twice changes nothing more. */
  lemma TrimIdempotent(s: string)
    ensures Trim(Trim(s)) == Trim(s)
  {
    TrimSpec(s);
    var r := Trim(s);
    assert TrimStart(r) == r;
    assert TrimEnd(r) == r;
  }
}
