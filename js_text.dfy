/**
 * The pieces of JavaScript's string semantics that the canvas code relies on:
 * the `\s` character class (which `String.prototype.trim` also strips) and
 * trimming itself.
 */
module JsText {

  /**
   * JavaScript's `\s`: the WhiteSpace and LineTerminator code points of
   * ECMAScript (tab, vertical tab, form feed, space, no-break space, the byte
   * order mark, the Unicode space separators, line feed, carriage return,
   * line separator and paragraph separator).
   */
  predicate IsWs(c: char) {
    var n := c as int;
    n == 0x09 || n == 0x0A || n == 0x0B || n == 0x0C || n == 0x0D || n == 0x20
    || n == 0xA0 || n == 0x1680 || (0x2000 <= n <= 0x200A)
    || n == 0x2028 || n == 0x2029 || n == 0x202F || n == 0x205F
    || n == 0x3000 || n == 0xFEFF
  }

  /** No character of `s` is whitespace. */
  predicate NoWs(s: string) {
    forall i | 0 <= i < |s| :: !IsWs(s[i])
  }

  /** Joining two strings without whitespace gives one without whitespace. */
  lemma NoWsAppend(a: string, b: string)
    requires NoWs(a) && NoWs(b)
    ensures NoWs(a + b)
  {
    forall i | 0 <= i < |a + b| ensures !IsWs((a + b)[i]) {
      if i < |a| { assert (a + b)[i] == a[i]; } else { assert (a + b)[i] == b[i - |a|]; }
    }
  }

  /** Every character of `s` is whitespace. */
  predicate AllWs(s: string) {
    forall i | 0 <= i < |s| :: IsWs(s[i])
  }

  /** Drops the leading whitespace of `s`: what is left is a suffix of `s` that does not start with whitespace. */
  function TrimStart(s: string): (r: string)
    ensures |r| <= |s| && r == s[|s| - |r|..]
    ensures AllWs(s[..|s| - |r|])
    ensures r != [] ==> !IsWs(r[0])
  {
    if s != [] && IsWs(s[0]) then TrimStart(s[1..]) else s
  }

  /** Drops the trailing whitespace of `s`: what is left is a prefix of `s` that does not end with whitespace. */
  function TrimEnd(s: string): (r: string)
    ensures |r| <= |s| && r == s[..|r|]
    ensures AllWs(s[|r|..])
    ensures r != [] ==> !IsWs(r[|r| - 1])
  {
    if s != [] && IsWs(s[|s| - 1]) then TrimEnd(s[..|s| - 1]) else s
  }

  /** `String.prototype.trim`. */
  function Trim(s: string): string {
    TrimEnd(TrimStart(s))
  }

  /** Trimming leaves a contiguous piece of `s` and cuts only whitespace. */
  lemma TrimIsSlice(s: string)
    ensures exists lo, hi :: 0 <= lo <= hi <= |s| && Trim(s) == s[lo..hi]
                             && AllWs(s[..lo]) && AllWs(s[hi..])
  {
    var t := TrimStart(s);
    var lo := |s| - |t|;
    var r := TrimEnd(t);
    var hi := lo + |r|;
    assert AllWs(s[..lo]);
    assert r == s[lo..hi];
    assert AllWs(t[|r|..]) && s[hi..] == t[|r|..];
    assert 0 <= lo <= hi <= |s| && Trim(s) == s[lo..hi] && AllWs(s[..lo]) && AllWs(s[hi..]);
  }

  /** What trimming leaves has no whitespace at either end. */
  lemma TrimEnds(s: string)
    ensures |Trim(s)| > 0 ==> !IsWs(Trim(s)[0]) && !IsWs(Trim(s)[|Trim(s)| - 1])
  {
    var t := TrimStart(s);
    var r := TrimEnd(t);
    if r != [] {
      assert r[0] == t[0];
    }
  }

  /** A string trims to empty exactly when it is all whitespace. */
  lemma TrimEmptyIff(s: string)
    ensures |Trim(s)| == 0 <==> AllWs(s)
  {
    var t := TrimStart(s);
    var lo := |s| - |t|;
    if t == [] {
      assert s[..lo] == s;
    } else {
      assert t[0] == s[lo];
    }
  }

  /** A suffix is a slice followed by the suffix after it. */
  lemma SliceJoin(s: string, i: nat, j: nat)
    requires i <= j <= |s|
    ensures s[i..] == s[i..j] + s[j..]
  {
    forall n | 0 <= n < |s| - i ensures s[i..][n] == (s[i..j] + s[j..])[n] {
      if n < j - i { assert s[i..j][n] == s[i + n]; } else { assert s[j..][n - (j - i)] == s[i + n]; }
    }
  }

  /** Concatenation of a sequence of strings, in order. */
  function Concat(parts: seq<string>): string {
    if parts == [] then [] else parts[0] + Concat(parts[1..])
  }

  /** Concatenation distributes over appending sequences of strings. */
  lemma {:induction false} ConcatAppend(a: seq<string>, b: seq<string>)
    ensures Concat(a + b) == Concat(a) + Concat(b)
  {
    if a == [] {
      assert a + b == b;
    } else {
      assert (a + b)[0] == a[0];
      assert (a + b)[1..] == a[1..] + b;
      ConcatAppend(a[1..], b);
    }
  }

  /** Concatenation of two pieces followed by more. */
  lemma ConcatPair(a: string, b: string, rest: seq<string>)
    ensures Concat([a, b] + rest) == a + (b + Concat(rest))
  {
    assert ([a, b] + rest)[1..] == [b] + rest;
    assert ([b] + rest)[1..] == rest;
  }

  /**
   * `s.split(sep)[0]` for a one-character separator: the text before the first
   * `sep`, or all of `s` when it holds none.
   */
  function SplitFirst(s: string, sep: char): (r: string)
    ensures |r| <= |s| && r == s[..|r|]
    ensures sep !in r
    ensures |r| < |s| <==> sep in s
    ensures |r| < |s| ==> s[|r|] == sep
  {
    if s == [] then []
    else if s[0] == sep then []
    else [s[0]] + SplitFirst(s[1..], sep)
  }
}
