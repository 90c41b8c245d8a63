/** Characters and strings as the statement parsers and the reward rule use them,
    with the meaning Python gives them on ASCII text. */
module Text {

  /** An ASCII digit: the part of `\d` this model covers. */
  predicate IsDigit(c: char) {
    '0' <= c <= '9'
  }

  /** ASCII whitespace as `\s` and `str.strip()` see it: space, \t, \n, \v,
      \f, \r and the separators \x1c to \x1f. */
  predicate IsSpace(c: char) {
    c == ' ' || '\t' <= c <= '\r' || '\U{1C}' <= c <= '\U{1F}'
  }

  /** Every character of `t[lo..hi]` is whitespace. */
  predicate AllSpace(t: string, lo: nat, hi: nat)
    requires lo <= hi <= |t|
  {
    forall k :: lo <= k < hi ==> IsSpace(t[k])
  }

  /** The end of the run of whitespace in `t` that starts at `k`. */
  function SkipSpaces(t: string, k: nat): (r: nat)
    requires k <= |t|
    ensures k <= r <= |t| && AllSpace(t, k, r)
    ensures r == |t| || !IsSpace(t[r])
    decreases |t| - k
  {
    if k < |t| && IsSpace(t[k]) then SkipSpaces(t, k + 1) else k
  }

  /** A whitespace run from `k` that ends at a non-space ends where `SkipSpaces` says. */
  lemma {:induction false} SpaceRunEnd(t: string, k: nat, q: nat)
    requires k <= q < |t| && AllSpace(t, k, q) && !IsSpace(t[q])
    ensures SkipSpaces(t, k) == q
    decreases q - k
  {
    if k < q {
      assert IsSpace(t[k]);
      SpaceRunEnd(t, k + 1, q);
    }
  }

  /** A whitespace run from `k` never reaches past `SkipSpaces(t, k)`. */
  lemma {:induction false} SpaceRunBound(t: string, k: nat, q: nat)
    requires k <= q <= |t| && AllSpace(t, k, q)
    ensures q <= SkipSpaces(t, k)
    decreases q - k
  {
    if k < q {
      assert IsSpace(t[k]);
      SpaceRunBound(t, k + 1, q);
    }
  }

  function LowerChar(c: char): char {
    if 'A' <= c <= 'Z' then (c as int + 32) as char else c
  }

  /** `str.lower()` on ASCII letters; every other character is kept. */
  function Lower(s: string): (r: string)
    ensures |r| == |s|
    ensures forall k :: 0 <= k < |r| ==> !('A' <= r[k] <= 'Z')
    ensures forall k :: 0 <= k < |s| ==> r[k] == s[k] || ('A' <= s[k] <= 'Z' && r[k] as int == s[k] as int + 32)
  {
    seq(|s|, k requires 0 <= k < |s| => LowerChar(s[k]))
  }

  /** `p` occurs in `s` starting at position `k`. */
  predicate OccursAt(s: string, p: string, k: nat) {
    k + |p| <= |s| && s[k..k + |p|] == p
  }

  /** Python's `p in s` on strings: `p` occurs in `s` as a contiguous piece. */
  predicate Contains(s: string, p: string) {
    exists k :: 0 <= k <= |s| - |p| && OccursAt(s, p, k)
  }

  /** `any(x in s for x in ps)`. */
  predicate ContainsAny(s: string, ps: seq<string>) {
    exists p :: p in ps && Contains(s, p)
  }

  /** Text that keeps an occurrence keeps it after more text is added on either side. */
  lemma ContainsExtend(s: string, p: string, before: string, after: string)
    requires Contains(s, p)
    ensures Contains(before + s + after, p)
  {
    var k :| 0 <= k <= |s| - |p| && OccursAt(s, p, k);
    var t := before + s + after;
    assert OccursAt(t, p, |before| + k) by {
      forall j | 0 <= j < |p|
        ensures t[|before| + k + j] == p[j]
      {
        assert t[|before| + k + j] == s[k + j];
      }
    }
  }

  /** The end of `s[lo..hi]` once trailing whitespace is dropped. */
  function TrimEnd(s: string, lo: nat, hi: nat): (r: nat)
    requires lo <= hi <= |s|
    ensures lo <= r <= hi && AllSpace(s, r, hi)
    ensures r == lo || !IsSpace(s[r - 1])
    decreases hi
  {
    if lo < hi && IsSpace(s[hi - 1]) then TrimEnd(s, lo, hi - 1) else hi
  }

  /** The string neither starts nor ends with whitespace. */
  predicate Stripped(r: string) {
    r == [] || (!IsSpace(r[0]) && !IsSpace(r[|r| - 1]))
  }

  /** `str.strip()`: `s` without its leading and trailing whitespace. */
  function Strip(s: string): (r: string)
    ensures Stripped(r)
    ensures exists i :: 0 <= i <= |s| - |r| && r == s[i..i + |r|]
                        && AllSpace(s, 0, i) && AllSpace(s, i + |r|, |s|)
  {
    var lo := SkipSpaces(s, 0);
    var hi := TrimEnd(s, lo, |s|);
    assert AllSpace(s, hi, |s|);
    s[lo..hi]
  }

  /** `strip()` leaves text without surrounding whitespace unchanged, so it
      is idempotent. */
  lemma StripStripped(s: string)
    requires Stripped(s)
    ensures Strip(s) == s
  {
    if s != [] {
      assert SkipSpaces(s, 0) == 0;
      assert TrimEnd(s, 0, |s|) == |s|;
    }
  }

  /** Pieces joined back with `sep` between them: `sep.join(lines)`. */
  function Join(lines: seq<string>, sep: char): string
    requires |lines| >= 1
  {
    if |lines| == 1 then lines[0] else lines[0] + [sep] + Join(lines[1..], sep)
  }

  /** `s.split(sep)` for a one-character separator: the pieces between the
      separators, always at least one, none holding a separator, and joining
      them back gives `s`. */
  function Split(s: string, sep: char): (lines: seq<string>)
    ensures |lines| >= 1
    ensures forall k :: 0 <= k < |lines| ==> sep !in lines[k]
    ensures Join(lines, sep) == s
  {
    if s == [] then [[]]
    else
      var rest := Split(s[1..], sep);
      if s[0] == sep then
        assert s == [] + [sep] + s[1..];
        [[]] + rest
      else
        assert Join([[s[0]] + rest[0]] + rest[1..], sep) == s by {
          var lines := [[s[0]] + rest[0]] + rest[1..];
          if |rest| == 1 {
            assert lines == [[s[0]] + rest[0]];
          } else {
            assert lines[1..] == rest[1..];
          }
        }
        [[s[0]] + rest[0]] + rest[1..]
  }

  /** Splitting text made by joining separator-free pieces gives those pieces back. */
  lemma {:induction false} SplitJoin(lines: seq<string>, sep: char)
    requires |lines| >= 1
    requires forall k :: 0 <= k < |lines| ==> sep !in lines[k]
    ensures Split(Join(lines, sep), sep) == lines
  {
    if |lines| == 1 {
      SplitPiece(lines[0], sep);
    } else {
      SplitJoin(lines[1..], sep);
      SplitPrefix(lines[0], Join(lines[1..], sep), sep);
      assert lines == [lines[0]] + lines[1..];
    }
  }

  /** A piece without separators splits into itself. */
  lemma {:induction false} SplitPiece(x: string, sep: char)
    requires sep !in x
    ensures Split(x, sep) == [x]
  {
    if x != [] {
      SplitPiece(x[1..], sep);
      assert [x[0]] + x[1..] == x;
    }
  }

  /** Splitting `x + sep + y` puts the separator-free `x` before the pieces of `y`. */
  lemma {:induction false} SplitPrefix(x: string, y: string, sep: char)
    requires sep !in x
    ensures Split(x + [sep] + y, sep) == [x] + Split(y, sep)
  {
    var s := x + [sep] + y;
    if x == [] {
      assert s[1..] == y;
    } else {
      assert s[1..] == x[1..] + [sep] + y;
      SplitPrefix(x[1..], y, sep);
      assert [x[0]] + x[1..] == x;
    }
  }
}
