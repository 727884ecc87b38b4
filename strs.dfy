/**
 * The few pieces of Go's `strings` package the event-stream code relies on:
 * `Index`, `TrimSpace`, `TrimRight` with a cut set and `TrimPrefix`, plus
 * concatenation and counting over sequences of strings.
 *
 * A string is a sequence of Unicode code points (a Go string holding valid
 * UTF-8). Every character the wire format treats specially is ASCII, so the
 * byte-wise operations of the Go code and these code-point-wise ones agree.
 */
module Strs {

  /** Concatenation of a sequence of strings, front to back. */
  function Concat(ss: seq<string>): string {
    if ss == [] then "" else ss[0] + Concat(ss[1..])
  }

  lemma {:induction false} ConcatAppend(xs: seq<string>, ys: seq<string>)
    ensures Concat(xs + ys) == Concat(xs) + Concat(ys)
  {
    if xs == [] {
      assert xs + ys == ys;
    } else {
      assert (xs + ys)[0] == xs[0];
      assert (xs + ys)[1..] == xs[1..] + ys;
      ConcatAppend(xs[1..], ys);
    }
  }

  lemma ConcatCons(x: string, ys: seq<string>)
    ensures Concat([x] + ys) == x + Concat(ys)
  {
    assert ([x] + ys)[0] == x;
    assert ([x] + ys)[1..] == ys;
  }

  /** Text written after `a + b` extends it to `a + (b + c)`. */
  lemma Extend(a: string, b: string, c: string)
    ensures a + b + c == a + (b + c)
  {
  }

  /** Four pieces written one after another after `t` extend it by their concatenation. */
  lemma Extend4(t: string, p1: string, p2: string, p3: string, p4: string)
    ensures t + p1 + p2 + p3 + p4 == t + (p1 + p2 + p3 + p4)
  {
  }

  /** Number of occurrences of `c` in `s`. */
  function Count(s: string, c: char): nat {
    if s == [] then 0 else (if s[0] == c then 1 else 0) + Count(s[1..], c)
  }

  lemma {:induction false} CountAppend(a: string, b: string, c: char)
    ensures Count(a + b, c) == Count(a, c) + Count(b, c)
  {
    if a == [] {
      assert a + b == b;
    } else {
      assert (a + b)[0] == a[0];
      assert (a + b)[1..] == a[1..] + b;
      CountAppend(a[1..], b, c);
    }
  }

  lemma {:induction false} CountAbsent(s: string, c: char)
    requires c !in s
    ensures Count(s, c) == 0
  {
    if s != [] {
      assert c !in s[1..] by {
        forall k | 0 <= k < |s| - 1 ensures s[1..][k] != c {
          assert s[1..][k] == s[k + 1];
        }
      }
      CountAbsent(s[1..], c);
    }
  }

  /**
   * `strings.Index` for a one-character pattern: the position of the first
   * `c` in `s`, or -1 when `s` has none.
   */
  function Index(s: string, c: char): (k: int)
    ensures -1 <= k < |s|
  {
    if s == [] then -1
    else if s[0] == c then 0
    else
      var k := Index(s[1..], c);
      if k == -1 then -1 else k + 1
  }

  /** `Index` finds the first `c`, and reports -1 exactly when there is none. */
  lemma {:induction false} IndexFinds(s: string, c: char)
    ensures var k := Index(s, c);
            (k == -1 <==> c !in s) && (0 <= k ==> s[k] == c && c !in s[..k])
  {
    if s != [] && s[0] != c {
      IndexFinds(s[1..], c);
      assert s == [s[0]] + s[1..];
      if Index(s[1..], c) >= 0 {
        assert s[..Index(s, c)] == [s[0]] + s[1..][..Index(s[1..], c)];
      }
    }
  }

  /** The first `c` in `x + y` is the last character of `x` when `x` ends in `c` and has no other. */
  lemma IndexAfterPrefix(x: string, y: string, c: char)
    requires |x| > 0 && x[|x| - 1] == c && c !in x[..|x| - 1]
    ensures Index(x + y, c) == |x| - 1
  {
    var s := x + y;
    IndexFinds(s, c);
    var k := Index(s, c);
    assert s[|x| - 1] == c;
    assert s[..|x| - 1] == x[..|x| - 1];
  }

  /** The white space of Go's `unicode.IsSpace` (the Unicode White_Space property). */
  predicate IsSpace(c: char) {
    c == '\t' || c == '\n' || c == '\U{B}' || c == '\U{C}' || c == '\r' || c == ' '
    || c == '\U{85}' || c == '\U{A0}' || c == '\U{1680}'
    || ('\U{2000}' <= c <= '\U{200A}')
    || c == '\U{2028}' || c == '\U{2029}' || c == '\U{202F}' || c == '\U{205F}' || c == '\U{3000}'
  }

  /** `s` without its leading white space. */
  function TrimLeftSpace(s: string): string {
    if s != [] && IsSpace(s[0]) then TrimLeftSpace(s[1..]) else s
  }

  /** `s` without its trailing white space. */
  function TrimRightSpace(s: string): string {
    if s != [] && IsSpace(s[|s| - 1]) then TrimRightSpace(s[..|s| - 1]) else s
  }

  /** What `TrimLeftSpace` keeps is a suffix of `s` not starting with white space; all it removes is white space. */
  lemma {:induction false} TrimLeftSpaceCuts(s: string)
    ensures var r := TrimLeftSpace(s);
            |r| <= |s| && r == s[|s| - |r|..] && (r == [] || !IsSpace(r[0]))
            && forall k | 0 <= k < |s| - |r| :: IsSpace(s[k])
    decreases |s|
  {
    if s != [] && IsSpace(s[0]) {
      TrimLeftSpaceCuts(s[1..]);
    }
  }

  /** What `TrimRightSpace` keeps is a prefix of `s` not ending in white space; all it removes is white space. */
  lemma {:induction false} TrimRightSpaceCuts(s: string)
    ensures var r := TrimRightSpace(s);
            |r| <= |s| && r == s[..|r|] && (r == [] || !IsSpace(r[|r| - 1]))
            && forall k | |r| <= k < |s| :: IsSpace(s[k])
    decreases |s|
  {
    if s != [] && IsSpace(s[|s| - 1]) {
      TrimRightSpaceCuts(s[..|s| - 1]);
    }
  }

  /** `strings.TrimSpace`: `s` without leading and trailing white space. */
  function TrimSpace(s: string): string {
    TrimRightSpace(TrimLeftSpace(s))
  }

  /** A string that neither starts nor ends with white space is its own trim. */
  lemma TrimSpaceOfTrimmed(s: string)
    requires s == [] || (!IsSpace(s[0]) && !IsSpace(s[|s| - 1]))
    ensures TrimSpace(s) == s
  {
  }

  /** `strings.TrimSpace` is idempotent. */
  lemma TrimSpaceIdempotent(s: string)
    ensures TrimSpace(TrimSpace(s)) == TrimSpace(s)
  {
    var l := TrimLeftSpace(s);
    var t := TrimRightSpace(l);
    TrimLeftSpaceCuts(s);
    TrimRightSpaceCuts(l);
    if t != [] {
      assert t[0] == l[0];
    }
    TrimSpaceOfTrimmed(t);
  }

  /** `strings.TrimRight(s, cutset)`: `s` without its trailing characters drawn from `cutset`. */
  function TrimRight(s: string, cutset: string): (r: string)
    ensures |r| <= |s|
  {
    if s != [] && s[|s| - 1] in cutset then TrimRight(s[..|s| - 1], cutset) else s
  }

  /** What `TrimRight` keeps is a prefix of `s` not ending in the cut set; all it removes is in it. */
  lemma {:induction false} TrimRightCuts(s: string, cutset: string)
    ensures var r := TrimRight(s, cutset);
            r == s[..|r|] && (r == [] || r[|r| - 1] !in cutset)
            && forall k | |r| <= k < |s| :: s[k] in cutset
    decreases |s|
  {
    if s != [] && s[|s| - 1] in cutset {
      TrimRightCuts(s[..|s| - 1], cutset);
    }
  }

  /** `strings.TrimPrefix(s, prefix)`: `s` without `prefix` when it starts with it. */
  function TrimPrefix(s: string, prefix: string): (r: string)
    ensures prefix <= s ==> s == prefix + r
    ensures !(prefix <= s) ==> r == s
  {
    if prefix <= s then s[|prefix|..] else s
  }
}
