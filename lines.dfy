/**
 * Reading a byte stream line by line, as `bufio.Reader.ReadString('\n')`
 * does: each successful read returns the text up to and including the next
 * `\n`; once no `\n` is left, the read returns the unterminated rest together
 * with an error.
 */
module Lines {
  import opened Strs

  /** One complete line as `ReadString('\n')` returns it: ends in `\n` and holds no other. */
  predicate IsLine(s: string) {
    |s| > 0 && s[|s| - 1] == '\n' && '\n' !in s[..|s| - 1]
  }

  predicate AllLines(ls: seq<string>) {
    forall i | 0 <= i < |ls| :: IsLine(ls[i])
  }

  /**
   * The complete lines of `body`, in order. What follows the last `\n` is the
   * fragment that the read reporting end of stream hands back with its error.
   */
  function ReadLines(body: string): seq<string>
    decreases |body|
  {
    var k := Index(body, '\n');
    if k < 0 then [] else [body[..k + 1]] + ReadLines(body[k + 1..])
  }

  lemma AllLinesAppend(xs: seq<string>, ys: seq<string>)
    requires AllLines(xs) && AllLines(ys)
    ensures AllLines(xs + ys)
  {
    forall i | 0 <= i < |xs| + |ys| ensures IsLine((xs + ys)[i]) {
      if i < |xs| {
        assert (xs + ys)[i] == xs[i];
      } else {
        assert (xs + ys)[i] == ys[i - |xs|];
      }
    }
  }

  /**
   * The lines read are complete lines that make up the front of `body`; no
   * `\n` is left in the rest.
   */
  lemma {:induction false} ReadLinesCuts(body: string)
    ensures var lines := ReadLines(body);
            AllLines(lines) && |Concat(lines)| <= |body| && body[..|Concat(lines)|] == Concat(lines)
            && '\n' !in body[|Concat(lines)|..]
    decreases |body|
  {
    var k := Index(body, '\n');
    IndexFinds(body, '\n');
    if k >= 0 {
      var rest := ReadLines(body[k + 1..]);
      ReadLinesCuts(body[k + 1..]);
      ConcatCons(body[..k + 1], rest);
      assert body[..k + 1][..k] == body[..k];
      assert body[..k + 1] + body[k + 1..][..|Concat(rest)|] == body[..k + 1 + |Concat(rest)|];
      assert body[k + 1..][|Concat(rest)|..] == body[k + 1 + |Concat(rest)|..];
      var lines := [body[..k + 1]] + rest;
      forall i | 0 <= i < |lines| ensures IsLine(lines[i]) {
        if i > 0 {
          assert lines[i] == rest[i - 1];
        }
      }
    } else {
      assert body[|Concat([])|..] == body;
    }
  }

  /**
   * Lines written back to back, followed by any text without `\n`, are read
   * back as exactly those lines: no line can hide another inside it.
   */
  lemma ReadLinesOfLines(ls: seq<string>, tail: string)
    requires AllLines(ls)
    requires '\n' !in tail
    ensures ReadLines(Concat(ls) + tail) == ls
  {
    ReadAfterLines(ls, tail);
    IndexFinds(tail, '\n');
    assert ls + [] == ls;
  }

  /** Complete lines at the front of a stream are read first, then the lines of what follows them. */
  lemma {:induction false} ReadAfterLines(ls: seq<string>, rest: string)
    requires AllLines(ls)
    ensures ReadLines(Concat(ls) + rest) == ls + ReadLines(rest)
  {
    if ls == [] {
      assert Concat(ls) + rest == rest;
    } else {
      var after := Concat(ls[1..]) + rest;
      assert Concat(ls) + rest == ls[0] + after by {
        ConcatCons(ls[0], ls[1..]);
        assert [ls[0]] + ls[1..] == ls;
      }
      ReadFirstLine(ls[0], after);
      ReadAfterLines(ls[1..], rest);
      HeadTail(ls, ReadLines(rest));
    }
  }

  lemma HeadTail(xs: seq<string>, ys: seq<string>)
    requires xs != []
    ensures [xs[0]] + (xs[1..] + ys) == xs + ys
  {
    assert [xs[0]] + xs[1..] == xs;
  }

  /** A complete line at the front of a stream is the first line read. */
  lemma ReadFirstLine(l: string, after: string)
    requires IsLine(l)
    ensures ReadLines(l + after) == [l] + ReadLines(after)
  {
    var body := l + after;
    IndexAfterPrefix(l, after, '\n');
    assert body[..|l|] == l;
    assert body[|l|..] == after;
  }

  /** A non-empty run of complete lines ends in `\n`. */
  lemma {:induction false} ConcatLinesEnds(ls: seq<string>)
    requires AllLines(ls) && ls != []
    ensures |Concat(ls)| > 0 && Concat(ls)[|Concat(ls)| - 1] == '\n'
  {
    ConcatCons(ls[0], ls[1..]);
    if ls[1..] != [] {
      ConcatLinesEnds(ls[1..]);
    }
  }

  /** A run of complete lines holds exactly one `\n` per line. */
  lemma {:induction false} CountNewlines(ls: seq<string>)
    requires AllLines(ls)
    ensures Count(Concat(ls), '\n') == |ls|
  {
    if ls != [] {
      var l := ls[0];
      assert l == l[..|l| - 1] + ['\n'];
      CountAbsent(l[..|l| - 1], '\n');
      CountAppend(l[..|l| - 1], ['\n'], '\n');
      CountAppend(l, Concat(ls[1..]), '\n');
      CountNewlines(ls[1..]);
    }
  }

  /** A stream that is empty or ends in `\n` is read whole: it is exactly its lines. */
  lemma ReadWhole(body: string)
    requires body == [] || body[|body| - 1] == '\n'
    ensures Concat(ReadLines(body)) == body
  {
    ReadLinesCuts(body);
  }

  /** A line feed after a stream of complete lines is read as one more, blank, line. */
  lemma ReadBlankLine(body: string)
    requires body == [] || body[|body| - 1] == '\n'
    ensures ReadLines(body + "\n") == ReadLines(body) + ["\n"]
  {
    ReadLinesCuts(body);
    ReadWhole(body);
    ReadOneMore(ReadLines(body), "\n");
  }

  /** A run of complete lines followed by one more line is read back as those lines and that one. */
  lemma ReadOneMore(ls: seq<string>, l: string)
    requires AllLines(ls) && IsLine(l)
    ensures ReadLines(Concat(ls) + l) == ls + [l]
  {
    var all := ls + [l];
    assert AllLines(all) by {
      forall i | 0 <= i < |all| ensures IsLine(all[i]) {
        if i < |ls| {
          assert all[i] == ls[i];
        }
      }
    }
    ConcatAppend(ls, [l]);
    ConcatCons(l, []);
    assert Concat(all) + "" == Concat(ls) + l;
    ReadLinesOfLines(all, "");
  }

  /**
   * Text added after the last `\n` of a stream is never returned as a line:
   * the complete lines are those of the stream up to its last `\n`.
   */
  lemma FragmentNotRead(body: string, fragment: string)
    requires body == [] || body[|body| - 1] == '\n'
    requires '\n' !in fragment
    ensures ReadLines(body + fragment) == ReadLines(body)
  {
    var ls := ReadLines(body);
    ReadLinesCuts(body);
    ReadWhole(body);
    ReadLinesOfLines(ls, fragment);
  }
}
