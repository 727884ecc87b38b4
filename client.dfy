/**
 * The client side of client.go: `handleResponse` reads the response body
 * line by line, `parseEvent` applies one `<field>:<value>` line to the
 * pending event, and `dispatchEvent` hands a finished event to the event
 * handler when it carries an id, an event name or data.
 *
 * The pure functions `Feed`, `FeedAll` and `Dispatches` say what the parser
 * does to a run of lines; the methods do it step by step on objects, as the
 * Go code does, and are proved to agree with them.
 */
module Client {
  import opened Wrappers
  import opened Strs
  import opened Strconv
  import opened Lines
  import opened Wire
  import opened Events

  /** The error a read or the event handler reports; `EOF` is `io.EOF`. */
  datatype Error = EOF | Failure(reason: string)

  /** The event a line creates when none is pending: `&Event{}`. */
  const Blank := Event("", "", 0, "")

  /** The guard of `dispatchEvent`: only an event with data, a name or an id is handed on. */
  predicate Dispatchable(e: Event) {
    e.data != "" || e.event != "" || e.id != ""
  }

  /** What `dispatchEvent` hands to the handler for the pending event, if anything. */
  function ToDispatch(pending: Option<Event>): (sent: seq<Event>)
    ensures |sent| <= 1
    ensures sent != [] <==> pending.Some? && Dispatchable(pending.value)
    ensures sent != [] ==> sent == [pending.value]
  {
    if pending.Some? && Dispatchable(pending.value) then [pending.value] else []
  }

  /**
   * `parseEvent` on values: the field name is trimmed of white space, one
   * leading space is dropped from the value, and the named field is updated;
   * an empty or unknown name leaves the event as it is.
   */
  function ApplyField(e: Event, field: string, value: string): Event {
    var name := TrimSpace(field);
    var v := TrimPrefix(value, " ");
    if name == "id" then e.(id := v)
    else if name == "event" then e.(event := v)
    else if name == "data" then e.(data := if e.data != "" then e.data + "\n" + v else v)
    else if name == "retry" then (if Atoi(v).Some? then e.(retry := Atoi(v).value) else e)
    else e
  }

  /** A line cut at its first colon into field and value; a line without one is all field. */
  function SplitField(line: string): (string, string) {
    var idx := Index(line, ':');
    if idx >= 0 then (line[..idx], line[idx + 1..]) else (line, "")
  }

  /** The field is the text before the first colon and the value all the text after it. */
  lemma SplitAtFirstColon(line: string)
    ensures var (field, value) := SplitField(line);
            (':' in line ==> line == field + ":" + value && ':' !in field)
            && (':' !in line ==> field == line && value == "")
  {
    var idx := Index(line, ':');
    IndexFinds(line, ':');
    if idx >= 0 {
      assert line == line[..idx] + ":" + line[idx + 1..];
    }
  }

  /** A line that is empty once its trailing CR and LF characters are stripped. */
  predicate IsBlank(line: string) {
    TrimRight(line, "\r\n") == ""
  }

  /** A line whose first character is a colon. */
  predicate IsComment(line: string) {
    line != [] && line[0] == ':'
  }

  /** The parser between two reads: the pending event, if any, and the events handed on so far. */
  datatype Parser = Parser(pending: Option<Event>, dispatched: seq<Event>)

  const Start := Parser(None, [])

  /** One pass of the loop of `handleResponse` over a line read successfully. */
  function Feed(p: Parser, line: string): Parser {
    var l := TrimRight(line, "\r\n");
    if l == "" then Parser(None, p.dispatched + ToDispatch(p.pending))
    else if l[0] == ':' then p
    else
      var (field, value) := SplitField(l);
      Parser(Some(ApplyField(p.pending.GetOr(Blank), field, value)), p.dispatched)
  }

  /** The loop over a run of lines. */
  function FeedAll(p: Parser, lines: seq<string>): Parser
    decreases |lines|
  {
    if lines == [] then p else Feed(FeedAll(p, lines[..|lines| - 1]), lines[|lines| - 1])
  }

  /** What the end of the body hands on: the pending event, on `io.EOF` only. */
  function Close(p: Parser, endErr: Error): seq<Event> {
    p.dispatched + (if endErr == EOF then ToDispatch(p.pending) else [])
  }

  /** What the loop hands on from the parser state `p` over the lines still to read, up to the end. */
  function Run(p: Parser, lines: seq<string>, endErr: Error): seq<Event>
    decreases |lines|
  {
    if lines == [] then Close(p, endErr) else Run(Feed(p, lines[0]), lines[1..], endErr)
  }

  /**
   * The events `handleResponse` hands to the handler for a response body
   * when no handler call fails: one per event closed by a blank line, then
   * the pending one if the body ends with `io.EOF`. Text after the last
   * `\n` is never parsed, and any other read error drops the pending event.
   */
  function Dispatches(body: string, endErr: Error): seq<Event> {
    Run(Start, ReadLines(body), endErr)
  }

  /**
   * What the handler holds after being handed the events `d` on top of
   * `before`, and the error the parse returns: the handler's own error if a
   * call fails, the call that fails being the last one; the error ending
   * the body otherwise.
   */
  function Outcome(before: seq<Event>, d: seq<Event>, failAt: Option<nat>, failure: Error, endErr: Error): (seq<Event>, Error) {
    if failAt.Some? && |before| <= failAt.value < |before| + |d|
    then (before + d[..failAt.value - |before| + 1], failure)
    else (before + d, endErr)
  }

  /** The `*Event` being filled in, updated in place field by field. */
  class PendingEvent {
    var id: string
    var event: string
    var retry: int
    var data: string

    constructor ()
      ensures Value() == Blank
    {
      id, event, retry, data := "", "", 0, "";
    }

    function Value(): Event
      reads this
    {
      Event(id, event, retry, data)
    }
  }

  /** `currentEvent`: nil or the event being filled in. */
  function Pending(current: PendingEvent?): Option<Event>
    reads current
  {
    if current == null then None else Some(current.Value())
  }

  /**
   * The event handler, as the events it has been handed so far; the call
   * with index `failAt`, if any, reports `failure`.
   */
  class Handler {
    var received: seq<Event>
    const failAt: Option<nat>
    const failure: Error

    constructor (failAt: Option<nat>, failure: Error)
      ensures received == [] && this.failAt == failAt && this.failure == failure
    {
      received := [];
      this.failAt := failAt;
      this.failure := failure;
    }

    /** What the call with index `n` returns. */
    function Fault(n: nat): Option<Error> {
      if failAt == Some(n) then Some(failure) else None
    }

    /** Some call with index in `[n, n + k)` fails. */
    predicate FailsWithin(n: nat, k: nat) {
      failAt.Some? && n <= failAt.value < n + k
    }

    method Handle(e: Event) returns (err: Option<Error>)
      modifies this
      ensures received == old(received) + [e]
      ensures err == Fault(|old(received)|)
    {
      err := Fault(|received|);
      received := received + [e];
    }
  }

  /** The `bufio.Reader` over the response body, as the text not read yet. */
  class Reader {
    var rest: string
    const endErr: Error

    constructor (body: string, endErr: Error)
      ensures rest == body && this.endErr == endErr
    {
      rest := body;
      this.endErr := endErr;
    }

    /**
     * `ReadString('\n')`: the next complete line, or, once no `\n` is
     * left, the unterminated rest together with the error ending the body.
     */
    method ReadString() returns (line: string, err: Option<Error>)
      modifies this
      ensures err.None? <==> '\n' in old(rest)
      ensures err.None? ==> IsLine(line) && old(rest) == line + rest
                            && ReadLines(old(rest)) == [line] + ReadLines(rest)
      ensures err.Some? ==> err == Some(endErr) && line == old(rest) && rest == ""
                            && ReadLines(old(rest)) == []
    {
      var k := Index(rest, '\n');
      IndexFinds(rest, '\n');
      if k < 0 {
        line, err := rest, Some(endErr);
        rest := "";
      } else {
        line, err := rest[..k + 1], None;
        rest := rest[k + 1..];
      }
    }
  }

  /** `parseEvent`: applies one field to the event in place. */
  method ParseEvent(event: PendingEvent, field: string, value: string)
    modifies event
    ensures event.Value() == ApplyField(old(event.Value()), field, value)
  {
    var name := TrimSpace(field);
    var v := TrimPrefix(value, " ");
    if name == "" {
      return;
    }
    if name == "id" {
      event.id := v;
    } else if name == "event" {
      event.event := v;
    } else if name == "data" {
      if event.data != "" {
        event.data := event.data + "\n";
      }
      event.data := event.data + v;
    } else if name == "retry" {
      var retry := Atoi(v);
      if retry.Some? {
        event.retry := retry.value;
      }
    }
  }

  /** `dispatchEvent`: calls the handler on the pending event when it is dispatchable. */
  method DispatchEvent(h: Handler, event: PendingEvent?) returns (err: Option<Error>)
    modifies h
    ensures h.received == old(h.received) + ToDispatch(Pending(event))
    ensures err == if ToDispatch(Pending(event)) != [] then h.Fault(|old(h.received)|) else None
  {
    if event != null && Dispatchable(event.Value()) {
      err := h.Handle(event.Value());
    } else {
      err := None;
    }
  }

  /**
   * One pass of the loop of `handleResponse` over a line read successfully:
   * strip the line end; a blank line dispatches the pending event and
   * clears it, a comment is skipped, any other line is applied to the
   * pending event, created first if there is none.
   */
  method HandleLine(h: Handler, current: PendingEvent?, line: string, ghost p: Parser, ghost handed: seq<Event>)
      returns (next: PendingEvent?, err: Option<Error>)
    requires Pending(current) == p.pending && h.received == handed + p.dispatched
    requires !h.FailsWithin(|handed|, |p.dispatched|)
    modifies h, current
    ensures Pending(next) == Feed(p, line).pending && h.received == handed + Feed(p, line).dispatched
    ensures err.Some? ==> err == Some(h.failure) && h.FailsWithin(|handed|, |Feed(p, line).dispatched|)
    ensures err.None? ==> !h.FailsWithin(|handed|, |Feed(p, line).dispatched|)
    ensures next != null ==> next == current || fresh(next)
  {
    FeedDispatches(p, line);
    var l := TrimRight(line, "\r\n");
    if l == "" {
      err := DispatchEvent(h, current);
      next := null;
      return;
    }
    if |l| > 0 && l[0] == ':' {
      return current, None;
    }
    var field, value;
    var idx := Index(l, ':');
    if idx >= 0 {
      field, value := l[..idx], l[idx + 1..];
    } else {
      field, value := l, "";
    }
    assert (field, value) == SplitField(l);
    if current == null {
      next := new PendingEvent();
    } else {
      next := current;
    }
    ParseEvent(next, field, value);
    err := None;
  }

  /**
   * The end of the body: on `io.EOF` the pending event is dispatched, and
   * the handler's error, if any, is returned in place of `io.EOF`.
   */
  method EndOfBody(h: Handler, current: PendingEvent?, readErr: Error, ghost p: Parser, ghost handed: seq<Event>)
      returns (err: Error)
    requires Pending(current) == p.pending && h.received == handed + p.dispatched
    requires !h.FailsWithin(|handed|, |p.dispatched|)
    modifies h
    ensures (h.received, err) == Outcome(handed, Close(p, readErr), h.failAt, h.failure, readErr)
  {
    ghost var extra := if readErr == EOF then ToDispatch(p.pending) else [];
    if readErr == EOF {
      var nErr := DispatchEvent(h, current);
      Finish(handed, p.dispatched, extra, h.failAt, h.failure, readErr, nErr);
      if nErr.Some? {
        return nErr.value;
      }
    } else {
      Finish(handed, p.dispatched, extra, h.failAt, h.failure, readErr, None);
      assert h.received == handed + p.dispatched + extra;
    }
    return readErr;
  }

  /**
   * `handleResponse`: parses the body line by line and returns the error
   * that ends it. The handler sees the events of `Dispatches` in order; the
   * first call that fails stops the parse and its error is returned as is.
   */
  method HandleResponse(h: Handler, r: Reader) returns (err: Error)
    modifies h, r
    ensures (h.received, err) == Outcome(old(h.received), Dispatches(old(r.rest), r.endErr), h.failAt, h.failure, r.endErr)
  {
    ghost var body := r.rest;
    ghost var d := Dispatches(body, r.endErr);
    ghost var n := |h.received|;
    ghost var p := Start;
    var current: PendingEvent? := null;
    while true
      invariant Run(p, ReadLines(r.rest), r.endErr) == d
      invariant current != null ==> fresh(current)
      invariant Pending(current) == p.pending
      invariant h.received == old(h.received) + p.dispatched
      invariant !h.FailsWithin(n, |p.dispatched|)
      decreases |r.rest|
    {
      var line, readErr := r.ReadString();
      if readErr.Some? {
        assert ReadLines(r.rest) == [];
        err := EndOfBody(h, current, readErr.value, p, old(h.received));
        return;
      }
      RunStep(p, line, ReadLines(r.rest), r.endErr);
      var lineErr;
      current, lineErr := HandleLine(h, current, line, p, old(h.received));
      if lineErr.Some? {
        StopAtLine(old(h.received), p, line, ReadLines(r.rest), r.endErr, h.failAt, h.failure);
        return lineErr.value;
      }
      p := Feed(p, line);
    }
  }

  /** A line hands on the pending event exactly when it is blank, and nothing otherwise. */
  lemma FeedDispatches(p: Parser, line: string)
    ensures Feed(p, line).dispatched == p.dispatched + (if IsBlank(line) then ToDispatch(p.pending) else [])
  {
  }

  lemma RunStep(p: Parser, line: string, lines: seq<string>, endErr: Error)
    ensures Run(p, [line] + lines, endErr) == Run(Feed(p, line), lines, endErr)
  {
    assert ([line] + lines)[0] == line && ([line] + lines)[1..] == lines;
  }

  /** What the rest of the body hands on comes after what has been handed on already. */
  lemma {:induction false} RunExtends(p: Parser, lines: seq<string>, endErr: Error)
    ensures p.dispatched <= Run(p, lines, endErr)
    decreases |lines|
  {
    if lines != [] {
      RunExtends(Feed(p, lines[0]), lines[1..], endErr);
    }
  }

  /** Events handed on before do not change how a line is parsed. */
  lemma FeedShift(acc: seq<Event>, p: Parser, line: string)
    ensures Feed(Parser(p.pending, acc + p.dispatched), line) == Parser(Feed(p, line).pending, acc + Feed(p, line).dispatched)
  {
    FeedDispatches(p, line);
    FeedDispatches(Parser(p.pending, acc + p.dispatched), line);
    assert acc + p.dispatched + ToDispatch(p.pending) == acc + (p.dispatched + ToDispatch(p.pending));
  }

  /** Events handed on before the rest of the body do not change what the rest hands on. */
  lemma {:induction false} RunShift(acc: seq<Event>, p: Parser, lines: seq<string>, endErr: Error)
    ensures Run(Parser(p.pending, acc + p.dispatched), lines, endErr) == acc + Run(p, lines, endErr)
    decreases |lines|
  {
    if lines == [] {
      assert acc + p.dispatched + (if endErr == EOF then ToDispatch(p.pending) else [])
          == acc + (p.dispatched + (if endErr == EOF then ToDispatch(p.pending) else []));
    } else {
      FeedShift(acc, p, lines[0]);
      RunShift(acc, Feed(p, lines[0]), lines[1..], endErr);
    }
  }

  /** The outcome when the body ends: `extra` is the pending event's dispatch, whose call reports `fault`. */
  lemma Finish(before: seq<Event>, done: seq<Event>, extra: seq<Event>, failAt: Option<nat>, failure: Error,
               endErr: Error, fault: Option<Error>)
    requires |extra| <= 1
    requires !(failAt.Some? && |before| <= failAt.value < |before| + |done|)
    requires fault == if extra != [] && failAt == Some(|before| + |done|) then Some(failure) else None
    ensures Outcome(before, done + extra, failAt, failure, endErr)
         == (before + done + extra, if fault.Some? then fault.value else endErr)
  {
    if fault.Some? {
      assert (done + extra)[..|done| + 1] == done + extra;
      assert before + (done + extra) == before + done + extra;
    } else {
      assert !(failAt.Some? && |before| <= failAt.value < |before| + |done + extra|);
      assert before + (done + extra) == before + done + extra;
    }
  }

  /** The outcome when the handler fails on an event handed on by `line`. */
  lemma StopAtLine(before: seq<Event>, p: Parser, line: string, lines: seq<string>, endErr: Error,
                   failAt: Option<nat>, failure: Error)
    requires !(failAt.Some? && |before| <= failAt.value < |before| + |p.dispatched|)
    requires failAt.Some? && |before| <= failAt.value < |before| + |Feed(p, line).dispatched|
    ensures Outcome(before, Run(Feed(p, line), lines, endErr), failAt, failure, endErr)
         == (before + Feed(p, line).dispatched, failure)
  {
    FeedDispatches(p, line);
    RunExtends(Feed(p, line), lines, endErr);
    StopEarly(before, Feed(p, line).dispatched, Run(Feed(p, line), lines, endErr), failAt, failure, endErr);
  }

  /** The outcome when the last of the events handed on so far made the handler fail. */
  lemma StopEarly(before: seq<Event>, done: seq<Event>, d: seq<Event>, failAt: Option<nat>, failure: Error, endErr: Error)
    requires done <= d && done != []
    requires failAt == Some(|before| + |done| - 1)
    ensures Outcome(before, d, failAt, failure, endErr) == (before + done, failure)
  {
    assert d[..|done|] == done;
  }

  lemma FeedAllSnoc(p: Parser, lines: seq<string>, line: string)
    ensures FeedAll(p, lines + [line]) == Feed(FeedAll(p, lines), line)
  {
    assert (lines + [line])[..|lines|] == lines;
  }

  /** Feeding two runs of lines one after the other is feeding their concatenation. */
  lemma {:induction false} FeedAllAppend(p: Parser, xs: seq<string>, ys: seq<string>)
    ensures FeedAll(p, xs + ys) == FeedAll(FeedAll(p, xs), ys)
    decreases |ys|
  {
    if ys == [] {
      assert xs + ys == xs;
    } else {
      var init, last := ys[..|ys| - 1], ys[|ys| - 1];
      assert ys == init + [last];
      assert xs + ys == (xs + init) + [last];
      FeedAllSnoc(p, xs + init, last);
      FeedAllAppend(p, xs, init);
      FeedAllSnoc(FeedAll(p, xs), init, last);
    }
  }

  /** Events once handed on stay handed on: feeding more lines only extends the list. */
  lemma {:induction false} FeedAllExtends(p: Parser, lines: seq<string>)
    ensures p.dispatched <= FeedAll(p, lines).dispatched
    decreases |lines|
  {
    if lines != [] {
      FeedAllExtends(p, lines[..|lines| - 1]);
    }
  }

  /** Running over the remaining lines is feeding them all, then closing. */
  lemma {:induction false} RunFeedAll(p: Parser, lines: seq<string>, endErr: Error)
    ensures Run(p, lines, endErr) == Close(FeedAll(p, lines), endErr)
    decreases |lines|
  {
    if lines != [] {
      RunFeedAll(Feed(p, lines[0]), lines[1..], endErr);
      assert lines == [lines[0]] + lines[1..];
      FeedAllAppend(p, [lines[0]], lines[1..]);
      FeedAllSnoc(p, [], lines[0]);
      assert [] + [lines[0]] == [lines[0]];
    }
  }

  /** The events of a body: those of its lines fed from the start, then closed. */
  lemma DispatchesFed(body: string, endErr: Error)
    ensures Dispatches(body, endErr) == Close(FeedAll(Start, ReadLines(body)), endErr)
  {
    RunFeedAll(Start, ReadLines(body), endErr);
  }

  /** A `data` line appends its value to the data, with a line feed only after non-empty data. */
  function Join(vs: seq<string>): string
    decreases |vs|
  {
    if vs == [] then ""
    else if |vs| == 1 then vs[0]
    else Join(vs[..|vs| - 1]) + "\n" + vs[|vs| - 1]
  }

  function DropLeadingEmpty(vs: seq<string>): (r: seq<string>)
    ensures r == [] || r[0] != ""
  {
    if vs != [] && vs[0] == "" then DropLeadingEmpty(vs[1..]) else vs
  }

  /** The values of `data` lines once their one leading space is dropped. */
  function Unspaced(values: seq<string>): (vs: seq<string>)
    ensures |vs| == |values|
    ensures forall i | 0 <= i < |values| :: vs[i] == TrimPrefix(values[i], " ")
  {
    seq(|values|, i requires 0 <= i < |values| => TrimPrefix(values[i], " "))
  }

  /** The event after a run of `data` fields. */
  function ApplyData(e: Event, values: seq<string>): Event
    decreases |values|
  {
    if values == [] then e else ApplyField(ApplyData(e, values[..|values| - 1]), "data", values[|values| - 1])
  }

  lemma JoinNonEmpty(vs: seq<string>)
    requires vs != [] && vs[0] != ""
    ensures Join(vs) != ""
    decreases |vs|
  {
    if |vs| > 1 {
      JoinNonEmpty(vs[..|vs| - 1]);
    }
  }

  lemma {:induction false} DropLeadingEmptySnoc(vs: seq<string>, v: string)
    ensures DropLeadingEmpty(vs + [v])
         == if DropLeadingEmpty(vs) == [] then DropLeadingEmpty([v]) else DropLeadingEmpty(vs) + [v]
    decreases |vs|
  {
    if vs != [] {
      assert (vs + [v])[1..] == vs[1..] + [v];
      if vs[0] == "" {
        DropLeadingEmptySnoc(vs[1..], v);
      }
    }
  }

  /**
   * Consecutive `data` fields join their values with line feeds, except
   * that empty values before the first non-empty one leave no separator:
   * the data is the values joined after dropping the leading empty ones.
   */
  lemma {:induction false} DataJoin(e: Event, values: seq<string>)
    ensures ApplyData(e, values) == e.(data := Join(DropLeadingEmpty([e.data] + Unspaced(values))))
    decreases |values|
  {
    if values == [] {
      assert [e.data] + Unspaced(values) == [e.data];
      assert DropLeadingEmpty([e.data]) == if e.data == "" then [] else [e.data] by {
        assert [e.data][1..] == [];
      }
    } else {
      var init, last := values[..|values| - 1], values[|values| - 1];
      var vs := [e.data] + Unspaced(init);
      DataJoin(e, init);
      assert [e.data] + Unspaced(values) == vs + [TrimPrefix(last, " ")];
      DropLeadingEmptySnoc(vs, TrimPrefix(last, " "));
      var d := DropLeadingEmpty(vs);
      if d == [] {
        var w := TrimPrefix(last, " ");
        assert DropLeadingEmpty([w]) == if w == "" then [] else [w] by {
          assert [w][1..] == [];
        }
      } else {
        JoinNonEmpty(d);
        assert (d + [TrimPrefix(last, " ")])[..|d|] == d;
      }
    }
  }

  /** Of several `id` (or `event`) fields, the last one wins. */
  lemma LastValueWins(e: Event, field: string, first: string, second: string)
    requires TrimSpace(field) == "id" || TrimSpace(field) == "event"
    ensures ApplyField(ApplyField(e, field, first), field, second) == ApplyField(e, field, second)
    ensures TrimSpace(field) == "id" ==> ApplyField(e, field, second).id == TrimPrefix(second, " ")
    ensures TrimSpace(field) == "event" ==> ApplyField(e, field, second).event == TrimPrefix(second, " ")
  {
  }

  /** White space around the field name does not matter. */
  lemma FieldNameTrimmed(e: Event, field: string, value: string)
    ensures ApplyField(e, field, value) == ApplyField(e, TrimSpace(field), value)
  {
    TrimSpaceIdempotent(field);
  }

  /** A field whose trimmed name is empty or none of `id`, `event`, `data`, `retry` changes nothing. */
  lemma UnknownFieldIgnored(e: Event, field: string, value: string)
    requires Rank(TrimSpace(field)) == 4
    ensures ApplyField(e, field, value) == e
  {
  }

  /** A `retry` value that is not decimal text leaves the event as it is; decimal text sets it. */
  lemma RetryField(e: Event, value: string)
    ensures Atoi(TrimPrefix(value, " ")) == None ==> ApplyField(e, "retry", value) == e
    ensures Atoi(TrimPrefix(value, " ")).Some? ==>
              ApplyField(e, "retry", value) == e.(retry := Atoi(TrimPrefix(value, " ")).value)
  {
    TrimSpaceOfTrimmed("retry");
  }

  /** The decimal text of a number, after one space, sets the retry to that number. */
  lemma RetryParsed(e: Event, n: nat)
    ensures ApplyField(e, "retry", " " + Itoa(n)).retry == n
  {
    TrimSpaceOfTrimmed("retry");
    AtoiItoa(n);
  }

  /** A blank line closes the pending event; a second one hands nothing further on. */
  lemma ConsecutiveBlankLines(p: Parser, first: string, second: string)
    requires IsBlank(first) && IsBlank(second)
    ensures Feed(p, first).pending == None
    ensures Feed(p, first).dispatched == p.dispatched + ToDispatch(p.pending)
    ensures Feed(Feed(p, first), second) == Feed(p, first)
  {
    assert p.dispatched + ToDispatch(p.pending) + [] == p.dispatched + ToDispatch(p.pending);
  }

  /** A line starting with a colon is a comment and changes nothing. */
  lemma CommentIgnored(p: Parser, line: string)
    requires IsComment(line)
    ensures Feed(p, line) == p
  {
    var l := TrimRight(line, "\r\n");
    TrimRightCuts(line, "\r\n");
    assert l != "" by {
      assert line[0] !in "\r\n";
    }
    assert l[0] == line[0];
  }

  /** Feeding lines never hands on an event without data, name or id. */
  lemma {:induction false} FeedAllDispatchable(p: Parser, lines: seq<string>)
    requires forall e | e in p.dispatched :: Dispatchable(e)
    ensures forall e | e in FeedAll(p, lines).dispatched :: Dispatchable(e)
    decreases |lines|
  {
    if lines != [] {
      FeedAllDispatchable(p, lines[..|lines| - 1]);
    }
  }

  /** Only events with data, a name or an id reach the handler; a retry-only event is dropped. */
  lemma OnlyDispatchableDispatched(body: string, endErr: Error)
    ensures forall e | e in Dispatches(body, endErr) :: Dispatchable(e)
  {
    DispatchesFed(body, endErr);
    FeedAllDispatchable(Start, ReadLines(body));
  }

  /** Text after the last line feed is never parsed, whatever it holds. */
  lemma FinalFragmentIgnored(body: string, fragment: string, endErr: Error)
    requires body == [] || body[|body| - 1] == '\n'
    requires '\n' !in fragment
    ensures Dispatches(body + fragment, endErr) == Dispatches(body, endErr)
  {
    FragmentNotRead(body, fragment);
    DispatchesFed(body, endErr);
    DispatchesFed(body + fragment, endErr);
  }

  /**
   * Ending the body with `io.EOF` hands on the pending event as a final
   * blank line would; ending it with any other error drops it.
   */
  lemma EndOfStream(body: string, endErr: Error)
    requires body == [] || body[|body| - 1] == '\n'
    ensures Dispatches(body, EOF) == Dispatches(body + "\n", endErr)
    ensures endErr != EOF ==> Dispatches(body, endErr) == FeedAll(Start, ReadLines(body)).dispatched
    ensures Dispatches(body, EOF) == Dispatches(body, endErr) + (if endErr != EOF then ToDispatch(FeedAll(Start, ReadLines(body)).pending) else [])
  {
    var ls := ReadLines(body);
    ReadBlankLine(body);
    FeedAllSnoc(Start, ls, "\n");
    BlankLineCloses(FeedAll(Start, ls), endErr);
    DispatchesFed(body, EOF);
    DispatchesFed(body + "\n", endErr);
    DispatchesFed(body, endErr);
    if endErr == EOF {
      assert Dispatches(body, endErr) + [] == Dispatches(body, endErr);
    }
  }

  /** A final blank line closes the pending event as `io.EOF` does. */
  lemma BlankLineCloses(p: Parser, endErr: Error)
    ensures Close(Feed(p, "\n"), endErr) == Close(p, EOF)
  {
    assert TrimRight("\n", "\r\n") == TrimRight("", "\r\n");
    assert p.dispatched + ToDispatch(p.pending) + [] == p.dispatched + ToDispatch(p.pending);
  }
}
