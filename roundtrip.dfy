/**
 * The two ends together: what the client parses out of the text the
 * encoders of event.go and server.go write.
 */
module RoundTrip {
  import opened Wrappers
  import opened Strs
  import opened Strconv
  import opened Lines
  import opened Wire
  import opened Events
  import opened Client
  import Server

  /**
   * The event the client builds from `Encode(e)`: the values arrive still
   * escaped, and a retry that is not positive is not written, so it reads
   * as 0.
   */
  function Received(e: Event): Event {
    Event(Escape(e.id), Escape(e.event), if e.retry > 0 then e.retry else 0, Escape(e.data))
  }

  /** Unescaping what arrives gives back the values sent. */
  lemma ReceivedUnescapes(e: Event)
    ensures var r := Received(e);
            Unescape(r.id) == e.id && Unescape(r.event) == e.event && Unescape(r.data) == e.data
  {
    EscapeRoundTrip(e.id);
    EscapeRoundTrip(e.event);
    EscapeRoundTrip(e.data);
  }

  /** A line without a line end after it loses only the `\n` added to it. */
  lemma TrimLine(s: string)
    requires s != [] && s[|s| - 1] != '\n' && s[|s| - 1] != '\r'
    ensures TrimRight(s + "\n", "\r\n") == s
  {
    assert (s + "\n")[..|s|] == s;
  }

  /** Digits never break a line. */
  lemma DigitsSingleLine(s: string)
    requires AllDigits(s)
    ensures SingleLine(s)
  {
  }

  /** One of the four field names, applied to a value written after one space, sets that field. */
  lemma ApplyNamed(x: Event, name: string, v: string)
    requires Rank(name) < 4
    ensures ApplyField(x, name, " " + v)
         == if name == "id" then x.(id := v)
            else if name == "event" then x.(event := v)
            else if name == "data" then x.(data := if x.data != "" then x.data + "\n" + v else v)
            else if Atoi(v).Some? then x.(retry := Atoi(v).value)
            else x
  {
    assert name == "id" || name == "event" || name == "retry" || name == "data";
    TrimSpaceOfTrimmed(name);
    assert TrimPrefix(" " + v, " ") == v;
  }

  /** The text of a written field line, its line end stripped, is cut at the colon after the name. */
  lemma FieldText(f: Field)
    requires WellFormed(f)
    ensures var s := f.name + ": " + f.value;
            TrimRight(FieldLine(f), "\r\n") == s && s[0] != ':' && SplitField(s) == (f.name, " " + f.value)
  {
    FieldLineEnd(f);
    FieldSplit(f);
  }

  lemma FieldLineEnd(f: Field)
    requires WellFormed(f)
    ensures TrimRight(FieldLine(f), "\r\n") == f.name + ": " + f.value
  {
    var s := f.name + ": " + f.value;
    assert FieldLine(f) == s + "\n";
    assert s[|s| - 1] == if f.value == [] then ' ' else f.value[|f.value| - 1];
    TrimLine(s);
  }

  lemma FieldSplit(f: Field)
    requires Rank(f.name) < 4
    ensures var s := f.name + ": " + f.value;
            s[0] != ':' && SplitField(s) == (f.name, " " + f.value)
  {
    assert f.name == "id" || f.name == "event" || f.name == "retry" || f.name == "data";
    var s := f.name + ": " + f.value;
    assert s[0] == f.name[0];
    assert s == (f.name + ":") + (" " + f.value);
    IndexAfterPrefix(f.name + ":", " " + f.value, ':');
    assert s[..|f.name|] == f.name;
    assert s[|f.name| + 1..] == " " + f.value;
  }

  /**
   * A written field line is read back as that field: the parser strips the
   * line end, cuts at the colon after the name and drops the one space
   * before the value.
   */
  lemma FieldLineRead(p: Parser, f: Field)
    requires WellFormed(f)
    ensures Feed(p, FieldLine(f)) == Parser(Some(ApplyField(p.pending.GetOr(Blank), f.name, " " + f.value)), p.dispatched)
  {
    FieldText(f);
  }

  /** The parser after the line of a slot, if the slot is filled. */
  function Absorb(p: Parser, name: string, v: Option<string>): Parser {
    if v.Some? then Parser(Some(ApplyField(p.pending.GetOr(Blank), name, " " + v.value)), p.dispatched) else p
  }

  lemma RunSlot(p: Parser, name: string, v: Option<string>, rest: seq<string>, endErr: Error)
    requires v.Some? ==> WellFormed(Field(name, v.value))
    ensures Run(p, FieldLines(Slot(name, v)) + rest, endErr) == Run(Absorb(p, name, v), rest, endErr)
  {
    if v.Some? {
      var f := Field(name, v.value);
      assert FieldLines([f]) == [FieldLine(f)];
      RunStep(p, FieldLine(f), rest, endErr);
      FieldLineRead(p, f);
    } else {
      assert FieldLines([]) + rest == rest;
    }
  }

  /** The parser after the lines of all four slots. */
  function AbsorbAll(p: Parser, s: Slots): Parser {
    Absorb(Absorb(Absorb(Absorb(p, "id", s.id), "event", s.event), "retry", s.retry), "data", s.data)
  }

  /** The slots `Encode` fills hold well-formed fields. */
  predicate SlotsWellFormed(s: Slots) {
    (s.id.Some? ==> WellFormed(Field("id", s.id.value)))
    && (s.event.Some? ==> WellFormed(Field("event", s.event.value)))
    && (s.retry.Some? ==> WellFormed(Field("retry", s.retry.value)))
    && (s.data.Some? ==> WellFormed(Field("data", s.data.value)))
  }

  lemma RunSlots(p: Parser, s: Slots, rest: seq<string>, endErr: Error)
    requires SlotsWellFormed(s)
    ensures Run(p, FieldLines(Layout(s)) + rest, endErr) == Run(AbsorbAll(p, s), rest, endErr)
  {
    var l3, l4 := FieldLines(Slot("retry", s.retry)), FieldLines(Slot("data", s.data));
    LayoutLines(s, rest);
    RunTwoSlots(p, "id", s.id, "event", s.event, l3 + (l4 + rest), endErr);
    RunTwoSlots(Absorb(Absorb(p, "id", s.id), "event", s.event), "retry", s.retry, "data", s.data, rest, endErr);
  }

  /** The lines of the laid-out slots, one slot after the other. */
  lemma LayoutLines(s: Slots, rest: seq<string>)
    ensures FieldLines(Layout(s)) + rest
         == FieldLines(Slot("id", s.id)) + (FieldLines(Slot("event", s.event))
            + (FieldLines(Slot("retry", s.retry)) + (FieldLines(Slot("data", s.data)) + rest)))
  {
    FieldLinesAppend(Slot("id", s.id) + Slot("event", s.event) + Slot("retry", s.retry), Slot("data", s.data));
    FieldLinesAppend(Slot("id", s.id) + Slot("event", s.event), Slot("retry", s.retry));
    FieldLinesAppend(Slot("id", s.id), Slot("event", s.event));
  }

  lemma RunTwoSlots(p: Parser, n1: string, v1: Option<string>, n2: string, v2: Option<string>,
                    rest: seq<string>, endErr: Error)
    requires v1.Some? ==> WellFormed(Field(n1, v1.value))
    requires v2.Some? ==> WellFormed(Field(n2, v2.value))
    ensures Run(p, FieldLines(Slot(n1, v1)) + (FieldLines(Slot(n2, v2)) + rest), endErr)
         == Run(Absorb(Absorb(p, n1, v1), n2, v2), rest, endErr)
  {
    RunSlot(p, n1, v1, FieldLines(Slot(n2, v2)) + rest, endErr);
    RunSlot(Absorb(p, n1, v1), n2, v2, rest, endErr);
  }

  /** A blank line hands on the pending event and clears it. */
  lemma RunBlank(p: Parser, rest: seq<string>, endErr: Error)
    ensures Run(p, ["\n"] + rest, endErr) == Run(Parser(None, p.dispatched + ToDispatch(p.pending)), rest, endErr)
  {
    RunStep(p, "\n", rest, endErr);
    assert TrimRight("\n", "\r\n") == TrimRight("", "\r\n");
  }

  /** After the field lines of `e`, the pending event is what the client receives, if any field was written. */
  lemma Absorbed(e: Event, acc: seq<Event>)
    ensures AbsorbAll(Parser(None, acc), WrittenSlots(e)) == Parser(if Emits(e) then Some(Received(e)) else None, acc)
  {
    var s := WrittenSlots(e);
    var p1 := Absorb(Parser(None, acc), "id", s.id);
    var p2 := Absorb(p1, "event", s.event);
    var p3 := Absorb(p2, "retry", s.retry);
    var p4 := Absorb(p3, "data", s.data);
    if s.id.Some? {
      ApplyNamed(Blank, "id", s.id.value);
    }
    if s.event.Some? {
      ApplyNamed(p1.pending.GetOr(Blank), "event", s.event.value);
    }
    if s.retry.Some? {
      ApplyNamed(p2.pending.GetOr(Blank), "retry", s.retry.value);
      AtoiItoa(e.retry);
    }
    if s.data.Some? {
      ApplyNamed(p3.pending.GetOr(Blank), "data", s.data.value);
    }
    assert p4.pending.Some? <==> Emits(e);
    if Emits(e) {
      var r := Received(e);
      assert p4.pending.value.id == r.id;
      assert p4.pending.value.event == r.event;
      assert p4.pending.value.retry == r.retry;
      assert p4.pending.value.data == r.data;
    }
  }

  /** The lines of `Encode(e)` hand on the received event when it is dispatchable, and leave nothing pending. */
  lemma RunEncoded(acc: seq<Event>, e: Event, rest: seq<string>, endErr: Error)
    ensures Run(Parser(None, acc), EncodedLines(e) + rest, endErr)
         == Run(Parser(None, acc + (if Dispatchable(e) then [Received(e)] else [])), rest, endErr)
  {
    var s := WrittenSlots(e);
    assert SlotsWellFormed(s) by {
      if e.retry > 0 {
        DigitsSingleLine(Itoa(e.retry));
      }
    }
    assert EncodedLines(e) + rest == FieldLines(Layout(s)) + (["\n"] + rest);
    RunSlots(Parser(None, acc), s, ["\n"] + rest, endErr);
    Absorbed(e, acc);
    RunBlank(AbsorbAll(Parser(None, acc), s), rest, endErr);
  }

  /**
   * `Encode` followed by the client's parse: an event with an id, a name or
   * data arrives once, with its values still escaped (so they unescape to
   * the originals) and its retry if positive; any other event arrives not
   * at all. How the body ends makes no difference, since the encoding ends
   * in a blank line.
   */
  lemma EncodeThenParse(e: Event, endErr: Error)
    ensures Dispatches(Encoded(e), endErr) == if Dispatchable(e) then [Received(e)] else []
  {
    EncodeLines(e);
    RunEncoded([], e, [], endErr);
    assert EncodedLines(e) + [] == EncodedLines(e);
  }

  /** An event whose values hold none of the four special characters and whose retry is not negative arrives as it was sent. */
  lemma PlainEventArrives(e: Event, endErr: Error)
    requires Dispatchable(e) && e.retry >= 0
    requires forall k | 0 <= k < |e.id| :: !Special(e.id[k])
    requires forall k | 0 <= k < |e.event| :: !Special(e.event[k])
    requires forall k | 0 <= k < |e.data| :: !Special(e.data[k])
    ensures Dispatches(Encoded(e), endErr) == [e]
  {
    EncodeThenParse(e, endErr);
    EscapePlain(e.id);
    EscapePlain(e.event);
    EscapePlain(e.data);
  }

  /** Events written back to back by `Encode`. */
  function Stream(es: seq<Event>): string {
    if es == [] then "" else Encoded(es[0]) + Stream(es[1..])
  }

  /** What the client receives of a run of events: each dispatchable one, in order. */
  function Visible(es: seq<Event>): (vs: seq<Event>)
    ensures |vs| <= |es|
  {
    if es == [] then [] else (if Dispatchable(es[0]) then [Received(es[0])] else []) + Visible(es[1..])
  }

  /** Events written one after another by `Encode` are received separately and in order. */
  lemma {:induction false} EncodedStream(es: seq<Event>, endErr: Error)
    ensures Dispatches(Stream(es), endErr) == Visible(es)
    decreases |es|
  {
    if es == [] {
      assert ReadLines("") == [];
    } else {
      var first := if Dispatchable(es[0]) then [Received(es[0])] else [];
      var later := ReadLines(Stream(es[1..]));
      EncodeLines(es[0]);
      ReadAfterLines(EncodedLines(es[0]), Stream(es[1..]));
      RunEncoded([], es[0], later, endErr);
      assert Parser(None, [] + first) == Parser(Start.pending, first + Start.dispatched);
      RunShift(first, Start, later, endErr);
      EncodedStream(es[1..], endErr);
    }
  }

  /**
   * `Server.encode` writes no blank line after an event without data, so
   * such an event runs into the next one: an event carrying only an id,
   * followed by one carrying only data, reaches the client as one event.
   */
  lemma LegacyEventsMerge(endErr: Error)
    ensures Dispatches(Server.Encoded(Server.Event("1", "", 0, "")) + Server.Encoded(Server.Event("", "", 0, "x")), endErr)
         == [Event("1", "", 0, "x")]
  {
    LegacyLines();
    LegacyRun(endErr);
  }

  /** The two events as `Server.encode` prints them: two field lines and one blank line. */
  lemma LegacyLines()
    ensures ReadLines(Server.Encoded(Server.Event("1", "", 0, "")) + Server.Encoded(Server.Event("", "", 0, "x")))
         == [FieldLine(Field("id", "1")), FieldLine(Field("data", "x")), "\n"]
  {
    var f1, f2 := Field("id", "1"), Field("data", "x");
    var ls := [FieldLine(f1), FieldLine(f2), "\n"];
    assert Server.Encoded(Server.Event("1", "", 0, "")) + Server.Encoded(Server.Event("", "", 0, "x")) == Concat(ls) + "" by {
      LegacyText();
      ConcatCons(FieldLine(f1), [FieldLine(f2), "\n"]);
      ConcatCons(FieldLine(f2), ["\n"]);
      ConcatCons("\n", []);
    }
    assert AllLines(ls) by {
      FieldLineIsLine(f1);
      FieldLineIsLine(f2);
      assert IsLine("\n");
    }
    ReadLinesOfLines(ls, "");
  }

  lemma LegacyText()
    ensures Server.Encoded(Server.Event("1", "", 0, "")) == FieldLine(Field("id", "1"))
    ensures Server.Encoded(Server.Event("", "", 0, "x")) == FieldLine(Field("data", "x")) + "\n"
  {
    Server.EscapeKeepsOthers("1");
    Server.EscapeKeepsOthers("x");
  }

  /** An id line, a data line and a blank line hand on one event with that id and data. */
  lemma LegacyRun(endErr: Error)
    ensures Run(Start, [FieldLine(Field("id", "1")), FieldLine(Field("data", "x")), "\n"], endErr) == [Event("1", "", 0, "x")]
  {
    var f1, f2 := Field("id", "1"), Field("data", "x");
    var p1 := Feed(Start, FieldLine(f1));
    var p2 := Feed(p1, FieldLine(f2));
    assert p1 == Parser(Some(Event("1", "", 0, "")), []) by {
      FieldLineRead(Start, f1);
      ApplyNamed(Blank, "id", "1");
    }
    assert p2 == Parser(Some(Event("1", "", 0, "x")), []) by {
      FieldLineRead(p1, f2);
      ApplyNamed(p1.pending.value, "data", "x");
    }
    RunStep(Start, FieldLine(f1), [FieldLine(f2), "\n"], endErr);
    RunStep(p1, FieldLine(f2), ["\n"], endErr);
    RunBlank(p2, [], endErr);
  }
}
