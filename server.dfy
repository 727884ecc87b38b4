/**
 * The older serialiser of server.go: `Server.encode` prints the id, event,
 * retry and data lines of an event to an `io.Writer`, escaping only line
 * breaks, and ends the event with a blank line only together with its data
 * line. This revision has its own event record.
 */
module Server {
  import opened Wrappers
  import opened Strs
  import opened Strconv
  import opened Lines
  import opened Wire

  /** The event record of this revision (its identifier field is spelled `Id` there). */
  datatype Event = Event(id: string, event: string, retry: int, data: string)

  /** What the replacer built in `New` writes for one character: only CR and LF are rewritten. */
  function EscapeChar(c: char): string {
    if c == '\n' then "\\n"
    else if c == '\r' then "\\r"
    else [c]
  }

  /** The replacer built in `New`. */
  function Escape(s: string): (r: string)
    ensures SingleLine(r)
    ensures |r| >= |s|
    ensures r == [] <==> s == []
  {
    if s == [] then [] else EscapeChar(s[0]) + Escape(s[1..])
  }

  /** Number of CR and LF characters in `s`. */
  function CountLineBreaks(s: string): nat {
    if s == [] then 0 else (if s[0] == '\n' || s[0] == '\r' then 1 else 0) + CountLineBreaks(s[1..])
  }

  /** Escaping adds exactly one character per CR or LF. */
  lemma {:induction false} EscapeLength(s: string)
    ensures |Escape(s)| == |s| + CountLineBreaks(s)
  {
    if s != [] {
      EscapeLength(s[1..]);
    }
  }

  /** Every character but CR and LF, tabs and backslashes included, passes through unchanged. */
  lemma {:induction false} EscapeKeepsOthers(s: string)
    requires SingleLine(s)
    ensures Escape(s) == s
  {
    if s != [] {
      assert s[1..] == s[..][1..];
      assert SingleLine(s[1..]) by {
        assert forall k | 0 <= k < |s| - 1 :: s[1..][k] == s[k + 1];
      }
      EscapeKeepsOthers(s[1..]);
    }
  }

  /**
   * Because the backslash is not escaped, a line feed and the two characters
   * backslash and `n` are written alike: the escaped text cannot be read back.
   */
  lemma EscapeCollision()
    ensures "\n" != "\\n" && Escape("\n") == Escape("\\n")
  {
    assert Escape("\\n") == EscapeChar('\\') + Escape("n");
    assert Escape("n") == EscapeChar('n') + Escape("");
  }

  /** Which lines `encode` prints, and the escaped or formatted value of each. */
  function WrittenSlots(e: Event): Slots {
    Slots(if |e.id| > 0 then Some(Escape(e.id)) else None,
          if |e.event| > 0 then Some(Escape(e.event)) else None,
          if e.retry > 0 then Some(Itoa(e.retry)) else None,
          if |e.data| > 0 then Some(Escape(e.data)) else None)
  }

  /** The fields `encode` prints, in printing order. */
  function Fields(e: Event): seq<Field> {
    Layout(WrittenSlots(e))
  }

  /** The text one guarded `Fprintf` call prints: `text` when `cond` holds, nothing otherwise. */
  function PrintedIf(cond: bool, text: string): string {
    if cond then text else ""
  }

  /** Everything `encode` prints, call by call. */
  function Encoded(e: Event): string {
    PrintedIf(|e.id| > 0, "id: " + Escape(e.id) + "\n")
    + PrintedIf(|e.event| > 0, "event: " + Escape(e.event) + "\n")
    + PrintedIf(e.retry > 0, "retry: " + (if e.retry > 0 then Itoa(e.retry) else "") + "\n")
    + PrintedIf(|e.data| > 0, "data: " + Escape(e.data) + "\n\n")
  }

  /** One guarded print of a field line extends the text of the fields before it by that line. */
  lemma PrintSlot(fs: seq<Field>, name: string, v: Option<string>, cond: bool, text: string)
    requires cond <==> v.Some?
    requires cond ==> text == name + ": " + v.value + "\n"
    ensures Concat(FieldLines(fs + Slot(name, v))) == Concat(FieldLines(fs)) + PrintedIf(cond, text)
  {
    WriteSlot(fs, name, v);
  }

  /** The guarded print of the last field line with the blank line after it. */
  lemma PrintLastSlot(fs: seq<Field>, name: string, v: Option<string>, cond: bool, text: string)
    requires cond <==> v.Some?
    requires cond ==> text == name + ": " + v.value + "\n\n"
    ensures Concat(FieldLines(fs + Slot(name, v))) + (if cond then "\n" else "")
         == Concat(FieldLines(fs)) + PrintedIf(cond, text)
  {
    WriteSlot(fs, name, v);
    if cond {
      LineTextTerminated(name + ": ", name, v.value);
      Extend(Concat(FieldLines(fs)), FieldLine(Field(name, v.value)), "\n");
    }
  }

  /** The text the four guarded prints write for the given slots. */
  function PrintSlots(s: Slots): string {
    PrintedIf(s.id.Some?, "id: " + s.id.GetOr("") + "\n")
    + PrintedIf(s.event.Some?, "event: " + s.event.GetOr("") + "\n")
    + PrintedIf(s.retry.Some?, "retry: " + s.retry.GetOr("") + "\n")
    + PrintedIf(s.data.Some?, "data: " + s.data.GetOr("") + "\n\n")
  }

  /** The prints write the field lines of the slots in wire order, then a blank line only with data. */
  lemma SlotsLayout(s: Slots)
    ensures PrintSlots(s) == Concat(FieldLines(Layout(s))) + (if s.data.Some? then "\n" else "")
  {
    PrintFirstTwo(s);
    PrintLastTwo(s, Slot("id", s.id) + Slot("event", s.event));
  }

  lemma PrintFirstTwo(s: Slots)
    ensures Concat(FieldLines(Slot("id", s.id) + Slot("event", s.event)))
         == PrintedIf(s.id.Some?, "id: " + s.id.GetOr("") + "\n") + PrintedIf(s.event.Some?, "event: " + s.event.GetOr("") + "\n")
  {
    var f1 := Slot("id", s.id);
    assert [] + f1 == f1;
    PrintSlot([], "id", s.id, s.id.Some?, "id: " + s.id.GetOr("") + "\n");
    PrintSlot(f1, "event", s.event, s.event.Some?, "event: " + s.event.GetOr("") + "\n");
  }

  lemma PrintLastTwo(s: Slots, f2: seq<Field>)
    ensures Concat(FieldLines(f2 + Slot("retry", s.retry) + Slot("data", s.data))) + (if s.data.Some? then "\n" else "")
         == Concat(FieldLines(f2)) + PrintedIf(s.retry.Some?, "retry: " + s.retry.GetOr("") + "\n")
            + PrintedIf(s.data.Some?, "data: " + s.data.GetOr("") + "\n\n")
  {
    PrintSlot(f2, "retry", s.retry, s.retry.Some?, "retry: " + s.retry.GetOr("") + "\n");
    PrintLastSlot(f2 + Slot("retry", s.retry), "data", s.data, s.data.Some?, "data: " + s.data.GetOr("") + "\n\n");
  }

  /** The printed text is the field lines in wire order, then a blank line only if data was printed. */
  lemma EncodedLayout(e: Event)
    ensures Encoded(e) == Concat(FieldLines(Fields(e))) + (if e.data != "" then "\n" else "")
  {
    assert Encoded(e) == PrintSlots(WrittenSlots(e));
    SlotsLayout(WrittenSlots(e));
  }

  /** At least one line is printed. */
  predicate Emits(e: Event) {
    |e.id| > 0 || |e.event| > 0 || e.retry > 0 || |e.data| > 0
  }

  /** The `io.Writer` the event is printed to, as the text written so far. */
  class Writer {
    var written: string

    constructor ()
      ensures written == ""
    {
      written := "";
    }

    /** One `fmt.Fprintf` call, with its text already formatted. */
    method Write(s: string)
      modifies this
      ensures written == old(written) + s
    {
      written := written + s;
    }
  }

  /** `Server.encode`: prints the event's lines to `w`, one `Fprintf` per line. */
  method Encode(w: Writer, event: Event)
    modifies w
    ensures w.written == old(w.written) + Encoded(event)
  {
    ghost var p1 := PrintedIf(|event.id| > 0, "id: " + Escape(event.id) + "\n");
    ghost var p2 := PrintedIf(|event.event| > 0, "event: " + Escape(event.event) + "\n");
    ghost var p3 := PrintedIf(event.retry > 0, "retry: " + (if event.retry > 0 then Itoa(event.retry) else "") + "\n");
    ghost var p4 := PrintedIf(|event.data| > 0, "data: " + Escape(event.data) + "\n\n");
    ghost var t0 := w.written;
    if |event.id| > 0 {
      w.Write("id: " + Escape(event.id) + "\n");
    }
    ghost var t1 := w.written;
    assert t1 == t0 + p1;
    if |event.event| > 0 {
      w.Write("event: " + Escape(event.event) + "\n");
    }
    ghost var t2 := w.written;
    assert t2 == t1 + p2;
    if event.retry > 0 {
      w.Write("retry: " + Itoa(event.retry) + "\n");
    }
    ghost var t3 := w.written;
    assert t3 == t2 + p3;
    if |event.data| > 0 {
      w.Write("data: " + Escape(event.data) + "\n\n");
    }
    assert w.written == t3 + p4;
    Extend4(t0, p1, p2, p3, p4);
  }

  /**
   * The printed fields follow the order id, event, retry, data; each is
   * printed exactly when it is set (retry: when positive), with its value
   * escaped and the retry value as decimal text.
   */
  lemma FieldsInOrder(e: Event)
    ensures InWireOrder(Fields(e))
    ensures HasField(Fields(e), "id") <==> e.id != ""
    ensures HasField(Fields(e), "event") <==> e.event != ""
    ensures HasField(Fields(e), "retry") <==> e.retry > 0
    ensures HasField(Fields(e), "data") <==> e.data != ""
    ensures forall f | f in Fields(e) ::
              WellFormed(f)
              && (f.name == "id" ==> f.value == Escape(e.id))
              && (f.name == "event" ==> f.value == Escape(e.event))
              && (f.name == "retry" ==> e.retry > 0 && f.value == Itoa(e.retry))
              && (f.name == "data" ==> f.value == Escape(e.data))
  {
    LayoutInOrder(WrittenSlots(e));
    LayoutPresent(WrittenSlots(e));
    forall f | f in Fields(e) ensures SingleLine(f.value) {
      if f.name == "retry" {
        assert AllDigits(f.value);
      }
    }
  }

  /** An event with every field empty or zero prints nothing at all. */
  lemma EncodeWritesNothing(e: Event)
    ensures Encoded(e) == "" <==> !Emits(e)
  {
    EncodedLayout(e);
    if Emits(e) {
      assert Fields(e) != [] by {
        LayoutPresent(WrittenSlots(e));
      }
      FieldsInOrder(e);
      FieldLinesAreLines(Fields(e));
      ConcatLinesEnds(FieldLines(Fields(e)));
    } else {
      assert Fields(e) == [];
    }
  }

  /**
   * The printed text reads back as the field lines, followed by the blank
   * line only when data was printed; no value can inject a line.
   */
  lemma EncodeLines(e: Event)
    ensures ReadLines(Encoded(e)) == FieldLines(Fields(e)) + (if e.data != "" then ["\n"] else [])
  {
    var blank: seq<string> := if e.data != "" then ["\n"] else [];
    var ls := FieldLines(Fields(e)) + blank;
    assert AllLines(ls) by {
      FieldsInOrder(e);
      FieldLinesAreLines(Fields(e));
      assert IsLine("\n");
      AllLinesAppend(FieldLines(Fields(e)), blank);
    }
    assert Concat(ls) + "" == Encoded(e) by {
      ConcatAppend(FieldLines(Fields(e)), blank);
      ConcatCons("\n", []);
      EncodedLayout(e);
    }
    ReadLinesOfLines(ls, "");
  }

  /** The printed text ends in a blank line, `"\n\n"`, exactly when the event has data. */
  lemma TerminatorOnlyWithData(e: Event)
    ensures (|Encoded(e)| >= 2 && Encoded(e)[|Encoded(e)| - 2..] == "\n\n") <==> e.data != ""
  {
    var fs := Fields(e);
    FieldsInOrder(e);
    assert e.data != "" ==> fs != [] by {
      if e.data != "" {
        assert HasField(fs, "data");
      }
    }
    EncodedLayout(e);
    BlankEnd(fs, e.data != "");
  }
}
