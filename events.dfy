/**
 * The event record and its serialiser (event.go): `Encode` writes an event
 * as `id:`, `event:`, `retry:` and `data:` lines followed by a blank line,
 * escaping line breaks, tabs and backslashes in the values.
 */
module Events {
  import opened Wrappers
  import opened Strs
  import opened Strconv
  import opened Lines
  import opened Wire

  /** An event as both ends of the stream see it; `retry` is Go's `int`. */
  datatype Event = Event(id: string, event: string, retry: int, data: string)

  /** The four characters the package-level replacer rewrites. */
  predicate Special(c: char) {
    c == '\n' || c == '\r' || c == '\t' || c == '\\'
  }

  /** What the replacer writes for one character. */
  function EscapeChar(c: char): string {
    if c == '\n' then "\\n"
    else if c == '\r' then "\\r"
    else if c == '\t' then "\\t"
    else if c == '\\' then "\\\\"
    else [c]
  }

  /**
   * The package-level replacer: each special character becomes a backslash
   * and a letter (a backslash becomes two backslashes); every other character
   * is copied.
   */
  function Escape(s: string): (r: string)
    ensures SingleLine(r) && '\t' !in r
    ensures |r| >= |s|
    ensures r == [] <==> s == []
  {
    if s == [] then [] else EscapeChar(s[0]) + Escape(s[1..])
  }

  /** The character a backslash followed by `c` stands for. */
  function UnescapeChar(c: char): char {
    if c == 'n' then '\n' else if c == 'r' then '\r' else if c == 't' then '\t' else c
  }

  /** Reading escaped text back: the inverse of `Escape`, used to show it loses nothing. */
  function Unescape(r: string): string {
    if r == [] then []
    else if r[0] == '\\' && |r| >= 2 then [UnescapeChar(r[1])] + Unescape(r[2..])
    else [r[0]] + Unescape(r[1..])
  }

  lemma UnescapeFirst(c: char, t: string)
    ensures Unescape(EscapeChar(c) + t) == [c] + Unescape(t)
  {
    var r := EscapeChar(c) + t;
    if Special(c) {
      assert r[2..] == t;
    } else {
      assert r[1..] == t;
    }
  }

  /** Escaped text reads back as the original. */
  lemma {:induction false} EscapeRoundTrip(s: string)
    ensures Unescape(Escape(s)) == s
  {
    if s != [] {
      UnescapeFirst(s[0], Escape(s[1..]));
      EscapeRoundTrip(s[1..]);
    }
  }

  /** Because backslash is escaped too, distinct values escape to distinct text. */
  lemma EscapeInjective(s1: string, s2: string)
    requires Escape(s1) == Escape(s2)
    ensures s1 == s2
  {
    EscapeRoundTrip(s1);
    EscapeRoundTrip(s2);
  }

  /** Number of special characters in `s`. */
  function CountSpecial(s: string): nat {
    if s == [] then 0 else (if Special(s[0]) then 1 else 0) + CountSpecial(s[1..])
  }

  /** Escaping adds exactly one character per special character. */
  lemma {:induction false} EscapeLength(s: string)
    ensures |Escape(s)| == |s| + CountSpecial(s)
  {
    if s != [] {
      EscapeLength(s[1..]);
    }
  }

  /** A value without special characters is written unchanged. */
  lemma {:induction false} EscapePlain(s: string)
    requires forall k | 0 <= k < |s| :: !Special(s[k])
    ensures Escape(s) == s
  {
    if s != [] {
      EscapePlain(s[1..]);
    }
  }

  /** Which fields `Encode` writes, and the escaped or formatted value of each. */
  function WrittenSlots(e: Event): Slots {
    Slots(if e.id != "" then Some(Escape(e.id)) else None,
          if e.event != "" then Some(Escape(e.event)) else None,
          if e.retry > 0 then Some(Itoa(e.retry)) else None,
          if e.data != "" then Some(Escape(e.data)) else None)
  }

  /** The fields `Encode` writes, in writing order. */
  function Fields(e: Event): seq<Field> {
    Layout(WrittenSlots(e))
  }

  /** The lines `Encode` writes: one per field, then the blank line. */
  function EncodedLines(e: Event): seq<string> {
    FieldLines(Fields(e)) + ["\n"]
  }

  function Encoded(e: Event): string {
    Concat(EncodedLines(e))
  }

  lemma EncodedText(e: Event)
    ensures Encoded(e) == Concat(FieldLines(Fields(e))) + "\n"
  {
    ConcatAppend(FieldLines(Fields(e)), ["\n"]);
    ConcatCons("\n", []);
  }

  /** At least one field is written. */
  predicate Emits(e: Event) {
    e.id != "" || e.event != "" || e.retry > 0 || e.data != ""
  }

  /** `Encode`: the event written into a fresh buffer, field line by field line, then the blank line. */
  method Encode(e: Event) returns (buf: string)
    ensures buf == Encoded(e)
  {
    ghost var slots := WrittenSlots(e);
    ghost var before: string;
    ghost var written: seq<Field> := [];
    buf := "";
    assert buf == Concat(FieldLines(written));

    before := buf;
    if e.id != "" {
      buf := buf + "id: ";
      buf := buf + Escape(e.id);
      buf := buf + "\n";
      WriteLineParts(before, "id: ", "id", Escape(e.id));
    }
    WriteSlot(written, "id", slots.id);
    written := written + Slot("id", slots.id);
    assert buf == Concat(FieldLines(written));

    before := buf;
    if e.event != "" {
      buf := buf + "event: ";
      buf := buf + Escape(e.event);
      buf := buf + "\n";
      WriteLineParts(before, "event: ", "event", Escape(e.event));
    }
    WriteSlot(written, "event", slots.event);
    written := written + Slot("event", slots.event);
    assert buf == Concat(FieldLines(written));

    before := buf;
    if e.retry > 0 {
      buf := buf + "retry: ";
      buf := buf + Itoa(e.retry);
      buf := buf + "\n";
      WriteLineParts(before, "retry: ", "retry", Itoa(e.retry));
    }
    WriteSlot(written, "retry", slots.retry);
    written := written + Slot("retry", slots.retry);
    assert buf == Concat(FieldLines(written));

    before := buf;
    if e.data != "" {
      buf := buf + "data: ";
      buf := buf + Escape(e.data);
      buf := buf + "\n";
      WriteLineParts(before, "data: ", "data", Escape(e.data));
    }
    WriteSlot(written, "data", slots.data);
    written := written + Slot("data", slots.data);
    assert buf == Concat(FieldLines(written));

    assert written == Fields(e) by {
      assert [] + Slot("id", slots.id) == Slot("id", slots.id);
    }
    EncodedText(e);
    buf := buf + "\n";
  }

  /**
   * The written fields follow the order id, event, retry, data; each is
   * present exactly when its value is set (retry: when positive).
   */
  lemma FieldsInOrder(e: Event)
    ensures InWireOrder(Fields(e))
    ensures HasField(Fields(e), "id") <==> e.id != ""
    ensures HasField(Fields(e), "event") <==> e.event != ""
    ensures HasField(Fields(e), "retry") <==> e.retry > 0
    ensures HasField(Fields(e), "data") <==> e.data != ""
  {
    LayoutInOrder(WrittenSlots(e));
    LayoutPresent(WrittenSlots(e));
  }

  /** Every written field is well formed and carries the escaped value (retry: its decimal text). */
  lemma FieldsCarryValues(e: Event)
    ensures forall f | f in Fields(e) ::
              WellFormed(f)
              && (f.name == "id" ==> f.value == Escape(e.id))
              && (f.name == "event" ==> f.value == Escape(e.event))
              && (f.name == "retry" ==> e.retry > 0 && f.value == Itoa(e.retry))
              && (f.name == "data" ==> f.value == Escape(e.data))
  {
    LayoutPresent(WrittenSlots(e));
    forall f | f in Fields(e) ensures SingleLine(f.value) {
      if f.name == "retry" {
        assert AllDigits(f.value);
      }
    }
  }

  /**
   * The encoding reads back as exactly the field lines and the blank line, so
   * no value can inject a line, and it holds one `\n` more than it has fields.
   */
  lemma EncodeLines(e: Event)
    ensures AllLines(EncodedLines(e))
    ensures ReadLines(Encoded(e)) == EncodedLines(e)
    ensures Count(Encoded(e), '\n') == |Fields(e)| + 1
  {
    FieldsCarryValues(e);
    FieldLinesAreLines(Fields(e));
    assert IsLine("\n");
    var ls := EncodedLines(e);
    assert AllLines(ls);
    ReadLinesOfLines(ls, "");
    assert Concat(ls) + "" == Concat(ls);
    CountNewlines(ls);
  }

  /**
   * The output always ends in `\n`; it is exactly `"\n"` when no field is
   * written, and otherwise ends in a blank line, `"\n\n"`.
   */
  lemma EncodeTerminator(e: Event)
    ensures |Encoded(e)| > 0 && Encoded(e)[|Encoded(e)| - 1] == '\n'
    ensures Encoded(e) == "\n" <==> !Emits(e)
    ensures Emits(e) ==> |Encoded(e)| >= 2 && Encoded(e)[|Encoded(e)| - 2..] == "\n\n"
  {
    var fs := Fields(e);
    assert Emits(e) <==> fs != [];
    EncodedText(e);
    if Emits(e) {
      FieldsCarryValues(e);
      BlankEnd(fs, true);
    }
  }
}
