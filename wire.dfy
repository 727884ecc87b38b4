/**
 * The shape both encoders give an event on the wire: one `<name>: <value>`
 * line per field that is present, in the fixed order id, event, retry, data.
 */
module Wire {
  import opened Wrappers
  import opened Strs
  import opened Lines

  /** One field as written: its name and its already escaped or formatted value. */
  datatype Field = Field(name: string, value: string)

  /** The line a field is written as. */
  function FieldLine(f: Field): string {
    f.name + ": " + f.value + "\n"
  }

  function FieldLines(fs: seq<Field>): (ls: seq<string>)
    ensures |ls| == |fs|
  {
    if fs == [] then [] else [FieldLine(fs[0])] + FieldLines(fs[1..])
  }

  /** The lines of `fs` are the lines of its fields, one by one. */
  lemma {:induction false} FieldLinesEach(fs: seq<Field>)
    ensures forall i | 0 <= i < |fs| :: FieldLines(fs)[i] == FieldLine(fs[i])
  {
    if fs != [] {
      FieldLinesEach(fs[1..]);
    }
  }

  /** Position of a field name in the order id, event, retry, data; 4 for any other name. */
  function Rank(name: string): nat {
    if name == "id" then 0
    else if name == "event" then 1
    else if name == "retry" then 2
    else if name == "data" then 3
    else 4
  }

  /** Field names strictly follow the order id, event, retry, data, so none repeats. */
  predicate InWireOrder(fs: seq<Field>) {
    forall i, j | 0 <= i < j < |fs| :: Rank(fs[i].name) < Rank(fs[j].name)
  }

  /** The written value of each of the four fields, or `None` when that field is not written. */
  datatype Slots = Slots(id: Option<string>, event: Option<string>, retry: Option<string>, data: Option<string>)

  /** The field `name` with the slot's value, or nothing for an empty slot. */
  function Slot(name: string, v: Option<string>): seq<Field> {
    if v.Some? then [Field(name, v.value)] else []
  }

  /** The fields an encoder writes for the given slots, in the order id, event, retry, data. */
  function Layout(s: Slots): seq<Field> {
    Slot("id", s.id) + Slot("event", s.event) + Slot("retry", s.retry) + Slot("data", s.data)
  }

  /** Two ordered runs of fields, the first ranked wholly below the second, form an ordered run. */
  lemma OrderedAppend(xs: seq<Field>, ys: seq<Field>)
    requires InWireOrder(xs) && InWireOrder(ys)
    requires forall x, y | x in xs && y in ys :: Rank(x.name) < Rank(y.name)
    ensures InWireOrder(xs + ys)
  {
    var zs := xs + ys;
    forall i, j | 0 <= i < j < |zs| ensures Rank(zs[i].name) < Rank(zs[j].name) {
      if j < |xs| {
        assert zs[i] == xs[i] && zs[j] == xs[j];
      } else if i >= |xs| {
        assert zs[i] == ys[i - |xs|] && zs[j] == ys[j - |xs|];
      } else {
        assert zs[i] in xs && zs[j] in ys;
      }
    }
  }

  /** Some field in `fs` carries the name `name`. */
  predicate HasField(fs: seq<Field>, name: string) {
    exists f | f in fs :: f.name == name
  }

  /** A value that cannot break its line: no `\n` and no `\r`. */
  predicate SingleLine(v: string) {
    '\n' !in v && '\r' !in v
  }

  /** A field with one of the four names and a single-line value. */
  predicate WellFormed(f: Field) {
    Rank(f.name) < 4 && SingleLine(f.value)
  }

  /** Well-formed fields are written as complete lines, one each. */
  lemma FieldLinesAreLines(fs: seq<Field>)
    requires forall f | f in fs :: WellFormed(f)
    ensures AllLines(FieldLines(fs))
  {
    FieldLinesEach(fs);
    forall i | 0 <= i < |fs| ensures IsLine(FieldLines(fs)[i]) {
      assert fs[i] in fs;
      FieldLineIsLine(fs[i]);
    }
  }

  lemma FieldLineIsLine(f: Field)
    requires WellFormed(f)
    ensures IsLine(FieldLine(f))
  {
    var text := f.name + ": " + f.value;
    assert '\n' !in f.name by {
      assert f.name in {"id", "event", "retry", "data"};
    }
    forall k | 0 <= k < |text| ensures text[k] != '\n' {
      if k < |f.name| {
        assert text[k] == f.name[k];
      } else if k >= |f.name| + 2 {
        assert text[k] == f.value[k - |f.name| - 2];
      }
    }
    assert FieldLine(f) == text + "\n";
    assert FieldLine(f)[..|FieldLine(f)| - 1] == text;
  }

  lemma {:induction false} FieldLinesAppend(xs: seq<Field>, ys: seq<Field>)
    ensures FieldLines(xs + ys) == FieldLines(xs) + FieldLines(ys)
  {
    FieldLinesEach(xs + ys);
    FieldLinesEach(xs);
    FieldLinesEach(ys);
    forall i | 0 <= i < |xs| + |ys| ensures FieldLines(xs + ys)[i] == (FieldLines(xs) + FieldLines(ys))[i] {
      if i < |xs| {
        assert (xs + ys)[i] == xs[i];
      } else {
        assert (xs + ys)[i] == ys[i - |xs|];
      }
    }
  }

  /** Writing the prefix `<name>: `, the value and `\n` one after the other writes the field's line. */
  lemma WriteLineParts(before: string, prefix: string, name: string, value: string)
    requires prefix == name + ": "
    ensures before + prefix + value + "\n" == before + FieldLine(Field(name, value))
  {
  }

  /** The text `<name>: <value>\n\n`, printed in one go, is the field's line and a blank line. */
  lemma LineTextTerminated(prefix: string, name: string, value: string)
    requires prefix == name + ": "
    ensures prefix + value + "\n\n" == FieldLine(Field(name, value)) + "\n"
  {
    assert "\n\n" == "\n" + "\n";
  }

  /** Writing a field only when its slot is filled extends the text by its line or by nothing. */
  lemma WriteSlot(fs: seq<Field>, name: string, v: Option<string>)
    ensures Concat(FieldLines(fs + Slot(name, v)))
         == Concat(FieldLines(fs)) + (if v.Some? then FieldLine(Field(name, v.value)) else "")
  {
    if v.Some? {
      WriteField(fs, Field(name, v.value));
    } else {
      assert fs + Slot(name, v) == fs;
    }
  }

  /** Writing one more field extends the text by exactly its line. */
  lemma WriteField(fs: seq<Field>, f: Field)
    ensures Concat(FieldLines(fs + [f])) == Concat(FieldLines(fs)) + FieldLine(f)
  {
    FieldLinesAppend(fs, [f]);
    ConcatAppend(FieldLines(fs), FieldLines([f]));
    assert FieldLines([f]) == [FieldLine(f)];
    ConcatCons(FieldLine(f), []);
  }

  /** Text made of well-formed field lines never ends in a blank line. */
  lemma FieldTextNoBlankEnd(fs: seq<Field>)
    requires fs != [] && forall f | f in fs :: WellFormed(f)
    ensures var text := Concat(FieldLines(fs)); |text| >= 2 && text[|text| - 2] != '\n'
  {
    var last := fs[|fs| - 1];
    var l := FieldLine(last);
    assert fs == fs[..|fs| - 1] + [last];
    WriteField(fs[..|fs| - 1], last);
    assert last in fs;
    FieldLineIsLine(last);
    var text := Concat(FieldLines(fs));
    assert text[|text| - 2] == l[|l| - 2];
    assert l[|l| - 2] in l[..|l| - 1];
  }

  /** Well-formed field lines end in a blank line exactly when a terminator follows them. */
  lemma BlankEnd(fs: seq<Field>, terminated: bool)
    requires forall f | f in fs :: WellFormed(f)
    requires terminated ==> fs != []
    ensures var text := Concat(FieldLines(fs)) + (if terminated then "\n" else "");
            (|text| >= 2 && text[|text| - 2..] == "\n\n") <==> terminated
  {
    var body := Concat(FieldLines(fs));
    var text := body + (if terminated then "\n" else "");
    if terminated {
      assert |body| > 0 && body[|body| - 1] == '\n' by {
        FieldLinesAreLines(fs);
        ConcatLinesEnds(FieldLines(fs));
      }
      assert text[|text| - 2..] == [body[|body| - 1], '\n'];
    } else if fs != [] {
      FieldTextNoBlankEnd(fs);
      assert text == body;
      if text[|text| - 2..] == "\n\n" {
        assert text[|text| - 2] == text[|text| - 2..][0];
      }
    }
  }

  /** The laid-out fields follow the order id, event, retry, data. */
  lemma LayoutInOrder(s: Slots)
    ensures InWireOrder(Layout(s))
  {
    var a, b, c, d := Slot("id", s.id), Slot("event", s.event), Slot("retry", s.retry), Slot("data", s.data);
    assert Rank("id") == 0 && Rank("event") == 1 && Rank("retry") == 2 && Rank("data") == 3;
    OrderedAppend(a, b);
    OrderedAppend(a + b, c);
    OrderedAppend(a + b + c, d);
  }

  /** A field is laid out exactly when its slot is filled, and then with the slot's value. */
  lemma LayoutPresent(s: Slots)
    ensures HasField(Layout(s), "id") <==> s.id.Some?
    ensures HasField(Layout(s), "event") <==> s.event.Some?
    ensures HasField(Layout(s), "retry") <==> s.retry.Some?
    ensures HasField(Layout(s), "data") <==> s.data.Some?
    ensures forall f | f in Layout(s) ::
              Rank(f.name) < 4
              && (f.name == "id" ==> s.id == Some(f.value))
              && (f.name == "event" ==> s.event == Some(f.value))
              && (f.name == "retry" ==> s.retry == Some(f.value))
              && (f.name == "data" ==> s.data == Some(f.value))
  {
    var a, b, c, d := Slot("id", s.id), Slot("event", s.event), Slot("retry", s.retry), Slot("data", s.data);
    assert Rank("id") == 0 && Rank("event") == 1 && Rank("retry") == 2 && Rank("data") == 3;
    forall f | f in Layout(s)
      ensures Rank(f.name) < 4
      ensures Rank(f.name) == 0 ==> s.id == Some(f.value)
      ensures Rank(f.name) == 1 ==> s.event == Some(f.value)
      ensures Rank(f.name) == 2 ==> s.retry == Some(f.value)
      ensures Rank(f.name) == 3 ==> s.data == Some(f.value)
    {
      assert f in a || f in b || f in c || f in d;
    }
    if s.id.Some? { assert a[0] in Layout(s); }
    if s.event.Some? { assert b[0] in Layout(s); }
    if s.retry.Some? { assert c[0] in Layout(s); }
    if s.data.Some? { assert d[0] in Layout(s); }
  }
}
