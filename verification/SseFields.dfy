/** What the fields of an event block are, said of its lines (app/client-api/src/ai.rs). */
module SseFields {
  import opened Lists
  import opened Options
  import opened SseFraming
  import opened SseGrammar

  predicate Spells(s: bytes, text: string) {
    |s| == |text| && forall i | 0 <= i < |s| :: s[i] as int == text[i] as int
  }

  lemma FieldNames()
    ensures Spells(EVENT, "event:") && Spells(DATA, "data:") && Spells([SPACE], " ") && Spells([LF], "\n")
  {
  }

  /** A line that names the event. */
  ghost predicate Names(line: bytes, name: bytes) {
    line == EVENT + name
  }

  /** A line of data: one space after the colon does not belong to it. */
  ghost predicate Carries(line: bytes, value: bytes) {
    line == DATA + [SPACE] + value || (line == DATA + value && (value == [] || value[0] != SPACE))
  }

  /** The values of the lines that have one, in order. */
  ghost predicate ValuesOf(lines: Lines, has: (bytes, bytes) -> bool, values: Lines)
    decreases lines
  {
    match lines
    case Nil => values == Nil
    case Cons(line, rest) =>
      if exists v :: has(line, v) then values.Cons? && has(line, values.head) && ValuesOf(rest, has, values.tail)
      else ValuesOf(rest, has, values)
  }

  function LastOf(values: Lines): bytes
    requires values.Cons?
  {
    if values.tail.Nil? then values.head else LastOf(values.tail)
  }

  /** The values with a line feed between each two. */
  function Joined(values: Lines): bytes
    requires values.Cons?
  {
    if values.tail.Nil? then values.head else values.head + [LF] + Joined(values.tail)
  }

  lemma NamesIs(line: bytes)
    ensures HasPrefix(line, EVENT) ==> Names(line, line[|EVENT|..])
    ensures !HasPrefix(line, EVENT) ==> forall v :: !Names(line, v)
    ensures HasPrefix(line, EVENT) ==> !HasPrefix(line, DATA)
  {
    if HasPrefix(line, EVENT) { assert line == line[..|EVENT|] + line[|EVENT|..] && line[0] == EVENT[0]; }
    forall v | Names(line, v) ensures HasPrefix(line, EVENT) { assert (EVENT + v)[..|EVENT|] == EVENT; }
  }

  lemma CarriesIs(line: bytes)
    ensures HasPrefix(line, DATA) ==> Carries(line, Value(line))
    ensures !HasPrefix(line, DATA) ==> forall v :: !Carries(line, v)
  {
    if HasPrefix(line, DATA) {
      assert line == line[..|DATA|] + line[|DATA|..];
      if |line| > |DATA| && line[|DATA|] == SPACE { assert line[|DATA|..] == [SPACE] + line[|DATA| + 1..]; }
    }
    forall v | Carries(line, v) ensures HasPrefix(line, DATA) {
      assert (DATA + v)[..|DATA|] == DATA && (DATA + [SPACE] + v)[..|DATA|] == DATA;
    }
  }

  /** The last name, or else the one before. */
  function NameAfter(trim: Trimmer, before: Option<bytes>, names: Lines): Option<bytes> {
    if names.Nil? then before else Some(trim(LastOf(names)))
  }

  function DataAfter(before: Option<bytes>, values: Lines): Option<bytes> {
    if values.Nil? then before
    else match before case None => Some(Joined(values)) case Some(data) => Some(data + [LF] + Joined(values))
  }

  lemma DataStep(before: Option<bytes>, value: bytes, values: Lines)
    ensures DataAfter(Some(match before case None => value case Some(data) => data + [LF] + value), values) ==
            DataAfter(before, Cons(value, values))
  {
    if values.Cons? && before.Some? {
      assert before.value + [LF] + value + [LF] + Joined(values) == before.value + [LF] + (value + [LF] + Joined(values));
    }
  }

  ghost predicate Read(trim: Trimmer, f: Fields, lines: Lines, names: Lines, values: Lines) {
    && ValuesOf(lines, Names, names) && ValuesOf(lines, Carries, values)
    && FieldsFrom(trim, f, lines) == Fields(NameAfter(trim, f.event, names), DataAfter(f.data, values))
  }

  lemma ReadLine(trim: Trimmer, f: Fields, line: bytes, rest: Lines, names: Lines, values: Lines)
      returns (names': Lines, values': Lines)
    requires Read(trim, WithLine(trim, f, line), rest, names, values)
    ensures Read(trim, f, Cons(line, rest), names', values')
  {
    NamesIs(line);
    CarriesIs(line);
    names', values' := names, values;
    if HasPrefix(line, EVENT) {
      names' := Cons(line[|EVENT|..], names);
    } else if HasPrefix(line, DATA) {
      values' := Cons(Value(line), values);
      DataStep(f.data, Value(line), values);
    }
  }

  lemma {:induction false} ReadLines(trim: Trimmer, f: Fields, lines: Lines) returns (names: Lines, values: Lines)
    ensures Read(trim, f, lines, names, values)
    decreases lines
  {
    match lines
    case Nil => names, values := Nil, Nil;
    case Cons(line, rest) =>
      names, values := ReadLines(trim, WithLine(trim, f, line), rest);
      names, values := ReadLine(trim, f, line, rest, names, values);
  }

  /** The event is the last name, trimmed; the data is all lines of data, joined by line feeds. */
  lemma FieldsAre(trim: Trimmer, lines: Lines) returns (names: Lines, values: Lines)
    ensures ValuesOf(lines, Names, names) && ValuesOf(lines, Carries, values)
    ensures FieldsOf(trim, lines).event == if names.Nil? then None else Some(trim(LastOf(names)))
    ensures FieldsOf(trim, lines).data == if values.Nil? then None else Some(Joined(values))
  {
    names, values := ReadLines(trim, Fields(None, None), lines);
  }
}
