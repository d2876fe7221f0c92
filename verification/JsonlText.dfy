/** The text of the queue file: one marshalled operation to a line, read back by a line scanner with
    a limit on the length of a line. */
module JsonlText {
  import opened Wrappers
  import opened Merge

  newtype Byte = x: int | 0 <= x < 256

  type Bytes = seq<Byte>

  const NEWLINE: Byte := 10
  const RETURN: Byte := 13

  /** The scanner gives up on a line that does not fit its buffer of 64 KiB together with its end. */
  const LINE_LIMIT: nat := 65536

  /** The JSON codec, which is a library. */
  datatype Codec = Codec(marshal: Operation -> Bytes, unmarshal: Bytes -> Option<Operation>)

  /** What the store relies on: decoding inverts encoding, and an encoding is a non-empty line, since
      section 7 of RFC 8259 has control characters inside strings escaped. */
  ghost predicate Lawful(codec: Codec) {
    forall op :: LawfulOn(codec, op)
  }

  predicate LawfulOn(codec: Codec, op: Operation) {
    var line := codec.marshal(op);
    && codec.unmarshal(line) == Some(op)
    && line != []
    && NEWLINE !in line
    && line[|line| - 1] != RETURN
  }

  predicate FitsLine(codec: Codec, op: Operation) { |codec.marshal(op)| < LINE_LIMIT }

  predicate AllFit(codec: Codec, ops: seq<Operation>) {
    ops == [] || (FitsLine(codec, ops[0]) && AllFit(codec, ops[1..]))
  }

  lemma {:induction false} AllFitExact(codec: Codec, ops: seq<Operation>)
    ensures AllFit(codec, ops) <==> forall op :: op in ops ==> FitsLine(codec, op)
  {
    if ops != [] {
      AllFitExact(codec, ops[1..]);
      assert ops[0] in ops;
      assert forall op :: op in ops <==> op == ops[0] || op in ops[1..];
    }
  }

  /** A line as it is written. */
  function Line(codec: Codec, op: Operation): Bytes { codec.marshal(op) + [NEWLINE] }

  function Text(codec: Codec, ops: seq<Operation>): Bytes {
    if ops == [] then [] else Line(codec, ops[0]) + Text(codec, ops[1..])
  }

  // ---- the scanner ---------------------------------------------------------------------------------

  /** The length of the first line, without its end. */
  function LineLength(data: Bytes): (n: nat)
    ensures n <= |data|
    ensures NEWLINE !in data[..n]
    ensures n < |data| ==> data[n] == NEWLINE
  {
    if data == [] || data[0] == NEWLINE then 0 else 1 + LineLength(data[1..])
  }

  function AfterLine(data: Bytes): (rest: Bytes)
    ensures data != [] ==> |rest| < |data|
  {
    var n := LineLength(data);
    if n < |data| then data[n + 1..] else []
  }

  /** A carriage return before the end of a line belongs to the end. */
  function DropReturn(line: Bytes): Bytes {
    if line != [] && line[|line| - 1] == RETURN then line[..|line| - 1] else line
  }

  /** What one line yields: nothing at all if it is too long or does not decode, no operation if it is
      empty. */
  function ParseOne(codec: Codec, raw: Bytes): Option<seq<Operation>> {
    if |raw| >= LINE_LIMIT then None
    else if DropReturn(raw) == [] then Some([])
    else
      var op := codec.unmarshal(DropReturn(raw));
      if op.None? then None else Some([op.value])
  }

  function Both(a: Option<seq<Operation>>, b: Option<seq<Operation>>): Option<seq<Operation>> {
    if a.None? || b.None? then None else Some(a.value + b.value)
  }

  /** The operations of a file, or nothing if some line stops the reader. */
  function Parse(codec: Codec, data: Bytes): Option<seq<Operation>>
    decreases |data|
  {
    if data == [] then Some([])
    else Both(ParseOne(codec, data[..LineLength(data)]), Parse(codec, AfterLine(data)))
  }

  /** Whole lines: what the store's own writes leave. */
  predicate Terminated(data: Bytes) { data == [] || data[|data| - 1] == NEWLINE }

  lemma {:induction false} LineLengthOf(line: Bytes, rest: Bytes)
    requires NEWLINE !in line
    ensures LineLength(line + [NEWLINE] + rest) == |line|
    ensures AfterLine(line + [NEWLINE] + rest) == rest
  {
    var data := line + [NEWLINE] + rest;
    if line != [] {
      assert data[0] == line[0] && line[0] in line;
      assert data[1..] == line[1..] + [NEWLINE] + rest;
      LineLengthOf(line[1..], rest);
    }
  }

  lemma ParseFirstLine(codec: Codec, line: Bytes, rest: Bytes)
    requires NEWLINE !in line
    ensures Parse(codec, line + [NEWLINE] + rest) == Both(ParseOne(codec, line), Parse(codec, rest))
  {
    LineLengthOf(line, rest);
    assert (line + [NEWLINE] + rest)[..|line|] == line;
  }

  lemma BothLaws(a: Option<seq<Operation>>, b: Option<seq<Operation>>, c: Option<seq<Operation>>)
    ensures Both(Both(a, b), c) == Both(a, Both(b, c))
    ensures Both(Some([]), a) == a && Both(a, Some([])) == a
  {
    if a.Some? {
      assert [] + a.value == a.value && a.value + [] == a.value;
      if b.Some? && c.Some? {
        assert (a.value + b.value) + c.value == a.value + (b.value + c.value);
      }
    }
  }

  lemma FirstLine(a: Bytes)
    requires a != [] && Terminated(a)
    ensures a == a[..LineLength(a)] + [NEWLINE] + AfterLine(a)
    ensures NEWLINE !in a[..LineLength(a)] && Terminated(AfterLine(a)) && |AfterLine(a)| < |a|
  {
    var n := LineLength(a);
    hide LineLength;
    assert a[0..n] == a[..n];
    NoNewline(a, 0, n, |a| - 1);
    assert a == a[..n] + [a[n]] + a[n + 1..];
  }

  /** Whole lines and what follows them are read independently. */
  lemma {:induction false} ParseConcat(codec: Codec, a: Bytes, b: Bytes)
    requires Terminated(a)
    ensures Parse(codec, a + b) == Both(Parse(codec, a), Parse(codec, b))
    decreases |a|
  {
    hide ParseOne, Parse, LineLength, AfterLine, Terminated, Both;
    if a == [] {
      ParseNothing(codec);
      BothLaws(Parse(codec, b), None, None);
      assert a + b == b;
    } else {
      var line, rest := a[..LineLength(a)], AfterLine(a);
      FirstLine(a);
      assert a + b == line + [NEWLINE] + (rest + b);
      ParseFirstLine(codec, line, rest);
      ParseFirstLine(codec, line, rest + b);
      ParseConcat(codec, rest, b);
      BothLaws(ParseOne(codec, line), Parse(codec, rest), Parse(codec, b));
    }
  }

  lemma ParseNothing(codec: Codec)
    ensures Parse(codec, []) == Some([])
  {}

  /** One written line reads back as its operation, or stops the scanner. */
  lemma ParseLine(codec: Codec, op: Operation)
    requires LawfulOn(codec, op)
    ensures Parse(codec, Line(codec, op)) == if FitsLine(codec, op) then Some([op]) else None
    ensures Terminated(Line(codec, op))
  {
    var line := codec.marshal(op);
    assert Line(codec, op) == line + [NEWLINE] + [];
    ParseFirstLine(codec, line, []);
    assert Parse(codec, []) == Some([]);
    BothLaws(ParseOne(codec, line), None, None);
    assert DropReturn(line) == line;
  }

  /** Round trip: the text of a list of operations reads back as that list, in order, exactly when
      every line fits the scanner's buffer. */
  lemma {:induction false} TextRoundTrip(codec: Codec, ops: seq<Operation>)
    requires Lawful(codec)
    ensures Terminated(Text(codec, ops))
    ensures Parse(codec, Text(codec, ops)) == if AllFit(codec, ops) then Some(ops) else None
  {
    hide Parse, LawfulOn, FitsLine, Line;
    if ops == [] {
      ParseNothing(codec);
    } else {
      var first, rest := Line(codec, ops[0]), Text(codec, ops[1..]);
      assert LawfulOn(codec, ops[0]) && Text(codec, ops) == first + rest;
      ParseLine(codec, ops[0]);
      TextRoundTrip(codec, ops[1..]);
      hide Text;
      ParseConcat(codec, first, rest);
      assert ops == [ops[0]] + ops[1..];
    }
  }

  lemma {:induction false} TextSnoc(codec: Codec, ops: seq<Operation>, op: Operation)
    ensures Text(codec, ops + [op]) == Text(codec, ops) + Line(codec, op)
  {
    hide Line;
    if ops == [] {
      assert [op][1..] == [];
      assert Text(codec, [op]) == Line(codec, op) + [];
      assert [] + [op] == [op];
    } else {
      TextSnoc(codec, ops[1..], op);
      assert (ops + [op])[1..] == ops[1..] + [op];
    }
  }

  /** A text is its lines one after the other, each ended by a newline and nothing else. */
  lemma {:induction false} TextIsLines(codec: Codec, a: seq<Operation>, op: Operation, b: seq<Operation>)
    ensures Text(codec, []) == []
    ensures Text(codec, a + [op] + b) == Text(codec, a) + (codec.marshal(op) + [10]) + Text(codec, b)
    decreases |b|
  {
    if b == [] {
      assert a + [op] + b == a + [op];
      TextSnoc(codec, a, op);
    } else {
      var init, last := b[..|b| - 1], b[|b| - 1];
      TextIsLines(codec, a, op, init);
      assert a + [op] + b == (a + [op] + init) + [last] && b == init + [last];
      hide Text, Line;
      TextSnoc(codec, a + [op] + init, last);
      TextSnoc(codec, init, last);
    }
  }

  // ---- replay --------------------------------------------------------------------------------------

  /** The map after storing a list of operations under their ids, the last one per id winning. */
  function Apply(m: map<string, Operation>, ops: seq<Operation>): map<string, Operation>
    decreases |ops|
  {
    if ops == [] then m
    else Apply(m, ops[..|ops| - 1])[ops[|ops| - 1].id := ops[|ops| - 1]]
  }

  lemma {:induction false} ApplyConcat(m: map<string, Operation>, a: seq<Operation>, b: seq<Operation>)
    ensures Apply(m, a + b) == Apply(Apply(m, a), b)
    decreases |b|
  {
    if b == [] {
      assert a + b == a;
    } else {
      ApplyConcat(m, a, b[..|b| - 1]);
      assert (a + b)[..|a + b| - 1] == a + b[..|b| - 1];
    }
  }

  /** What opening a file gives. */
  function Replay(codec: Codec, data: Bytes): Option<map<string, Operation>> {
    var ops := Parse(codec, data);
    if ops.None? then None else Some(Apply(map[], ops.value))
  }

  /** Appending a line to whole lines updates the replayed map at one id, if the line fits, and
      otherwise makes the file unreadable. */
  lemma ReplayAppend(codec: Codec, data: Bytes, op: Operation)
    requires LawfulOn(codec, op) && Terminated(data) && Replay(codec, data).Some?
    ensures Replay(codec, data + Line(codec, op)) ==
            if FitsLine(codec, op) then Some(Replay(codec, data).value[op.id := op]) else None
    ensures Terminated(data + Line(codec, op))
  {
    var line := codec.marshal(op);
    assert data + line + [10] == data + Line(codec, op);
    hide Replay;
    ReplayLine(codec, data, line, line, true);
  }

  // ---- what opens, line by line ----------------------------------------------------------------------

  /** What the reader hands to the decoder: the line without one carriage return at its end. */
  ghost predicate BodyOf(line: Bytes, body: Bytes) {
    line == body + [13] || (line == body && (body == [] || body[|body| - 1] != 13))
  }

  lemma BodyIs(line: Bytes, body: Bytes)
    requires BodyOf(line, body)
    ensures DropReturn(line) == body
  {
    if line == body + [13] {
      assert line[..|line| - 1] == body;
    }
  }

  /** A file of whole lines and one line more, ended by a newline or by the end of the file. Unless the line is
      shorter than 64 KiB and is blank or decodes, the file cannot be opened; a line that decodes is stored under its
      id, over what earlier lines stored there. */
  lemma ReplayLine(codec: Codec, data: Bytes, line: Bytes, body: Bytes, ended: bool)
    requires Terminated(data) && 10 !in line && BodyOf(line, body) && (ended || line != [])
    ensures var before, op := Replay(codec, data), codec.unmarshal(body);
            Replay(codec, data + line + if ended then [10] else []) ==
            if before.None? || |line| >= 65536 then None
            else if body == [] then before
            else if op.None? then None
            else Some(before.value[op.value.id := op.value])
  {
    BodyIs(line, body);
    if ended {
      assert data + line + [10] == data + (line + [10] + []);
      ParseConcat(codec, data, line + [10] + []);
      ParseFirstLine(codec, line, []);
    } else {
      assert data + line + [] == data + line;
      ParseConcat(codec, data, line);
      LastLine(line);
      assert line[..|line|] == line;
    }
    BothLaws(ParseOne(codec, line), None, None);
    var first := ParseOne(codec, line);
    hide Parse, LineLength, AfterLine, Terminated, DropReturn;
    if Replay(codec, data).Some? && first.Some? {
      ApplyConcat(map[], Parse(codec, data).value, first.value);
      ApplyOne(Apply(map[], Parse(codec, data).value), first.value);
    }
  }

  lemma ApplyOne(m: map<string, Operation>, ops: seq<Operation>)
    requires |ops| <= 1
    ensures Apply(m, ops) == if ops == [] then m else m[ops[0].id := ops[0]]
  {
    if ops != [] {
      assert ops[..0] == [];
    }
  }

  lemma {:induction false} LastLine(line: Bytes)
    requires 10 !in line
    ensures LineLength(line) == |line| && AfterLine(line) == []
  {
    if line != [] {
      LastLine(line[1..]);
    }
  }

  /** The line from `i` to `j` of a file: it starts the file or follows a newline, holds none, and is ended by one
      or by the end of the file. */
  predicate IsLine(data: Bytes, i: nat, j: nat) {
    && i <= j <= |data| && i < |data|
    && (i == 0 || data[i - 1] == 10)
    && 10 !in data[i..j]
    && (j == |data| || data[j] == 10)
  }

  /** The line fits the scanner and is blank or decodes. */
  predicate Readable(codec: Codec, line: Bytes) {
    && |line| < 65536
    && var body := if line != [] && line[|line| - 1] == 13 then line[..|line| - 1] else line;
       body == [] || codec.unmarshal(body).Some?
  }

  ghost predicate AllReadable(codec: Codec, data: Bytes) {
    forall i: nat, j: nat :: IsLine(data, i, j) ==> Readable(codec, data[i..j])
  }

  /** The lines of a file are its first and those of the rest. */
  lemma FirstIsLine(data: Bytes, j: nat)
    requires data != []
    ensures IsLine(data, 0, LineLength(data))
    ensures IsLine(data, 0, j) ==> j == LineLength(data)
  {
    var n := LineLength(data);
    hide LineLength;
    assert data[0..n] == data[..n];
    if IsLine(data, 0, j) {
      NoNewline(data, 0, n, j);
      NoNewline(data, 0, j, n);
    }
  }

  lemma NoNewline(data: Bytes, i: nat, j: nat, k: nat)
    requires i <= j <= |data| && 10 !in data[i..j]
    ensures i <= k < j ==> data[k] != 10
  {
    if i <= k < j {
      assert data[i..j][k - i] == data[k];
    }
  }

  /** Cutting off whole lines moves the lines after them. */
  lemma Shifted(data: Bytes, m: nat, i: nat, j: nat)
    requires 0 < m <= i <= j <= |data| && data[m - 1] == 10
    ensures data[m..][i - m..j - m] == data[i..j]
    ensures IsLine(data, i, j) <==> IsLine(data[m..], i - m, j - m)
  {
    assert data[m..][i - m..j - m] == data[i..j];
  }

  lemma FirstEnds(data: Bytes, i: nat)
    requires 0 < i < |data| && data[i - 1] == 10
    ensures var n := LineLength(data);
            n < i && data[n] == 10 && AfterLine(data) == data[n + 1..]
  {
    var n := LineLength(data);
    assert n < |data| ==> AfterLine(data) == data[n + 1..];
    hide LineLength, AfterLine;
    assert data[0..n] == data[..n];
    NoNewline(data, 0, n, i - 1);
  }

  lemma LaterLine(data: Bytes, i: nat, j: nat)
    requires IsLine(data, i, j) && i > 0
    ensures var m := LineLength(data) + 1;
            && m <= i && IsLine(AfterLine(data), i - m, j - m)
            && AfterLine(data)[i - m..j - m] == data[i..j]
  {
    assert i <= j <= |data| && i < |data| && data[i - 1] == 10;
    hide LineLength, AfterLine, IsLine;
    FirstEnds(data, i);
    Shifted(data, LineLength(data) + 1, i, j);
  }

  lemma RestLine(data: Bytes, i: nat, j: nat)
    requires data != [] && IsLine(AfterLine(data), i, j)
    ensures var m := LineLength(data) + 1;
            IsLine(data, i + m, j + m) && data[i + m..j + m] == AfterLine(data)[i..j]
  {
    hide LineLength, AfterLine, IsLine;
    RestStarts(data, i, j);
    Shifted(data, LineLength(data) + 1, i + LineLength(data) + 1, j + LineLength(data) + 1);
  }

  lemma RestStarts(data: Bytes, i: nat, j: nat)
    requires IsLine(AfterLine(data), i, j)
    ensures var m := LineLength(data) + 1;
            m <= |data| && AfterLine(data) == data[m..] && data[m - 1] == 10 && i <= j <= |data| - m
  {
    assert |AfterLine(data)| > 0;
    hide LineLength;
  }

  /** A file can be opened exactly when each of its lines fits the scanner and is blank or decodes. */
  lemma {:induction false} OpensExact(codec: Codec, data: Bytes)
    ensures Replay(codec, data).Some? <==> AllReadable(codec, data)
    decreases |data|
  {
    if data != [] {
      var n, rest := LineLength(data), AfterLine(data);
      OpensExact(codec, rest);
      FirstReads(codec, data[..n]);
      assert Replay(codec, data).Some? <==> Readable(codec, data[..n]) && Replay(codec, rest).Some?;
      hide Readable, ParseOne, LineLength, AfterLine, IsLine, Parse, Replay;
      FirstIsLine(data, n);
      assert data[0..n] == data[..n];
      if AllReadable(codec, data) {
        forall i: nat, j: nat | IsLine(rest, i, j)
          ensures Readable(codec, rest[i..j])
        {
          RestLine(data, i, j);
        }
      }
      if Readable(codec, data[..n]) && AllReadable(codec, rest) {
        forall i: nat, j: nat | IsLine(data, i, j)
          ensures Readable(codec, data[i..j])
        {
          if i == 0 {
            FirstIsLine(data, j);
          } else {
            LaterLine(data, i, j);
          }
        }
      }
    }
  }

  lemma FirstReads(codec: Codec, line: Bytes)
    ensures ParseOne(codec, line).Some? <==> Readable(codec, line)
  {}

  /** So one line that does not decode makes the whole file impossible to open, wherever it stands. */
  lemma BadLineBlocks(codec: Codec, a: Bytes, line: Bytes, body: Bytes, b: Bytes)
    requires Terminated(a) && 10 !in line && BodyOf(line, body) && body != [] && codec.unmarshal(body).None?
    ensures Replay(codec, a + line + [10] + b).None?
    ensures Replay(codec, a + line).None?
  {
    assert line != [];
    ReplayLine(codec, a, line, body, true);
    ReplayLine(codec, a, line, body, false);
    assert a + line + [] == a + line;
    hide Parse;
    ParseConcat(codec, a + line + [10], b);
  }
}
