/** The text form of a store: one line per key, `key;value;...`, and what reading it back gives. */
module KvFile {
  import opened Principals
  import opened Text
  import opened KvIndex

  const SEPARATOR := ';'

  // ---------------------------------------------------------------- printing

  function Line(k: string, values: seq<string>): string {
    k + [SEPARATOR] + JoinWith(values, SEPARATOR) + "\n"
  }

  function Render(data: Lists, ks: seq<string>): string
    requires forall k :: k in ks ==> k in data
  {
    if ks == [] then "" else Line(ks[0], data[ks[0]]) + Render(data, ks[1..])
  }

  lemma {:induction false} RenderSnoc(data: Lists, ks: seq<string>, k: string)
    requires k in data && forall x :: x in ks ==> x in data
    ensures Render(data, ks + [k]) == Render(data, ks) + Line(k, data[k])
  {
    if ks == [] {
      assert Render(data, [k][1..]) == "";
    } else {
      assert (ks + [k])[1..] == ks[1..] + [k];
      RenderSnoc(data, ks[1..], k);
    }
  }

  // ---------------------------------------------------------------- reading

  /** The length of the first line, with its newline if it has one. */
  function LineEnd(text: string): (n: nat)
    ensures n <= |text| && (text != "" ==> n > 0)
    ensures forall i :: 0 <= i < n - 1 ==> text[i] != '\n'
    ensures n > 0 && n < |text| ==> text[n - 1] == '\n'
  {
    if text == "" then 0 else if text[0] == '\n' then 1 else 1 + LineEnd(text[1..])
  }

  function TrimLeft(s: string): string {
    if s != "" && s[0] == '\n' then TrimLeft(s[1..]) else s
  }

  function TrimRight(s: string): string {
    if s != "" && s[|s| - 1] == '\n' then TrimRight(s[..|s| - 1]) else s
  }

  function Trim(s: string): string {
    TrimRight(TrimLeft(s))
  }

  function TrimAll(parts: seq<string>): (r: seq<string>)
    ensures |r| == |parts| && forall i :: 0 <= i < |r| ==> r[i] == Trim(parts[i])
  {
    seq(|parts|, i requires 0 <= i < |parts| => Trim(parts[i]))
  }

  /** A line with a separator writes a key; any other line is skipped. */
  function ParseLine(line: string): Option<Op> {
    var parts := TrimAll(SplitOn(line, SEPARATOR));
    if |parts| > 1 then Some(Write(parts[0], parts[1..])) else None
  }

  function LineOps(line: string): seq<Op> {
    match ParseLine(line)
    case Some(op) => [op]
    case None => []
  }

  /** The writes of the well-formed lines, in order. */
  function Ops(text: string): seq<Op> {
    if text == "" then []
    else
      var n := LineEnd(text);
      LineOps(text[..n]) + Ops(text[n..])
  }

  /** The store that reading a text gives. */
  function Restored(text: string, buildIndex: bool): KvState {
    Replay(buildIndex, Ops(text)).(changed := false)
  }

  // ---------------------------------------------------------------- reading any text

  lemma {:induction false} ReplayData(buildIndex: bool, ops: seq<Op>, k: string)
    ensures k in Replay(buildIndex, ops).data <==> Live(ops, k)
    ensures Live(ops, k) ==> Replay(buildIndex, ops).data[k] == ops[LastOp(ops, k)].values
  {
    if ops != [] {
      ReplayData(buildIndex, ops[..|ops| - 1], k);
    }
  }

  // ---------------------------------------------------------------- the round trip

  predicate CleanText(s: string) {
    SEPARATOR !in s && '\n' !in s
  }

  predicate CleanOp(op: Op) {
    op.Write? && CleanText(op.path) && op.values != [] && forall v :: v in op.values ==> CleanText(v)
  }

  /** No key or value has a separator or newline, and no key has an empty list of values. */
  predicate Clean(data: Lists) {
    forall k :: k in data ==> CleanOp(Write(k, data[k]))
  }

  /** The parts of a text with a newline after it: the last part gets the newline. */
  ghost predicate LastExtended(parts: seq<string>, parts': seq<string>) {
    && |parts'| == |parts| > 0
    && (forall i :: 0 <= i < |parts| - 1 ==> parts'[i] == parts[i])
    && parts'[|parts| - 1] == parts[|parts| - 1] + "\n"
  }

  lemma {:induction false} SplitNewline(s: string)
    ensures LastExtended(SplitOn(s, SEPARATOR), SplitOn(s + "\n", SEPARATOR))
  {
    if s == "" {
      assert s + "\n" == ['\n'];
      assert SplitOn(['\n'][1..], SEPARATOR) == [""];
      assert ['\n'] + "" == "" + "\n";
    } else {
      SplitNewline(s[1..]);
      assert (s + "\n")[1..] == s[1..] + "\n" && (s + "\n")[0] == s[0];
      var rest, rest' := SplitOn(s[1..], SEPARATOR), SplitOn(s[1..] + "\n", SEPARATOR);
      if s[0] != SEPARATOR && |rest| == 1 {
        assert [s[0]] + rest'[0] == ([s[0]] + rest[0]) + "\n";
      }
    }
  }

  lemma TrimFree(s: string)
    requires '\n' !in s
    ensures Trim(s) == s && Trim(s + "\n") == s
  {
    if s == "" {
      assert s + "\n" == "\n" && TrimLeft("\n"[1..]) == "";
    } else {
      assert TrimLeft(s) == s && TrimLeft(s + "\n") == s + "\n";
      assert (s + "\n")[..|s|] == s;
      assert TrimRight(s) == s;
    }
  }

  /** A line body without newlines is read the same with and without its newline. */
  lemma TrimmedParts(body: string)
    requires '\n' !in body
    ensures TrimAll(SplitOn(body, SEPARATOR)) == SplitOn(body, SEPARATOR)
    ensures TrimAll(SplitOn(body + "\n", SEPARATOR)) == SplitOn(body, SEPARATOR)
  {
    var parts, parts' := SplitOn(body, SEPARATOR), SplitOn(body + "\n", SEPARATOR);
    SplitFree(body, SEPARATOR);
    SplitNewline(body);
    TrimUndoes(parts, parts');
  }

  lemma TrimUndoes(parts: seq<string>, parts': seq<string>)
    requires LastExtended(parts, parts') && forall p :: p in parts ==> '\n' !in p
    ensures TrimAll(parts) == parts && TrimAll(parts') == parts
  {
    forall i | 0 <= i < |parts|
      ensures Trim(parts[i]) == parts[i] && Trim(parts'[i]) == parts[i]
    {
      assert parts[i] in parts;
      TrimFree(parts[i]);
    }
  }

  lemma ParseBodyClean(body: string, line: string)
    requires '\n' !in body && (line == body || line == body + "\n")
    ensures ParseLine(line).Some? ==> CleanOp(ParseLine(line).value)
  {
    TrimmedParts(body);
    PartsClean(body);
  }

  lemma PartsClean(body: string)
    requires '\n' !in body
    ensures var parts := SplitOn(body, SEPARATOR); |parts| > 1 ==> CleanOp(Write(parts[0], parts[1..]))
  {
    SplitFree(body, SEPARATOR);
    var parts := SplitOn(body, SEPARATOR);
    forall p | p in parts
      ensures CleanText(p)
    {
    }
    assert forall v :: v in parts[1..] ==> v in parts;
  }

  lemma {:induction false} LineEndOf(body: string, rest: string)
    requires '\n' !in body
    ensures LineEnd(body + "\n" + rest) == |body| + 1
  {
    if body == "" {
      assert body + "\n" + rest == "\n" + rest;
    } else {
      assert (body + "\n" + rest)[1..] == body[1..] + "\n" + rest;
      LineEndOf(body[1..], rest);
    }
  }

  lemma {:induction false} OpsClean(text: string)
    ensures forall op :: op in Ops(text) ==> CleanOp(op)
  {
    if text != "" {
      var n := LineEnd(text);
      var front := text[..n - 1];
      if text[n - 1] == '\n' {
        assert text[..n] == front + "\n";
        ParseBodyClean(front, text[..n]);
      } else {
        ParseBodyClean(text[..n], text[..n]);
      }
      OpsClean(text[n..]);
    }
  }

  // ---------------------------------------------------------------- reading, line by line

  /** The line has a separator, and the key before its first one. */
  predicate Names(line: string, k: string) {
    var parts := SplitOn(line, SEPARATOR);
    |parts| > 1 && parts[0] == k
  }

  /** The position of the last line that names the key, -1 if there is none. */
  function LastLine(lines: seq<string>, k: string): (i: int)
    ensures -1 <= i < |lines|
    ensures i >= 0 ==> Names(lines[i], k)
    ensures forall j :: i < j < |lines| ==> !Names(lines[j], k)
  {
    if lines == [] then -1
    else if Names(lines[|lines| - 1], k) then |lines| - 1
    else LastLine(lines[..|lines| - 1], k)
  }

  /** The write of a line given without its newline. */
  function LineWrite(line: string): seq<Op> {
    var parts := SplitOn(line, SEPARATOR);
    if |parts| > 1 then [Write(parts[0], parts[1..])] else []
  }

  function LineWrites(lines: seq<string>): seq<Op> {
    if lines == [] then [] else LineWrites(lines[..|lines| - 1]) + LineWrite(lines[|lines| - 1])
  }

  lemma {:induction false} LineWritesCons(line: string, lines: seq<string>)
    ensures LineWrites([line] + lines) == LineWrite(line) + LineWrites(lines)
  {
    var all := [line] + lines;
    if lines == [] {
      assert all[..0] == [] && LineWrites(all[..0]) == [];
    } else {
      LineWritesCons(line, lines[..|lines| - 1]);
      assert all[..|all| - 1] == [line] + lines[..|lines| - 1];
    }
  }

  lemma FirstLine(body: string, rest: string)
    requires '\n' !in body
    ensures Ops(body + "\n" + rest) == LineWrite(body) + Ops(rest)
    ensures SplitOn(body + "\n" + rest, '\n') == [body] + SplitOn(rest, '\n')
  {
    var text := body + "\n" + rest;
    LineEndOf(body, rest);
    assert text[..|body| + 1] == body + "\n" && text[|body| + 1..] == rest;
    TrimmedParts(body);
    var tail := "\n" + rest;
    assert text == body + tail && tail[1..] == rest && tail[0] == '\n';
    SplitPrefix(body, tail, '\n');
    assert SplitOn(tail, '\n') == [""] + SplitOn(rest, '\n');
    assert body + "" == body;
  }

  lemma OnlyLine(body: string)
    requires '\n' !in body
    ensures Ops(body) == LineWrite(body) && SplitOn(body, '\n') == [body]
  {
    assert body + "" == body;
    SplitPrefix(body, "", '\n');
    TrimmedParts(body);
    if body != "" {
      var n := LineEnd(body);
      assert forall i :: 0 <= i < |body| ==> body[i] != '\n';
      assert body[..n] == body && body[n..] == "" && Ops("") == [];
    }
  }

  /** Reading goes by the lines between the newlines; the last one need not end in one. */
  lemma {:induction false} OpsByLines(text: string)
    ensures Ops(text) == LineWrites(SplitOn(text, '\n'))
  {
    if '\n' in text {
      var n := LineEnd(text);
      LineEndAtNewline(text);
      var body, rest := text[..n - 1], text[n..];
      assert text == body + "\n" + rest;
      FirstLine(body, rest);
      OpsByLines(rest);
      LineWritesCons(body, SplitOn(rest, '\n'));
    } else {
      OnlyLine(text);
      assert [text][..0] == [];
    }
  }

  lemma {:induction false} LineEndAtNewline(text: string)
    requires '\n' in text
    ensures LineEnd(text) > 0 && text[LineEnd(text) - 1] == '\n'
  {
    if text[0] != '\n' {
      LineEndAtNewline(text[1..]);
    }
  }

  /** The last write of a key is that of the last line naming it. */
  lemma {:induction false} LastWriteIsLastLine(lines: seq<string>, k: string)
    ensures var i, ops := LastLine(lines, k), LineWrites(lines);
            && (LastOp(ops, k) >= 0 <==> i >= 0)
            && (i >= 0 ==> ops[LastOp(ops, k)] == Write(k, SplitOn(lines[i], SEPARATOR)[1..]))
  {
    if lines != [] {
      LastWriteIsLastLine(lines[..|lines| - 1], k);
      LastOpOfLine(LineWrites(lines[..|lines| - 1]), lines[|lines| - 1], k);
    }
  }

  lemma LastOpOfLine(ops: seq<Op>, line: string, k: string)
    ensures LastOp(ops + LineWrite(line), k) == if Names(line, k) then |ops| else LastOp(ops, k)
  {
    if LineWrite(line) == [] {
      assert ops + [] == ops;
    } else {
      var all := ops + LineWrite(line);
      assert all[..|all| - 1] == ops;
    }
  }

  /** Writes come in the order of their lines. */
  lemma {:induction false} LinesInOrder(lines: seq<string>, x: string, y: string)
    requires LastOp(LineWrites(lines), x) < LastOp(LineWrites(lines), y)
    ensures LastLine(lines, x) < LastLine(lines, y)
  {
    var front, last := lines[..|lines| - 1], lines[|lines| - 1];
    LastOpOfLine(LineWrites(front), last, x);
    LastOpOfLine(LineWrites(front), last, y);
    if !Names(last, x) && !Names(last, y) {
      LinesInOrder(front, x, y);
    }
  }

  /** The keys come in the order of the last lines naming them. */
  ghost predicate RankedByLines(order: seq<string>, lines: seq<string>) {
    forall i, j :: 0 <= i < j < |order| ==> LastLine(lines, order[i]) < LastLine(lines, order[j])
  }

  /** What one key has after reading any text. */
  lemma KeyByLines(text: string, buildIndex: bool, k: string)
    ensures var lines, data := SplitOn(text, '\n'), Restored(text, buildIndex).data;
            && (k in data <==> LastLine(lines, k) >= 0)
            && (k in data ==> data[k] == SplitOn(lines[LastLine(lines, k)], SEPARATOR)[1..])
  {
    OpsByLines(text);
    ReplayData(buildIndex, Ops(text), k);
    LastWriteIsLastLine(SplitOn(text, '\n'), k);
  }

  /** Reading any text, with repeated keys and malformed lines, in terms of its lines and their parts
      alone: a key is live exactly if some line has a separator and the key before it; its values are
      the other parts of the last such line; and the index is right, for the keys in the order of
      those lines. */
  lemma {:induction false} RestoreAnyText(text: string, buildIndex: bool)
    ensures var lines, s := SplitOn(text, '\n'), Restored(text, buildIndex);
            && (forall k :: k in s.data <==> exists i :: 0 <= i < |lines| && Names(lines[i], k))
            && (forall k :: k in s.data ==> s.data[k] == SplitOn(lines[LastLine(lines, k)], SEPARATOR)[1..])
            && s.buildIndex == buildIndex && !s.changed
            && exists order :: IndexOk(s, order) && RankedByLines(order, lines)
  {
    var lines, ops, s := SplitOn(text, '\n'), Ops(text), Restored(text, buildIndex);
    OpsByLines(text);
    forall k
      ensures k in s.data <==> LastLine(lines, k) >= 0
      ensures k in s.data ==> s.data[k] == SplitOn(lines[LastLine(lines, k)], SEPARATOR)[1..]
    {
      KeyByLines(text, buildIndex, k);
    }
    forall k
      ensures LastLine(lines, k) >= 0 <==> exists i :: 0 <= i < |lines| && Names(lines[i], k)
    {
    }
    ReplayKeepsIndex(buildIndex, ops);
    WriteOrderOk(ops);
    var order := WriteOrder(ops);
    forall i, j | 0 <= i < j < |order|
      ensures LastLine(lines, order[i]) < LastLine(lines, order[j])
    {
      LinesInOrder(lines, order[i], order[j]);
    }
    assert IndexOk(s, order);
  }

  /** So a line without a separator leaves nothing, whatever it is. */
  lemma MalformedIsSkipped(line: string, buildIndex: bool)
    requires SEPARATOR !in line && '\n' !in line
    ensures Restored(line, buildIndex).data == map[] && Restored(line + "\n", buildIndex).data == map[]
  {
    SplitPrefix(line, "", SEPARATOR);
    OnlyLine(line);
    assert line + "" == line && line + "\n" + "" == line + "\n";
    FirstLine(line, "");
  }

  function Writes(data: Lists, ks: seq<string>): (r: seq<Op>)
    requires forall k :: k in ks ==> k in data
    ensures |r| == |ks| && forall i :: 0 <= i < |r| ==> r[i] == Write(ks[i], data[ks[i]])
  {
    seq(|ks|, i requires 0 <= i < |ks| => Write(ks[i], data[ks[i]]))
  }

  lemma ParseRendered(k: string, values: seq<string>)
    requires CleanOp(Write(k, values))
    ensures ParseLine(Line(k, values)) == Some(Write(k, values))
    ensures '\n' !in JoinWith([k] + values, SEPARATOR) && Line(k, values) == JoinWith([k] + values, SEPARATOR) + "\n"
  {
    var parts := [k] + values;
    assert parts[1..] == values;
    var body := JoinWith(parts, SEPARATOR);
    JoinFree(parts);
    SplitJoin(parts, SEPARATOR);
    TrimmedParts(body);
  }

  lemma {:induction false} JoinFree(parts: seq<string>)
    requires forall p :: p in parts ==> '\n' !in p
    ensures '\n' !in JoinWith(parts, SEPARATOR)
  {
    if |parts| > 1 {
      JoinFree(parts[1..]);
    }
  }

  lemma {:induction false} OpsOfRender(data: Lists, ks: seq<string>)
    requires Clean(data) && forall k :: k in ks ==> k in data
    ensures Ops(Render(data, ks)) == Writes(data, ks)
  {
    if ks != [] {
      var k, rest := ks[0], Render(data, ks[1..]);
      var line := Line(k, data[k]);
      ParseRendered(k, data[k]);
      LineEndOf(JoinWith([k] + data[k], SEPARATOR), rest);
      var text := Render(data, ks);
      assert text[..|line|] == line && text[|line|..] == rest;
      OpsOfRender(data, ks[1..]);
    }
  }

  lemma {:induction false} LastWriteOf(data: Lists, ks: seq<string>, k: string)
    requires forall x :: x in ks ==> x in data
    ensures var i := LastOp(Writes(data, ks), k);
            if k in ks then i >= 0 && ks[i] == k else i < 0
  {
    if ks != [] {
      var front := ks[..|ks| - 1];
      assert Writes(data, ks)[..|ks| - 1] == Writes(data, front);
      assert ks == front + [ks[|ks| - 1]];
      LastWriteOf(data, front, k);
    }
  }

  /** Whatever the text, what is read from it could be saved and read again. */
  lemma RestoredIsClean(text: string, buildIndex: bool)
    ensures Clean(Restored(text, buildIndex).data)
  {
    OpsClean(text);
    forall k | k in Restored(text, buildIndex).data
      ensures CleanOp(Write(k, Restored(text, buildIndex).data[k]))
    {
      ReplayData(buildIndex, Ops(text), k);
      assert Ops(text)[LastOp(Ops(text), k)] in Ops(text);
      LastOpPath(Ops(text), k);
    }
  }

  /** Saving in any order of the keys and restoring gives back the data exactly when it is clean. */
  lemma RoundTripIff(data: Lists, ks: seq<string>, buildIndex: bool)
    requires OrderOk(ks, data)
    ensures Restored(Render(data, ks), buildIndex).data == data <==> Clean(data)
  {
    var text := Render(data, ks);
    var restored := Restored(text, buildIndex).data;
    if Clean(data) {
      OpsOfRender(data, ks);
      forall k
        ensures k in restored <==> k in data
        ensures k in data ==> restored[k] == data[k]
      {
        ReplayData(buildIndex, Ops(text), k);
        LastWriteOf(data, ks, k);
      }
    }
    RestoredIsClean(text, buildIndex);
  }

  /** A key saved with an empty list of values comes back with the empty text as its one value. */
  lemma EmptyListReturns(k: string, buildIndex: bool)
    requires CleanText(k)
    ensures Restored(Render(map[k := []], [k]), buildIndex).data == map[k := [""]]
  {
    var body := k + [SEPARATOR];
    assert Render(map[k := []], [k]) == body + "\n" + "" by {
      assert Render(map[k := []], [k][1..]) == "";
    }
    FirstLine(body, "");
    SplitPrefix(k, [SEPARATOR], SEPARATOR);
    assert k + "" == k && SplitOn([SEPARATOR], SEPARATOR) == ["", ""];
    assert Ops(body + "\n" + "") == [Write(k, [""])];
    var ops := [Write(k, [""])];
    assert ops[..0] == [] && Replay(buildIndex, ops[..0]).data == map[];
  }

  lemma {:induction false} LastOpPath(ops: seq<Op>, k: string)
    requires LastOp(ops, k) >= 0
    ensures ops[LastOp(ops, k)].path == k
  {
    if ops[|ops| - 1].path != k {
      LastOpPath(ops[..|ops| - 1], k);
    }
  }

  /** The restored index has every key under every value as often as the saved one; only the order
      of the keys under a value may differ. */
  lemma RoundTripIndex(s: KvState, order: seq<string>, ks: seq<string>, v: string, k: string)
    requires IndexOk(s, order) && s.buildIndex && Clean(s.data) && OrderOk(ks, s.data)
    ensures Count(Entry(Restored(Render(s.data, ks), true).index, v), k) == Count(Entry(s.index, v), k)
  {
    var text := Render(s.data, ks);
    RoundTripIff(s.data, ks, true);
    ReplayKeepsIndex(true, Ops(text));
    ScanCount(order, s.data, v, k);
    ScanCount(WriteOrder(Ops(text)), Restored(text, true).data, v, k);
  }
}
