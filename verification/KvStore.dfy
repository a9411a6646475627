/** The key-value store itself: maps updated in place under one lock, and its file form. */
module KvStore {
  import opened Text
  import opened KvIndex
  import opened KvFile

  class Store {
    var data: Lists
    var index: Lists
    var buildIndex: bool
    var changed: bool

    /** The live keys in the order of their last write. */
    ghost var order: seq<string>

    ghost function State(): KvState
      reads this
    {
      KvState(data, index, buildIndex, changed)
    }

    ghost predicate Valid()
      reads this
    {
      IndexOk(State(), order)
    }

    /** A new store counts as changed, so that it is written out once. */
    constructor (buildIndex: bool)
      ensures Valid() && State() == KvState(map[], map[], buildIndex, true) && order == []
    {
      data, index, changed, order := map[], map[], true, [];
      this.buildIndex := buildIndex;
    }

    method RemoveOneIndex(path: string, item: string)
      modifies this`index
      ensures index == if buildIndex then RemoveOne(old(index), path, item) else old(index)
    {
      if buildIndex && item in index {
        var indexes := index[item];
        var i := 0;
        while i < |indexes|
          invariant 0 <= i <= |indexes|
          invariant path !in indexes[..i]
          invariant index == old(index)
        {
          if indexes[i] == path {
            index := index[item := index[item][..i] + index[item][i + 1..]];
            RemoveFirstAt(indexes, path, i);
            return;
          }
          i := i + 1;
        }
        assert indexes[..i] == indexes;
        RemoveFirstAbsent(indexes, path);
        assert index[item := indexes] == index;
      }
    }

    method RemoveIndexes(path: string)
      modifies this`index
      ensures index == Cleared(old(State()), path)
    {
      if buildIndex && path in data {
        var items := data[path];
        for i := 0 to |items|
          invariant index == RemoveItems(old(index), path, items[..i])
        {
          RemoveOneIndex(path, items[i]);
          assert items[..i + 1][..i] == items[..i];
        }
        assert items[..|items|] == items;
      }
    }

    method Put(path: string, value: string)
      requires Valid()
      modifies this
      ensures Valid()
      ensures State() == PutState(old(State()), path, [value]) && GetValues(path) == [value]
      ensures order == Without(old(order), path) + [path]
    {
      PutKeepsIndex(State(), order, path, [value]);
      RemoveIndexes(path);
      data := data[path := [value]];
      if buildIndex {
        assert [value][..0] == [];
        index := index[value := Entry(index, value) + [path]];
        assert index == AppendItems(Cleared(old(State()), path), path, [value]);
      }
      changed := true;
      order := Without(order, path) + [path];
      assert State() == PutState(old(State()), path, [value]);
    }

    method Get(path: string) returns (value: string)
      ensures value == if path in data && |data[path]| > 0 then data[path][0] else ""
    {
      value := "";
      if path in data {
        if |data[path]| > 0 {
          value := data[path][0];
        }
      }
    }

    /** Forgets a key; the store does not count as changed by that. */
    method Del(path: string)
      requires Valid()
      modifies this
      ensures Valid()
      ensures State() == DelState(old(State()), path) && GetValues(path) == []
      ensures order == Without(old(order), path)
    {
      DelKeepsIndex(State(), order, path);
      RemoveIndexes(path);
      data := data - {path};
      order := Without(order, path);
    }

    /** The live keys, each once, in an order the caller cannot rely on. */
    method Keys() returns (result: seq<string>)
      ensures OrderOk(result, data)
    {
      result := [];
      var todo := data.Keys;
      while todo != {}
        invariant todo <= data.Keys
        invariant forall i, j :: 0 <= i < j < |result| ==> result[i] != result[j]
        invariant forall k :: k in data <==> k in todo || k in result
        invariant forall k :: k in result ==> k !in todo
        decreases todo
      {
        var k :| k in todo;
        todo, result := todo - {k}, result + [k];
      }
    }

    /** The keys that have a value: a scan of the live keys, without looking at the data. */
    method GetKey(value: string) returns (keys: seq<string>)
      requires Valid()
      ensures keys == if buildIndex then Scan(order, data, value) else []
      ensures buildIndex ==> forall k :: k in data && value in data[k] <==> k in keys
    {
      keys := [];
      if buildIndex && value in index {
        keys := index[value];
      }
      assert buildIndex ==> keys == Entry(index, value);
      forall k | buildIndex
        ensures k in data && value in data[k] <==> k in keys
      {
        ScanCount(order, data, value, k);
        CountZeroIff(keys, k);
        if k in data {
          CountZeroIff(data[k], value);
        }
      }
    }

    method PutValues(path: string, values: seq<string>)
      requires Valid()
      modifies this
      ensures Valid()
      ensures State() == PutState(old(State()), path, values) && GetValues(path) == values
      ensures order == Without(old(order), path) + [path]
    {
      PutKeepsIndex(State(), order, path, values);
      RemoveIndexes(path);
      data := data[path := values];
      if buildIndex {
        AddIndexes(path, values);
      }
      changed := true;
      order := Without(order, path) + [path];
      assert State() == PutState(old(State()), path, values);
    }

    /** The indexing loop of a put. */
    method AddIndexes(path: string, values: seq<string>)
      modifies this`index
      ensures index == AppendItems(old(index), path, values)
    {
      for i := 0 to |values|
        invariant index == AppendItems(old(index), path, values[..i])
      {
        index := index[values[i] := Entry(index, values[i]) + [path]];
        assert values[..i + 1][..i] == values[..i];
      }
      assert values[..|values|] == values;
    }

    function GetValues(path: string): seq<string>
      reads this
    {
      if path in data then data[path] else []
    }

    /** The text to be written, a line per key in some order; the store counts as unchanged from
        then on, before anything is written. */
    method Save() returns (text: string, ghost ks: seq<string>)
      modifies this`changed
      ensures OrderOk(ks, data) && text == Render(data, ks)
      ensures !changed
    {
      var keys := Keys();
      ks := keys;
      text := "";
      for i := 0 to |keys|
        invariant text == Render(data, keys[..i])
      {
        RenderSnoc(data, keys[..i], keys[i]);
        assert keys[..i + 1] == keys[..i] + [keys[i]];
        text := text + (keys[i] + [SEPARATOR] + JoinWith(data[keys[i]], SEPARATOR) + "\n");
      }
      assert keys[..|keys|] == keys;
      changed := false;
    }

    /** The parts of a line, each trimmed in its place. */
    static method TrimmedParts(line: string) returns (parts: seq<string>)
      ensures parts == TrimAll(SplitOn(line, SEPARATOR))
    {
      parts := SplitOn(line, SEPARATOR);
      ghost var split := parts;
      for i := 0 to |parts|
        invariant |parts| == |split|
        invariant forall j :: 0 <= j < |parts| ==> parts[j] == if j < i then Trim(split[j]) else split[j]
      {
        parts := parts[i := Trim(parts[i])];
      }
    }

    /** The contents are what the writes `done` leave, whether or not they count as changed. */
    ghost predicate Holds(done: seq<Op>)
      reads this
    {
      State().(changed := true) == Replay(buildIndex, done) && order == WriteOrder(done)
    }

    /** Takes over one line of a file: a write, or nothing. `done` are the writes before it. */
    method RestoreLine(line: string, ghost done: seq<Op>)
      requires Holds(done)
      modifies this
      ensures buildIndex == old(buildIndex) && Holds(done + LineOps(line))
    {
      var parts := TrimmedParts(line);
      if |parts| > 1 {
        ReplayKeepsIndex(buildIndex, done);
        PutValues(parts[0], parts[1..]);
        ReplaySnoc(buildIndex, done, Write(parts[0], parts[1..]));
      } else {
        assert done + [] == done;
      }
    }

    /** Takes over the first line of the buffer and gives the rest; `more` says that the line ended
        in a newline. `done` are the writes before it, `done'` those after it. */
    method RestoreFirst(buffer: string, ghost done: seq<Op>) returns (rest: string, more: bool, ghost done': seq<Op>)
      requires buffer != "" && Holds(done)
      modifies this
      ensures buildIndex == old(buildIndex) && |rest| < |buffer| && (!more ==> rest == "")
      ensures done' + Ops(rest) == done + Ops(buffer)
      ensures Holds(done')
    {
      var n := LineEnd(buffer);
      RestoreLine(buffer[..n], done);
      OpsStep(buffer, done);
      rest, more, done' := buffer[n..], buffer[n - 1] == '\n', done + LineOps(buffer[..n]);
    }

    /** Replaces the contents by what a text says. */
    method Restore(text: string, buildIndex: bool)
      modifies this
      ensures Valid()
      ensures State() == Restored(text, buildIndex)
      ensures order == WriteOrder(Ops(text))
    {
      data, index, order := map[], map[], [];
      this.buildIndex := buildIndex;
      ghost var done := RestoreLines(text);
      ReplayKeepsIndex(buildIndex, done);
      changed := false;
    }

    /** The line loop of a restore, into a store without any key. */
    method RestoreLines(text: string) returns (ghost done: seq<Op>)
      requires Holds([])
      modifies this
      ensures buildIndex == old(buildIndex) && done == Ops(text) && Holds(done)
    {
      var buffer, more := text, true;
      done := [];
      assert done + Ops(text) == Ops(text);
      while |buffer| > 0 && more
        invariant done + Ops(buffer) == Ops(text) && (!more ==> buffer == "")
        invariant buildIndex == old(buildIndex) && Holds(done)
        decreases |buffer|
      {
        buffer, more, done := RestoreFirst(buffer, done);
      }
      assert Ops("") == [];
    }
  }

  lemma OpsStep(buffer: string, done: seq<Op>)
    requires buffer != ""
    ensures var n := LineEnd(buffer);
            done + Ops(buffer) == done + LineOps(buffer[..n]) + Ops(buffer[n..])
  {
  }

  lemma ReplaySnoc(buildIndex: bool, ops: seq<Op>, op: Op)
    ensures Replay(buildIndex, ops + [op]) == Apply(Replay(buildIndex, ops), op)
    ensures WriteOrder(ops + [op]) == Without(WriteOrder(ops), op.path) + if op.Write? then [op.path] else []
  {
  }

  // ---------------------------------------------------------------- names of store files

  const NO_INDEX := ".NoIndex"

  function WrapName(name: string, buildIndex: bool): string {
    if buildIndex then name else name + NO_INDEX
  }

  predicate HasSuffix(s: string, suffix: string) {
    |s| >= |suffix| && s[|s| - |suffix|..] == suffix
  }

  predicate IndexedStore(name: string) {
    !HasSuffix(name, NO_INDEX)
  }

  /** A restart builds the index again exactly for the stores that had one, unless an indexed
      store's own name ends in the marker. */
  lemma RestartKeepsIndexing(name: string, buildIndex: bool)
    ensures IndexedStore(WrapName(name, buildIndex)) == buildIndex
       <==> !(buildIndex && exists base: string :: name == base + NO_INDEX)
  {
    if HasSuffix(name, NO_INDEX) {
      assert name == name[..|name| - |NO_INDEX|] + NO_INDEX;
    }
  }

  /** Two stores share a file exactly if they are the same store, or one is indexed and has the name
      of the other with the marker. */
  lemma FileNamesCollideIff(name: string, buildIndex: bool, other: string, otherIndex: bool)
    ensures WrapName(name, buildIndex) == WrapName(other, otherIndex)
       <==> || (buildIndex == otherIndex && name == other)
            || (buildIndex && !otherIndex && name == other + NO_INDEX)
            || (!buildIndex && otherIndex && other == name + NO_INDEX)
  {
    if WrapName(name, buildIndex) == WrapName(other, otherIndex) && !buildIndex && !otherIndex {
      assert name == (name + NO_INDEX)[..|name|] && other == (other + NO_INDEX)[..|other|];
    }
  }
}
