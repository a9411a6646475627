/** The inverted index of a key-value store, on values: what it means and how updates keep it. */
module KvIndex {

  type Lists = map<string, seq<string>>

  // ---------------------------------------------------------------- occurrences

  function Count(s: seq<string>, x: string): nat {
    if s == [] then 0 else Count(s[..|s| - 1], x) + if s[|s| - 1] == x then 1 else 0
  }

  function Repeat(x: string, n: nat): (s: seq<string>)
    ensures |s| == n && forall i :: 0 <= i < n ==> s[i] == x
  {
    seq(n, _ => x)
  }

  /** `s` with all occurrences of `x` removed. */
  function Without(s: seq<string>, x: string): (r: seq<string>)
    ensures x !in r
  {
    if s == [] then []
    else if s[|s| - 1] == x then Without(s[..|s| - 1], x)
    else Without(s[..|s| - 1], x) + [s[|s| - 1]]
  }

  /** `s` with the first occurrence of `x` removed, if it has one. */
  function RemoveFirst(s: seq<string>, x: string): seq<string> {
    if s == [] then []
    else if s[0] == x then s[1..]
    else [s[0]] + RemoveFirst(s[1..], x)
  }

  function RemoveFirsts(s: seq<string>, x: string, n: nat): seq<string> {
    if n == 0 then s else RemoveFirst(RemoveFirsts(s, x, n - 1), x)
  }

  lemma {:induction false} CountConcat(s: seq<string>, t: seq<string>, x: string)
    ensures Count(s + t, x) == Count(s, x) + Count(t, x)
  {
    if t == [] {
      assert s + t == s;
    } else {
      assert (s + t)[..|s + t| - 1] == s + t[..|t| - 1];
      CountConcat(s, t[..|t| - 1], x);
    }
  }

  lemma {:induction false} WithoutConcat(s: seq<string>, t: seq<string>, x: string)
    ensures Without(s + t, x) == Without(s, x) + Without(t, x)
  {
    if t == [] {
      assert s + t == s;
    } else {
      assert (s + t)[..|s + t| - 1] == s + t[..|t| - 1];
      WithoutConcat(s, t[..|t| - 1], x);
    }
  }

  lemma {:induction false} CountRepeat(y: string, n: nat, x: string)
    ensures Count(Repeat(y, n), x) == if x == y then n else 0
    ensures Without(Repeat(y, n), x) == if x == y then [] else Repeat(y, n)
  {
    if n > 0 {
      assert Repeat(y, n)[..n - 1] == Repeat(y, n - 1);
      CountRepeat(y, n - 1, x);
    }
  }

  lemma {:induction false} CountZeroIff(s: seq<string>, x: string)
    ensures Count(s, x) == 0 <==> x !in s
    ensures x !in s ==> Without(s, x) == s
  {
    if s != [] {
      var front := s[..|s| - 1];
      CountZeroIff(front, x);
      assert s == front + [s[|s| - 1]];
    }
  }

  lemma {:induction false} RemoveFirstAt(s: seq<string>, x: string, i: nat)
    requires i < |s| && s[i] == x && x !in s[..i]
    ensures RemoveFirst(s, x) == s[..i] + s[i + 1..]
  {
    if i > 0 {
      assert s[..i][0] == s[0];
      assert s[1..][..i - 1] == s[..i][1..];
      RemoveFirstAt(s[1..], x, i - 1);
    }
  }

  lemma {:induction false} RemoveFirstAbsent(s: seq<string>, x: string)
    requires x !in s
    ensures RemoveFirst(s, x) == s
  {
    if s != [] {
      RemoveFirstAbsent(s[1..], x);
    }
  }

  lemma {:induction false} RemoveFirstEffect(s: seq<string>, x: string)
    ensures Count(RemoveFirst(s, x), x) == if x in s then Count(s, x) - 1 else 0
    ensures Without(RemoveFirst(s, x), x) == Without(s, x)
  {
    CountZeroIff(s, x);
    if x !in s {
      RemoveFirstAbsent(s, x);
    } else {
      assert s == [s[0]] + s[1..];
      CountConcat([s[0]], s[1..], x);
      WithoutConcat([s[0]], s[1..], x);
      assert [s[0]][..0] == [];
      if s[0] == x {
        assert Without([s[0]], x) == [];
      } else {
        RemoveFirstEffect(s[1..], x);
        CountConcat([s[0]], RemoveFirst(s[1..], x), x);
        WithoutConcat([s[0]], RemoveFirst(s[1..], x), x);
      }
    }
  }

  lemma {:induction false} RemoveFirstsEffect(s: seq<string>, x: string, n: nat)
    requires n <= Count(s, x)
    ensures Count(RemoveFirsts(s, x, n), x) == Count(s, x) - n
    ensures Without(RemoveFirsts(s, x, n), x) == Without(s, x)
  {
    if n > 0 {
      var t := RemoveFirsts(s, x, n - 1);
      RemoveFirstsEffect(s, x, n - 1);
      RemoveFirstEffect(t, x);
      CountZeroIff(t, x);
    }
  }

  /** Removing the first occurrence as often as there are occurrences filters them all out. */
  lemma RemoveFirstsFilter(s: seq<string>, x: string)
    ensures RemoveFirsts(s, x, Count(s, x)) == Without(s, x)
  {
    var r := RemoveFirsts(s, x, Count(s, x));
    RemoveFirstsEffect(s, x, Count(s, x));
    CountZeroIff(r, x);
  }

  // ---------------------------------------------------------------- the index and its meaning

  function Entry(index: Lists, v: string): seq<string> {
    if v in index then index[v] else []
  }

  /** The live keys in the given order, each repeated as often as `v` is among its values. */
  function Scan(order: seq<string>, data: Lists, v: string): seq<string> {
    if order == [] then []
    else
      var k := order[|order| - 1];
      Scan(order[..|order| - 1], data, v) + Repeat(k, if k in data then Count(data[k], v) else 0)
  }

  /** `order` names each live key once. */
  ghost predicate OrderOk(order: seq<string>, data: Lists) {
    && (forall i, j :: 0 <= i < j < |order| ==> order[i] != order[j])
    && (forall k :: k in order <==> k in data)
  }

  datatype KvState = KvState(data: Lists, index: Lists, buildIndex: bool, changed: bool)

  ghost predicate IndexOk(s: KvState, order: seq<string>) {
    && OrderOk(order, s.data)
    && if s.buildIndex then forall v :: Entry(s.index, v) == Scan(order, s.data, v) else s.index == map[]
  }

  lemma {:induction false} ScanIgnores(order: seq<string>, data: Lists, data': Lists, v: string)
    requires forall k :: k in order ==> k in data && k in data' && data[k] == data'[k]
    ensures Scan(order, data, v) == Scan(order, data', v)
  {
    if order != [] {
      var k := order[|order| - 1];
      assert k in order;
      ScanIgnores(order[..|order| - 1], data, data', v);
    }
  }

  /** A key occurs in the scan once for every time the value is among its values. */
  lemma {:induction false} ScanCount(order: seq<string>, data: Lists, v: string, k: string)
    requires forall i, j :: 0 <= i < j < |order| ==> order[i] != order[j]
    ensures Count(Scan(order, data, v), k) == if k in order && k in data then Count(data[k], v) else 0
    ensures Without(Scan(order, data, v), k) == Scan(Without(order, k), data, v)
  {
    if order != [] {
      var last, front := order[|order| - 1], order[..|order| - 1];
      assert order == front + [last];
      ScanCount(front, data, v, k);
      var n := if last in data then Count(data[last], v) else 0;
      CountConcat(Scan(front, data, v), Repeat(last, n), k);
      WithoutConcat(Scan(front, data, v), Repeat(last, n), k);
      CountRepeat(last, n, k);
      if last != k {
        var order' := Without(front, k) + [last];
        assert order'[..|order'| - 1] == Without(front, k);
      } else {
        assert k !in front;
      }
    }
  }

  lemma {:induction false} WithoutKeeps(s: seq<string>, x: string)
    requires forall i, j :: 0 <= i < j < |s| ==> s[i] != s[j]
    ensures forall y :: y in Without(s, x) <==> y in s && y != x
    ensures forall i, j :: 0 <= i < j < |Without(s, x)| ==> Without(s, x)[i] != Without(s, x)[j]
  {
    if s != [] {
      var front, last := s[..|s| - 1], s[|s| - 1];
      assert s == front + [last];
      WithoutKeeps(front, x);
      forall i | 0 <= i < |Without(front, x)|
        ensures Without(front, x)[i] != last
      {
        assert Without(front, x)[i] in front;
      }
    }
  }

  // ---------------------------------------------------------------- updates

  /** Removes the first entry of `path` from the entries of one value. */
  function RemoveOne(index: Lists, path: string, item: string): Lists {
    if item in index then index[item := RemoveFirst(index[item], path)] else index
  }

  function RemoveItems(index: Lists, path: string, items: seq<string>): Lists {
    if items == [] then index
    else RemoveOne(RemoveItems(index, path, items[..|items| - 1]), path, items[|items| - 1])
  }

  function AppendItems(index: Lists, path: string, items: seq<string>): Lists {
    if items == [] then index
    else
      var before := AppendItems(index, path, items[..|items| - 1]);
      var item := items[|items| - 1];
      before[item := Entry(before, item) + [path]]
  }

  function Cleared(s: KvState, path: string): Lists {
    if s.buildIndex && path in s.data then RemoveItems(s.index, path, s.data[path]) else s.index
  }

  function PutState(s: KvState, path: string, values: seq<string>): KvState {
    var index := Cleared(s, path);
    KvState(s.data[path := values], if s.buildIndex then AppendItems(index, path, values) else index,
            s.buildIndex, true)
  }

  function DelState(s: KvState, path: string): KvState {
    KvState(s.data - {path}, Cleared(s, path), s.buildIndex, s.changed)
  }

  lemma {:induction false} RemoveItemsEntry(index: Lists, path: string, items: seq<string>, v: string)
    ensures Entry(RemoveItems(index, path, items), v) == RemoveFirsts(Entry(index, v), path, Count(items, v))
  {
    if items != [] {
      RemoveItemsEntry(index, path, items[..|items| - 1], v);
    }
  }

  lemma {:induction false} AppendItemsEntry(index: Lists, path: string, items: seq<string>, v: string)
    ensures Entry(AppendItems(index, path, items), v) == Entry(index, v) + Repeat(path, Count(items, v))
  {
    if items != [] {
      AppendItemsEntry(index, path, items[..|items| - 1], v);
      var n := Count(items, v);
      if items[|items| - 1] == v {
        assert Repeat(path, n) == Repeat(path, n - 1) + [path];
      }
    }
  }

  /** Removing the old entries of a key leaves the scan of the other keys. */
  lemma ClearedIsScan(s: KvState, order: seq<string>, path: string, v: string)
    requires IndexOk(s, order) && s.buildIndex
    ensures Entry(Cleared(s, path), v) == Scan(Without(order, path), s.data - {path}, v)
  {
    ScanCount(order, s.data, v, path);
    WithoutKeeps(order, path);
    ScanIgnores(Without(order, path), s.data, s.data - {path}, v);
    if path in s.data {
      RemoveItemsEntry(s.index, path, s.data[path], v);
      RemoveFirstsFilter(Entry(s.index, v), path);
    } else {
      CountZeroIff(Scan(order, s.data, v), path);
    }
  }

  lemma DelKeepsIndex(s: KvState, order: seq<string>, path: string)
    requires IndexOk(s, order)
    ensures IndexOk(DelState(s, path), Without(order, path))
  {
    WithoutKeeps(order, path);
    if s.buildIndex {
      forall v
        ensures Entry(DelState(s, path).index, v) == Scan(Without(order, path), DelState(s, path).data, v)
      {
        ClearedIsScan(s, order, path, v);
      }
    }
  }

  lemma PutKeepsIndex(s: KvState, order: seq<string>, path: string, values: seq<string>)
    requires IndexOk(s, order)
    ensures IndexOk(PutState(s, path, values), Without(order, path) + [path])
  {
    WithoutKeeps(order, path);
    var order', s' := Without(order, path) + [path], PutState(s, path, values);
    if s.buildIndex {
      forall v
        ensures Entry(s'.index, v) == Scan(order', s'.data, v)
      {
        ClearedIsScan(s, order, path, v);
        AppendItemsEntry(Cleared(s, path), path, values, v);
        assert order'[..|order'| - 1] == Without(order, path);
        ScanIgnores(Without(order, path), s.data - {path}, s'.data, v);
      }
    }
  }

  // ---------------------------------------------------------------- histories

  datatype Op = Write(path: string, values: seq<string>) | Delete(path: string)

  function Apply(s: KvState, op: Op): KvState {
    match op
    case Write(path, values) => PutState(s, path, values)
    case Delete(path) => DelState(s, path)
  }

  function Replay(buildIndex: bool, ops: seq<Op>): KvState {
    if ops == [] then KvState(map[], map[], buildIndex, true)
    else Apply(Replay(buildIndex, ops[..|ops| - 1]), ops[|ops| - 1])
  }

  /** The position of the last operation on a key, -1 if there is none. */
  function LastOp(ops: seq<Op>, k: string): (i: int)
    ensures -1 <= i < |ops|
  {
    if ops == [] then -1
    else if ops[|ops| - 1].path == k then |ops| - 1
    else LastOp(ops[..|ops| - 1], k)
  }

  predicate Live(ops: seq<Op>, k: string) {
    var i := LastOp(ops, k);
    i >= 0 && ops[i].Write?
  }

  /** The keys come in the order of the last operation on them. */
  ghost predicate Ranked(order: seq<string>, ops: seq<Op>) {
    forall i, j :: 0 <= i < j < |order| ==> LastOp(ops, order[i]) < LastOp(ops, order[j])
  }

  /** The live keys in the order of their last write. */
  ghost predicate InWriteOrder(order: seq<string>, ops: seq<Op>) {
    (forall k :: k in order <==> Live(ops, k)) && Ranked(order, ops)
  }

  function WriteOrder(ops: seq<Op>): seq<string> {
    if ops == [] then []
    else
      var op, before := ops[|ops| - 1], WriteOrder(ops[..|ops| - 1]);
      Without(before, op.path) + if op.Write? then [op.path] else []
  }

  lemma {:induction false} WithoutKeepsOrder(s: seq<string>, x: string, ops: seq<Op>)
    requires Ranked(s, ops)
    ensures Ranked(Without(s, x), ops)
    ensures forall y :: y in Without(s, x) <==> y in s && y != x
  {
    if s != [] {
      var front, last := s[..|s| - 1], s[|s| - 1];
      assert s == front + [last];
      WithoutKeepsOrder(front, x, ops);
      var w := Without(front, x);
      forall y | y in front
        ensures LastOp(ops, y) < LastOp(ops, last)
      {
        var j :| 0 <= j < |front| && front[j] == y;
        assert s[j] == y && s[|s| - 1] == last;
      }
      assert forall i :: 0 <= i < |w| ==> w[i] in w;
    }
  }

  lemma {:induction false} WriteOrderOk(ops: seq<Op>)
    ensures InWriteOrder(WriteOrder(ops), ops)
  {
    if ops != [] {
      var op, before := ops[|ops| - 1], ops[..|ops| - 1];
      WriteOrderOk(before);
      WithoutKeepsOrder(WriteOrder(before), op.path, before);
      var w, order := Without(WriteOrder(before), op.path), WriteOrder(ops);
      forall k
        ensures k in order <==> Live(ops, k)
      {
        LiveStep(ops, k);
      }
      forall i, j | 0 <= i < j < |order|
        ensures LastOp(ops, order[i]) < LastOp(ops, order[j])
      {
        assert order[i] == w[i] && w[i] in w;
        if j < |w| {
          assert w[j] in w;
        }
      }
    }
  }

  lemma LiveStep(ops: seq<Op>, k: string)
    requires ops != []
    ensures var op, before := ops[|ops| - 1], ops[..|ops| - 1];
            Live(ops, k) <==> if k == op.path then op.Write? else Live(before, k)
  {
  }

  lemma {:induction false} ReplayKeepsIndex(buildIndex: bool, ops: seq<Op>)
    ensures IndexOk(Replay(buildIndex, ops), WriteOrder(ops)) && Replay(buildIndex, ops).buildIndex == buildIndex
  {
    if ops != [] {
      var op, before := ops[|ops| - 1], ops[..|ops| - 1];
      ReplayKeepsIndex(buildIndex, before);
      match op {
        case Write(path, values) =>
          PutKeepsIndex(Replay(buildIndex, before), WriteOrder(before), path, values);
        case Delete(path) =>
          DelKeepsIndex(Replay(buildIndex, before), WriteOrder(before), path);
          assert Without(WriteOrder(before), path) + [] == Without(WriteOrder(before), path);
      }
    }
  }

  /** In every reachable indexed store the entry of a value is a scan of the live keys in the order
      of their last write, with the multiplicities of the value lists. */
  lemma {:induction false} IndexEqualsScan(ops: seq<Op>, v: string, k: string)
    ensures InWriteOrder(WriteOrder(ops), ops)
    ensures var s := Replay(true, ops);
            && Entry(s.index, v) == Scan(WriteOrder(ops), s.data, v)
            && (k in s.data <==> Live(ops, k))
            && Count(Entry(s.index, v), k) == if k in s.data then Count(s.data[k], v) else 0
  {
    ReplayKeepsIndex(true, ops);
    WriteOrderOk(ops);
    ScanCount(WriteOrder(ops), Replay(true, ops).data, v, k);
  }
}
