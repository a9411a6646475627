/** The configuration calls: a list of values of any length goes out in bounded requests. */
module Batching {
  import opened Principals
  import opened Text
  import opened PrincipalCache
  import opened Delegation

  const BATCH := 10

  // ---------------------------------------------------------------- the split, on values

  /** Tens as long as more than ten are left, then the rest. */
  function Batches(values: seq<string>): (bs: seq<seq<string>>)
    ensures |bs| >= 1
  {
    if |values| <= BATCH then [values] else [values[..BATCH]] + Batches(values[BATCH..])
  }

  function Flatten(bs: seq<seq<string>>): seq<string> {
    if bs == [] then [] else bs[0] + Flatten(bs[1..])
  }

  /** The batches in order are the values: nothing lost, repeated or moved. */
  lemma {:induction false} BatchesConserve(values: seq<string>)
    ensures Flatten(Batches(values)) == values
  {
    var bs := Batches(values);
    if |values| <= BATCH {
      assert Flatten(bs[1..]) == [];
    } else {
      BatchesConserve(values[BATCH..]);
      assert bs[1..] == Batches(values[BATCH..]);
    }
  }

  /** Every batch but the last has ten values; the last has at most ten, and some if there are any. */
  lemma {:induction false} BatchSizes(values: seq<string>)
    ensures var bs := Batches(values);
            && (forall i :: 0 <= i < |bs| - 1 ==> |bs[i]| == BATCH)
            && |bs[|bs| - 1]| <= BATCH && (values != [] ==> bs[|bs| - 1] != [])
            && |values| == BATCH * (|bs| - 1) + |bs[|bs| - 1]|
  {
    if |values| > BATCH {
      BatchSizes(values[BATCH..]);
    }
  }

  lemma {:induction false} FlattenAt(bs: seq<seq<string>>, m: nat)
    requires m <= |bs|
    ensures Flatten(bs) == Flatten(bs[..m]) + Flatten(bs[m..])
  {
    if m > 0 {
      FlattenAt(bs[1..], m - 1);
      assert bs[..m][1..] == bs[1..][..m - 1];
    }
  }

  // ---------------------------------------------------------------- requests

  /** A request: the call's URL is the name of the service followed by a number. */
  datatype Post = Post(api: string, number: nat, values: seq<string>)

  /** The service behind the proxy; `log` is what it has been sent. */
  class Upstream {
    var log: seq<Post>

    constructor ()
      ensures log == []
    {
      log := [];
    }

    method Send(p: Post, reply: int) returns (status: int)
      modifies this
      ensures log == old(log) + [p] && status == reply
    {
      log := log + [p];
      status := reply;
    }
  }

  const CONFIG_API := "/postInstanceConfig"

  /** The request for batch `i`: a full batch has a fixed URL, the last one's number is half its
      size. */
  function PostOf(id: string, api: string, bs: seq<seq<string>>, i: nat): Post
    requires i < |bs|
  {
    if i < |bs| - 1 then Post(CONFIG_API, 5, [id] + bs[i]) else Post(api, |bs[i]| / 2, [id] + bs[i])
  }

  /** The requests for the first `m` batches. */
  function Posts(id: string, api: string, bs: seq<seq<string>>, m: nat): (ps: seq<Post>)
    requires m <= |bs|
    ensures |ps| == m
  {
    if m == 0 then [] else Posts(id, api, bs, m - 1) + [PostOf(id, api, bs, m - 1)]
  }

  lemma {:induction false} PostsAt(id: string, api: string, bs: seq<seq<string>>, m: nat, n: nat)
    requires m <= n <= |bs|
    ensures Posts(id, api, bs, n)[..m] == Posts(id, api, bs, m)
    ensures m < n ==> Posts(id, api, bs, n)[m] == PostOf(id, api, bs, m)
    decreases n
  {
    if m < n {
      PostsAt(id, api, bs, m, n - 1);
      assert Posts(id, api, bs, n)[..m] == Posts(id, api, bs, n - 1)[..m];
    }
  }

  /** Sends all full batches and returns what is left for the last request. `sent` counts them. */
  method PostFullBatches(up: Upstream, values: seq<string>, api: string, replies: nat -> int)
    returns (status: int, left: seq<string>, remain: nat, ghost sent: nat)
    requires |values| >= 1
    modifies up
    ensures var bs := Batches(values[1..]);
            && sent < |bs| && up.log == old(up.log) + Posts(values[0], api, bs, sent)
            && (status == STATUS_OK ==>
                  sent == |bs| - 1 && left == [values[0]] + bs[sent] && remain == |bs[sent]|)
            && (status != STATUS_OK ==> sent > 0 && status == replies(sent - 1))
            && (forall i :: 0 <= i < sent - 1 ==> replies(i) == STATUS_OK)
            && (status == STATUS_OK && sent > 0 ==> replies(sent - 1) == STATUS_OK)
  {
    remain := |values| - 1;
    var current := 1;
    sent := 0;
    ghost var bs := Batches(values[1..]);
    while remain > BATCH
      invariant 1 <= current <= |values| && remain == |values| - current && current == 1 + BATCH * sent
      invariant sent < |bs| && Batches(values[current..]) == bs[sent..]
      invariant up.log == old(up.log) + Posts(values[0], api, bs, sent)
      invariant forall i :: 0 <= i < sent ==> replies(i) == STATUS_OK
    {
      var args := [values[0]];
      args := args + values[current..current + BATCH];
      BatchStep(values, current, bs, sent);
      status := up.Send(Post(CONFIG_API, 5, args), replies((current - 1) / BATCH));
      sent := sent + 1;
      if status != STATUS_OK {
        return status, [], remain, sent;
      }
      current := current + BATCH;
      remain := remain - BATCH;
    }
    assert bs[sent..][0] == bs[sent] && |bs[sent..]| == 1;
    status, left := STATUS_OK, values[..1] + values[current..];
  }

  lemma BatchStep(values: seq<string>, current: nat, bs: seq<seq<string>>, i: nat)
    requires current + BATCH < |values| && i < |bs| && Batches(values[current..]) == bs[i..]
    ensures bs[i] == values[current..current + BATCH]
    ensures i + 1 < |bs| && Batches(values[current + BATCH..]) == bs[i + 1..]
  {
  }

  /** What a call has sent when it ends: a prefix of the posts, all of them when it succeeds, and
      up to the first reply that is not a success otherwise. */
  ghost predicate Sent(before: seq<Post>, after: seq<Post>, posts: seq<Post>, replies: nat -> int, status: int,
                       m: nat)
  {
    && m <= |posts| && after == before + posts[..m]
    && (status == STATUS_OK ==> m == |posts|)
    && (status != STATUS_OK ==> m > 0 && status == replies(m - 1))
    && (forall i :: 0 <= i < m - 1 ==> replies(i) == STATUS_OK)
  }

  /** All the posts of a configuration call. */
  function AllPosts(id: string, api: string, values: seq<string>): seq<Post> {
    var bs := Batches(values);
    Posts(id, api, bs, |bs|)
  }

  /** Sends the values in batches, and last the request itself with what is left of them. */
  method PostConfig(up: Upstream, values: seq<string>, api: string, replies: nat -> int)
    returns (status: int, ghost m: nat)
    requires |values| >= 1
    modifies up
    ensures Sent(old(up.log), up.log, AllPosts(values[0], api, values[1..]), replies, status, m)
  {
    var left, remain;
    ghost var id, rest := values[0], values[1..];
    ghost var bs := Batches(rest);
    status, left, remain, m := PostFullBatches(up, values, api, replies);
    PostsAt(id, api, bs, m, |bs|);
    if status != STATUS_OK {
      return;
    }
    BatchSizes(rest);
    assert |values| - 1 - remain == BATCH * m;
    var last := Post(api, remain / 2, left);
    status := up.Send(last, replies((|values| - 1 - remain) / BATCH));
    assert last == PostOf(id, api, bs, m);
    m := m + 1;
    assert AllPosts(id, api, rest)[..m] == AllPosts(id, api, rest);
  }

  method CreateSelfConfig(up: Upstream, principal: string, values: seq<string>, replies: nat -> int)
    returns (status: int, ghost m: nat)
    modifies up
    ensures Sent(old(up.log), up.log, AllPosts(principal, CONFIG_API, values), replies, status, m)
  {
    var all := [principal] + values;
    assert all[1..] == values;
    status, m := PostConfig(up, all, CONFIG_API, replies);
  }

  /** `found` is what the cache answers for the instance the first value names. */
  predicate MayConfigure(principal: string, values: seq<string>, found: Answer) {
    values != [] && found.Found? && principal == found.inst.cred.ppid
  }

  /** The name an instance was created under, and no other, may configure it. */
  lemma CreatorConfigures(ps: Parsers, req: Request, inst: CachedInstance, principal: string, values: seq<string>)
    requires Decide(ps, req) == Grant(inst) && values != []
    ensures MayConfigure(principal, values, Found(inst)) <==> principal == PrincipalOf(req.who)
  {
    GrantedIff(ps, req, inst);
  }

  /** Only the instance's creator may configure it. */
  method CreateInstanceConfig(up: Upstream, principal: string, api: string, values: seq<string>, found: Answer,
                              replies: nat -> int)
    returns (r: Outcome, ghost m: nat)
    requires !found.NilDereference?
    modifies up
    ensures values == [] ==> r == IndexPanic && up.log == old(up.log)
    ensures values != [] && found.Refused? ==> r == Status(found.status) && up.log == old(up.log)
    ensures values != [] && found.Found? && !MayConfigure(principal, values, found) ==>
              r == Status(STATUS_UNAUTHORIZED) && up.log == old(up.log)
    ensures MayConfigure(principal, values, found) ==>
              && r.Status?
              && Sent(old(up.log), up.log, AllPosts(found.inst.cred.pid, api, values[1..]), replies, r.code, m)
  {
    m := 0;
    if |values| == 0 {
      return IndexPanic, m;
    }
    if found.Refused? {
      return Status(found.status), m;
    }
    if principal != found.inst.cred.ppid {
      return Status(STATUS_UNAUTHORIZED), m;
    }
    var named := values[0 := found.inst.cred.pid];
    assert named[1..] == values[1..];
    var status;
    status, m := PostConfig(up, named, api, replies);
    r := Status(status);
  }

  /** The values of the posts, without the instance they are for. */
  function Payload(posts: seq<Post>): seq<string> {
    if posts == [] then []
    else
      var last := posts[|posts| - 1].values;
      Payload(posts[..|posts| - 1]) + if last == [] then [] else last[1..]
  }

  lemma {:induction false} FlattenSnoc(bs: seq<seq<string>>, b: seq<string>)
    ensures Flatten(bs + [b]) == Flatten(bs) + b
  {
    FlattenAt(bs + [b], |bs|);
    assert (bs + [b])[..|bs|] == bs && (bs + [b])[|bs|..] == [b];
    assert Flatten([b]) == b + Flatten([b][1..]) == b;
  }

  lemma {:induction false} PayloadOfPosts(id: string, api: string, bs: seq<seq<string>>, m: nat)
    requires m <= |bs|
    ensures Payload(Posts(id, api, bs, m)) == Flatten(bs[..m])
  {
    if m > 0 {
      var before := Posts(id, api, bs, m - 1);
      PayloadOfPosts(id, api, bs, m - 1);
      assert Posts(id, api, bs, m)[..m - 1] == before;
      assert bs[..m] == bs[..m - 1] + [bs[m - 1]];
      FlattenSnoc(bs[..m - 1], bs[m - 1]);
    }
  }

  /** Whatever number of values is configured: a call that succeeds has sent each of them once, in
      order, and one that fails a prefix of them. */
  lemma ConfigConserves(id: string, api: string, values: seq<string>, m: nat)
    requires m <= |AllPosts(id, api, values)|
    ensures var posts := AllPosts(id, api, values);
            Payload(posts) == values && Payload(posts[..m]) <= values
  {
    var bs := Batches(values);
    BatchesConserve(values);
    PayloadOfPosts(id, api, bs, |bs|);
    assert bs[..|bs|] == bs;
    PayloadOfPosts(id, api, bs, m);
    PostsAt(id, api, bs, m, |bs|);
    FlattenAt(bs, m);
  }

  /** No request has more than ten values; all but the last have ten and a fixed URL; and the number
      in a URL counts the pairs of its request, in the last one exactly when the total is even. */
  lemma RequestShapes(id: string, api: string, values: seq<string>, i: nat)
    requires i < |AllPosts(id, api, values)|
    ensures var posts := AllPosts(id, api, values);
            var p := posts[i];
            && 1 <= |p.values| <= BATCH + 1 && p.values[0] == id
            && (i < |posts| - 1 ==> p.api == CONFIG_API && |p.values| == BATCH + 1 && 2 * p.number == |p.values| - 1)
            && (i == |posts| - 1 ==> p.api == api && (2 * p.number == |p.values| - 1 <==> |values| % 2 == 0))
            && 2 * p.number <= |p.values| - 1 <= 2 * p.number + 1
  {
    var bs := Batches(values);
    PostsAt(id, api, bs, i, |bs|);
    BatchSizes(values);
    LastIsEven(|bs[|bs| - 1]|, |bs| - 1, |values|);
  }

  lemma LastIsEven(left: nat, full: nat, total: nat)
    requires total == BATCH * full + left
    ensures left / 2 * 2 == left <==> total % 2 == 0
  {
    var half := 5 * full + left / 2;
    assert total == 2 * half + left % 2;
  }

  // ---------------------------------------------------------------- key-value lists

  /** The text between escaped quotes. */
  function Quoted(s: string): string {
    "\\\"" + s + "\\\""
  }

  function PairText(key: string, val: string): string {
    "[" + Quoted(key) + ", " + Quoted(val) + "]"
  }

  function Pairs(values: seq<string>): (ps: seq<(string, string)>)
    requires |values| % 2 == 0
    ensures |ps| == |values| / 2 && forall i :: 0 <= i < |ps| ==> ps[i] == (values[2 * i], values[2 * i + 1])
  {
    seq(|values| / 2, i requires 0 <= i < |values| / 2 => (values[2 * i], values[2 * i + 1]))
  }

  function Unpair(ps: seq<(string, string)>): seq<string> {
    if ps == [] then [] else [ps[0].0, ps[0].1] + Unpair(ps[1..])
  }

  /** The pairs are all the values, each once and in order. */
  lemma {:induction false} UnpairPairs(values: seq<string>)
    requires |values| % 2 == 0
    ensures Unpair(Pairs(values)) == values
  {
    if values != [] {
      assert Pairs(values)[1..] == Pairs(values[2..]);
      UnpairPairs(values[2..]);
      assert values == [values[0], values[1]] + values[2..];
    }
  }

  /** The text of a list of pairs. */
  function ListText(ps: seq<(string, string)>): string {
    "\"[" + JoinWith(PairTexts(ps), ',') + "]\""
  }

  function PairTexts(ps: seq<(string, string)>): (ts: seq<string>)
    ensures |ts| == |ps| && forall i :: 0 <= i < |ps| ==> ts[i] == PairText(ps[i].0, ps[i].1)
  {
    seq(|ps|, i requires 0 <= i < |ps| => PairText(ps[i].0, ps[i].1))
  }

  const QUOTE := '"'

  /** The text cut at its quotes is a quoted list of two-element lists of quoted texts, whose inner
      quotes are escaped; the elements are the values in order. */
  ghost predicate ListsInQuotes(text: string, values: seq<string>) {
    var cut := SplitOn(text, QUOTE);
    && |cut| == 2 * |values| + 3 && cut[0] == "" && cut[1] == "[[\\" && cut[|cut| - 1] == ""
    && forall i :: 0 <= i < |values| ==> ElementAt(cut, values, i)
  }

  /** Element `i` of the list, and what stands between it and the next one. */
  ghost predicate ElementAt(cut: seq<string>, values: seq<string>, i: nat)
    requires |cut| == 2 * |values| + 3 && i < |values|
  {
    cut[2 * i + 2] == values[i] + "\\" && cut[2 * i + 3] == Following(i, |values|)
  }

  function Following(i: nat, n: nat): string {
    if i == n - 1 then "]]" else if i % 2 == 0 then ", \\" else "],[\\"
  }

  lemma CutQuote(piece: string, rest: string)
    requires QUOTE !in piece
    ensures SplitOn(piece + ([QUOTE] + rest), QUOTE) == [piece] + SplitOn(rest, QUOTE)
  {
    SplitPrefix(piece, [QUOTE] + rest, QUOTE);
    assert ([QUOTE] + rest)[1..] == rest;
    assert SplitOn([QUOTE] + rest, QUOTE) == [""] + SplitOn(rest, QUOTE);
    assert piece + "" == piece;
  }

  lemma CutQuoted(before: string, s: string, rest: string)
    requires QUOTE !in before && QUOTE !in s
    ensures SplitOn(before + Quoted(s) + rest, QUOTE) == [before + "\\", s + "\\"] + SplitOn(rest, QUOTE)
  {
    var inner := (s + "\\") + ([QUOTE] + rest);
    CutQuote(s + "\\", rest);
    CutQuote(before + "\\", inner);
    assert before + Quoted(s) + rest == (before + "\\") + ([QUOTE] + inner);
  }

  lemma CutPair(before: string, key: string, val: string, rest: string)
    requires QUOTE !in before && QUOTE !in key && QUOTE !in val
    ensures SplitOn(before + PairText(key, val) + rest, QUOTE)
            == [before + "[\\", key + "\\", ", \\", val + "\\"] + SplitOn("]" + rest, QUOTE)
  {
    var tail := ", " + Quoted(val) + ("]" + rest);
    CutQuoted(", ", val, "]" + rest);
    CutQuoted(before + "[", key, tail);
    assert before + PairText(key, val) + rest == (before + "[") + Quoted(key) + tail;
    assert (before + "[") + "\\" == before + "[\\" && ", " + "\\" == ", \\";
  }

  /** The pieces from the first value of a non-empty list on. */
  function CutFrom(values: seq<string>): seq<string>
    requires |values| % 2 == 0 && values != []
  {
    [values[0] + "\\", ", \\", values[1] + "\\"]
    + if |values| == 2 then ["]]", ""] else ["],[\\"] + CutFrom(values[2..])
  }

  function PairsText(values: seq<string>): string
    requires |values| % 2 == 0
  {
    JoinWith(PairTexts(Pairs(values)), ',')
  }

  lemma PairsTextStep(values: seq<string>)
    requires |values| % 2 == 0 && values != []
    ensures |values| == 2 ==> PairsText(values) == PairText(values[0], values[1])
    ensures |values| > 2 ==>
              PairsText(values) == PairText(values[0], values[1]) + [','] + PairsText(values[2..])
  {
    assert Pairs(values)[1..] == Pairs(values[2..]);
    assert PairTexts(Pairs(values))[1..] == PairTexts(Pairs(values[2..]));
  }

  lemma Regroup(a: string, b: string, c: string, d: string, e: string)
    ensures a + ((b + c + d) + e) == a + b + (c + (d + e))
  {
  }

  lemma {:induction false} CutList(before: string, values: seq<string>, end: string)
    requires |values| % 2 == 0 && values != [] && QUOTE !in before
    requires forall v :: v in values ==> QUOTE !in v
    requires end == "]" + [QUOTE]
    ensures SplitOn(before + (PairsText(values) + end), QUOTE) == [before + "[\\"] + CutFrom(values)
    decreases |values|
  {
    PairsTextStep(values);
    if |values| == 2 {
      CutPair(before, values[0], values[1], end);
      CutEnd(end);
      var pair := PairText(values[0], values[1]);
      assert before + (pair + end) == before + pair + end;
    } else {
      CutList("],", values[2..], end);
      CutNext(before, values[0], values[1], PairsText(values[2..]) + end, CutFrom(values[2..]));
      Regroup(before, PairText(values[0], values[1]), [','], PairsText(values[2..]), end);
    }
  }

  /** One pair, and the pieces that follow its comma. */
  lemma CutNext(before: string, key: string, val: string, rest: string, from: seq<string>)
    requires QUOTE !in before && QUOTE !in key && QUOTE !in val
    requires SplitOn("]," + rest, QUOTE) == ["]," + "[\\"] + from
    ensures SplitOn(before + PairText(key, val) + ([','] + rest), QUOTE)
            == [before + "[\\"] + ([key + "\\", ", \\", val + "\\"] + (["],[\\"] + from))
  {
    CutPair(before, key, val, [','] + rest);
    assert "]" + ([','] + rest) == "]," + rest;
    assert "]," + "[\\" == "],[\\";
  }

  lemma CutEnd(end: string)
    requires end == "]" + [QUOTE]
    ensures SplitOn("]" + end, QUOTE) == ["]]", ""]
  {
    CutQuote("]]", "");
    assert "]" + end == "]]" + ([QUOTE] + "");
  }

  /** The piece of element `i`, the piece after it, and how many there are. */
  lemma {:induction false} CutFromAt(values: seq<string>, i: nat)
    requires |values| % 2 == 0 && values != [] && i < |values|
    ensures var from := CutFrom(values);
            && |from| == 2 * |values| + 1 && from[2 * |values|] == ""
            && from[2 * i] == values[i] + "\\" && from[2 * i + 1] == Following(i, |values|)
  {
    var from := CutFrom(values);
    if |values| > 2 {
      var rest := CutFrom(values[2..]);
      CutFromAt(values[2..], if i < 2 then 0 else i - 2);
      assert |from| == |rest| + 4 && from[2 * |values|] == rest[2 * |values| - 4];
      if i >= 2 {
        assert from[2 * i] == rest[2 * i - 4] && from[2 * i + 1] == rest[2 * i - 3];
        FollowingTwo(i, |values|);
      }
    }
  }

  lemma FollowingTwo(i: nat, n: nat)
    requires i >= 2 && n >= 2
    ensures Following(i, n) == Following(i - 2, n - 2)
  {
  }

  lemma CutWhole(values: seq<string>)
    requires |values| % 2 == 0 && values != []
    requires forall v :: v in values ==> QUOTE !in v
    ensures SplitOn(ListText(Pairs(values)), QUOTE) == ["", "[[\\"] + CutFrom(values)
  {
    var end := "]" + [QUOTE];
    CutList("[", values, end);
    CutOpened(ListText(Pairs(values)), PairsText(values), end);
    FirstPieces(CutFrom(values));
  }

  lemma CutOpened(text: string, pairs: string, end: string)
    requires text == "\"[" + pairs + "]\"" && end == "]" + [QUOTE]
    ensures SplitOn(text, QUOTE) == [""] + SplitOn("[" + (pairs + end), QUOTE)
  {
    assert text[0] == QUOTE && text[1..] == "[" + (pairs + end);
  }

  lemma FirstPieces(from: seq<string>)
    ensures [""] + (["[" + "[\\"] + from) == ["", "[[\\"] + from
  {
    assert "[" + "[\\" == "[[\\";
  }

  /** Reading the list back at its quotes gives the values, if they have no quotes themselves. */
  lemma ListReadsBack(values: seq<string>)
    requires |values| % 2 == 0 && values != []
    requires forall v :: v in values ==> QUOTE !in v
    ensures ListsInQuotes(ListText(Pairs(values)), values)
  {
    var cut := SplitOn(ListText(Pairs(values)), QUOTE);
    CutWhole(values);
    CutFromAt(values, 0);
    forall i | 0 <= i < |values|
      ensures ElementAt(cut, values, i)
    {
      CutFromAt(values, i);
      ShiftTwo(CutFrom(values), cut, 2 * i);
    }
    ShiftTwo(CutFrom(values), cut, 2 * |values| - 1);
  }

  lemma ShiftTwo(from: seq<string>, cut: seq<string>, k: nat)
    requires k + 1 < |from| && cut == ["", "[[\\"] + from
    ensures cut[k + 2] == from[k] && cut[k + 3] == from[k + 1]
  {
  }

  /** The single argument listing all pairs after the first two values, if they pair up. */
  method KvList(values: seq<string>) returns (args: Option<seq<string>>)
    requires |values| >= 1
    ensures args.Some? <==> |values| % 2 == 0 && |values| >= 4
    ensures args.Some? ==> args.value == values[..2] + [ListText(Pairs(values[2..]))]
    ensures args.Some? && (forall v :: v in values[2..] ==> QUOTE !in v) ==>
              ListsInQuotes(args.value[2], values[2..])
  {
    var remain := |values| - 1;
    if remain % 2 == 0 || remain < 2 {
      return None;
    }
    var result: seq<string> := [];
    var current := 2;
    while current < |values|
      invariant 2 <= current <= |values| && current % 2 == 0 && |result| == (current - 2) / 2
      invariant forall i :: 0 <= i < |result| ==> result[i] == PairText(values[2 + 2 * i], values[3 + 2 * i])
    {
      var key, val := values[current], values[current + 1];
      result := result + [PairText(key, val)];
      current := current + 2;
    }
    assert result == PairTexts(Pairs(values[2..]));
    if forall v :: v in values[2..] ==> QUOTE !in v {
      ListReadsBack(values[2..]);
    }
    args := Some(values[..2] + ["\"[" + JoinWith(result, ',') + "]\""]);
  }
}
