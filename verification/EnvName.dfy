/** The decoding of property names from environment variable names: three rewrites in a row. */
module EnvName {

  // ---------------------------------------------------------------- the three rewrites

  /** The text starts with `k` underscores or more. */
  predicate StartsRun(s: string, k: nat) {
    |s| >= k && forall i :: 0 <= i < k ==> s[i] == '_'
  }

  /** `s/___/-/g` */
  function ReplaceThree(s: string): string {
    if s == "" then ""
    else if StartsRun(s, 3) then ['-'] + ReplaceThree(s[3..])
    else [s[0]] + ReplaceThree(s[1..])
  }

  /** `s/__/_/g` */
  function ReplaceTwo(s: string): string {
    if s == "" then ""
    else if StartsRun(s, 2) then ['_'] + ReplaceTwo(s[2..])
    else [s[0]] + ReplaceTwo(s[1..])
  }

  /** `s/_/./g` */
  function ReplaceOne(s: string): string {
    if s == "" then "" else [if s[0] == '_' then '.' else s[0]] + ReplaceOne(s[1..])
  }

  function Decode(s: string): string {
    ReplaceOne(ReplaceTwo(ReplaceThree(s)))
  }

  // ---------------------------------------------------------------- the same, run by run

  /** `t` with `n` copies of `c` put in front. */
  function Front(c: char, n: nat, t: string): string {
    if n == 0 then t else [c] + Front(c, n - 1, t)
  }

  /** How many underscores the text starts with. */
  function Leading(s: string): (k: nat)
    ensures k <= |s|
  {
    if s == "" || s[0] != '_' then 0 else 1 + Leading(s[1..])
  }

  /** A maximal run of k underscores stands for k/3 dashes, and a dot if 3 does not divide k. */
  function Run(k: nat, t: string): string {
    Front('-', k / 3, Front('.', if k % 3 == 0 then 0 else 1, t))
  }

  function DecodeRuns(s: string): string
    decreases |s|
  {
    if s == "" then ""
    else
      var k := Leading(s);
      if k == 0 then [s[0]] + DecodeRuns(s[1..]) else Run(k, DecodeRuns(s[k..]))
  }

  lemma {:induction false} FrontTail(c: char, n: nat, t: string)
    ensures |Front(c, n, t)| == n + |t|
    ensures n > 0 ==> Front(c, n, t)[0] == c && Front(c, n, t)[1..] == Front(c, n - 1, t)
    ensures Front(c, n, t)[n..] == t
  {
    if n > 0 {
      FrontTail(c, n - 1, t);
      assert Front(c, n, t)[n..] == Front(c, n - 1, t)[n - 1..];
    }
  }

  lemma {:induction false} LeadingOfFront(n: nat, t: string)
    ensures Leading(Front('_', n, t)) == n + Leading(t)
  {
    if n > 0 {
      FrontTail('_', n, t);
      LeadingOfFront(n - 1, t);
    }
  }

  /** A text is its leading underscores and the rest, which starts with something else. */
  lemma {:induction false} SplitLeading(s: string)
    ensures s == Front('_', Leading(s), s[Leading(s)..]) && Leading(s[Leading(s)..]) == 0
  {
    if s != "" && s[0] == '_' {
      SplitLeading(s[1..]);
      assert s == [s[0]] + s[1..];
      assert s[Leading(s)..] == s[1..][Leading(s[1..])..];
    } else {
      assert s[0..] == s;
    }
  }

  lemma {:induction false} StartsRunIff(s: string, k: nat)
    requires k <= 3
    ensures StartsRun(s, k) <==> Leading(s) >= k
  {
    if k > 0 && s != "" {
      StartsRunIff(s[1..], k - 1);
      assert StartsRun(s, k) ==> s[0] == '_' && forall i :: 0 <= i < k - 1 ==> s[1..][i] == s[i + 1];
      assert s[0] == '_' && StartsRun(s[1..], k - 1) ==> StartsRun(s, k) by {
        assert forall i :: 0 < i < k && i < |s| ==> s[i] == s[1..][i - 1];
      }
    }
  }

  lemma ThreeStep(t: string)
    ensures ReplaceThree(Front('_', 3, t)) == ['-'] + ReplaceThree(t)
  {
    FrontTail('_', 3, t);
    LeadingOfFront(3, t);
    StartsRunIff(Front('_', 3, t), 3);
  }

  lemma ThreeSkip(s: string)
    requires s != "" && Leading(s) < 3
    ensures ReplaceThree(s) == [s[0]] + ReplaceThree(s[1..])
  {
    StartsRunIff(s, 3);
  }

  lemma {:induction false} FrontSum(c: char, m: nat, n: nat, t: string)
    ensures Front(c, m + n, t) == Front(c, m, Front(c, n, t))
  {
    if m > 0 {
      FrontSum(c, m - 1, n, t);
    }
  }

  lemma {:induction false} ThreeOnRun(k: nat, t: string)
    requires Leading(t) == 0
    ensures ReplaceThree(Front('_', k, t)) == Front('-', k / 3, Front('_', k % 3, ReplaceThree(t)))
  {
    if k >= 3 {
      var less := Front('_', k - 3, t);
      assert Front('_', k, t) == Front('_', 3, less) by { FrontSum('_', 3, k - 3, t); }
      ThreeStep(less);
      ThreeOnRun(k - 3, t);
      assert (k - 3) / 3 == k / 3 - 1 && (k - 3) % 3 == k % 3;
    } else if k > 0 {
      LeadingOfFront(k, t);
      FrontTail('_', k, t);
      ThreeSkip(Front('_', k, t));
      ThreeOnRun(k - 1, t);
    }
  }

  lemma TwoOnRest(r: nat, t: string)
    requires r < 3 && Leading(t) == 0
    ensures ReplaceTwo(Front('_', r, t)) == Front('_', if r == 0 then 0 else 1, ReplaceTwo(t))
  {
    if r > 0 {
      var s := Front('_', r, t);
      FrontTail('_', r, t);
      LeadingOfFront(r, t);
      StartsRunIff(s, 2);
    }
  }

  lemma {:induction false} TwoOnDashes(n: nat, t: string)
    ensures ReplaceTwo(Front('-', n, t)) == Front('-', n, ReplaceTwo(t))
  {
    if n > 0 {
      var s := Front('-', n, t);
      FrontTail('-', n, t);
      StartsRunIff(s, 2);
      TwoOnDashes(n - 1, t);
    }
  }

  lemma {:induction false} OneOnFront(c: char, n: nat, t: string)
    ensures ReplaceOne(Front(c, n, t)) == Front(if c == '_' then '.' else c, n, ReplaceOne(t))
  {
    if n > 0 {
      FrontTail(c, n, t);
      OneOnFront(c, n - 1, t);
    }
  }

  lemma ThreeKeepsStart(s: string)
    requires Leading(s) == 0
    ensures Leading(ReplaceThree(s)) == 0
  {
  }

  lemma DecodePlainStart(s: string)
    requires s != "" && Leading(s) == 0
    ensures Decode(s) == [s[0]] + Decode(s[1..])
  {
  }

  lemma DecodeRunStart(k: nat, t: string)
    requires Leading(t) == 0
    ensures Decode(Front('_', k, t)) == Run(k, Decode(t))
  {
    var n, r, u := k / 3, k % 3, ReplaceThree(t);
    var one := if r == 0 then 0 else 1;
    ThreeOnRun(k, t);
    ThreeKeepsStart(t);
    TwoOnDashes(n, Front('_', r, u));
    TwoOnRest(r, u);
    OneOnFront('-', n, Front('_', one, ReplaceTwo(u)));
    OneOnFront('_', one, ReplaceTwo(u));
  }

  /** The three rewrites decode run by run. */
  lemma {:induction false} DecodeIsByRuns(s: string)
    ensures Decode(s) == DecodeRuns(s)
    decreases |s|
  {
    if s != "" {
      var k := Leading(s);
      if k == 0 {
        DecodePlainStart(s);
        DecodeIsByRuns(s[1..]);
      } else {
        SplitLeading(s);
        DecodeRunStart(k, s[k..]);
        DecodeIsByRuns(s[k..]);
      }
    }
  }

  // ---------------------------------------------------------------- the round trip

  /** How many underscores the documentation gives a character: one for `.`, two for `_`, three for
      `-`, none for any other. */
  function Underscores(c: char): nat {
    if c == '.' then 1 else if c == '_' then 2 else if c == '-' then 3 else 0
  }

  function Encode(name: string): string {
    if name == "" then ""
    else
      var n := Underscores(name[0]);
      if n == 0 then [name[0]] + Encode(name[1..]) else Front('_', n, Encode(name[1..]))
  }

  /** No underscore, and no dot directly before a dot or a dash. */
  predicate Decodable(name: string) {
    && '_' !in name
    && forall i :: 0 <= i < |name| - 1 && name[i] == '.' ==> name[i + 1] != '.' && name[i + 1] != '-'
  }

  /** Runs decode on top of what follows them. */
  lemma DecodeFront(n: nat, t: string)
    requires n > 0
    ensures Leading(Front('_', n, t)) == n + Leading(t)
    ensures DecodeRuns(Front('_', n, t)) == Run(n + Leading(t), DecodeRuns(t[Leading(t)..]))
  {
    var s, l := Front('_', n, t), Leading(t);
    LeadingOfFront(n, t);
    assert s[n + l..] == t[l..] by {
      FrontTail('_', n, t);
      assert s[n + l..] == s[n..][l..];
    }
  }

  /** Three more underscores in front decode to one more dash in front. */
  lemma ThreeMore(t: string)
    ensures DecodeRuns(Front('_', 3, t)) == ['-'] + DecodeRuns(t)
  {
    DecodeFront(3, t);
    DecodeByRun(t);
    RunThree(Leading(t), DecodeRuns(t[Leading(t)..]));
  }

  lemma RunThree(k: nat, t: string)
    ensures Run(k + 3, t) == ['-'] + Run(k, t)
  {
  }

  lemma RunShort(k: nat, t: string)
    requires k == 1 || k == 2
    ensures Run(k, t) == ['.'] + t
  {
    assert Front('.', 1, t) == ['.'] + Front('.', 0, t);
    assert k / 3 == 0 && k % 3 != 0;
  }

  lemma DecodeByRun(t: string)
    ensures DecodeRuns(t) == Run(Leading(t), DecodeRuns(t[Leading(t)..]))
  {
  }

  /** A decoded name has no underscore. */
  lemma {:induction false} DecodedHasNoUnderscore(s: string)
    ensures '_' !in DecodeRuns(s)
    decreases |s|
  {
    if s != "" {
      var k := Leading(s);
      if k == 0 {
        DecodedHasNoUnderscore(s[1..]);
      } else {
        DecodedHasNoUnderscore(s[k..]);
        FrontHas('.', if k % 3 == 0 then 0 else 1, DecodeRuns(s[k..]));
        FrontHas('-', k / 3, Front('.', if k % 3 == 0 then 0 else 1, DecodeRuns(s[k..])));
      }
    }
  }

  lemma {:induction false} FrontHas(c: char, n: nat, t: string)
    requires c != '_' && '_' !in t
    ensures '_' !in Front(c, n, t)
  {
    if n > 0 {
      FrontHas(c, n - 1, t);
    }
  }

  /** What decoding starts with: a dash for three underscores or more, else a dot for any. */
  lemma DecodedStart(s: string)
    requires s != ""
    ensures var k := Leading(s);
            DecodeRuns(s) != "" && DecodeRuns(s)[0] == if k >= 3 then '-' else if k > 0 then '.' else s[0]
  {
  }

  lemma EncodedStart(name: string)
    requires name != ""
    ensures var n := Underscores(name[0]);
            && Encode(name) != ""
            && Leading(Encode(name)) == (if n == 0 then 0 else n + Leading(Encode(name[1..])))
            && (n == 0 ==> Encode(name)[0] == name[0])
  {
    LeadingOfFront(Underscores(name[0]), Encode(name[1..]));
  }

  /** A dot decodes to itself exactly when nothing special follows it. */
  lemma DotStart(name: string)
    requires name != "" && name[0] == '.' && '_' !in name
    ensures DecodeRuns(Encode(name)) == name <==>
            DecodeRuns(Encode(name[1..])) == name[1..] && (name[1..] != "" ==> Underscores(name[1]) == 0)
  {
    var rest := name[1..];
    var t := Encode(rest);
    assert name == ['.'] + rest;
    DecodeFront(1, t);
    if rest == "" || Underscores(rest[0]) == 0 {
      if rest != "" { EncodedStart(rest); }
      assert t[0..] == t;
      RunShort(1, DecodeRuns(t));
      PrefixEqual('.', DecodeRuns(t), rest);
    } else {
      EncodedStart(rest);
      DecodedStart(Encode(name));
      if Leading(t) == 1 {
        DotsMerge(rest);
      }
    }
  }

  /** Two dots decode to one, and what follows is never the second. */
  lemma DotsMerge(rest: string)
    requires rest != "" && rest[0] == '.' && Leading(Encode(rest)) == 1
    ensures DecodeRuns(Front('_', 1, Encode(rest))) != ['.'] + rest
  {
    var t := Encode(rest[1..]);
    EncodedStart(rest);
    DecodeFront(1, Encode(rest));
    FrontTail('_', 1, t);
    assert Encode(rest)[1..] == t;
    RunShort(2, DecodeRuns(t));
    assert DecodeRuns(Front('_', 1, Encode(rest))) == ['.'] + DecodeRuns(t);
    if t != "" {
      EncodedStart(rest[1..]);
      DecodedStart(t);
      assert (['.'] + DecodeRuns(t))[1] == t[0];
    }
  }

  /** Encoding a name and decoding it gives back the name exactly when it has no underscore and no
      dot directly before a dot or a dash. */
  lemma {:induction false} RoundTripIff(name: string)
    ensures Decode(Encode(name)) == name <==> Decodable(name)
  {
    DecodeIsByRuns(Encode(name));
    DecodedHasNoUnderscore(Encode(name));
    if name != "" && '_' !in name {
      var rest := name[1..];
      RoundTripIff(rest);
      DecodeIsByRuns(Encode(rest));
      DecodableStep(name);
      assert name == [name[0]] + rest;
      if name[0] == '-' {
        ThreeMore(Encode(rest));
        PrefixEqual('-', DecodeRuns(Encode(rest)), rest);
      } else if name[0] == '.' {
        assert rest != "" ==> rest[0] in name;
        DotStart(name);
      } else {
        var t := Encode(rest);
        assert ([name[0]] + t)[1..] == t;
        PrefixEqual(name[0], DecodeRuns(t), rest);
      }
    }
  }

  lemma PrefixEqual(c: char, s: string, t: string)
    ensures [c] + s == [c] + t <==> s == t
  {
    assert ([c] + s)[1..] == s && ([c] + t)[1..] == t;
  }

  lemma DecodableStep(name: string)
    requires name != "" && '_' !in name
    ensures Decodable(name) <==>
            && Decodable(name[1..])
            && (name[0] == '.' && name[1..] != "" ==> name[1] != '.' && name[1] != '-')
  {
  }
}
