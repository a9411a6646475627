/** Splitting, joining and decimal notation, as the proxy's key and file formats use them. */
module Text {
  import opened Principals

  // ---------------------------------------------------------------- split and join

  /** The parts of `s` between separators; always at least one. */
  function SplitOn(s: string, c: char): (parts: seq<string>)
    ensures |parts| >= 1
  {
    if s == "" then [""]
    else
      var rest := SplitOn(s[1..], c);
      if s[0] == c then [""] + rest else [[s[0]] + rest[0]] + rest[1..]
  }

  function JoinWith(parts: seq<string>, c: char): string {
    if |parts| == 0 then ""
    else if |parts| == 1 then parts[0]
    else parts[0] + [c] + JoinWith(parts[1..], c)
  }

  lemma {:induction false} SplitPrefix(p: string, s: string, c: char)
    requires c !in p
    ensures SplitOn(p + s, c) == [p + SplitOn(s, c)[0]] + SplitOn(s, c)[1..]
  {
    var parts := SplitOn(s, c);
    if p == "" {
      assert p + s == s;
      assert p + parts[0] == parts[0];
    } else {
      var q := p[1..];
      SplitPrefix(q, s, c);
      assert (p + s)[0] == p[0] && (p + s)[1..] == q + s;
      var rest := SplitOn(q + s, c);
      assert rest[0] == q + parts[0] && rest[1..] == parts[1..];
      assert [p[0]] + (q + parts[0]) == p + parts[0];
    }
  }

  /** Joining and splitting again gives back any parts free of the separator. */
  lemma {:induction false} SplitJoin(parts: seq<string>, c: char)
    requires |parts| >= 1
    requires forall p :: p in parts ==> c !in p
    ensures SplitOn(JoinWith(parts, c), c) == parts
  {
    if |parts| == 1 {
      SplitPrefix(parts[0], "", c);
      assert parts[0] + "" == parts[0];
    } else {
      var tail := JoinWith(parts[1..], c);
      SplitJoin(parts[1..], c);
      SplitPrefix(parts[0], [c] + tail, c);
      assert ([c] + tail)[1..] == tail;
      assert JoinWith(parts, c) == parts[0] + ([c] + tail);
      assert SplitOn([c] + tail, c) == [""] + parts[1..];
      assert parts[0] + "" == parts[0];
    }
  }

  /** The parts joined again are the text. */
  lemma {:induction false} JoinSplit(s: string, c: char)
    ensures JoinWith(SplitOn(s, c), c) == s
  {
    if s != "" {
      JoinSplit(s[1..], c);
      var rest := SplitOn(s[1..], c);
      if s[0] == c {
        assert ([""] + rest)[1..] == rest;
      } else {
        assert ([[s[0]] + rest[0]] + rest[1..])[1..] == rest[1..];
      }
    }
  }

  /** Every part is free of the separator and made of characters of the text. */
  lemma {:induction false} SplitFree(s: string, c: char)
    ensures forall p :: p in SplitOn(s, c) ==> c !in p && forall d :: d in p ==> d in s
  {
    if s != "" {
      SplitFree(s[1..], c);
    }
  }

  // ---------------------------------------------------------------- decimal numbers

  function DigitChar(d: nat): (c: char)
    requires d < 10
    ensures IsDigit(c) && DigitValue(c) == d
  {
    '0' + d as char
  }

  predicate IsDigit(c: char) {
    '0' <= c <= '9'
  }

  function DigitValue(c: char): nat {
    if IsDigit(c) then (c - '0') as nat else 0
  }

  function PrintNat(n: nat): (s: string)
    ensures |s| >= 1 && forall c :: c in s ==> IsDigit(c)
  {
    if n < 10 then [DigitChar(n)] else PrintNat(n / 10) + [DigitChar(n % 10)]
  }

  function PrintInt(n: int): string {
    if n < 0 then ['-'] + PrintNat(-n) else PrintNat(n)
  }

  /** The value of a digit string read after digits worth `acc`. */
  function DigitsValue(s: string, acc: nat): nat {
    if s == "" then acc else DigitsValue(s[1..], acc * 10 + DigitValue(s[0]))
  }

  lemma {:induction false} DigitsValueSnoc(s: string, d: char, acc: nat)
    ensures DigitsValue(s + [d], acc) == DigitsValue(s, acc) * 10 + DigitValue(d)
  {
    if s == "" {
      assert s + [d] == [d];
    } else {
      assert (s + [d])[1..] == s[1..] + [d];
      DigitsValueSnoc(s[1..], d, acc * 10 + DigitValue(s[0]));
    }
  }

  lemma {:induction false} PrintNatValue(n: nat)
    ensures DigitsValue(PrintNat(n), 0) == n
  {
    if n >= 10 {
      PrintNatValue(n / 10);
      DigitsValueSnoc(PrintNat(n / 10), DigitChar(n % 10), 0);
    }
  }

  /** The length of the longest prefix of digits. */
  function DigitRun(s: string): (n: nat)
    ensures n <= |s| && (forall i :: 0 <= i < n ==> IsDigit(s[i])) && (n < |s| ==> !IsDigit(s[n]))
  {
    if s == "" || !IsDigit(s[0]) then 0 else 1 + DigitRun(s[1..])
  }

  lemma {:induction false} DigitRunOf(s: string, rest: string)
    requires forall c :: c in s ==> IsDigit(c)
    requires rest == "" || !IsDigit(rest[0])
    ensures DigitRun(s + rest) == |s|
  {
    if s == "" {
      assert s + rest == rest;
    } else {
      DigitRunOf(s[1..], rest);
      assert (s + rest)[1..] == s[1..] + rest;
    }
  }

  /** Reads digits; gives their value and the text after them. */
  function ScanNat(s: string): Option<(int, string)> {
    var n := DigitRun(s);
    if n == 0 then None else Some((DigitsValue(s[..n], 0), s[n..]))
  }

  /** Reads a decimal integer with an optional sign; gives its value and the text after it. */
  function ScanInt(s: string): Option<(int, string)> {
    if s != "" && s[0] == '-' then
      (match ScanNat(s[1..])
       case None => None
       case Some((v, rest)) => Some((-v, rest)))
    else
      match ScanNat(if s != "" && s[0] == '+' then s[1..] else s)
      case None => None
      case Some((v, rest)) => Some((v, rest))
  }

  lemma ScanPrintedNat(n: nat, rest: string)
    requires rest == "" || !IsDigit(rest[0])
    ensures ScanNat(PrintNat(n) + rest) == Some((n, rest))
    ensures IsDigit((PrintNat(n) + rest)[0])
  {
    var digits := PrintNat(n);
    PrintNatValue(n);
    DigitRunOf(digits, rest);
    assert digits[0] in digits;
    assert (digits + rest)[..|digits|] == digits && (digits + rest)[|digits|..] == rest;
  }

  lemma ScanUnsigned(n: nat, rest: string)
    requires rest == "" || !IsDigit(rest[0])
    ensures ScanInt(PrintNat(n) + rest) == Some((n, rest))
  {
    ScanPrintedNat(n, rest);
  }

  lemma ScanNegative(n: int, rest: string)
    requires n < 0 && (rest == "" || !IsDigit(rest[0]))
    ensures ScanInt(['-'] + PrintNat(-n) + rest) == Some((n, rest))
  {
    ScanPrintedNat(-n, rest);
    var text := PrintNat(-n) + rest;
    assert ['-'] + PrintNat(-n) + rest == ['-'] + text && (['-'] + text)[1..] == text;
  }

  lemma ScanPrinted(n: int, rest: string)
    requires rest == "" || !IsDigit(rest[0])
    ensures ScanInt(PrintInt(n) + rest) == Some((n, rest))
  {
    if n < 0 { ScanNegative(n, rest); } else { ScanUnsigned(n, rest); }
  }
}
