/** Rupee amounts in Indian digit grouping: the last three digits, then pairs. */
module IndianFormat {
  import opened Wrappers
  import opened Rounding

  // --- Grouping ------------------------------------------------------------------

  function Join(parts: seq<string>): string {
    if parts == [] then "" else if |parts| == 1 then parts[0] else parts[0] + "," + Join(parts[1..])
  }

  /** Pairs from the right; the first group may be a single digit. */
  function Pairs(s: string): seq<string> {
    if s == "" then [] else if |s| <= 2 then [s] else Pairs(s[..|s| - 2]) + [s[|s| - 2..]]
  }

  function Groups(s: string): seq<string> {
    if |s| <= 3 then [s] else Pairs(s[..|s| - 3]) + [s[|s| - 3..]]
  }

  method GroupIndian(s: string) returns (r: string)
    ensures r == Join(Groups(s))
  {
    if |s| <= 3 { return s; }
    var last3, rest := s[|s| - 3..], s[..|s| - 3];
    var parts: seq<string> := [];
    while |rest| > 2
      invariant rest != "" && Pairs(s[..|s| - 3]) == Pairs(rest) + parts
    {
      parts := [rest[|rest| - 2..]] + parts;
      rest := rest[..|rest| - 2];
    }
    if rest != "" { parts := [rest] + parts; }
    JoinLast(parts, last3);
    return Join(parts) + "," + last3;
  }

  lemma {:induction false} JoinLast(parts: seq<string>, last: string)
    requires parts != []
    ensures Join(parts + [last]) == Join(parts) + "," + last
  {
    if |parts| > 1 {
      JoinLast(parts[1..], last);
      assert (parts + [last])[1..] == parts[1..] + [last];
    } else {
      assert parts + [last] == [parts[0], last] && [parts[0], last][1..] == [last];
    }
  }

  function Flatten(parts: seq<string>): string {
    if parts == [] then "" else Flatten(parts[..|parts| - 1]) + parts[|parts| - 1]
  }

  /** First group of one or two digits, all others of two. */
  predicate ArePairs(parts: seq<string>) {
    parts != [] && 1 <= |parts[0]| <= 2 && forall i :: 1 <= i < |parts| ==> |parts[i]| == 2
  }

  /** One group of at most three digits, or pairs followed by a group of three. */
  predicate AreIndian(parts: seq<string>) {
    if |parts| <= 1 then |parts| == 1 && |parts[0]| <= 3
    else ArePairs(parts[..|parts| - 1]) && |parts[|parts| - 1]| == 3
  }

  lemma FlattenAppend(parts: seq<string>, last: string)
    ensures Flatten(parts + [last]) == Flatten(parts) + last
  {
    assert (parts + [last])[..|parts|] == parts;
  }

  lemma PairsAppend(s: string, two: string)
    requires s != "" && |two| == 2
    ensures Pairs(s + two) == Pairs(s) + [two]
  {
    var t := s + two;
    assert t[..|t| - 2] == s && t[|t| - 2..] == two;
  }

  lemma MorePairs(parts: seq<string>, two: string)
    requires ArePairs(parts) && |two| == 2
    ensures ArePairs(parts + [two])
  {
  }

  lemma OneGroup(s: string)
    ensures Flatten([s]) == s
  {
    FlattenAppend([], s);
    assert [] + [s] == [s];
  }

  lemma {:induction false} PairsShape(s: string)
    requires s != ""
    ensures ArePairs(Pairs(s)) && Flatten(Pairs(s)) == s
  {
    if |s| > 2 {
      var init, two := s[..|s| - 2], s[|s| - 2..];
      PairsShape(init);
      LongerPairs(init, two);
      assert s == init + two;
    } else {
      OneGroup(s);
    }
  }

  lemma LongerPairs(s: string, two: string)
    requires s != "" && |two| == 2 && ArePairs(Pairs(s)) && Flatten(Pairs(s)) == s
    ensures ArePairs(Pairs(s + two)) && Flatten(Pairs(s + two)) == s + two
  {
    var parts := Pairs(s);
    assert Pairs(s + two) == parts + [two] by { PairsAppend(s, two); }
    MorePairs(parts, two);
    FlattenAppend(parts, two);
  }

  /** The only grouping of the digits in Indian style. */
  lemma {:induction false} OnlyPairs(parts: seq<string>)
    requires ArePairs(parts)
    ensures Flatten(parts) != "" && parts == Pairs(Flatten(parts))
  {
    var init, last := parts[..|parts| - 1], parts[|parts| - 1];
    assert parts == init + [last];
    FlattenAppend(init, last);
    if init != [] {
      OnlyPairs(init);
      PairsAppend(Flatten(init), last);
    } else {
      assert "" + last == last;
    }
  }

  lemma GroupsAreIndian(s: string)
    ensures AreIndian(Groups(s)) && Flatten(Groups(s)) == s
  {
    if |s| <= 3 {
      OneGroup(s);
    } else {
      var init, last := s[..|s| - 3], s[|s| - 3..];
      PairsShape(init);
      FlattenAppend(Pairs(init), last);
      assert (Pairs(init) + [last])[..|Pairs(init)|] == Pairs(init);
      assert s == init + last;
    }
  }

  lemma IndianGroupsAreUnique(parts: seq<string>)
    requires AreIndian(parts)
    ensures parts == Groups(Flatten(parts))
  {
    var init, last := parts[..|parts| - 1], parts[|parts| - 1];
    assert parts == init + [last];
    FlattenAppend(init, last);
    if init != [] {
      OnlyPairs(init);
      var s := Flatten(init) + last;
      assert s[..|s| - 3] == Flatten(init) && s[|s| - 3..] == last;
    } else {
      assert "" + last == last;
    }
  }

  function Strip(s: string): string {
    if s == "" then "" else (if s[0] == ',' then "" else [s[0]]) + Strip(s[1..])
  }

  function SplitCommas(s: string): (r: seq<string>)
    ensures r != []
  {
    if s == "" then [""]
    else
      var rest := SplitCommas(s[1..]);
      if s[0] == ',' then [""] + rest else [[s[0]] + rest[0]] + rest[1..]
  }

  predicate NoComma(s: string) { forall i :: 0 <= i < |s| ==> s[i] != ',' }

  lemma SplitCons(c: char, s: string)
    requires c != ','
    ensures SplitCommas([c] + s) == [[c] + SplitCommas(s)[0]] + SplitCommas(s)[1..]
    ensures Strip([c] + s) == [c] + Strip(s)
  {
    assert ([c] + s)[1..] == s;
  }

  lemma CommaCons(s: string)
    ensures SplitCommas("," + s) == [""] + SplitCommas(s) && Strip("," + s) == Strip(s)
  {
    assert ("," + s)[1..] == s;
  }

  lemma {:induction false} SplitHead(a: string, b: string)
    requires NoComma(a)
    ensures SplitCommas(a + "," + b) == [a] + SplitCommas(b)
    ensures Strip(a + "," + b) == a + Strip(b)
  {
    if a == "" {
      CommaCons(b);
      assert a + "," + b == "," + b;
    } else {
      var rest := a[1..] + "," + b;
      SplitHead(a[1..], b);
      SplitCons(a[0], rest);
      assert a + "," + b == [a[0]] + rest && a == [a[0]] + a[1..];
    }
  }

  lemma {:induction false} SplitNone(a: string)
    requires NoComma(a)
    ensures SplitCommas(a) == [a] && Strip(a) == a
  {
    if a != "" {
      SplitNone(a[1..]);
      SplitCons(a[0], a[1..]);
      assert a == [a[0]] + a[1..];
    }
  }

  lemma {:induction false} SplitJoin(parts: seq<string>)
    requires parts != [] && forall i :: 0 <= i < |parts| ==> NoComma(parts[i])
    ensures SplitCommas(Join(parts)) == parts && Strip(Join(parts)) == FlattenLeft(parts)
  {
    if |parts| > 1 {
      SplitJoin(parts[1..]);
      SplitHead(parts[0], Join(parts[1..]));
      assert parts == [parts[0]] + parts[1..];
    } else {
      SplitNone(parts[0]);
      assert parts == [parts[0]] && parts[1..] == [];
    }
  }

  function FlattenLeft(parts: seq<string>): string {
    if parts == [] then "" else parts[0] + FlattenLeft(parts[1..])
  }

  lemma {:induction false} FlattenEitherWay(parts: seq<string>)
    ensures FlattenLeft(parts) == Flatten(parts)
  {
    if parts != [] {
      var n := |parts| - 1;
      FlattenEitherWay(parts[..n]);
      FlattenLeftLast(parts[..n], parts[n]);
      assert parts == parts[..n] + [parts[n]];
    }
  }

  lemma {:induction false} FlattenLeftLast(parts: seq<string>, last: string)
    ensures FlattenLeft(parts + [last]) == FlattenLeft(parts) + last
  {
    if parts == [] {
      assert [last][1..] == [] && parts + [last] == [last];
    } else {
      FlattenLeftLast(parts[1..], last);
      assert (parts + [last])[1..] == parts[1..] + [last];
    }
  }

  lemma {:induction false} PartsOfText(parts: seq<string>)
    requires NoComma(Flatten(parts))
    ensures forall i :: 0 <= i < |parts| ==> NoComma(parts[i])
  {
    if parts != [] {
      var n := |parts| - 1;
      var init := Flatten(parts[..n]);
      assert forall i :: 0 <= i < |init| ==> init[i] == Flatten(parts)[i];
      assert forall i :: 0 <= i < |parts[n]| ==> parts[n][i] == Flatten(parts)[|init| + i];
      PartsOfText(parts[..n]);
    }
  }

  /** For every text without commas: reading the groups back gives the Indian grouping, the only one there
      is, and removing the commas gives back the text. */
  lemma GroupingReadsBack(s: string)
    requires NoComma(s)
    ensures SplitCommas(Join(Groups(s))) == Groups(s) && AreIndian(Groups(s))
    ensures Strip(Join(Groups(s))) == s
    ensures forall parts :: AreIndian(parts) && Flatten(parts) == s ==> parts == Groups(s)
  {
    GroupsAreIndian(s);
    PartsOfText(Groups(s));
    SplitJoin(Groups(s));
    FlattenEitherWay(Groups(s));
    forall parts | AreIndian(parts) && Flatten(parts) == s ensures parts == Groups(s) {
      IndianGroupsAreUnique(parts);
    }
  }

  // --- Decimal text ------------------------------------------------------------------

  function Pow10(n: nat): (r: nat)
    ensures r >= 1
  {
    if n == 0 then 1 else 10 * Pow10(n - 1)
  }

  predicate IsDigit(c: char) { '0' <= c <= '9' }

  predicate AllDigits(s: string) { forall i :: 0 <= i < |s| ==> IsDigit(s[i]) }

  function Digits(n: nat): (s: string)
    ensures AllDigits(s) && |s| >= 1
  {
    if n < 10 then [('0' as int + n) as char] else Digits(n / 10) + [('0' as int + n % 10) as char]
  }

  function Value(s: string): nat
    requires AllDigits(s)
  {
    if s == "" then 0 else 10 * Value(s[..|s| - 1]) + (s[|s| - 1] as int - '0' as int)
  }

  lemma {:induction false} DigitsValue(n: nat)
    ensures Value(Digits(n)) == n
  {
    if n >= 10 {
      DigitsValue(n / 10);
      var s := Digits(n);
      assert s[..|s| - 1] == Digits(n / 10);
    }
  }

  lemma {:induction false} DigitsLength(n: nat, k: nat)
    requires k >= 1
    ensures |Digits(n)| <= k <==> n < Pow10(k)
  {
    if n >= 10 {
      if k > 1 {
        DigitsLength(n / 10, k - 1);
        assert n / 10 < Pow10(k - 1) <==> n < 10 * Pow10(k - 1);
      }
    } else {
      assert Pow10(k) == 10 * Pow10(k - 1);
    }
  }

  lemma ValueAppend(a: string, c: char)
    requires AllDigits(a) && IsDigit(c)
    ensures AllDigits(a + [c]) && Value(a + [c]) == 10 * Value(a) + (c as int - '0' as int)
  {
    assert (a + [c])[..|a|] == a;
  }

  lemma {:induction false} ValueConcat(a: string, b: string)
    requires AllDigits(a) && AllDigits(b)
    ensures AllDigits(a + b) && Value(a + b) == Value(a) * Pow10(|b|) + Value(b)
  {
    if b == "" {
      assert a + b == a;
    } else {
      var init, c := b[..|b| - 1], b[|b| - 1];
      var digit := c as int - '0' as int;
      ValueConcat(a, init);
      assert a + b == (a + init) + [c] && b == init + [c];
      assert Value(a + b) == 10 * Value(a + init) + digit by { ValueAppend(a + init, c); }
      assert Value(b) == 10 * Value(init) + digit by { ValueAppend(init, c); }
      ShiftDigit(Value(a), Value(init), Pow10(|init|), digit);
    }
  }

  lemma ShiftDigit(a: int, b: int, scale: int, digit: int)
    ensures 10 * (a * scale + b) + digit == a * (10 * scale) + (10 * b + digit)
  {
  }

  function Zeros(n: nat): (s: string)
    ensures |s| == n && AllDigits(s)
  {
    seq(n, _ => '0')
  }

  lemma {:induction false} ZerosValue(n: nat)
    ensures Value(Zeros(n)) == 0
  {
    if n > 0 {
      ZerosValue(n - 1);
      assert Zeros(n)[..n - 1] == Zeros(n - 1);
    }
  }

  /** The digits of n units of 10^-places, with at least one before the point. */
  function Padded(n: nat, places: nat): (s: string)
    ensures AllDigits(s) && |s| > places
  {
    var d := Digits(n);
    if |d| > places then d else Zeros(places + 1 - |d|) + d
  }

  lemma ZerosBefore(n: nat, d: string)
    requires AllDigits(d)
    ensures Value(Zeros(n) + d) == Value(d)
  {
    ZerosValue(n);
    ValueConcat(Zeros(n), d);
  }

  lemma PaddedValue(n: nat, places: nat)
    ensures Value(Padded(n, places)) == n
  {
    DigitsValue(n);
    var missing := places + 1 - |Digits(n)|;
    if missing > 0 { ZerosBefore(missing, Digits(n)); }
  }

  /** A decimal is written in scientific notation when more than six places precede its leading digit. */
  predicate Scientific(n: nat, places: nat) { |Digits(n)| - places <= -6 }

  /** str() of n units of 10^-places: the part before the point and, if there is a point, the part after. */
  function TextOf(n: nat, places: nat): (string, Option<string>) {
    var d := Digits(n);
    if Scientific(n, places) then
      var exponent := "E-" + Digits(places - |d| + 1);
      if |d| == 1 then (d + exponent, None) else (d[..1], Some(d[1..] + exponent))
    else if places == 0 then (d, None)
    else
      var z := Padded(n, places);
      (z[..|z| - places], Some(z[|z| - places..]))
  }

  function Pad(s: string, width: int): string { if |s| < width then seq(width - |s|, _ => ' ') + s else s }

  function Places(decimals: int): nat { if decimals > 0 then decimals else 0 }

  /** An amount in units of its last place. */
  function Units(m: real, decimals: int): (n: nat)
    requires m >= 0.0
    ensures -0.5 <= n as real - m * Pow10(Places(decimals)) as real <= 0.5
  {
    NotNegative(m, Pow10(Places(decimals)) as real);
    HalfEven(m * Pow10(Places(decimals)) as real)
  }

  lemma NotNegative(a: real, b: real)
    requires a >= 0.0 && b >= 0.0
    ensures a * b >= 0.0
  {
  }

  function InrBody(n: nat, decimals: int): string {
    var (whole, frac) := TextOf(n, Places(decimals));
    if decimals > 0 then Join(Groups(whole)) + "." + (if frac.Some? then frac.value else "") else Join(Groups(whole))
  }

  function Signed(body: string, negative: bool, sign: bool): string {
    if negative then "-" + body else if sign then "+" + body else body
  }

  /** The text of an amount given by its magnitude and whether it is below zero. */
  function InrText(m: real, negative: bool, decimals: int, sign: bool, width: int): string
    requires m >= 0.0
  {
    Pad(Signed(InrBody(Units(m, decimals), decimals), negative, sign), width)
  }

  // --- Reading an amount back -----------------------------------------------------------

  function Whole(s: string): string { if s == "" || s[0] == '.' then "" else [s[0]] + Whole(s[1..]) }

  function Fraction(s: string): string { if s == "" then "" else if s[0] == '.' then s[1..] else Fraction(s[1..]) }

  function Number(whole: string, frac: string): Option<real> {
    if whole == "" || !AllDigits(whole) || !AllDigits(frac) then None
    else if frac == "" then Some(Value(whole) as real)
    else Some(Value(whole) as real + Value(frac) as real / Pow10(|frac|) as real)
  }

  /** A number with optional commas and point. */
  function ReadBody(s: string): Option<real> { Number(Strip(Whole(s)), Fraction(s)) }

  function ReadSigned(s: string): Option<real> {
    if s == "" then None
    else if s[0] == '+' then ReadBody(s[1..])
    else if s[0] == '-' then
      var r := ReadBody(s[1..]);
      if r.Some? then Some(-r.value) else None
    else ReadBody(s)
  }

  function Read(s: string): Option<real> { if s != "" && s[0] == ' ' then Read(s[1..]) else ReadSigned(s) }

  lemma {:induction false} ReadPadded(s: string, spaces: nat)
    requires s != "" && s[0] != ' '
    ensures Read(seq(spaces, _ => ' ') + s) == ReadSigned(s)
  {
    var t := seq(spaces, _ => ' ') + s;
    if spaces == 0 {
      assert t == s;
    } else {
      ReadPadded(s, spaces - 1);
      assert t[1..] == seq(spaces - 1, _ => ' ') + s;
    }
  }

  predicate NoPoint(s: string) { forall i :: 0 <= i < |s| ==> s[i] != '.' }

  lemma {:induction false} WholeAndFraction(a: string, b: string)
    requires NoPoint(a)
    ensures Whole(a) == a && Fraction(a) == ""
    ensures Whole(a + "." + b) == a && Fraction(a + "." + b) == b
  {
    var t := a + "." + b;
    if a == "" {
      assert t[1..] == b;
    } else {
      WholeAndFraction(a[1..], b);
      assert t[1..] == a[1..] + "." + b;
    }
  }

  /** The grouped text holds the characters of the text and commas, in a text without points or commas. */
  lemma GroupedChars(whole: string)
    requires NoComma(whole) && NoPoint(whole) && whole != ""
    ensures NoPoint(Join(Groups(whole))) && Join(Groups(whole)) != "" && Strip(Join(Groups(whole))) == whole
    ensures Join(Groups(whole))[0] == whole[0]
  {
    GroupingReadsBack(whole);
    StripChars(Join(Groups(whole)));
    FirstChar(whole);
  }

  lemma {:induction false} StripChars(s: string)
    requires NoPoint(Strip(s))
    ensures NoPoint(s)
  {
    if s != "" {
      var rest := Strip(s[1..]);
      assert Strip(s) == (if s[0] == ',' then "" else [s[0]]) + rest;
      forall i | 0 <= i < |rest| ensures rest[i] != '.' {
        assert rest[i] == Strip(s)[if s[0] == ',' then i else i + 1];
      }
      StripChars(s[1..]);
      assert s[0] != ',' ==> s[0] == Strip(s)[0];
      assert forall i :: 1 <= i < |s| ==> s[i] == s[1..][i - 1];
    }
  }

  lemma {:induction false} FirstPair(s: string)
    requires s != ""
    ensures Pairs(s) != [] && Pairs(s)[0] != "" && Pairs(s)[0][0] == s[0]
  {
    if |s| > 2 { FirstPair(s[..|s| - 2]); }
  }

  lemma FirstChar(s: string)
    requires s != ""
    ensures Join(Groups(s)) != "" && Join(Groups(s))[0] == s[0]
  {
    if |s| > 3 {
      FirstPair(s[..|s| - 3]);
    }
  }

  lemma GroupedReadsBack(whole: string, frac: string)
    requires AllDigits(whole) && whole != ""
    ensures ReadBody(Join(Groups(whole))) == Number(whole, "")
    ensures ReadBody(Join(Groups(whole)) + "." + frac) == Number(whole, frac)
  {
    GroupedChars(whole);
    WholeAndFraction(Join(Groups(whole)), frac);
  }

  lemma NumberOf(whole: string, frac: string)
    requires AllDigits(whole) && whole != "" && AllDigits(frac) && frac != ""
    ensures Number(whole, frac) == Some(Value(whole + frac) as real / Pow10(|frac|) as real)
  {
    ValueConcat(whole, frac);
    SplitUnits(Value(whole), Value(frac), Pow10(|frac|), Value(whole + frac));
  }

  lemma PointReadsBack(n: nat, whole: string, frac: string)
    requires AllDigits(whole) && whole != "" && AllDigits(frac) && frac != "" && Value(whole + frac) == n
    ensures ReadBody(Join(Groups(whole)) + "." + frac) == Some(n as real / Pow10(|frac|) as real)
  {
    GroupedReadsBack(whole, frac);
    NumberOf(whole, frac);
  }

  lemma PaddedReadsBack(n: nat, places: nat)
    requires places > 0
    ensures var z := Padded(n, places);
      var whole, frac := z[..|z| - places], z[|z| - places..];
      && AllDigits(whole) && whole != ""
      && ReadBody(Join(Groups(whole)) + "." + frac) == Some(n as real / Pow10(places) as real)
  {
    var z := Padded(n, places);
    var whole, frac := z[..|z| - places], z[|z| - places..];
    assert AllDigits(whole) && AllDigits(frac) && whole + frac == z;
    PaddedValue(n, places);
    PointReadsBack(n, whole, frac);
  }

  lemma DigitsReadBack(n: nat)
    ensures ReadBody(Join(Groups(Digits(n)))) == Some(n as real / Pow10(0) as real)
  {
    assert ReadBody(Join(Groups(Digits(n)))) == Some(n as real) by {
      DigitsValue(n);
      GroupedReadsBack(Digits(n), "");
    }
    OverOne(n as real, Pow10(0));
  }

  lemma OverOne(x: real, scale: nat)
    requires scale == 1
    ensures x / scale as real == x
  {
    var q := x / scale as real;
    assert q * scale as real == x;
  }

  /** The body of an amount in plain notation reads back as exactly n units. */
  lemma PlainReadsBack(n: nat, decimals: int)
    requires !Scientific(n, Places(decimals))
    ensures var whole := TextOf(n, Places(decimals)).0; AllDigits(whole) && whole != ""
    ensures ReadBody(InrBody(n, decimals)) == Some(n as real / Pow10(Places(decimals)) as real)
  {
    if decimals <= 0 {
      DigitsReadBack(n);
    } else {
      PaddedReadsBack(n, decimals);
    }
  }

  lemma SplitUnits(whole: nat, frac: nat, scale: nat, n: nat)
    requires scale >= 1 && n == whole * scale + frac
    ensures whole as real + frac as real / scale as real == n as real / scale as real
  {
    var s := scale as real;
    assert n as real == whole as real * s + frac as real;
    var q := frac as real / s;
    assert (whole as real + q) * s == n as real;
  }

  /** An amount in scientific notation leaves a letter in the text that no reader takes for a number. */
  lemma ScientificUnreadable(n: nat, decimals: int)
    requires decimals > 0 && Scientific(n, decimals)
    ensures var whole := TextOf(n, decimals).0; whole != "" && IsDigit(whole[0])
    ensures ReadBody(InrBody(n, decimals)) == None
  {
    var (whole, frac) := TextOf(n, decimals);
    GroupedChars(whole);
    WholeAndFraction(Join(Groups(whole)), if frac.Some? then frac.value else "");
    var d := Digits(n);
    if |d| == 1 {
      assert whole[1] == 'E';
    } else {
      assert frac.value[|d| - 1] == 'E';
    }
  }

  lemma ScientificIff(n: nat, places: nat)
    ensures Scientific(n, places) <==> places > 6 && n < Pow10(places - 6)
  {
    if places > 6 { DigitsLength(n, places - 6); }
  }

  function Rounded(m: real, decimals: int): real
    requires m >= 0.0
  {
    Units(m, decimals) as real / Pow10(Places(decimals)) as real
  }

  predicate Unreadable(m: real, decimals: int)
    requires m >= 0.0
  {
    decimals > 6 && Units(m, decimals) < Pow10(decimals - 6)
  }

  /** The body of an amount reads back as its units, or not at all. */
  lemma BodyReads(n: nat, decimals: int)
    ensures ReadBody(InrBody(n, decimals))
         == if Scientific(n, Places(decimals)) then None else Some(n as real / Pow10(Places(decimals)) as real)
    ensures InrBody(n, decimals) != "" && IsDigit(InrBody(n, decimals)[0])
  {
    if Scientific(n, Places(decimals)) {
      ScientificUnreadable(n, decimals);
    } else {
      PlainReadsBack(n, decimals);
    }
    FirstChar(TextOf(n, Places(decimals)).0);
  }

  lemma PadReads(s: string, width: int)
    requires s != "" && s[0] != ' '
    ensures Read(Pad(s, width)) == ReadSigned(s)
  {
    ReadPadded(s, if |s| < width then width - |s| else 0);
    assert seq(0, _ => ' ') + s == s;
  }

  lemma SignedReads(body: string, negative: bool, sign: bool)
    requires body != "" && IsDigit(body[0])
    ensures var s, r := Signed(body, negative, sign), ReadBody(body);
      s != "" && s[0] != ' ' && ReadSigned(s) == if negative && r.Some? then Some(-r.value) else r
  {
    var s := Signed(body, negative, sign);
    assert negative || sign ==> s[1..] == body;
  }

  /** The text of an amount reads back as the rounded amount with its sign; it cannot be read at all when
      more than six decimals are asked for and the rounded amount is below one millionth. */
  lemma InrReadsBackIff(m: real, negative: bool, decimals: int, sign: bool, width: int)
    requires m >= 0.0
    ensures Read(InrText(m, negative, decimals, sign, width))
         == if Unreadable(m, decimals) then None
            else Some(if negative then -Rounded(m, decimals) else Rounded(m, decimals))
  {
    var n := Units(m, decimals);
    ScientificIff(n, Places(decimals));
    BodyReads(n, decimals);
    SignedReads(InrBody(n, decimals), negative, sign);
    PadReads(Signed(InrBody(n, decimals), negative, sign), width);
  }

  /** Two amounts no more than half a unit apart, with `scale` units to one. */
  predicate WithinHalf(a: real, b: real, scale: real) { -0.5 <= (a - b) * scale <= 0.5 }

  // --- What the text looks like ---------------------------------------------------------

  /** The text ends in a point and so many digits. */
  predicate EndsInPlaces(s: string, places: nat) {
    |s| > places && s[|s| - places - 1] == '.' && AllDigits(s[|s| - places..])
  }

  lemma BodyEndsInPlaces(n: nat, decimals: int)
    requires decimals > 0 && !Scientific(n, decimals)
    ensures EndsInPlaces(InrBody(n, decimals), decimals)
  {
    var z := Padded(n, decimals);
    var frac := z[|z| - decimals..];
    PointEndsInPlaces(Join(Groups(z[..|z| - decimals])), frac);
  }

  lemma PointEndsInPlaces(whole: string, frac: string)
    requires AllDigits(frac)
    ensures EndsInPlaces(whole + "." + frac, |frac|)
  {
    var body := whole + "." + frac;
    assert body[|body| - |frac|..] == frac;
  }

  /** An amount is written with its minus sign, a plus sign where one is asked for, or none; with exactly the decimals
      asked for, unless it is printed in scientific notation; and filled up with spaces on the left to the width. */
  lemma InrTextShape(m: real, negative: bool, decimals: int, sign: bool, width: int)
    requires m >= 0.0
    ensures var text, plain := InrText(m, negative, decimals, sign, width), InrText(m, negative, decimals, sign, 0);
      && plain != "" && plain[0] != ' '
      && (plain[0] == '-' <==> negative) && (plain[0] == '+' <==> sign && !negative)
      && |text| == (if |plain| < width then width else |plain|)
      && text[|text| - |plain|..] == plain && (forall i :: 0 <= i < |text| - |plain| ==> text[i] == ' ')
      && (decimals > 0 && !Scientific(Units(m, decimals), decimals) ==> EndsInPlaces(plain, decimals))
  {
    var n := Units(m, decimals);
    var body := InrBody(n, decimals);
    BodyReads(n, decimals);
    if decimals > 0 && !Scientific(n, decimals) {
      BodyEndsInPlaces(n, decimals);
      SignKeepsPlaces(body, negative, sign, decimals);
    }
  }

  lemma SignKeepsPlaces(body: string, negative: bool, sign: bool, places: nat)
    requires EndsInPlaces(body, places)
    ensures EndsInPlaces(Signed(body, negative, sign), places)
  {
    var s := Signed(body, negative, sign);
    assert s[|s| - places..] == body[|body| - places..];
    assert s[|s| - places - 1] == body[|body| - places - 1];
  }
}
