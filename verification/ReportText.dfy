/** Text sent to Telegram: the report fence, the MarkdownV2 escape, and the expected value it prints. */
module ReportText {
  import opened Wrappers
  import opened SignalReport

  // --- The report fence -----------------------------------------------------------

  /** str.replace for a one-character pattern. */
  function Replace(s: string, c: char, with: string): string {
    if s == "" then "" else ReplaceOne(s[0], c, with) + Replace(s[1..], c, with)
  }

  function Fenced(body: string): string {
    "```\n" + Replace(Replace(body, '\\', "\\\\"), '`', "\\`") + "\n```"
  }

  /** One pass that puts a backslash before each backslash and backtick. */
  function Escape(s: string): string {
    if s == "" then "" else (if s[0] == '\\' || s[0] == '`' then ['\\', s[0]] else [s[0]]) + Escape(s[1..])
  }

  function ReplaceOne(x: char, c: char, with: string): string { if x == c then with else [x] }

  lemma ReplaceCons(x: char, s: string, c: char, with: string)
    ensures Replace([x] + s, c, with) == ReplaceOne(x, c, with) + Replace(s, c, with)
  {
    assert ([x] + s)[1..] == s;
  }

  lemma {:induction false} ReplaceConcat(a: string, b: string, c: char, with: string)
    ensures Replace(a + b, c, with) == Replace(a, c, with) + Replace(b, c, with)
  {
    if a == "" {
      assert a + b == b;
    } else {
      var x, tail := a[0], a[1..];
      ReplaceConcat(tail, b, c, with);
      assert a + b == [x] + (tail + b) && a == [x] + tail;
      assert Replace(a + b, c, with) == ReplaceOne(x, c, with) + Replace(tail + b, c, with) by {
        ReplaceCons(x, tail + b, c, with);
      }
      Associates(ReplaceOne(x, c, with), Replace(tail, c, with), Replace(b, c, with));
    }
  }

  lemma Associates(a: string, b: string, c: string)
    ensures (a + b) + c == a + (b + c)
  {
  }

  /** The two replacements in a row are one pass: the second touches nothing the first put in. */
  lemma {:induction false} TwoReplacesAreOneEscape(s: string)
    ensures Replace(Replace(s, '\\', "\\\\"), '`', "\\`") == Escape(s)
  {
    if s != "" {
      TwoReplacesAreOneEscape(s[1..]);
      var head := if s[0] == '\\' then "\\\\" else [s[0]];
      ReplaceConcat(head, Replace(s[1..], '\\', "\\\\"), '`', "\\`");
      assert head[1..] == if s[0] == '\\' then "\\" else "";
      assert Replace(head[1..], '`', "\\`") == head[1..];
      assert Replace(head, '`', "\\`") == (if s[0] == '\\' || s[0] == '`' then ['\\', s[0]] else [s[0]]);
    }
  }

  /** Reading a fence: a backslash takes the next character as it is, the first bare backtick ends the text. */
  function Content(s: string): string {
    if s == "" || s[0] == '`' then ""
    else if s[0] == '\\' && |s| > 1 then [s[1]] + Content(s[2..])
    else [s[0]] + Content(s[1..])
  }

  function Rest(s: string): string {
    if s == "" || s[0] == '`' then s
    else if s[0] == '\\' && |s| > 1 then Rest(s[2..])
    else Rest(s[1..])
  }

  lemma ReadEscaped(c: char, rest: string)
    ensures Content(['\\', c] + rest) == [c] + Content(rest) && Rest(['\\', c] + rest) == Rest(rest)
  {
    var s := ['\\', c] + rest;
    assert s[0] == '\\' && s[1] == c && s[2..] == rest;
  }

  lemma ReadBare(c: char, rest: string)
    requires c != '\\' && c != '`'
    ensures Content([c] + rest) == [c] + Content(rest) && Rest([c] + rest) == Rest(rest)
  {
    var s := [c] + rest;
    assert s[0] == c && s[1..] == rest;
  }

  lemma {:induction false} EscapedTextReadsBack(s: string, after: string)
    ensures Content(Escape(s) + after) == s + Content(after) && Rest(Escape(s) + after) == Rest(after)
  {
    if s == "" {
      assert Escape(s) + after == after;
    } else {
      var c, rest := s[0], Escape(s[1..]) + after;
      EscapedTextReadsBack(s[1..], after);
      assert s == [c] + s[1..];
      if c == '\\' || c == '`' {
        assert Escape(s) + after == ['\\', c] + rest;
        ReadEscaped(c, rest);
      } else {
        assert Escape(s) + after == [c] + rest;
        ReadBare(c, rest);
      }
    }
  }

  function ParseFence(message: string): Option<string> {
    if |message| < 4 || message[..4] != "```\n" || Rest(message[4..]) != "```" then None
    else
      var content := Content(message[4..]);
      if content == "" || content[|content| - 1] != '\n' then None else Some(content[..|content| - 1])
  }

  /** Any body comes back whole from its fence, so none can close the fence early. */
  lemma FenceRoundTrip(body: string)
    ensures ParseFence(Fenced(body)) == Some(body)
  {
    TwoReplacesAreOneEscape(body);
    EscapedTextReadsBack(body, "\n```");
    assert Fenced(body)[4..] == Escape(body) + "\n```";
    assert Rest("\n```") == Rest("\n```"[1..]) == "```";
    assert Content("\n```") == ['\n'] + Content("\n```"[1..]) == "\n";
    assert Content(Fenced(body)[4..]) == body + "\n";
  }

  // --- MarkdownV2 -----------------------------------------------------------------

  const RESERVED: string := "_*[]()~`>#+-=|{}.!"

  predicate IsReserved(c: char) { c in RESERVED }

  function EscapeChar(c: char): string { if IsReserved(c) then ['\\', c] else [c] }

  function EscapeMarkdown(text: string): string {
    if text == "" then "" else EscapeChar(text[0]) + EscapeMarkdown(text[1..])
  }

  /** No reserved character is left without a backslash right before it. */
  lemma {:induction false} ReservedIsEscaped(text: string, i: nat)
    requires i < |EscapeMarkdown(text)| && IsReserved(EscapeMarkdown(text)[i])
    ensures i > 0 && EscapeMarkdown(text)[i - 1] == '\\'
  {
    var head := EscapeChar(text[0]);
    if i >= |head| {
      ReservedIsEscaped(text[1..], i - |head|);
    } else {
      assert !IsReserved('\\');
    }
  }

  /** Reads an escaped text from its end. */
  function Decode(s: string): string {
    if s == "" then ""
    else
      var c := s[|s| - 1];
      var n := if IsReserved(c) && |s| > 1 then |s| - 2 else |s| - 1;
      Decode(s[..n]) + [c]
  }

  lemma DecodeAppend(s: string, c: char)
    ensures Decode(s + EscapeChar(c)) == Decode(s) + [c]
  {
    var t := s + EscapeChar(c);
    assert t[|t| - 1] == c && t[..|s|] == s;
    assert |t| - |s| == if IsReserved(c) then 2 else 1;
  }

  lemma {:induction false} EscapeAppend(s: string, c: char)
    ensures EscapeMarkdown(s + [c]) == EscapeMarkdown(s) + EscapeChar(c)
  {
    if s == "" {
      assert s + [c] == [c] && [c][1..] == "";
    } else {
      EscapeAppend(s[1..], c);
      assert (s + [c])[1..] == s[1..] + [c];
      Associates(EscapeChar(s[0]), EscapeMarkdown(s[1..]), EscapeChar(c));
    }
  }

  lemma {:induction false} DecodeInvertsEscape(text: string)
    ensures Decode(EscapeMarkdown(text)) == text
  {
    if text != "" {
      var init, c := text[..|text| - 1], text[|text| - 1];
      assert text == init + [c];
      assert EscapeMarkdown(text) == EscapeMarkdown(init) + EscapeChar(c) by { EscapeAppend(init, c); }
      assert Decode(EscapeMarkdown(init)) == init by { DecodeInvertsEscape(init); }
      DecodeAppend(EscapeMarkdown(init), c);
    }
  }

  /** No two texts are escaped alike. */
  lemma EscapeIsInjective(a: string, b: string)
    ensures EscapeMarkdown(a) == EscapeMarkdown(b) <==> a == b
  {
    DecodeInvertsEscape(a);
    DecodeInvertsEscape(b);
  }

  /** The characters that a backslash escapes for a MarkdownV2 reader: codes 1 to 126. */
  predicate Escapable(c: char) { 1 <= c as int <= 126 }

  function Cons(c: char, rest: Option<string>): Option<string> { if rest.None? then None else Some([c] + rest.value) }

  /** A MarkdownV2 reader of plain text: a backslash takes an escapable character as it is and is shown itself
      before any other; a bare reserved character is markup, not text. */
  function ReadMarkdown(s: string): Option<string> {
    if s == "" then Some("")
    else if s[0] == '\\' && |s| > 1 && Escapable(s[1]) then Cons(s[1], ReadMarkdown(s[2..]))
    else if IsReserved(s[0]) then None
    else Cons(s[0], ReadMarkdown(s[1..]))
  }

  /** No backslash stands before a character that it escapes. */
  predicate BackslashesSafe(text: string) {
    forall i :: 0 <= i < |text| - 1 && text[i] == '\\' ==> !Escapable(text[i + 1])
  }

  /** The reader shows a text as it was exactly when its backslashes are safe: backslashes themselves are not
      escaped. It never shows more than the text. */
  lemma {:induction false} ShownAsWrittenIff(text: string)
    ensures ReadMarkdown(EscapeMarkdown(text)) == Some(text) <==> BackslashesSafe(text)
    ensures var shown := ReadMarkdown(EscapeMarkdown(text)); shown.Some? ==> |shown.value| <= |text|
    decreases |text|
  {
    ReadEscapedText(text);
    if TakesTwo(text) {
      ShownAsWrittenIff(text[2..]);
    } else if text != "" {
      ShownAsWrittenIff(text[1..]);
      SafeTail(text);
      assert text == [text[0]] + text[1..];
    }
  }

  /** The backslashes that stand right before position i. */
  function RunBefore(text: string, i: nat): nat
    requires i <= |text|
  {
    if i == 0 || text[i - 1] != '\\' then 0 else 1 + RunBefore(text, i - 1)
  }

  /** A reserved character behind an odd number of backslashes. */
  predicate BareAt(text: string, i: nat) { i < |text| && IsReserved(text[i]) && RunBefore(text, i) % 2 == 1 }

  predicate BareAfterEscape(text: string) { exists i | 0 <= i < |text| :: BareAt(text, i) }

  /** The reader meets markup in an escaped text exactly when some reserved character of the text follows an
      odd number of backslashes. */
  lemma {:induction false} MarkupLeftIff(text: string)
    ensures ReadMarkdown(EscapeMarkdown(text)).None? <==> BareAfterEscape(text)
    decreases |text|
  {
    ReadEscapedText(text);
    if TakesTwo(text) {
      if IsReserved(text[1]) {
        assert RunBefore(text, 0) == 0 && BareAt(text, 1);
      } else {
        MarkupLeftIff(text[2..]);
        BareInTail(text, text[2..], 2);
      }
    } else if text != "" {
      MarkupLeftIff(text[1..]);
      BareInTail(text, text[1..], 1);
    }
  }

  predicate TakesTwo(text: string) { |text| > 1 && text[0] == '\\' && Escapable(text[1]) }

  /** What the reader does at the start of an escaped text: a backslash takes an escapable neighbour, or the
      backslash put before a reserved one. */
  lemma ReadEscapedText(text: string)
    ensures ReadMarkdown(EscapeMarkdown(text))
         == if text == "" then Some("")
            else if !TakesTwo(text) then Cons(text[0], ReadMarkdown(EscapeMarkdown(text[1..])))
            else if IsReserved(text[1]) then None
            else Cons(text[1], ReadMarkdown(EscapeMarkdown(text[2..])))
  {
    if text != "" {
      var rest := EscapeMarkdown(text[1..]);
      if TakesTwo(text) {
        assert text[1..][1..] == text[2..];
        BackslashBefore(text[1], EscapeMarkdown(text[2..]));
      } else if IsReserved(text[0]) {
        ReadTaken(text[0], rest);
      } else {
        if |text| > 1 { assert rest != "" && rest[0] == EscapeChar(text[1])[0]; }
        ReadPlain(text[0], rest);
      }
    }
  }

  lemma ReadTaken(c: char, rest: string)
    requires Escapable(c)
    ensures ReadMarkdown(['\\', c] + rest) == Cons(c, ReadMarkdown(rest))
  {
    var s := ['\\', c] + rest;
    assert s[0] == '\\' && s[1] == c && s[2..] == rest;
  }

  lemma ReadPlain(c: char, rest: string)
    requires !IsReserved(c) && !(c == '\\' && rest != "" && Escapable(rest[0]))
    ensures ReadMarkdown([c] + rest) == Cons(c, ReadMarkdown(rest))
  {
    var s := [c] + rest;
    assert s[0] == c && s[1..] == rest;
  }

  lemma ReadMarkup(c: char, rest: string)
    requires IsReserved(c)
    ensures ReadMarkdown([c] + rest) == None
  {
    var s := [c] + rest;
    assert s[0] == c;
  }

  lemma BackslashBefore(c: char, rest: string)
    requires Escapable(c)
    ensures ReadMarkdown(EscapeChar('\\') + (EscapeChar(c) + rest))
         == if IsReserved(c) then None else Cons(c, ReadMarkdown(rest))
  {
    if IsReserved(c) {
      assert EscapeChar('\\') + (EscapeChar(c) + rest) == ['\\', '\\'] + ([c] + rest);
      ReadTaken('\\', [c] + rest);
      ReadMarkup(c, rest);
    } else {
      assert EscapeChar('\\') + (EscapeChar(c) + rest) == ['\\', c] + rest;
      ReadTaken(c, rest);
    }
  }

  lemma SafeTail(text: string)
    requires text != "" && !TakesTwo(text)
    ensures BackslashesSafe(text) <==> BackslashesSafe(text[1..])
  {
    if BackslashesSafe(text[1..]) {
      forall i | 1 <= i < |text| - 1 && text[i] == '\\' ensures !Escapable(text[i + 1]) {
        assert text[1..][i - 1] == '\\';
      }
    }
  }

  /** What the reader takes first. */
  predicate IsHead(text: string, n: nat) {
    if TakesTwo(text) then n == 2 && !IsReserved(text[1]) else n == 1 <= |text|
  }

  /** Runs of backslashes keep their parity when what the reader takes first is cut off. */
  lemma {:induction false} RunInTail(text: string, n: nat, i: nat)
    requires IsHead(text, n) && n <= i <= |text|
    ensures (i == 1 && text[0] == '\\') || RunBefore(text, i) % 2 == RunBefore(text[n..], i - n) % 2
    decreases i
  {
    assert Escapable('\\');
    if i > n {
      RunInTail(text, n, i - 1);
      assert text[n..][i - n - 1] == text[i - 1];
    } else if n == 2 {
      assert RunBefore(text, 1) == 1 && RunBefore(text, 2) == if text[1] == '\\' then 2 else 0;
    }
  }

  lemma SameBare(text: string, tail: string, n: nat, i: nat)
    requires IsHead(text, n) && tail == text[n..] && i < |text|
    ensures BareAt(text, i) <==> i >= n && BareAt(tail, i - n)
  {
    if i >= n {
      RunInTail(text, n, i);
      assert tail[i - n] == text[i] && (text[0] == '\\' && i == 1 ==> !IsReserved(text[1]));
    }
  }

  lemma BareInTail(text: string, tail: string, n: nat)
    requires IsHead(text, n) && tail == text[n..]
    ensures BareAfterEscape(text) <==> BareAfterEscape(tail)
  {
    if i: nat :| i < |text| && BareAt(text, i) {
      SameBare(text, tail, n, i);
      assert BareAt(tail, i - n);
    }
    if i: nat :| i < |tail| && BareAt(tail, i) {
      SameBare(text, tail, n, i + n);
      assert BareAt(text, i + n);
    }
  }

  /** An input that is not safe: the backslash put before the underscore is read as a second one, and the
      underscore is left bare. */
  lemma BackslashLeavesMarkup()
    ensures !BackslashesSafe("\\_") && EscapeMarkdown("\\_") == "\\\\_" && ReadMarkdown("\\\\_") == None
  {
  }

  // --- Expected value -----------------------------------------------------------------

  /** Win rate times average win plus loss rate times average loss; a zero result counts as a loss. */
  function Blend(n: real, wins: real, gains: real, losses: real): real
    requires n > 0.0
  {
    var winRate := 100.0 * wins / n;
    var avgWin := if wins > 0.0 then gains / wins else 0.0;
    var avgLoss := if n - wins > 0.0 then -losses / (n - wins) else 0.0;
    winRate / 100.0 * avgWin + (1.0 - winRate / 100.0) * avgLoss
  }

  function ExpectedValue(pnls: seq<real>): real {
    if pnls == [] then 0.0
    else Blend(|pnls| as real, Winners(pnls) as real, Gains(pnls), Losses(pnls))
  }

  lemma {:induction false} WinnersOnly(pnls: seq<real>)
    ensures Winners(pnls) == 0 ==> Gains(pnls) == 0.0
    ensures Winners(pnls) == |pnls| ==> Losses(pnls) == 0.0
  {
    if pnls != [] {
      WinnersOnly(pnls[..|pnls| - 1]);
    }
  }

  /** The expected value is the mean result: the split into wins and losses adds nothing. */
  lemma ExpectedValueIsMean(pnls: seq<real>)
    ensures ExpectedValue(pnls) == if pnls == [] then 0.0 else Sum(pnls) / |pnls| as real
  {
    WinnersOnly(pnls);
    GainsMinusLosses(pnls);
    if pnls != [] {
      BlendIsMean(|pnls| as real, Winners(pnls) as real, Gains(pnls), Losses(pnls));
    }
  }

  lemma BlendIsMean(n: real, wins: real, gains: real, losses: real)
    requires 0.0 <= wins <= n && n > 0.0
    requires (wins == 0.0 ==> gains == 0.0) && (wins == n ==> losses == 0.0)
    ensures Blend(n, wins, gains, losses) == (gains - losses) / n
  {
    var rate, rest := 100.0 * wins / n / 100.0, (n - wins) / n;
    Cancel(rate, wins / n, n);
    Cancel(1.0 - rate, rest, n);
    Share(wins, n, gains);
    Share(n - wins, n, -losses);
    Cancel(gains / n + -losses / n, (gains - losses) / n, n);
  }

  lemma Cancel(a: real, b: real, n: real)
    requires n > 0.0 && a * n == b * n
    ensures a == b
  {
    assert (a - b) * n == 0.0;
  }

  lemma Share(part: real, n: real, total: real)
    requires n > 0.0 && 0.0 <= part <= n && (part == 0.0 ==> total == 0.0)
    ensures part / n * (if part > 0.0 then total / part else 0.0) == total / n
  {
    if part > 0.0 {
      var a, b := part / n, total / part;
      assert a * n == part && b * part == total;
      assert a * b * n == b * (a * n) == total;
      Cancel(a * b, total / n, n);
    }
  }
}
