/** The two text kernels of the receipt (apps/booking/receipt_pdf.py): greedy
    word wrap and Indian digit grouping. */
module Receipt {

  // --- wrapping ------------------------------------------------------------

  type Words = seq<string>

  /** The words with one space between each. */
  function Joined(words: Words): string {
    if words == [] then ""
    else if |words| == 1 then words[0]
    else words[0] + " " + Joined(words[1..])
  }

  function Flatten(lines: seq<Words>): Words {
    if lines == [] then [] else lines[0] + Flatten(lines[1..])
  }

  /** A line fits, or is a single word that cannot. */
  predicate LegalLine(line: Words, width: int) {
    |line| == 1 || (|line| > 1 && |Joined(line)| <= width)
  }

  predicate LegalBreak(lines: seq<Words>, width: int) {
    forall i :: 0 <= i < |lines| ==> LegalLine(lines[i], width)
  }

  /** What the greedy loop makes of the words still to place, `current` being
      the line it is filling. */
  function Fill(current: Words, rest: Words, width: int): seq<Words>
    decreases |rest|
  {
    if rest == [] then [current]
    else if |Joined(current)| + 1 + |rest[0]| <= width then Fill(current + [rest[0]], rest[1..], width)
    else [current] + Fill([rest[0]], rest[1..], width)
  }

  function Greedy(words: Words, width: int): seq<Words>
    requires words != []
  {
    Fill([words[0]], words[1..], width)
  }

  function JoinedLines(lines: seq<Words>): seq<string> {
    seq(|lines|, i requires 0 <= i < |lines| => Joined(lines[i]))
  }

  /** The loop, on the words `split()` returns. */
  method Wrap(words: Words, width: int) returns (lines: seq<string>)
    ensures words == [] ==> lines == [""]
    ensures words != [] ==> lines == JoinedLines(Greedy(words, width))
  {
    if words == [] { return [""]; }
    lines := [];
    var current := words[0];
    ghost var open := [words[0]];
    for i := 1 to |words|
      invariant open != [] && current == Joined(open)
      invariant lines + JoinedLines(Fill(open, words[i..], width)) == JoinedLines(Greedy(words, width))
    {
      var word := words[i];
      assert words[i..][1..] == words[i + 1..];
      if |current| + 1 + |word| <= width {
        JoinedAppend(open, word);
        current := current + " " + word;
        open := open + [word];
      } else {
        JoinedLinesPrepend(open, Fill([word], words[i + 1..], width));
        lines := lines + [current];
        current := word;
        open := [word];
      }
    }
    lines := lines + [current];
    assert words[|words|..] == [];
    assert JoinedLines([open]) == [current];
  }

  lemma JoinedLinesPrepend(line: Words, lines: seq<Words>)
    ensures JoinedLines([line] + lines) == [Joined(line)] + JoinedLines(lines)
  {
  }

  lemma {:induction false} JoinedAppend(words: Words, word: string)
    requires words != []
    ensures Joined(words + [word]) == Joined(words) + " " + word
  {
    if |words| > 1 {
      assert (words + [word])[1..] == words[1..] + [word];
      JoinedAppend(words[1..], word);
    } else {
      assert (words + [word])[1..] == [word];
    }
  }

  /** Characters plus one per word: a length that adds up. */
  function Span(words: Words): nat {
    if words == [] then 0 else |words[0]| + 1 + Span(words[1..])
  }

  lemma {:induction false} SpanConcat(a: Words, b: Words)
    ensures Span(a + b) == Span(a) + Span(b)
  {
    if a == [] {
      assert a + b == b;
    } else {
      assert (a + b)[1..] == a[1..] + b;
      SpanConcat(a[1..], b);
    }
  }

  lemma {:induction false} JoinedSpan(words: Words)
    requires words != []
    ensures |Joined(words)| + 1 == Span(words)
  {
    if |words| > 1 {
      JoinedSpan(words[1..]);
    } else {
      assert words[1..] == [];
    }
  }

  /** The greedy lines are the words again, in order, every line legal. */
  lemma {:induction false} GreedyIsLegal(current: Words, rest: Words, width: int)
    requires LegalLine(current, width)
    ensures Flatten(Fill(current, rest, width)) == current + rest
    ensures LegalBreak(Fill(current, rest, width), width)
    decreases |rest|
  {
    if rest == [] {
      assert Flatten([current]) == current + Flatten([]);
    } else if |Joined(current)| + 1 + |rest[0]| <= width {
      JoinedAppend(current, rest[0]);
      GreedyIsLegal(current + [rest[0]], rest[1..], width);
      assert current + [rest[0]] + rest[1..] == current + rest;
    } else {
      var tail := Fill([rest[0]], rest[1..], width);
      GreedyIsLegal([rest[0]], rest[1..], width);
      assert ([current] + tail)[1..] == tail;
      assert [rest[0]] + rest[1..] == rest;
    }
  }

  /** Greedy stays ahead: any legal break of the same words, even one that
      still has `earlier` words to place on these lines, needs as many lines. */
  lemma {:induction false} GreedyStaysAhead(earlier: Words, current: Words, rest: Words, width: int, other: seq<Words>)
    requires current != [] && LegalBreak(other, width)
    requires Flatten(other) == earlier + current + rest
    ensures |Fill(current, rest, width)| <= |other|
    decreases |rest|
  {
    if rest == [] {
      assert other != [];
    } else if |Joined(current)| + 1 + |rest[0]| <= width {
      WordMovesOver(earlier, current, rest);
      GreedyStaysAhead(earlier, current + [rest[0]], rest[1..], width, other);
    } else {
      assert other != [];
      FirstLineStopsBefore(earlier, current, rest, width, other);
      var later := (earlier + current)[|other[0]|..];
      LineComesOff(earlier + current, rest, other[0], Flatten(other[1..]));
      GreedyStaysAhead(later, [rest[0]], rest[1..], width, other[1..]);
    }
  }

  lemma WordMovesOver(earlier: Words, current: Words, rest: Words)
    requires rest != []
    ensures earlier + (current + [rest[0]]) + rest[1..] == earlier + current + rest
  {
  }

  lemma LineComesOff(front: Words, rest: Words, line: Words, others: Words)
    requires rest != [] && front + rest == line + others && |line| <= |front|
    ensures others == front[|line|..] + [rest[0]] + rest[1..]
  {
    assert others == (front + rest)[|line|..];
  }

  /** A line holding the whole current line and the word that did not fit on it
      is too long. */
  lemma LongLineIsIllegal(earlier: Words, current: Words, word: string, tail: Words, width: int)
    requires current != [] && |Joined(current)| + 1 + |word| > width
    ensures !LegalLine(earlier + current + [word] + tail, width)
  {
    var line := earlier + current + [word] + tail;
    SpanConcat(earlier + current + [word], tail);
    SpanConcat(earlier + current, [word]);
    SpanConcat(earlier, current);
    JoinedSpan(line);
    JoinedSpan(current);
  }

  lemma FirstLineStopsBefore(earlier: Words, current: Words, rest: Words, width: int, other: seq<Words>)
    requires current != [] && rest != [] && other != [] && LegalBreak(other, width)
    requires Flatten(other) == earlier + current + rest
    requires |Joined(current)| + 1 + |rest[0]| > width
    ensures |other[0]| <= |earlier| + |current|
  {
    var n := |earlier| + |current| + 1;
    if |other[0]| >= n {
      PrefixSplits(earlier + current, rest, other[0], Flatten(other[1..]));
      LongLineIsIllegal(earlier, current, rest[0], other[0][n..], width);
    }
  }

  /** Two ways of cutting the same words: the longer first part goes on with the
      other cut's next word. */
  lemma PrefixSplits(a: Words, b: Words, line: Words, others: Words)
    requires b != [] && a + b == line + others && |line| > |a|
    ensures line == a + [b[0]] + line[|a| + 1..]
  {
    assert line == (line + others)[..|line|];
    assert (a + b)[..|a|] == a;
    assert line[..|a|] == a;
    assert line[|a|] == b[0];
  }

  lemma {:induction false} JoinedConcat(a: Words, b: Words)
    requires a != [] && b != []
    ensures Joined(a + b) == Joined(a) + " " + Joined(b)
  {
    if |a| == 1 {
      assert (a + b)[1..] == b;
    } else {
      assert (a + b)[1..] == a[1..] + b;
      JoinedConcat(a[1..], b);
    }
  }

  /** Lines joined by spaces read the same as the words joined by spaces. */
  lemma {:induction false} LinesRejoin(lines: seq<Words>)
    requires forall i :: 0 <= i < |lines| ==> lines[i] != []
    ensures Joined(JoinedLines(lines)) == Joined(Flatten(lines))
    ensures lines != [] ==> Flatten(lines) != []
  {
    if lines != [] {
      LinesRejoin(lines[1..]);
      assert JoinedLines(lines)[1..] == JoinedLines(lines[1..]);
      if |lines| > 1 {
        JoinedConcat(lines[0], Flatten(lines[1..]));
      } else {
        assert lines[1..] == [] && lines[0] + [] == lines[0];
      }
    }
  }

  /** The wrap re-joins to the text, every line fits or is one over-long word,
      and no other such break of the words uses fewer lines. */
  lemma WrapIsOptimal(words: Words, width: int, other: seq<Words>)
    requires words != [] && Flatten(other) == words && LegalBreak(other, width)
    ensures var lines := Greedy(words, width);
      && Joined(JoinedLines(lines)) == Joined(words) && Flatten(lines) == words
      && LegalBreak(lines, width) && |lines| <= |other|
  {
    assert [words[0]] + words[1..] == words;
    GreedyIsLegal([words[0]], words[1..], width);
    assert [] + [words[0]] + words[1..] == words;
    GreedyStaysAhead([], [words[0]], words[1..], width, other);
    LinesRejoin(Greedy(words, width));
  }

  // --- rupees --------------------------------------------------------------

  function DigitChar(d: nat): char
    requires d < 10
  {
    ('0' as int + d) as char
  }

  function Digits(n: nat): string {
    if n < 10 then [DigitChar(n)] else Digits(n / 10) + [DigitChar(n % 10)]
  }

  predicate IsDigit(c: char) {
    '0' <= c <= '9'
  }

  predicate AllDigits(s: string) {
    forall i :: 0 <= i < |s| ==> IsDigit(s[i])
  }

  function DigitValue(c: char): nat
    requires IsDigit(c)
  {
    c as nat - '0' as nat
  }

  /** Pairs, from the right, commas between. */
  function GroupedHead(head: string): string {
    if |head| <= 2 then head
    else GroupedHead(head[..|head| - 2]) + "," + head[|head| - 2..]
  }

  function Grouped(digits: string): string {
    if |digits| <= 3 then digits
    else GroupedHead(digits[..|digits| - 3]) + "," + digits[|digits| - 3..]
  }

  function CommaJoined(parts: seq<string>): string {
    if parts == [] then "" else if |parts| == 1 then parts[0] else parts[0] + "," + CommaJoined(parts[1..])
  }

  function TwoDigits(n: nat): string
    requires n < 100
  {
    [DigitChar(n / 10), DigitChar(n % 10)]
  }

  function Abs(n: int): nat {
    if n < 0 then -n else n
  }

  const RUPEE: char := '\U{20B9}'

  function Printed(minor: int): string {
    (if minor < 0 then "-" else "") + [RUPEE] + Grouped(Digits(Abs(minor) / 100)) + "." + TwoDigits(Abs(minor) % 100)
  }

  lemma CommaJoinedPrepend(part: string, parts: seq<string>)
    requires parts != []
    ensures CommaJoined([part] + parts) == part + "," + CommaJoined(parts)
  {
    assert ([part] + parts)[1..] == parts;
  }

  /** The loop: pairs peeled off the head, last first. */
  method Rupees(minor: int) returns (text: string)
    ensures text == Printed(minor)
  {
    var amount := if minor < 0 then -minor else minor;
    var whole, paise := amount / 100, amount % 100;
    var digits := Digits(whole);
    if |digits| > 3 {
      var head, tail := digits[..|digits| - 3], digits[|digits| - 3..];
      var parts: seq<string> := [tail];
      while |head| > 2
        invariant |head| >= 1 && parts != []
        invariant GroupedHead(head) + "," + CommaJoined(parts) == Grouped(digits)
      {
        CommaJoinedPrepend(head[|head| - 2..], parts);
        ghost var before := GroupedHead(head) + "," + CommaJoined(parts);
        ghost var shorter, pair := head[..|head| - 2], head[|head| - 2..];
        assert before == GroupedHead(shorter) + "," + (pair + "," + CommaJoined(parts));
        parts := [head[|head| - 2..]] + parts;
        head := head[..|head| - 2];
      }
      if head != "" {
        CommaJoinedPrepend(head, parts);
        parts := [head] + parts;
      }
      digits := CommaJoined(parts);
    }
    var sign := if minor < 0 then "-" else "";
    text := sign + [RUPEE] + digits + "." + TwoDigits(paise);
  }

  /** Reading it back: drop everything that is not a digit. */
  function Kept(s: string): string {
    if s == "" then "" else (if IsDigit(s[0]) then [s[0]] else "") + Kept(s[1..])
  }

  function Value(digits: string): nat
    requires AllDigits(digits)
  {
    if digits == "" then 0 else Value(digits[..|digits| - 1]) * 10 + DigitValue(digits[|digits| - 1])
  }

  lemma {:induction false} KeptIsDigits(s: string)
    ensures AllDigits(Kept(s))
  {
    if s != "" {
      KeptIsDigits(s[1..]);
    }
  }

  function Read(text: string): int {
    KeptIsDigits(text);
    var amount: int := Value(Kept(text));
    if text != "" && text[0] == '-' then -amount else amount
  }

  lemma {:induction false} KeptConcat(a: string, b: string)
    ensures Kept(a + b) == Kept(a) + Kept(b)
  {
    if a == "" {
      assert a + b == b;
    } else {
      var first := if IsDigit(a[0]) then [a[0]] else "";
      assert (a + b)[1..] == a[1..] + b;
      KeptConcat(a[1..], b);
      assert first + (Kept(a[1..]) + Kept(b)) == (first + Kept(a[1..])) + Kept(b);
    }
  }

  lemma {:induction false} KeptOfDigits(s: string)
    requires AllDigits(s)
    ensures Kept(s) == s
  {
    if s != "" {
      KeptOfDigits(s[1..]);
      assert [s[0]] + s[1..] == s;
    }
  }

  lemma {:induction false} DigitsReadBack(n: nat)
    ensures AllDigits(Digits(n)) && Value(Digits(n)) == n && |Digits(n)| >= 1
  {
    if n < 10 {
      assert Digits(n)[..0] == "";
    } else {
      DigitsReadBack(n / 10);
      assert Digits(n)[..|Digits(n)| - 1] == Digits(n / 10);
    }
  }

  lemma KeptOfMark(mark: char)
    requires !IsDigit(mark)
    ensures Kept([mark]) == ""
  {
    var s := [mark];
    assert s[1..] == "";
  }

  /** A mark between two texts is dropped. */
  lemma KeptAround(a: string, mark: char, b: string)
    requires !IsDigit(mark)
    ensures Kept(a + [mark] + b) == Kept(a) + Kept(b)
  {
    KeptConcat(a + [mark], b);
    KeptConcat(a, [mark]);
    KeptOfMark(mark);
  }

  lemma {:induction false} KeptOfGroupedHead(head: string)
    requires AllDigits(head)
    ensures Kept(GroupedHead(head)) == head
  {
    if |head| <= 2 {
      KeptOfDigits(head);
    } else {
      var shorter, pair := head[..|head| - 2], head[|head| - 2..];
      DigitsCut(head, |head| - 2);
      KeptOfGroupedHead(shorter);
      KeptAround(GroupedHead(shorter), ',', pair);
      KeptOfDigits(pair);
    }
  }

  lemma DigitsCut(s: string, n: nat)
    requires AllDigits(s) && n <= |s|
    ensures AllDigits(s[..n]) && AllDigits(s[n..]) && s[..n] + s[n..] == s
  {
  }

  lemma KeptOfGrouped(digits: string)
    requires AllDigits(digits)
    ensures Kept(Grouped(digits)) == digits
  {
    if |digits| <= 3 {
      KeptOfDigits(digits);
    } else {
      var head, tail := digits[..|digits| - 3], digits[|digits| - 3..];
      DigitsCut(digits, |digits| - 3);
      KeptOfGroupedHead(head);
      KeptAround(GroupedHead(head), ',', tail);
      KeptOfDigits(tail);
    }
  }

  lemma ValueOfTwo(digits: string, n: nat)
    requires AllDigits(digits) && n < 100
    ensures AllDigits(digits + TwoDigits(n)) && Value(digits + TwoDigits(n)) == Value(digits) * 100 + n
  {
    var all := digits + TwoDigits(n);
    assert all[..|all| - 1] == digits + [DigitChar(n / 10)];
    assert all[..|all| - 1][..|all| - 2] == digits;
  }

  /** Only the digits of the printed text are kept. */
  lemma KeptOfParts(sign: string, grouped: string, paise: string)
    requires sign == "" || sign == "-"
    ensures Kept(sign + [RUPEE] + grouped + "." + paise) == Kept(grouped) + Kept(paise)
  {
    var front := sign + [RUPEE] + grouped;
    assert Kept(front) == Kept(grouped) by {
      KeptAround(sign, RUPEE, grouped);
      if sign != "" { KeptOfMark('-'); }
    }
    KeptAround(front, '.', paise);
  }

  /** For every amount, reading the printed text gives the amount back. */
  lemma PrintedReadsBack(minor: int)
    ensures Read(Printed(minor)) == minor
  {
    var whole, paise := Digits(Abs(minor) / 100), TwoDigits(Abs(minor) % 100);
    DigitsReadBack(Abs(minor) / 100);
    KeptOfGrouped(whole);
    KeptOfParts(if minor < 0 then "-" else "", Grouped(whole), paise);
    KeptOfDigits(paise);
    ValueOfTwo(whole, Abs(minor) % 100);
    assert Abs(minor) / 100 * 100 + Abs(minor) % 100 == Abs(minor);
  }

  /** Where the point stands: before it a sign for a negative amount, the rupee
      sign and the whole rupees in their groups, after it exactly the two
      digits of the paise. */
  lemma PrintedPinsPoint(minor: int)
    ensures var text := Printed(minor);
      var point := |text| - 3;
      && point >= 2 && text[point] == '.'
      && IsDigit(text[point + 1]) && IsDigit(text[point + 2])
      && DigitValue(text[point + 1]) * 10 + DigitValue(text[point + 2]) == Abs(minor) % 100
      && (if minor < 0 then text[0] == '-' && text[1] == '\U{20B9}' else text[0] == '\U{20B9}')
      && var whole := text[if minor < 0 then 2 else 1..point];
         IndianGrouping(whole) && AllDigits(Kept(whole)) && Value(Kept(whole)) == Abs(minor) / 100
  {
    var digits := Digits(Abs(minor) / 100);
    var sign := if minor < 0 then "-" else "";
    var text := Printed(minor);
    CutPrinted(sign, Grouped(digits), TwoDigits(Abs(minor) % 100));
    PrintedIsIndian(minor);
    DigitsReadBack(Abs(minor) / 100);
    KeptOfGrouped(digits);
  }

  lemma CutPrinted(sign: string, whole: string, paise: string)
    ensures var text := sign + [RUPEE] + whole + "." + paise;
      && |text| == |sign| + 1 + |whole| + 1 + |paise|
      && text[..|sign|] == sign && text[|sign|] == RUPEE
      && text[|sign| + 1..|sign| + 1 + |whole|] == whole
      && text[|sign| + 1 + |whole|] == '.' && text[|sign| + 1 + |whole| + 1..] == paise
  {
  }

  lemma PrintingIsInjective(a: int, b: int)
    requires Printed(a) == Printed(b)
    ensures a == b
  {
    PrintedReadsBack(a);
    PrintedReadsBack(b);
  }

  /** A leading group of one or two digits, then groups of exactly two. */
  predicate IndianHead(s: string) {
    (1 <= |s| <= 2 && AllDigits(s)) ||
    (|s| >= 4 && s[|s| - 3] == ',' && AllDigits(s[|s| - 2..]) && IndianHead(s[..|s| - 3]))
  }

  /** And a last group of three, when there is more than one. */
  predicate IndianGrouping(s: string) {
    (1 <= |s| <= 3 && AllDigits(s)) ||
    (|s| >= 5 && s[|s| - 4] == ',' && AllDigits(s[|s| - 3..]) && IndianHead(s[..|s| - 4]))
  }

  lemma CutAtComma(front: string, group: string)
    ensures var s := front + "," + group;
      && s[..|s| - |group| - 1] == front && s[|s| - |group| - 1] == ',' && s[|s| - |group|..] == group
  {
  }

  lemma {:induction false} HeadIsIndian(head: string)
    requires head != "" && AllDigits(head)
    ensures IndianHead(GroupedHead(head))
  {
    if |head| > 2 {
      var shorter, pair := head[..|head| - 2], head[|head| - 2..];
      HeadIsIndian(shorter);
      DigitsCut(head, |head| - 2);
      CutAtComma(GroupedHead(shorter), pair);
    }
  }

  /** Every printed amount is grouped the Indian way. */
  lemma PrintedIsIndian(minor: int)
    ensures IndianGrouping(Grouped(Digits(Abs(minor) / 100)))
  {
    var digits := Digits(Abs(minor) / 100);
    DigitsReadBack(Abs(minor) / 100);
    if |digits| > 3 {
      var head, tail := digits[..|digits| - 3], digits[|digits| - 3..];
      HeadIsIndian(head);
      DigitsCut(digits, |digits| - 3);
      CutAtComma(GroupedHead(head), tail);
    }
  }
}
