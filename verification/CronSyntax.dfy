/** What the text of a cron expression permits: every form of a part, nothing but those forms, and five words however
    they are spaced. */
module CronSyntax {
  import opened Wrappers
  import opened CronSchedule
  import opened CronExpression

  // ----- Numerals -----

  function Zeros(n: nat): string {
    seq(n, _ => '0')
  }

  lemma {:induction false} LeadingZero(s: string)
    requires AllDigits(s)
    ensures AllDigits("0" + s) && ToInt("0" + s) == ToInt(s)
    decreases |s|
  {
    if s == "" {
      assert "0"[..0] == "";
    } else {
      LeadingZero(s[..|s| - 1]);
      assert ("0" + s)[..|s|] == "0" + s[..|s| - 1];
    }
  }

  /** A numeral with any number of leading zeros reads as its number. */
  lemma {:induction false} NumeralReads(zeros: nat, n: nat)
    ensures IsDigits(Zeros(zeros) + Decimal(n)) && ToInt(Zeros(zeros) + Decimal(n)) == n
  {
    if zeros == 0 {
      DecimalReads(n);
      assert Zeros(0) + Decimal(n) == Decimal(n);
    } else {
      NumeralReads(zeros - 1, n);
      LeadingZero(Zeros(zeros - 1) + Decimal(n));
      assert Zeros(zeros) + Decimal(n) == "0" + (Zeros(zeros - 1) + Decimal(n));
    }
  }

  // ----- Parts -----

  /** What a part ranges over, before its step. */
  datatype Base = Star | Single(x: string) | Span(x: string, y: string)

  predicate Plain(base: Base, step: Option<string>) {
    && (base.Single? ==> IsDigits(base.x)) && (base.Span? ==> IsDigits(base.x) && IsDigits(base.y))
    && (step.Some? ==> IsDigits(step.value))
  }

  function BaseText(base: Base): string {
    match base
    case Star => "*"
    case Single(x) => x
    case Span(x, y) => x + "-" + y
  }

  function Text(base: Base, step: Option<string>): string {
    BaseText(base) + if step.Some? then "/" + step.value else ""
  }

  function First(base: Base, low: int): int
    requires Plain(base, None)
  {
    if base.Star? then low else ToInt(base.x)
  }

  /** A single number with a step ranges to the end of the field. */
  function Final(base: Base, stepped: bool, high: int): int
    requires Plain(base, None)
  {
    match base
    case Star => high
    case Single(x) => if stepped then high else ToInt(x)
    case Span(_, y) => ToInt(y)
  }

  lemma NoMark(s: string, c: char)
    requires AllDigits(s) && !IsDigit(c)
    ensures c !in s
  {
  }

  lemma PartitionText(head: string, c: char, tail: string)
    requires c !in head
    ensures Partition(head + [c] + tail, c) == Parts(head, true, tail) && Partition(head, c) == Parts(head, false, "")
  {
    IndexOfAbsent(head, c, tail);
    var s := head + [c] + tail;
    assert s[..|head|] == head && s[|head| + 1..] == tail;
  }

  lemma BaseBounds(base: Base, stepped: bool, low: int, high: int)
    requires Plain(base, None)
    ensures '/' !in BaseText(base) && Bounds(BaseText(base), stepped, low, high) == Ok((First(base, low), Final(base, stepped, high)))
  {
    match base
    case Star =>
    case Single(x) =>
      NoMark(x, '/');
      NoMark(x, '-');
      assert IsDigit(x[0]);
    case Span(x, y) =>
      NoMark(x, '/');
      NoMark(y, '/');
      NoMark(x, '-');
      PartitionText(x, '-', y);
      assert x + ['-'] + y == x + "-" + y;
      assert (x + "-" + y)[|x|] == '-';
      assert x + "-" + y != "*" by { assert IsDigit((x + "-" + y)[0]); }
  }

  /** A part is refused exactly when its step is zero or its bounds are out of order or out of range; otherwise it
      permits its first number and every further one a whole number of steps on, up to its last. */
  lemma PartMeans(base: Base, step: Option<string>, low: int, high: int, v: int)
    requires Plain(base, step)
    ensures var r := PartRange(Text(base, step), low, high); var n := if step.Some? then ToInt(step.value) else 1;
      && (r.Raised? <==> n == 0 || !(low <= First(base, low) <= Final(base, step.Some?, high) <= high))
      && (r.Ok? ==> (v in r.value.Values() <==> v <= Final(base, step.Some?, high) && exists k: nat :: v == First(base, low) + k * n))
  {
    BaseBounds(base, step.Some?, low, high);
    if step.Some? {
      PartitionText(BaseText(base), '/', step.value);
      assert BaseText(base) + ['/'] + step.value == Text(base, step);
    } else {
      PartitionText(BaseText(base), '/', "");
      assert BaseText(base) + "" == BaseText(base);
    }
    hide Partition;
    hide Bounds;
    hide BaseText;
    hide First;
    hide Final;
    var r := PartRange(Text(base, step), low, high);
    if r.Ok? {
      RangeMeans(r.value, v);
      hide Range.Values;
    }
  }

  lemma RangeMeans(r: Range, v: int)
    requires r.step > 0
    ensures v in r.Values() <==> v <= r.end && exists k: nat :: v == r.start + k * r.step
  {
    if v in r.Values() {
      assert r.OnStep(v);
      QuotientNonNegative(v - r.start, r.step);
      PeriodsBracket(v - r.start, r.step);
      var k: nat := (v - r.start) / r.step;
      assert v == r.start + k * r.step;
    }
    if k: nat :| v == r.start + k * r.step && v <= r.end {
      MultipleOnStep(v - r.start, k, r.step);
      assert r.OnStep(v);
    }
  }

  lemma MultipleOnStep(x: int, k: nat, step: int)
    requires step > 0 && x == k * step
    ensures x >= 0 && x % step == 0
  {
    Calendar.DivUnique(x, step, k, 0);
  }

  lemma PartitionJoins(s: string, c: char)
    ensures var p := Partition(s, c); s == p.head + if p.found then [c] + p.tail else ""
  {
  }

  /** Nothing but these forms is accepted. */
  lemma OnlyTheseForms(part: string, low: int, high: int) returns (base: Base, step: Option<string>)
    requires PartRange(part, low, high).Ok?
    ensures Plain(base, step) && part == Text(base, step)
  {
    var p := Partition(part, '/');
    PartitionJoins(part, '/');
    PartitionJoins(p.head, '-');
    hide Partition;
    step := if p.found then Some(p.tail) else None;
    if p.head == "*" {
      base := Star;
    } else if '-' in p.head {
      var ends := Partition(p.head, '-');
      base := Span(ends.head, ends.tail);
      assert ends.found by { PartitionFinds(p.head, '-'); }
    } else {
      base := Single(p.head);
    }
  }

  lemma PartitionFinds(s: string, c: char)
    requires c in s
    ensures Partition(s, c).found
  {
    assert s[..|s|] == s;
  }

  // ----- Words -----

  predicate AllSpace(s: string) {
    forall i | 0 <= i < |s| :: IsSpace(s[i])
  }

  predicate IsWord(s: string) {
    s != "" && forall i | 0 <= i < |s| :: !IsSpace(s[i])
  }

  /** Words, each after white space, and white space at the end. */
  function Spaced(words: seq<string>, gaps: seq<string>, end: string): string
    requires |gaps| == |words|
  {
    if words == [] then end else gaps[0] + words[0] + Spaced(words[1..], gaps[1..], end)
  }

  lemma {:induction false} SkipSpace(gap: string, rest: string)
    requires AllSpace(gap)
    ensures Words(gap + rest) == Words(rest)
    decreases |gap|
  {
    if gap == "" {
      assert gap + rest == rest;
    } else {
      assert IsSpace(gap[0]);
      assert (gap + rest)[1..] == gap[1..] + rest;
      SkipSpace(gap[1..], rest);
    }
  }

  lemma {:induction false} WordEnds(word: string, rest: string)
    requires (forall i | 0 <= i < |word| :: !IsSpace(word[i])) && (rest != "" ==> IsSpace(rest[0]))
    ensures WordLength(word + rest) == |word|
    decreases |word|
  {
    if word == "" {
      assert word + rest == rest;
    } else {
      assert (word + rest)[1..] == word[1..] + rest;
      WordEnds(word[1..], rest);
    }
  }

  lemma TakeWord(word: string, rest: string)
    requires IsWord(word) && (rest != "" ==> IsSpace(rest[0]))
    ensures Words(word + rest) == [word] + Words(rest)
  {
    WordEnds(word, rest);
    assert !IsSpace((word + rest)[0]);
    assert (word + rest)[..|word|] == word && (word + rest)[|word|..] == rest;
    hide WordLength;
  }

  /** However words are spaced, they are what is read. */
  lemma {:induction false} WordsAreRead(words: seq<string>, gaps: seq<string>, end: string)
    requires |gaps| == |words| && AllSpace(end)
    requires forall i | 0 <= i < |words| :: IsWord(words[i]) && AllSpace(gaps[i]) && (i > 0 ==> gaps[i] != "")
    ensures Words(Spaced(words, gaps, end)) == words
    decreases |words|
  {
    if words == [] {
      SkipSpace(end, "");
      assert end + "" == end;
    } else {
      var rest := Spaced(words[1..], gaps[1..], end);
      WordsAreRead(words[1..], gaps[1..], end);
      assert gaps[0] + words[0] + rest == gaps[0] + (words[0] + rest);
      SkipSpace(gaps[0], words[0] + rest);
      SpacedStarts(words[1..], gaps[1..], end);
      TakeWord(words[0], rest);
    }
  }

  lemma SpacedStarts(words: seq<string>, gaps: seq<string>, end: string)
    requires |gaps| == |words| && AllSpace(end) && (words != [] ==> gaps[0] != "" && AllSpace(gaps[0]))
    ensures Spaced(words, gaps, end) != "" ==> IsSpace(Spaced(words, gaps, end)[0])
  {
  }
}
