/** Parsing of five-field cron expressions into sets of permitted values. */
module CronExpression {
  import opened Wrappers
  import opened CronSchedule

  // ----- Text helpers with the meaning of str.partition, str.split, str.isdigit and int -----

  function IndexOf(s: string, c: char): (i: nat)
    ensures i <= |s| && c !in s[..i] && (i < |s| ==> s[i] == c)
  {
    if s == "" || s[0] == c then 0 else 1 + IndexOf(s[1..], c)
  }

  datatype Parts = Parts(head: string, found: bool, tail: string)

  function Partition(s: string, c: char): Parts {
    var i := IndexOf(s, c);
    if i == |s| then Parts(s, false, "") else Parts(s[..i], true, s[i + 1..])
  }

  function Split(s: string, c: char): (parts: seq<string>)
    ensures |parts| > 0
    decreases |s|
  {
    var p := Partition(s, c);
    if p.found then [p.head] + Split(p.tail, c) else [s]
  }

  predicate IsDigit(c: char) {
    '0' <= c <= '9'
  }

  predicate IsDigits(s: string) {
    s != "" && AllDigits(s)
  }

  predicate AllDigits(s: string) {
    forall i | 0 <= i < |s| :: IsDigit(s[i])
  }

  function ToInt(s: string): (n: nat)
    requires AllDigits(s)
  {
    if s == "" then 0 else 10 * ToInt(s[..|s| - 1]) + (s[|s| - 1] as int - '0' as int)
  }

  // ----- One field -----

  datatype Range = Range(start: int, end: int, step: nat) {
    predicate OnStep(v: int) {
      step == 0 || (v - start) % step == 0
    }

    /** The values of range(start, end + 1, step). */
    function Values(): set<int> {
      set v: int {:trigger OnStep(v)} | start <= v <= end && OnStep(v)
    }
  }

  function Bounds(head: string, hasStep: bool, low: int, high: int): Result<(int, int)> {
    if head == "*" then Ok((low, high))
    else if '-' in head then
      var ends := Partition(head, '-');
      if IsDigits(ends.head) && IsDigits(ends.tail) then Ok((ToInt(ends.head), ToInt(ends.tail))) else Raised
    else if IsDigits(head) then Ok((ToInt(head), if hasStep then high else ToInt(head)))
    else Raised
  }

  /** One comma-separated part: `*`, `a`, `a-b`, each optionally stepped by `/n`. */
  function PartRange(part: string, low: int, high: int): (r: Result<Range>)
    ensures r.Ok? ==> low <= r.value.start <= r.value.end <= high && r.value.step > 0
  {
    var p := Partition(part, '/');
    if p.found && (!IsDigits(p.tail) || ToInt(p.tail) < 1) then Raised
    else match Bounds(p.head, p.found, low, high)
      case Raised => Raised
      case Ok(b) =>
        if low <= b.0 <= b.1 <= high then Ok(Range(b.0, b.1, if p.found then ToInt(p.tail) else 1)) else Raised
  }

  function FieldSet(parts: seq<string>, low: int, high: int): Result<set<int>> {
    if parts == [] then Ok({})
    else
      var last := |parts| - 1;
      match (FieldSet(parts[..last], low, high), PartRange(parts[last], low, high))
      case (Ok(values), Ok(range)) => Ok(values + range.Values())
      case _ => Raised
  }

  lemma {:induction false} FieldInRange(parts: seq<string>, low: int, high: int)
    ensures FieldSet(parts, low, high).Ok? && parts != [] ==> InRange(FieldSet(parts, low, high).value, low, high)
  {
    hide PartRange;
    if parts != [] {
      var last := |parts| - 1;
      FieldInRange(parts[..last], low, high);
      var range := PartRange(parts[last], low, high);
      if range.Ok? {
        assert range.value.OnStep(range.value.start);
        assert range.value.start in range.value.Values();
      }
    }
  }

  ghost predicate PermittedBy(parts: seq<string>, low: int, high: int, v: int, i: int) {
    0 <= i < |parts| && PartRange(parts[i], low, high).Ok? && v in PartRange(parts[i], low, high).value.Values()
  }

  ghost predicate BadPart(parts: seq<string>, low: int, high: int, i: int) {
    0 <= i < |parts| && PartRange(parts[i], low, high).Raised?
  }

  /** A field is rejected exactly when one of its parts is, and otherwise permits exactly what one of its parts permits. */
  lemma {:induction false} FieldMeaning(parts: seq<string>, low: int, high: int, v: int)
    ensures FieldSet(parts, low, high).Raised? <==> exists i :: BadPart(parts, low, high, i)
    ensures FieldSet(parts, low, high).Ok? ==>
              (v in FieldSet(parts, low, high).value <==> exists i :: PermittedBy(parts, low, high, v, i))
  {
    hide PartRange;
    if parts == [] {
      assert forall i :: !BadPart(parts, low, high, i) && !PermittedBy(parts, low, high, v, i);
    } else {
      var last := |parts| - 1;
      var front := parts[..last];
      FieldMeaning(front, low, high, v);
      hide Range.Values;
      forall i | i != last ensures BadPart(parts, low, high, i) == BadPart(front, low, high, i)
                           ensures PermittedBy(parts, low, high, v, i) == PermittedBy(front, low, high, v, i) {
        assert 0 <= i < last ==> front[i] == parts[i];
      }
      assert !BadPart(front, low, high, last) && !PermittedBy(front, low, high, v, last);
      assert BadPart(parts, low, high, last) == PartRange(parts[last], low, high).Raised?;
      assert PartRange(parts[last], low, high).Ok? ==>
          PermittedBy(parts, low, high, v, last) == (v in PartRange(parts[last], low, high).value.Values());
    }
  }

  method FieldValues(source: string, low: int, high: int) returns (r: Result<set<int>>)
    ensures r == Field(source, low, high)
    ensures r.Ok? ==> InRange(r.value, low, high)
  {
    var parts := Split(source, ',');
    var values: set<int> := {};
    for i := 0 to |parts|
      invariant FieldSet(parts[..i], low, high) == Ok(values)
    {
      assert parts[..i + 1][..i] == parts[..i];
      var range := PartRange(parts[i], low, high);
      if range.Raised? {
        assert BadPart(parts, low, high, i);
        FieldMeaning(parts, low, high, 0);
        return Raised;
      }
      values := values + range.value.Values();
    }
    assert parts[..|parts|] == parts;
    FieldInRange(parts, low, high);
    r := Ok(values);
  }

  // ----- The whole expression -----

  predicate IsSpace(c: char) {
    c in " \t\n\r"
  }

  function Words(s: string): (words: seq<string>)
    decreases |s|
  {
    if s == "" then []
    else if IsSpace(s[0]) then Words(s[1..])
    else
      var n := WordLength(s);
      [s[..n]] + Words(s[n..])
  }

  function WordLength(s: string): (n: nat)
    ensures n <= |s| && (s != "" && !IsSpace(s[0]) ==> n > 0)
  {
    if s == "" || IsSpace(s[0]) then 0 else 1 + WordLength(s[1..])
  }

  method Parse(expression: string) returns (r: Result<CronFields>)
    ensures r.Ok? ==>
      && ValidFields(r.value) && |Words(expression)| == 5
      && r.value.dayIsWildcard == (Words(expression)[2] == "*") && r.value.weekdayIsWildcard == (Words(expression)[4] == "*")
    ensures var w := Words(expression);
      r == if |w| != 5 then Raised
           else match (Field(w[0], 0, 59), Field(w[1], 0, 23), Field(w[2], 1, 31), Field(w[3], 1, 12), Field(w[4], 0, 6))
                case (Ok(a), Ok(b), Ok(c), Ok(d), Ok(e)) => Ok(CronFields(a, b, c, d, e, w[2] == "*", w[4] == "*"))
                case _ => Raised
  {
    var w := Words(expression);
    if |w| != 5 {
      return Raised;
    }
    var minutes := FieldValues(w[0], 0, 59);
    var hours := FieldValues(w[1], 0, 23);
    var days := FieldValues(w[2], 1, 31);
    var months := FieldValues(w[3], 1, 12);
    var weekdays := FieldValues(w[4], 0, 6);
    if minutes.Raised? || hours.Raised? || days.Raised? || months.Raised? || weekdays.Raised? {
      return Raised;
    }
    if w[2] == "*" {
      StarAllowsAll(1, 31);
    }
    if w[4] == "*" {
      StarAllowsAll(0, 6);
    }
    r := Ok(CronFields(minutes.value, hours.value, days.value, months.value, weekdays.value, w[2] == "*", w[4] == "*"));
  }

  function Field(source: string, low: int, high: int): Result<set<int>> {
    FieldSet(Split(source, ','), low, high)
  }

  lemma StarAllowsAll(low: int, high: int)
    requires low <= high
    ensures Field("*", low, high).Ok?
    ensures forall v | low <= v <= high :: v in Field("*", low, high).value
  {
    assert Split("*", ',') == ["*"] by { assert Partition("*", ',') == Parts("*", false, ""); }
    assert PartRange("*", low, high) == Ok(Range(low, high, 1)) by { assert Partition("*", '/') == Parts("*", false, ""); }
    assert ["*"][..0] == [];
    assert FieldSet(["*"], low, high) == Ok({} + Range(low, high, 1).Values());
    forall v | low <= v <= high ensures v in Range(low, high, 1).Values() {
      assert Range(low, high, 1).OnStep(v);
    }
  }

  // ----- Every set of permitted values can be written -----

  function Decimal(n: nat): (s: string) {
    if n < 10 then [('0' as int + n) as char] else Decimal(n / 10) + [('0' as int + n % 10) as char]
  }

  function Render(values: seq<nat>): string
    requires values != []
  {
    if |values| == 1 then Decimal(values[0]) else Decimal(values[0]) + "," + Render(values[1..])
  }

  lemma {:induction false} DecimalReads(n: nat)
    ensures IsDigits(Decimal(n)) && ToInt(Decimal(n)) == n
  {
    var s := Decimal(n);
    if n < 10 {
      assert s[..0] == "";
    } else {
      DecimalReads(n / 10);
      assert s[..|s| - 1] == Decimal(n / 10);
    }
  }

  lemma {:induction false} IndexOfAbsent(s: string, c: char, rest: string)
    requires c !in s
    ensures IndexOf(s, c) == |s| && IndexOf(s + [c] + rest, c) == |s|
  {
    if s != "" {
      IndexOfAbsent(s[1..], c, rest);
      assert (s + [c] + rest)[1..] == s[1..] + [c] + rest;
    }
  }

  lemma {:induction false} SplitRender(values: seq<nat>)
    requires values != []
    ensures Split(Render(values), ',') == Numerals(values)
  {
    var head := Decimal(values[0]);
    DecimalReads(values[0]);
    if |values| == 1 {
      IndexOfAbsent(head, ',', "");
    } else {
      IndexOfAbsent(head, ',', Render(values[1..]));
      SplitRender(values[1..]);
      assert (head + "," + Render(values[1..]))[|head| + 1..] == Render(values[1..]);
      assert (head + "," + Render(values[1..]))[..|head|] == head;
    }
  }

  lemma NumberRange(v: nat, low: int, high: int)
    requires low <= v <= high
    ensures PartRange(Decimal(v), low, high) == Ok(Range(v, v, 1))
  {
    DecimalReads(v);
    IndexOfAbsent(Decimal(v), '/', "");
    assert Decimal(v) != "*";
  }

  function Elements(values: seq<int>): set<int> {
    set v | v in values
  }

  lemma SingletonRange(v: int)
    ensures Range(v, v, 1).Values() == {v}
  {
    assert Range(v, v, 1).OnStep(v);
  }

  function Numerals(values: seq<nat>): seq<string> {
    seq(|values|, i requires 0 <= i < |values| => Decimal(values[i]))
  }

  lemma {:induction false} NumeralSet(values: seq<nat>, low: int, high: int)
    requires forall i | 0 <= i < |values| :: low <= values[i] <= high
    ensures FieldSet(Numerals(values), low, high) == Ok(Elements(values))
  {
    hide PartRange;
    hide Decimal;
    var numerals := Numerals(values);
    if values == [] {
      assert numerals == [] && Elements(values) == {};
    } else {
      var last := |values| - 1;
      var rest, v := values[..last], values[last];
      NumeralSet(rest, low, high);
      NumberRange(v, low, high);
      SingletonRange(v);
      hide Range.Values;
      assert numerals[..last] == Numerals(rest) && numerals[last] == Decimal(v);
      assert Elements(values) == Elements(rest) + {v} by { assert values == rest + [v]; }
    }
  }

  /** Writing any nonempty list of in-range values and parsing it back yields exactly those values. */
  lemma FieldRoundTrip(values: seq<nat>, low: int, high: int)
    requires values != [] && forall i | 0 <= i < |values| :: low <= values[i] <= high
    ensures Field(Render(values), low, high) == Ok(Elements(values))
  {
    SplitRender(values);
    NumeralSet(values, low, high);
  }
}
