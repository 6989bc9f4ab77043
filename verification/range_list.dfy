/** Range expressions of the manager script, such as "1,3,5-7". */
module RangeList {
  import opened Panel

  // ---- from characters to parts ----

  predicate IsDigit(c: char) {
    '0' <= c <= '9'
  }

  /** One or more digits and nothing else. */
  predicate IsNumber(s: string) {
    s != [] && forall i :: 0 <= i < |s| ==> IsDigit(s[i])
  }

  function Value(s: string): nat
    requires forall i :: 0 <= i < |s| ==> IsDigit(s[i])
  {
    if s == [] then 0 else 10 * Value(s[..|s| - 1]) + DigitValue(s[|s| - 1])
  }

  function DigitValue(c: char): nat
    requires IsDigit(c)
  {
    (c - '0') as nat
  }

  /** The fields between commas. */
  function Split(s: string): (fields: seq<string>)
    ensures fields != []
  {
    if s == [] then [""]
    else
      var init, c := Split(s[..|s| - 1]), s[|s| - 1];
      if c == ',' then init + [""] else init[..|init| - 1] + [init[|init| - 1] + [c]]
  }

  predicate IsSpace(c: char) {
    c == ' ' || ('\t' <= c <= '\r')
  }

  /** All blanks taken out, not only those at the ends. */
  function Strip(s: string): string {
    if s == [] then []
    else
      var init, c := Strip(s[..|s| - 1]), s[|s| - 1];
      if IsSpace(c) then init else init + [c]
  }

  /** The first place of a character, or the length. */
  function IndexOf(s: string, c: char): (i: nat)
    ensures i <= |s| && (i < |s| ==> s[i] == c) && forall j :: 0 <= j < i ==> s[j] != c
  {
    if s == [] then 0
    else
      var i := IndexOf(s[..|s| - 1], c);
      if i < |s| - 1 || s[i] == c then i else |s|
  }

  function Classify(part: string): Part {
    var dash := IndexOf(part, '-');
    if part == "" then Blank
    else if IsNumber(part) then Number(Value(part))
    else if dash < |part| && IsNumber(part[..dash]) && IsNumber(part[dash + 1..]) then
      Range(Value(part[..dash]), Value(part[dash + 1..]))
    else Malformed
  }

  function Parts(input: string): seq<Part> {
    var fields := Split(input);
    seq(|fields|, i requires 0 <= i < |fields| => Classify(Strip(fields[i])))
  }

  // ---- from parts to numbers ----

  /** One comma-separated part of the expression, blanks removed. */
  datatype Part = Blank | Number(n: nat) | Range(first: nat, last: nat) | Malformed

  function UpFrom(first: nat, count: nat): seq<nat> {
    seq(count, i requires 0 <= i => first + i)
  }

  /** What one part does to the numbers before it. */
  function AfterPart(numbers: seq<nat>, part: Part): Option<seq<nat>> {
    match part
    case Blank => Some(numbers)
    case Number(n) => Some(numbers + [n])
    case Range(first, end) => if first > end then None else Some(numbers + UpFrom(first, end - first + 1))
    case Malformed => None
  }

  /** The numbers of an expression, or nothing when some part is wrong or no number is named. */
  function Numbers(parts: seq<Part>): Option<seq<nat>> {
    if parts == [] then Some([])
    else
      var init, last := Numbers(parts[..|parts| - 1]), parts[|parts| - 1];
      if init == None then None else AfterPart(init.value, last)
  }

  lemma {:induction false} NumbersFails(parts: seq<Part>, n: nat)
    requires n <= |parts| && Numbers(parts[..n]) == None
    ensures Numbers(parts) == None
    decreases |parts| - n
  {
    if n == |parts| {
      assert parts[..n] == parts;
    } else {
      assert parts[..n + 1][..n] == parts[..n];
      NumbersFails(parts, n + 1);
    }
  }

  /** The part is of no known form, or a range that goes down. */
  predicate IsWrong(part: Part) {
    part.Malformed? || (part.Range? && part.first > part.last)
  }

  predicate Names(part: Part, n: nat) {
    (part.Number? && part.n == n) || (part.Range? && part.first <= n <= part.last)
  }

  /** Any wrong part spoils the whole expression; otherwise the numbers are those that some part names. */
  lemma {:induction false} NumbersAreNamed(parts: seq<Part>)
    ensures Numbers(parts).None? <==> exists i :: 0 <= i < |parts| && IsWrong(parts[i])
    ensures Numbers(parts).Some? ==>
              forall n: nat :: n in Numbers(parts).value <==> exists i :: 0 <= i < |parts| && Names(parts[i], n)
  {
    if parts != [] {
      var init, last := parts[..|parts| - 1], parts[|parts| - 1];
      NumbersAreNamed(init);
      assert forall i :: 0 <= i < |init| ==> init[i] == parts[i];
      assert IsWrong(last) ==> IsWrong(parts[|parts| - 1]);
      if Numbers(parts).Some? {
        forall n: nat ensures n in Numbers(parts).value <==> n in Numbers(init).value || Names(last, n) {
          AfterPartNames(Numbers(init).value, last, n);
        }
        forall n: nat ensures (exists i :: 0 <= i < |parts| && Names(parts[i], n)) <==>
                              (exists i :: 0 <= i < |init| && Names(init[i], n)) || Names(last, n)
        {
          if i :| 0 <= i < |parts| && Names(parts[i], n) {
            assert i < |init| ==> Names(init[i], n);
          }
          if i :| 0 <= i < |init| && Names(init[i], n) {
            assert Names(parts[i], n);
          }
          assert Names(last, n) ==> Names(parts[|parts| - 1], n);
        }
      }
    }
  }

  lemma AfterPartNames(numbers: seq<nat>, part: Part, n: nat)
    requires !IsWrong(part)
    ensures AfterPart(numbers, part).Some?
    ensures n in AfterPart(numbers, part).value <==> n in numbers || Names(part, n)
  {
    if part.Range? && Names(part, n) {
      assert UpFrom(part.first, part.last - part.first + 1)[n - part.first] == n;
    }
  }

  /** The numbers of an expression in order; nothing for a wrong part or when no number is named. */
  method ParseRangeList(input: string) returns (result: Option<seq<nat>>)
    ensures result == if Numbers(Parts(input)) == Some([]) then None else Numbers(Parts(input))
  {
    var fields := Split(input);
    ghost var parts := Parts(input);
    assert parts[..0] == [] && parts[..|parts|] == parts;
    var numbers: seq<nat> := [];
    for p := 0 to |fields|
      invariant Numbers(parts[..p]) == Some(numbers)
    {
      var before := numbers;
      var part := Classify(Strip(fields[p]));
      PartsStep(parts, p);
      var ok: bool;
      numbers, ok := AddPart(before, part);
      if !ok {
        NumbersFails(parts, p + 1);
        return None;
      }
    }
    result := if numbers == [] then None else Some(numbers);
  }

  lemma PartsStep(parts: seq<Part>, p: nat)
    requires p < |parts|
    ensures Numbers(parts[..p + 1]) ==
            if Numbers(parts[..p]) == None then None else AfterPart(Numbers(parts[..p]).value, parts[p])
  {
    assert parts[..p + 1][..p] == parts[..p];
  }

  method AddPart(before: seq<nat>, part: Part) returns (numbers: seq<nat>, ok: bool)
    ensures AfterPart(before, part) == if ok then Some(numbers) else None
  {
    numbers, ok := before, true;
    match part {
      case Blank =>
      case Number(n) => numbers := numbers + [n];
      case Range(first, last) =>
        if first > last {
          ok := false;
        } else {
          numbers := AppendRange(before, first, last);
        }
      case Malformed => ok := false;
    }
  }

  method AppendRange(before: seq<nat>, first: nat, last: nat) returns (numbers: seq<nat>)
    requires first <= last
    ensures numbers == before + UpFrom(first, last - first + 1)
  {
    numbers := before;
    for i := first to last + 1
      invariant numbers == before + UpFrom(first, i - first)
    {
      assert UpFrom(first, i + 1 - first) == UpFrom(first, i - first) + [i];
      numbers := numbers + [i];
    }
  }

  // ---- writing an expression down and reading it back ----

  /** A number or an ascending range. */
  predicate Proper(part: Part) {
    part.Number? || (part.Range? && part.first <= part.last)
  }

  function Decimal(n: nat): (s: string)
    ensures IsNumber(s) && Value(s) == n
  {
    if n < 10 then ['0' + n as char]
    else
      var s := Decimal(n / 10) + ['0' + (n % 10) as char];
      assert s[..|s| - 1] == Decimal(n / 10);
      s
  }

  function Render(part: Part): string
    requires Proper(part)
  {
    if part.Number? then Decimal(part.n) else Decimal(part.first) + "-" + Decimal(part.last)
  }

  function RenderAll(parts: seq<Part>): string
    requires forall i :: 0 <= i < |parts| ==> Proper(parts[i])
  {
    if parts == [] then ""
    else if |parts| == 1 then Render(parts[0])
    else RenderAll(parts[..|parts| - 1]) + "," + Render(parts[|parts| - 1])
  }

  predicate Plain(s: string) {
    forall i :: 0 <= i < |s| ==> IsDigit(s[i]) || s[i] == '-'
  }

  lemma {:induction false} StripPlain(s: string)
    requires Plain(s)
    ensures Strip(s) == s
  {
    if s != [] {
      StripPlain(s[..|s| - 1]);
    }
  }

  lemma RangeReads(a: string, b: string)
    requires IsNumber(a) && IsNumber(b)
    ensures Classify(a + "-" + b) == Range(Value(a), Value(b))
  {
    var s := a + "-" + b;
    var dash := IndexOf(s, '-');
    assert s[|a|] == '-';
    assert forall i :: 0 <= i < |a| ==> s[i] == a[i];
    assert dash == |a| && s[..|a|] == a && s[|a| + 1..] == b;
  }

  lemma RenderReads(part: Part)
    requires Proper(part)
    ensures Plain(Render(part)) && Classify(Strip(Render(part))) == part
  {
    if part.Range? {
      RangeReads(Decimal(part.first), Decimal(part.last));
    }
    StripPlain(Render(part));
  }

  lemma {:induction false} SplitPlain(s: string, tail: string)
    requires Plain(tail)
    ensures Split(s + tail) == Split(s)[..|Split(s)| - 1] + [Split(s)[|Split(s)| - 1] + tail]
  {
    if tail == [] {
      var last := Split(s)[|Split(s)| - 1];
      assert s + tail == s && last + tail == last;
    } else {
      var init := tail[..|tail| - 1];
      assert (s + tail)[..|s + tail| - 1] == s + init;
      SplitPlain(s, init);
      assert (s + tail)[|s + tail| - 1] == tail[|tail| - 1] != ',';
      var fields := Split(s);
      var last := fields[|fields| - 1];
      var grown := Split(s + init);
      assert grown[..|grown| - 1] == fields[..|fields| - 1] && grown[|grown| - 1] == last + init;
      assert last + init + [tail[|tail| - 1]] == last + tail;
    }
  }

  lemma SplitComma(s: string, tail: string)
    requires Plain(tail)
    ensures Split(s + "," + tail) == Split(s) + [tail]
  {
    assert (s + ",")[..|s|] == s && (s + ",")[|s|] == ',';
    assert Split(s + ",") == Split(s) + [""];
    SplitPlain(s + ",", tail);
    assert "" + tail == tail;
  }

  /** Every list of proper parts, written with commas between them, is read back as it was. */
  lemma {:induction false} RenderedIsReadBack(parts: seq<Part>)
    requires parts != [] && forall i :: 0 <= i < |parts| ==> Proper(parts[i])
    ensures Parts(RenderAll(parts)) == parts
  {
    var init, last := parts[..|parts| - 1], parts[|parts| - 1];
    assert parts == init + [last];
    RenderReads(last);
    if |parts| == 1 {
      SplitPlain("", Render(last));
      assert "" + Render(last) == Render(last);
      assert Split(RenderAll(parts)) == [Render(last)];
    } else {
      RenderedIsReadBack(init);
      SplitComma(RenderAll(init), Render(last));
      PartsAppend(RenderAll(init), RenderAll(parts), Render(last));
    }
  }

  lemma PartsAppend(before: string, after: string, field: string)
    requires Split(after) == Split(before) + [field]
    ensures Parts(after) == Parts(before) + [Classify(Strip(field))]
  {}

  // ---- blanks and wrong parts ----

  predicate AllSpace(s: string) {
    forall i :: 0 <= i < |s| ==> s[i] in {' ', '\t', '\n', '\r', '\U{0B}', '\U{0C}'}
  }

  lemma {:induction false} StripJoins(s: string, tail: string)
    ensures Strip(s + tail) == Strip(s) + Strip(tail)
  {
    if tail == [] {
      assert s + tail == s && Strip(s) + [] == Strip(s);
    } else {
      assert (s + tail)[..|s + tail| - 1] == s + tail[..|tail| - 1];
      StripJoins(s, tail[..|tail| - 1]);
    }
  }

  lemma {:induction false} SpaceStrips(s: string)
    requires AllSpace(s)
    ensures Strip(s) == ""
  {
    if s != [] {
      SpaceStrips(s[..|s| - 1]);
    }
  }

  /** Blanks around a part, and around the dash of a range, make no difference. */
  lemma BlanksMakeNoDifference(a: string, b: string, part: string, before: string, after: string)
    requires part == a + b && AllSpace(before) && AllSpace(after)
    ensures Strip(before + a + after + b) == Strip(part)
  {
    SpaceStrips(before);
    SpaceStrips(after);
    StripJoins(before, a);
    StripJoins(before + a, after);
    StripJoins(before + a + after, b);
    StripJoins(a, b);
    assert "" + Strip(a) == Strip(a) && Strip(a) + "" == Strip(a);
  }

  ghost predicate IsRange(s: string) {
    exists i :: 0 <= i < |s| && s[i] == '-' && IsNumber(s[..i]) && IsNumber(s[i + 1..])
  }

  /** A part without blanks is wrong exactly when it is neither empty nor a number nor two numbers around a dash. */
  lemma MalformedExactly(part: string)
    ensures Classify(part).Malformed? <==> part != "" && !IsNumber(part) && !IsRange(part)
  {
    if i :| 0 <= i < |part| && part[i] == '-' && IsNumber(part[..i]) && IsNumber(part[i + 1..]) {
      forall j | 0 <= j < i ensures part[j] != '-' {
        assert IsDigit(part[..i][j]);
      }
      assert IndexOf(part, '-') == i;
    }
  }

  /** One wrong field makes the whole expression fail. */
  lemma WrongFieldFails(input: string, i: nat)
    requires i < |Split(input)|
    requires var part := Strip(Split(input)[i]); part != "" && !IsNumber(part) && !IsRange(part)
    ensures Numbers(Parts(input)) == None
  {
    MalformedExactly(Strip(Split(input)[i]));
    NumbersAreNamed(Parts(input));
    assert IsWrong(Parts(input)[i]);
  }

  /** Fields with a comma after each. */
  function WithCommas(fields: seq<string>): string {
    if fields == [] then "" else WithCommas(fields[..|fields| - 1]) + fields[|fields| - 1] + ","
  }

  /** Fields with a comma between each two. */
  function Commas(fields: seq<string>): string
    requires fields != []
  {
    WithCommas(fields[..|fields| - 1]) + fields[|fields| - 1]
  }

  /** The fields, joined by commas again, are the expression, and none of them contains a comma. */
  lemma {:induction false} SplitIsExact(s: string)
    ensures Commas(Split(s)) == s
    ensures forall i :: 0 <= i < |Split(s)| ==> ',' !in Split(s)[i]
  {
    if s != [] {
      var init, c := s[..|s| - 1], s[|s| - 1];
      SplitIsExact(init);
      assert s == init + [c];
      var before := Split(init);
      if c == ',' {
        assert (before + [""])[..|before|] == before;
        assert Commas(before + [""]) == WithCommas(before) + "" == Commas(before) + ",";
      } else {
        var front, last := before[..|before| - 1], before[|before| - 1];
        assert (front + [last + [c]])[..|front|] == front;
        Shift(WithCommas(front), last, c);
      }
    }
  }

  lemma Shift(front: string, last: string, c: char)
    ensures front + (last + [c]) == front + last + [c]
  {}
}
