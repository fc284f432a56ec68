/** The comment a position carries at the broker, from which a restarted engine rebuilds what it
    managed. Texts are sequences of characters; numbers are read the way the platform reads
    invariant integers: surrounding white space and one sign are allowed. */
module CommentCodec {
  import opened Common
  import opened Sums

  // ----- splitting and joining ------------------------------------------------------------

  function Split(s: string, sep: char): (parts: seq<string>)
    ensures |parts| >= 1
  {
    if s == "" then [""]
    else
      var rest := Split(s[1..], sep);
      if s[0] == sep then [""] + rest else [[s[0]] + rest[0]] + rest[1..]
  }

  function Join(parts: seq<string>, sep: char): string {
    if parts == [] then "" else if |parts| == 1 then parts[0] else parts[0] + [sep] + Join(parts[1..], sep)
  }

  lemma {:induction false} SplitPlain(s: string, sep: char)
    requires sep !in s
    ensures Split(s, sep) == [s]
  {
    if s != "" {
      SplitPlain(s[1..], sep);
      assert [s[0]] + s[1..] == s;
    }
  }

  lemma {:induction false} SplitFirst(a: string, b: string, sep: char)
    ensures Split(a + [sep] + b, sep) == Split(a, sep) + Split(b, sep)
  {
    var whole := a + [sep] + b;
    if a == "" {
      assert whole[1..] == b;
    } else {
      SplitFirst(a[1..], b, sep);
      assert whole[1..] == a[1..] + [sep] + b;
      FirstPart(Split(a[1..], sep), Split(b, sep), a[0]);
    }
  }

  lemma FirstPart(v: seq<string>, w: seq<string>, c: char)
    requires v != []
    ensures [[c] + (v + w)[0]] + (v + w)[1..] == [[c] + v[0]] + v[1..] + w
    ensures [""] + (v + w) == [""] + v + w
  {
    assert (v + w)[1..] == v[1..] + w;
  }

  /** Splitting undoes joining when no part holds the separator. */
  lemma {:induction false} SplitJoin(parts: seq<string>, sep: char)
    requires parts != [] && forall p | p in parts :: sep !in p
    ensures Split(Join(parts, sep), sep) == parts
  {
    SplitPlain(parts[0], sep);
    if |parts| > 1 {
      SplitJoin(parts[1..], sep);
      SplitFirst(parts[0], Join(parts[1..], sep), sep);
    }
  }

  lemma {:induction false} SplitMore(s: string, sep: char)
    ensures |Split(s, sep)| == 1 <==> sep !in s
  {
    if s != "" { SplitMore(s[1..], sep); }
  }

  lemma {:induction false} PartsArePlain(s: string, sep: char)
    ensures forall p | p in Split(s, sep) :: sep !in p
  {
    if s != "" { PartsArePlain(s[1..], sep); }
  }

  /** A part that holds the separator makes the whole split into more parts than were joined. */
  lemma {:induction false} JoinedCount(parts: seq<string>, sep: char)
    requires parts != []
    ensures |Split(Join(parts, sep), sep)| >= |parts|
    ensures (exists p | p in parts :: sep in p) ==> |Split(Join(parts, sep), sep)| > |parts|
  {
    SplitMore(parts[0], sep);
    if |parts| > 1 {
      JoinedCount(parts[1..], sep);
      SplitFirst(parts[0], Join(parts[1..], sep), sep);
    }
  }

  // ----- numbers --------------------------------------------------------------------------

  /** What reading a number can come to. */
  datatype Read<+T> = Ok(value: T) | BadFormat | Overflow {
    predicate IsFailure() { !Ok? }
    function PropagateFailure<U>(): Read<U>
      requires IsFailure()
    {
      if BadFormat? then BadFormat else Overflow
    }
    function Extract(): T
      requires Ok?
    {
      value
    }
  }

  const LONG_MIN := -0x8000_0000_0000_0000
  const LONG_MAX := 0x7FFF_FFFF_FFFF_FFFF
  const INT_MIN := -0x8000_0000
  const INT_MAX := 0x7FFF_FFFF

  predicate IsDigit(c: char) { '0' <= c <= '9' }

  predicate IsSpace(c: char) { c == ' ' || '\t' <= c <= '\r' }

  function Digit(d: nat): char
    requires d < 10
  {
    "0123456789"[d]
  }

  function DigitValue(c: char): nat
    requires IsDigit(c)
  {
    c as int - '0' as int
  }

  function FormatNat(n: nat): string {
    if n < 10 then [Digit(n)] else FormatNat(n / 10) + [Digit(n % 10)]
  }

  function Format(n: int): string { if n < 0 then "-" + FormatNat(-n) else FormatNat(n) }

  predicate Digits(s: string) { s != "" && forall i | 0 <= i < |s| :: IsDigit(s[i]) }

  function Value(s: string): (n: int)
    requires Digits(s)
    ensures n >= 0
  {
    var last := DigitValue(s[|s| - 1]);
    if |s| == 1 then last else Value(s[..|s| - 1]) * 10 + last
  }

  lemma {:induction false} ValueOfFormat(n: nat)
    ensures Digits(FormatNat(n)) && Value(FormatNat(n)) == n
  {
    if n >= 10 {
      ValueOfFormat(n / 10);
      OneMoreDigit(FormatNat(n / 10), n % 10);
    }
  }

  lemma OneMoreDigit(s: string, d: nat)
    requires d < 10 && Digits(s)
    ensures Digits(s + [Digit(d)]) && Value(s + [Digit(d)]) == Value(s) * 10 + d
  {
    assert (s + [Digit(d)])[..|s|] == s;
  }

  function TrimStart(s: string): string { if s != "" && IsSpace(s[0]) then TrimStart(s[1..]) else s }

  function TrimEnd(s: string): string {
    if s != "" && IsSpace(s[|s| - 1]) then TrimEnd(s[..|s| - 1]) else s
  }

  function ReadNumber(s: string, low: int, high: int): Read<int> {
    var t := TrimEnd(TrimStart(s));
    var signed := t != "" && (t[0] == '-' || t[0] == '+');
    var digits := if signed then t[1..] else t;
    if !Digits(digits) then BadFormat
    else
      var value: int := if signed && t[0] == '-' then -Value(digits) else Value(digits);
      if low <= value <= high then Ok(value) else Overflow
  }

  lemma TrimPlain(s: string)
    requires s != "" && !IsSpace(s[0]) && !IsSpace(s[|s| - 1])
    ensures TrimEnd(TrimStart(s)) == s
  {
  }

  lemma ReadDigits(s: string, low: int, high: int)
    requires Digits(s)
    ensures ReadNumber(s, low, high) == if low <= Value(s) <= high then Ok(Value(s)) else Overflow
    ensures ReadNumber("-" + s, low, high) == if low <= -Value(s) <= high then Ok(-Value(s)) else Overflow
  {
    assert IsDigit(s[0]) && IsDigit(s[|s| - 1]);
    TrimPlain(s);
    TrimPlain("-" + s);
    assert ("-" + s)[1..] == s;
  }

  /** Reading back a formatted number gives the number, or an overflow outside the width. */
  lemma ReadFormat(n: int, low: int, high: int)
    ensures ReadNumber(Format(n), low, high) == if low <= n <= high then Ok(n) else Overflow
  {
    ValueOfFormat(if n < 0 then -n else n);
    ReadDigits(FormatNat(if n < 0 then -n else n), low, high);
  }

  /** Blanks, tabs and line ends around a number do not matter, nor does a plus before it. */
  lemma ReadPadded(before: string, text: string, after: string, low: int, high: int)
    requires forall i | 0 <= i < |before| :: before[i] in " \t\n\r" || before[i] as int in {11, 12}
    requires forall i | 0 <= i < |after| :: after[i] in " \t\n\r" || after[i] as int in {11, 12}
    requires Digits(text)
    ensures ReadNumber(before + text + after, low, high) == ReadNumber(text, low, high)
    ensures ReadNumber(before + "+" + text + after, low, high) == ReadNumber(text, low, high)
    ensures ReadNumber(before + "-" + text + after, low, high) == ReadNumber("-" + text, low, high)
  {
    assert IsDigit(text[0]) && IsDigit(text[|text| - 1]);
    TrimPadded(before, text, after);
    TrimPadded(before, "+" + text, after);
    TrimPadded(before, "-" + text, after);
    TrimPlain(text);
    TrimPlain("-" + text);
    assert before + "+" + text + after == before + ("+" + text) + after;
    assert before + "-" + text + after == before + ("-" + text) + after;
    assert ("+" + text)[1..] == text;
  }

  lemma {:induction false} TrimPadded(before: string, s: string, after: string)
    requires forall i | 0 <= i < |before| :: IsSpace(before[i])
    requires forall i | 0 <= i < |after| :: IsSpace(after[i])
    requires s != "" && !IsSpace(s[0]) && !IsSpace(s[|s| - 1])
    ensures TrimEnd(TrimStart(before + s + after)) == s
    decreases |before| + |after|
  {
    if before != "" {
      assert (before + s + after)[1..] == before[1..] + s + after;
      TrimPadded(before[1..], s, after);
    } else if after != "" {
      assert before + s + after == s + after && (s + after)[..|s + after| - 1] == s + after[..|after| - 1];
      assert TrimStart(s + after) == s + after;
      TrimPadded("", s, after[..|after| - 1]);
      assert "" + s + after[..|after| - 1] == s + after[..|after| - 1];
      assert TrimStart(s + after[..|after| - 1]) == s + after[..|after| - 1];
    } else {
      assert before + s + after == s;
    }
  }

  lemma FormatIsPlain(n: int)
    ensures '|' !in Format(n) && ',' !in Format(n) && Format(n) != ""
  {
    ValueOfFormat(if n < 0 then -n else n);
    var d := FormatNat(if n < 0 then -n else n);
    forall i | 0 <= i < |d| ensures d[i] != '|' && d[i] != ',' { assert IsDigit(d[i]); }
  }

  function Formats(v: seq<int>): seq<string> { seq(|v|, i requires 0 <= i < |v| => Format(v[i])) }

  function ListText(v: seq<int>): string { Join(Formats(v), ',') }

  /** Numbers are read one after the other; the first that cannot be read decides. */
  function Prepend(first: Read<int>, rest: Read<seq<int>>): Read<seq<int>> {
    match first
    case BadFormat => BadFormat
    case Overflow => Overflow
    case Ok(n) => if rest.Ok? then Ok([n] + rest.value) else rest
  }

  function ReadAll(parts: seq<string>, low: int, high: int): Read<seq<int>> {
    if parts == [] then Ok([]) else Prepend(ReadNumber(parts[0], low, high), ReadAll(parts[1..], low, high))
  }

  function ReadList(text: string, low: int, high: int): Read<seq<int>> { ReadAll(Split(text, ','), low, high) }

  predicate Within(v: seq<int>, low: int, high: int) { forall i | 0 <= i < |v| :: low <= v[i] <= high }

  lemma {:induction false} ReadAllOf(parts: seq<string>, v: seq<int>, low: int, high: int)
    requires |parts| == |v| && forall i | 0 <= i < |v| :: ReadNumber(parts[i], low, high) == Ok(v[i])
    ensures ReadAll(parts, low, high) == Ok(v)
  {
    if v != [] {
      ReadAllOf(parts[1..], v[1..], low, high);
      assert [v[0]] + v[1..] == v;
    }
  }

  lemma ReadAllFormats(v: seq<int>, low: int, high: int)
    requires Within(v, low, high)
    ensures ReadAll(Formats(v), low, high) == Ok(v)
  {
    forall i | 0 <= i < |v| ensures ReadNumber(Formats(v)[i], low, high) == Ok(v[i]) {
      ReadFormat(v[i], low, high);
    }
    ReadAllOf(Formats(v), v, low, high);
  }

  /** A list of numbers is read back as it was; the empty list is not a list. */
  lemma ReadListText(v: seq<int>, low: int, high: int)
    requires Within(v, low, high)
    ensures ReadList(ListText(v), low, high) == if v == [] then BadFormat else Ok(v)
  {
    if v == [] {
      assert ListText(v) == "" && Split("", ',') == [""];
    } else {
      forall p | p in Formats(v) ensures ',' !in p {
        var i :| 0 <= i < |v| && p == Format(v[i]);
        FormatIsPlain(v[i]);
      }
      SplitJoin(Formats(v), ',');
      ReadAllFormats(v, low, high);
    }
  }

  lemma {:induction false} JoinHas(parts: seq<string>, sep: char, c: char)
    requires c != sep && forall p | p in parts :: c !in p
    ensures c !in Join(parts, sep)
  {
    if |parts| > 1 { JoinHas(parts[1..], sep, c); }
  }

  lemma ListIsPlain(v: seq<int>)
    ensures '|' !in ListText(v)
  {
    forall p | p in Formats(v) ensures '|' !in p {
      var i :| 0 <= i < |v| && p == Format(v[i]);
      FormatIsPlain(v[i]);
    }
    JoinHas(Formats(v), ',', '|');
  }
}
