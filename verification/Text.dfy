/** The Go string functions the scheduler depends on: `strconv.Itoa`,
    `strconv.Atoi`, `strings.Split`, `strings.Join` and `strings.TrimSpace`.
    A string is a sequence of Unicode code points. */
module Text {
  import opened Basics

  // ---------- decimal numbers ----------

  predicate IsDigit(c: char) { '0' <= c <= '9' }

  predicate AllDigits(s: string) { forall c | c in s :: IsDigit(c) }

  function DigitChar(d: nat): (c: char)
    requires d < 10
    ensures IsDigit(c)
  {
    '0' + d as char
  }

  function DigitValue(c: char): nat
    requires IsDigit(c)
  {
    (c - '0') as int
  }

  /** Decimal digits, without leading zeros. */
  function Digits(n: nat): (s: string)
    ensures s != "" && AllDigits(s)
  {
    if n < 10 then [DigitChar(n)] else Digits(n / 10) + [DigitChar(n % 10)]
  }

  function Abs(n: int): nat { if n < 0 then -n else n }

  function Itoa(n: int): string {
    if n < 0 then "-" + Digits(-n) else Digits(n)
  }

  function Value(s: string): (v: int)
    requires AllDigits(s)
    ensures v >= 0
  {
    if s == "" then 0 else 10 * Value(s[..|s| - 1]) + DigitValue(s[|s| - 1])
  }

  /** Base-10 parsing with an optional sign; fails on an empty or malformed
      number and outside the 64-bit range. */
  function Atoi(s: string): Option<Int64> {
    var body := if s != "" && (s[0] == '-' || s[0] == '+') then s[1..] else s;
    if body == "" || !AllDigits(body) then None
    else
      var n := if s[0] == '-' then -Value(body) else Value(body);
      if MIN_INT64 <= n <= MAX_INT64 then Some(n) else None
  }

  lemma {:induction false} ValueDigits(n: nat)
    ensures Value(Digits(n)) == n
  {
    if n >= 10 {
      ValueDigits(n / 10);
      var s := Digits(n);
      assert s[..|s| - 1] == Digits(n / 10);
    }
  }

  lemma AtoiItoa(n: Int64)
    ensures Atoi(Itoa(n)) == Some(n)
  {
    var digits := Digits(Abs(n));
    ValueDigits(Abs(n));
    assert digits[0] in digits;
    if n < 0 {
      AtoiSigned(digits);
    } else {
      AtoiUnsigned(digits);
    }
  }

  lemma AtoiUnsigned(digits: string)
    requires digits != "" && AllDigits(digits) && Value(digits) <= MAX_INT64
    ensures Atoi(digits) == Some(Value(digits))
  {
    assert IsDigit(digits[0]);
  }

  lemma AtoiSigned(digits: string)
    requires digits != "" && AllDigits(digits) && -Value(digits) >= MIN_INT64
    ensures Atoi("-" + digits) == Some(-Value(digits))
  {
    assert ("-" + digits)[1..] == digits;
  }

  /** `%02d` for the numbers a clock or a calendar month produces. */
  function TwoDigits(n: nat): (s: string)
    requires n < 100
    ensures |s| == 2 && AllDigits(s)
  {
    [DigitChar(n / 10), DigitChar(n % 10)]
  }

  lemma AtoiTwoDigits(n: nat)
    requires n < 100
    ensures Atoi(TwoDigits(n)) == Some(n)
  {
    var s := TwoDigits(n);
    assert IsDigit(s[0]);
    assert s[..1] == [DigitChar(n / 10)];
    assert Value(s[..1]) == 10 * Value(s[..1][..0]) + DigitValue(s[..1][0]);
  }

  // ---------- splitting and joining ----------

  /** `strings.Split` with a one-character separator. */
  function Split(s: string, sep: char): (parts: seq<string>)
    ensures parts != []
    ensures forall p | p in parts :: sep !in p
  {
    if s == "" then [""]
    else
      var rest := Split(s[1..], sep);
      if s[0] == sep then [""] + rest else [[s[0]] + rest[0]] + rest[1..]
  }

  /** `strings.Join` with a one-character separator. */
  function Join(parts: seq<string>, sep: char): string {
    if parts == [] then ""
    else if |parts| == 1 then parts[0]
    else parts[0] + [sep] + Join(parts[1..], sep)
  }

  lemma {:induction false} SplitPlain(s: string, sep: char)
    requires sep !in s
    ensures Split(s, sep) == [s]
  {
    if s != "" {
      SplitPlain(s[1..], sep);
      assert s[0] in s && [s[0]] + s[1..] == s;
    }
  }

  lemma {:induction false} SplitAtSeparator(head: string, rest: string, sep: char)
    requires sep !in head
    ensures Split(head + [sep] + rest, sep) == [head] + Split(rest, sep)
  {
    var s := head + [sep] + rest;
    if head == "" {
      assert s[1..] == rest;
    } else {
      assert head[0] in head;
      assert s[1..] == head[1..] + [sep] + rest;
      SplitAtSeparator(head[1..], rest, sep);
      assert [head[0]] + head[1..] == head;
      assert ([head[1..]] + Split(rest, sep))[1..] == Split(rest, sep);
    }
  }

  lemma {:induction false} SplitJoin(parts: seq<string>, sep: char)
    requires parts != [] && forall p | p in parts :: sep !in p
    ensures Split(Join(parts, sep), sep) == parts
  {
    if |parts| == 1 {
      SplitPlain(parts[0], sep);
    } else {
      SplitJoin(parts[1..], sep);
      SplitAtSeparator(parts[0], Join(parts[1..], sep), sep);
    }
  }

  /** Splitting loses nothing. */
  lemma {:induction false} JoinSplit(s: string, sep: char)
    ensures Join(Split(s, sep), sep) == s
  {
    if s != "" {
      var rest := Split(s[1..], sep);
      JoinSplit(s[1..], sep);
      assert s == [s[0]] + s[1..];
      if s[0] == sep {
        assert ([""] + rest)[1..] == rest;
      } else {
        var parts := [[s[0]] + rest[0]] + rest[1..];
        assert parts[1..] == rest[1..];
      }
    }
  }

  // ---------- trimming ----------

  /** `unicode.IsSpace`. */
  predicate IsSpace(c: char) {
    || '\U{0009}' <= c <= '\U{000D}' || c == ' ' || c == '\U{0085}' || c == '\U{00A0}'
    || c == '\U{1680}' || '\U{2000}' <= c <= '\U{200A}' || c == '\U{2028}' || c == '\U{2029}'
    || c == '\U{202F}' || c == '\U{205F}' || c == '\U{3000}'
  }

  function TrimSpace(s: string): string {
    if s != "" && IsSpace(s[0]) then TrimSpace(s[1..])
    else if s != "" && IsSpace(s[|s| - 1]) then TrimSpace(s[..|s| - 1])
    else s
  }

  lemma TrimItoa(n: int)
    ensures TrimSpace(Itoa(n)) == Itoa(n) != ""
  {
    var m := Abs(n);
    var s := Digits(m);
    assert IsDigit(s[0]) && IsDigit(s[|s| - 1]);
  }

  /** What trimming removes is white space at the ends, and all of it. */
  lemma {:induction false} TrimSpec(s: string) returns (left: string, right: string)
    ensures s == left + TrimSpace(s) + right
    ensures forall c | c in left + right :: IsSpace(c)
    ensures var t := TrimSpace(s); t != "" ==> !IsSpace(t[0]) && !IsSpace(t[|t| - 1])
    decreases |s|
  {
    hide IsSpace;
    if s != "" && IsSpace(s[0]) {
      left, right := TrimSpec(s[1..]);
      left := [s[0]] + left;
    } else if s != "" && IsSpace(s[|s| - 1]) {
      left, right := TrimSpec(s[..|s| - 1]);
      right := right + [s[|s| - 1]];
    } else {
      left, right := "", "";
    }
  }

  // ---------- numbers as they are written ----------

  /** Ten digits, written as usual, most significant first. */
  lemma DigitsSpec(n: nat)
    ensures n < 10 ==> Digits(n) == ["0123456789"[n]]
    ensures n >= 10 ==> Digits(n) == Digits(n / 10) + ["0123456789"[n % 10]]
  {
    assert forall d: nat | d < 10 :: DigitChar(d) == "0123456789"[d];
  }

  lemma WrittenNumbers(n: nat)
    ensures Itoa(n) == Digits(n) && (n > 0 ==> Itoa(0 - n) == "-" + Digits(n))
    ensures n < 100 ==> TwoDigits(n) == ["0123456789"[n / 10], "0123456789"[n % 10]]
  {
    assert forall d: nat | d < 10 :: DigitChar(d) == "0123456789"[d];
  }

  /** What `Atoi` refuses. */
  lemma AtoiRefuses(s: string)
    ensures s == "" || s == "-" || s == "+" ==> Atoi(s).None?
    ensures (exists c | c in s :: !IsDigit(c) && c != '-' && c != '+') ==> Atoi(s).None?
  {
    if c :| c in s && !IsDigit(c) && c != '-' && c != '+' {
      var body := if s[0] == '-' || s[0] == '+' then s[1..] else s;
      assert c in body;
    }
  }
}
