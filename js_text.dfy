/** The JavaScript string operations the handlers rely on: `split(' ')`,
    `parseInt`, `Number` on an integer string, and the decimal text of an
    integer (what `${n}` and `parseInt(n)` go through). */
module JsText {
  import opened Common

  // ---------------------------------------------------------------------------
  // split(' ')
  // ---------------------------------------------------------------------------

  /** `s.split(' ')`: the pieces between single spaces, so two spaces in a row
      give an empty piece and the empty string gives one empty piece. */
  function Split(s: string): (parts: seq<string>)
    ensures |parts| >= 1
    decreases |s|
  {
    if s == [] then [[]]
    else
      var rest := Split(s[1..]);
      if s[0] == ' ' then [[]] + rest
      else [[s[0]] + rest[0]] + rest[1..]
  }

  /** `parts.join(' ')`, the inverse of Split. */
  function Join(parts: seq<string>): string
    requires |parts| >= 1
    decreases |parts|
  {
    if |parts| == 1 then parts[0] else parts[0] + [' '] + Join(parts[1..])
  }

  /** Splitting loses nothing: joining the pieces back gives the original string. */
  lemma {:induction false} JoinSplit(s: string)
    ensures Join(Split(s)) == s
    decreases |s|
  {
    if s != [] {
      var rest := Split(s[1..]);
      JoinSplit(s[1..]);
      assert s == [s[0]] + s[1..];
      var parts := Split(s);
      if s[0] == ' ' {
        assert parts == [[]] + rest && parts[1..] == rest;
      } else if |rest| == 1 {
        assert parts == [[s[0]] + rest[0]];
      } else {
        assert parts == [[s[0]] + rest[0]] + rest[1..] && parts[1..] == rest[1..];
        assert Join(rest) == rest[0] + [' '] + Join(rest[1..]);
      }
    }
  }

  /** No piece of a split contains the separator. */
  lemma {:induction false} SplitPiecesHaveNoSpace(s: string)
    ensures forall i :: 0 <= i < |Split(s)| ==> ' ' !in Split(s)[i]
    decreases |s|
  {
    if s != [] {
      SplitPiecesHaveNoSpace(s[1..]);
      var rest := Split(s[1..]);
      if s[0] != ' ' {
        assert ' ' !in [s[0]] + rest[0];
        assert forall i :: 1 <= i < |Split(s)| ==> Split(s)[i] == rest[i];
      } else {
        assert forall i :: 1 <= i < |Split(s)| ==> Split(s)[i] == rest[i - 1];
      }
    }
  }

  /** A string without a space is a single piece. */
  lemma {:induction false} SplitWord(w: string)
    requires ' ' !in w
    ensures Split(w) == [w]
    decreases |w|
  {
    if w != [] {
      SplitWord(w[1..]);
      assert [w[0]] + w[1..] == w;
    }
  }

  /** A leading word followed by one space becomes the first piece; the rest
      is split on its own. */
  lemma {:induction false} SplitAfterWord(w: string, x: string)
    requires ' ' !in w
    ensures Split(w + [' '] + x) == [w] + Split(x)
    decreases |w|
  {
    var s := w + [' '] + x;
    if w == [] {
      assert s == [' '] + x && s[1..] == x;
    } else {
      assert s[0] == w[0] && s[1..] == w[1..] + [' '] + x;
      SplitAfterWord(w[1..], x);
      assert [w[0]] + w[1..] == w;
    }
  }

  /** Joining space-free pieces and splitting again gives the same pieces. */
  lemma {:induction false} SplitJoin(parts: seq<string>)
    requires |parts| >= 1
    requires forall i :: 0 <= i < |parts| ==> ' ' !in parts[i]
    ensures Split(Join(parts)) == parts
    decreases |parts|
  {
    if |parts| == 1 {
      SplitWord(parts[0]);
    } else {
      SplitJoin(parts[1..]);
      SplitAfterWord(parts[0], Join(parts[1..]));
      assert [parts[0]] + parts[1..] == parts;
    }
  }

  // ---------------------------------------------------------------------------
  // Decimal digits
  // ---------------------------------------------------------------------------

  predicate IsDigit(c: char)
  {
    '0' <= c <= '9'
  }

  predicate AllDigits(s: string)
  {
    forall i :: 0 <= i < |s| ==> IsDigit(s[i])
  }

  /** The length of the run of decimal digits that starts `s`. */
  function LeadingDigits(s: string): (n: nat)
    ensures n <= |s|
    ensures AllDigits(s[..n])
    ensures n < |s| ==> !IsDigit(s[n])
    decreases |s|
  {
    if s == [] || !IsDigit(s[0]) then 0 else 1 + LeadingDigits(s[1..])
  }

  /** The value of a string of decimal digits, most significant first. */
  function DigitsValue(ds: string): nat
    requires AllDigits(ds)
    decreases |ds|
  {
    if ds == [] then 0
    else DigitsValue(ds[..|ds| - 1]) * 10 + (ds[|ds| - 1] as int - '0' as int)
  }

  /** The text after an optional leading sign. */
  function Unsigned(s: string): string
  {
    if |s| > 0 && (s[0] == '-' || s[0] == '+') then s[1..] else s
  }

  function Signed(s: string, magnitude: nat): int
  {
    if |s| > 0 && s[0] == '-' then -(magnitude as int) else magnitude
  }

  /** `parseInt(s)` (radix 10): an optional sign, then the longest run of
      digits; whatever follows the digits is ignored. `None` stands for NaN. */
  function ParseInt(s: string): (r: Option<int>)
    ensures r.Some? <==> Unsigned(s) != [] && IsDigit(Unsigned(s)[0])
    ensures r.Some? && r.value < 0 ==> s[0] == '-'
  {
    var body := Unsigned(s);
    var n := LeadingDigits(body);
    if n == 0 then None else Some(Signed(s, DigitsValue(body[..n])))
  }

  /** `Number(s)` where only an integer-valued answer is of use: an optional
      sign followed by digits and nothing else. `None` stands for NaN and for
      every value that is not an integer. */
  function ToNumber(s: string): (r: Option<int>)
    ensures r.Some? ==> ParseInt(s) == r
  {
    var body := Unsigned(s);
    if body != [] && LeadingDigits(body) == |body| then
      assert body[..|body|] == body;
      Some(Signed(s, DigitsValue(body)))
    else None
  }

  /** `parseInt` stops at the first character that is not a digit: an integer
      string followed by such a tail parses to the same number (so "12abc" is
      12), whereas `Number` rejects it. */
  lemma ParseIntIgnoresTail(s: string, tail: string)
    requires ToNumber(s).Some?
    requires tail != [] && !IsDigit(tail[0])
    ensures ParseInt(s + tail) == ToNumber(s)
    ensures ToNumber(s + tail) == None
  {
    var body := Unsigned(s);
    assert Unsigned(s + tail) == body + tail;
    LeadingDigitsAppend(body, tail);
    assert (body + tail)[..|body|] == body;
  }

  lemma {:induction false} LeadingDigitsAppend(ds: string, tail: string)
    requires AllDigits(ds)
    requires tail != [] && !IsDigit(tail[0])
    ensures LeadingDigits(ds + tail) == |ds|
    decreases |ds|
  {
    if ds == [] {
      assert ds + tail == tail;
    } else {
      assert (ds + tail)[1..] == ds[1..] + tail;
      LeadingDigitsAppend(ds[1..], tail);
    }
  }

  function DigitChar(d: nat): (c: char)
    requires d < 10
    ensures IsDigit(c) && c as int - '0' as int == d
  {
    ('0' as int + d) as char
  }

  /** The decimal text of a natural number, without leading zeros. */
  function NaturalString(n: nat): (s: string)
    ensures s != [] && AllDigits(s)
    decreases n
  {
    if n < 10 then [DigitChar(n)] else NaturalString(n / 10) + [DigitChar(n % 10)]
  }

  /** `String(n)` for an integer `n`. */
  function DecimalString(n: int): string
  {
    if n < 0 then ['-'] + NaturalString(-n) else NaturalString(n)
  }

  lemma {:induction false} NaturalStringValue(n: nat)
    ensures DigitsValue(NaturalString(n)) == n
    decreases n
  {
    if n >= 10 {
      NaturalStringValue(n / 10);
      var s := NaturalString(n);
      assert s[..|s| - 1] == NaturalString(n / 10);
    }
  }

  /** The decimal text of an integer reads back as that integer, both with
      `Number` and with `parseInt`. */
  lemma DecimalRoundTrip(n: int)
    ensures ToNumber(DecimalString(n)) == Some(n)
    ensures ParseInt(DecimalString(n)) == Some(n)
  {
    var m: nat := if n < 0 then -n else n;
    NaturalStringValue(m);
    var digits := NaturalString(m);
    assert Unsigned(DecimalString(n)) == digits by {
      if n < 0 {
        assert (['-'] + digits)[1..] == digits;
      } else {
        assert IsDigit(digits[0]);
      }
    }
  }
}
