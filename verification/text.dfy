/** Character-level helpers shared by the serial protocol, the sample parser,
    the configuration store and the servo report: Python's str.strip,
    str.split/str.join on one separator character, substring tests, and the
    int()/float()/format() conversions restricted to plain decimal text. */
module Text {

  import opened Wrappers

  /** Python's str.isspace(), the characters str.strip() removes: tab to
      carriage return, the separators \x1c-\x1f, space, and the Unicode
      spaces and line separators. */
  predicate IsSpace(c: char) {
    || '\t' <= c <= '\r'
    || '\U{1C}' <= c <= '\U{1F}'
    || c == ' ' || c == '\U{85}' || c == '\U{A0}' || c == '\U{1680}'
    || '\U{2000}' <= c <= '\U{200A}'
    || c == '\U{2028}' || c == '\U{2029}' || c == '\U{202F}' || c == '\U{205F}' || c == '\U{3000}'
  }

  /** The whitespace int() and float() ignore around a number: the same set
      without the ASCII separators \x1c-\x1f, which they reject. */
  predicate IsNumberSpace(c: char) {
    IsSpace(c) && !('\U{1C}' <= c <= '\U{1F}')
  }

  /** The set a trim removes: str.strip()'s, or the one int()/float() use. */
  predicate Blank(c: char, numeric: bool) {
    if numeric then IsNumberSpace(c) else IsSpace(c)
  }

  function TrimLeft(s: string, numeric: bool): (r: string)
    ensures |r| <= |s| && r == s[|s| - |r|..]
    ensures |r| > 0 ==> !Blank(r[0], numeric)
    ensures forall i :: 0 <= i < |s| - |r| ==> Blank(s[i], numeric)
  {
    if |s| > 0 && Blank(s[0], numeric) then TrimLeft(s[1..], numeric) else s
  }

  function TrimRight(s: string, numeric: bool): (r: string)
    ensures |r| <= |s| && r == s[..|r|]
    ensures |r| > 0 ==> !Blank(r[|r| - 1], numeric)
    ensures forall i :: |r| <= i < |s| ==> Blank(s[i], numeric)
  {
    if |s| > 0 && Blank(s[|s| - 1], numeric) then TrimRight(s[..|s| - 1], numeric) else s
  }

  /** Python's str.strip(). */
  function Strip(s: string): string {
    TrimRight(TrimLeft(s, false), false)
  }

  /** The surrounding whitespace int() and float() skip before reading a
      number. */
  function StripNumber(s: string): string {
    TrimRight(TrimLeft(s, true), true)
  }

  /** What strip leaves: no leading or trailing whitespace, and a piece of
      the original of which only whitespace surrounded it. (Kept apart from
      Strip so that the many facts about stripped lines stay out of proofs
      that do not need them.) */
  lemma StripTrims(s: string)
    ensures |Strip(s)| > 0 ==> !IsSpace(Strip(s)[0]) && !IsSpace(Strip(s)[|Strip(s)| - 1])
    ensures exists i :: OccursAt(s, Strip(s), i) &&
              (forall k :: 0 <= k < i ==> IsSpace(s[k])) &&
              (forall k :: i + |Strip(s)| <= k < |s| ==> IsSpace(s[k]))
  {
    var t := TrimLeft(s, false);
    var i := |s| - |t|;
    assert OccursAt(s, Strip(s), i);
    forall k | 0 <= k < i ensures IsSpace(s[k]) {
      assert Blank(s[k], false);
    }
    forall k | i + |Strip(s)| <= k < |s| ensures IsSpace(s[k]) {
      assert s[k] == t[k - i];
      assert Blank(t[k - i], false);
    }
  }

  /** A string with no surrounding whitespace is its own strip, for
      str.strip() and for int()/float() alike. */
  lemma StripNoSpace(s: string)
    requires |s| > 0 ==> !IsSpace(s[0]) && !IsSpace(s[|s| - 1])
    ensures Strip(s) == s && StripNumber(s) == s
  {
  }

  predicate StartsWith(s: string, prefix: string) {
    |prefix| <= |s| && s[..|prefix|] == prefix
  }

  /** `sub` occurs in `s` starting at index i. */
  predicate OccursAt(s: string, sub: string, i: int) {
    0 <= i <= |s| - |sub| && s[i..i + |sub|] == sub
  }

  /** Python's `sub in s`. */
  predicate Contains(s: string, sub: string) {
    exists i | 0 <= i <= |s| - |sub| :: OccursAt(s, sub, i)
  }

  /** Index of the first occurrence of c, or |s| when c does not occur. */
  function IndexOf(s: string, c: char): (i: nat)
    ensures i <= |s|
    ensures i < |s| ==> s[i] == c
    ensures forall j :: 0 <= j < i ==> s[j] != c
  {
    if |s| == 0 then 0
    else if s[0] == c then 0
    else 1 + IndexOf(s[1..], c)
  }

  /** Python's s.split(sep) for a one-character separator: the pieces never
      contain the separator and there is always at least one piece. */
  function Split(s: string, sep: char): (pieces: seq<string>)
    ensures |pieces| > 0
    ensures forall k :: 0 <= k < |pieces| ==> sep !in pieces[k]
    decreases |s|
  {
    var i := IndexOf(s, sep);
    if i == |s| then [s] else [s[..i]] + Split(s[i + 1..], sep)
  }

  /** Python's sep.join(pieces). */
  function Join(pieces: seq<string>, sep: string): string {
    if |pieces| == 0 then ""
    else if |pieces| == 1 then pieces[0]
    else pieces[0] + sep + Join(pieces[1..], sep)
  }

  /** Splitting and re-joining on the same character gives the string back. */
  lemma {:induction false} JoinSplit(s: string, sep: char)
    ensures Join(Split(s, sep), [sep]) == s
    decreases |s|
  {
    var i := IndexOf(s, sep);
    if i < |s| {
      JoinSplit(s[i + 1..], sep);
      assert s == s[..i] + [sep] + s[i + 1..];
    }
  }

  /** The first separator in head + [sep] + tail is the one after head
      when head holds none. */
  lemma {:induction false} IndexOfAfter(head: string, sep: char, tail: string)
    requires sep !in head
    ensures IndexOf(head + [sep] + tail, sep) == |head|
  {
    if |head| > 0 {
      IndexOfAfter(head[1..], sep, tail);
      assert (head + [sep] + tail)[1..] == head[1..] + [sep] + tail;
    }
  }

  /** A string without the separator is a single piece. */
  lemma SplitNone(s: string, sep: char)
    requires sep !in s
    ensures Split(s, sep) == [s]
  {
  }

  /** Splitting at a first separator after a separator-free head gives the
      head, then the pieces of the tail. */
  lemma SplitFirst(head: string, sep: char, tail: string)
    requires sep !in head
    ensures Split(head + [sep] + tail, sep) == [head] + Split(tail, sep)
  {
    var s := head + [sep] + tail;
    IndexOfAfter(head, sep, tail);
    assert s[..|head|] == head;
    assert s[|head| + 1..] == tail;
  }

  /** Joining pieces free of the separator and splitting again gives the
      pieces back: the report format can be read back line by line. */
  lemma {:induction false} SplitJoin(pieces: seq<string>, sep: char)
    requires |pieces| > 0
    requires forall k :: 0 <= k < |pieces| ==> sep !in pieces[k]
    ensures Split(Join(pieces, [sep]), sep) == pieces
  {
    if |pieces| == 1 {
      assert IndexOf(pieces[0], sep) == |pieces[0]|;
    } else {
      var rest := Join(pieces[1..], [sep]);
      var s := pieces[0] + [sep] + rest;
      assert Join(pieces, [sep]) == s;
      IndexOfAfter(pieces[0], sep, rest);
      assert s[..|pieces[0]|] == pieces[0];
      assert s[|pieces[0]| + 1..] == rest;
      SplitJoin(pieces[1..], sep);
      assert Split(s, sep) == [pieces[0]] + Split(rest, sep);
    }
  }

  /** Joining three pieces puts the separator between each pair. */
  lemma JoinThree(a: string, b: string, c: string, sep: string)
    ensures Join([a, b, c], sep) == a + sep + b + sep + c
  {
    assert [a, b, c][1..] == [b, c] && [b, c][1..] == [c];
    assert Join([b, c], sep) == b + sep + c;
    assert Join([a, b, c], sep) == a + sep + (b + sep + c);
  }

  /** Three separator-free pieces joined by the separator split back apart. */
  lemma SplitThree(a: string, b: string, c: string, sep: char)
    requires sep !in a && sep !in b && sep !in c
    ensures Split(a + [sep] + b + [sep] + c, sep) == [a, b, c]
  {
    var pieces := [a, b, c];
    assert forall k :: 0 <= k < 3 ==> sep !in pieces[k];
    SplitJoin(pieces, sep);
    JoinThree(a, b, c, [sep]);
  }

  /** Python's s.split(sep, 1) on a string that contains sep. */
  function SplitOnce(s: string, sep: char): (kv: (string, string))
    requires sep in s
    ensures sep !in kv.0
    ensures s == kv.0 + [sep] + kv.1
  {
    var i := IndexOf(s, sep);
    (s[..i], s[i + 1..])
  }

  /** Splitting once at a separator the head does not contain recovers the
      head and the tail. */
  lemma SplitOnceFirst(head: string, sep: char, tail: string)
    requires sep !in head
    ensures SplitOnce(head + [sep] + tail, sep) == (head, tail)
  {
    var s := head + [sep] + tail;
    IndexOfAfter(head, sep, tail);
    assert s[..|head|] == head;
    assert s[|head| + 1..] == tail;
  }

  // ----- decimal digits -----

  predicate IsDigit(c: char) {
    '0' <= c <= '9'
  }

  predicate AllDigits(s: string) {
    forall i :: 0 <= i < |s| ==> IsDigit(s[i])
  }

  function DigitValue(c: char): nat
    requires IsDigit(c)
  {
    (c as int) - ('0' as int)
  }

  function DigitChar(d: nat): (c: char)
    requires d < 10
    ensures IsDigit(c) && DigitValue(c) == d
  {
    ((d + '0' as int) as char)
  }

  /** The value of a string of decimal digits, most significant first. */
  function DigitsValue(s: string): nat
    requires AllDigits(s)
  {
    if |s| == 0 then 0 else 10 * DigitsValue(s[..|s| - 1]) + DigitValue(s[|s| - 1])
  }

  function Pow10(n: nat): (p: nat)
    ensures p >= 1
  {
    if n == 0 then 1 else 10 * Pow10(n - 1)
  }

  /** A digit string never denotes more than its length allows. */
  lemma {:induction false} DigitsValueBound(s: string)
    requires AllDigits(s)
    ensures DigitsValue(s) < Pow10(|s|)
  {
    if |s| > 0 {
      DigitsValueBound(s[..|s| - 1]);
    }
  }

  /** Python's f"{n:0{width}d}" for a non-negative n: the decimal digits of n,
      left-padded with zeros to at least `width` characters. */
  function ZeroPadded(n: nat, width: nat): (s: string)
    ensures |s| >= 1 && |s| >= width
    ensures AllDigits(s)
    decreases n + width
  {
    if n < 10 && width <= 1 then [DigitChar(n)]
    else ZeroPadded(n / 10, if width == 0 then 0 else width - 1) + [DigitChar(n % 10)]
  }

  /** The padded digits read back as the number. */
  lemma {:induction false} ZeroPaddedValue(n: nat, width: nat)
    ensures DigitsValue(ZeroPadded(n, width)) == n
    decreases n + width
  {
    if !(n < 10 && width <= 1) {
      var w := if width == 0 then 0 else width - 1;
      ZeroPaddedValue(n / 10, w);
      var s := ZeroPadded(n, width);
      assert s[..|s| - 1] == ZeroPadded(n / 10, w);
    }
  }

  /** A number that fits in `width` digits is printed in exactly `width`
      characters. */
  lemma {:induction false} ZeroPaddedLength(n: nat, width: nat)
    requires width >= 1 && n < Pow10(width)
    ensures |ZeroPadded(n, width)| == width
    decreases width
  {
    if !(n < 10 && width <= 1) {
      ZeroPaddedLength(n / 10, width - 1);
    }
  }

  /** A run of digits has no whitespace to strip. */
  lemma DigitsStripped(s: string)
    ensures AllDigits(s) ==> Strip(s) == s && StripNumber(s) == s
  {
    if AllDigits(s) && |s| > 0 {
      assert IsDigit(s[0]) && IsDigit(s[|s| - 1]);
      StripNoSpace(s);
    }
  }

  /** Python's str(i) for an int. */
  function IntToString(i: int): (s: string)
    ensures |s| >= 1
    ensures i >= 0 ==> AllDigits(s)
    ensures i < 0 ==> s[0] == '-' && AllDigits(s[1..])
  {
    var digits := ZeroPadded(if i < 0 then -i else i, 1);
    if i < 0 then "-" + digits else digits
  }

  /** What str(i) prints, int() reads back. */
  lemma IntToStringParses(i: int)
    ensures ParseInt(IntToString(i)) == Some(i)
  {
    var n := if i < 0 then -i else i;
    ZeroPaddedValue(n, 1);
    if i < 0 {
      assert IntToString(i)[1..] == ZeroPadded(n, 1);
    }
  }

  /** str(i) holds no character outside digits and '-'. */
  lemma IntToStringChars(i: int, c: char)
    requires c != '-' && !IsDigit(c)
    ensures c !in IntToString(i)
  {
    var s := IntToString(i);
    if i < 0 {
      forall k | 1 <= k < |s| ensures s[k] != c {
        assert s[k] == s[1..][k - 1];
      }
    }
  }

  /** Python's int() on an optionally signed run of decimal digits; anything
      else (empty text, a stray character) is the ValueError, here None. */
  function ParseInt(s: string): (r: Option<int>)
    ensures AllDigits(s) && |s| > 0 ==> r == Some(DigitsValue(s))
    ensures r.Some? ==> |s| > 0
  {
    if |s| > 0 && (s[0] == '-' || s[0] == '+') then
      var body := s[1..];
      if |body| > 0 && AllDigits(body) then
        var v: int := DigitsValue(body);
        Some(if s[0] == '-' then -v else v)
      else None
    else if |s| > 0 && AllDigits(s) then Some(DigitsValue(s))
    else None
  }

  /** Python's float() on an optionally signed decimal: digits, optionally one
      '.', optionally more digits, with at least one digit in all. */
  function ParseDecimal(s: string): (r: Option<real>)
    ensures AllDigits(s) && |s| > 0 ==> r == Some(DigitsValue(s) as real)
    ensures r.Some? ==> |s| > 0
  {
    if |s| > 0 && (s[0] == '-' || s[0] == '+') then
      match ParseUnsignedDecimal(s[1..])
      case Some(v) => Some(if s[0] == '-' then -v else v)
      case None => None
    else ParseUnsignedDecimal(s)
  }

  function ParseUnsignedDecimal(s: string): (r: Option<real>)
    ensures r.Some? ==> r.value >= 0.0 && |s| > 0
    ensures AllDigits(s) && |s| > 0 ==> r == Some(DigitsValue(s) as real)
  {
    var i := IndexOf(s, '.');
    var whole := s[..i];
    var frac := if i < |s| then s[i + 1..] else "";
    assert i == |s| ==> whole == s;
    if AllDigits(whole) && AllDigits(frac) && |whole| + |frac| > 0 then
      Some(DigitsValue(whole) as real + DigitsValue(frac) as real / Pow10(|frac|) as real)
    else None
  }
}
