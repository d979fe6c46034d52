/** The few Go string functions the core uses: case mapping
    (`strings.ToUpper`, `strings.ToLower`) as far as it can produce ASCII
    letters, `strings.Split` on one separator character and `strconv.Itoa`. */
module Text {

  /** Go's `unicode.ToUpper` on every letter whose upper case is an ASCII
      letter: 'a'..'z', the dotless i (U+0131) and the long s (U+017F).
      Any other character is kept as it is. */
  function UpperChar(ch: char): char {
    if 'a' <= ch <= 'z' then (ch as int - 32) as char
    else if ch == '\U{0131}' then 'I'
    else if ch == '\U{017F}' then 'S'
    else ch
  }

  /** Go's `unicode.ToLower` on every letter whose lower case is an ASCII
      letter: 'A'..'Z', the dotted capital I (U+0130) and the Kelvin sign
      (U+212A).  Any other character is kept as it is. */
  function LowerChar(ch: char): char {
    if 'A' <= ch <= 'Z' then (ch as int + 32) as char
    else if ch == '\U{0130}' then 'i'
    else if ch == '\U{212A}' then 'k'
    else ch
  }

  function ToUpper(s: string): (r: string)
    ensures |r| == |s|
    ensures forall i :: 0 <= i < |s| ==> r[i] == UpperChar(s[i])
  {
    seq(|s|, i requires 0 <= i < |s| => UpperChar(s[i]))
  }

  function ToLower(s: string): (r: string)
    ensures |r| == |s|
    ensures forall i :: 0 <= i < |s| ==> r[i] == LowerChar(s[i])
  {
    seq(|s|, i requires 0 <= i < |s| => LowerChar(s[i]))
  }

  /** `ToUpper(s) == "TRUE"` holds exactly for the sixteen spellings of
      "true" in any mix of cases. */
  lemma UpperIsTrue(s: string)
    ensures ToUpper(s) == "TRUE" <==>
      |s| == 4 && s[0] in "tT" && s[1] in "rR" && s[2] in "uU" && s[3] in "eE"
  {
    if |s| == 4 && s[0] in "tT" && s[1] in "rR" && s[2] in "uU" && s[3] in "eE" {
      assert ToUpper(s) == [ToUpper(s)[0], ToUpper(s)[1], ToUpper(s)[2], ToUpper(s)[3]];
    }
  }

  /** `ToUpper(s) == "CLUSTER"` holds exactly for "cluster" in any mix of
      cases, the long s included. */
  lemma UpperIsCluster(s: string)
    ensures ToUpper(s) == "CLUSTER" <==>
      |s| == 7 && s[0] in "cC" && s[1] in "lL" && s[2] in "uU" && s[3] in "sS\U{017F}" &&
      s[4] in "tT" && s[5] in "eE" && s[6] in "rR"
  {
    if |s| == 7 && s[0] in "cC" && s[1] in "lL" && s[2] in "uU" && s[3] in "sS\U{017F}" &&
       s[4] in "tT" && s[5] in "eE" && s[6] in "rR" {
      var u := ToUpper(s);
      assert u == [u[0], u[1], u[2], u[3], u[4], u[5], u[6]];
    }
  }

  /** `ToLower(s) == "true"` holds for the same spellings. */
  lemma LowerIsTrue(s: string)
    ensures ToLower(s) == "true" <==>
      |s| == 4 && s[0] in "tT" && s[1] in "rR" && s[2] in "uU" && s[3] in "eE"
  {
    if |s| == 4 && s[0] in "tT" && s[1] in "rR" && s[2] in "uU" && s[3] in "eE" {
      assert ToLower(s) == [ToLower(s)[0], ToLower(s)[1], ToLower(s)[2], ToLower(s)[3]];
    }
  }

  /** Go's `strings.Join` with a one-character separator. */
  function Join(parts: seq<string>, sep: char): string
    requires |parts| >= 1
  {
    if |parts| == 1 then parts[0] else parts[0] + [sep] + Join(parts[1..], sep)
  }

  /** Go's `strings.Split(s, string(sep))`: the pieces between separators;
      joining them again gives back `s`, no piece holds the separator, and
      there are at least two pieces exactly when `s` holds the separator. */
  function Split(s: string, sep: char): (parts: seq<string>)
    ensures |parts| >= 1
    ensures forall i :: 0 <= i < |parts| ==> sep !in parts[i]
    ensures Join(parts, sep) == s
    ensures |parts| >= 2 <==> sep in s
  {
    if s == [] then [""]
    else
      var rest := Split(s[1..], sep);
      if s[0] == sep then
        assert s == [sep] + s[1..];
        [""] + rest
      else
        var parts := [[s[0]] + rest[0]] + rest[1..];
        assert parts[1..] == rest[1..];
        assert s == [s[0]] + s[1..];
        parts
  }

  /** Splitting at the first separator: the first piece is everything before
      it, and the rest is the split of what follows it. */
  lemma {:induction false} SplitAtFirst(s: string, sep: char, i: nat)
    requires i < |s| && s[i] == sep && sep !in s[..i]
    ensures Split(s, sep) == [s[..i]] + Split(s[i + 1..], sep)
    decreases i
  {
    if i > 0 {
      assert s[0] == s[..i][0];
      var t := s[1..];
      assert t[..i - 1] == s[1..i];
      SplitAtFirst(t, sep, i - 1);
      assert t[i..] == s[i + 1..];
      assert [s[0]] + s[1..i] == s[..i];
    }
  }

  /** A first piece free of the separator comes off whole. */
  lemma SplitHead(h: string, sep: char, t: string)
    requires sep !in h
    ensures Split(h + [sep] + t, sep) == [h] + Split(t, sep)
  {
    var s := h + [sep] + t;
    assert s[..|h|] == h;
    assert s[|h| + 1..] == t;
    SplitAtFirst(s, sep, |h|);
  }

  lemma SplitNone(s: string, sep: char)
    requires sep !in s
    ensures Split(s, sep) == [s]
  {
  }

  function DigitChar(d: nat): char
    requires d < 10
  {
    ("0123456789")[d]
  }

  function DigitValue(ch: char): int {
    ch as int - '0' as int
  }

  /** Decimal digits of a natural number, most significant first. */
  function Digits(n: nat): (r: string)
    ensures |r| >= 1
    ensures forall i :: 0 <= i < |r| ==> '0' <= r[i] <= '9'
    ensures (|r| >= 2 || n >= 10) ==> r[0] != '0'
    decreases n
  {
    if n < 10 then [DigitChar(n)] else Digits(n / 10) + [DigitChar(n % 10)]
  }

  /** Go's `strconv.Itoa`: optional minus sign, then the digits. */
  function Itoa(n: int): (s: string)
    ensures |s| >= 1 && (s[0] == '-' <==> n < 0)
    ensures forall i :: (if n < 0 then 1 else 0) <= i < |s| ==> '0' <= s[i] <= '9'
  {
    if n < 0 then "-" + Digits(-n) else Digits(n)
  }

  /** Decimal value of a string of digits (the reading side of `Itoa`). */
  function ParseDigits(s: string): int
    decreases |s|
  {
    if s == [] then 0 else ParseDigits(s[..|s| - 1]) * 10 + DigitValue(s[|s| - 1])
  }

  function Atoi(s: string): int {
    if |s| > 0 && s[0] == '-' then -ParseDigits(s[1..]) else ParseDigits(s)
  }

  lemma DigitChars(d: nat)
    requires d < 10
    ensures DigitValue(DigitChar(d)) == d
  {
    var s := "0123456789";
    assert s[0] == '0' && s[1] == '1' && s[2] == '2' && s[3] == '3' && s[4] == '4';
    assert s[5] == '5' && s[6] == '6' && s[7] == '7' && s[8] == '8' && s[9] == '9';
  }

  lemma {:induction false} DigitsRoundTrip(n: nat)
    ensures ParseDigits(Digits(n)) == n
    decreases n
  {
    DigitChars(n % 10);
    if n < 10 {
      assert Digits(n) == [DigitChar(n)];
      assert ParseDigits(Digits(n)) == ParseDigits([]) * 10 + DigitValue(DigitChar(n));
    } else {
      DigitsRoundTrip(n / 10);
      var d := Digits(n);
      assert d == Digits(n / 10) + [DigitChar(n % 10)];
      assert d[..|d| - 1] == Digits(n / 10);
      assert ParseDigits(d) == ParseDigits(Digits(n / 10)) * 10 + DigitValue(DigitChar(n % 10));
    }
  }

  /** `Itoa` loses nothing: reading its output back gives the number. */
  lemma ItoaRoundTrip(n: int)
    ensures Atoi(Itoa(n)) == n
  {
    if n < 0 {
      DigitsRoundTrip(-n);
      assert Itoa(n)[1..] == Digits(-n);
    } else {
      DigitsRoundTrip(n);
    }
  }
}
