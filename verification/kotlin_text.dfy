/**
 * The Kotlin standard-library behaviour the core relies on, written out:
 * nullable values, 32-bit `Int`, `String.toIntOrNull()`, `Int.toString()`,
 * `Char.isWhitespace()`, `trim()`, `isBlank()`, `split(char)`, and the
 * `Double.toString()` / `String.toDoubleOrNull()` pair, which is kept abstract.
 */
module KotlinText {

  /** A Kotlin nullable value `T?`. */
  datatype Option<+T> = None | Some(value: T) {
    /** Kotlin's elvis operator `x ?: default`. */
    function GetOr(default: T): T {
      match this
      case Some(v) => v
      case None => default
    }
  }

  // ---------------------------------------------------------------------------
  // Kotlin `Int`

  const IntMin: int := -0x8000_0000
  const IntMax: int := 0x7FFF_FFFF

  /** `n` fits in a Kotlin `Int`. */
  predicate IsInt(n: int) {
    IntMin <= n <= IntMax
  }

  /** An ASCII decimal digit. */
  predicate IsDigit(c: char) {
    '0' <= c <= '9'
  }

  predicate AllDigits(s: string) {
    forall i :: 0 <= i < |s| ==> IsDigit(s[i])
  }

  function DigitValue(c: char): nat
    requires IsDigit(c)
  {
    c as int - '0' as int
  }

  function DigitChar(d: nat): (c: char)
    requires d < 10
    ensures IsDigit(c) && DigitValue(c) == d
  {
    ('0' as int + d) as char
  }

  /** The value of a string of decimal digits, most significant first. */
  function DigitsValue(s: string): nat
    requires AllDigits(s)
  {
    if |s| == 0 then 0 else 10 * DigitsValue(s[..|s| - 1]) + DigitValue(s[|s| - 1])
  }

  /** The shortest decimal digit string of `n`. */
  function NatDigits(n: nat): (s: string)
    ensures |s| > 0 && AllDigits(s)
  {
    if n < 10 then [DigitChar(n)] else NatDigits(n / 10) + [DigitChar(n % 10)]
  }

  /** `Int.toString()`: an optional minus sign followed by the decimal digits. */
  function ShowInt(n: int): (s: string)
    ensures |s| > 0 && IsDigit(s[|s| - 1]) && (s[0] == '-' || IsDigit(s[0]))
  {
    if n < 0 then "-" + NatDigits(-n) else NatDigits(n)
  }

  /**
   * `String.toIntOrNull()` in radix 10: an optional leading `-` or `+`, then at
   * least one ASCII decimal digit and nothing else; `null` when the value does not fit
   * in an `Int`.
   */
  function ParseInt(s: string): (r: Option<int>)
    ensures r.Some? ==> IsInt(r.value)
    ensures r.Some? && '-' !in s ==> r.value >= 0
  {
    if |s| == 0 then None
    else if s[0] == '-' || s[0] == '+' then
      if |s| == 1 || !AllDigits(s[1..]) then None
      else
        var magnitude: int := DigitsValue(s[1..]);
        var v: int := if s[0] == '-' then -magnitude else magnitude;
        if IsInt(v) then Some(v) else None
    else if AllDigits(s) && DigitsValue(s) <= IntMax then Some(DigitsValue(s))
    else None
  }

  lemma {:induction false} NatDigitsValue(n: nat)
    ensures DigitsValue(NatDigits(n)) == n
  {
    if n >= 10 {
      var s := NatDigits(n);
      assert s[..|s| - 1] == NatDigits(n / 10);
      NatDigitsValue(n / 10);
    }
  }

  /** Text that starts with an ASCII character that is neither a digit nor a sign is not a number. */
  lemma NotANumber(s: string)
    requires |s| > 0 && s[0] as int < 128 && !IsDigit(s[0]) && s[0] != '-' && s[0] != '+'
    ensures ParseInt(s).None?
  {
  }

  /** Every `Int` reads back from its own text. */
  lemma ParseShowInt(n: int)
    requires IsInt(n)
    ensures ParseInt(ShowInt(n)) == Some(n)
  {
    if n < 0 {
      var s := ShowInt(n);
      assert s[1..] == NatDigits(-n);
      NatDigitsValue(-n);
    } else {
      NatDigitsValue(n);
    }
  }

  // ---------------------------------------------------------------------------
  // Whitespace, trim, isBlank

  /**
   * `Char.isWhitespace()` on the JVM: `Character.isWhitespace(c)` or
   * `Character.isSpaceChar(c)`.
   */
  predicate IsWhitespace(c: char) {
    || c == ' '
    || '\t' <= c <= '\r'
    || '\U{001C}' <= c <= '\U{001F}'
    || c == '\U{00A0}' || c == '\U{1680}'
    || '\U{2000}' <= c <= '\U{200A}'
    || c == '\U{2028}' || c == '\U{2029}' || c == '\U{202F}' || c == '\U{205F}' || c == '\U{3000}'
  }

  /** `CharSequence.isBlank()`: empty or whitespace only. */
  predicate IsBlank(s: string) {
    AllDropped(s, KotlinSpaces)
  }

  /**
   * The characters a trim drops: Kotlin's `trim()` drops `isWhitespace`
   * characters, Java's `String.trim()` every character up to U+0020.
   */
  datatype Spaces = KotlinSpaces | JavaSpaces

  predicate Drops(drop: Spaces, c: char) {
    match drop
    case KotlinSpaces => IsWhitespace(c)
    case JavaSpaces => c <= ' '
  }

  predicate AllDropped(s: string, drop: Spaces) {
    forall i :: 0 <= i < |s| ==> Drops(drop, s[i])
  }

  /** Drops the leading characters that `drop` names. */
  function TrimStartBy(s: string, drop: Spaces): (r: string)
    ensures |r| <= |s|
  {
    if |s| > 0 && Drops(drop, s[0]) then TrimStartBy(s[1..], drop) else s
  }

  /** Drops the trailing characters that `drop` names. */
  function TrimEndBy(s: string, drop: Spaces): (r: string)
    ensures |r| <= |s|
  {
    if |s| > 0 && Drops(drop, s[|s| - 1]) then TrimEndBy(s[..|s| - 1], drop) else s
  }

  /** Drops the characters that `drop` names at both ends. */
  function TrimBy(s: string, drop: Spaces): (r: string)
    ensures |r| <= |s|
  {
    TrimEndBy(TrimStartBy(s, drop), drop)
  }

  /** What is left is a suffix that does not start with a dropped character, and only those went. */
  lemma {:induction false} TrimStartBySpec(s: string, drop: Spaces)
    ensures var r := TrimStartBy(s, drop);
            && r == s[|s| - |r|..] && (|r| > 0 ==> !Drops(drop, r[0])) && AllDropped(s[..|s| - |r|], drop)
  {
    if |s| > 0 && Drops(drop, s[0]) {
      var t := s[1..];
      var r := TrimStartBy(t, drop);
      TrimStartBySpec(t, drop);
      assert TrimStartBy(s, drop) == r;
      assert t[|t| - |r|..] == s[|s| - |r|..];
      assert s[..|s| - |r|] == [s[0]] + t[..|t| - |r|];
    }
  }

  /** What is left is a prefix that does not end with a dropped character, and only those went. */
  lemma {:induction false} TrimEndBySpec(s: string, drop: Spaces)
    ensures var r := TrimEndBy(s, drop);
            && r == s[..|r|] && (|r| > 0 ==> !Drops(drop, r[|r| - 1])) && AllDropped(s[|r|..], drop)
  {
    if |s| > 0 && Drops(drop, s[|s| - 1]) {
      var t := s[..|s| - 1];
      var r := TrimEndBy(t, drop);
      TrimEndBySpec(t, drop);
      assert TrimEndBy(s, drop) == r;
      assert t[..|r|] == s[..|r|];
      assert s[|r|..] == t[|r|..] + [s[|s| - 1]];
    }
  }

  /**
   * What a trim leaves is a stretch of the input that neither starts nor ends
   * with a dropped character, with only dropped characters before and after it.
   */
  lemma TrimBySpec(s: string, drop: Spaces)
    ensures var r := TrimBy(s, drop);
            |r| > 0 ==> !Drops(drop, r[0]) && !Drops(drop, r[|r| - 1])
    ensures exists a, b :: && 0 <= a <= b <= |s| && TrimBy(s, drop) == s[a..b]
                           && AllDropped(s[..a], drop) && AllDropped(s[b..], drop)
  {
    var t := TrimStartBy(s, drop);
    var r := TrimEndBy(t, drop);
    TrimStartBySpec(s, drop);
    TrimEndBySpec(t, drop);
    if |r| > 0 {
      assert r[0] == t[0];
    }
    var a := |s| - |t|;
    var b := a + |r|;
    assert r == s[a..b];
    assert s[b..] == t[|r|..];
  }

  /** A string that neither starts nor ends with a dropped character is left as it is. */
  lemma TrimByKeeps(s: string, drop: Spaces)
    requires |s| > 0 ==> !Drops(drop, s[0]) && !Drops(drop, s[|s| - 1])
    ensures TrimBy(s, drop) == s
  {
  }

  /** Trimming twice is trimming once. */
  lemma TrimByIdempotent(s: string, drop: Spaces)
    ensures TrimBy(TrimBy(s, drop), drop) == TrimBy(s, drop)
  {
    TrimBySpec(s, drop);
    TrimByKeeps(TrimBy(s, drop), drop);
  }

  /** Kotlin's `String.trim()`. */
  function Trim(s: string): string {
    TrimBy(s, KotlinSpaces)
  }

  /** Java's `String.trim()`. */
  function JavaTrim(s: string): string {
    TrimBy(s, JavaSpaces)
  }

  // ---------------------------------------------------------------------------
  // split

  /**
   * `String.split(d)` on one delimiter character: every maximal run between
   * delimiters, empty parts included (Kotlin drops nothing).
   */
  function Split(s: string, d: char): (parts: seq<string>)
    ensures |parts| > 0
    ensures forall k :: 0 <= k < |parts| ==> d !in parts[k]
  {
    if |s| == 0 then [""]
    else
      var rest := Split(s[1..], d);
      if s[0] == d then [""] + rest
      else [[s[0]] + rest[0]] + rest[1..]
  }

  /** Puts the delimiter back between the parts. */
  function Join(parts: seq<string>, d: char): string
    requires |parts| > 0
  {
    if |parts| == 1 then parts[0] else parts[0] + [d] + Join(parts[1..], d)
  }

  /** Splitting loses nothing: joining the parts again gives the input back. */
  lemma {:induction false} JoinSplit(s: string, d: char)
    ensures Join(Split(s, d), d) == s
  {
    if |s| > 0 {
      var rest := Split(s[1..], d);
      JoinSplit(s[1..], d);
      if s[0] == d {
        assert ([""] + rest)[1..] == rest;
      } else {
        var parts := [[s[0]] + rest[0]] + rest[1..];
        if |rest| == 1 {
          assert parts == [[s[0]] + rest[0]];
        } else {
          assert parts[1..] == rest[1..];
          assert Join(rest, d) == rest[0] + [d] + Join(rest[1..], d);
        }
      }
    }
  }

  // ---------------------------------------------------------------------------
  // Double text

  /**
   * `Double.toString()` (`show`) and `String.toDoubleOrNull()` (`read`), with
   * weights as exact reals. Their text formats are not modelled; what the core
   * needs of them, for one value at a time, is stated by `ReadsBack`.
   */
  datatype RealText = RealText(show: real -> string, read: string -> Option<real>)

  /**
   * Parsing the text of `x` gives `x` back, and that text has no space at
   * either end (as `Double.toString()` never does). Kotlin's pair meets this
   * for every value that is a double; no pair meets it for every real.
   */
  predicate ReadsBack(rt: RealText, x: real) {
    rt.read(rt.show(x)) == Some(x) && JavaTrim(rt.show(x)) == rt.show(x)
  }

  /** A printer that writes "60" and a reader of that text: 60.0 reads back. */
  const SixtyText: RealText :=
    RealText(x => if x == 60.0 then "60" else "0",
             s => if s == "60" then Some(60.0) else if s == "0" then Some(0.0) else None)

  lemma SixtyTextReadsBack()
    ensures ReadsBack(SixtyText, 60.0) && ReadsBack(SixtyText, 0.0)
    ensures !ReadsBack(SixtyText, 1.0)
  {
    assert SixtyText.show(60.0) == "60";
    assert SixtyText.show(0.0) == "0";
    assert SixtyText.show(1.0) == "0";
    assert JavaTrim("60") == "60" by { TrimByKeeps("60", JavaSpaces); }
    assert JavaTrim("0") == "0" by { TrimByKeeps("0", JavaSpaces); }
  }
}
