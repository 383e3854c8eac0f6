/** The string operations of Python that the modelled files rely on, and the facts about
    them that several components need.  Bytes are modelled as characters, so `encode` and
    `decode` are the identity. */
module Text {

  datatype Option<+T> = None | Some(value: T)

  // ---- white space -------------------------------------------------------------

  /** str.isspace() of one character. */
  predicate IsSpace(c: char) {
    || '\t' <= c <= '\r'
    || '\U{1c}' <= c <= ' '
    || c in {'\U{85}', '\U{a0}', '\U{1680}', '\U{2028}', '\U{2029}', '\U{202f}', '\U{205f}', '\U{3000}'}
    || '\U{2000}' <= c <= '\U{200a}'
  }

  predicate NoSpace(s: string) {
    forall i :: 0 <= i < |s| ==> !IsSpace(s[i])
  }

  lemma NoSpaceNoNewline(s: string)
    requires NoSpace(s)
    ensures '\n' !in s
  {
    assert IsSpace('\n');
  }

  /** Length of the longest prefix of `s` without white space. */
  function WordLength(s: string): (n: nat)
    ensures n <= |s| && NoSpace(s[..n])
    ensures n < |s| ==> IsSpace(s[n])
  {
    if s == "" || IsSpace(s[0]) then 0 else
      var n := 1 + WordLength(s[1..]);
      assert forall i :: 0 < i < n ==> s[i] == s[1..][i-1];
      n
  }

  /** str.split() without arguments. */
  function Split(s: string): (words: seq<string>)
    ensures forall w :: w in words ==> w != "" && NoSpace(w)
    decreases |s|
  {
    if s == "" then []
    else if IsSpace(s[0]) then Split(s[1..])
    else [s[..WordLength(s)]] + Split(s[WordLength(s)..])
  }

  lemma WordLengthAt(word: string, rest: string)
    requires NoSpace(word) && rest != "" && IsSpace(rest[0])
    ensures WordLength(word + rest) == |word|
  {
    if word == "" {
      assert word + rest == rest;
    } else {
      assert (word + rest)[1..] == word[1..] + rest;
      WordLengthAt(word[1..], rest);
    }
  }

  lemma SplitWord(word: string, rest: string)
    requires word != "" && NoSpace(word) && rest != "" && IsSpace(rest[0])
    ensures Split(word + rest) == [word] + Split(rest[1..])
  {
    WordLengthAt(word, rest);
    assert (word + rest)[..|word|] == word && (word + rest)[|word|..] == rest;
  }

  /** The first word of a text, whatever white space or nothing comes after it. */
  lemma SplitFirst(word: string, rest: string)
    requires word != "" && NoSpace(word) && (rest == "" || IsSpace(rest[0]))
    ensures Split(word + rest) == [word] + Split(rest)
  {
    if rest == "" {
      WordLengthWhole(word);
      assert word + rest == word && word[|word|..] == "";
    } else {
      SplitWord(word, rest);
    }
  }

  lemma {:induction false} WordLengthWhole(word: string)
    requires NoSpace(word)
    ensures WordLength(word) == |word|
  {
    if word != "" {
      WordLengthWhole(word[1..]);
    }
  }

  lemma SplitLine(b: string)
    requires b != "" && NoSpace(b)
    ensures Split(b + "\n") == [b]
  {
    SplitWord(b, "\n");
    assert "\n"[1..] == "";
  }

  /** Two words written as "a b\n" are read back by split(). */
  lemma SplitPair(a: string, b: string)
    requires a != "" && NoSpace(a) && b != "" && NoSpace(b)
    ensures Split(a + " " + b + "\n") == [a, b]
  {
    SplitSpaced(a, b + "\n");
    SplitLine(b);
    assert a + " " + b + "\n" == a + (" " + (b + "\n"));
  }

  lemma SplitSpaced(a: string, rest: string)
    requires a != "" && NoSpace(a)
    ensures Split(a + (" " + rest)) == [a] + Split(rest)
  {
    SplitWord(a, " " + rest);
    assert (" " + rest)[1..] == rest;
  }

  function TrimLeft(s: string): (t: string)
    ensures t == "" || !IsSpace(t[0])
    ensures |t| <= |s| && t == s[|s| - |t|..]
  {
    if s != "" && IsSpace(s[0]) then TrimLeft(s[1..]) else s
  }

  function TrimRight(s: string): (t: string)
    ensures t == "" || !IsSpace(t[|t|-1])
    ensures |t| <= |s| && t == s[..|t|]
  {
    if s != "" && IsSpace(s[|s|-1]) then TrimRight(s[..|s|-1]) else s
  }

  /** str.strip() without arguments. */
  function Strip(s: string): string {
    TrimRight(TrimLeft(s))
  }

  // ---- single characters ---------------------------------------------------------

  /** str.rstrip(c) */
  function DropTrailing(s: string, c: char): (t: string)
    ensures t <= s && (t == "" || t[|t|-1] != c)
  {
    if s != "" && s[|s|-1] == c then DropTrailing(s[..|s|-1], c) else s
  }

  /** What precedes the first `c` of `s`. */
  function BeforeFirst(s: string, c: char): (t: string)
    ensures c !in t && t <= s
  {
    if s == "" || s[0] == c then "" else [s[0]] + BeforeFirst(s[1..], c)
  }

  // ---- substrings --------------------------------------------------------------

  predicate OccursAt<T(==)>(whole: seq<T>, part: seq<T>, i: int) {
    0 <= i <= |whole| - |part| && whole[i..i + |part|] == part
  }

  /** `part in whole`. */
  predicate Contains<T(==)>(whole: seq<T>, part: seq<T>) {
    exists i | 0 <= i <= |whole| :: OccursAt(whole, part, i)
  }

  lemma Concat<T>(a: seq<T>, b: seq<T>, c: seq<T>)
    ensures a + b + c == a + (b + c)
  {}

  lemma TakeAll<T>(s: seq<T>)
    ensures s[..|s|] == s
  {}

  lemma TakeNext<T>(s: seq<T>, i: nat)
    requires i < |s|
    ensures s[..i+1] == s[..i] + [s[i]]
  {}

  /** All of a list of strings, in order. */
  function Flatten(parts: seq<string>): string {
    if parts == [] then [] else Flatten(parts[..|parts|-1]) + parts[|parts|-1]
  }

  // ---- decimal numbers -----------------------------------------------------------

  predicate IsDigit(c: char) {
    '0' <= c <= '9'
  }

  predicate AllDigits(s: string) {
    s != "" && forall i :: 0 <= i < |s| ==> IsDigit(s[i])
  }

  function DigitChar(d: nat): (c: char)
    requires d < 10
    ensures IsDigit(c)
  {
    '0' + d as char
  }

  function DigitValue(c: char): nat
    requires IsDigit(c)
  {
    c as int - '0' as int
  }

  /** The text f"{n}" of a number. */
  function Decimal(n: nat): (s: string)
    ensures AllDigits(s)
  {
    if n < 10 then [DigitChar(n)] else Decimal(n / 10) + [DigitChar(n % 10)]
  }

  function NatOf(s: string): nat
    requires forall i :: 0 <= i < |s| ==> IsDigit(s[i])
  {
    if s == "" then 0 else NatOf(s[..|s|-1]) * 10 + DigitValue(s[|s|-1])
  }

  lemma {:induction false} DecimalRoundTrip(n: nat)
    ensures NatOf(Decimal(n)) == n
  {
    if n < 10 {
      assert NatOf(Decimal(n)) == NatOf("") * 10 + n;
    } else {
      DecimalRoundTrip(n / 10);
      var s := Decimal(n);
      assert s[..|s|-1] == Decimal(n / 10);
    }
  }

  /** A positive number is written without a leading zero. */
  lemma {:induction false} DecimalLeadingDigit(n: nat)
    requires n > 0
    ensures Decimal(n)[0] != '0'
  {
    if n >= 10 {
      DecimalLeadingDigit(n / 10);
    }
  }

  lemma DigitIsNoSpace(s: string)
    requires AllDigits(s)
    ensures NoSpace(s)
  {}

  /** Digits in groups joined by single underscores, as int() accepts them. */
  predicate GroupedDigits(s: string) {
    && s != "" && IsDigit(s[0])
    && (|s| == 1 || GroupedDigits(s[1..]) || (s[1] == '_' && GroupedDigits(s[2..])))
  }

  function DigitsOf(s: string): (t: string)
    ensures forall i :: 0 <= i < |t| ==> IsDigit(t[i])
  {
    if s == "" then "" else (if IsDigit(s[0]) then [s[0]] else "") + DigitsOf(s[1..])
  }

  /** int(text): None stands for ValueError. */
  function ParseInt(text: string): Option<int> {
    var s := Strip(text);
    var signed := s != "" && s[0] in {'+', '-'};
    var body := if signed then s[1..] else s;
    if !GroupedDigits(body) then None
    else
      var n: int := NatOf(DigitsOf(body));
      Some(if signed && s[0] == '-' then -n else n)
  }

  lemma {:induction false} DigitsOfDigits(s: string)
    requires forall i :: 0 <= i < |s| ==> IsDigit(s[i])
    ensures DigitsOf(s) == s
    ensures s != "" ==> GroupedDigits(s)
  {
    if s != "" {
      DigitsOfDigits(s[1..]);
      assert s == [s[0]] + s[1..];
    }
  }

  lemma StripDigits(s: string)
    requires AllDigits(s)
    ensures Strip(s) == s
  {
    assert !IsSpace(s[0]) && !IsSpace(s[|s|-1]);
    assert TrimLeft(s) == s;
    assert TrimRight(s) == s;
  }

  /** On plain decimal digits int() is the value of the numeral. */
  lemma ParseDigits(s: string)
    requires AllDigits(s)
    ensures ParseInt(s) == Some(NatOf(s))
  {
    StripDigits(s);
    DigitsOfDigits(s);
    assert IsDigit(s[0]);
  }

  lemma ParseDecimal(n: nat)
    ensures ParseInt(Decimal(n)) == Some(n)
  {
    ParseDigits(Decimal(n));
    DecimalRoundTrip(n);
  }
}
