/** Facts about sequences that grow at the end. */
module Growing {

  lemma AppendSnoc<T>(a: seq<T>, b: seq<T>, x: T)
    ensures a + (b + [x]) == a + b + [x]
  {
  }

  lemma AppendAll<T>(a: seq<T>, b: seq<T>, c: seq<T>)
    ensures a + (b + c) == a + b + c
  {
  }

  lemma FromEmpty<T>(a: seq<T>)
    ensures [] + a == a
  {
  }

  lemma SplitLast<T>(s: seq<T>)
    requires s != []
    ensures s[..|s| - 1] + [s[|s| - 1]] == s
  {
  }
}

/**
 The parts of Rust's standard text handling that recordings rest on: white space, lines,
 words and numerals.
 */
module Text {
  /** The characters with the Unicode property White_Space. */
  predicate IsWhite(c: char) {
    || '\t' <= c <= '\r' || c == ' ' || c == '\U{85}' || c == '\U{A0}' || c == '\U{1680}'
    || '\U{2000}' <= c <= '\U{200A}' || c == '\U{2028}' || c == '\U{2029}' || c == '\U{202F}'
    || c == '\U{205F}' || c == '\U{3000}'
  }

  /** A word: something, and no white space in it. */
  ghost predicate IsWord(s: string) {
    s != [] && forall i :: 0 <= i < |s| ==> !IsWhite(s[i])
  }

  // -------------------------------------------------------------------------- words

  /** How many characters stand before the first white space. */
  function WordLength(s: string): (n: nat)
    ensures n <= |s|
    ensures forall i :: 0 <= i < n ==> !IsWhite(s[i])
    ensures n < |s| ==> IsWhite(s[n])
  {
    if s == [] || IsWhite(s[0]) then 0 else 1 + WordLength(s[1..])
  }

  /** `str::split_whitespace`. */
  function Words(s: string): seq<string> {
    if s == [] then []
    else if IsWhite(s[0]) then Words(s[1..])
    else
      var n := WordLength(s);
      [s[..n]] + Words(s[n..])
  }

  /** Words with one space between. */
  function Join(words: seq<string>): string {
    if words == [] then []
    else if |words| == 1 then words[0]
    else words[0] + " " + Join(words[1..])
  }

  lemma {:induction false} WordLengthOf(w: string, rest: string)
    requires (forall i :: 0 <= i < |w| ==> !IsWhite(w[i])) && (rest == [] || IsWhite(rest[0]))
    ensures WordLength(w + rest) == |w|
  {
    if w == [] {
      assert w + rest == rest;
    } else {
      assert (w + rest)[1..] == w[1..] + rest;
      WordLengthOf(w[1..], rest);
    }
  }

  /** The first word of a text. */
  lemma FirstWord(w: string, rest: string)
    requires IsWord(w) && (rest == [] || IsWhite(rest[0]))
    ensures Words(w + rest) == [w] + Words(rest)
  {
    WordLengthOf(w, rest);
    var s := w + rest;
    assert s[0] == w[0] && s[..|w|] == w && s[|w|..] == rest;
  }

  lemma SpaceLeads(s: string)
    ensures Words(" " + s) == Words(s)
  {
    var t := " " + s;
    assert t[0] == ' ' && t[1..] == s;
  }

  lemma WordThen(w: string, s: string)
    requires IsWord(w)
    ensures Words(w + " " + s) == [w] + Words(s)
  {
    var t := " " + s;
    assert w + " " + s == w + t;
    assert IsWhite(t[0]);
    FirstWord(w, t);
    SpaceLeads(s);
  }

  /** Splitting undoes joining. */
  lemma {:induction false} SplitJoin(words: seq<string>)
    requires forall w :: w in words ==> IsWord(w)
    ensures Words(Join(words)) == words
  {
    if words != [] {
      assert words[0] in words;
      SplitJoin(words[1..]);
      if |words| == 1 {
        FirstWord(words[0], "");
        assert words[0] + "" == words[0];
      } else {
        WordThen(words[0], Join(words[1..]));
      }
    }
  }

  // -------------------------------------------------------------------------- trimming

  function TrimStart(s: string): string {
    if s != [] && IsWhite(s[0]) then TrimStart(s[1..]) else s
  }

  function TrimEnd(s: string): string {
    if s != [] && IsWhite(s[|s| - 1]) then TrimEnd(s[..|s| - 1]) else s
  }

  function Trim(s: string): string {
    TrimEnd(TrimStart(s))
  }

  lemma {:induction false} WordsOfTrimStart(s: string)
    ensures Words(TrimStart(s)) == Words(s)
    ensures TrimStart(s) == [] || !IsWhite(TrimStart(s)[0])
  {
    if s != [] && IsWhite(s[0]) { WordsOfTrimStart(s[1..]); }
  }

  lemma {:induction false} WordsDropLast(t: string, c: char)
    requires IsWhite(c)
    ensures Words(t + [c]) == Words(t)
    decreases |t|
  {
    var s := t + [c];
    if t == [] {
      assert s[1..] == [];
    } else if IsWhite(t[0]) {
      assert s[1..] == t[1..] + [c];
      WordsDropLast(t[1..], c);
    } else {
      var n := WordLength(t);
      var w, rest := t[..n], t[n..];
      assert t == w + rest && s == w + (rest + [c]);
      FirstWord(w, rest);
      FirstWord(w, rest + [c]);
      WordsDropLast(rest, c);
    }
  }

  lemma {:induction false} WordsOfTrimEnd(s: string)
    ensures Words(TrimEnd(s)) == Words(s)
    ensures s != [] && !IsWhite(s[0]) ==> TrimEnd(s) != [] && TrimEnd(s)[0] == s[0]
  {
    if s != [] && IsWhite(s[|s| - 1]) {
      var t := s[..|s| - 1];
      assert s == t + [s[|s| - 1]];
      WordsDropLast(t, s[|s| - 1]);
      WordsOfTrimEnd(t);
    }
  }

  /** Trimming keeps the words, and leaves nothing, or a word first. */
  lemma TrimmedWords(s: string)
    ensures Words(Trim(s)) == Words(s)
    ensures Trim(s) == [] <==> Words(s) == []
    ensures Trim(s) != [] ==> Words(s)[0] != [] && Words(s)[0][0] == Trim(s)[0]
  {
    WordsOfTrimStart(s);
    WordsOfTrimEnd(TrimStart(s));
    var t := Trim(s);
    if TrimStart(s) == [] {
      assert t == [];
    } else {
      assert Words(t)[0] == t[..WordLength(t)];
    }
  }

  // -------------------------------------------------------------------------- lines

  /** How many characters stand before the first newline. */
  function LineLength(s: string): (n: nat)
    ensures n <= |s|
    ensures forall i :: 0 <= i < n ==> s[i] != '\n'
    ensures n < |s| ==> s[n] == '\n'
  {
    if s == [] || s[0] == '\n' then 0 else 1 + LineLength(s[1..])
  }

  function WithoutReturn(s: string): string {
    if s != [] && s[|s| - 1] == '\r' then s[..|s| - 1] else s
  }

  /** `str::lines`: a final newline is optional, and a return before a newline goes with it. */
  function Lines(s: string): seq<string>
    decreases |s|
  {
    if s == [] then []
    else
      var n := LineLength(s);
      if n == |s| then [s] else [WithoutReturn(s[..n])] + Lines(s[n + 1..])
  }

  lemma {:induction false} LineLengthIs(s: string, n: nat)
    requires n < |s| && s[n] == '\n' && forall i :: 0 <= i < n ==> s[i] != '\n'
    ensures LineLength(s) == n
  {
    if n > 0 {
      assert s[0] != '\n';
      LineLengthIs(s[1..], n - 1);
    }
  }

  /** The first line of a text is what stands before its first newline. */
  lemma LinesCut(s: string, n: nat)
    requires n < |s| && s[n] == '\n' && forall i :: 0 <= i < n ==> s[i] != '\n'
    ensures Lines(s) == [WithoutReturn(s[..n])] + Lines(s[n + 1..])
  {
    LineLengthIs(s, n);
  }

  lemma Regroup(x: seq<string>, y: seq<string>, z: seq<string>)
    ensures x + (y + z) == (x + y) + z
  {
  }

  lemma CutOfBoth(a: string, b: string, n: nat)
    requires n < |a| && a[n] == '\n' && forall i :: 0 <= i < n ==> a[i] != '\n'
    ensures Lines(a + b) == [WithoutReturn(a[..n])] + Lines(a[n + 1..] + b)
  {
    var both := a + b;
    assert both[..n] == a[..n];
    assert both[n + 1..] == a[n + 1..] + b;
    LinesCut(both, n);
  }

  /** Text that ends a line can be followed by any other. */
  lemma {:induction false} LinesAppend(a: string, b: string)
    requires a == [] || a[|a| - 1] == '\n'
    ensures Lines(a + b) == Lines(a) + Lines(b)
    decreases |a|
  {
    if a == [] {
      assert a + b == b;
    } else {
      var n := LineLength(a);
      var rest := a[n + 1..];
      var first := [WithoutReturn(a[..n])];
      LinesAppend(rest, b);
      assert Lines(a + b) == first + Lines(rest + b) by { CutOfBoth(a, b, n); }
      Regroup(first, Lines(rest), Lines(b));
    }
  }
}

/** Numerals, as `Display`, `{:x}` and `from_str_radix` write and read them. */
module Numerals {
  import opened Arith
  import opened Wrappers
  import opened Text

  function DigitChar(d: nat): char
    requires d < 16
  {
    "0123456789abcdef"[d]
  }

  function DigitValue(c: char, radix: nat): Option<nat> {
    var d := if '0' <= c <= '9' then c as nat - '0' as nat
             else if 'a' <= c <= 'f' then c as nat - 'a' as nat + 10
             else if 'A' <= c <= 'F' then c as nat - 'A' as nat + 10
             else radix;
    if d < radix then Some(d) else None
  }

  lemma DigitRoundTrip(d: nat, radix: nat)
    requires d < radix <= 16
    ensures DigitValue(DigitChar(d), radix) == Some(d)
    ensures IsPlain(DigitChar(d))
  {
  }

  /** None of the characters is white space, a sign or a comment mark, and all are ASCII. */
  ghost predicate AreDigits(s: string) {
    forall c :: c in s ==> IsPlain(c)
  }

  predicate IsPlain(c: char) {
    !IsWhite(c) && c != '+' && c != '-' && c != '#' && c < '\U{80}'
  }

  lemma OneDigit(d: nat)
    requires d < 16
    ensures AreDigits([DigitChar(d)])
  {
    DigitRoundTrip(d, 16);
  }

  /** The number that the digits spell. */
  function ValueOf(digits: string, radix: nat): Option<int> {
    if digits == [] then Some(0)
    else
      var last := |digits| - 1;
      var high, low := ValueOf(digits[..last], radix), DigitValue(digits[last], radix);
      if high.Some? && low.Some? then Some(high.value * radix + low.value) else None
  }

  /** `from_str_radix` for a type of this range: one sign, some digits, and no overflow. */
  function ParseInt(s: string, radix: nat, min: int, max: int): (r: Option<int>)
    ensures r.Some? ==> min <= r.value <= max
  {
    if s == [] then None
    else
      var negative := s[0] == '-' && min < 0;
      var digits := if s[0] == '+' || negative then s[1..] else s;
      var v := ValueOf(digits, radix);
      if digits == [] || v.None? then None
      else
        var i: int := if negative then -v.value else v.value;
        if min <= i <= max then Some(i) else None
  }

  function Decimal(n: nat): string {
    if n < 10 then [DigitChar(n)] else Decimal(n / 10) + [DigitChar(n % 10)]
  }

  function DecimalInt(i: int): string {
    if i < 0 then "-" + Decimal(-i) else Decimal(i)
  }

  lemma {:induction false} DecimalValue(n: nat)
    ensures ValueOf(Decimal(n), 10) == Some(n)
  {
    DigitRoundTrip(n % 10, 10);
    var s := Decimal(n);
    if n < 10 {
      assert s[..0] == [];
    } else {
      DecimalValue(n / 10);
      assert s[..|s| - 1] == Decimal(n / 10);
    }
  }

  lemma {:induction false} DecimalIsDigits(n: nat)
    ensures Decimal(n) != [] && AreDigits(Decimal(n))
  {
    OneDigit(n % 10);
    if n >= 10 { DecimalIsDigits(n / 10); }
  }

  lemma DigitsParse(s: string, radix: nat, min: int, max: int, n: nat)
    requires s != [] && AreDigits(s) && ValueOf(s, radix) == Some(n) && min <= n <= max
    ensures ParseInt(s, radix, min, max) == Some(n)
  {
    assert s[0] in s;
  }

  lemma MinusParses(s: string, digits: string, min: int, max: int, n: int)
    requires s == "-" + digits && digits != [] && ValueOf(digits, 10) == Some(n) && min <= -n <= max && min < 0
    ensures ParseInt(s, 10, min, max) == Some(-n)
  {
    assert s[0] == '-' && s[1..] == digits;
  }

  /** Reading a printed number gives it back, whatever its sign. */
  lemma NumberRoundTrip(i: int, min: int, max: int)
    requires min <= i <= max
    ensures ParseInt(DecimalInt(i), 10, min, max) == Some(i)
  {
    if i < 0 {
      DecimalValue(-i);
      DecimalIsDigits(-i);
      MinusParses(DecimalInt(i), Decimal(-i), min, max, -i);
    } else {
      DecimalValue(i);
      DecimalIsDigits(i);
      DigitsParse(Decimal(i), 10, min, max, i);
    }
  }

  lemma NumberIsWord(i: int)
    ensures IsWord(DecimalInt(i)) && DecimalInt(i)[0] != '#'
  {
    var digits := Decimal(if i < 0 then -i else i);
    DecimalIsDigits(if i < 0 then -i else i);
    DigitsAreWord(digits);
  }

  lemma DigitsAreWord(s: string)
    requires s != [] && AreDigits(s)
    ensures IsWord(s) && s[0] != '#'
  {
    assert forall i :: 0 <= i < |s| ==> s[i] in s;
  }

  function Pow16(w: nat): nat {
    if w == 0 then 1 else 16 * Pow16(w - 1)
  }

  /** `{:0wx}` of a number that fits. */
  function HexDigits(n: nat, w: nat): (s: string)
    ensures |s| == w
  {
    if w == 0 then [] else HexDigits(n / 16, w - 1) + [DigitChar(n % 16)]
  }

  lemma {:induction false} HexValue(n: nat, w: nat)
    requires n < Pow16(w)
    ensures ValueOf(HexDigits(n, w), 16) == Some(n)
  {
    if w > 0 {
      HexValue(n / 16, w - 1);
      DigitRoundTrip(n % 16, 16);
      assert HexDigits(n, w)[..w - 1] == HexDigits(n / 16, w - 1);
    }
  }

  lemma {:induction false} HexAreDigits(n: nat, w: nat)
    ensures AreDigits(HexDigits(n, w))
  {
    if w > 0 {
      HexAreDigits(n / 16, w - 1);
      OneDigit(n % 16);
    }
  }

  lemma HexRoundTrip(n: nat, w: nat, max: nat)
    requires n < Pow16(w) && n <= max && w > 0
    ensures ParseInt(HexDigits(n, w), 16, 0, max) == Some(n)
  {
    HexValue(n, w);
    HexAreDigits(n, w);
    DigitsParse(HexDigits(n, w), 16, 0, max, n);
  }

  // ------------------------------------------------------------------------ byte strings

  const EMPTY: string := "-"

  /** `{:02x}` of a byte. */
  function ByteDigits(b: U8): string { [DigitChar(b / 16), DigitChar(b % 16)] }

  /** Two digits a byte. */
  function BytePairs(bytes: seq<U8>): (s: string)
    ensures |s| == 2 * |bytes|
  {
    if bytes == [] then []
    else
      var last := |bytes| - 1;
      BytePairs(bytes[..last]) + ByteDigits(bytes[last])
  }

  /** A byte string as one word; nothing is written `-`, since an empty word would vanish. */
  function ToHex(bytes: seq<U8>): string {
    if bytes == [] then EMPTY else BytePairs(bytes)
  }

  method PrintHex(bytes: seq<U8>) returns (s: string)
    ensures s == ToHex(bytes)
  {
    s := "";
    if bytes == [] {
      return EMPTY;
    }
    for k := 0 to |bytes|
      invariant s == BytePairs(bytes[..k])
    {
      assert bytes[..k + 1][..k] == bytes[..k];
      s := s + ByteDigits(bytes[k]);
    }
    assert bytes[..|bytes|] == bytes;
  }

  /** How a pair of characters is read as a byte: with `from_str_radix`, or digit by digit. */
  function PairValue(pair: string, signs: bool): Option<U8>
    requires |pair| == 2
  {
    if signs then
      var v := ParseInt(pair, 16, 0, U8_MAX);
      if v.Some? then Some(v.value) else None
    else
      var high, low := DigitValue(pair[0], 16), DigitValue(pair[1], 16);
      if high.Some? && low.Some? then Some(high.value * 16 + low.value) else None
  }

  function PairValues(s: string, signs: bool): Option<seq<U8>>
    requires |s| % 2 == 0
  {
    if s == [] then Some([])
    else
      var last := |s| - 2;
      var before, b := PairValues(s[..last], signs), PairValue(s[last..], signs);
      if before.Some? && b.Some? then Some(before.value + [b.value]) else None
  }

  lemma PairRoundTrip(b: U8, signs: bool)
    ensures PairValue(ByteDigits(b), signs) == Some(b)
  {
    DigitRoundTrip(b / 16, 16);
    DigitRoundTrip(b % 16, 16);
    if signs {
      PairOfDigits(DigitChar(b / 16), DigitChar(b % 16), b / 16, b % 16);
    }
  }

  lemma PairOfDigits(high: char, low: char, h: nat, l: nat)
    requires IsPlain(high) && IsPlain(low) && h < 16 && l < 16
    requires DigitValue(high, 16) == Some(h) && DigitValue(low, 16) == Some(l)
    ensures ParseInt([high, low], 16, 0, U8_MAX) == Some(h * 16 + l)
  {
    assert [high, low][..1] == [high] && [high][..0] == [];
    assert ValueOf([high], 16) == Some(h);
    assert ValueOf([high, low], 16) == Some(h * 16 + l);
  }

  lemma OnePairMore(s: string, digits: string, signs: bool, bytes: seq<U8>, b: U8)
    requires |s| % 2 == 0 && |digits| == 2 && PairValues(s, signs) == Some(bytes) && PairValue(digits, signs) == Some(b)
    ensures PairValues(s + digits, signs) == Some(bytes + [b])
  {
    var t := s + digits;
    assert t[..|t| - 2] == s && t[|t| - 2..] == digits;
  }

  lemma BytePairsSnoc(front: seq<U8>, b: U8)
    ensures BytePairs(front + [b]) == BytePairs(front) + ByteDigits(b)
  {
    var bytes := front + [b];
    assert bytes[..|bytes| - 1] == front;
  }

  lemma {:induction false} PairsRoundTrip(bytes: seq<U8>, signs: bool)
    ensures PairValues(BytePairs(bytes), signs) == Some(bytes)
  {
    if bytes != [] {
      var front, b := bytes[..|bytes| - 1], bytes[|bytes| - 1];
      assert front + [b] == bytes;
      PairsRoundTrip(front, signs);
      LastPair(front, b, signs);
    }
  }

  lemma LastPair(front: seq<U8>, b: U8, signs: bool)
    requires PairValues(BytePairs(front), signs) == Some(front)
    ensures PairValues(BytePairs(front + [b]), signs) == Some(front + [b])
  {
    BytePairsSnoc(front, b);
    PairRoundTrip(b, signs);
    OnePairMore(BytePairs(front), ByteDigits(b), signs, front, b);
  }

  lemma {:induction false} PairsAreDigits(bytes: seq<U8>)
    ensures AreDigits(BytePairs(bytes))
  {
    if bytes != [] {
      var last := |bytes| - 1;
      PairsAreDigits(bytes[..last]);
      OneDigit(bytes[last] / 16);
      OneDigit(bytes[last] % 16);
    }
  }
}
