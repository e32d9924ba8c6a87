/** Mailbox names in modified UTF-7 (section 5.1.3 of RFC 3501). */
module Utf7 {
  import opened Domain

  lemma Regrouped<T>(a: seq<T>, b: seq<T>, c: seq<T>)
    ensures a + (b + c) == (a + b) + c
  {
  }

  // ----- numbers and their bits

  function Pow2(n: nat): (p: nat)
    ensures p >= 1
  {
    if n == 0 then 1 else 2 * Pow2(n - 1)
  }

  /** The lowest `n` bits of `v`, highest first. */
  function BitsOf(v: nat, n: nat): (bits: seq<bool>)
    ensures |bits| == n
  {
    if n == 0 then [] else BitsOf(v / 2, n - 1) + [v % 2 == 1]
  }

  function ValueOf(bits: seq<bool>): nat {
    if bits == [] then 0
    else 2 * ValueOf(bits[..|bits| - 1]) + if bits[|bits| - 1] then 1 else 0
  }

  lemma {:induction false} ValueOfBits(v: nat, n: nat)
    requires v < Pow2(n)
    ensures ValueOf(BitsOf(v, n)) == v
  {
    if n > 0 {
      ValueOfBits(v / 2, n - 1);
      assert BitsOf(v, n)[..n - 1] == BitsOf(v / 2, n - 1);
    }
  }

  lemma {:induction false} BitsOfValue(bits: seq<bool>)
    ensures ValueOf(bits) < Pow2(|bits|) && BitsOf(ValueOf(bits), |bits|) == bits
  {
    if bits != [] {
      BitsOfValue(bits[..|bits| - 1]);
    }
  }

  /** Shifting left by `k` bits and adding a smaller number appends its bits. */
  lemma {:induction false} BitsJoin(a: nat, n: nat, b: nat, k: nat)
    requires b < Pow2(k)
    ensures BitsOf(a * Pow2(k) + b, n + k) == BitsOf(a, n) + BitsOf(b, k)
  {
    if k > 0 {
      var p := Pow2(k - 1);
      assert a * Pow2(k) == 2 * (a * p);
      assert (a * Pow2(k) + b) / 2 == a * p + b / 2 && (a * Pow2(k) + b) % 2 == b % 2;
      BitsJoin(a, n, b / 2, k - 1);
    }
  }

  lemma {:induction false} ZeroBits(v: nat, n: nat)
    requires v < Pow2(n)
    ensures true !in BitsOf(v, n) <==> v == 0
  {
    if n > 0 {
      ZeroBits(v / 2, n - 1);
    }
  }

  lemma Powers()
    ensures Pow2(6) == 64 && Pow2(10) == 1024 && Pow2(16) == 65536
  {
    assert Pow2(3) == 8;
    assert Pow2(6) == 64;
    assert Pow2(9) == 512;
    assert Pow2(12) == 4096;
    assert Pow2(15) == 32768;
  }

  lemma {:induction false} PowerGrows(m: nat, n: nat)
    requires m <= n
    ensures Pow2(m) <= Pow2(n)
  {
    if m < n {
      PowerGrows(m, n - 1);
    }
  }

  lemma {:induction false} PowerSum(m: nat, n: nat)
    ensures Pow2(m + n) == Pow2(m) * Pow2(n)
  {
    if n > 0 {
      PowerSum(m, n - 1);
    }
  }

  // ----- bits in groups of `k`

  /** The bits of the numbers, `k` for each. */
  function Joined(values: seq<nat>, k: nat): (bits: seq<bool>)
    ensures |bits| == |values| * k
  {
    if values == [] then [] else BitsOf(values[0], k) + Joined(values[1..], k)
  }

  /** The numbers whose bits, `k` for each, these are; what is left over is dropped. */
  function Cut(bits: seq<bool>, k: nat): seq<nat>
    requires k > 0
  {
    if |bits| < k then [] else [ValueOf(bits[..k])] + Cut(bits[k..], k)
  }

  predicate Fit(values: seq<nat>, k: nat) {
    forall j :: 0 <= j < |values| ==> values[j] < Pow2(k)
  }

  lemma {:induction false} CutOfJoined(values: seq<nat>, k: nat)
    requires k > 0 && Fit(values, k)
    ensures Cut(Joined(values, k), k) == values
  {
    if values != [] {
      ValueOfBits(values[0], k);
      CutOfJoined(values[1..], k);
      assert Joined(values, k)[..k] == BitsOf(values[0], k);
      assert Joined(values, k)[k..] == Joined(values[1..], k);
    }
  }

  lemma {:induction false} JoinedOfCut(bits: seq<bool>, k: nat, n: nat)
    requires k > 0 && |bits| == n * k
    ensures Joined(Cut(bits, k), k) == bits && Fit(Cut(bits, k), k) && |Cut(bits, k)| == n
  {
    if n > 0 {
      OneMoreTimes(n, k);
      JoinedOfCut(bits[k..], k, n - 1);
      CutHead(bits, k);
    }
  }

  lemma OneMoreTimes(n: nat, k: nat)
    requires n > 0
    ensures n * k == (n - 1) * k + k && n * k >= k
  {
  }

  lemma JoinedCons(v: nat, values: seq<nat>, k: nat)
    ensures Joined([v] + values, k) == BitsOf(v, k) + Joined(values, k)
    ensures v < Pow2(k) && Fit(values, k) ==> Fit([v] + values, k)
  {
    assert ([v] + values)[1..] == values;
  }

  lemma CutHead(bits: seq<bool>, k: nat)
    requires 0 < k <= |bits| && Joined(Cut(bits[k..], k), k) == bits[k..] && Fit(Cut(bits[k..], k), k)
    ensures Joined(Cut(bits, k), k) == bits && Fit(Cut(bits, k), k) && |Cut(bits, k)| == |Cut(bits[k..], k)| + 1
  {
    hide Joined, Fit, BitsOf, ValueOf, Pow2;
    BitsOfValue(bits[..k]);
    JoinedCons(ValueOf(bits[..k]), Cut(bits[k..], k), k);
    assert Cut(bits, k) == [ValueOf(bits[..k])] + Cut(bits[k..], k);
    assert bits == bits[..k] + bits[k..];
  }

  lemma {:induction false} JoinedOneMore(values: seq<nat>, v: nat, k: nat)
    ensures Joined(values + [v], k) == Joined(values, k) + BitsOf(v, k)
  {
    if values == [] {
      assert [v][1..] == [];
    } else {
      JoinedOneMore(values[1..], v, k);
      assert (values + [v])[1..] == values[1..] + [v];
    }
  }

  // ----- the alphabet

  function LetterValue(c: char): (v: Option<nat>)
    ensures v.Some? ==> v.value < 64
  {
    if 'A' <= c <= 'Z' then Some(c as int - 'A' as int)
    else if 'a' <= c <= 'z' then Some(c as int - 'a' as int + 26)
    else if '0' <= c <= '9' then Some(c as int - '0' as int + 52)
    else if c == '+' then Some(62)
    else if c == ',' then Some(63)
    else None
  }

  function Letter(v: nat): (c: char)
    requires v < 64
    ensures LetterValue(c) == Some(v) && c != '-' && c != '&'
  {
    if v < 26 then ('A' as int + v) as char
    else if v < 52 then ('a' as int + v - 26) as char
    else if v < 62 then ('0' as int + v - 52) as char
    else if v == 62 then '+' else ','
  }

  /** The alphabet of base64 with a comma for its slash: the capitals first, then the
      small letters, the digits, the plus sign and the comma, each run in its order. */
  lemma AlphabetIs(c: char)
    ensures LetterValue(c).Some? <==> 'A' <= c <= 'Z' || 'a' <= c <= 'z' || '0' <= c <= '9' || c == '+' || c == ','
    ensures LetterValue('A') == Some(0) && LetterValue('a') == Some(26) && LetterValue('0') == Some(52)
    ensures LetterValue('+') == Some(62) && LetterValue(',') == Some(63)
    ensures 'A' < c <= 'Z' || 'a' < c <= 'z' || '0' < c <= '9' ==>
              LetterValue(c).value == LetterValue((c as int - 1) as char).GetOr(0) + 1
  {
  }

  function DigitsOf(group: string): Option<seq<nat>> {
    if group == "" then Some([])
    else
      var earlier, value := DigitsOf(group[..|group| - 1]), LetterValue(group[|group| - 1]);
      if earlier.Some? && value.Some? then Some(earlier.value + [value.value]) else None
  }

  function Letters(digits: seq<nat>): string
    requires Fit(digits, 6)
  {
    Powers();
    seq(|digits|, j requires 0 <= j < |digits| => Letter(digits[j]))
  }

  lemma {:induction false} DigitsOfLetters(digits: seq<nat>)
    requires Fit(digits, 6)
    ensures DigitsOf(Letters(digits)) == Some(digits)
  {
    if digits != [] {
      var n := |digits| - 1;
      DigitsOfLetters(digits[..n]);
      assert Letters(digits)[..n] == Letters(digits[..n]);
      assert digits == digits[..n] + [digits[n]];
    }
  }

  lemma {:induction false} LettersOfDigits(group: string)
    requires DigitsOf(group).Some?
    ensures Fit(DigitsOf(group).value, 6) && Letters(DigitsOf(group).value) == group
  {
    Powers();
    if group != "" {
      var n := |group| - 1;
      LettersOfDigits(group[..n]);
      var earlier := DigitsOf(group[..n]).value;
      assert Letter(LetterValue(group[n]).value) == group[n];
      assert DigitsOf(group).value == earlier + [LetterValue(group[n]).value];
      assert Letters(DigitsOf(group).value)[..n] == Letters(earlier);
    }
  }

  // ----- UTF-16

  function UnitsOf(c: char): seq<nat> {
    var v := c as int;
    if v < 0x10000 then [v] else [0xD800 + (v - 0x10000) / 0x400, 0xDC00 + (v - 0x10000) % 0x400]
  }

  /** The character a surrogate pair stands for. */
  function PairOf(high: nat, low: nat): (c: char)
    requires 0xD800 <= high < 0xDC00 && 0xDC00 <= low < 0xE000
    ensures UnitsOf(c) == [high, low]
  {
    (0x10000 + (high - 0xD800) * 0x400 + (low - 0xDC00)) as char
  }

  function ToUtf16(text: string): seq<nat> {
    if text == "" then [] else UnitsOf(text[0]) + ToUtf16(text[1..])
  }

  predicate CodeUnits(units: seq<nat>) {
    forall j :: 0 <= j < |units| ==> units[j] < 0x10000
  }

  /** The text of the code units; half of a surrogate pair makes no text. */
  function FromUtf16(units: seq<nat>): Option<string>
    requires CodeUnits(units)
  {
    if units == [] then Some("")
    else if units[0] < 0xD800 || 0xE000 <= units[0] then
      var rest := FromUtf16(units[1..]);
      if rest.Some? then Some([units[0] as char] + rest.value) else None
    else if units[0] < 0xDC00 && |units| > 1 && 0xDC00 <= units[1] < 0xE000 then
      var rest := FromUtf16(units[2..]);
      if rest.Some? then Some([PairOf(units[0], units[1])] + rest.value) else None
    else None
  }

  lemma PairOfUnits(c: char)
    requires c as int >= 0x10000
    ensures
      var units := UnitsOf(c);
      0xD800 <= units[0] < 0xDC00 && 0xDC00 <= units[1] < 0xE000 && PairOf(units[0], units[1]) == c
  {
  }

  lemma {:induction false} FromToUtf16(text: string)
    ensures CodeUnits(ToUtf16(text)) && FromUtf16(ToUtf16(text)) == Some(text)
  {
    if text != "" {
      FromToUtf16(text[1..]);
      if text[0] as int >= 0x10000 {
        PairOfUnits(text[0]);
      }
      assert text == [text[0]] + text[1..];
      assert ToUtf16(text)[|UnitsOf(text[0])|..] == ToUtf16(text[1..]);
    }
  }

  lemma ToUtf16First(c: char, rest: string)
    ensures ToUtf16([c] + rest) == UnitsOf(c) + ToUtf16(rest)
  {
    assert ([c] + rest)[1..] == rest;
  }

  lemma {:induction false} ToFromUtf16(units: seq<nat>)
    requires CodeUnits(units) && FromUtf16(units).Some?
    ensures ToUtf16(FromUtf16(units).value) == units
  {
    if units == [] {
    } else if units[0] < 0xD800 || 0xE000 <= units[0] {
      ToFromUtf16(units[1..]);
      ToUtf16First(units[0] as char, FromUtf16(units[1..]).value);
    } else {
      ToFromUtf16(units[2..]);
      ToUtf16First(PairOf(units[0], units[1]), FromUtf16(units[2..]).value);
    }
  }

  // ----- one group

  /** How many zero bits fill the last letter. */
  function Padding(bits: nat): nat {
    (6 - bits % 6) % 6
  }

  function Zeros(n: nat): seq<bool> {
    seq(n, _ => false)
  }

  lemma PaddingFillsUp(n: nat)
    ensures (n + Padding(n)) % 6 == 0
  {
    var q, r := n / 6, n % 6;
    assert n == 6 * q + r;
    assert r == 0 || n + Padding(n) == 6 * (q + 1);
  }

  lemma WholeLetters(digits: seq<nat>)
    ensures |Joined(digits, 6)| % 6 == 0
  {
    var n := |digits|;
    assert |Joined(digits, 6)| == 6 * n;
  }

  /** The bits of the code units, filled with zeros to whole letters. */
  function FilledBits(units: seq<nat>): (bits: seq<bool>)
    ensures |bits| % 6 == 0
  {
    var bits := Joined(units, 16);
    PaddingFillsUp(|bits|);
    bits + Zeros(Padding(|bits|))
  }

  lemma FilledCut(units: seq<nat>)
    ensures Fit(Cut(FilledBits(units), 6), 6) && Joined(Cut(FilledBits(units), 6), 6) == FilledBits(units)
  {
    JoinedOfCut(FilledBits(units), 6, |FilledBits(units)| / 6);
  }

  /** The text in UTF-16, in letters of six bits, the last one filled with zeros. */
  function EncodedGroup(text: string): string {
    FilledCut(ToUtf16(text));
    Letters(Cut(FilledBits(ToUtf16(text)), 6))
  }

  /** The code units of the group's bits; what is left over must be fewer than
      six zeros. */
  function UnitsIn(bits: seq<bool>): Option<seq<nat>> {
    var whole := |bits| / 16 * 16;
    if |bits| - whole >= 6 || true in bits[whole..] then None else Some(Cut(bits[..whole], 16))
  }

  lemma UnitsInAreCodeUnits(bits: seq<bool>)
    requires UnitsIn(bits).Some?
    ensures CodeUnits(UnitsIn(bits).value)
    ensures Joined(UnitsIn(bits).value, 16) == bits[..|bits| / 16 * 16]
  {
    Powers();
    JoinedOfCut(bits[..|bits| / 16 * 16], 16, |bits| / 16);
  }

  /** The text of one group between `&` and `-`. */
  function GroupText(group: string): Option<string> {
    var digits := DigitsOf(group);
    if digits.None? then None
    else
      var bits := Joined(digits.value, 6);
      var units := UnitsIn(bits);
      if units.None? then None
      else
        UnitsInAreCodeUnits(bits);
        FromUtf16(units.value)
  }

  lemma WholeUnits(n: nat, left: nat)
    requires left < 16
    ensures (n * 16 + left) / 16 * 16 == n * 16
  {
  }

  lemma UnitsInParts(front: seq<bool>, n: nat, rest: seq<bool>)
    requires |front| == n * 16 && |rest| < 16
    ensures UnitsIn(front + rest) == if |rest| >= 6 || true in rest then None else Some(Cut(front, 16))
  {
    WholeUnits(n, |rest|);
    assert (front + rest)[..|front|] == front && (front + rest)[|front|..] == rest;
  }

  lemma UnitsInFilled(units: seq<nat>)
    requires CodeUnits(units)
    ensures UnitsIn(FilledBits(units)) == Some(units)
  {
    var bits := Joined(units, 16);
    UnitsInParts(bits, |units|, Zeros(Padding(|bits|)));
    assert Cut(bits, 16) == units by {
      Powers();
      CutOfJoined(units, 16);
    }
  }

  lemma EncodedGroupDecodes(text: string)
    ensures GroupText(EncodedGroup(text)) == Some(text)
  {
    var units := ToUtf16(text);
    FromToUtf16(text);
    FilledCut(units);
    DigitsOfLetters(Cut(FilledBits(units), 6));
    UnitsInFilled(units);
  }

  lemma PaddingFills(all: nat, whole: nat)
    requires all % 6 == 0 && whole <= all < whole + 6
    ensures Padding(whole) == all - whole
  {
    var n := all / 6;
    assert all == 6 * n && whole % 6 == if whole == all then 0 else 6 - (all - whole);
  }

  /** Bits that are whole letters and hold the units are the units' bits, filled. */
  lemma BitsAreFilled(bits: seq<bool>)
    requires |bits| % 6 == 0 && UnitsIn(bits).Some?
    ensures bits == FilledBits(UnitsIn(bits).value)
  {
    var whole := |bits| / 16 * 16;
    UnitsInAreCodeUnits(bits);
    PaddingFills(|bits|, whole);
    var tail := bits[whole..];
    forall k | 0 <= k < |tail|
      ensures !tail[k]
    {
      assert tail[k] in tail;
    }
    assert tail == Zeros(|bits| - whole);
    assert bits == bits[..whole] + bits[whole..];
  }

  lemma DigitsAreEncoding(digits: seq<nat>, units: seq<nat>, text: string)
    requires Fit(digits, 6) && UnitsIn(Joined(digits, 6)) == Some(units)
    requires CodeUnits(units) && FromUtf16(units) == Some(text)
    ensures EncodedGroup(text) == Letters(digits)
  {
    ToFromUtf16(units);
    assert FilledBits(units) == Joined(digits, 6) by {
      WholeLetters(digits);
      BitsAreFilled(Joined(digits, 6));
    }
    assert Cut(FilledBits(units), 6) == digits by {
      CutOfJoined(digits, 6);
    }
  }

  lemma DecodedGroupIsEncoding(group: string, text: string)
    requires GroupText(group) == Some(text)
    ensures group == EncodedGroup(text)
  {
    var digits := DigitsOf(group).value;
    LettersOfDigits(group);
    UnitsInAreCodeUnits(Joined(digits, 6));
    DigitsAreEncoding(digits, UnitsIn(Joined(digits, 6)).value, text);
  }

  /** A group is read as a text exactly when it is that text's encoding: no letter
      is lost, none is invented, and fewer than six zero bits fill the last one. */
  lemma GroupTextIsItsEncoding(group: string, text: string)
    ensures GroupText(group) == Some(text) <==> group == EncodedGroup(text)
  {
    EncodedGroupDecodes(text);
    if GroupText(group) == Some(text) {
      DecodedGroupIsEncoding(group, text);
    }
  }

  /** What the loop has read of a group: the code units so far and the bits left over. */
  ghost predicate HasRead(group: string, units: seq<nat>, left: seq<bool>) {
    && CodeUnits(units)
    && DigitsOf(group).Some?
    && Joined(DigitsOf(group).value, 6) == Joined(units, 16) + left
  }

  lemma ReadsLetter(group: string, letter: char, units: seq<nat>, left: seq<bool>)
    requires HasRead(group, units, left) && LetterValue(letter).Some?
    ensures HasRead(group + [letter], units, left + BitsOf(LetterValue(letter).value, 6))
  {
    assert (group + [letter])[..|group|] == group;
    JoinedOneMore(DigitsOf(group).value, LetterValue(letter).value, 6);
    Regrouped(Joined(units, 16), left, BitsOf(LetterValue(letter).value, 6));
  }

  lemma TakesUnit(group: string, units: seq<nat>, unit: nat, rest: seq<bool>)
    requires HasRead(group, units, BitsOf(unit, 16) + rest) && unit < 0x10000
    ensures HasRead(group, units + [unit], rest)
  {
    JoinedOneMore(units, unit, 16);
    Regrouped(Joined(units, 16), BitsOf(unit, 16), rest);
  }

  /** The regrouping loop: six bits in, sixteen out. The accumulator never holds
      more than it counts, so neither the shift nor the cast to sixteen bits loses
      a bit of a 32-bit word. */
  method DecodeUtf16Group(group: string) returns (text: Option<string>)
    ensures text == GroupText(group)
  {
    hide GroupText, FromUtf16, BitsOf;
    var units: seq<nat> := [];
    var bits: nat, bitCount: nat := 0, 0;
    for i := 0 to |group|
      invariant bitCount < 16 && bits < Pow2(bitCount)
      invariant HasRead(group[..i], units, BitsOf(bits, bitCount))
    {
      var value := LetterValue(group[i]);
      assert group[..i + 1] == group[..i] + [group[i]];
      if value.None? {
        WrongLetter(group, i);
        return None;
      }
      ReadsLetter(group[..i], group[i], units, BitsOf(bits, bitCount));
      bits, bitCount := ShiftIn(bits, bitCount, value.value);
      if bitCount >= 16 {
        bitCount := bitCount - 16;
        var unit, rest := SplitUnit(bits, bitCount);
        TakesUnit(group[..i + 1], units, unit, BitsOf(rest, bitCount));
        units, bits := units + [unit], rest;
      }
    }
    assert group[..|group|] == group;
    GroupIsRead(group, units, bits, bitCount);
    if bitCount >= 6 || bits != 0 {
      return None;
    }
    return FromUtf16(units);
  }

  lemma {:induction false} NoDigitsLater(group: string, i: nat)
    requires i <= |group| && DigitsOf(group[..i]).None?
    ensures DigitsOf(group).None?
  {
    if i == |group| {
      assert group[..i] == group;
    } else {
      assert group[..|group| - 1][..i] == group[..i];
      NoDigitsLater(group[..|group| - 1], i);
    }
  }

  /** Six bits more, within a 32-bit word. */
  method ShiftIn(bits: nat, bitCount: nat, value: nat) returns (shifted: nat, count: nat)
    requires bits < Pow2(bitCount) && bitCount < 16 && value < 64
    ensures count == bitCount + 6 && shifted < Pow2(count) && shifted < 0x1_0000_0000
    ensures BitsOf(shifted, count) == BitsOf(bits, bitCount) + BitsOf(value, 6)
  {
    shifted, count := bits * 64 + value, bitCount + 6;
    Powers();
    PowerSum(bitCount, 6);
    PowerGrows(count, 22);
    PowerSum(16, 6);
    BitsJoin(bits, bitCount, value, 6);
  }

  lemma TimesGrows(a: nat, b: nat, c: nat)
    requires a <= b
    ensures a * c <= b * c
  {
  }

  lemma QuotientBelow(a: nat, b: nat, c: nat)
    requires c > 0 && a < b * c
    ensures a / c < b && a == a / c * c + a % c
  {
    if b <= a / c {
      TimesGrows(b, a / c, c);
    }
  }

  /** The sixteen highest bits, and those left. */
  method SplitUnit(bits: nat, left: nat) returns (unit: nat, rest: nat)
    requires bits < Pow2(left + 16)
    ensures unit < 0x10000 && rest < Pow2(left)
    ensures BitsOf(bits, left + 16) == BitsOf(unit, 16) + BitsOf(rest, left)
  {
    unit, rest := bits / Pow2(left), bits % Pow2(left);
    Powers();
    PowerSum(left, 16);
    QuotientBelow(bits, 0x10000, Pow2(left));
    BitsJoin(unit, 16, rest, left);
  }

  lemma WrongLetter(group: string, i: nat)
    requires i < |group| && LetterValue(group[i]).None?
    ensures GroupText(group).None?
  {
    assert group[..i + 1][..i] == group[..i];
    NoDigitsLater(group, i + 1);
  }

  lemma GroupIsRead(group: string, units: seq<nat>, bits: nat, bitCount: nat)
    requires HasRead(group, units, BitsOf(bits, bitCount)) && bitCount < 16 && bits < Pow2(bitCount)
    ensures GroupText(group) == if bitCount >= 6 || bits != 0 then None else FromUtf16(units)
  {
    LeftOver(units, bits, bitCount);
  }

  lemma LeftOver(units: seq<nat>, bits: nat, bitCount: nat)
    requires CodeUnits(units) && bitCount < 16 && bits < Pow2(bitCount)
    ensures UnitsIn(Joined(units, 16) + BitsOf(bits, bitCount)) == if bitCount >= 6 || bits != 0 then None else Some(units)
  {
    UnitsInParts(Joined(units, 16), |units|, BitsOf(bits, bitCount));
    ZeroBits(bits, bitCount);
    assert Cut(Joined(units, 16), 16) == units by {
      Powers();
      CutOfJoined(units, 16);
    }
  }

  // ----- whole names

  /** The place of the first `c`. */
  function Find(s: string, c: char): (at: Option<nat>)
    ensures at.Some? ==> at.value < |s| && s[at.value] == c && c !in s[..at.value]
    ensures at.None? ==> c !in s
  {
    if s == "" then None
    else if s[0] == c then Some(0)
    else
      var later := Find(s[1..], c);
      if later.Some? then
        assert s[..later.value + 1] == [s[0]] + s[1..][..later.value];
        Some(later.value + 1)
      else None
  }

  /** A group as it stands in a name. */
  function Closed(group: string): string {
    "&" + group + "-"
  }

  /** A name up to the end of its first group. */
  datatype Front = NoGroup | Unclosed | Group(plain: string, group: string, rest: string)

  lemma FrontParts(name: string, start: nat, length: nat)
    requires start < |name| && name[start] == '&'
    requires length < |name| - start - 1 && name[start + 1..][length] == '-'
    ensures name == name[..start] + (Closed(name[start + 1..][..length]) + name[start + length + 2..])
  {
    var after := name[start + 1..];
    var group, rest := after[..length], name[start + length + 2..];
    assert after == group + ("-" + rest);
    assert name == name[..start] + ("&" + after);
    Regrouped(group, "-", rest);
    Regrouped("&", group, "-");
    Regrouped("&", group + "-", rest);
  }

  function FrontOf(name: string): (front: Front)
    ensures front.NoGroup? ==> '&' !in name
    ensures front.Unclosed? ==> '&' in name
    ensures front.Group? ==>
              && '&' !in front.plain && '-' !in front.group && |front.rest| < |name|
              && name == front.plain + (Closed(front.group) + front.rest)
  {
    match Find(name, '&')
    case None => NoGroup
    case Some(start) =>
      match Find(name[start + 1..], '-')
      case None => Unclosed
      case Some(length) =>
        FrontParts(name, start, length);
        Group(name[..start], name[start + 1..][..length], name[start + length + 2..])
  }

  /** What a group says, by how a group that is not empty is read. */
  function GroupOf(read: string -> Option<string>, group: string): Option<string> {
    if group == "" then Some("&") else read(group)
  }

  function Prefixed(decoded: string, rest: Option<string>): Option<string> {
    if rest.Some? then Some(decoded + rest.value) else None
  }

  /** What a name's groups say, none when it is not valid modified UTF-7. */
  function DecodedGroups(read: string -> Option<string>, name: string): Option<string>
    decreases |name|
  {
    match FrontOf(name)
    case NoGroup => Some(name)
    case Unclosed => None
    case Group(plain, group, rest) =>
      var text := GroupOf(read, group);
      if text.None? then None else Prefixed(plain + text.value, DecodedGroups(read, rest))
  }

  lemma PrefixedTwice(a: string, b: string, rest: Option<string>)
    ensures Prefixed(a, Prefixed(b, rest)) == Prefixed(a + b, rest)
  {
    if rest.Some? {
      assert a + (b + rest.value) == a + b + rest.value;
    }
  }

  lemma PrefixedByNothing(rest: Option<string>)
    ensures Prefixed("", rest) == rest
  {
    if rest.Some? {
      assert "" + rest.value == rest.value;
    }
  }

  /** One group more, in front of what follows it. */
  lemma GroupDecoded(read: string -> Option<string>, decoded: string, rest: string, plain: string, group: string, later: string)
    requires FrontOf(rest) == Group(plain, group, later)
    ensures Prefixed(decoded, DecodedGroups(read, rest)) ==
            if GroupOf(read, group).None? then None
            else Prefixed(decoded + (plain + GroupOf(read, group).value), DecodedGroups(read, later))
  {
    if GroupOf(read, group).Some? {
      PrefixedTwice(decoded, plain + GroupOf(read, group).value, DecodedGroups(read, later));
    }
  }

  method NextGroup(rest: string) returns (front: Front)
    ensures front == FrontOf(rest)
  {
    var start := Find(rest, '&');
    if start.None? {
      return NoGroup;
    }
    var after := rest[start.value + 1..];
    var length := Find(after, '-');
    if length.None? {
      return Unclosed;
    }
    return Group(rest[..start.value], after[..length.value], rest[start.value + length.value + 2..]);
  }

  method DecodeGroup(group: string) returns (text: Option<string>)
    ensures text == GroupOf(GroupText, group)
  {
    if group == "" {
      text := Some("&");
    } else {
      text := DecodeUtf16Group(group);
    }
  }

  /** The groups in one pass, from the front. */
  method DecodeGroups(name: string) returns (text: Option<string>)
    ensures text == DecodedGroups(GroupText, name)
  {
    var decoded, rest := "", name;
    PrefixedByNothing(DecodedGroups(GroupText, name));
    var front := NextGroup(rest);
    while front.Group?
      invariant front == FrontOf(rest)
      invariant DecodedGroups(GroupText, name) == Prefixed(decoded, DecodedGroups(GroupText, rest))
      decreases |rest|
    {
      GroupDecoded(GroupText, decoded, rest, front.plain, front.group, front.rest);
      var groupText := DecodeGroup(front.group);
      if groupText.None? {
        return None;
      }
      decoded := decoded + (front.plain + groupText.value);
      rest := front.rest;
      front := NextGroup(rest);
    }
    return if front.Unclosed? then None else Some(decoded + rest);
  }

  /** The name as readable text; one that is not valid stays as the server sent it. */
  method Decode(name: string) returns (text: string)
    ensures text == DecodedGroups(GroupText, name).GetOr(name)
  {
    var decoded := DecodeGroups(name);
    return decoded.GetOr(name);
  }

  // ----- section 5.1.3 the other way

  /** A piece of a name as a server may write it. */
  datatype Segment = Plain(text: string) | Ampersand | Shifted(text: string) {
    /** A plain piece holds no `&`, a shifted one at least one character. */
    predicate Valid() {
      match this
      case Plain(t) => '&' !in t
      case Ampersand => true
      case Shifted(t) => t != ""
    }

    function Meaning(): string {
      match this
      case Plain(t) => t
      case Ampersand => "&"
      case Shifted(t) => t
    }

    function Written(): string {
      match this
      case Plain(t) => t
      case Ampersand => "&-"
      case Shifted(t) => Closed(EncodedGroup(t))
    }
  }

  predicate ValidSegments(segments: seq<Segment>) {
    forall i :: 0 <= i < |segments| ==> segments[i].Valid()
  }

  function Written(segments: seq<Segment>): string {
    if segments == [] then "" else segments[0].Written() + Written(segments[1..])
  }

  function Meaning(segments: seq<Segment>): string {
    if segments == [] then "" else segments[0].Meaning() + Meaning(segments[1..])
  }

  lemma {:induction false} FindIs(s: string, c: char, at: nat)
    requires at < |s| && s[at] == c && c !in s[..at]
    ensures Find(s, c) == Some(at)
  {
    if at > 0 {
      assert s[..at][0] == s[0];
      assert s[..at] == [s[0]] + s[1..][..at - 1];
      FindIs(s[1..], c, at - 1);
    }
  }

  lemma FrontIs(plain: string, group: string, rest: string)
    requires '&' !in plain && '-' !in group
    ensures FrontOf(plain + (Closed(group) + rest)) == Group(plain, group, rest)
  {
    var name := plain + (Closed(group) + rest);
    assert name[..|plain|] == plain;
    FindIs(name, '&', |plain|);
    var after := name[|plain| + 1..];
    assert after[..|group|] == group;
    FindIs(after, '-', |group|);
    assert name[|plain| + |group| + 2..] == rest;
  }

  lemma UnclosedIs(plain: string, after: string)
    requires '&' !in plain && '-' !in after
    ensures FrontOf(plain + ("&" + after)) == Unclosed
  {
    var name := plain + ("&" + after);
    assert name[..|plain|] == plain;
    FindIs(name, '&', |plain|);
    assert name[|plain| + 1..] == after;
  }

  lemma EncodedGroupLetters(text: string)
    ensures '-' !in EncodedGroup(text)
    ensures EncodedGroup(text) == "" <==> text == ""
  {
    FilledCut(ToUtf16(text));
    GroupTextIsItsEncoding("", "");
    GroupTextIsItsEncoding(EncodedGroup(text), text);
    GroupTextIsItsEncoding(EncodedGroup(text), "");
  }

  lemma GroupFirst(read: string -> Option<string>, group: string, rest: string)
    requires '-' !in group && GroupOf(read, group).Some?
    ensures DecodedGroups(read, Closed(group) + rest) == Prefixed(GroupOf(read, group).value, DecodedGroups(read, rest))
  {
    FrontIs("", group, rest);
    assert "" + (Closed(group) + rest) == Closed(group) + rest;
    assert "" + GroupOf(read, group).value == GroupOf(read, group).value;
  }

  lemma PlainBeforeGroup(read: string -> Option<string>, plain: string, before: string, group: string, later: string, rest: string)
    requires '&' !in plain && '&' !in before && '-' !in group && rest == before + (Closed(group) + later)
    ensures DecodedGroups(read, plain + rest) == Prefixed(plain, DecodedGroups(read, rest))
  {
    assert FrontOf(rest) == Group(before, group, later) by {
      FrontIs(before, group, later);
    }
    assert FrontOf(plain + rest) == Group(plain + before, group, later) by {
      Regrouped(plain, before, Closed(group) + later);
      FrontIs(plain + before, group, later);
    }
    GroupDecoded(read, plain, rest, before, group, later);
    if GroupOf(read, group).Some? {
      Regrouped(plain, before, GroupOf(read, group).value);
    }
  }

  lemma PlainBeforeUnclosed(plain: string, rest: string)
    requires '&' !in plain && FrontOf(rest).Unclosed?
    ensures FrontOf(plain + rest).Unclosed?
  {
    var at := Find(rest, '&').value;
    assert rest == rest[..at] + ("&" + rest[at + 1..]);
    Regrouped(plain, rest[..at], "&" + rest[at + 1..]);
    UnclosedIs(plain + rest[..at], rest[at + 1..]);
  }

  lemma PlainFirst(read: string -> Option<string>, plain: string, rest: string)
    requires '&' !in plain
    ensures DecodedGroups(read, plain + rest) == Prefixed(plain, DecodedGroups(read, rest))
  {
    match FrontOf(rest)
    case NoGroup => assert FrontOf(plain + rest).NoGroup?;
    case Unclosed => PlainBeforeUnclosed(plain, rest);
    case Group(before, group, later) => PlainBeforeGroup(read, plain, before, group, later, rest);
  }

  /** However a server cuts a name into plain pieces, escaped ampersands and
      shifted pieces, its written form decodes to what the pieces mean. */
  lemma {:induction false} WrittenDecodes(segments: seq<Segment>)
    requires ValidSegments(segments)
    ensures DecodedGroups(GroupText, Written(segments)) == Some(Meaning(segments))
  {
    if segments != [] {
      var rest := Written(segments[1..]);
      WrittenDecodes(segments[1..]);
      match segments[0]
      case Plain(t) => PlainFirst(GroupText, t, rest);
      case Ampersand =>
        assert Closed("") == "&-";
        GroupFirst(GroupText, "", rest);
      case Shifted(t) =>
        EncodedGroupLetters(t);
        GroupTextIsItsEncoding(EncodedGroup(t), t);
        GroupFirst(GroupText, EncodedGroup(t), rest);
    }
  }

  /** A name the decoder reads is the written form of some pieces, and nothing else is read. */
  lemma {:induction false} DecodedIsWritten(name: string) returns (segments: seq<Segment>)
    requires DecodedGroups(GroupText, name).Some?
    ensures ValidSegments(segments) && Written(segments) == name && Meaning(segments) == DecodedGroups(GroupText, name).value
    decreases |name|
  {
    match FrontOf(name) {
      case NoGroup =>
        segments := [Plain(name)];
        assert segments[1..] == [];
      case Group(plain, group, rest) =>
        var later := DecodedIsWritten(rest);
        segments := WithGroup(plain, group, later);
        Regrouped(plain, GroupOf(GroupText, group).value, Meaning(later));
    }
  }

  /** The piece a group is. */
  lemma PieceOf(group: string) returns (piece: Segment)
    requires GroupOf(GroupText, group).Some?
    ensures piece.Valid() && piece.Written() == Closed(group) && piece.Meaning() == GroupOf(GroupText, group).value
  {
    if group == "" {
      piece := Ampersand;
      assert Closed("") == "&-";
    } else {
      var text := GroupText(group).value;
      GroupTextIsItsEncoding(group, text);
      EncodedGroupLetters(text);
      piece := Shifted(text);
    }
  }

  lemma PlainPieceFirst(plain: string, segments: seq<Segment>)
    requires '&' !in plain && ValidSegments(segments)
    ensures
      var all := [Plain(plain)] + segments;
      ValidSegments(all) && Written(all) == plain + Written(segments) && Meaning(all) == plain + Meaning(segments)
  {
    assert ([Plain(plain)] + segments)[1..] == segments;
  }

  /** The pieces of a plain piece, a group and the pieces after it. */
  lemma WithGroup(plain: string, group: string, later: seq<Segment>) returns (segments: seq<Segment>)
    requires '&' !in plain && GroupOf(GroupText, group).Some? && ValidSegments(later)
    ensures ValidSegments(segments)
    ensures Written(segments) == plain + (Closed(group) + Written(later))
    ensures Meaning(segments) == plain + (GroupOf(GroupText, group).value + Meaning(later))
  {
    var piece := PieceOf(group);
    var tail := [piece] + later;
    assert tail[1..] == later;
    PlainPieceFirst(plain, tail);
    segments := [Plain(plain)] + tail;
  }

  // ----- the encoding itself

  /** Printable ASCII, which stands for itself. */
  predicate Printable(c: char) {
    ' ' <= c <= '~'
  }

  /** How many characters at the front are shifted together. */
  function ShiftedRun(text: string): (n: nat)
    ensures n <= |text| && forall j :: 0 <= j < n ==> !Printable(text[j])
    ensures text != "" && !Printable(text[0]) ==> n > 0
  {
    if text == "" || Printable(text[0]) then 0 else 1 + ShiftedRun(text[1..])
  }

  function SegmentsOf(text: string): (segments: seq<Segment>)
    ensures ValidSegments(segments) && Meaning(segments) == text
  {
    if text == "" then []
    else if text[0] == '&' then [Ampersand] + SegmentsOf(text[1..])
    else if Printable(text[0]) then [Plain(text[..1])] + SegmentsOf(text[1..])
    else
      var n := ShiftedRun(text);
      assert text == text[..n] + text[n..];
      [Shifted(text[..n])] + SegmentsOf(text[n..])
  }

  /** A name in modified UTF-7: `&` escaped, each run outside printable ASCII shifted. */
  function Encoded(text: string): string {
    Written(SegmentsOf(text))
  }

  /** Every Unicode name comes back from its encoding. */
  lemma EncodedDecodes(text: string)
    ensures DecodedGroups(GroupText, Encoded(text)) == Some(text)
  {
    WrittenDecodes(SegmentsOf(text));
  }
}
