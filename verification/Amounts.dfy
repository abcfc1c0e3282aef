/**
 Amount text: formatAmount and the Vietnamese shorthand parser (parseAmount,
 parseDigits, parseInteger), with Go's 64-bit arithmetic written out.
 */
module Amounts {
  import opened Wrappers
  import opened Text

  const MAX_INT64: int := 0x7FFF_FFFF_FFFF_FFFF

  type int64 = x: int | -MAX_INT64 - 1 <= x <= MAX_INT64

  /** What a Go int64 holds after arithmetic whose exact result is x. */
  function Wrap64(x: int): (r: int64)
    ensures -MAX_INT64 - 1 <= x <= MAX_INT64 ==> r == x
  {
    (x + MAX_INT64 + 1) % (2 * (MAX_INT64 + 1)) - MAX_INT64 - 1
  }

  // ----- formatAmount -----

  function FormatInt(v: int64): string {
    if v < 0 then "-" + Digits(-(v as int)) else Digits(v)
  }

  /** A dot before every complete group of three characters, counted from the right. */
  function Grouped(d: string): string {
    if |d| <= 3 then d else Grouped(d[..|d| - 3]) + "." + d[|d| - 3..]
  }

  function AmountText(value: int64): string {
    if value < 0 then "-" + Grouped(FormatInt(Wrap64(-(value as int)))) else Grouped(FormatInt(value))
  }

  method FormatAmount(value: int64) returns (text: string)
    ensures text == AmountText(value)
  {
    var negative := value < 0;
    var magnitude: int64 := if negative then Wrap64(-(value as int)) else value;
    var digits := FormatInt(magnitude);
    ghost var plain := digits;
    var i := |digits| - 3;
    while i > 0
      invariant i <= |plain|
      invariant i > 0 ==> i <= |digits| && digits[..i] == plain[..i]
      invariant i > 0 ==> Grouped(plain) == Grouped(plain[..i]) + "." + digits[i..]
      invariant i <= 0 ==> Grouped(plain) == digits
    {
      if i > 3 {
        GroupSplit(digits[..i], digits[i..]);
        assert plain[..i][..i - 3] == plain[..i - 3];
      }
      digits := digits[..i] + "." + digits[i..];
      i := i - 3;
    }
    text := if negative then "-" + digits else digits;
  }

  lemma Reassociate(a: string, b: string, c: string, d: string, e: string)
    ensures (a + b + c) + d + e == a + b + (c + d + e)
  {
  }

  lemma LastGroupSplits(head: string, rest: string)
    requires |head| > 3
    ensures Grouped(head) + "." + rest ==
            Grouped(head[..|head| - 3]) + "." + (head[|head| - 3..] + "." + rest)
  {
    Reassociate(Grouped(head[..|head| - 3]), ".", head[|head| - 3..], ".", rest);
  }

  /** Inserting a dot after an ungrouped head moves the head three places to the left. */
  lemma GroupSplit(head: string, rest: string)
    requires |head| > 3
    ensures (head + "." + rest)[..|head| - 3] == head[..|head| - 3]
    ensures Grouped(head) + "." + rest == Grouped(head[..|head| - 3]) + "." + (head + "." + rest)[|head| - 3..]
  {
    LastGroupSplits(head, rest);
    assert (head + "." + rest)[|head| - 3..] == head[|head| - 3..] + "." + rest;
  }

  // ----- parseDigits -----

  predicate IsSeparator(c: char) {
    c == '.' || c == ','
  }

  /** strings.FieldsFunc at separators: empty fields are dropped; word is the field being read. */
  function FieldsFrom(s: string, word: string): seq<string> {
    if s == "" then (if word == "" then [] else [word])
    else if IsSeparator(s[0]) then (if word == "" then [] else [word]) + FieldsFrom(s[1..], "")
    else FieldsFrom(s[1..], word + [s[0]])
  }

  function Fields(s: string): seq<string> {
    FieldsFrom(s, "")
  }

  predicate GroupsWellFormed(parts: seq<string>) {
    forall i :: 0 <= i < |parts| ==>
      parts[i] != "" && AllDigits(parts[i]) && (i > 0 ==> |parts[i]| == 3) && (i == 0 ==> |parts[i]| <= 3)
  }

  function Concat(parts: seq<string>): (s: string)
    ensures GroupsWellFormed(parts) ==> AllDigits(s)
  {
    if parts == [] then "" else Concat(parts[..|parts| - 1]) + parts[|parts| - 1]
  }

  function ParseDigits(value: string): Option<int64> {
    var parts := Fields(value);
    if value == "" || !GroupsWellFormed(parts) || Concat(parts) == "" || Value(Concat(parts)) > MAX_INT64 then None
    else Some(Value(Concat(parts)))
  }

  // ----- parseAmount -----

  /** A JSON argument: an integer that fits int64, a string, null, or anything else. */
  datatype Raw = Number(value: int64) | Str(text: string) | Null | Other

  predicate HasSuffix(s: string, suffix: string) {
    |s| >= |suffix| && s[|s| - |suffix|..] == suffix
  }

  function TrimSuffix(s: string, suffix: string): string {
    if HasSuffix(s, suffix) then s[..|s| - |suffix|] else s
  }

  function TrimLeft(s: string): string {
    if s != "" && IsSpace(s[0]) then TrimLeft(s[1..]) else s
  }

  function TrimRight(s: string): string {
    if s != "" && IsSpace(s[|s| - 1]) then TrimRight(s[..|s| - 1]) else s
  }

  /** The capitals whose lower case is an ASCII letter: A to Z, the dotted I and the Kelvin sign. */
  function LowerChar(c: char): char {
    if 'A' <= c <= 'Z' then AsciiChar(c as int - 'A' as int + 'a' as int)
    else if c == '\U{0130}' then 'i'
    else if c == '\U{212A}' then 'k'
    else c
  }

  function AsciiChar(code: int): char
    requires 0 <= code < 128
  {
    code as char
  }

  function ToLower(s: string): string {
    seq(|s|, i requires 0 <= i < |s| => LowerChar(s[i]))
  }

  function RemoveSpaces(s: string): string {
    if s == "" then "" else (if s[0] == ' ' then "" else [s[0]]) + RemoveSpaces(s[1..])
  }

  function Normalize(text: string): string {
    RemoveSpaces(ToLower(TrimRight(TrimLeft(TrimSuffix(TrimSuffix(text, "đ"), "d")))))
  }

  function Millions(whole: int64, fraction: int64, width: nat): int64
    requires width <= 3
  {
    Wrap64(whole * 1_000_000 + fraction * Pow10(6 - width))
  }

  /** The amount with the unit between wholeText and after. */
  function UnitBetween(wholeText: string, after: string): Option<int64> {
    var fractionText := if after != "" && after[0] == '.' then after[1..] else after;
    var parts := Fields(wholeText);
    if fractionText != "" && ParseDigits(wholeText).Some? && ParseDigits(fractionText).Some? && |fractionText| <= 3 then
      Some(Millions(ParseDigits(wholeText).value, ParseDigits(fractionText).value, |fractionText|))
    else if |parts| == 2 && |parts[1]| <= 3 && ParseDigits(parts[0]).Some? && ParseDigits(parts[1]).Some? then
      Some(Millions(ParseDigits(parts[0]).value, ParseDigits(parts[1]).value, |parts[1]|))
    else if ParseDigits(wholeText).Some? then
      Some(Wrap64(ParseDigits(wholeText).value * 1_000_000))
    else
      None
  }

  /** One turn of the loop over "trieu" and "tr": Some when the turn returns. */
  function TrySuffix(text: string, suffix: string): Option<int64> {
    var index := IndexFrom(text, suffix, 0);
    if index <= 0 || index + |suffix| > |text| then None
    else UnitBetween(text[..index], text[index + |suffix|..])
  }

  function ParseInteger(text: string, multiplier: int64): Option<int64> {
    match ParseDigits(text)
    case None => None
    case Some(n) => Some(Wrap64(n * multiplier))
  }

  function ParseAmountText(text: string): Option<int64> {
    if HasSuffix(text, "k") || HasSuffix(text, "nghin") then
      ParseInteger(TrimSuffix(TrimSuffix(text, "k"), "nghin"), 1000)
    else if TrySuffix(text, "trieu").Some? then TrySuffix(text, "trieu")
    else if TrySuffix(text, "tr").Some? then TrySuffix(text, "tr")
    else ParseDigits(text)
  }

  function ParseAmount(raw: Raw): Option<int64> {
    match raw
    case Number(value) => Some(value)
    case Null => Some(0)
    case Str(text) => ParseAmountText(Normalize(text))
    case Other => None
  }

  method Int64Pow10(power: int) returns (value: int64)
    ensures value == Wrap64(Pow10(if power < 0 then 0 else power))
  {
    value := 1;
    var i := 0;
    while i < power
      invariant 0 <= i && (power >= 0 ==> i <= power) && (power < 0 ==> i == 0)
      invariant value == Wrap64(Pow10(i))
    {
      WrapTimesTen(Pow10(i));
      value := Wrap64(value * 10);
      i := i + 1;
    }
  }

  lemma WrapTimesTen(x: int)
    ensures Wrap64(Wrap64(x) * 10) == Wrap64(10 * x)
  {
    var m := 2 * (MAX_INT64 + 1);
    var q := (x + MAX_INT64 + 1) / m;
    assert Wrap64(x) == x - q * m;
    assert Wrap64(x) * 10 == 10 * x - (10 * q) * m;
    WrapPeriodic(10 * x, 10 * q);
  }

  lemma WrapPeriodic(x: int, k: int)
    ensures Wrap64(x - k * (2 * (MAX_INT64 + 1))) == Wrap64(x)
  {
  }

  // ----- printing and reading grouped numerals -----

  /** The groups of Grouped(d), from the left. */
  function Groups(d: string): seq<string> {
    if |d| <= 3 then [d] else Groups(d[..|d| - 3]) + [d[|d| - 3..]]
  }

  lemma {:induction false} FieldsOfWord(g: string, word: string)
    requires AllDigits(g) && word + g != ""
    ensures FieldsFrom(g, word) == [word + g]
    decreases |g|
  {
    if g != "" {
      assert word + [g[0]] + g[1..] == word + g;
      FieldsOfWord(g[1..], word + [g[0]]);
    } else {
      assert word + g == word;
    }
  }

  lemma {:induction false} FieldsAppendGroup(s: string, sep: char, g: string, word: string)
    requires IsSeparator(sep) && AllDigits(g) && g != ""
    ensures FieldsFrom(s + [sep] + g, word) == FieldsFrom(s, word) + [g]
    decreases |s|
  {
    var t := s + [sep] + g;
    if s == "" {
      assert t[1..] == g;
      FieldsOfWord(g, "");
      assert "" + g == g;
    } else {
      assert t[1..] == s[1..] + [sep] + g;
      FieldsAppendGroup(s[1..], sep, g, if IsSeparator(s[0]) then "" else word + [s[0]]);
    }
  }

  lemma LastGroup(groups: seq<string>, g: string)
    requires groups != [] && GroupsWellFormed(groups) && |g| == 3 && AllDigits(g)
    ensures GroupsWellFormed(groups + [g]) && Concat(groups + [g]) == Concat(groups) + g
  {
    assert (groups + [g])[..|groups|] == groups;
  }

  lemma OneGroup(d: string)
    requires AllDigits(d) && 1 <= |d| <= 3
    ensures Fields(d) == [d] && GroupsWellFormed([d]) && Concat([d]) == d
  {
    FieldsOfWord(d, "");
    assert "" + d == d;
    assert [d][..0] == [];
  }

  lemma {:induction false} FieldsOfGrouped(d: string)
    requires AllDigits(d) && d != ""
    ensures Fields(Grouped(d)) == Groups(d) && GroupsWellFormed(Groups(d)) && Concat(Groups(d)) == d
    decreases |d|
  {
    hide FieldsFrom, GroupsWellFormed, Concat, IsDigit;
    if |d| <= 3 {
      OneGroup(d);
    } else {
      var front, g := d[..|d| - 3], d[|d| - 3..];
      FieldsOfGrouped(front);
      FieldsAppendGroup(Grouped(front), '.', g, "");
      assert Groups(d) == Groups(front) + [g];
      LastGroup(Groups(front), g);
      assert d == front + g;
    }
  }

  /** parseDigits reads back every amount that formatAmount prints. */
  lemma ParseDigitsOfAmountText(n: int64)
    requires 0 <= n
    ensures ParseDigits(AmountText(n)) == Some(n)
  {
    var d := Digits(n);
    FieldsOfGrouped(d);
    ValueOfDigits(n);
    GroupedNonEmpty(d);
  }

  lemma GroupedNonEmpty(d: string)
    ensures d != "" ==> Grouped(d) != ""
  {
  }

  /** Groups of digits joined by single dots: one to three digits, then three in each. */
  predicate Dotted(s: string) {
    || (1 <= |s| <= 3 && AllDigits(s))
    || (|s| >= 5 && s[|s| - 4] == '.' && AllDigits(s[|s| - 3..]) && Dotted(s[..|s| - 4]))
  }

  predicate CanonicalAmount(s: string) {
    Dotted(s) && (s[0] != '0' || s == "0")
  }

  function Undotted(s: string): (d: string)
    requires Dotted(s)
    ensures AllDigits(d) && d != "" && d[0] == s[0]
    ensures |d| == 1 ==> d == s
  {
    if |s| <= 3 then s else Undotted(s[..|s| - 4]) + s[|s| - 3..]
  }

  lemma SplitAt(s: string, k: nat)
    requires k < |s|
    ensures s == s[..k] + [s[k]] + s[k + 1..]
  {
  }

  lemma UndottedSplit(s: string)
    requires Dotted(s) && |s| > 3
    ensures Undotted(s) == Undotted(s[..|s| - 4]) + s[|s| - 3..]
    ensures s == s[..|s| - 4] + "." + s[|s| - 3..]
  {
    hide AllDigits;
    SplitAt(s, |s| - 4);
  }

  lemma GroupedJoin(front: string, last: string)
    requires front != "" && |last| == 3
    ensures Grouped(front + last) == Grouped(front) + "." + last
  {
    assert (front + last)[..|front + last| - 3] == front && (front + last)[|front + last| - 3..] == last;
  }

  lemma {:induction false} GroupedOfUndotted(s: string)
    requires Dotted(s)
    ensures Grouped(Undotted(s)) == s
    decreases |s|
  {
    if |s| > 3 {
      hide Grouped, Undotted, AllDigits;
      var front := s[..|s| - 4];
      GroupedOfUndotted(front);
      UndottedSplit(s);
      GroupedJoin(Undotted(front), s[|s| - 3..]);
    }
  }

  lemma {:induction false} GroupedIsDotted(d: string)
    requires AllDigits(d) && d != ""
    ensures Dotted(Grouped(d)) && Grouped(d)[0] == d[0] && (Grouped(d) == "0" <==> d == "0")
    decreases |d|
  {
    if |d| > 3 {
      var front := d[..|d| - 3];
      GroupedIsDotted(front);
      var s := Grouped(d);
      assert s[..|s| - 4] == Grouped(front) && s[|s| - 3..] == d[|d| - 3..];
    }
  }

  /** A text is canonical and accepted with value n exactly when it is what formatAmount prints for n. */
  lemma CanonicalAmountsArePrinted(s: string, n: int64)
    requires 0 <= n
    ensures CanonicalAmount(s) && ParseDigits(s) == Some(n) <==> s == AmountText(n)
  {
    ParseDigitsOfAmountText(n);
    ValueOfDigits(n);
    GroupedIsDotted(Digits(n));
    if CanonicalAmount(s) && ParseDigits(s) == Some(n) {
      var d := Undotted(s);
      GroupedOfUndotted(s);
      FieldsOfGrouped(d);
      DigitsOfValue(d);
    }
  }

  // ----- normalization leaves amount text alone -----

  /** Lower-case letters, digits and separators: nothing that trimming or folding touches. */
  predicate IsPlain(s: string) {
    forall i :: 0 <= i < |s| ==> IsDigit(s[i]) || IsSeparator(s[i]) || 'a' <= s[i] <= 'z'
  }

  lemma {:induction false} RemoveSpacesPlain(s: string)
    requires IsPlain(s)
    ensures RemoveSpaces(s) == s
    decreases |s|
  {
    if s != "" {
      RemoveSpacesPlain(s[1..]);
      assert s == [s[0]] + s[1..];
    }
  }

  lemma LowerPlain(s: string)
    requires IsPlain(s)
    ensures ToLower(s) == s
  {
    forall i | 0 <= i < |s|
      ensures LowerChar(s[i]) == s[i]
    {
    }
    assert forall i :: 0 <= i < |s| ==> ToLower(s)[i] == LowerChar(s[i]);
  }

  lemma TrimPlain(s: string)
    requires IsPlain(s)
    ensures TrimLeft(s) == s && TrimRight(s) == s
  {
  }

  lemma FoldPlain(s: string)
    requires IsPlain(s)
    ensures RemoveSpaces(ToLower(TrimRight(TrimLeft(s)))) == s
  {
    TrimPlain(s);
    LowerPlain(s);
    RemoveSpacesPlain(s);
  }

  lemma SuffixEndsAlike(s: string, suffix: string)
    requires suffix != "" && HasSuffix(s, suffix)
    ensures s[|s| - 1] == suffix[|suffix| - 1]
  {
    assert s[|s| - |suffix|..][|suffix| - 1] == s[|s| - 1];
  }

  lemma TrimOtherSuffix(s: string, suffix: string)
    requires suffix != "" && (s == "" || s[|s| - 1] != suffix[|suffix| - 1])
    ensures TrimSuffix(s, suffix) == s
  {
    if HasSuffix(s, suffix) {
      SuffixEndsAlike(s, suffix);
    }
  }

  lemma TrimOwnSuffix(s: string, suffix: string)
    ensures TrimSuffix(s + suffix, suffix) == s
  {
    assert (s + suffix)[|s|..] == suffix && (s + suffix)[..|s|] == s;
  }

  /** One trailing "đ" and then one trailing "d" are dropped; other plain text is unchanged. */
  lemma NormalizePlain(s: string)
    requires IsPlain(s)
    ensures s == "" || s[|s| - 1] != 'd' ==> Normalize(s) == s
    ensures Normalize(s + "d") == s
    ensures s == "" || s[|s| - 1] != 'd' ==> Normalize(s + "đ") == s
  {
    FoldPlain(s);
    TrimOtherSuffix(s, "đ");
    TrimOtherSuffix(s + "d", "đ");
    TrimOwnSuffix(s, "d");
    TrimOwnSuffix(s, "đ");
    if s == "" || s[|s| - 1] != 'd' {
      TrimOtherSuffix(s, "d");
    }
  }

  // ----- shorthand -----

  /** A numeral: digits and separators only. */
  predicate IsNumeral(s: string) {
    forall i :: 0 <= i < |s| ==> IsDigit(s[i]) || IsSeparator(s[i])
  }

  lemma {:induction false} GroupedIsNumeral(d: string)
    requires AllDigits(d)
    ensures IsNumeral(Grouped(d))
    decreases |d|
  {
    if |d| > 3 {
      GroupedIsNumeral(d[..|d| - 3]);
    }
  }

  lemma {:induction false} IndexOfAbsent(s: string, sub: string, i: nat, j: nat)
    requires j < |sub| && forall k :: 0 <= k < |s| ==> s[k] != sub[j]
    ensures IndexFrom(s, sub, i) == -1
    decreases |s| - i
  {
    if i + |sub| <= |s| {
      assert s[i..i + |sub|][j] == s[i + j];
      IndexOfAbsent(s, sub, i + 1, j);
    }
  }

  lemma {:induction false} IndexAfterNumeral(whole: string, sub: string, after: string, i: nat)
    requires IsNumeral(whole) && sub != "" && 'a' <= sub[0] <= 'z' && i <= |whole|
    ensures IndexFrom(whole + sub + after, sub, i) == |whole|
    decreases |whole| - i
  {
    var s := whole + sub + after;
    if i < |whole| {
      assert s[i..i + |sub|][0] == whole[i];
      IndexAfterNumeral(whole, sub, after, i + 1);
    } else {
      assert s[i..i + |sub|] == sub;
    }
  }

  lemma NotThousands(s: string)
    requires s != "" && s[|s| - 1] != 'k' && s[|s| - 1] != 'n'
    ensures !HasSuffix(s, "k") && !HasSuffix(s, "nghin")
  {
    TrimOtherSuffix(s, "k");
    TrimOtherSuffix(s, "nghin");
  }

  lemma ReadPlainNumeral(s: string)
    requires IsNumeral(s) && s != ""
    ensures ParseAmountText(s) == ParseDigits(s)
  {
    NotThousands(s);
    IndexOfAbsent(s, "trieu", 0, 0);
    IndexOfAbsent(s, "tr", 0, 0);
  }

  /** A numeral without a unit means itself, with or without a trailing "d" or "đ". */
  lemma ParseAmountOfNumeral(s: string)
    requires IsNumeral(s) && s != ""
    ensures ParseAmount(Str(s)) == ParseDigits(s)
    ensures ParseAmount(Str(s + "d")) == ParseDigits(s)
    ensures ParseAmount(Str(s + "đ")) == ParseDigits(s)
  {
    NormalizePlain(s);
    ReadPlainNumeral(s);
  }

  /** Every printed amount is read back exactly, with or without the currency sign. */
  lemma ParseAmountOfAmountText(n: int64)
    requires 0 <= n
    ensures ParseAmount(Str(AmountText(n))) == Some(n)
    ensures ParseAmount(Str(AmountText(n) + "d")) == Some(n)
    ensures ParseAmount(Str(AmountText(n) + "đ")) == Some(n)
  {
    GroupedIsNumeral(Digits(n));
    GroupedNonEmpty(Digits(n));
    ParseDigitsOfAmountText(n);
    ParseAmountOfNumeral(AmountText(n));
  }

  lemma IndexIsPosition(whole: string, sub: string, after: string)
    requires IsNumeral(whole) && sub != "" && 'a' <= sub[0] <= 'z'
    ensures var s := whole + sub + after;
            IndexFrom(s, sub, 0) == |whole| && s[..|whole|] == whole && s[|whole| + |sub|..] == after
  {
    IndexAfterNumeral(whole, sub, after, 0);
  }

  lemma {:induction false} FieldsAreDigits(s: string, word: string)
    requires forall i :: 0 <= i < |FieldsFrom(s, word)| ==> AllDigits(FieldsFrom(s, word)[i])
    ensures IsNumeral(s) && AllDigits(word)
    decreases |s|
  {
    var fields := FieldsFrom(s, word);
    if s == "" {
      assert word == "" || fields[0] == word;
    } else if IsSeparator(s[0]) {
      var rest := FieldsFrom(s[1..], "");
      assert word == "" || fields[0] == word;
      assert forall i :: 0 <= i < |rest| ==> rest[i] == fields[if word == "" then i else i + 1];
      FieldsAreDigits(s[1..], "");
    } else {
      FieldsAreDigits(s[1..], word + [s[0]]);
      assert (word + [s[0]])[|word|] == s[0];
      assert forall i :: 0 <= i < |word| ==> (word + [s[0]])[i] == word[i];
    }
  }

  lemma ReadableIsNumeral(s: string)
    requires ParseDigits(s).Some?
    ensures s != "" && IsNumeral(s)
  {
    assert GroupsWellFormed(Fields(s));
    FieldsAreDigits(s, "");
  }

  /** One group of one to three digits. */
  predicate ShortNumeral(s: string) {
    1 <= |s| <= 3 && AllDigits(s)
  }

  lemma PowersToSix()
    ensures Pow10(1) == 10 && Pow10(2) == 100 && Pow10(3) == 1000
    ensures Pow10(4) == 10_000 && Pow10(5) == 100_000 && Pow10(6) == 1_000_000
  {
    assert Pow10(3) == 1000;
    assert Pow10(6) == 1000 * Pow10(3);
  }

  lemma ReadShortNumeral(s: string)
    requires ShortNumeral(s)
    ensures Fields(s) == [s] && ParseDigits(s) == Some(Value(s)) && Value(s) < 1000
  {
    hide Fields, GroupsWellFormed, Concat, Value, Pow10, Fixed;
    OneGroup(s);
    FixedOfValue(s);
    PowersToSix();
  }

  /** The number "whole million and fraction" denotes, before it is cut to 64 bits. */
  function ExactMillions(whole: int, fraction: string): int
    requires ShortNumeral(fraction)
  {
    whole * 1_000_000 + Value(fraction) * Pow10(6 - |fraction|)
  }

  lemma FractionAfterUnit(whole: string, unit: string, fraction: string)
    requires ParseDigits(whole).Some? && ShortNumeral(fraction) && (unit == "tr" || unit == "trieu")
    ensures TrySuffix(whole + unit + fraction, unit) ==
            Some(Wrap64(ExactMillions(ParseDigits(whole).value, fraction)))
  {
    ReadableIsNumeral(whole);
    ReadShortNumeral(fraction);
    IndexIsPosition(whole, unit, fraction);
  }

  lemma NothingAfterUnit(numeral: string, unit: string)
    requires IsNumeral(numeral) && numeral != "" && (unit == "tr" || unit == "trieu")
    ensures TrySuffix(numeral + unit, unit) == UnitBetween(numeral, "")
  {
    IndexIsPosition(numeral, unit, "");
    assert numeral + unit + "" == numeral + unit;
  }

  lemma TwoFields(text: string, whole: string, fraction: string)
    requires Fields(text) == [whole, fraction] && |fraction| <= 3
    requires ParseDigits(whole).Some? && ParseDigits(fraction).Some?
    ensures UnitBetween(text, "") == Some(Millions(ParseDigits(whole).value, ParseDigits(fraction).value, |fraction|))
  {
    hide Fields, ParseDigits, Millions;
  }

  lemma MillionsAreExact(whole: int64, fraction: string, b: int64)
    requires ShortNumeral(fraction) && b == Value(fraction)
    ensures Millions(whole, b, |fraction|) == Wrap64(ExactMillions(whole, fraction))
  {
    hide Value, Pow10, Wrap64, AllDigits;
  }

  lemma FractionBeforeUnit(whole: string, sep: char, fraction: string)
    requires ShortNumeral(whole) && IsSeparator(sep) && ShortNumeral(fraction)
    ensures UnitBetween(whole + [sep] + fraction, "") == Some(Wrap64(ExactMillions(Value(whole), fraction)))
  {
    ShortIsDigits(fraction);
    hide *;
    ReadShortNumeral(whole);
    ReadShortNumeral(fraction);
    FieldsAppend(whole, sep, fraction);
    TwoFields(whole + [sep] + fraction, whole, fraction);
    MillionsAreExact(Value(whole), fraction, Value(fraction));
  }

  lemma ShortIsDigits(s: string)
    requires ShortNumeral(s)
    ensures AllDigits(s) && 1 <= |s| <= 3
  {
  }

  lemma FieldsAppend(s: string, sep: char, g: string)
    requires IsSeparator(sep) && AllDigits(g) && g != ""
    ensures Fields(s + [sep] + g) == Fields(s) + [g]
  {
    FieldsAppendGroup(s, sep, g, "");
  }

  lemma ReadTrieu(text: string)
    requires !HasSuffix(text, "k") && !HasSuffix(text, "nghin") && TrySuffix(text, "trieu").Some?
    ensures ParseAmountText(text) == TrySuffix(text, "trieu")
  {
  }

  lemma ReadTr(text: string)
    requires !HasSuffix(text, "k") && !HasSuffix(text, "nghin") && 'i' !in text && TrySuffix(text, "tr").Some?
    ensures ParseAmountText(text) == TrySuffix(text, "tr")
  {
    IndexOfAbsent(text, "trieu", 0, 2);
    assert TrySuffix(text, "trieu") == None;
  }

  /** Text that has a unit and no "k" or "n" at its end is read by that unit's turn of the loop. */
  lemma ReadUnitText(text: string, unit: string)
    requires IsPlain(text) && text != "" && text[|text| - 1] != 'd' && text[|text| - 1] != 'k'
             && text[|text| - 1] != 'n'
    requires unit == "trieu" || (unit == "tr" && 'i' !in text)
    requires TrySuffix(text, unit).Some?
    ensures ParseAmount(Str(text)) == TrySuffix(text, unit)
  {
    NotThousands(text);
    if unit == "tr" {
      ReadTr(text);
    } else {
      ReadTrieu(text);
    }
    NormalizePlain(text);
  }

  /** "AtrB" and "AtrieuB" denote A million and B as a decimal fraction; the int64 is exact unless that overflows. */
  lemma UnitThenFraction(whole: string, unit: string, fraction: string)
    requires ParseDigits(whole).Some? && ShortNumeral(fraction) && (unit == "tr" || unit == "trieu")
    ensures var exact := ExactMillions(ParseDigits(whole).value, fraction);
            && ParseAmount(Str(whole + unit + fraction)) == Some(Wrap64(exact))
            && (ParseAmount(Str(whole + unit + fraction)) == Some(exact) <==> exact <= MAX_INT64)
            && (ParseDigits(whole).value <= 9_223_372_036_853 ==> exact <= MAX_INT64)
  {
    ReadableIsNumeral(whole);
    ReadShortNumeral(fraction);
    FractionAfterUnit(whole, unit, fraction);
    ReadUnitText(whole + unit + fraction, unit);
    SmallFraction(fraction);
  }

  /** After the unit a dot changes nothing. */
  lemma DotAfterUnit(whole: string, unit: string, fraction: string)
    requires ParseDigits(whole).Some? && ShortNumeral(fraction) && (unit == "tr" || unit == "trieu")
    ensures ParseAmount(Str(whole + unit + "." + fraction)) == ParseAmount(Str(whole + unit + fraction))
  {
    hide ParseAmount, UnitBetween, Normalize, Millions;
    SeparatorAfterUnit(whole, unit, '.', fraction);
    ReadableIsNumeral(whole);
    ReadShortNumeral(fraction);
    FractionAfterUnit(whole, unit, fraction);
    ReadUnitText(whole + unit + fraction, unit);
    IndexIsPosition(whole, unit, fraction);
    SkipDot(whole, fraction);
  }

  lemma SkipDot(whole: string, fraction: string)
    requires fraction != "" && IsDigit(fraction[0])
    ensures UnitBetween(whole, ['.'] + fraction) == UnitBetween(whole, fraction)
  {
    assert (['.'] + fraction)[1..] == fraction;
  }

  lemma SeparatorAfterUnit(whole: string, unit: string, sep: char, fraction: string)
    requires ParseDigits(whole).Some? && ShortNumeral(fraction) && (unit == "tr" || unit == "trieu") && IsSeparator(sep)
    ensures ParseAmount(Str(whole + unit + [sep] + fraction)) == UnitBetween(whole, [sep] + fraction)
  {
    hide ParseAmount, UnitBetween, ParseDigits, IsDigit, IsSeparator, Value;
    var after := [sep] + fraction;
    assert whole + unit + [sep] + fraction == whole + unit + after;
    ReadableIsNumeral(whole);
    IndexIsPosition(whole, unit, after);
    UnitMeansSomething(whole, after);
    UnitTextIsPlain(whole, unit, sep, fraction);
    ReadUnitText(whole + unit + after, unit);
  }

  lemma UnitMeansSomething(whole: string, after: string)
    requires ParseDigits(whole).Some?
    ensures UnitBetween(whole, after).Some?
  {
    hide ParseDigits;
  }

  lemma UnitTextIsPlain(whole: string, unit: string, sep: char, fraction: string)
    requires IsNumeral(whole) && ShortNumeral(fraction) && (unit == "tr" || unit == "trieu") && IsSeparator(sep)
    ensures var text := whole + unit + ([sep] + fraction);
            && IsPlain(text) && text != "" && IsDigit(text[|text| - 1]) && (unit == "tr" ==> 'i' !in text)
  {
  }

  /**
   After the unit a comma is counted as a digit of the fraction: "AtrieuB" with one comma before B of one or two
   digits means a tenth of that fraction, so it is read like the dot only for a fraction of zero; and three digits
   after a comma are not read at all.
   */
  lemma CommaAfterUnit(whole: string, unit: string, fraction: string)
    requires ParseDigits(whole).Some? && ShortNumeral(fraction) && (unit == "tr" || unit == "trieu")
    ensures |fraction| <= 2 ==>
            && ParseAmount(Str(whole + unit + "," + fraction)) ==
               Some(Wrap64(ParseDigits(whole).value * 1_000_000 + Value(fraction) * Pow10(5 - |fraction|)))
            && (ParseAmount(Str(whole + unit + "," + fraction)) == ParseAmount(Str(whole + unit + "." + fraction)) <==>
                  Value(fraction) == 0)
    ensures |fraction| == 3 ==> ParseAmount(Str(whole + unit + "," + fraction)) == ParseAmount(Str(whole + unit))
  {
    hide ParseAmount, UnitBetween, Value, Pow10, Wrap64, IsNumeral, ParseDigits, ShortNumeral;
    SeparatorAfterUnit(whole, unit, ',', fraction);
    CommaIsCounted(whole, fraction);
    if |fraction| <= 2 {
      DotAfterUnit(whole, unit, fraction);
      UnitThenFraction(whole, unit, fraction);
      ATenthIsLess(ParseDigits(whole).value * 1_000_000, fraction);
    } else {
      BareUnit(whole, unit);
    }
  }

  lemma BareUnit(whole: string, unit: string)
    requires ParseDigits(whole).Some? && (unit == "tr" || unit == "trieu")
    ensures ParseAmount(Str(whole + unit)) == UnitBetween(whole, "")
  {
    hide ParseAmount, Normalize, Millions, TrySuffix;
    ReadableIsNumeral(whole);
    NothingAfterUnit(whole, unit);
    ReadUnitText(whole + unit, unit);
  }

  lemma CommaIsCounted(whole: string, fraction: string)
    requires ParseDigits(whole).Some? && ShortNumeral(fraction)
    ensures |fraction| <= 2 ==>
              UnitBetween(whole, [','] + fraction) ==
              Some(Wrap64(ParseDigits(whole).value * 1_000_000 + Value(fraction) * Pow10(5 - |fraction|)))
    ensures |fraction| == 3 ==> UnitBetween(whole, [','] + fraction) == UnitBetween(whole, "")
  {
    hide Value, Pow10, Wrap64, FieldsFrom, ParseDigits, AllDigits;
    CommaIsDropped(fraction);
    ReadShortNumeral(fraction);
  }

  lemma CommaIsDropped(fraction: string)
    requires fraction != ""
    ensures ParseDigits([','] + fraction) == ParseDigits(fraction)
  {
    hide GroupsWellFormed, Concat, Value;
    var after := [','] + fraction;
    assert after[1..] == fraction;
    assert FieldsFrom(after, "") == FieldsFrom(fraction, "");
  }

  lemma ATenthIsLess(whole: int, fraction: string)
    requires ShortNumeral(fraction) && |fraction| <= 2
    ensures (Wrap64(whole + Value(fraction) * Pow10(5 - |fraction|)) ==
             Wrap64(whole + Value(fraction) * Pow10(6 - |fraction|))) <==> Value(fraction) == 0
  {
    hide Value, Pow10, Wrap64;
    PowersToSix();
    ReadShortNumeral(fraction);
    var v, p := Value(fraction), Pow10(5 - |fraction|);
    assert v * Pow10(6 - |fraction|) == v * p + 9 * (v * p);
    WrapTellsApart(whole + v * p, 9 * (v * p));
  }

  lemma WrapTellsApart(x: int, d: int)
    requires 0 <= d <= MAX_INT64
    ensures Wrap64(x) == Wrap64(x + d) <==> d == 0
  {
  }

  lemma SmallFraction(fraction: string)
    requires ShortNumeral(fraction)
    ensures 0 <= Value(fraction) * Pow10(6 - |fraction|) <= 999_000
  {
    hide Value, Pow10, Fixed, AllDigits;
    FixedOfValue(fraction);
    PowersToSix();
    Scaled(Value(fraction), Pow10(6 - |fraction|));
  }

  lemma Scaled(v: nat, p: nat)
    requires (v < 10 && p == 100_000) || (v < 100 && p == 10_000) || (v < 1000 && p == 1000)
    ensures v * p <= 999_000
  {
    if p == 100_000 {
      assert v * p == v * 100_000;
    } else if p == 10_000 {
      assert v * p == v * 10_000;
    } else {
      assert v * p == v * 1000;
    }
  }

  /** "A.Btr" and "A,Btrieu" denote the same for A and B of one to three digits. */
  lemma FractionThenUnit(whole: string, sep: char, fraction: string, unit: string)
    requires ShortNumeral(whole) && IsSeparator(sep) && ShortNumeral(fraction) && (unit == "tr" || unit == "trieu")
    ensures ParseAmount(Str(whole + [sep] + fraction + unit)) == Some(ExactMillions(Value(whole), fraction))
  {
    hide ParseAmount, TrySuffix, UnitBetween, Value, Pow10;
    var numeral := whole + [sep] + fraction;
    FractionBeforeUnit(whole, sep, fraction);
    NothingAfterUnit(numeral, unit);
    ReadUnitText(numeral + unit, unit);
    SmallFraction(fraction);
    ReadShortNumeral(whole);
  }

  lemma ThousandsText(numeral: string, unit: string)
    requires IsNumeral(numeral) && numeral != "" && (unit == "k" || unit == "nghin")
    ensures ParseAmountText(numeral + unit) == ParseInteger(numeral, 1000)
  {
    TrimOwnSuffix(numeral, unit);
    if unit == "k" {
      TrimOtherSuffix(numeral, "nghin");
    } else {
      TrimOtherSuffix(numeral + unit, "k");
    }
    assert HasSuffix(numeral + unit, unit);
  }

  /** "Nk" and "Nnghin" denote N thousand; the int64 is exact unless that overflows. */
  lemma Thousands(numeral: string, unit: string)
    requires ParseDigits(numeral).Some? && (unit == "k" || unit == "nghin")
    ensures var n := ParseDigits(numeral).value as int;
            && ParseAmount(Str(numeral + unit)) == Some(Wrap64(n * 1000))
            && (ParseAmount(Str(numeral + unit)) == Some(n * 1000) <==> n <= MAX_INT64 / 1000)
  {
    hide *;
    ReadableIsNumeral(numeral);
    ReadableIsNatural(numeral);
    UnitOfThousands(numeral, unit);
    NormalizePlain(numeral + unit);
    ThousandsText(numeral, unit);
    ThousandsRead(numeral, unit);
    WrapIsExact(ParseDigits(numeral).value * 1000);
  }

  lemma WrapIsExact(x: int)
    ensures Wrap64(x) == x <==> -MAX_INT64 - 1 <= x <= MAX_INT64
  {
  }

  lemma UnitOfThousands(numeral: string, unit: string)
    requires IsNumeral(numeral) && (unit == "k" || unit == "nghin")
    ensures IsPlain(numeral + unit) && (numeral + unit)[|numeral + unit| - 1] != 'd'
  {
    assert IsPlain(unit) && unit[|unit| - 1] != 'd';
    assert forall i :: 0 <= i < |numeral| ==> IsDigit(numeral[i]) || IsSeparator(numeral[i]);
  }

  lemma ThousandsRead(numeral: string, unit: string)
    requires ParseDigits(numeral).Some?
    ensures Normalize(numeral + unit) == numeral + unit &&
            ParseAmountText(numeral + unit) == ParseInteger(numeral, 1000) ==>
              ParseAmount(Str(numeral + unit)) == Some(Wrap64(ParseDigits(numeral).value * 1000))
  {
    hide ParseDigits, Normalize, ParseAmountText, Wrap64;
  }

  lemma ReadableIsNatural(s: string)
    requires ParseDigits(s).Some?
    ensures ParseDigits(s).value >= 0
  {
  }

  // ----- a grouped whole number of millions -----

  lemma {:induction false} DigitsWidth(n: nat)
    requires n > 0
    ensures Pow10(|Digits(n)| - 1) <= n < Pow10(|Digits(n)|)
    decreases n
  {
    if n >= 10 {
      DigitsWidth(n / 10);
    }
  }

  lemma {:induction false} Pow10Monotone(a: nat, b: nat)
    requires a <= b
    ensures Pow10(a) <= Pow10(b)
    decreases b
  {
    if a < b {
      Pow10Monotone(a, b - 1);
    }
  }

  /** How many groups a printed amount has. */
  lemma GroupCount(n: nat)
    ensures n < 1000 ==> |Digits(n)| <= 3
    ensures 1000 <= n < 1_000_000 ==> 3 < |Digits(n)| <= 6
    ensures n >= 1_000_000 ==> |Digits(n)| > 6
  {
    assert Pow10(3) == 1000 && Pow10(6) == 1000 * Pow10(3);
    if n > 0 {
      DigitsWidth(n);
      var w := |Digits(n)|;
      if w <= 3 {
        Pow10Monotone(w, 3);
      } else if w <= 6 {
        Pow10Monotone(w, 6);
        Pow10Monotone(3, w - 1);
      } else {
        Pow10Monotone(6, w - 1);
      }
    }
  }

  lemma TwoGroups(n: int64)
    requires 1000 <= n < 1_000_000
    ensures UnitBetween(AmountText(n), "") == Some(Wrap64(n * 1000))
  {
    var d := Digits(n);
    GroupCount(n);
    ValueOfDigits(n);
    var front, last := d[..|d| - 3], d[|d| - 3..];
    assert d == front + last;
    ValueOfConcat(front, last);
    assert Pow10(3) == 1000;
    assert ExactMillions(Value(front), last) == n * 1000;
    assert AmountText(n) == front + ['.'] + last by {
      hide Value, Digits, Pow10;
      assert Grouped(front) == front;
      assert Grouped(d) == Grouped(front) + "." + last;
    }
    hide *;
    FractionBeforeUnit(front, '.', last);
  }

  lemma WholeMillions(numeral: string)
    requires |Fields(numeral)| != 2 && ParseDigits(numeral).Some?
    ensures UnitBetween(numeral, "") == Some(Wrap64(ParseDigits(numeral).value * 1_000_000))
  {
  }

  lemma OneOrManyGroups(n: int64)
    requires 0 <= n && !(1000 <= n < 1_000_000)
    ensures UnitBetween(AmountText(n), "") == Some(Wrap64(n * 1_000_000))
  {
    var d := Digits(n);
    GroupCount(n);
    FieldsOfGrouped(d);
    assert |Groups(d)| != 2 by {
      if |d| > 6 {
        assert |Groups(d[..|d| - 3])| >= 2;
      }
    }
    ParseDigitsOfAmountText(n);
    WholeMillions(AmountText(n));
  }

  lemma ReadBareUnit(numeral: string)
    requires IsNumeral(numeral) && numeral != "" && UnitBetween(numeral, "").Some?
    ensures ParseAmount(Str(numeral + "tr")) == UnitBetween(numeral, "")
  {
    NothingAfterUnit(numeral, "tr");
    ReadUnitText(numeral + "tr", "tr");
  }

  /**
   A dotted whole number before "tr" is read as that many millions if and only if the product fits 64 bits and
   the number does not have exactly two groups; with two groups the second is taken for a decimal fraction.
   */
  lemma GroupedMillions(n: int64)
    requires 0 <= n
    ensures ParseAmount(Str(AmountText(n) + "tr")) ==
            Some(Wrap64(n * if 1000 <= n < 1_000_000 then 1000 else 1_000_000))
    ensures ParseAmount(Str(AmountText(n) + "tr")) == Some(n * 1_000_000) <==>
            n <= MAX_INT64 / 1_000_000 && !(1000 <= n < 1_000_000)
  {
    GroupedIsNumeral(Digits(n));
    GroupedNonEmpty(Digits(n));
    if 1000 <= n < 1_000_000 {
      TwoGroups(n);
    } else {
      OneOrManyGroups(n);
    }
    ReadBareUnit(AmountText(n));
  }

  // ----- spaces, case and separators do not matter -----

  lemma {:induction false} TrimLeftOf(a: string, x: string)
    ensures TrimLeft(a + x) == if IsBlank(a) then TrimLeft(x) else TrimLeft(a) + x
    decreases |a|
  {
    hide IsSpace;
    if a == "" {
      assert a + x == x;
    } else {
      TrimLeftOf(a[1..], x);
      assert (a + x)[1..] == a[1..] + x && a == [a[0]] + a[1..];
      assert forall i :: 0 <= i < |a[1..]| ==> a[1..][i] == a[i + 1];
    }
  }

  lemma {:induction false} TrimRightOf(x: string, b: string)
    ensures TrimRight(x + b) == if IsBlank(b) then TrimRight(x) else x + TrimRight(b)
    decreases |b|
  {
    hide IsSpace;
    if b == "" {
      assert x + b == x;
    } else {
      var front := b[..|b| - 1];
      TrimRightOf(x, front);
      assert (x + b)[..|x + b| - 1] == x + front && b == front + [b[|b| - 1]];
      assert forall i :: 0 <= i < |front| ==> front[i] == b[i];
    }
  }

  lemma {:induction false} RemoveSpacesOf(a: string, b: string)
    ensures RemoveSpaces(a + b) == RemoveSpaces(a) + RemoveSpaces(b)
    decreases |a|
  {
    if a == "" {
      assert a + b == b;
    } else {
      RemoveSpacesOf(a[1..], b);
      assert (a + b)[1..] == a[1..] + b;
    }
  }

  lemma ToLowerOf(a: string, b: string)
    ensures ToLower(a + b) == ToLower(a) + ToLower(b)
  {
  }

  lemma SpaceVanishes(a: string, b: string)
    ensures RemoveSpaces(ToLower(a + (" " + b))) == RemoveSpaces(ToLower(a + b))
  {
    hide RemoveSpaces, ToLower;
    ToLowerOf(a, " " + b);
    ToLowerOf(" ", b);
    ToLowerOf(a, b);
    RemoveSpacesOf(ToLower(a), ToLower(" ") + ToLower(b));
    RemoveSpacesOf(ToLower(" "), ToLower(b));
    RemoveSpacesOf(ToLower(a), ToLower(b));
    OneSpace();
  }

  lemma OneSpace()
    ensures RemoveSpaces(ToLower(" ")) == ""
  {
    assert ToLower(" ") == " ";
    assert " "[1..] == "";
  }

  lemma TrimAroundSpace(a: string, b: string)
    ensures RemoveSpaces(ToLower(TrimRight(TrimLeft(a + (" " + b))))) ==
            RemoveSpaces(ToLower(TrimRight(TrimLeft(a + b))))
  {
    hide RemoveSpaces, ToLower, TrimLeft, TrimRight, IsSpace;
    TrimLeftOf(a, " " + b);
    TrimLeftOf(a, b);
    TrimLeftOf(" ", b);
    assert IsSpace(' ') by {
      SpaceIsSpace();
    }
    if !IsBlank(a) {
      var x := TrimLeft(a);
      TrimRightOf(x, " " + b);
      TrimRightOf(x, b);
      if IsBlank(b) {
        assert IsBlank(" " + b);
      } else {
        assert !IsBlank(" " + b) by {
          var i :| 0 <= i < |b| && !IsSpace(b[i]);
          assert (" " + b)[i + 1] == b[i];
        }
        TrimRightOf(" ", b);
        SpaceVanishes(x, TrimRight(b));
      }
    }
  }

  lemma SpaceIsSpace()
    ensures IsSpace(' ')
  {
  }

  function WithoutSign(s: string): string {
    TrimSuffix(TrimSuffix(s, "đ"), "d")
  }

  /** The currency letters are looked for among the last two characters. */
  lemma SignIsLast(x: string, b: string)
    requires |b| >= 2
    ensures WithoutSign(x + b) == x + WithoutSign(b)
  {
    var c := TrimSuffix(b, "đ");
    assert |c| >= 1 && TrimSuffix(x + b, "đ") == x + c;
    assert TrimSuffix(x + c, "d") == x + TrimSuffix(c, "d");
  }

  /** A space with at least two characters after it can be left out. */
  lemma SpacesDoNotMatter(before: string, after: string)
    requires |after| >= 2
    ensures ParseAmount(Str(before + " " + after)) == ParseAmount(Str(before + after))
  {
    hide WithoutSign, TrimLeft, TrimRight, ToLower, RemoveSpaces, ParseAmountText;
    assert before + " " + after == (before + " ") + after;
    SignIsLast(before + " ", after);
    SignIsLast(before, after);
    var rest := WithoutSign(after);
    assert (before + " ") + rest == before + (" " + rest);
    TrimAroundSpace(before, rest);
    NormalizeMeans(before + " " + after);
    NormalizeMeans(before + after);
  }

  lemma NormalizeMeans(text: string)
    ensures Normalize(text) == RemoveSpaces(ToLower(TrimRight(TrimLeft(WithoutSign(text)))))
  {
  }

  ghost predicate FoldAlike(s: string, t: string) {
    |s| == |t| && forall i :: 0 <= i < |s| ==> LowerChar(s[i]) == LowerChar(t[i])
  }

  lemma FoldedSpace(c: char)
    ensures IsSpace(LowerChar(c)) <==> IsSpace(c)
  {
  }

  lemma {:induction false} TrimsAlike(s: string, t: string)
    requires FoldAlike(s, t)
    ensures FoldAlike(TrimLeft(s), TrimLeft(t)) && FoldAlike(TrimRight(s), TrimRight(t))
    decreases |s|
  {
    hide IsSpace, LowerChar;
    if s != "" {
      var n := |s| - 1;
      FoldedSpace(s[0]);
      FoldedSpace(t[0]);
      FoldedSpace(s[n]);
      FoldedSpace(t[n]);
      TrimsAlike(s[1..], t[1..]);
      TrimsAlike(s[..n], t[..n]);
    }
  }

  /** A capital is read like its small letter, except for a "D" among the last two characters. */
  lemma CaseDoesNotMatter(text: string, i: nat)
    requires i < |text| && (text[i] == 'D' ==> i + 2 < |text|)
    ensures ParseAmount(Str(text[i := LowerChar(text[i])])) == ParseAmount(Str(text))
  {
    hide TrimLeft, TrimRight, RemoveSpaces, ParseAmountText, WithoutSign, LowerChar;
    var s, t := WithoutSign(text), WithoutSign(text[i := LowerChar(text[i])]);
    SignsAlike(text, i);
    TrimsAlike(s, t);
    TrimsAlike(TrimLeft(s), TrimLeft(t));
    assert ToLower(TrimRight(TrimLeft(s))) == ToLower(TrimRight(TrimLeft(t)));
    NormalizeMeans(text);
    NormalizeMeans(text[i := LowerChar(text[i])]);
  }

  lemma SignsAlike(text: string, i: nat)
    requires i < |text| && (text[i] == 'D' ==> i + 2 < |text|)
    ensures FoldAlike(WithoutSign(text), WithoutSign(text[i := LowerChar(text[i])]))
  {
    hide LowerChar, HasSuffix;
    LowerTwice(text[i]);
    var s, t := text, text[i := LowerChar(text[i])];
    LastLetter(s, 'đ');
    LastLetter(t, 'đ');
    var u, v := TrimSuffix(s, "đ"), TrimSuffix(t, "đ");
    assert FoldAlike(u, v);
    LastLetter(u, 'd');
    LastLetter(v, 'd');
  }

  lemma LastLetter(s: string, c: char)
    ensures HasSuffix(s, [c]) <==> s != "" && s[|s| - 1] == c
  {
    assert s != "" ==> s[|s| - 1..] == [s[|s| - 1]];
  }

  lemma LowerTwice(c: char)
    ensures LowerChar(LowerChar(c)) == LowerChar(c)
    ensures c != 'D' ==> (LowerChar(c) == 'd' <==> c == 'd')
    ensures LowerChar(c) == 'đ' <==> c == 'đ'
  {
  }

  /** At the end it is taken for no currency sign, and the numeral before it is not read. */
  lemma CapitalSignIsNotRead(numeral: string)
    requires IsNumeral(numeral)
    ensures ParseAmount(Str(numeral + "D")) == None
  {
    hide IsSpace;
    var t := numeral + "d";
    CapitalSignStays(numeral);
    NotThousands(t);
    IndexOfAbsent(t, "trieu", 0, 0);
    IndexOfAbsent(t, "tr", 0, 0);
    assert !IsNumeral(t) by {
      assert t[|numeral|] == 'd';
    }
    if ParseDigits(t).Some? {
      ReadableIsNumeral(t);
    }
  }

  lemma CapitalSignStays(numeral: string)
    requires IsNumeral(numeral)
    ensures Normalize(numeral + "D") == numeral + "d"
  {
    var s, t := numeral + "D", numeral + "d";
    TrimOtherSuffix(s, "đ");
    TrimOtherSuffix(s, "d");
    assert !IsSpace(s[|numeral|]) && !IsSpace(s[0]);
    assert TrimLeft(s) == s && TrimRight(s) == s;
    LowerPlain(numeral);
    ToLowerOf(numeral, "D");
    assert ToLower("D") == "d";
    RemoveSpacesPlain(t);
  }

  lemma {:induction false} FieldsAlike(s: string, t: string, word: string)
    requires |s| == |t|
    requires forall i :: 0 <= i < |s| ==> s[i] == t[i] || (IsSeparator(s[i]) && IsSeparator(t[i]))
    ensures FieldsFrom(s, word) == FieldsFrom(t, word)
    decreases |s|
  {
    if s != "" {
      FieldsAlike(s[1..], t[1..], if IsSeparator(s[0]) then "" else word + [s[0]]);
    }
  }

  /** Dots and commas are alike between digits. */
  lemma SeparatorsAreAlike(text: string, i: nat)
    requires i < |text| && text[i] == ','
    ensures ParseDigits(text[i := '.']) == ParseDigits(text)
  {
    FieldsAlike(text[i := '.'], text, "");
  }

  /** A JSON number means itself, as its text does; null is read like 0, and nothing else is an amount. */
  lemma NumbersAndTextsAgree(n: int64)
    ensures ParseAmount(Number(n)) == Some(n) && ParseAmount(Null) == ParseAmount(Number(0))
    ensures n >= 0 ==> ParseAmount(Str(AmountText(n))) == ParseAmount(Number(n))
    ensures ParseAmount(Other) == None
  {
    hide ParseAmountText, AmountText;
    if n >= 0 {
      ParseAmountOfAmountText(n);
    }
  }
}
