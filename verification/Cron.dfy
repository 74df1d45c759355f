/**
 * Cron expressions: the parser, the meaning of the field grammar it accepts, and the match test.
 *
 * None stands for the ValueError the parser raises.
 */
module Cron {
  import opened Prelude

  // ---- Text ----------------------------------------------------------------------------------

  /** str.split(c): the pieces between the separators, at least one. */
  function Split(s: string, c: char): (parts: seq<string>)
    ensures |parts| >= 1
  {
    if s == "" then [""]
    else
      var rest := Split(s[1..], c);
      if s[0] == c then [""] + rest else [[s[0]] + rest[0]] + rest[1..]
  }

  function Join(parts: seq<string>, c: char): string
    requires |parts| >= 1
  {
    if |parts| == 1 then parts[0] else parts[0] + [c] + Join(parts[1..], c)
  }

  /** Splitting gives the one list of separator-free pieces that joins back to the text. */
  lemma {:induction false} SplitJoins(s: string, c: char)
    ensures Join(Split(s, c), c) == s
    ensures forall i :: 0 <= i < |Split(s, c)| ==> c !in Split(s, c)[i]
  {
    if s == "" {
    } else {
      SplitJoins(s[1..], c);
      var rest := Split(s[1..], c);
      var parts := Split(s, c);
      assert s == [s[0]] + s[1..];
      if s[0] == c {
        assert parts == [""] + rest && parts[1..] == rest;
      } else {
        assert parts[1..] == rest[1..];
        if |rest| > 1 {
          assert Join(parts, c) == [s[0]] + (rest[0] + [c] + Join(rest[1..], c));
        }
      }
    }
  }

  lemma {:induction false} SplitFree(s: string, c: char)
    requires c !in s
    ensures Split(s, c) == [s]
  {
    if s != "" {
      SplitFree(s[1..], c);
      assert s == [s[0]] + s[1..];
    }
  }

  lemma {:induction false} SplitAt(a: string, b: string, c: char)
    requires c !in a
    ensures Split(a + [c] + b, c) == [a] + Split(b, c)
  {
    var s := a + [c] + b;
    if a == "" {
      assert s[1..] == b;
    } else {
      assert s[1..] == a[1..] + [c] + b;
      SplitAt(a[1..], b, c);
      assert a == [a[0]] + a[1..];
    }
  }

  lemma {:induction false} SplitOfJoin(parts: seq<string>, c: char)
    requires |parts| >= 1 && forall i :: 0 <= i < |parts| ==> c !in parts[i]
    ensures Split(Join(parts, c), c) == parts
  {
    if |parts| == 1 {
      SplitFree(parts[0], c);
    } else {
      SplitAt(parts[0], Join(parts[1..], c), c);
      SplitOfJoin(parts[1..], c);
    }
  }

  /** White space as str.split() and str.strip() see it. */
  predicate IsSpace(c: char) {
    || '\t' <= c <= '\r' || '\U{1c}' <= c <= ' ' || c == '\U{85}' || c == '\U{a0}' || c == '\U{1680}'
    || '\U{2000}' <= c <= '\U{200a}' || c == '\U{2028}' || c == '\U{2029}' || c == '\U{202f}' || c == '\U{205f}'
    || c == '\U{3000}'
  }

  /** str.split(): the maximal runs of characters that are not white space. */
  function Words(s: string): (words: seq<string>)
    ensures s != "" && !IsSpace(s[0]) ==> |words| >= 1
  {
    if s == "" then []
    else if IsSpace(s[0]) then Words(s[1..])
    else if |s| == 1 || IsSpace(s[1]) then [[s[0]]] + Words(s[1..])
    else var rest := Words(s[1..]); [[s[0]] + rest[0]] + rest[1..]
  }

  predicate Blank(s: string) {
    forall i :: 0 <= i < |s| ==> IsSpace(s[i])
  }

  predicate IsWord(s: string) {
    s != "" && forall i :: 0 <= i < |s| ==> !IsSpace(s[i])
  }

  lemma {:induction false} WordsAfterBlank(gap: string, s: string)
    requires Blank(gap)
    ensures Words(gap + s) == Words(s)
  {
    if gap == "" {
      assert gap + s == s;
    } else {
      assert (gap + s)[1..] == gap[1..] + s;
      WordsAfterBlank(gap[1..], s);
    }
  }

  lemma {:induction false} WordsFirst(word: string, s: string)
    requires IsWord(word) && (s == "" || IsSpace(s[0]))
    ensures Words(word + s) == [word] + Words(s)
  {
    var t := word + s;
    assert t[1..] == word[1..] + s;
    assert t[0] == word[0] && !IsSpace(word[0]);
    if |word| == 1 {
      assert word == [word[0]] && t[1..] == s;
      if s != "" {
        assert t[1] == s[0];
      }
    } else {
      assert t[1] == word[1] && !IsSpace(word[1]);
      WordsFirst(word[1..], s);
      assert word == [word[0]] + word[1..];
    }
  }

  /** Words laid out with white space around and between them. */
  function Layout(words: seq<string>, gaps: seq<string>): string
    requires |gaps| == |words| + 1
  {
    if words == [] then gaps[0] else gaps[0] + words[0] + Layout(words[1..], gaps[1..])
  }

  predicate GapsSeparate(gaps: seq<string>) {
    (forall i :: 0 <= i < |gaps| ==> Blank(gaps[i])) && (forall i :: 1 <= i < |gaps| - 1 ==> gaps[i] != "")
  }

  lemma WordsNext(gap: string, word: string, rest: string)
    requires Blank(gap) && IsWord(word) && (rest == "" || IsSpace(rest[0]))
    ensures Words(gap + word + rest) == [word] + Words(rest)
  {
    WordsFirst(word, rest);
    WordsAfterBlank(gap, word + rest);
    assert gap + word + rest == gap + (word + rest);
  }

  lemma {:induction false} WordsOfLayout(words: seq<string>, gaps: seq<string>)
    requires |gaps| == |words| + 1 && GapsSeparate(gaps)
    requires forall i :: 0 <= i < |words| ==> IsWord(words[i])
    ensures Words(Layout(words, gaps)) == words
  {
    if words == [] {
      WordsAfterBlank(gaps[0], "");
      assert gaps[0] + "" == gaps[0];
    } else {
      LayoutStartsBlank(words[1..], gaps[1..]);
      WordsOfLayout(words[1..], gaps[1..]);
      WordsNext(gaps[0], words[0], Layout(words[1..], gaps[1..]));
    }
  }

  lemma LayoutStartsBlank(words: seq<string>, gaps: seq<string>)
    requires |gaps| == |words| + 1 && (forall i :: 0 <= i < |gaps| ==> Blank(gaps[i]))
    requires words != [] ==> gaps[0] != ""
    ensures Layout(words, gaps) == "" || IsSpace(Layout(words, gaps)[0])
  {
    if words != [] {
      assert IsSpace(gaps[0][0]);
    }
  }

  // ---- Numbers -------------------------------------------------------------------------------

  predicate IsDigit(c: char) {
    '0' <= c <= '9'
  }

  /** int() of digits with single underscores between them. */
  function Digits(s: string): Option<nat> {
    if s == "" || !IsDigit(s[|s| - 1]) then None
    else
      var digit := s[|s| - 1] as nat - '0' as nat;
      var front := s[..|s| - 1];
      if front == "" then Some(digit)
      else
        var value := Digits(if front[|front| - 1] == '_' then front[..|front| - 1] else front);
        if value.None? then None else Some(10 * value.value + digit)
  }

  /** int(): digits after an optional sign. */
  function PyInt(s: string): Option<int> {
    if s != "" && (s[0] == '+' || s[0] == '-') then
      match Digits(s[1..])
      case None => None
      case Some(n) => var size: int := n; Some(if s[0] == '-' then -size else size)
    else
      match Digits(s)
      case None => None
      case Some(n) => Some(n)
  }

  predicate NumeralChar(c: char) {
    IsDigit(c) || c == '_' || c == '+' || c == '-'
  }

  lemma {:induction false} DigitsChars(s: string)
    requires Digits(s).Some?
    ensures forall i :: 0 <= i < |s| ==> IsDigit(s[i]) || s[i] == '_'
  {
    var front := s[..|s| - 1];
    if front != "" {
      if front[|front| - 1] == '_' {
        DigitsChars(front[..|front| - 1]);
        assert s == front[..|front| - 1] + [s[|s| - 2]] + [s[|s| - 1]];
      } else {
        DigitsChars(front);
        assert s == front + [s[|s| - 1]];
      }
    }
  }

  /** A numeral contains none of the characters the grammar uses, but for a leading minus. */
  lemma IntChars(s: string)
    requires PyInt(s).Some?
    ensures forall i :: 0 <= i < |s| ==> NumeralChar(s[i])
    ensures '-' !in s ==> PyInt(s).value >= 0
    ensures IsWord(s)
  {
    if s != "" && (s[0] == '+' || s[0] == '-') {
      DigitsChars(s[1..]);
      assert s == [s[0]] + s[1..];
    } else {
      DigitsChars(s);
    }
    assert forall i :: 0 <= i < |s| ==> NumeralChar(s[i]);
  }

  // ---- What a numeral denotes ----------------------------------------------------------------

  const DIGITS: string := "0123456789"

  /** A number written in base ten. */
  function Decimal(n: nat): string {
    if n < 10 then [DIGITS[n]] else Decimal(n / 10) + [DIGITS[n % 10]]
  }

  lemma DigitCharacters(c: char)
    ensures IsDigit(c) <==> c in DIGITS
  {
  }

  /** The 29 characters str.split() and str.strip() take for white space. */
  lemma SpaceCharacters(c: char)
    ensures IsSpace(c) <==> c in "\t\n\U{b}\U{c}\r\U{1c}\U{1d}\U{1e}\U{1f} \U{85}\U{a0}\U{1680}\U{2000}\U{2001}\U{2002}"
                                  + "\U{2003}\U{2004}\U{2005}\U{2006}\U{2007}\U{2008}\U{2009}\U{200a}\U{2028}\U{2029}"
                                  + "\U{202f}\U{205f}\U{3000}"
  {
  }

  lemma DigitOf(d: nat)
    requires d < 10
    ensures IsDigit(DIGITS[d]) && DIGITS[d] as nat - '0' as nat == d
  {
  }

  lemma OneDigitReads(d: nat)
    requires d < 10
    ensures Digits([DIGITS[d]]) == Some(d)
  {
    DigitOf(d);
  }

  lemma NextDigitReads(front: string, d: nat)
    requires d < 10 && Digits(front).Some?
    ensures Digits(front + [DIGITS[d]]) == Some(10 * Digits(front).value + d)
  {
    DigitOf(d);
    var s := front + [DIGITS[d]];
    assert IsDigit(front[|front| - 1]) && front[|front| - 1] != '_';
    assert s[..|s| - 1] == front && s[|s| - 1] == DIGITS[d];
  }

  lemma {:induction false} DigitsOfDecimal(n: nat)
    ensures Digits(Decimal(n)) == Some(n)
  {
    if n < 10 {
      OneDigitReads(n);
    } else {
      DigitsOfDecimal(n / 10);
      NextDigitReads(Decimal(n / 10), n % 10);
    }
  }

  /** Writing a number and reading it back gives the number. */
  lemma {:induction false} DecimalReads(n: nat)
    ensures Digits(Decimal(n)) == Some(n) && PyInt(Decimal(n)) == Some(n) && Unsigned(Decimal(n))
  {
    DigitsOfDecimal(n);
    DigitsChars(Decimal(n));
  }

  function Power10(n: nat): nat {
    if n == 0 then 1 else 10 * Power10(n - 1)
  }

  /** The positional value of a row of digits, from the left. */
  function Positional(ds: string): int
    requires forall i :: 0 <= i < |ds| ==> IsDigit(ds[i])
  {
    if ds == "" then 0 else (ds[0] as nat - '0' as nat) * Power10(|ds| - 1) + Positional(ds[1..])
  }

  /** Without its underscores. */
  function Plain(s: string): string {
    if s == "" then ""
    else if s[|s| - 1] == '_' then Plain(s[..|s| - 1])
    else Plain(s[..|s| - 1]) + [s[|s| - 1]]
  }

  /** Digits, and single underscores between them. */
  predicate Numeral(s: string) {
    && s != "" && IsDigit(s[0]) && IsDigit(s[|s| - 1])
    && (forall i :: 0 <= i < |s| ==> IsDigit(s[i]) || s[i] == '_')
    && (forall i, j :: 0 <= i && j == i + 1 < |s| ==> !(s[i] == '_' && s[j] == '_'))
  }

  lemma {:induction false} PlainIsDigits(s: string)
    requires forall i :: 0 <= i < |s| ==> IsDigit(s[i]) || s[i] == '_'
    ensures forall i :: 0 <= i < |Plain(s)| ==> IsDigit(Plain(s)[i])
  {
    if s != "" {
      PlainIsDigits(s[..|s| - 1]);
    }
  }

  lemma {:induction false} PositionalNext(ds: string, c: char)
    requires (forall i :: 0 <= i < |ds| ==> IsDigit(ds[i])) && IsDigit(c)
    ensures Positional(ds + [c]) == 10 * Positional(ds) + (c as nat - '0' as nat)
  {
    if ds != "" {
      PositionalNext(ds[1..], c);
      var d, p := ds[0] as nat - '0' as nat, Power10(|ds| - 1);
      assert (ds + [c])[1..] == ds[1..] + [c];
      assert d * (10 * p) == 10 * (d * p);
    }
  }

  lemma {:induction false} DigitsMean(s: string)
    requires Numeral(s)
    ensures (forall i :: 0 <= i < |Plain(s)| ==> IsDigit(Plain(s)[i]))
    ensures Digits(s).Some? && Digits(s).value == Positional(Plain(s))
  {
    PlainIsDigits(s);
    var n := |s| - 1;
    if n == 0 {
      assert s[..0] == "" && Plain(s) == [s[0]];
      assert Positional([s[0]]) == (s[0] as nat - '0' as nat) * 1 + Positional("");
    } else {
      NumeralFront(s);
      var front := if s[n - 1] == '_' then s[..n - 1] else s[..n];
      assert s[..n][..n - 1] == s[..n - 1];
      DigitsMean(front);
      PositionalNext(Plain(front), s[n]);
      assert Plain(s[..n]) == Plain(front);
    }
  }

  /** Whatever is read is well formed. */
  lemma {:induction false} DigitsAreNumeral(s: string)
    requires Digits(s).Some?
    ensures Numeral(s)
  {
    var n := |s| - 1;
    if n > 0 {
      var front := if s[n - 1] == '_' then s[..n - 1] else s[..n];
      assert s[..n][..n - 1] == s[..n - 1];
      DigitsAreNumeral(front);
      NumeralFront(s);
    }
  }

  /** The text without a leading sign. */
  function Unsign(s: string): string {
    if s != "" && (s[0] == '+' || s[0] == '-') then s[1..] else s
  }

  /**
   * int() exactly: it reads an optional sign and then digits with single underscores between them, leading zeros
   * and all, and gives their positional value in base ten, negated after a minus.
   */
  lemma IntMeans(s: string)
    ensures PyInt(s).Some? <==> Numeral(Unsign(s))
    ensures Numeral(Unsign(s)) ==>
              && (forall i :: 0 <= i < |Plain(Unsign(s))| ==> IsDigit(Plain(Unsign(s))[i]))
              && PyInt(s).value == (if s[0] == '-' then -Positional(Plain(Unsign(s))) else Positional(Plain(Unsign(s))))
  {
    if Numeral(Unsign(s)) {
      DigitsMean(Unsign(s));
    } else if Digits(Unsign(s)).Some? {
      DigitsAreNumeral(Unsign(s));
    }
  }

  lemma NumeralFront(s: string)
    requires |s| > 1 && IsDigit(s[|s| - 1])
    ensures Numeral(s) <==> Numeral(if s[|s| - 2] == '_' then s[..|s| - 2] else s[..|s| - 1])
  {
    var front := if s[|s| - 2] == '_' then s[..|s| - 2] else s[..|s| - 1];
    assert forall i :: 0 <= i < |front| ==> front[i] == s[i];
  }

  // ---- Fields: the parser as a function ------------------------------------------------------

  predicate Congruent(x: int, y: int, k: int)
    requires k > 0
  {
    (x - y) % k == 0
  }

  /** range(start, stop, step). */
  function PyRange(start: int, stop: int, step: int): set<int>
    requires step != 0
  {
    if step > 0 then set x | start <= x < stop && Congruent(x, start, step)
    else DownRange(start, stop, -step)
  }

  function DownRange(start: int, stop: int, k: int): set<int>
    requires k > 0
  {
    set x | stop < x <= start && Congruent(x, start, k)
  }

  /** The first and last value of the range a step is applied to. */
  function BaseBounds(base: string, lo: int, hi: int): Option<(int, int)> {
    if base == "*" then Some((lo, hi))
    else if '-' in base then
      var ends := Split(base, '-');
      if |ends| != 2 || PyInt(ends[0]).None? || PyInt(ends[1]).None? then None
      else Some((PyInt(ends[0]).value, PyInt(ends[1]).value))
    else match PyInt(base)
      case None => None
      case Some(n) => Some((n, hi))
  }

  /** The values of one element of a comma list; min() of an empty base and a step of zero are errors. */
  function ParseSegment(segment: string, lo: int, hi: int): Option<set<int>> {
    if '/' in segment then
      var sides := Split(segment, '/');
      if |sides| != 2 || PyInt(sides[1]).None? then None
      else match BaseBounds(sides[0], lo, hi)
        case None => None
        case Some((first, last)) =>
          var step := PyInt(sides[1]).value;
          if first > last || step == 0 then None else Some(PyRange(first, last + 1, step))
    else if '-' in segment then
      var ends := Split(segment, '-');
      if |ends| != 2 || PyInt(ends[0]).None? || PyInt(ends[1]).None? then None
      else Some(PyRange(PyInt(ends[0]).value, PyInt(ends[1]).value + 1, 1))
    else match PyInt(segment)
      case None => None
      case Some(n) => Some({n})
  }

  function ParseSegments(segments: seq<string>, lo: int, hi: int): Option<set<int>> {
    if segments == [] then Some({})
    else
      var last := |segments| - 1;
      var front, value := ParseSegments(segments[..last], lo, hi), ParseSegment(segments[last], lo, hi);
      if front.None? || value.None? then None else Some(front.value + value.value)
  }

  function ParseField(field: string, lo: int, hi: int): Option<set<int>> {
    if field == "*" then Some(PyRange(lo, hi + 1, 1)) else ParseSegments(Split(field, ','), lo, hi)
  }

  // ---- Fields: the grammar and its meaning ---------------------------------------------------

  datatype Base = All | From(n: string) | Span(a: string, b: string)

  datatype Segment = Single(n: string) | Between(a: string, b: string) | Stepped(base: Base, step: string)

  datatype Field = Star | OneOf(segments: seq<Segment>)

  /** A numeral where a minus would be read as a range. */
  predicate Unsigned(s: string) {
    PyInt(s).Some? && '-' !in s
  }

  function Number(s: string): int {
    match PyInt(s) case Some(n) => n case None => 0
  }

  function BaseText(b: Base): string {
    match b
    case All => "*"
    case From(n) => n
    case Span(x, y) => x + "-" + y
  }

  function SegmentText(g: Segment): string {
    match g
    case Single(n) => n
    case Between(x, y) => x + "-" + y
    case Stepped(b, k) => BaseText(b) + "/" + k
  }

  function FieldText(f: Field): string
    requires f.OneOf? ==> |f.segments| >= 1
  {
    match f
    case Star => "*"
    case OneOf(segments) => Join(Texts(segments), ',')
  }

  function FirstOf(b: Base, lo: int): int {
    match b
    case All => lo
    case From(n) => Number(n)
    case Span(x, _) => Number(x)
  }

  function LastOf(b: Base, hi: int): int {
    match b
    case All => hi
    case From(_) => hi
    case Span(_, y) => Number(y)
  }

  predicate BaseOk(b: Base) {
    match b
    case All => true
    case From(n) => Unsigned(n)
    case Span(x, y) => Unsigned(x) && Unsigned(y)
  }

  /** Numerals throughout; a step that is not zero, on a base that is not empty. */
  predicate SegmentOk(g: Segment, lo: int, hi: int) {
    match g
    case Single(n) => Unsigned(n)
    case Between(x, y) => Unsigned(x) && Unsigned(y)
    case Stepped(b, k) => BaseOk(b) && PyInt(k).Some? && Number(k) != 0 && FirstOf(b, lo) <= LastOf(b, hi)
  }

  predicate FieldOk(f: Field, lo: int, hi: int) {
    f.OneOf? ==> |f.segments| >= 1 && forall i :: 0 <= i < |f.segments| ==> SegmentOk(f.segments[i], lo, hi)
  }

  /** x belongs to the segment: a number, an interval, or every k-th value from the base's start; no value if k < 0. */
  predicate InSegment(x: int, g: Segment, lo: int, hi: int)
    requires SegmentOk(g, lo, hi)
  {
    match g
    case Single(n) => x == Number(n)
    case Between(a, b) => Number(a) <= x <= Number(b)
    case Stepped(b, k) =>
      Number(k) > 0 && FirstOf(b, lo) <= x <= LastOf(b, hi) && Congruent(x, FirstOf(b, lo), Number(k))
  }

  predicate InField(x: int, f: Field, lo: int, hi: int)
    requires FieldOk(f, lo, hi)
  {
    match f
    case Star => lo <= x <= hi
    case OneOf(segments) => exists i :: 0 <= i < |segments| && InSegment(x, segments[i], lo, hi)
  }

  // ---- The parser means what the grammar means -----------------------------------------------

  lemma SplitTwo(a: string, b: string, c: char)
    requires c !in a && c !in b
    ensures Split(a + [c] + b, c) == [a, b]
  {
    SplitAt(a, b, c);
    SplitFree(b, c);
  }

  lemma SpanMeaning(x: string, y: string)
    requires Unsigned(x) && Unsigned(y)
    ensures Split(x + "-" + y, '-') == [x, y] && '-' in x + "-" + y
    ensures '/' !in x + "-" + y && ',' !in x + "-" + y && IsWord(x + "-" + y)
    ensures x + "-" + y != "*"
  {
    IntChars(x);
    IntChars(y);
    SplitTwo(x, y, '-');
    assert (x + "-" + y)[|x|] == '-';
  }

  lemma BaseMeaning(b: Base, lo: int, hi: int)
    requires BaseOk(b)
    ensures BaseBounds(BaseText(b), lo, hi) == Some((FirstOf(b, lo), LastOf(b, hi)))
    ensures '/' !in BaseText(b)
  {
    match b
    case All =>
    case From(n) => IntChars(n);
    case Span(x, y) => SpanMeaning(x, y);
  }

  lemma SteppedText(base: string, k: string, text: string)
    requires text == base + "/" + k
    requires '/' !in base && ',' !in base && IsWord(base) && PyInt(k).Some?
    ensures Split(text, '/') == [base, k] && '/' in text
    ensures ',' !in text && IsWord(text) && text != "*"
  {
    IntChars(k);
    SplitTwo(base, k, '/');
    assert text[|base|] == '/';
  }

  lemma BaseReads(b: Base, lo: int, hi: int) returns (base: string)
    requires BaseOk(b)
    ensures base == BaseText(b) && '/' !in base && ',' !in base && IsWord(base)
    ensures BaseBounds(base, lo, hi) == Some((FirstOf(b, lo), LastOf(b, hi)))
  {
    base := BaseText(b);
    BaseMeaning(b, lo, hi);
    BaseChars(b);
  }

  lemma SteppedReads(base: string, k: string, text: string, first: int, last: int, lo: int, hi: int)
    requires text == base + "/" + k && '/' !in base && ',' !in base && IsWord(base)
    requires BaseBounds(base, lo, hi) == Some((first, last)) && first <= last
    requires PyInt(k).Some? && Number(k) != 0
    ensures ParseSegment(text, lo, hi) == Some(PyRange(first, last + 1, Number(k)))
    ensures ',' !in text && IsWord(text) && text != "*"
  {
    SteppedText(base, k, text);
    SteppedParses(base, k, text, first, last, lo, hi);
  }

  lemma SteppedParses(base: string, k: string, text: string, first: int, last: int, lo: int, hi: int)
    requires '/' in text && Split(text, '/') == [base, k]
    requires BaseBounds(base, lo, hi) == Some((first, last)) && first <= last
    requires PyInt(k).Some? && Number(k) != 0
    ensures ParseSegment(text, lo, hi) == Some(PyRange(first, last + 1, Number(k)))
  {
  }

  lemma SingleMeaning(n: string, lo: int, hi: int)
    requires Unsigned(n)
    ensures ParseSegment(n, lo, hi) == Some({Number(n)}) && ',' !in n && IsWord(n) && n != "*"
  {
    IntChars(n);
  }

  lemma BetweenMeaning(x: string, y: string, lo: int, hi: int)
    requires Unsigned(x) && Unsigned(y)
    ensures ParseSegment(x + "-" + y, lo, hi) == Some(PyRange(Number(x), Number(y) + 1, 1))
    ensures ',' !in x + "-" + y && IsWord(x + "-" + y) && x + "-" + y != "*"
  {
    SpanMeaning(x, y);
  }

  /** The text of every well-formed segment parses to exactly the values the segment means. */
  lemma SegmentMeaning(g: Segment, lo: int, hi: int)
    requires SegmentOk(g, lo, hi)
    ensures ParseSegment(SegmentText(g), lo, hi).Some?
    ensures forall x :: x in ParseSegment(SegmentText(g), lo, hi).value <==> InSegment(x, g, lo, hi)
    ensures ',' !in SegmentText(g) && IsWord(SegmentText(g)) && SegmentText(g) != "*"
  {
    match g
    case Single(n) => SingleMeaning(n, lo, hi);
    case Between(x, y) => BetweenMeaning(x, y, lo, hi);
    case Stepped(b, k) =>
      var base := BaseReads(b, lo, hi);
      SteppedReads(base, k, base + "/" + k, FirstOf(b, lo), LastOf(b, hi), lo, hi);
  }

  lemma BaseChars(b: Base)
    requires BaseOk(b)
    ensures ',' !in BaseText(b) && IsWord(BaseText(b))
  {
    match b
    case All =>
    case From(n) => IntChars(n);
    case Span(x, y) => SpanMeaning(x, y);
  }

  function BaseOf(text: string): Base {
    if text == "*" then All
    else if '-' in text && |Split(text, '-')| == 2 then Span(Split(text, '-')[0], Split(text, '-')[1])
    else From(text)
  }

  /** The segment a text is read as, if it is read at all. */
  function SegmentOf(text: string): Segment {
    if '/' in text && |Split(text, '/')| == 2 then Stepped(BaseOf(Split(text, '/')[0]), Split(text, '/')[1])
    else if '-' in text && |Split(text, '-')| == 2 then Between(Split(text, '-')[0], Split(text, '-')[1])
    else Single(text)
  }

  lemma TwoPieces(text: string, c: char)
    requires |Split(text, c)| == 2
    ensures text == Split(text, c)[0] + [c] + Split(text, c)[1]
    ensures c !in Split(text, c)[0] && c !in Split(text, c)[1]
  {
    SplitJoins(text, c);
    var parts := Split(text, c);
    assert parts[1..] == [parts[1]];
  }

  lemma BaseRead(text: string, lo: int, hi: int)
    requires BaseBounds(text, lo, hi).Some?
    ensures BaseOk(BaseOf(text)) && BaseText(BaseOf(text)) == text
    ensures BaseBounds(text, lo, hi) == Some((FirstOf(BaseOf(text), lo), LastOf(BaseOf(text), hi)))
  {
    if text != "*" && '-' in text {
      TwoPieces(text, '-');
    }
  }

  /** Whatever the parser accepts as a segment is the text of a well-formed one. */
  lemma SegmentRead(text: string, lo: int, hi: int)
    requires ParseSegment(text, lo, hi).Some?
    ensures SegmentOk(SegmentOf(text), lo, hi) && SegmentText(SegmentOf(text)) == text
  {
    if '/' in text {
      TwoPieces(text, '/');
      BaseRead(Split(text, '/')[0], lo, hi);
    } else if '-' in text {
      TwoPieces(text, '-');
    }
  }

  /** x belongs to one of the segments. */
  predicate InAny(x: int, segments: seq<Segment>, lo: int, hi: int)
    requires forall i :: 0 <= i < |segments| ==> SegmentOk(segments[i], lo, hi)
  {
    segments != [] && (InAny(x, segments[..|segments| - 1], lo, hi) || InSegment(x, segments[|segments| - 1], lo, hi))
  }

  lemma InAnyNext(x: int, front: seq<Segment>, g: Segment, lo: int, hi: int)
    requires (forall i :: 0 <= i < |front| ==> SegmentOk(front[i], lo, hi)) && SegmentOk(g, lo, hi)
    ensures InAny(x, front + [g], lo, hi) <==> InAny(x, front, lo, hi) || InSegment(x, g, lo, hi)
  {
    assert (front + [g])[..|front|] == front;
  }

  lemma {:induction false} InAnyMeans(x: int, segments: seq<Segment>, lo: int, hi: int)
    requires forall i :: 0 <= i < |segments| ==> SegmentOk(segments[i], lo, hi)
    ensures InAny(x, segments, lo, hi) <==> exists i :: 0 <= i < |segments| && InSegment(x, segments[i], lo, hi)
  {
    if segments != [] {
      var n := |segments| - 1;
      var front, g := segments[..n], segments[n];
      assert segments == front + [g];
      InAnyNext(x, front, g, lo, hi);
      InAnyMeans(x, front, lo, hi);
      if i :| 0 <= i < n && InSegment(x, segments[i], lo, hi) {
        assert InSegment(x, front[i], lo, hi);
      }
    }
  }

  lemma ParseNext(front: seq<string>, text: string, lo: int, hi: int)
    requires ParseSegments(front, lo, hi).Some? && ParseSegment(text, lo, hi).Some?
    ensures ParseSegments(front + [text], lo, hi)
         == Some(ParseSegments(front, lo, hi).value + ParseSegment(text, lo, hi).value)
  {
    assert (front + [text])[..|front|] == front;
  }

  /** The texts of the segments parse to exactly the values that belong to one of them. */
  ghost predicate Meant(segments: seq<Segment>, lo: int, hi: int)
    requires forall i :: 0 <= i < |segments| ==> SegmentOk(segments[i], lo, hi)
  {
    && ParseSegments(Texts(segments), lo, hi).Some?
    && forall x :: x in ParseSegments(Texts(segments), lo, hi).value <==> InAny(x, segments, lo, hi)
  }

  lemma MeantNext(front: seq<Segment>, g: Segment, lo: int, hi: int)
    requires (forall i :: 0 <= i < |front| ==> SegmentOk(front[i], lo, hi)) && SegmentOk(g, lo, hi)
    requires Meant(front, lo, hi)
    ensures Meant(front + [g], lo, hi)
  {
    var segments := front + [g];
    SegmentMeaning(g, lo, hi);
    TextsNext(front, g);
    ParseNext(Texts(front), SegmentText(g), lo, hi);
    forall x ensures x in ParseSegments(Texts(segments), lo, hi).value <==> InAny(x, segments, lo, hi) {
      InAnyNext(x, front, g, lo, hi);
    }
  }

  lemma {:induction false} SegmentsMeaning(segments: seq<Segment>, lo: int, hi: int)
    requires forall i :: 0 <= i < |segments| ==> SegmentOk(segments[i], lo, hi)
    ensures Meant(segments, lo, hi)
  {
    if segments != [] {
      var front, g := segments[..|segments| - 1], segments[|segments| - 1];
      SegmentsMeaning(front, lo, hi);
      MeantNext(front, g, lo, hi);
      assert segments == front + [g];
    }
  }

  lemma TextsNext(front: seq<Segment>, g: Segment)
    ensures Texts(front + [g]) == Texts(front) + [SegmentText(g)]
  {
    assert (front + [g])[..|front|] == front;
  }

  function Texts(segments: seq<Segment>): (texts: seq<string>)
    ensures |texts| == |segments|
    ensures forall i :: 0 <= i < |segments| ==> texts[i] == SegmentText(segments[i])
  {
    if segments == [] then []
    else Texts(segments[..|segments| - 1]) + [SegmentText(segments[|segments| - 1])]
  }

  /** The meaning of fields: the text of every well-formed field parses to exactly the set it denotes. */
  lemma FieldMeaning(f: Field, lo: int, hi: int)
    requires FieldOk(f, lo, hi)
    ensures ParseField(FieldText(f), lo, hi).Some?
    ensures forall x :: x in ParseField(FieldText(f), lo, hi).value <==> InField(x, f, lo, hi)
    ensures IsWord(FieldText(f))
  {
    if f.OneOf? {
      var texts := Texts(f.segments);
      forall i | 0 <= i < |texts| ensures ',' !in texts[i] && IsWord(texts[i]) && texts[i] != "*" {
        SegmentMeaning(f.segments[i], lo, hi);
      }
      SplitOfJoin(texts, ',');
      JoinIsWord(texts);
      StarIsNoSegment(texts);
      SegmentsMeaning(f.segments, lo, hi);
      forall x ensures InAny(x, f.segments, lo, hi) <==> InField(x, f, lo, hi) {
        InAnyMeans(x, f.segments, lo, hi);
      }
    }
  }

  lemma {:induction false} JoinIsWord(texts: seq<string>)
    requires |texts| >= 1 && forall i :: 0 <= i < |texts| ==> IsWord(texts[i])
    ensures IsWord(Join(texts, ','))
  {
    if |texts| > 1 {
      JoinIsWord(texts[1..]);
    }
  }

  lemma StarIsNoSegment(texts: seq<string>)
    requires |texts| >= 1 && (forall i :: 0 <= i < |texts| ==> ',' !in texts[i] && texts[i] != "*")
    ensures Join(texts, ',') != "*"
  {
    SplitOfJoin(texts, ',');
    SplitFree("*", ',');
  }

  /** The text is a well-formed segment's. */
  predicate SegmentTextOk(text: string, lo: int, hi: int) {
    SegmentOk(SegmentOf(text), lo, hi) && SegmentText(SegmentOf(text)) == text
  }

  lemma {:induction false} SegmentsRead(texts: seq<string>, i: nat, lo: int, hi: int)
    requires i < |texts| && ParseSegments(texts, lo, hi).Some?
    ensures SegmentTextOk(texts[i], lo, hi)
  {
    var n := |texts| - 1;
    if i < n {
      SegmentsRead(texts[..n], i, lo, hi);
    } else {
      SegmentRead(texts[n], lo, hi);
    }
  }

  function SegmentsOf(texts: seq<string>): (segments: seq<Segment>)
    ensures |segments| == |texts|
  {
    seq(|texts|, i requires 0 <= i < |texts| => SegmentOf(texts[i]))
  }

  lemma TextsRead(texts: seq<string>, lo: int, hi: int)
    requires texts != [] && ParseSegments(texts, lo, hi).Some?
    ensures FieldOk(OneOf(SegmentsOf(texts)), lo, hi)
    ensures Texts(SegmentsOf(texts)) == texts
  {
    forall i | 0 <= i < |texts| ensures SegmentTextOk(texts[i], lo, hi) {
      SegmentsRead(texts, i, lo, hi);
    }
  }

  function FieldOf(text: string): Field {
    if text == "*" then Star else OneOf(SegmentsOf(Split(text, ',')))
  }

  lemma OneOfText(segments: seq<Segment>, texts: seq<string>)
    requires segments != [] && Texts(segments) == texts
    ensures FieldText(OneOf(segments)) == Join(texts, ',')
  {
  }

  /** Whatever the parser accepts is the text of the field it is read as. */
  lemma FieldRead(text: string, lo: int, hi: int)
    requires ParseField(text, lo, hi).Some?
    ensures FieldOk(FieldOf(text), lo, hi) && FieldText(FieldOf(text)) == text
  {
    if text != "*" {
      var parts := Split(text, ',');
      TextsRead(parts, lo, hi);
      SplitJoins(text, ',');
      OneOfText(SegmentsOf(parts), parts);
    }
  }

  lemma FieldTextParses(f: Field, text: string, lo: int, hi: int)
    requires FieldOk(f, lo, hi) && FieldText(f) == text
    ensures ParseField(text, lo, hi).Some?
  {
    FieldMeaning(f, lo, hi);
  }

  /** And nothing else parses: a text is accepted exactly when it is the text of a well-formed field. */
  lemma FieldAccepted(text: string, lo: int, hi: int)
    ensures ParseField(text, lo, hi).Some? <==> exists f :: FieldOk(f, lo, hi) && FieldText(f) == text
  {
    if ParseField(text, lo, hi).Some? {
      FieldRead(text, lo, hi);
    }
    forall f | FieldOk(f, lo, hi) && FieldText(f) == text ensures ParseField(text, lo, hi).Some? {
      FieldTextParses(f, text, lo, hi);
    }
  }

  // ---- Whole expressions ---------------------------------------------------------------------

  datatype CronSets = CronSets(minutes: set<int>, hours: set<int>, days: set<int>, months: set<int>, weekdays: set<int>)

  const FIELD_RANGES: seq<(int, int)> := [(0, 59), (0, 23), (1, 31), (1, 12), (0, 6)]

  /** From cron's weekdays, where 0 is Sunday, to Python's, where 0 is Monday. */
  function PyWeekday(w: int): int {
    (w + 6) % 7
  }

  function PyWeekdays(ws: set<int>): set<int> {
    set w | w in ws :: PyWeekday(w)
  }

  function ParseWord(words: seq<string>, i: nat): Option<set<int>>
    requires |words| == 5 && i < 5
  {
    ParseField(words[i], FIELD_RANGES[i].0, FIELD_RANGES[i].1)
  }

  function ParseCron(cron: string): Option<CronSets> {
    var words := Words(cron);
    if |words| != 5 || exists i :: 0 <= i < 5 && ParseWord(words, i).None? then None
    else Some(CronSets(ParseWord(words, 0).value, ParseWord(words, 1).value, ParseWord(words, 2).value,
                       ParseWord(words, 3).value, PyWeekdays(ParseWord(words, 4).value)))
  }

  /** The parts of a date that cron looks at; weekday counts from Monday = 0. */
  datatype DateTime = DateTime(minute: int, hour: int, day: int, month: int, weekday: int)

  /** Days of the month and of the week must both match. */
  predicate ShouldRun(cron: CronSets, dt: DateTime) {
    && dt.minute in cron.minutes
    && dt.hour in cron.hours
    && dt.day in cron.days
    && dt.month in cron.months
    && dt.weekday in cron.weekdays
  }

  function CronWeekday(d: int): int {
    (d + 1) % 7
  }

  /** The rotation of weekdays has an inverse on 0..6, and sends both of cron's Sundays to Python's. */
  lemma WeekdaysRotate(w: int)
    ensures 0 <= w < 7 ==> 0 <= PyWeekday(w) < 7 && CronWeekday(PyWeekday(w)) == w
    ensures 0 <= w < 7 ==> 0 <= CronWeekday(w) < 7 && PyWeekday(CronWeekday(w)) == w
    ensures PyWeekday(w) == 6 <==> w % 7 == 0
    ensures PyWeekday(w + 7) == PyWeekday(w)
  {
  }

  /** Five well-formed fields. */
  ghost predicate FieldsOk(fields: seq<Field>) {
    |fields| == 5 && forall i :: 0 <= i < 5 ==> FieldOk(fields[i], FIELD_RANGES[i].0, FIELD_RANGES[i].1)
  }

  /** The date satisfies what the fields say. */
  ghost predicate Denotes(fields: seq<Field>, dt: DateTime)
    requires FieldsOk(fields)
  {
    && InField(dt.minute, fields[0], 0, 59)
    && InField(dt.hour, fields[1], 0, 23)
    && InField(dt.day, fields[2], 1, 31)
    && InField(dt.month, fields[3], 1, 12)
    && exists w :: InField(w, fields[4], 0, 6) && PyWeekday(w) == dt.weekday
  }

  function FieldTexts(fields: seq<Field>): seq<string>
    requires |fields| == 5 && forall i :: 0 <= i < 5 ==> fields[i].OneOf? ==> |fields[i].segments| >= 1
  {
    [FieldText(fields[0]), FieldText(fields[1]), FieldText(fields[2]), FieldText(fields[3]), FieldText(fields[4])]
  }

  lemma WordMeaning(fields: seq<Field>, i: nat)
    requires FieldsOk(fields) && i < 5
    ensures IsWord(FieldTexts(fields)[i])
    ensures ParseWord(FieldTexts(fields), i).Some?
    ensures forall x :: x in ParseWord(FieldTexts(fields), i).value
                        <==> InField(x, fields[i], FIELD_RANGES[i].0, FIELD_RANGES[i].1)
  {
    FieldMeaning(fields[i], FIELD_RANGES[i].0, FIELD_RANGES[i].1);
  }

  /**
   * What a cron expression means: laid out with any white space, five well-formed fields parse, and the parsed
   * expression fires exactly at the dates whose five coordinates belong to the fields.
   */
  lemma {:induction false} CronMeaning(fields: seq<Field>, gaps: seq<string>, dt: DateTime)
    requires FieldsOk(fields) && |gaps| == 6 && GapsSeparate(gaps)
    ensures ParseCron(Layout(FieldTexts(fields), gaps)).Some?
    ensures ShouldRun(ParseCron(Layout(FieldTexts(fields), gaps)).value, dt) <==> Denotes(fields, dt)
  {
    var words := FieldTexts(fields);
    forall i | 0 <= i < 5
      ensures IsWord(words[i]) && ParseWord(words, i).Some?
      ensures forall x :: x in ParseWord(words, i).value
                          <==> InField(x, fields[i], FIELD_RANGES[i].0, FIELD_RANGES[i].1)
    {
      WordMeaning(fields, i);
    }
    WordsOfLayout(words, gaps);
    var ws := ParseWord(words, 4).value;
    assert dt.weekday in PyWeekdays(ws) <==> exists w :: w in ws && PyWeekday(w) == dt.weekday;
  }

  /** An expression is accepted exactly when it is five words, each the text of a well-formed field. */
  lemma {:induction false} CronAccepted(cron: string)
    ensures ParseCron(cron).Some? <==>
              && |Words(cron)| == 5
              && forall i :: 0 <= i < 5 ==>
                   exists f :: FieldOk(f, FIELD_RANGES[i].0, FIELD_RANGES[i].1) && FieldText(f) == Words(cron)[i]
  {
    if |Words(cron)| == 5 {
      forall i | 0 <= i < 5
        ensures ParseWord(Words(cron), i).Some? <==>
                  exists f :: FieldOk(f, FIELD_RANGES[i].0, FIELD_RANGES[i].1) && FieldText(f) == Words(cron)[i]
      {
        FieldAccepted(Words(cron)[i], FIELD_RANGES[i].0, FIELD_RANGES[i].1);
      }
    }
  }

  // ---- The same on numbers -------------------------------------------------------------------

  datatype NumberBase = Everything | Onward(n: nat) | Range(first: nat, last: nat)

  datatype NumberSegment = Exactly(n: nat) | Through(first: nat, last: nat) | Every(base: NumberBase, step: nat)

  datatype NumberField = Any | Listed(segments: seq<NumberSegment>)

  function WriteBase(b: NumberBase): Base {
    match b
    case Everything => All
    case Onward(n) => From(Decimal(n))
    case Range(first, last) => Span(Decimal(first), Decimal(last))
  }

  function WriteSegment(g: NumberSegment): Segment {
    match g
    case Exactly(n) => Single(Decimal(n))
    case Through(first, last) => Between(Decimal(first), Decimal(last))
    case Every(base, step) => Stepped(WriteBase(base), Decimal(step))
  }

  function Write(f: NumberField): Field {
    match f
    case Any => Star
    case Listed(segments) => OneOf(seq(|segments|, i requires 0 <= i < |segments| => WriteSegment(segments[i])))
  }

  predicate StepOk(base: NumberBase, step: nat, lo: int, hi: int) {
    step >= 1
    && match base
       case Everything => lo <= hi
       case Onward(n) => n <= hi
       case Range(first, last) => first <= last
  }

  predicate NumbersOk(f: NumberField, lo: int, hi: int) {
    f.Listed? ==>
      && f.segments != []
      && forall i :: 0 <= i < |f.segments| && f.segments[i].Every? ==>
           StepOk(f.segments[i].base, f.segments[i].step, lo, hi)
  }

  /** The numbers a segment stands for: one, an interval, or every step-th from its start, up to its end. */
  predicate Includes(g: NumberSegment, x: int, lo: int, hi: int) {
    match g
    case Exactly(n) => x == n
    case Through(first, last) => first <= x <= last
    case Every(base, step) =>
      step >= 1
      && match base
         case Everything => lo <= x <= hi && (x - lo) % step == 0
         case Onward(n) => n <= x <= hi && (x - n) % step == 0
         case Range(first, last) => first <= x <= last && (x - first) % step == 0
  }

  predicate Contains(f: NumberField, x: int, lo: int, hi: int) {
    match f
    case Any => lo <= x <= hi
    case Listed(segments) => exists i :: 0 <= i < |segments| && Includes(segments[i], x, lo, hi)
  }

  lemma WrittenBase(b: NumberBase, lo: int, hi: int)
    ensures BaseOk(WriteBase(b))
    ensures FirstOf(WriteBase(b), lo)
         == (match b case Everything => lo case Onward(n) => n case Range(first, _) => first)
    ensures LastOf(WriteBase(b), hi)
         == (match b case Everything => hi case Onward(_) => hi case Range(_, last) => last)
  {
    match b
    case Everything =>
    case Onward(n) => DecimalReads(n);
    case Range(first, last) =>
      DecimalReads(first);
      DecimalReads(last);
  }

  lemma WrittenThrough(first: nat, last: nat, lo: int, hi: int)
    ensures SegmentOk(Between(Decimal(first), Decimal(last)), lo, hi)
    ensures forall x :: InSegment(x, Between(Decimal(first), Decimal(last)), lo, hi) <==> first <= x <= last
  {
    DecimalReads(first);
    DecimalReads(last);
  }

  predicate EveryStep(x: int, first: int, last: int, step: int)
    requires step > 0
  {
    first <= x <= last && (x - first) % step == 0
  }

  lemma SteppedHas(x: int, b: Base, k: string, first: int, last: int, step: int, lo: int, hi: int)
    requires SegmentOk(Stepped(b, k), lo, hi) && Number(k) == step > 0
    requires FirstOf(b, lo) == first && LastOf(b, hi) == last
    ensures InSegment(x, Stepped(b, k), lo, hi) <==> EveryStep(x, first, last, step)
  {
  }

  lemma EveryHas(x: int, base: NumberBase, step: nat, lo: int, hi: int)
    requires step >= 1
    ensures var first := match base { case Everything => lo case Onward(n) => n case Range(a, _) => a };
            var last := match base { case Everything => hi case Onward(_) => hi case Range(_, b) => b };
            Includes(Every(base, step), x, lo, hi) <==> EveryStep(x, first, last, step)
  {
  }

  lemma WrittenEvery(base: NumberBase, step: nat, lo: int, hi: int)
    requires StepOk(base, step, lo, hi)
    ensures SegmentOk(Stepped(WriteBase(base), Decimal(step)), lo, hi)
    ensures forall x :: InSegment(x, Stepped(WriteBase(base), Decimal(step)), lo, hi)
                        <==> Includes(Every(base, step), x, lo, hi)
  {
    DecimalReads(step);
    WrittenBase(base, lo, hi);
    var b, k := WriteBase(base), Decimal(step);
    assert Number(k) == step;
    forall x ensures InSegment(x, Stepped(b, k), lo, hi) <==> Includes(Every(base, step), x, lo, hi) {
      SteppedHas(x, b, k, FirstOf(b, lo), LastOf(b, hi), step, lo, hi);
      EveryHas(x, base, step, lo, hi);
    }
  }

  lemma WrittenSegment(g: NumberSegment, lo: int, hi: int)
    requires g.Every? ==> StepOk(g.base, g.step, lo, hi)
    ensures SegmentOk(WriteSegment(g), lo, hi)
    ensures forall x :: InSegment(x, WriteSegment(g), lo, hi) <==> Includes(g, x, lo, hi)
  {
    match g
    case Exactly(n) => DecimalReads(n);
    case Through(first, last) => WrittenThrough(first, last, lo, hi);
    case Every(base, step) => WrittenEvery(base, step, lo, hi);
  }

  lemma WrittenField(f: NumberField, lo: int, hi: int)
    requires NumbersOk(f, lo, hi)
    ensures FieldOk(Write(f), lo, hi)
    ensures forall x :: InField(x, Write(f), lo, hi) <==> Contains(f, x, lo, hi)
  {
    if f.Listed? {
      forall i | 0 <= i < |f.segments|
        ensures SegmentOk(WriteSegment(f.segments[i]), lo, hi)
        ensures forall x :: InSegment(x, WriteSegment(f.segments[i]), lo, hi) <==> Includes(f.segments[i], x, lo, hi)
      {
        WrittenSegment(f.segments[i], lo, hi);
      }
      var written := Write(f).segments;
      forall x ensures InField(x, Write(f), lo, hi) <==> Contains(f, x, lo, hi) {
        if i :| 0 <= i < |written| && InSegment(x, written[i], lo, hi) {
          assert Includes(f.segments[i], x, lo, hi);
        }
        if i :| 0 <= i < |f.segments| && Includes(f.segments[i], x, lo, hi) {
          assert InSegment(x, written[i], lo, hi);
        }
      }
    }
  }

  /** How such fields look. */
  lemma AsWritten()
    ensures FieldText(Write(Any)) == "*"
    ensures FieldText(Write(Listed([Exactly(1), Exactly(15)]))) == "1,15"
    ensures FieldText(Write(Listed([Through(9, 17)]))) == "9-17"
  {
    TwoDigits();
    TwoTexts(Exactly(1), Exactly(15));
    OneText(Through(9, 17));
  }

  lemma StepsAsWritten()
    ensures FieldText(Write(Listed([Every(Everything, 15)]))) == "*/15"
    ensures FieldText(Write(Listed([Every(Onward(30), 10)]))) == "30/10"
  {
    TwoDigits();
    OneText(Every(Everything, 15));
    OneText(Every(Onward(30), 10));
  }

  lemma RangeStepAsWritten()
    ensures FieldText(Write(Listed([Every(Range(10, 40), 5)]))) == "10-40/5"
  {
    TwoDigits();
    OneText(Every(Range(10, 40), 5));
  }

  lemma TwoTexts(g: NumberSegment, h: NumberSegment)
    ensures FieldText(Write(Listed([g, h]))) == SegmentText(WriteSegment(g)) + "," + SegmentText(WriteSegment(h))
  {
    var a, b := WriteSegment(g), WriteSegment(h);
    assert Write(Listed([g, h])) == OneOf([a, b]);
    assert Texts([a, b]) == [SegmentText(a), SegmentText(b)];
    assert Join([SegmentText(b)], ',') == SegmentText(b);
  }

  lemma TwoDigits()
    ensures Decimal(1) == "1" && Decimal(5) == "5" && Decimal(9) == "9"
    ensures Decimal(10) == "10" && Decimal(15) == "15" && Decimal(17) == "17"
    ensures Decimal(30) == "30" && Decimal(40) == "40"
  {
  }

  lemma OneText(g: NumberSegment)
    ensures FieldText(Write(Listed([g]))) == SegmentText(WriteSegment(g))
  {
    assert Write(Listed([g])) == OneOf([WriteSegment(g)]);
    assert Texts([WriteSegment(g)]) == [SegmentText(WriteSegment(g))];
  }

  ghost predicate NumberFieldsOk(fields: seq<NumberField>) {
    |fields| == 5 && forall i :: 0 <= i < 5 ==> NumbersOk(fields[i], FIELD_RANGES[i].0, FIELD_RANGES[i].1)
  }

  function WriteAll(fields: seq<NumberField>): (written: seq<Field>)
    requires |fields| == 5
    ensures |written| == 5
  {
    [Write(fields[0]), Write(fields[1]), Write(fields[2]), Write(fields[3]), Write(fields[4])]
  }

  /** The date's five coordinates are among the fields' numbers, its weekday counted from cron's Sunday. */
  predicate Coordinates(fields: seq<NumberField>, dt: DateTime, w: int)
    requires |fields| == 5
  {
    && Contains(fields[0], dt.minute, 0, 59)
    && Contains(fields[1], dt.hour, 0, 23)
    && Contains(fields[2], dt.day, 1, 31)
    && Contains(fields[3], dt.month, 1, 12)
    && Contains(fields[4], w, 0, 6) && (w + 6) % 7 == dt.weekday
  }

  lemma WrittenFieldsOk(fields: seq<NumberField>)
    requires NumberFieldsOk(fields)
    ensures FieldsOk(WriteAll(fields))
  {
    WrittenField(fields[0], 0, 59);
    WrittenField(fields[1], 0, 23);
    WrittenField(fields[2], 1, 31);
    WrittenField(fields[3], 1, 12);
    WrittenField(fields[4], 0, 6);
  }

  lemma NumbersDenote(fields: seq<NumberField>, dt: DateTime)
    requires NumberFieldsOk(fields) && FieldsOk(WriteAll(fields))
    ensures Denotes(WriteAll(fields), dt) <==> exists w :: Coordinates(fields, dt, w)
  {
    WrittenField(fields[0], 0, 59);
    WrittenField(fields[1], 0, 23);
    WrittenField(fields[2], 1, 31);
    WrittenField(fields[3], 1, 12);
    WrittenField(fields[4], 0, 6);
    forall w ensures InField(w, WriteAll(fields)[4], 0, 6) && PyWeekday(w) == dt.weekday
                     <==> Contains(fields[4], w, 0, 6) && (w + 6) % 7 == dt.weekday {
    }
    if Denotes(WriteAll(fields), dt) {
      var w :| InField(w, WriteAll(fields)[4], 0, 6) && PyWeekday(w) == dt.weekday;
      assert Coordinates(fields, dt, w);
    }
  }

  /** Five fields of numbers, written in base ten, fire exactly at the dates whose coordinates they contain. */
  lemma {:induction false} CronOnNumbers(fields: seq<NumberField>, gaps: seq<string>, dt: DateTime)
    requires NumberFieldsOk(fields) && |gaps| == 6 && GapsSeparate(gaps)
    ensures FieldsOk(WriteAll(fields)) && ParseCron(Layout(FieldTexts(WriteAll(fields)), gaps)).Some?
    ensures ShouldRun(ParseCron(Layout(FieldTexts(WriteAll(fields)), gaps)).value, dt)
            <==> exists w :: Coordinates(fields, dt, w)
  {
    WrittenFieldsOk(fields);
    CronMeaning(WriteAll(fields), gaps, dt);
    NumbersDenote(fields, dt);
  }

  // ---- Values outside a field's range --------------------------------------------------------

  /** Coordinates inside their ranges, whether or not the calendar has such a date. */
  predicate InRanges(dt: DateTime) {
    0 <= dt.minute <= 59 && 0 <= dt.hour <= 23 && 1 <= dt.day <= 31 && 1 <= dt.month <= 12 && 0 <= dt.weekday <= 6
  }

  ghost predicate HasValueInRange(f: Field, lo: int, hi: int)
    requires FieldOk(f, lo, hi)
  {
    exists x :: lo <= x <= hi && InField(x, f, lo, hi)
  }

  /**
   * The parser accepts any numbers. In the first four fields those outside the range match nothing: an expression
   * matches some coordinates inside their ranges exactly when each of the four has a value inside; a weekday of
   * any size counts, modulo 7.
   */
  lemma EverMatches(fields: seq<Field>)
    requires FieldsOk(fields)
    ensures (exists dt :: InRanges(dt) && Denotes(fields, dt))
            <==> && (forall i :: 0 <= i < 4 ==> HasValueInRange(fields[i], FIELD_RANGES[i].0, FIELD_RANGES[i].1))
                 && exists w :: InField(w, fields[4], 0, 6)
  {
    if dt :| InRanges(dt) && Denotes(fields, dt) {
      assert HasValueInRange(fields[0], 0, 59) && HasValueInRange(fields[1], 0, 23);
      assert HasValueInRange(fields[2], 1, 31) && HasValueInRange(fields[3], 1, 12);
    }
    if (forall i :: 0 <= i < 4 ==> HasValueInRange(fields[i], FIELD_RANGES[i].0, FIELD_RANGES[i].1))
       && exists w :: InField(w, fields[4], 0, 6)
    {
      assert HasValueInRange(fields[0], 0, 59) && HasValueInRange(fields[1], 0, 23);
      assert HasValueInRange(fields[2], 1, 31) && HasValueInRange(fields[3], 1, 12);
      var minute :| 0 <= minute <= 59 && InField(minute, fields[0], 0, 59);
      var hour :| 0 <= hour <= 23 && InField(hour, fields[1], 0, 23);
      var day :| 1 <= day <= 31 && InField(day, fields[2], 1, 31);
      var month :| 1 <= month <= 12 && InField(month, fields[3], 1, 12);
      var w :| InField(w, fields[4], 0, 6);
      assert Denotes(fields, DateTime(minute, hour, day, month, PyWeekday(w)));
    }
  }

  /** A weekday of 8 is Monday. */
  lemma EightIsMonday(dt: DateTime)
    requires InRanges(dt)
    ensures FieldsOk([Star, Star, Star, Star, OneOf([Single("8")])])
    ensures Denotes([Star, Star, Star, Star, OneOf([Single("8")])], dt) <==> dt.weekday == 0
  {
    var f := OneOf([Single("8")]);
    assert PyInt("8") == Some(8);
    assert FieldOk(f, 0, 6);
    forall w ensures InField(w, f, 0, 6) <==> w == 8 {
      assert InSegment(w, f.segments[0], 0, 6) <==> w == 8;
    }
    assert InField(8, f, 0, 6) && PyWeekday(8) == 0;
  }

  // ---- The parser as it runs -----------------------------------------------------------------

  lemma GridStep(start: int, x: int, y: int, k: int)
    requires k > 0 && Congruent(x, start, k) && x <= y < x + k
    ensures Congruent(y, start, k) <==> y == x
  {
    var q, d := (x - start) / k, y - x;
    assert y - start == k * q + d;
    RemainderOf(k, q, d);
  }

  lemma ProductSize(k: int, n: int)
    requires k > 0
    ensures n >= 1 ==> k * n >= k
    ensures n <= -1 ==> k * n <= -k
  {
    if n >= 1 {
      assert k * n == k + k * (n - 1);
    } else if n <= -1 {
      assert k * n == -k + k * (n + 1);
    }
  }

  lemma RemainderOf(k: int, q: int, d: int)
    requires 0 <= d < k
    ensures (k * q + d) % k == d
  {
    var r, p := (k * q + d) % k, (k * q + d) / k;
    assert k * (q - p) == r - d;
    ProductSize(k, q - p);
  }

  lemma GridNext(start: int, x: int, k: int)
    requires k > 0 && Congruent(x, start, k)
    ensures Congruent(x + k, start, k) && Congruent(x - k, start, k)
  {
    var q := (x - start) / k;
    RemainderOf(k, q + 1, 0);
    RemainderOf(k, q - 1, 0);
    assert x + k - start == k * (q + 1) && x - k - start == k * (q - 1);
  }

  lemma UpStep(start: int, x: int, stop: int, k: int)
    requires k > 0 && Congruent(x, start, k) && start <= x < stop
    ensures Congruent(x + k, start, k)
    ensures PyRange(start, if x + k < stop then x + k else stop, k) == PyRange(start, x, k) + {x}
  {
    GridNext(start, x, k);
    forall y | x <= y < x + k ensures Congruent(y, start, k) <==> y == x {
      GridStep(start, x, y, k);
    }
  }

  lemma DownStep(start: int, x: int, stop: int, k: int)
    requires k > 0 && Congruent(x, start, k) && stop < x <= start
    ensures Congruent(x - k, start, k)
    ensures DownRange(start, if x - k > stop then x - k else stop, k) == DownRange(start, x, k) + {x}
  {
    GridNext(start, x, k);
    forall y | x - k <= y < x ensures Congruent(y, start, k) <==> y == x - k {
      GridStep(start, x - k, y, k);
    }
  }

  /** values.update(range(start, stop, step)) */
  method AddRange(values: set<int>, start: int, stop: int, step: int) returns (r: set<int>)
    requires step != 0
    ensures r == values + PyRange(start, stop, step)
  {
    r := values;
    var x := start;
    if step > 0 {
      RemainderOf(step, 0, 0);
      while x < stop
        invariant Congruent(x, start, step) && start <= x
        invariant r == values + PyRange(start, if x < stop then x else stop, step)
        decreases stop - x
      {
        UpStep(start, x, stop, step);
        r := r + {x};
        x := x + step;
      }
    } else {
      var k := -step;
      RemainderOf(k, 0, 0);
      while x > stop
        invariant Congruent(x, start, k) && x <= start
        invariant r == values + DownRange(start, if x > stop then x else stop, k)
        decreases x - stop
      {
        DownStep(start, x, stop, k);
        r := r + {x};
        x := x + step;
      }
    }
  }

  /** One turn of the loop over a field's segments. */
  method AddSegment(values: set<int>, segment: string, lo: int, hi: int) returns (r: Option<set<int>>)
    ensures r == (match ParseSegment(segment, lo, hi) case None => None case Some(v) => Some(values + v))
  {
    if '/' in segment {
      var sides := Split(segment, '/');
      if |sides| != 2 {
        return None;
      }
      var step, bounds := PyInt(sides[1]), BaseBounds(sides[0], lo, hi);
      if step.None? || bounds.None? || bounds.value.0 > bounds.value.1 || step.value == 0 {
        return None;
      }
      var added := AddRange(values, bounds.value.0, bounds.value.1 + 1, step.value);
      r := Some(added);
    } else if '-' in segment {
      var ends := Split(segment, '-');
      if |ends| != 2 || PyInt(ends[0]).None? || PyInt(ends[1]).None? {
        return None;
      }
      var added := AddRange(values, PyInt(ends[0]).value, PyInt(ends[1]).value + 1, 1);
      r := Some(added);
    } else {
      var n := PyInt(segment);
      r := if n.None? then None else Some(values + {n.value});
    }
  }

  method FillField(field: string, lo: int, hi: int) returns (r: Option<set<int>>)
    ensures r == ParseField(field, lo, hi)
  {
    if field == "*" {
      var all_ := AddRange({}, lo, hi + 1, 1);
      assert all_ == PyRange(lo, hi + 1, 1);
      return Some(all_);
    }
    var segments := Split(field, ',');
    var values: set<int> := {};
    var i := 0;
    while i < |segments|
      invariant i <= |segments|
      invariant ParseSegments(segments[..i], lo, hi) == Some(values)
    {
      assert segments[..i + 1][..i] == segments[..i];
      var added := AddSegment(values, segments[i], lo, hi);
      if added.None? {
        NoneStays(segments, i + 1, lo, hi);
        return None;
      }
      values := added.value;
      i := i + 1;
    }
    assert segments[..i] == segments;
    r := Some(values);
  }

  lemma {:induction false} NoneStays(segments: seq<string>, n: nat, lo: int, hi: int)
    requires n <= |segments| && ParseSegments(segments[..n], lo, hi).None?
    ensures ParseSegments(segments, lo, hi).None?
    decreases |segments|
  {
    if n == |segments| {
      assert segments[..n] == segments;
    } else {
      var front := segments[..|segments| - 1];
      assert front[..n] == segments[..n];
      NoneStays(front, n, lo, hi);
    }
  }

  method Parse(cron: string) returns (r: Option<CronSets>)
    ensures r == ParseCron(cron)
  {
    var words := Words(cron);
    if |words| != 5 {
      return None;
    }
    var result: seq<set<int>> := [];
    var i := 0;
    while i < 5
      invariant i <= 5 && |result| == i
      invariant forall k :: 0 <= k < i ==> ParseWord(words, k) == Some(result[k])
    {
      var values := FillField(words[i], FIELD_RANGES[i].0, FIELD_RANGES[i].1);
      if values.None? {
        assert ParseWord(words, i).None?;
        return None;
      }
      result := result + [values.value];
      i := i + 1;
    }
    r := Some(CronSets(result[0], result[1], result[2], result[3], PyWeekdays(result[4])));
  }
}
