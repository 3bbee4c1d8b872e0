/** The texts of byte ranges: Range as sent upstream and as received, and Content-Range. */
module RangeHeaders {
  import opened SparseSpec

  // -------------------------------------------------------- the library functions used

  /** White space as strings.TrimSpace sees it. */
  predicate IsSpace(c: char) {
    || c == ' ' || '\t' <= c <= '\r' || c == '\U{85}' || c == '\U{A0}' || c == '\U{1680}'
    || '\U{2000}' <= c <= '\U{200A}' || c == '\U{2028}' || c == '\U{2029}' || c == '\U{202F}'
    || c == '\U{205F}' || c == '\U{3000}'
  }

  function TrimLeft(s: string): string {
    if s != "" && IsSpace(s[0]) then TrimLeft(s[1..]) else s
  }

  function TrimRight(s: string): string {
    if s != "" && IsSpace(s[|s| - 1]) then TrimRight(s[..|s| - 1]) else s
  }

  function TrimSpace(s: string): string { TrimRight(TrimLeft(s)) }

  /** The index of the first c in s, or -1. */
  function IndexOf(s: string, c: char): (i: int)
    ensures -1 <= i < |s|
    ensures i >= 0 ==> s[i] == c && c !in s[..i]
    ensures i < 0 <==> c !in s
  {
    if s == "" then -1
    else if s[0] == c then 0
    else
      var i := IndexOf(s[1..], c);
      assert s == [s[0]] + s[1..];
      if i < 0 then -1
      else
        assert s[..i + 1] == [s[0]] + s[1..][..i];
        i + 1
  }

  /** The index of the last c in s, or -1. */
  function LastIndexOf(s: string, c: char): (i: int)
    ensures -1 <= i < |s|
    ensures i >= 0 ==> s[i] == c && c !in s[i + 1..]
    ensures i < 0 <==> c !in s
  {
    if s == "" then -1
    else if s[|s| - 1] == c then |s| - 1
    else
      var i := LastIndexOf(s[..|s| - 1], c);
      assert s == s[..|s| - 1] + [s[|s| - 1]];
      if i < 0 then -1
      else
        assert s[i + 1..] == s[..|s| - 1][i + 1..] + [s[|s| - 1]];
        i
  }

  predicate IsDigit(c: char) { '0' <= c <= '9' }

  predicate AllDigits(s: string) { forall i :: 0 <= i < |s| ==> IsDigit(s[i]) }

  function Value(s: string): nat
    requires AllDigits(s)
  {
    if s == "" then 0 else Value(s[..|s| - 1]) * 10 + (s[|s| - 1] as int - '0' as int)
  }

  /** strconv.ParseInt(s, 10, 64). */
  function ParseInt(s: string): Option<int> {
    if s == "" then None
    else
      var neg := s[0] == '-';
      var digits := if neg || s[0] == '+' then s[1..] else s;
      if digits == "" || !AllDigits(digits) then None
      else if neg then (if Value(digits) > MAX_INT64 + 1 then None else Some(0 - Value(digits)))
      else (if Value(digits) > MAX_INT64 then None else Some(Value(digits)))
  }

  /** The decimal text of a number, as %d and FormatInt write it: digits with its value, no leading zero. */
  function Decimal(n: nat): (s: string)
    ensures s != "" && AllDigits(s) && Value(s) == n && (s[0] == '0' ==> n == 0 && |s| == 1)
  {
    if n < 10 then
      [n as char + '0']
    else
      var s := Decimal(n / 10) + [(n % 10) as char + '0'];
      assert s[..|s| - 1] == Decimal(n / 10);
      s
  }

  // -------------------------------------------------------- parseSingleRange

  datatype RangeResult = RangeResult(start: int, end: int, ok: bool, satisfiable: bool)

  const FULL_BODY := RangeResult(0, 0, false, true)
  const UNSATISFIABLE := RangeResult(0, 0, false, false)
  const PREFIX := "bytes="

  function ParseSingleRange(header: string, size: int): RangeResult {
    if !(PREFIX <= header) then FULL_BODY
    else
      var spec := TrimSpace(header[|PREFIX|..]);
      var dash := IndexOf(spec, '-');
      if spec == "" || ',' in spec || dash < 0 then FULL_BODY
      else ParseBounds(TrimSpace(spec[..dash]), TrimSpace(spec[dash + 1..]), size)
  }

  function ParseBounds(startStr: string, endStr: string, size: int): RangeResult {
    if startStr == "" then
      if endStr == "" then FULL_BODY
      else match ParseInt(endStr)
        case None => UNSATISFIABLE
        case Some(n) => if n <= 0 then UNSATISFIABLE else RangeResult(size - Min(n, size), size - 1, true, true)
    else match ParseInt(startStr)
      case None => UNSATISFIABLE
      case Some(s) =>
        if s < 0 || s >= size then UNSATISFIABLE
        else if endStr == "" then RangeResult(s, size - 1, true, true)
        else match ParseInt(endStr)
          case None => UNSATISFIABLE
          case Some(e) => if e < s then UNSATISFIABLE else RangeResult(s, Min(e, size - 1), true, true)
  }

  /** parseContentRangeTotal. */
  function ParseContentRangeTotal(header: string): int {
    var i := LastIndexOf(header, '/');
    if i < 0 then -1
    else match ParseInt(TrimSpace(header[i + 1..])) case Some(total) => total case None => -1
  }

  // -------------------------------------------------------- what a range asks for

  /** A byte range of section 14.1.1 of RFC 9110. */
  datatype Spec = FromTo(first: nat, last: nat) | From(first: nat) | Suffix(length: nat)

  /** The bytes of a file of `size` bytes that a range asks for. */
  predicate Picks(spec: Spec, size: int, o: int) {
    0 <= o < size && match spec
      case FromTo(a, b) => a <= o <= b
      case From(a) => a <= o
      case Suffix(n) => size - n <= o
  }

  /** Every number of the range fits a signed 64-bit integer. */
  predicate Fits(spec: Spec) {
    match spec
    case FromTo(a, b) => a <= MAX_INT64 && b <= MAX_INT64
    case From(a) => a <= MAX_INT64
    case Suffix(n) => n <= MAX_INT64
  }

  function FirstText(spec: Spec): string {
    match spec
    case FromTo(a, _) => Decimal(a)
    case From(a) => Decimal(a)
    case Suffix(_) => ""
  }

  function LastText(spec: Spec): string {
    match spec
    case FromTo(_, b) => Decimal(b)
    case From(_) => ""
    case Suffix(n) => Decimal(n)
  }

  function RangeText(spec: Spec): string { PREFIX + FirstText(spec) + "-" + LastText(spec) }

  /** The Range header httpFetchRange sends for an inclusive range. */
  function UpstreamRange(start: nat, end: nat): string { PREFIX + Decimal(start) + "-" + Decimal(end) }

  /** The Content-Range header serveSparse answers with. */
  function ContentRange(start: nat, end: nat, size: nat): string {
    "bytes " + Decimal(start) + "-" + Decimal(end) + "/" + Decimal(size)
  }

  // -------------------------------------------------------- proofs

  lemma ParseDecimal(n: nat)
    requires n <= MAX_INT64
    ensures ParseInt(Decimal(n)) == Some(n)
  {
    var s := Decimal(n);
    assert IsDigit(s[0]);
  }

  lemma DigitsPlain(s: string)
    requires AllDigits(s)
    ensures TrimSpace(s) == s && ',' !in s && '-' !in s && '/' !in s
  {
    assert s != "" ==> IsDigit(s[0]) && IsDigit(s[|s| - 1]);
  }

  /** Trimming leaves a text alone that neither begins nor ends with white space. */
  lemma NothingToTrim(s: string)
    requires s != "" && !IsSpace(s[0]) && !IsSpace(s[|s| - 1])
    ensures TrimSpace(s) == s
  {
  }

  lemma FirstAt(s: string, c: char, i: nat)
    requires i < |s| && s[i] == c && c !in s[..i]
    ensures IndexOf(s, c) == i
  {
    var j := IndexOf(s, c);
    forall k | 0 <= k < i ensures s[k] != c { assert s[..i][k] == s[k]; }
    forall k | 0 <= k < j ensures s[k] != c { assert s[..j][k] == s[k]; }
  }

  lemma LastAt(s: string, c: char, i: nat)
    requires i < |s| && s[i] == c && c !in s[i + 1..]
    ensures LastIndexOf(s, c) == i
  {
    var j := LastIndexOf(s, c);
    forall k | i < k < |s| ensures s[k] != c { assert s[i + 1..][k - i - 1] == s[k]; }
    forall k | j < k < |s| ensures s[k] != c { assert s[j + 1..][k - j - 1] == s[k]; }
  }

  lemma SplitAtDash(first: string, last: string)
    requires AllDigits(first) && AllDigits(last)
    ensures var text := first + "-" + last;
      && TrimSpace(text) == text && ',' !in text
      && IndexOf(text, '-') == |first| && text[..|first|] == first && text[|first| + 1..] == last
  {
    var text := first + "-" + last;
    DigitsPlain(first);
    DigitsPlain(last);
    assert first != "" ==> IsDigit(first[0]);
    assert last != "" ==> IsDigit(last[|last| - 1]);
    assert text[0] == if first == "" then '-' else first[0];
    assert text[|text| - 1] == if last == "" then '-' else last[|last| - 1];
    NothingToTrim(text);
    assert text[|first|] == '-' && text[..|first|] == first && text[|first| + 1..] == last;
    FirstAt(text, '-', |first|);
  }

  lemma ParseRangeText(spec: Spec, size: int)
    ensures ParseSingleRange(RangeText(spec), size) == ParseBounds(FirstText(spec), LastText(spec), size)
  {
    hide IndexOf, TrimSpace, ParseBounds, Decimal;
    var first, last := FirstText(spec), LastText(spec);
    var text := first + "-" + last;
    SplitAtDash(first, last);
    var header := RangeText(spec);
    assert header == PREFIX + text;
    assert header[|PREFIX|..] == text;
    DigitsPlain(first);
    DigitsPlain(last);
  }

  /** A range written as section 14.1.1 of RFC 9110 has it: the answer is a range or a refusal, and a
      range exactly when every number fits 64 bits and some byte is asked for; then it is exactly the
      bytes asked for, cut to the file (section 14.1.2). */
  lemma RangeIsCut(spec: Spec, size: int)
    requires 0 < size
    ensures var r := ParseSingleRange(RangeText(spec), size);
      && r.ok == r.satisfiable
      && (r.ok <==> Fits(spec) && exists o :: Picks(spec, size, o))
      && (r.ok ==> forall o :: Picks(spec, size, o) <==> r.start <= o <= r.end)
  {
    ParseRangeText(spec, size);
    var x, y := FirstText(spec), LastText(spec);
    assert Numbers(x, y, spec) by { DecimalIsNumber(spec); }
    BoundsOfNumbers(x, y, spec, size);
  }

  lemma DecimalIsNumber(spec: Spec)
    ensures Numbers(FirstText(spec), LastText(spec), spec)
  {
    var x, y := FirstText(spec), LastText(spec);
    assert x != "" ==> IsDigit(x[0]);
    assert y != "" ==> IsDigit(y[0]);
  }

  /** The ranges the code refuses although they ask for a byte: a last position or a suffix length
      above the 64-bit range, which section 14.1.2 of RFC 9110 would have cut to the file. */
  lemma LargeNumberRefused(spec: Spec, size: int)
    requires 0 < size <= MAX_INT64
    ensures !ParseSingleRange(RangeText(spec), size).ok && (exists o :: Picks(spec, size, o)) <==>
      match spec
      case FromTo(a, b) => a < size && b > MAX_INT64
      case From(_) => false
      case Suffix(n) => n > MAX_INT64
  {
    RangeIsCut(spec, size);
    match spec
    case FromTo(a, b) => assert a < size && a <= b ==> Picks(spec, size, a);
    case From(a) => assert a < size ==> Picks(spec, size, a);
    case Suffix(n) => assert n > 0 ==> Picks(spec, size, size - 1);
  }

  /** One such request each: the whole of a one-byte file, refused. */
  lemma WholeFileRefused()
    ensures ParseSingleRange(RangeText(FromTo(0, MAX_INT64 + 1)), 1) == UNSATISFIABLE
      && Picks(FromTo(0, MAX_INT64 + 1), 1, 0)
    ensures ParseSingleRange(RangeText(Suffix(MAX_INT64 + 1)), 1) == UNSATISFIABLE
      && Picks(Suffix(MAX_INT64 + 1), 1, 0)
  {
    hide RangeText, Decimal;
    LargeNumberRefused(FromTo(0, MAX_INT64 + 1), 1);
    LargeNumberRefused(Suffix(MAX_INT64 + 1), 1);
    RangeIsCut(FromTo(0, MAX_INT64 + 1), 1);
    RangeIsCut(Suffix(MAX_INT64 + 1), 1);
    RefusalIsOne(RangeText(FromTo(0, MAX_INT64 + 1)), 1);
    RefusalIsOne(RangeText(Suffix(MAX_INT64 + 1)), 1);
  }

  lemma RefusalIsOne(header: string, size: int)
    requires !ParseSingleRange(header, size).satisfiable
    ensures ParseSingleRange(header, size) == UNSATISFIABLE
  {
  }

  /** Round trip: the header sent upstream for [s, e] parses to exactly [s, e]. */
  lemma UpstreamRangeParses(s: nat, e: nat, size: int)
    requires s <= e < size <= MAX_INT64
    ensures ParseSingleRange(UpstreamRange(s, e), size) == RangeResult(s, e, true, true)
  {
    assert UpstreamRange(s, e) == RangeText(FromTo(s, e));
    ParseRangeText(FromTo(s, e), size);
    ParseDecimal(s);
    ParseDecimal(e);
  }

  /** The text is a Content-Range in the form of section 14.4 of RFC 9110: a first position, a last
      position and a complete length, in digits. */
  ghost predicate Reads(text: string, s: nat, e: nat, size: nat) {
    exists x, y, z :: Parts(text, x, y, z) && Value(x) == s && Value(y) == e && Value(z) == size
  }

  ghost predicate Parts(text: string, x: string, y: string, z: string) {
    && text == "bytes " + x + "-" + y + "/" + z
    && x != "" && y != "" && z != "" && AllDigits(x) && AllDigits(y) && AllDigits(z)
  }

  /** The Content-Range sent reads as the range and size it was made from, and as nothing else. */
  lemma ContentRangeReads(s: nat, e: nat, size: nat)
    ensures Reads(ContentRange(s, e, size), s, e, size)
    ensures forall s', e', n :: Reads(ContentRange(s, e, size), s', e', n) ==> s' == s && e' == e && n == size
  {
    var text := ContentRange(s, e, size);
    var x, y, z := Decimal(s), Decimal(e), Decimal(size);
    assert Parts(text, x, y, z);
    forall s', e', n | Reads(text, s', e', n) ensures s' == s && e' == e && n == size {
      var x', y', z' :| Parts(text, x', y', z') && Value(x') == s' && Value(y') == e' && Value(z') == n;
      PartsUnique(text, x, y, z, x', y', z');
    }
  }

  lemma PartsUnique(text: string, x: string, y: string, z: string, x': string, y': string, z': string)
    requires Parts(text, x, y, z) && Parts(text, x', y', z')
    ensures x == x' && y == y' && z == z'
  {
    var rest, rest' := y + "/" + z, y' + "/" + z';
    assert text[6..] == x + "-" + rest == x' + "-" + rest';
    SplitOnce(text[6..], '-', x, rest, x', rest');
    SplitOnce(rest, '/', y, z, y', z');
  }

  /** A text of digits up to the first separator is determined by it. */
  lemma SplitOnce(text: string, c: char, a: string, b: string, a': string, b': string)
    requires text == a + [c] + b == a' + [c] + b' && AllDigits(a) && AllDigits(a') && !IsDigit(c)
    ensures a == a' && b == b'
  {
    assert text[|a|] == c && text[|a'|] == c;
    assert forall i :: 0 <= i < |a| ==> text[i] == a[i];
    assert forall i :: 0 <= i < |a'| ==> text[i] == a'[i];
    assert a == text[..|a|] && a' == text[..|a'|] && b == text[|a| + 1..] && b' == text[|a'| + 1..];
  }

  /** Round trip: the size is read back from the Content-Range sent (section 14.4 of RFC 9110). */
  lemma ContentRangeParses(s: nat, e: nat, size: nat)
    requires size <= MAX_INT64
    ensures ParseContentRangeTotal(ContentRange(s, e, size)) == size
  {
    var head, tail := "bytes " + Decimal(s) + "-" + Decimal(e), Decimal(size);
    var text := head + "/" + tail;
    DigitsPlain(tail);
    ParseDecimal(size);
    assert text[|head|] == '/' && text[|head| + 1..] == tail;
    LastAt(text, '/', |head|);
  }

  /** What stands after the last slash of a Content-Range, if there is one. */
  ghost predicate AfterLastSlash(header: string, t: string) {
    exists i :: 0 <= i < |header| && header[i] == '/' && '/' !in header[i + 1..] && t == header[i + 1..]
  }

  ghost predicate StatesTotal(header: string, n: int) {
    -MAX_INT64 - 1 <= n <= MAX_INT64 && exists t :: AfterLastSlash(header, t) && IsNumber(TrimSpace(t), n)
  }

  /** Any header, well formed or not: the total is the number after the last slash, or -1 for none. */
  lemma TotalExactly(header: string)
    ensures var r := ParseContentRangeTotal(header);
      StatesTotal(header, r) || (r == -1 && forall n :: !StatesTotal(header, n))
  {
    hide TrimSpace, IsNumber, ParseInt;
    var i := LastIndexOf(header, '/');
    if i >= 0 {
      assert AfterLastSlash(header, header[i + 1..]);
      ParsedIsNumber(TrimSpace(header[i + 1..]));
      if ParseInt(TrimSpace(header[i + 1..])).Some? {
        ParseNumber(TrimSpace(header[i + 1..]), ParseInt(TrimSpace(header[i + 1..])).value);
      }
    }
    forall n | StatesTotal(header, n) ensures ParseContentRangeTotal(header) == n {
      var t :| AfterLastSlash(header, t) && IsNumber(TrimSpace(t), n);
      var j :| 0 <= j < |header| && header[j] == '/' && '/' !in header[j + 1..] && t == header[j + 1..];
      LastAt(header, '/', j);
      ParseNumber(TrimSpace(t), n);
    }
  }

  // -------------------------------------------------------- the texts themselves

  predicate AllSpace(s: string) { forall i :: 0 <= i < |s| ==> IsSpace(s[i]) }

  ghost predicate Trimmed(s: string, t: string) {
    && (t == "" || (!IsSpace(t[0]) && !IsSpace(t[|t| - 1])))
    && exists a, b :: s == a + t + b && AllSpace(a) && AllSpace(b)
  }

  /** Trimming takes white space off both ends, and nothing else. */
  lemma TrimExactly(s: string)
    ensures Trimmed(s, TrimSpace(s))
    ensures forall t :: Trimmed(s, t) ==> t == TrimSpace(s)
  {
    hide IsSpace, TrimLeft, TrimRight;
    var a := LeftPart(s);
    var b := RightPart(TrimLeft(s));
    assert s == a + TrimSpace(s) + b;
    forall t | Trimmed(s, t) ensures t == TrimSpace(s) {
      var c, d :| s == c + t + d && AllSpace(c) && AllSpace(d);
      TrimUnique(s, c, t, d);
    }
  }

  lemma TrimUnique(s: string, c: string, t: string, d: string)
    requires s == c + t + d && AllSpace(c) && AllSpace(d)
    requires t == "" || (!IsSpace(t[0]) && !IsSpace(t[|t| - 1]))
    ensures TrimSpace(s) == t
  {
    hide IsSpace;
    assert s == c + (t + d);
    SkipLeft(c, t + d);
    if t == "" {
      assert t + d == d;
      AllGone(d);
    } else {
      assert (t + d)[0] == t[0];
      SkipRight(t, d);
    }
  }

  lemma {:induction false} LeftPart(s: string) returns (a: string)
    ensures s == a + TrimLeft(s) && AllSpace(a)
    ensures TrimLeft(s) == "" || !IsSpace(TrimLeft(s)[0])
  {
    if s != "" && IsSpace(s[0]) {
      var rest := LeftPart(s[1..]);
      a := [s[0]] + rest;
      assert s == [s[0]] + s[1..];
    } else {
      a := "";
    }
  }

  lemma {:induction false} RightPart(s: string) returns (b: string)
    ensures s == TrimRight(s) + b && AllSpace(b)
    ensures TrimRight(s) == "" || (!IsSpace(TrimRight(s)[|TrimRight(s)| - 1]) && TrimRight(s)[0] == s[0])
  {
    if s != "" && IsSpace(s[|s| - 1]) {
      var rest := RightPart(s[..|s| - 1]);
      b := rest + [s[|s| - 1]];
      assert s == s[..|s| - 1] + [s[|s| - 1]];
    } else {
      b := "";
    }
  }

  lemma {:induction false} SkipLeft(c: string, t: string)
    requires AllSpace(c)
    ensures TrimLeft(c + t) == TrimLeft(t)
  {
    if c == "" {
      assert c + t == t;
    } else {
      assert (c + t)[1..] == c[1..] + t;
      SkipLeft(c[1..], t);
    }
  }

  lemma {:induction false} SkipRight(t: string, d: string)
    requires AllSpace(d)
    ensures TrimRight(t + d) == TrimRight(t)
    decreases |d|
  {
    if d == "" {
      assert t + d == t;
    } else {
      var n := |d| - 1;
      assert (t + d)[..|t + d| - 1] == t + d[..n];
      SkipRight(t, d[..n]);
    }
  }

  lemma {:induction false} AllGone(s: string)
    requires AllSpace(s)
    ensures TrimLeft(s) == ""
  {
    if s != "" { AllGone(s[1..]); }
  }

  /** The characters that are trimmed: the White_Space property of Unicode. */
  lemma Blanks(c: char)
    ensures IsSpace(c) <==>
      c as int in {0x09, 0x0A, 0x0B, 0x0C, 0x0D, 0x20, 0x85, 0xA0, 0x1680, 0x2000, 0x2001, 0x2002, 0x2003, 0x2004,
                   0x2005, 0x2006, 0x2007, 0x2008, 0x2009, 0x200A, 0x2028, 0x2029, 0x202F, 0x205F, 0x3000}
  {
  }

  /** Examples of sections 14.1.2 and 14.4 of RFC 9110, letter for letter. */
  lemma TextsOfTheStandard()
    ensures ParseSingleRange("bytes=0-499", 10000) == RangeResult(0, 499, true, true)
    ensures ParseSingleRange("bytes=-500", 10000) == RangeResult(9500, 9999, true, true)
    ensures ParseSingleRange("bytes=9500-", 10000) == RangeResult(9500, 9999, true, true)
    ensures UpstreamRange(500, 999) == "bytes=500-999"
    ensures ContentRange(42, 1233, 1234) == "bytes 42-1233/1234"
  {
    hide ParseSingleRange, ParseBounds, Decimal, Value, AllDigits;
    Digits();
    assert RangeText(FromTo(0, 499)) == "bytes=0-499";
    assert RangeText(Suffix(500)) == "bytes=-500";
    assert RangeText(From(9500)) == "bytes=9500-";
    AnswerIs(FromTo(0, 499), 10000, 0, 499);
    AnswerIs(Suffix(500), 10000, 9500, 9999);
    AnswerIs(From(9500), 10000, 9500, 9999);
  }

  lemma AnswerIs(spec: Spec, size: int, start: int, end: int)
    requires Fits(spec) && 0 <= start <= end < size
    requires forall o :: Picks(spec, size, o) <==> start <= o <= end
    ensures ParseSingleRange(RangeText(spec), size) == RangeResult(start, end, true, true)
  {
    hide ParseSingleRange, RangeText;
    RangeIsCut(spec, size);
    AcceptedInside(RangeText(spec), size);
    var r := ParseSingleRange(RangeText(spec), size);
    assert Picks(spec, size, start) && Picks(spec, size, end);
    assert Picks(spec, size, r.start) && Picks(spec, size, r.end);
  }

  lemma Digits()
    ensures Decimal(0) == "0" && Decimal(42) == "42" && Decimal(499) == "499" && Decimal(500) == "500"
    ensures Decimal(999) == "999" && Decimal(1233) == "1233" && Decimal(1234) == "1234" && Decimal(9500) == "9500"
  {
  }

  /** The header carries one range, `spec`, in the form the parser is lenient about: white space
      around the numbers, and a sign. */
  ghost predicate Denotes(header: string, spec: Spec) {
    PREFIX <= header && exists d :: DashAt(TrimSpace(header[|PREFIX|..]), d, spec)
  }

  ghost predicate DashAt(body: string, d: int, spec: Spec) {
    FirstDash(body, d) && Numbers(TrimSpace(body[..d]), TrimSpace(body[d + 1..]), spec)
  }

  /** One range, not a list of them, with its first dash at d. */
  ghost predicate FirstDash(body: string, d: int) {
    0 <= d < |body| && body[d] == '-' && '-' !in body[..d] && ',' !in body
  }

  /** The header asks for one byte range: something stands before or after the dash. */
  ghost predicate SingleRange(header: string) {
    && PREFIX <= header
    && exists d :: FirstDash(TrimSpace(header[|PREFIX|..]), d) && HasBound(TrimSpace(header[|PREFIX|..]), d)
  }

  predicate HasBound(body: string, d: int)
    requires 0 <= d < |body|
  {
    TrimSpace(body[..d]) != "" || TrimSpace(body[d + 1..]) != ""
  }

  /** Digits, perhaps after a sign, with the value n. */
  predicate IsNumber(t: string, n: int) {
    var digits := if t != "" && (t[0] == '-' || t[0] == '+') then t[1..] else t;
    digits != "" && AllDigits(digits) && n == if t[0] == '-' then 0 - Value(digits) else Value(digits)
  }

  predicate Numbers(x: string, y: string, spec: Spec) {
    match spec
    case FromTo(a, b) => IsNumber(x, a) && IsNumber(y, b)
    case From(a) => IsNumber(x, a) && y == ""
    case Suffix(n) => x == "" && IsNumber(y, n)
  }

  /** ParseInt reads exactly the numbers that fit. */
  lemma ParseNumber(t: string, n: int)
    requires IsNumber(t, n)
    ensures t != "" && ParseInt(t) == if -MAX_INT64 - 1 <= n <= MAX_INT64 then Some(n) else None
  {
  }

  lemma ParsedIsNumber(t: string)
    ensures ParseInt(t).Some? ==> IsNumber(t, ParseInt(t).value)
  {
  }

  lemma BoundsOfNumbers(x: string, y: string, spec: Spec, size: int)
    requires 0 < size && Numbers(x, y, spec)
    ensures var r := ParseBounds(x, y, size);
      && (r.ok <==> Fits(spec) && exists o :: Picks(spec, size, o))
      && (r.ok ==> forall o :: Picks(spec, size, o) <==> r.start <= o <= r.end)
      && r.ok == r.satisfiable
  {
    hide IsNumber, ParseInt;
    match spec
    case FromTo(a, b) =>
      ParseNumber(x, a);
      ParseNumber(y, b);
      assert a < size && a <= b ==> Picks(spec, size, a);
    case From(a) =>
      ParseNumber(x, a);
      assert a < size ==> Picks(spec, size, a);
    case Suffix(n) =>
      ParseNumber(y, n);
      assert n > 0 ==> Picks(spec, size, size - 1);
  }

  lemma NumbersOfBounds(x: string, y: string, size: int) returns (spec: Spec)
    requires 0 < size && ParseBounds(x, y, size).ok
    ensures Numbers(x, y, spec)
  {
    hide IsNumber, ParseInt;
    ParsedIsNumber(x);
    ParsedIsNumber(y);
    spec := if x == "" then Suffix(ParseInt(y).value)
            else if y == "" then From(ParseInt(x).value)
            else FromTo(ParseInt(x).value, ParseInt(y).value);
  }

  /** Every header, well formed or not: it is accepted exactly when it carries a range whose numbers
      fit 64 bits and that picks some byte of the file, and then with exactly the bytes picked. It is
      refused exactly when it asks for a single range and is not accepted; else it is ignored. */
  lemma AcceptedExactly(header: string, size: int)
    requires 0 < size
    ensures var r := ParseSingleRange(header, size);
      && (r.ok <==> exists spec, o :: Denotes(header, spec) && Fits(spec) && Picks(spec, size, o))
      && (forall spec :: r.ok && Denotes(header, spec) ==>
            forall o :: Picks(spec, size, o) <==> r.start <= o <= r.end)
      && (!r.satisfiable <==> SingleRange(header) && !r.ok)
  {
    hide ParseBounds, Picks, Numbers, ParseInt, TrimSpace, Fits;
    var r := ParseSingleRange(header, size);
    if r.ok {
      var body := TrimSpace(header[|PREFIX|..]);
      var d := IndexOf(body, '-');
      var spec := NumbersOfBounds(TrimSpace(body[..d]), TrimSpace(body[d + 1..]), size);
      BoundsOfNumbers(TrimSpace(body[..d]), TrimSpace(body[d + 1..]), spec, size);
      assert DashAt(body, d, spec);
      assert Denotes(header, spec);
      var o :| Picks(spec, size, o);
    }
    forall spec | Denotes(header, spec)
      ensures r.ok <==> Fits(spec) && exists o :: Picks(spec, size, o)
      ensures r.ok ==> forall o :: Picks(spec, size, o) <==> r.start <= o <= r.end
    {
      var body := TrimSpace(header[|PREFIX|..]);
      var d :| DashAt(body, d, spec);
      FirstAt(body, '-', d);
      BoundsOfNumbers(TrimSpace(body[..d]), TrimSpace(body[d + 1..]), spec, size);
    }
    RefusedExactly(header, size);
  }

  lemma RefusedExactly(header: string, size: int)
    ensures var r := ParseSingleRange(header, size); !r.satisfiable <==> SingleRange(header) && !r.ok
  {
    hide ParseBounds, TrimSpace;
    if PREFIX <= header {
      var body := TrimSpace(header[|PREFIX|..]);
      var d := IndexOf(body, '-');
      if d >= 0 { BoundsAnswer(TrimSpace(body[..d]), TrimSpace(body[d + 1..]), size); }
      assert d >= 0 && ',' !in body ==> FirstDash(body, d);
      forall e | FirstDash(body, e) ensures e == d { FirstAt(body, '-', e); }
    }
  }

  /** Two empty bounds are ignored; others are accepted or refused. */
  lemma BoundsAnswer(x: string, y: string, size: int)
    ensures ParseBounds(x, y, size).satisfiable <==> (x == "" && y == "") || ParseBounds(x, y, size).ok
  {
    hide ParseInt;
  }

  /** Every header, well formed or not: an accepted range lies inside the file, and is not empty
      unless the file is. */
  lemma AcceptedInside(header: string, size: int)
    requires 0 <= size
    ensures var r := ParseSingleRange(header, size);
      && (r.ok ==> r.satisfiable && 0 <= r.start && r.end < size && (r.start <= r.end <==> size > 0))
      && (!r.satisfiable ==> PREFIX <= header)
  {
  }
}
