// vsscanf, trusted/my_wrappers.c:411-456: a format interpreter for %d, %c and literal characters.
// A string is the characters before its terminating NUL, which is neither a digit, a letter nor equal to a
// format character that the loop reaches. The output pointers become the sequence of the values stored.

module Scanf {

  import opened InetGrammar

  const INT_MAX := 0x7fff_ffff

  type int32 = x: int | -INT_MAX - 1 <= x <= INT_MAX

  datatype Slot = Num(value: int) | Letter(c: char)

  // Overflow: the conversion leaves the range of int, which C leaves undefined.
  datatype Outcome = Stored(slots: seq<Slot>) | Overflow

  predicate IsAlpha(c: char) { 'a' <= c <= 'z' || 'A' <= c <= 'Z' }

  predicate StartsWithDigit(s: string) { s != "" && IsDigit(s[0]) }

  // ---------------------------------------------------------------- what is read, as functions

  datatype Field = NoField | TooWide | Read(value: int32, rest: string)

  /** The length of the longest prefix of digits. */
  function DigitRun(s: string): (n: nat)
    ensures n <= |s| && AllDigits(s[..n]) && !StartsWithDigit(s[n..])
  {
    if StartsWithDigit(s) then 1 + DigitRun(s[1..]) else 0
  }

  predicate Signed(s: string) { s != "" && s[0] == '-' }

  function Unsigned(s: string): string { if Signed(s) then s[1..] else s }

  function Limit(negative: bool): nat { if negative then INT_MAX + 1 else INT_MAX }

  function WithSign(negative: bool, m: nat): int { if negative then 0 - m else m }

  /** The number at the front of `s`: the sign and the longest run of digits, if int can hold what they denote. */
  function IntField(s: string): Field {
    var t := Unsigned(s);
    var n := DigitRun(t);
    if n == 0 then NoField
    else
      var m := DecValue(t[..n]);
      if m > Limit(Signed(s)) then TooWide else Read(WithSign(Signed(s), m), t[n..])
  }

  function Before(slots: seq<Slot>, rest: Outcome): Outcome {
    match rest
    case Overflow => Overflow
    case Stored(more) => Stored(slots + more)
  }

  function Scan(str: string, format: string): Outcome
    decreases |format|
  {
    if format == "" then Stored([])
    else if |format| >= 2 && format[0] == '%' && format[1] == 'd' then
      match IntField(str)
      case NoField => Stored([])
      case TooWide => Overflow
      case Read(value, rest) => Before([Num(value)], Scan(rest, format[2..]))
    else if |format| >= 2 && format[0] == '%' && format[1] == 'c' then
      if str != "" && IsAlpha(str[0]) then Before([Letter(str[0])], Scan(str[1..], format[2..])) else Stored([])
    else if str != "" && format[0] == str[0] then Scan(str[1..], format[1..])
    else Stored([])
  }

  // ---------------------------------------------------------------- the loops

  lemma {:induction false} PrefixIsSmaller(s: string, k: nat)
    requires AllDigits(s) && k <= |s|
    ensures DecValue(s[..k]) <= DecValue(s)
  {
    if k < |s| {
      PrefixIsSmaller(s[..|s| - 1], k);
      assert s[..|s| - 1][..k] == s[..k];
    } else {
      assert s[..k] == s;
    }
  }

  lemma {:induction false} RunCovers(s: string, k: nat)
    requires k <= |s| && AllDigits(s[..k])
    ensures k <= DigitRun(s) && (!StartsWithDigit(s[k..]) ==> k == DigitRun(s))
  {
    if k > 0 {
      assert s[..k][0] == s[0];
      assert s[1..][..k - 1] == s[..k][1..];
      RunCovers(s[1..], k - 1);
      assert s[1..][k - 1..] == s[k..];
    }
  }

  lemma WideRun(t: string, k: nat)
    requires k <= |t| && AllDigits(t[..k])
    ensures DecValue(t[..DigitRun(t)]) >= DecValue(t[..k])
  {
    RunCovers(t, k);
    var n := DigitRun(t);
    PrefixIsSmaller(t[..n], k);
    assert t[..n][..k] == t[..k];
  }

  lemma OneMoreDigit(t: string, k: nat)
    requires k < |t| && AllDigits(t[..k]) && IsDigit(t[k])
    ensures AllDigits(t[..k + 1]) && DecValue(t[..k + 1]) == DecValue(t[..k]) * 10 + (t[k] as int - '0' as int)
  {
    assert t[..k + 1][..k] == t[..k];
  }

  /** The loop over the digits. The number is accumulated negatively, so that the least int fits. */
  method ReadDigits(t: string) returns (wide: bool, value: int32, p: nat)
    ensures wide ==> DecValue(t[..DigitRun(t)]) > INT_MAX + 1
    ensures !wide ==> p == DigitRun(t) && value == 0 - DecValue(t[..p])
  {
    assert DecValue("") == 0 && t[..0] == "";
    hide DecValue;
    wide, value, p := false, 0, 0;
    while p < |t| && IsDigit(t[p])
      invariant p <= |t| && AllDigits(t[..p])
      invariant value == 0 - DecValue(t[..p])
    {
      var next := value * 10 - (t[p] as int - '0' as int);
      OneMoreDigit(t, p);
      if next < -INT_MAX - 1 {
        WideRun(t, p + 1);
        wide := true;
        return;
      }
      value := next;
      p := p + 1;
    }
    RunCovers(t, p);
  }

  /** The "%d" branch. */
  method ReadInt(str: string) returns (field: Field)
    ensures field == IntField(str)
  {
    hide DecValue;
    var positive := str == "" || str[0] != '-';
    var t := if positive then str else str[1..];
    assert t == Unsigned(str);
    if !StartsWithDigit(t) { return NoField; }
    var wide, value, p := ReadDigits(t);
    if wide { return TooWide; }
    if positive && value == -INT_MAX - 1 { return TooWide; }
    return Read(if positive then -value else value, t[p..]);
  }

  /** vsscanf: the values stored through the output pointers and their count. */
  method Vsscanf(str: string, format: string) returns (overflow: bool, slots: seq<Slot>, count: nat)
    ensures Scan(str, format) == if overflow then Overflow else Stored(slots)
    ensures count == |slots|
  {
    var s, f := str, format;
    overflow, slots, count := false, [], 0;
    while f != ""
      invariant Scan(str, format) == Before(slots, Scan(s, f))
      invariant count == |slots| && !overflow
      decreases |f|
    {
      if f[0] == '%' && |f| >= 2 && f[1] == 'd' {
        var field := ReadInt(s);
        match field {
          case NoField => return;
          case TooWide => overflow := true; return;
          case Read(value, rest) =>
            s := rest;
            count := count + 1;
            slots := slots + [Num(value)];
            f := f[2..];
        }
      } else if f[0] == '%' && |f| >= 2 && f[1] == 'c' {
        if !(s != "" && IsAlpha(s[0])) { return; }
        slots := slots + [Letter(s[0])];
        s := s[1..];
        count := count + 1;
        f := f[2..];
      } else if s != "" && f[0] == s[0] {
        s := s[1..];
        f := f[1..];
      } else {
        return;
      }
    }
  }

  // ---------------------------------------------------------------- printing

  datatype Item = Int(value: int32) | Chr(c: char) | Lit(c: char)
  {
    predicate Valid() { Chr? ==> IsAlpha(c) }

    function Format(): string { match this case Int(_) => "%d" case Chr(_) => "%c" case Lit(c) => [c] }

    function Text(): string { if Int? then Print(value) else [c] }

    function Slots(): seq<Slot> { match this case Int(v) => [Num(v)] case Chr(c) => [Letter(c)] case Lit(_) => [] }
  }

  function Decimal(n: nat): (s: string)
    ensures s != "" && AllDigits(s) && DecValue(s) == n
  {
    var last := [(n % 10) as char + '0'];
    if n < 10 then assert DecValue(last) == DecValue("") * 10 + n; last
    else
      var s := Decimal(n / 10) + last;
      assert s[..|s| - 1] == Decimal(n / 10);
      s
  }

  function Print(v: int): string { if v < 0 then "-" + Decimal(-v) else Decimal(v) }

  function FormatOf(items: seq<Item>): string { if items == [] then "" else items[0].Format() + FormatOf(items[1..]) }

  function TextOf(items: seq<Item>): string { if items == [] then "" else items[0].Text() + TextOf(items[1..]) }

  function SlotsOf(items: seq<Item>): seq<Slot> { if items == [] then [] else items[0].Slots() + SlotsOf(items[1..]) }

  // In front of `str` and `format`: no digit follows a printed number, and no '%' is taken for a directive.
  predicate Stands(x: Item, str: string, format: string) {
    x.Valid() && (x.Int? ==> !StartsWithDigit(str)) && (x.Lit? ==> !IsDirective([x.c] + format))
  }

  predicate IsDirective(format: string) { |format| >= 2 && format[0] == '%' && (format[1] == 'd' || format[1] == 'c') }

  predicate Separated(items: seq<Item>, tail: string, format: string) {
    items == []
    || (Stands(items[0], TextOf(items[1..]) + tail, FormatOf(items[1..]) + format) && Separated(items[1..], tail, format))
  }

  lemma IntFieldOf(s: string, digits: string, rest: string)
    requires Unsigned(s) == digits + rest && digits != "" && AllDigits(digits) && !StartsWithDigit(rest)
    ensures DecValue(digits) > Limit(Signed(s)) ==> IntField(s) == TooWide
    ensures DecValue(digits) <= Limit(Signed(s)) ==> IntField(s) == Read(WithSign(Signed(s), DecValue(digits)), rest)
  {
    hide DecValue;
    var t := Unsigned(s);
    assert t[..|digits|] == digits && t[|digits|..] == rest;
    RunCovers(t, |digits|);
  }

  /**
   * "%d" on an optional sign and any digits, leading zeros included: their value if it lies between the least and
   * the greatest int of 32 bits, and an overflow otherwise.
   */
  lemma IntFieldExact(negative: bool, digits: string, rest: string)
    requires digits != "" && AllDigits(digits) && !StartsWithDigit(rest)
    ensures var v := if negative then 0 - DecValue(digits) else DecValue(digits);
      IntField((if negative then "-" else "") + digits + rest)
      == if -0x8000_0000 <= v <= 0x7fff_ffff then Read(v, rest) else TooWide
  {
    var s := (if negative then "-" else "") + digits + rest;
    if negative {
      assert s[0] == '-' && s[1..] == digits + rest;
    } else {
      assert s == digits + rest && s[0] == digits[0] && IsDigit(digits[0]);
    }
    hide DecValue;
    hide IntField;
    IntFieldOf(s, digits, rest);
  }

  lemma IntFieldPrinted(v: int32, rest: string)
    requires !StartsWithDigit(rest)
    ensures IntField(Print(v) + rest) == Read(v, rest)
  {
    hide DecValue;
    hide IntField;
    var s, digits := Print(v) + rest, Decimal(if v < 0 then 0 - v else v);
    if v < 0 {
      assert s[0] == '-' && s[1..] == digits + rest;
    } else {
      assert s == digits + rest && s[0] == digits[0];
      assert IsDigit(digits[0]);
    }
    hide AllDigits;
    hide Print;
    hide Decimal;
    IntFieldOf(s, digits, rest);
  }

  /** Scanning printed items stores their values and goes on behind them. */
  lemma {:induction false} ScanPrinted(items: seq<Item>, tail: string, format: string)
    requires Separated(items, tail, format)
    ensures Scan(TextOf(items) + tail, FormatOf(items) + format) == Before(SlotsOf(items), Scan(tail, format))
  {
    hide Scan;
    hide Stands;
    hide Item.Text;
    hide Item.Format;
    hide Item.Slots;
    if items == [] {
      assert TextOf(items) + tail == tail && FormatOf(items) + format == format;
    } else {
      var x, more := items[0], items[1..];
      ScanPrinted(more, tail, format);
      var str, rest := TextOf(more) + tail, FormatOf(more) + format;
      assert TextOf(items) + tail == x.Text() + str;
      assert FormatOf(items) + format == x.Format() + rest;
      ScanItem(x, str, rest);
    }
  }

  lemma ScanItem(x: Item, str: string, format: string)
    requires Stands(x, str, format)
    ensures Scan(x.Text() + str, x.Format() + format) == Before(x.Slots(), Scan(str, format))
  {
    var s, f := x.Text() + str, x.Format() + format;
    assert f[|x.Format()|..] == format;
    hide IntField;
    match x {
      case Int(v) => IntFieldPrinted(v, str);
      case Chr(c) => assert s[1..] == str;
      case Lit(c) => assert s[1..] == str && f[0] == c;
    }
  }

  lemma ScanNothing()
    ensures Scan("", "") == Stored([])
  {
  }

  /** vsscanf inverts printing: every value is stored, the least int included, and no step leaves the range of int. */
  lemma {:induction false} ScanInvertsPrinting(items: seq<Item>)
    requires Separated(items, "", "")
    ensures Scan(TextOf(items), FormatOf(items)) == Stored(SlotsOf(items))
  {
    hide Scan;
    hide TextOf;
    hide FormatOf;
    hide SlotsOf;
    ScanNothing();
    ScanPrinted(items, "", "");
    assert TextOf(items) + "" == TextOf(items) && FormatOf(items) + "" == FormatOf(items);
  }

  // ---------------------------------------------------------------- where scanning stops

  /** The letters of "%c" and the digits of "%d", by their ASCII codes. */
  lemma LettersAndDigits(c: char)
    ensures IsAlpha(c) <==> 65 <= c as int <= 90 || 97 <= c as int <= 122
    ensures IsDigit(c) <==> 48 <= c as int <= 57
  {
  }

  // The first directive or character of the format does not match: no digit after an optional sign, no letter, or
  // another character.
  predicate CannotMatch(str: string, format: string) {
    && format != ""
    && if IsDirective(format) then
         if format[1] == 'd' then !StartsWithDigit(if str != "" && str[0] == '-' then str[1..] else str)
         else str == "" || !IsAlpha(str[0])
       else str == "" || str[0] != format[0]
  }

  lemma StopsAtOnce(str: string, format: string)
    requires CannotMatch(str, format)
    ensures Scan(str, format) == Stored([])
  {
  }

  /** Scanning stops at the first mismatch, with what was stored so far. */
  lemma ScanStops(items: seq<Item>, tail: string, format: string)
    requires Separated(items, tail, format) && CannotMatch(tail, format)
    ensures Scan(TextOf(items) + tail, FormatOf(items) + format) == Stored(SlotsOf(items))
  {
    hide Scan;
    hide TextOf;
    hide FormatOf;
    hide SlotsOf;
    ScanPrinted(items, tail, format);
    StopsAtOnce(tail, format);
  }

  /** A number that int cannot hold is an overflow, whatever was stored before. */
  lemma ScanOverflows(items: seq<Item>, tail: string, format: string)
    requires Separated(items, tail, "%d" + format) && IntField(tail).TooWide?
    ensures Scan(TextOf(items) + tail, FormatOf(items) + ("%d" + format)) == Overflow
  {
    hide TextOf;
    hide FormatOf;
    hide SlotsOf;
    hide IntField;
    ScanPrinted(items, tail, "%d" + format);
  }

  // ---------------------------------------------------------------- numbers joined by a separator

  function JoinedText(values: seq<int32>, separator: string): string {
    if values == [] then ""
    else if |values| == 1 then Print(values[0])
    else Print(values[0]) + separator + JoinedText(values[1..], separator)
  }

  function JoinedFormat(n: nat, separator: string): string {
    if n == 0 then "" else if n == 1 then "%d" else "%d" + separator + JoinedFormat(n - 1, separator)
  }

  function Nums(values: seq<int32>): seq<Slot> { seq(|values|, i requires 0 <= i < |values| => Num(values[i])) }

  lemma {:induction false} ScanLiterals(text: string, str: string, format: string)
    requires '%' !in text
    ensures Scan(text + str, text + format) == Scan(str, format)
  {
    if text == "" {
      assert text + str == str && text + format == format;
    } else {
      ScanLiterals(text[1..], str, format);
      assert (text + format)[0] == text[0] && (text + str)[0] == text[0];
      assert (text + str)[1..] == text[1..] + str && (text + format)[1..] == text[1..] + format;
    }
  }

  /** Any list of ints, printed with a separator that starts with no digit, is read back whole. */
  lemma {:induction false} ScanJoined(values: seq<int32>, separator: string)
    requires '%' !in separator && separator != "" && !IsDigit(separator[0])
    ensures Scan(JoinedText(values, separator), JoinedFormat(|values|, separator)) == Stored(Nums(values))
  {
    hide IntField;
    hide Scan;
    hide Print;
    ScanNothing();
    if values != [] {
      var more := values[1..];
      ScanJoined(more, separator);
      var last := |values| == 1;
      var str := if last then "" else separator + JoinedText(more, separator);
      var format := if last then "" else separator + JoinedFormat(|more|, separator);
      if last {
        assert Nums(more) == [];
      } else {
        ScanLiterals(separator, JoinedText(more, separator), JoinedFormat(|more|, separator));
      }
      ScanItem(Int(values[0]), str, format);
      assert JoinedText(values, separator) == Print(values[0]) + str;
      assert JoinedFormat(|values|, separator) == "%d" + format;
      assert Nums(values) == [Num(values[0])] + Nums(more);
    }
  }
}
