/** The measurement part of the backhaul printer, in its compact column-major form, and a reader for it. */
module Printer {
  import opened Bytes
  import opened Options
  import opened Wire
  import Seqs

  // ---- numbers ----

  const DIGITS: string := "0123456789abcdef"

  function DigitChar(d: nat): (c: char)
    requires d < 16
  {
    DIGITS[d]
  }

  function DigitValue(c: char): (v: nat)
    ensures v < 16
  {
    if '0' <= c <= '9' then c as int - '0' as int
    else if 'a' <= c <= 'f' then c as int - 'a' as int + 10
    else 0
  }

  predicate IsDigit(c: char, base: nat) {
    ('0' <= c <= '9' || 'a' <= c <= 'f') && DigitValue(c) < base
  }

  /** Digits below ten count from '0', the others from 'a'. */
  lemma DigitCode(d: nat)
    requires d < 16
    ensures DigitChar(d) as int == if d < 10 then '0' as int + d else 'a' as int + d - 10
  {
  }

  lemma DigitRoundTrip(d: nat, base: nat)
    requires d < base <= 16
    ensures DigitValue(DigitChar(d)) == d && IsDigit(DigitChar(d), base)
    ensures DigitChar(d) == '0' <==> d == 0
  {
  }

  predicate IsBase(base: nat) {
    base == 10 || base == 16
  }

  /** Last digit of n, and n without it. */
  function Split(n: nat, base: nat): (r: (nat, nat))
    requires IsBase(base)
    ensures r.1 < base && n == Shifted(r.0, r.1, base) && (n >= base ==> 0 < r.0 < n)
  {
    if base == 10 then (n / 10, n % 10) else (n / 16, n % 16)
  }

  function Shifted(n: nat, d: nat, base: nat): (m: nat)
    requires IsBase(base)
    ensures base == 10 ==> m == 10 * n + d
    ensures base == 16 ==> m == 16 * n + d
  {
    if base == 10 then 10 * n + d else 16 * n + d
  }

  /** n in the given base, without leading zeros. */
  function Number(n: nat, base: nat): (s: string)
    requires IsBase(base)
    ensures |s| >= 1
    decreases n
  {
    if n < base then [DigitChar(n)] else Number(Split(n, base).0, base) + [DigitChar(Split(n, base).1)]
  }

  function NumberValue(s: string, base: nat): (n: nat)
    requires IsBase(base)
  {
    if s == [] then 0 else Shifted(NumberValue(s[..|s| - 1], base), DigitValue(s[|s| - 1]), base)
  }

  predicate AllDigits(s: string, base: nat) {
    forall i :: 0 <= i < |s| ==> IsDigit(s[i], base)
  }

  lemma LastDigit(front: string, c: char, base: nat)
    requires IsBase(base)
    ensures NumberValue(front + [c], base) == Shifted(NumberValue(front, base), DigitValue(c), base)
    ensures AllDigits(front, base) && IsDigit(c, base) ==> AllDigits(front + [c], base)
  {
    assert (front + [c])[..|front|] == front;
  }

  lemma {:induction false} NumberRoundTrip(n: nat, base: nat)
    requires IsBase(base)
    ensures NumberValue(Number(n, base), base) == n
    ensures AllDigits(Number(n, base), base)
    ensures n > 0 ==> Number(n, base)[0] != '0'
    ensures n == 0 ==> Number(n, base) == "0"
    decreases n
  {
    if n < base {
      DigitRoundTrip(n, base);
      LastDigit([], DigitChar(n), base);
      assert [] + [DigitChar(n)] == [DigitChar(n)];
    } else {
      var (q, r) := Split(n, base);
      DigitRoundTrip(r, base);
      NumberRoundTrip(q, base);
      LastDigit(Number(q, base), DigitChar(r), base);
    }
  }

  // ---- distances ----

  /** Division as C does it, toward zero. */
  function CDiv(a: int, b: int): (q: int)
    requires b > 0
    ensures -b < a - q * b < b
    ensures a >= 0 ==> a - q * b >= 0
    ensures a <= 0 ==> a - q * b <= 0
  {
    if a >= 0 then a / b else -((-a) / b)
  }

  function Abs(a: int): (b: nat) {
    if a < 0 then -a else a
  }

  function ThreeDigits(n: nat): (s: string)
    requires n < 1000
    ensures |s| == 3
  {
    [DigitChar(n / 100), DigitChar(n / 10 % 10), DigitChar(n % 10)]
  }

  /** Metres and millimetres of a distance in millimetres, behind the given sign. */
  function Metres(minus: bool, d: I32): (s: string) {
    var m := CDiv(d, 1000);
    (if minus then "-" else "") + Number(Abs(m), 10) + "." + ThreeDigits(Abs(d - m * 1000))
  }

  /** The compact form has a minus sign unless the distance is positive, the row form if it is negative. */
  function CompactDistance(d: I32): (s: string) {
    Metres(!(d > 0), d)
  }

  function RowDistance(d: I32): (s: string) {
    Metres(d < 0, d)
  }

  /** Both forms are whole metres, a point and three digits of millimetres of the absolute value a. */
  lemma DistanceText(d: I32, a: nat)
    requires d == a || d + a == 0
    ensures CompactDistance(d) == (if d > 0 then "" else "-") + Number(a / 1000, 10) + "." + ThreeDigits(a % 1000)
    ensures RowDistance(d) == (if d < 0 then "-" else "") + Number(a / 1000, 10) + "." + ThreeDigits(a % 1000)
  {
    WholeAndRest(d);
    var m := CDiv(d, 1000);
    assert Abs(d) == a;
    assert Abs(m) == a / 1000 && Abs(d - m * 1000) == a % 1000;
  }

  /** The number of thousandths that a decimal with three places stands for. */
  function Thousandths(s: string): (d: int)
    requires |s| >= 5
  {
    var body := if s[0] == '-' then s[1..] else s;
    var n := NumberValue(body[..|body| - 4], 10) * 1000 + NumberValue(body[|body| - 3..], 10);
    if s[0] == '-' then -n else n
  }

  lemma DigitString(a: nat, b: nat, c: nat)
    requires a < 10 && b < 10 && c < 10
    ensures var s := [DigitChar(a), DigitChar(b), DigitChar(c)];
      NumberValue(s, 10) == 100 * a + 10 * b + c && AllDigits(s, 10)
  {
    var s1 := [DigitChar(a)];
    var s2 := s1 + [DigitChar(b)];
    DigitRoundTrip(a, 10);
    DigitRoundTrip(b, 10);
    DigitRoundTrip(c, 10);
    LastDigit([], DigitChar(a), 10);
    assert [] + [DigitChar(a)] == s1;
    LastDigit(s1, DigitChar(b), 10);
    LastDigit(s2, DigitChar(c), 10);
    assert s2 + [DigitChar(c)] == [DigitChar(a), DigitChar(b), DigitChar(c)];
  }

  lemma ThreeDigitsRoundTrip(n: nat)
    requires n < 1000
    ensures NumberValue(ThreeDigits(n), 10) == n && AllDigits(ThreeDigits(n), 10)
  {
    assert n / 10 / 10 == n / 100 && n / 10 == 10 * (n / 100) + n / 10 % 10;
    DigitString(n / 100, n / 10 % 10, n % 10);
  }

  lemma Sides(a: string, b: string)
    requires |b| == 3
    ensures var body := a + "." + b; |body| == |a| + 4 && body[..|body| - 4] == a && body[|body| - 3..] == b
  {
  }

  lemma AddSign(a: string, b: string)
    ensures ("-" + a + "." + b)[1..] == a + "." + b && ("-" + a + "." + b)[0] == '-'
    ensures "" + a + "." + b == a + "." + b
  {
  }

  lemma ThousandthsOf(minus: bool, a: string, b: string)
    requires |a| >= 1 && |b| == 3 && IsDigit(a[0], 10)
    ensures var s := (if minus then "-" else "") + a + "." + b;
      |s| >= 5 && Thousandths(s) == (NumberValue(a, 10) * 1000 + NumberValue(b, 10)) * if minus then -1 else 1
  {
    Sides(a, b);
    AddSign(a, b);
    assert (a + "." + b)[0] == a[0];
  }

  lemma WholeAndRest(d: int)
    ensures var m := CDiv(d, 1000); Abs(d - m * 1000) < 1000 && Abs(m) * 1000 + Abs(d - m * 1000) == Abs(d)
  {
  }

  /** Reading back a distance yields it, with any sign in front of zero. */
  lemma MetresRoundTrip(minus: bool, d: I32)
    requires d != 0 ==> minus == (d < 0)
    ensures |Metres(minus, d)| >= 5
    ensures Thousandths(Metres(minus, d)) == d
  {
    var m := CDiv(d, 1000);
    WholeAndRest(d);
    var a, b := Number(Abs(m), 10), ThreeDigits(Abs(d - m * 1000));
    NumberRoundTrip(Abs(m), 10);
    ThreeDigitsRoundTrip(Abs(d - m * 1000));
    ThousandthsOf(minus, a, b);
    assert Metres(minus, d) == (if minus then "-" else "") + a + "." + b;
  }

  lemma DistanceRoundTrip(d: I32)
    ensures |CompactDistance(d)| >= 5 && |RowDistance(d)| >= 5
    ensures Thousandths(CompactDistance(d)) == d && Thousandths(RowDistance(d)) == d
    ensures CompactDistance(d) == RowDistance(d) <==> d != 0
  {
    MetresRoundTrip(!(d > 0), d);
    MetresRoundTrip(d < 0, d);
    if d == 0 {
      NumberRoundTrip(0, 10);
      assert CompactDistance(d)[0] == '-';
      assert RowDistance(d)[0] == Number(0, 10)[0];
    }
  }

  // ---- the number grammar of section 6 of RFC 8259 ----

  predicate JsonInt(s: string) {
    |s| >= 1 && AllDigits(s, 10) && (s[0] == '0' ==> |s| == 1)
  }

  predicate JsonFrac(s: string) {
    |s| >= 2 && s[0] == '.' && AllDigits(s[1..], 10)
  }

  predicate JsonExp(s: string) {
    |s| >= 2 && s[0] in "eE" && (AllDigits(s[1..], 10) || (|s| >= 3 && s[1] in "+-" && AllDigits(s[2..], 10)))
  }

  predicate JsonParts(sign: string, whole: string, frac: string, exp: string) {
    && (sign == "" || sign == "-")
    && JsonInt(whole)
    && (frac == "" || JsonFrac(frac))
    && (exp == "" || JsonExp(exp))
  }

  ghost predicate JsonNumber(s: string) {
    exists sign, whole, frac, exp :: JsonParts(sign, whole, frac, exp) && s == sign + whole + frac + exp
  }

  /** Every printed distance is a number in that grammar. */
  lemma DistanceIsJson(minus: bool, d: I32)
    ensures JsonNumber(Metres(minus, d))
  {
    var m := CDiv(d, 1000);
    var a, b := Number(Abs(m), 10), ThreeDigits(Abs(d - m * 1000));
    NumberRoundTrip(Abs(m), 10);
    ThreeDigitsRoundTrip(Abs(d - m * 1000));
    var sign := if minus then "-" else "";
    assert ("." + b)[1..] == b;
    assert JsonParts(sign, a, "." + b, "");
    assert sign + a + "." + b == sign + a + ("." + b) + "";
  }

  // ---- columns ----

  /** Elements with commas between them and nowhere else. */
  function Commas(es: seq<string>): (s: string) {
    if es == [] then [] else if |es| == 1 then es[0] else es[0] + "," + Commas(es[1..])
  }

  lemma {:induction false} CommasAppend(a: seq<string>, b: seq<string>)
    requires a != [] && b != []
    ensures Commas(a + b) == Commas(a) + "," + Commas(b)
    ensures |a| == 1 ==> Commas(a) == a[0]
    decreases |a|
  {
    assert (a + b)[0] == a[0] && (a + b)[1..] == a[1..] + b;
    if |a| == 1 {
      assert a[1..] + b == b;
    } else {
      CommasAppend(a[1..], b);
      Seqs.Assoc(a[0] + ",", Commas(a[1..]) + ",", Commas(b));
      Seqs.Assoc(a[0] + ",", Commas(a[1..]), ",");
    }
  }

  /** What the printing loop has put out after i of its elements. */
  function Printed(es: seq<string>, i: nat): (s: string)
    requires i <= |es|
  {
    if i == 0 then [] else Printed(es, i - 1) + (es[i - 1] + if i < |es| then "," else "")
  }

  lemma PrintedNext(start: string, es: seq<string>, i: nat)
    requires i < |es|
    ensures start + Printed(es, i + 1) == start + Printed(es, i) + (es[i] + if i + 1 < |es| then "," else "")
  {
    Seqs.Assoc(start, Printed(es, i), es[i] + if i + 1 < |es| then "," else "");
  }

  lemma {:induction false} PrintedFromFront(es: seq<string>, i: nat)
    requires 1 <= i <= |es|
    ensures Printed(es, i) == es[0] + (if |es| > 1 then "," else "") + Printed(es[1..], i - 1)
    decreases i
  {
    var head := es[0] + (if |es| > 1 then "," else "");
    if i == 1 {
      assert Printed(es, 0) == [] && [] + head == head && head + [] == head;
    } else {
      PrintedFromFront(es, i - 1);
      var last := es[i - 1] + if i < |es| then "," else "";
      assert head + Printed(es[1..], i - 2) + last == head + (Printed(es[1..], i - 2) + last);
    }
  }

  lemma {:induction false} PrintedAll(es: seq<string>)
    ensures Printed(es, |es|) == Commas(es)
    decreases |es|
  {
    if es != [] {
      PrintedFromFront(es, |es|);
      PrintedAll(es[1..]);
      if |es| == 1 {
        assert es[0] + "" + Commas(es[1..]) == es[0];
      }
    }
  }

  /** No character that ends an element. */
  predicate Clean(e: string) {
    ',' !in e && ']' !in e
  }

  function ElementLength(s: string): (n: nat)
    ensures n <= |s|
  {
    if s == [] || s[0] == ',' || s[0] == ']' then 0 else 1 + ElementLength(s[1..])
  }

  /** The elements up to the closing bracket, and what follows it. */
  function ReadList(s: string): (r: (seq<string>, string))
    decreases |s|
  {
    var n := ElementLength(s);
    if n == |s| then ([s], [])
    else if s[n] == ']' then ([s[..n]], s[n + 1..])
    else
      var (es, rest) := ReadList(s[n + 1..]);
      ([s[..n]] + es, rest)
  }

  lemma {:induction false} ElementEnds(e: string, c: char, rest: string)
    requires Clean(e) && (c == ',' || c == ']')
    ensures ElementLength(e + [c] + rest) == |e|
  {
    if e != [] {
      assert e[0] in e;
      assert (e + [c] + rest)[1..] == e[1..] + [c] + rest;
      ElementEnds(e[1..], c, rest);
    }
  }

  lemma {:induction false} ReadCommas(es: seq<string>, rest: string)
    requires es != [] && forall i :: 0 <= i < |es| ==> Clean(es[i])
    ensures ReadList(Commas(es) + "]" + rest) == (es, rest)
    decreases |es|
  {
    if |es| == 1 {
      ReadElement(es[0], ']', rest);
      assert es == [es[0]];
    } else {
      var tail := Commas(es[1..]) + "]" + rest;
      ReadCommas(es[1..], rest);
      Seqs.Regroup(es[0] + ",", Commas(es[1..]), "]", rest);
      ReadElement(es[0], ',', tail);
      assert es == [es[0]] + es[1..];
    }
  }

  lemma ReadElement(e: string, c: char, rest: string)
    requires Clean(e) && (c == ',' || c == ']')
    ensures ReadList(e + [c] + rest) == if c == ']' then ([e], rest) else ([e] + ReadList(rest).0, ReadList(rest).1)
  {
    ElementEnds(e, c, rest);
    Seqs.Around(e, c, rest);
  }

  // ---- the whole measurement ----

  const OPEN: string := ",\"meas\":{\"ref\":\""
  const KEYS: seq<string> := ["\",\"a\":[", ",\"dd\":[", ",\"rs\":[", ",\"qf\":["]
  const CLOSE: string := "}}\n"

  function Quoted(s: string): (q: string) {
    "\"" + s + "\""
  }

  /** One element of a column. The text of an rssi is not part of this model and is handed in; a negative quality prints
      as the unsigned number with the same bits. */
  function Element(r: RangeRec, rssi: string, j: nat): (e: string) {
    if j == 0 then Quoted(Number(r.addr, 16))
    else if j == 1 then CompactDistance(r.diffMm)
    else if j == 2 then rssi
    else Number(Unsigned(r.quality, 0x1_0000_0000), 16)
  }

  function Column(rs: seq<RangeRec>, rssi: seq<string>, j: nat): (es: seq<string>)
    requires |rs| == |rssi|
    ensures |es| == |rs|
  {
    seq(|rs|, i requires 0 <= i < |rs| => Element(rs[i], rssi[i], j))
  }

  function ColumnText(rs: seq<RangeRec>, rssi: seq<string>, j: nat): (s: string)
    requires |rs| == |rssi| && j < 4
  {
    KEYS[j] + (Commas(Column(rs, rssi, j)) + "]")
  }

  function ColumnsText(rs: seq<RangeRec>, rssi: seq<string>, j: nat): (s: string)
    requires |rs| == |rssi| && j <= 4
    decreases 4 - j
  {
    if j == 4 then CLOSE else ColumnText(rs, rssi, j) + ColumnsText(rs, rssi, j + 1)
  }

  /** The measurement of a packet as it is printed, with the end of the line. */
  function MeasText(ref: U16, rs: seq<RangeRec>, rssi: seq<string>): (s: string)
    requires |rs| == |rssi|
  {
    if rs == [] then "}\n" else OPEN + (Number(ref, 16) + ColumnsText(rs, rssi, 0))
  }

  /** The elements of the four columns. */
  lemma ColumnElements(rs: seq<RangeRec>, rssi: seq<string>, i: nat)
    requires |rs| == |rssi| && i < |rs|
    ensures Column(rs, rssi, 0)[i] == "\"" + Number(rs[i].addr, 16) + "\""
    ensures Column(rs, rssi, 1)[i] == CompactDistance(rs[i].diffMm)
    ensures Column(rs, rssi, 2)[i] == rssi[i]
    ensures Column(rs, rssi, 3)[i] ==
      Number(if rs[i].quality < 0 then rs[i].quality + 0x1_0000_0000 else rs[i].quality, 16)
  {
  }

  lemma TwoColumns(k: string, c: string, l: string, d: string, rest: string)
    ensures (k + (c + "]")) + ((l + (d + "]")) + rest) == k + c + ("]" + l) + d + ("]" + rest)
  {
    var x, y := k + (c + "]"), l + (d + "]");
    assert x == k + c + "]";
    assert y + rest == l + d + ("]" + rest);
    assert x + (y + rest) == k + c + ("]" + l) + d + ("]" + rest);
  }

  lemma Labels()
    ensures OPEN == ",\"meas\":{\"ref\":\"" && KEYS[0] == "\",\"a\":["
    ensures "]" + KEYS[1] == "],\"dd\":[" && KEYS[2] == ",\"rs\":["
    ensures "]" + KEYS[3] == "],\"qf\":[" && "]" + CLOSE == "]}}\n"
  {
  }

  lemma ColumnsUnfold(rs: seq<RangeRec>, rssi: seq<string>, j: nat)
    requires |rs| == |rssi| && j <= 2
    ensures ColumnsText(rs, rssi, j) ==
      ColumnText(rs, rssi, j) + (ColumnText(rs, rssi, j + 1) + ColumnsText(rs, rssi, j + 2))
  {
  }

  lemma FrontText(rs: seq<RangeRec>, rssi: seq<string>)
    requires |rs| == |rssi|
    ensures ColumnsText(rs, rssi, 0) ==
      "\",\"a\":[" + Commas(Column(rs, rssi, 0)) + "],\"dd\":[" + Commas(Column(rs, rssi, 1))
      + ("]" + ColumnsText(rs, rssi, 2))
  {
    Labels();
    ColumnsUnfold(rs, rssi, 0);
    TwoColumns(KEYS[0], Commas(Column(rs, rssi, 0)), KEYS[1], Commas(Column(rs, rssi, 1)), ColumnsText(rs, rssi, 2));
  }

  lemma BackText(rs: seq<RangeRec>, rssi: seq<string>)
    requires |rs| == |rssi|
    ensures ColumnsText(rs, rssi, 2) ==
      ",\"rs\":[" + Commas(Column(rs, rssi, 2)) + "],\"qf\":[" + Commas(Column(rs, rssi, 3)) + "]}}\n"
  {
    Labels();
    ColumnsUnfold(rs, rssi, 2);
    TwoColumns(KEYS[2], Commas(Column(rs, rssi, 2)), KEYS[3], Commas(Column(rs, rssi, 3)), CLOSE);
  }

  /** The printed text, label by label. */
  lemma MeasLabels(ref: U16, rs: seq<RangeRec>, rssi: seq<string>)
    requires |rs| == |rssi|
    ensures MeasText(ref, rs, rssi) == if rs == [] then "}\n" else
      ",\"meas\":{\"ref\":\"" + (Number(ref, 16)
      + ("\",\"a\":[" + Commas(Column(rs, rssi, 0)) + "],\"dd\":[" + Commas(Column(rs, rssi, 1)) + ("]"
      + (",\"rs\":[" + Commas(Column(rs, rssi, 2)) + "],\"qf\":[" + Commas(Column(rs, rssi, 3)) + "]}}\n"))))
  {
    FrontText(rs, rssi);
    BackText(rs, rssi);
    Labels();
  }

  /** Range slots as the printer indexes them: those of the record, then whatever lies behind it in memory. */
  function Slots(p: Packet, behind: seq<RangeRec>): (rs: seq<RangeRec>)
    ensures |rs| == MAX_RANGES + |behind|
  {
    p.ranges + behind
  }

  /** The printer does not check the count against the size of the record. */
  function Counted(p: Packet, behind: seq<RangeRec>): (rs: seq<RangeRec>)
    requires p.numRanges <= MAX_RANGES + |behind|
    ensures |rs| == p.numRanges
  {
    Slots(p, behind)[..p.numRanges]
  }

  lemma CountedAt(p: Packet, behind: seq<RangeRec>, k: nat)
    requires k < p.numRanges <= 16 + |behind|
    ensures Counted(p, behind)[k] == if k < 16 then p.ranges[k] else behind[k - 16]
  {
  }

  /** The inner loop: one column. */
  method PrintColumn(before: string, p: Packet, behind: seq<RangeRec>, rssi: seq<string>, j: nat) returns (out: string)
    requires 0 < p.numRanges <= MAX_RANGES + |behind| && |rssi| == p.numRanges && j < 4
    ensures out == before + ColumnText(Counted(p, behind), rssi, j)
  {
    ghost var es := Column(Counted(p, behind), rssi, j);
    ghost var start := before + KEYS[j];
    out := before + KEYS[j];
    for i := 0 to p.numRanges
      invariant out == start + Printed(es, i)
    {
      PrintedNext(start, es, i);
      out := out + (Element(Slots(p, behind)[i], rssi[i], j) + if i + 1 < p.numRanges then "," else "");
    }
    PrintedAll(es);
    ColumnEnd(before, KEYS[j], Commas(es));
    out := out + "]";
  }

  lemma ColumnEnd(a: string, b: string, c: string)
    ensures a + b + c + "]" == a + (b + (c + "]"))
  {
  }

  method PrintMeas(p: Packet, behind: seq<RangeRec>, rssi: seq<string>) returns (out: string)
    requires p.numRanges <= MAX_RANGES + |behind| && |rssi| == p.numRanges
    ensures out == MeasText(p.refAnchor, Counted(p, behind), rssi)
  {
    if p.numRanges == 0 {
      return "}\n";
    }
    ghost var rs := Counted(p, behind);
    out := OPEN + Number(p.refAnchor, 16);
    ghost var start := out;
    for j := 0 to 4
      invariant out + ColumnsText(rs, rssi, j) == start + ColumnsText(rs, rssi, 0)
    {
      Seqs.Assoc(out, ColumnText(rs, rssi, j), ColumnsText(rs, rssi, j + 1));
      out := PrintColumn(out, p, behind, rssi, j);
    }
    Seqs.Assoc(OPEN, Number(p.refAnchor, 16), ColumnsText(rs, rssi, 0));
    out := out + CLOSE;
  }

  /** What a reader gets back: per range an address, a distance in millimetres, an rssi text and a quality. */
  datatype Meas = Meas(ref: nat, addrs: seq<nat>, dists: seq<int>, rssi: seq<string>, quals: seq<nat>)

  function Skip(s: string, prefix: string): (r: Option<string>) {
    if |prefix| <= |s| && s[..|prefix|] == prefix then Some(s[|prefix|..]) else None
  }

  function ReadColumn(s: string, j: nat): (r: Option<(seq<string>, string)>)
    requires j < 4
  {
    var t := Skip(s, KEYS[j]);
    if t.None? then None else Some(ReadList(t.value))
  }

  function ReadColumns(s: string, j: nat): (r: Option<seq<seq<string>>>)
    requires j <= 4
    ensures r.Some? ==> |r.value| == 4 - j
    decreases 4 - j
  {
    if j == 4 then (if s == CLOSE then Some([]) else None)
    else
      var c := ReadColumn(s, j);
      if c.None? then None
      else
        var more := ReadColumns(c.value.1, j + 1);
        if more.None? then None else Some([c.value.0] + more.value)
  }

  function HexLength(s: string): (n: nat)
    ensures n <= |s|
  {
    if s == [] || s[0] == '\"' then 0 else 1 + HexLength(s[1..])
  }

  function Unquote(s: string): (t: string) {
    if |s| >= 2 then s[1..|s| - 1] else []
  }

  function QuotedValues(es: seq<string>): (ns: seq<nat>)
    ensures |ns| == |es| && forall i :: 0 <= i < |es| ==> ns[i] == NumberValue(Unquote(es[i]), 16)
  {
    seq(|es|, i requires 0 <= i < |es| => NumberValue(Unquote(es[i]), 16))
  }

  function HexValues(es: seq<string>): (ns: seq<nat>)
    ensures |ns| == |es| && forall i :: 0 <= i < |es| ==> ns[i] == NumberValue(es[i], 16)
  {
    seq(|es|, i requires 0 <= i < |es| => NumberValue(es[i], 16))
  }

  function Distance(e: string): (d: int) {
    if |e| >= 5 then Thousandths(e) else 0
  }

  function Distances(es: seq<string>): (ds: seq<int>)
    ensures |ds| == |es| && forall i :: 0 <= i < |es| ==> ds[i] == Distance(es[i])
  {
    seq(|es|, i requires 0 <= i < |es| => Distance(es[i]))
  }

  function Values(ref: string, cs: seq<seq<string>>): (m: Meas)
    requires |cs| == 4
  {
    Meas(NumberValue(ref, 16), QuotedValues(cs[0]), Distances(cs[1]), cs[2], HexValues(cs[3]))
  }

  function Read(s: string): (r: Option<Meas>) {
    var t := Skip(s, OPEN);
    if t.None? then None
    else
      var n := HexLength(t.value);
      var cs := ReadColumns(t.value[n..], 0);
      if cs.None? then None else Some(Values(t.value[..n], cs.value))
  }

  /** The measurement that a packet holds. */
  function Held(ref: U16, rs: seq<RangeRec>, rssi: seq<string>): (m: Meas) {
    Meas(ref, seq(|rs|, i requires 0 <= i < |rs| => rs[i].addr),
         seq(|rs|, i requires 0 <= i < |rs| => rs[i].diffMm), rssi,
         seq(|rs|, i requires 0 <= i < |rs| => Unsigned(rs[i].quality, 0x1_0000_0000)))
  }

  // ---- reading undoes printing ----

  lemma SkipPrefix(prefix: string, rest: string)
    ensures Skip(prefix + rest, prefix) == Some(rest)
  {
  }

  lemma DigitsAreClean(s: string, base: nat)
    requires AllDigits(s, base)
    ensures Clean(s) && '\"' !in s
  {
    forall i | 0 <= i < |s| ensures s[i] != ',' && s[i] != ']' && s[i] != '\"' {
      assert IsDigit(s[i], base);
    }
  }

  lemma CleanAppend(a: string, b: string)
    requires Clean(a) && Clean(b)
    ensures Clean(a + b)
  {
  }

  lemma MetresClean(minus: bool, d: I32)
    ensures Clean(Metres(minus, d))
  {
    var m := CDiv(d, 1000);
    var a, b := Number(Abs(m), 10), ThreeDigits(Abs(d - m * 1000));
    NumberRoundTrip(Abs(m), 10);
    ThreeDigitsRoundTrip(Abs(d - m * 1000));
    DigitsAreClean(a, 10);
    DigitsAreClean(b, 10);
    var sign := if minus then "-" else "";
    CleanAppend(sign, a);
    CleanAppend(sign + a, ".");
    CleanAppend(sign + a + ".", b);
  }

  lemma ElementClean(r: RangeRec, rssi: string, j: nat)
    requires Clean(rssi) && j < 4
    ensures Clean(Element(r, rssi, j))
  {
    NumberRoundTrip(r.addr, 16);
    NumberRoundTrip(Unsigned(r.quality, 0x1_0000_0000), 16);
    DigitsAreClean(Number(r.addr, 16), 16);
    DigitsAreClean(Number(Unsigned(r.quality, 0x1_0000_0000), 16), 16);
    CleanAppend("\"", Number(r.addr, 16));
    CleanAppend("\"" + Number(r.addr, 16), "\"");
    MetresClean(!(r.diffMm > 0), r.diffMm);
  }

  lemma ColumnClean(rs: seq<RangeRec>, rssi: seq<string>, j: nat)
    requires |rs| == |rssi| && j < 4 && forall i :: 0 <= i < |rssi| ==> Clean(rssi[i])
    ensures var es := Column(rs, rssi, j); forall i :: 0 <= i < |es| ==> Clean(es[i])
  {
    forall i | 0 <= i < |rs| ensures Clean(Column(rs, rssi, j)[i]) {
      ElementClean(rs[i], rssi[i], j);
    }
  }

  lemma SkipKey(key: string, body: string, rest: string)
    ensures Skip(key + (body + "]") + rest, key) == Some(body + "]" + rest)
  {
    SkipPrefix(key, body + "]" + rest);
    Seqs.Regroup(key, body, "]", rest);
  }

  lemma ReadColumnBack(rs: seq<RangeRec>, rssi: seq<string>, j: nat, rest: string)
    requires rs != [] && |rs| == |rssi| && j < 4 && forall i :: 0 <= i < |rssi| ==> Clean(rssi[i])
    ensures ReadColumn(ColumnText(rs, rssi, j) + rest, j) == Some((Column(rs, rssi, j), rest))
  {
    ColumnClean(rs, rssi, j);
    ReadCommas(Column(rs, rssi, j), rest);
    SkipKey(KEYS[j], Commas(Column(rs, rssi, j)), rest);
  }

  function AllColumns(rs: seq<RangeRec>, rssi: seq<string>, j: nat): (cs: seq<seq<string>>)
    requires |rs| == |rssi| && j <= 4
    ensures |cs| == 4 - j
    decreases 4 - j
  {
    if j == 4 then [] else [Column(rs, rssi, j)] + AllColumns(rs, rssi, j + 1)
  }

  lemma {:induction false} ReadColumnsBack(rs: seq<RangeRec>, rssi: seq<string>, j: nat)
    requires rs != [] && |rs| == |rssi| && j <= 4 && forall i :: 0 <= i < |rssi| ==> Clean(rssi[i])
    ensures ReadColumns(ColumnsText(rs, rssi, j), j) == Some(AllColumns(rs, rssi, j))
    decreases 4 - j
  {
    if j < 4 {
      ReadColumnBack(rs, rssi, j, ColumnsText(rs, rssi, j + 1));
      ReadColumnsBack(rs, rssi, j + 1);
    }
  }

  lemma {:induction false} HexEnds(h: string, rest: string)
    requires '\"' !in h && |rest| > 0 && rest[0] == '\"'
    ensures HexLength(h + rest) == |h|
  {
    if h != [] {
      assert h[0] in h;
      assert (h + rest)[1..] == h[1..] + rest;
      HexEnds(h[1..], rest);
    } else {
      assert h + rest == rest;
    }
  }

  lemma UnquoteQuoted(s: string)
    ensures Unquote(Quoted(s)) == s
  {
  }

  lemma ElementValues(r: RangeRec, rssi: string)
    ensures NumberValue(Unquote(Element(r, rssi, 0)), 16) == r.addr
    ensures |Element(r, rssi, 1)| >= 5 && Distance(Element(r, rssi, 1)) == r.diffMm
    ensures Element(r, rssi, 2) == rssi
    ensures NumberValue(Element(r, rssi, 3), 16) == Unsigned(r.quality, 0x1_0000_0000)
  {
    UnquoteQuoted(Number(r.addr, 16));
    NumberRoundTrip(r.addr, 16);
    DistanceRoundTrip(r.diffMm);
    NumberRoundTrip(Unsigned(r.quality, 0x1_0000_0000), 16);
  }

  lemma ColumnsStart(rs: seq<RangeRec>, rssi: seq<string>)
    requires |rs| == |rssi|
    ensures |ColumnsText(rs, rssi, 0)| > 0 && ColumnsText(rs, rssi, 0)[0] == '\"'
  {
    assert KEYS[0][0] == '\"';
    assert ColumnText(rs, rssi, 0)[0] == KEYS[0][0];
  }

  lemma ValuesOfColumns(ref: U16, rs: seq<RangeRec>, rssi: seq<string>)
    requires |rs| == |rssi|
    ensures Values(Number(ref, 16), AllColumns(rs, rssi, 0)) == Held(ref, rs, rssi)
  {
    var cs := AllColumns(rs, rssi, 0);
    assert cs == [Column(rs, rssi, 0), Column(rs, rssi, 1), Column(rs, rssi, 2), Column(rs, rssi, 3)];
    NumberRoundTrip(ref, 16);
    ColumnValues(rs, rssi);
  }

  lemma ColumnValues(rs: seq<RangeRec>, rssi: seq<string>)
    requires |rs| == |rssi|
    ensures var m := Held(0, rs, rssi);
      && QuotedValues(Column(rs, rssi, 0)) == m.addrs && Distances(Column(rs, rssi, 1)) == m.dists
      && Column(rs, rssi, 2) == rssi && HexValues(Column(rs, rssi, 3)) == m.quals
  {
    forall i | 0 <= i < |rs|
      ensures QuotedValues(Column(rs, rssi, 0))[i] == rs[i].addr && Distances(Column(rs, rssi, 1))[i] == rs[i].diffMm
      ensures Column(rs, rssi, 2)[i] == rssi[i]
      ensures HexValues(Column(rs, rssi, 3))[i] == Unsigned(rs[i].quality, 0x1_0000_0000)
    {
      ElementValues(rs[i], rssi[i]);
    }
  }

  /** For every measurement with ranges, reading what the compact printer puts out recovers in order every address,
      every 32-bit distance and every quality, in columns of equal length. */
  lemma ReadPrinted(ref: U16, rs: seq<RangeRec>, rssi: seq<string>)
    requires rs != [] && |rs| == |rssi| && forall i :: 0 <= i < |rssi| ==> Clean(rssi[i])
    ensures Read(MeasText(ref, rs, rssi)) == Some(Held(ref, rs, rssi))
  {
    var tail := ColumnsText(rs, rssi, 0);
    SkipPrefix(OPEN, Number(ref, 16) + tail);
    NumberRoundTrip(ref, 16);
    DigitsAreClean(Number(ref, 16), 16);
    ColumnsStart(rs, rssi);
    HexEnds(Number(ref, 16), tail);
    Seqs.Halves(Number(ref, 16), tail);
    ReadColumnsBack(rs, rssi, 0);
    ValuesOfColumns(ref, rs, rssi);
  }
}
