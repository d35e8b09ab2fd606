/** The calibration file: a text of `key = value` lines, written by one program and read back. */
module Calibration {

  const KEYNAME_SIZE := 64

  datatype Vec = Vec(x: int, y: int, z: int)

  /** The saved values of one formation. */
  datatype Formation = Formation(hdst: int, ho: Vec, href: Vec, hbase: Vec)

  datatype Params = Params(forms: seq<Formation>, ao: Vec)

  predicate Int16(v: int) {
    -0x8000 <= v < 0x8000
  }

  predicate Int32(v: int) {
    -0x8000_0000 <= v < 0x8000_0000
  }

  predicate Vec16(v: Vec) {
    Int16(v.x) && Int16(v.y) && Int16(v.z)
  }

  predicate Vec32(v: Vec) {
    Int32(v.x) && Int32(v.y) && Int32(v.z)
  }

  predicate Fits(f: Formation) {
    Int32(f.hdst) && Vec16(f.ho) && Vec16(f.href) && Vec32(f.hbase)
  }

  /** The loop counter over formations is 16 bits wide. */
  predicate Savable(p: Params) {
    Vec16(p.ao) && |p.forms| < 0x8000 && forall i :: 0 <= i < |p.forms| ==> Fits(p.forms[i])
  }

  function Cast16(v: int): int {
    (v + 0x8000) % 0x1_0000 - 0x8000
  }

  function Cast32(v: int): int {
    (v + 0x8000_0000) % 0x1_0000_0000 - 0x8000_0000
  }

  // ----- decimal text

  predicate IsDigit(c: char) {
    '0' <= c <= '9'
  }

  predicate IsSpace(c: char) {
    c == ' ' || '\t' <= c <= '\r'
  }

  /** Neither white space nor the end of a C string. */
  predicate Printable(s: string) {
    forall c :: c in s ==> !IsSpace(c) && c != '\0'
  }

  function Digit(d: nat): char
    requires d < 10
  {
    '0' + d as char
  }

  function Digits(n: nat): (s: string)
    ensures s != [] && IsDigit(s[0]) && Printable(s)
  {
    if n < 10 then [Digit(n)] else Digits(n / 10) + [Digit(n % 10)]
  }

  function Decimal(v: int): (s: string)
    ensures Printable(s)
  {
    if v < 0 then "-" + Digits(-v) else Digits(v)
  }

  function Pow10(k: nat): nat {
    if k == 0 then 1 else 10 * Pow10(k - 1)
  }

  /** How long the run of digits at the front is, looking at no more than `width` characters. */
  function DigitRun(s: string, width: nat): (k: nat)
    ensures k <= width && k <= |s| && forall i :: 0 <= i < k ==> IsDigit(s[i])
    ensures k < width && k < |s| ==> !IsDigit(s[k])
    decreases width
  {
    if width == 0 || s == [] || !IsDigit(s[0]) then 0 else 1 + DigitRun(s[1..], width - 1)
  }

  function DigitValue(c: char): nat
    requires IsDigit(c)
  {
    c as int - '0' as int
  }

  function Number(s: string): nat
    requires forall i :: 0 <= i < |s| ==> IsDigit(s[i])
  {
    if s == [] then 0 else 10 * Number(s[..|s| - 1]) + DigitValue(s[|s| - 1])
  }

  lemma {:induction false} DigitsAreDigits(n: nat)
    ensures forall i :: 0 <= i < |Digits(n)| ==> IsDigit(Digits(n)[i])
    ensures Number(Digits(n)) == n
  {
    if n >= 10 {
      DigitsAreDigits(n / 10);
      var s := Digits(n);
      assert s[..|s| - 1] == Digits(n / 10);
    }
  }

  lemma {:induction false} DigitsLength(n: nat, k: nat)
    requires n < Pow10(k) && k > 0
    ensures |Digits(n)| <= k
  {
    if n >= 10 {
      assert k > 1 && Pow10(k) == 10 * Pow10(k - 1);
      DigitsLength(n / 10, k - 1);
    }
  }

  // ----- scanning

  function SkipSpaces(s: string): string {
    if s != [] && IsSpace(s[0]) then SkipSpaces(s[1..]) else s
  }

  /** How many characters a `%<width>s` takes. */
  function WordRun(s: string, width: nat): (k: nat)
    ensures k <= width && k <= |s| && forall i :: 0 <= i < k ==> !IsSpace(s[i])
    ensures k < width && k < |s| ==> IsSpace(s[k])
    decreases width
  {
    if width == 0 || s == [] || IsSpace(s[0]) then 0 else 1 + WordRun(s[1..], width - 1)
  }

  /** What reading left behind: nothing usable, or a value and the rest of the text. */
  datatype Read<T> = Bad | Good(value: T, rest: string)

  /** A run of digits, at most `width` long, that ends up in an `int`. */
  function ScanDigits(s: string, width: nat, negative: bool): Read<int> {
    var k := DigitRun(s, width);
    var n: int := Number(s[..k]);
    if k == 0 then Bad else Good(Cast32(if negative then -n else n), s[k..])
  }

  /** `%11d`: a sign counts towards the width. */
  function ScanInt(s: string): Read<int> {
    var t := SkipSpaces(s);
    if t != [] && (t[0] == '-' || t[0] == '+') then ScanDigits(t[1..], 10, t[0] == '-')
    else ScanDigits(t, 11, false)
  }

  /** `%63s = %11d`: both fields, or nothing. */
  function ScanLine(s: string): Read<(string, int)> {
    var t := SkipSpaces(s);
    var w := WordRun(t, KEYNAME_SIZE - 1);
    var u := SkipSpaces(t[w..]);
    if w == 0 || u == [] || u[0] != '=' then Bad
    else
      match ScanInt(u[1..])
      case Bad => Bad
      case Good(n, rest) => Good((t[..w], n), rest)
  }

  /** A character array up to its terminator. */
  function CString(s: string): string {
    if s == [] || s[0] == '\0' then [] else [s[0]] + CString(s[1..])
  }

  /** `snprintf` into a key buffer. */
  function KeyName(s: string): (r: string)
    ensures |r| < KEYNAME_SIZE && (|s| < KEYNAME_SIZE ==> r == s)
  {
    if |s| < KEYNAME_SIZE then s else s[..KEYNAME_SIZE - 1]
  }

  // ----- one file

  function Line(key: string, val: int): string {
    key + " = " + Decimal(val) + "\n"
  }

  function PrintVec(key: string, v: Vec): string {
    Line(KeyName(key + ".x"), v.x) + Line(KeyName(key + ".y"), v.y) + Line(KeyName(key + ".z"), v.z)
  }

  function HdstKey(i: nat): string {
    KeyName("HSUC_HDST_FORM" + Decimal(i))
  }

  function HoKey(i: nat): string {
    KeyName("HSUC_HO_FORM" + Decimal(i))
  }

  function HrefKey(i: nat): string {
    KeyName("HFLUCV_HREF_FORM" + Decimal(i))
  }

  function HbaseKey(i: nat): string {
    KeyName("HSUC_HBASE_FORM" + Decimal(i))
  }

  function PrintForm(f: Formation, i: nat): string {
    Line(HdstKey(i), f.hdst) + PrintVec(HoKey(i), f.ho)
    + PrintVec(HrefKey(i), f.href) + PrintVec(HbaseKey(i), f.hbase)
  }

  function PrintForms(forms: seq<Formation>, i: nat): string
    decreases |forms| - i
  {
    if i >= |forms| then "" else PrintForm(forms[i], i) + PrintForms(forms, i + 1)
  }

  function Printed(p: Params): string {
    PrintForms(p.forms, 0) + PrintVec("AO", p.ao)
  }

  function ReadInt(s: string, key: string): Read<int> {
    match ScanLine(s)
    case Bad => Bad
    case Good((buf, n), rest) => if CString(buf) == CString(key) then Good(n, rest) else Bad
  }

  function ReadVec(s: string, key: string): Read<Vec> {
    match ReadInt(s, KeyName(key + ".x"))
    case Bad => Bad
    case Good(x, s1) =>
      match ReadInt(s1, KeyName(key + ".y"))
      case Bad => Bad
      case Good(y, s2) =>
        match ReadInt(s2, KeyName(key + ".z"))
        case Bad => Bad
        case Good(z, s3) => Good(Vec(x, y, z), s3)
  }

  function ReadVec16(s: string, key: string): Read<Vec> {
    match ReadVec(s, key)
    case Bad => Bad
    case Good(v, rest) => Good(Vec(Cast16(v.x), Cast16(v.y), Cast16(v.z)), rest)
  }

  function ReadForm(s: string, i: nat): Read<Formation> {
    match ReadInt(s, HdstKey(i))
    case Bad => Bad
    case Good(hdst, s1) =>
      match ReadVec16(s1, HoKey(i))
      case Bad => Bad
      case Good(ho, s2) =>
        match ReadVec16(s2, HrefKey(i))
        case Bad => Bad
        case Good(href, s3) =>
          match ReadVec(s3, HbaseKey(i))
          case Bad => Bad
          case Good(hbase, s4) => Good(Formation(hdst, ho, href, hbase), s4)
  }

  /** The formations from `|done|` on, after those in `done`. */
  function ReadForms(s: string, done: seq<Formation>, n: nat): Read<seq<Formation>>
    decreases n - |done|
  {
    if |done| >= n then Good(done, s)
    else
      match ReadForm(s, |done|)
      case Bad => Bad
      case Good(f, rest) => ReadForms(rest, done + [f], n)
  }

  function ReadParams(s: string, n: nat): Read<Params> {
    match ReadForms(s, [], n)
    case Bad => Bad
    case Good(forms, rest) =>
      match ReadVec16(rest, "AO")
      case Bad => Bad
      case Good(ao, last) => Good(Params(forms, ao), last)
  }

  // ----- the round trip

  /** `s` is `t`, perhaps after the line end that the previous number left unread. */
  predicate Leads(s: string, t: string) {
    s == t || s == "\n" + t
  }

  lemma {:induction false} WordRunOf(key: string, rest: string, width: nat)
    requires Printable(key) && |key| <= width && rest != [] && IsSpace(rest[0])
    ensures WordRun(key + rest, width) == |key|
    decreases |key|
  {
    if key == [] {
      assert key + rest == rest;
    } else {
      assert key[0] in key && forall c :: c in key[1..] ==> c in key;
      assert (key + rest)[1..] == key[1..] + rest;
      WordRunOf(key[1..], rest, width - 1);
    }
  }

  lemma {:induction false} CStringOf(key: string)
    requires Printable(key)
    ensures CString(key) == key
  {
    if key != [] {
      assert key[0] in key && forall c :: c in key[1..] ==> c in key;
      CStringOf(key[1..]);
    }
  }

  lemma {:induction false} DigitRunOf(ds: string, rest: string, width: nat)
    requires |ds| <= width && (forall i :: 0 <= i < |ds| ==> IsDigit(ds[i]))
    requires rest == [] || !IsDigit(rest[0])
    ensures DigitRun(ds + rest, width) == |ds|
    decreases |ds|
  {
    if ds == [] {
      assert ds + rest == rest;
    } else {
      assert (ds + rest)[1..] == ds[1..] + rest;
      DigitRunOf(ds[1..], rest, width - 1);
    }
  }

  lemma Joined<T>(a: seq<T>, b: seq<T>, c: seq<T>)
    ensures (a + b) + c == a + (b + c)
    ensures (a + b)[..|a|] == a && (a + b)[|a|..] == b
  {}

  lemma SkipNothing(s: string)
    requires s != [] && !IsSpace(s[0])
    ensures SkipSpaces(s) == s
  {}

  lemma SkipOne(c: char, s: string)
    requires IsSpace(c) && s != [] && !IsSpace(s[0])
    ensures SkipSpaces([c] + s) == s
  {
    assert ([c] + s)[1..] == s;
  }

  lemma ScanDigitsOf(n: nat, rest: string, width: nat, negative: bool)
    requires n < Pow10(10) && 10 <= width && (rest == [] || !IsDigit(rest[0]))
    ensures ScanDigits(Digits(n) + rest, width, negative) == Good(Cast32(if negative then -(n as int) else n), rest)
  {
    DigitsAreDigits(n);
    DigitsLength(n, 10);
    DigitRunOf(Digits(n), rest, width);
    Joined(Digits(n), rest, []);
    hide Digits;
    hide DigitRun;
    hide Number;
    hide Cast32;
  }

  lemma ScanPlain(n: nat, rest: string)
    requires n < Pow10(10) && (rest == [] || !IsDigit(rest[0]))
    ensures ScanInt(" " + (Digits(n) + rest)) == Good(Cast32(n), rest)
  {
    var t := Digits(n) + rest;
    assert t[0] == Digits(n)[0];
    assert t[0] in Digits(n);
    ScanDigitsOf(n, rest, 11, false);
    hide ScanDigits;
    SkipOne(' ', t);
    hide Digits;
    hide SkipSpaces;
  }

  lemma ScanNegative(n: nat, rest: string)
    requires n < Pow10(10) && (rest == [] || !IsDigit(rest[0]))
    ensures ScanInt(" " + ("-" + (Digits(n) + rest))) == Good(Cast32(-(n as int)), rest)
  {
    var t := "-" + (Digits(n) + rest);
    ScanDigitsOf(n, rest, 10, true);
    hide ScanDigits;
    SkipOne(' ', t);
    hide Digits;
    hide SkipSpaces;
    Joined("-", Digits(n) + rest, []);
  }

  /** A printed 32-bit number is read back whole; the longest takes all 11 characters. */
  lemma ScanPrinted(v: int, rest: string)
    requires Int32(v) && (rest == [] || !IsDigit(rest[0]))
    ensures ScanInt(" " + (Decimal(v) + rest)) == Good(v, rest)
  {
    assert Pow10(10) == 10_000_000_000;
    assert Cast32(v) == v;
    hide Pow10;
    hide Digits;
    hide ScanInt;
    hide Cast32;
    if v < 0 {
      ScanNegative(-v, rest);
      Joined("-", Digits(-v), rest);
    } else {
      ScanPlain(v, rest);
    }
  }

  lemma ScanLineOf(s: string, key: string, w: string, val: int, rest: string)
    requires Printable(key) && 0 < |key| < KEYNAME_SIZE
    requires SkipSpaces(s) == key + (" " + ("=" + w)) && ScanInt(w) == Good(val, rest)
    ensures ScanLine(s) == Good((key, val), rest)
  {
    hide ScanInt;
    var u := "=" + w;
    WordRunOf(key, " " + u, KEYNAME_SIZE - 1);
    Joined(key, " " + u, []);
    SkipOne(' ', u);
    Joined("=", w, []);
    hide SkipSpaces;
    hide WordRun;
  }

  lemma LineText(key: string, val: int, tail: string)
    ensures Line(key, val) + tail == key + (" " + ("=" + (" " + (Decimal(val) + ("\n" + tail)))))
  {
    hide Decimal;
    var number := Decimal(val);
    assert " = " == " " + ("=" + " ");
    assert Line(key, val) + tail == key + (" " + ("=" + (" " + (number + ("\n" + tail)))));
  }

  lemma LeadSkips(s: string, t: string)
    requires Leads(s, t) && t != [] && !IsSpace(t[0])
    ensures SkipSpaces(s) == t
  {
    SkipNothing(t);
    SkipOne('\n', t);
    hide SkipSpaces;
  }

  lemma LineReads(s: string, key: string, val: int, tail: string)
    requires Printable(key) && 0 < |key| < KEYNAME_SIZE && Int32(val)
    requires Leads(s, Line(key, val) + tail)
    ensures ScanLine(s) == Good((key, val), "\n" + tail)
    ensures ReadInt(s, key) == Good(val, "\n" + tail)
  {
    hide ScanInt;
    hide ScanLine;
    hide Decimal;
    hide SkipSpaces;
    hide Line;
    LineText(key, val, tail);
    assert key[0] in key;
    LeadSkips(s, Line(key, val) + tail);
    ScanPrinted(val, "\n" + tail);
    ScanLineOf(s, key, " " + (Decimal(val) + ("\n" + tail)), val, "\n" + tail);
    CStringOf(key);
  }

  lemma SubKeys(key: string)
    requires Printable(key) && |key| < KEYNAME_SIZE - 2
    ensures forall c | c in [".x", ".y", ".z"] :: KeyName(key + c) == key + c && Printable(key + c)
  {}

  lemma VecReads(s: string, key: string, v: Vec, tail: string)
    requires GoodKey(key) && Vec32(v)
    requires Leads(s, PrintVec(key, v) + tail)
    ensures ReadVec(s, key) == Good(v, "\n" + tail)
  {
    SubKeys(key);
    hide KeyName;
    hide Printable;
    hide Line;
    hide ReadInt;
    var x, y, z := key + ".x", key + ".y", key + ".z";
    assert x == KeyName(x) && y == KeyName(y) && z == KeyName(z);
    var t3 := Line(z, v.z) + tail;
    var t2 := Line(y, v.y) + t3;
    Joined(Line(x, v.x) + Line(y, v.y), Line(z, v.z), tail);
    Joined(Line(x, v.x), Line(y, v.y), t3);
    LineReads(s, x, v.x, t2);
    LineReads("\n" + t2, y, v.y, t3);
    LineReads("\n" + t3, z, v.z, tail);
  }

  predicate GoodKey(key: string) {
    Printable(key) && 0 < |key| < KEYNAME_SIZE - 2
  }

  lemma NumberedKey(name: string, i: nat)
    requires i < 0x8000 && Printable(name) && 0 < |name| <= 16
    ensures GoodKey(KeyName(name + Decimal(i)))
  {
    assert Pow10(5) == 100_000;
    DigitsLength(i, 5);
  }

  lemma FormKeys(i: nat)
    requires i < 0x8000
    ensures GoodKey(HdstKey(i)) && GoodKey(HoKey(i)) && GoodKey(HrefKey(i)) && GoodKey(HbaseKey(i))
  {
    hide Decimal;
    hide KeyName;
    hide GoodKey;
    NumberedKey("HSUC_HDST_FORM", i);
    NumberedKey("HSUC_HO_FORM", i);
    NumberedKey("HFLUCV_HREF_FORM", i);
    NumberedKey("HSUC_HBASE_FORM", i);
  }

  lemma Cast16Id(v: Vec)
    requires Vec16(v)
    ensures Vec(Cast16(v.x), Cast16(v.y), Cast16(v.z)) == v && Vec32(v)
  {}

  lemma Joined4<T>(a: seq<T>, b: seq<T>, c: seq<T>, d: seq<T>, tail: seq<T>)
    ensures a + b + c + d + tail == a + (b + (c + (d + tail)))
  {}

  lemma PrintFormText(f: Formation, i: nat, tail: string)
    ensures PrintForm(f, i) + tail
         == Line(HdstKey(i), f.hdst) + (PrintVec(HoKey(i), f.ho)
            + (PrintVec(HrefKey(i), f.href) + (PrintVec(HbaseKey(i), f.hbase) + tail)))
  {
    hide Line;
    hide PrintVec;
    hide HdstKey;
    hide HoKey;
    hide HrefKey;
    hide HbaseKey;
    Joined4(Line(HdstKey(i), f.hdst), PrintVec(HoKey(i), f.ho),
            PrintVec(HrefKey(i), f.href), PrintVec(HbaseKey(i), f.hbase), tail);
  }

  lemma Vec16Reads(s: string, key: string, v: Vec, tail: string)
    requires GoodKey(key) && Vec16(v)
    requires Leads(s, PrintVec(key, v) + tail)
    ensures ReadVec16(s, key) == Good(v, "\n" + tail)
  {
    Cast16Id(v);
    VecReads(s, key, v, tail);
    hide ReadVec;
    hide PrintVec;
    hide Cast16;
  }

  lemma ReadFormOf(f: Formation, i: nat, s: string, s1: string, s2: string, s3: string, s4: string)
    requires ReadInt(s, HdstKey(i)) == Good(f.hdst, s1)
    requires ReadVec16(s1, HoKey(i)) == Good(f.ho, s2)
    requires ReadVec16(s2, HrefKey(i)) == Good(f.href, s3)
    requires ReadVec(s3, HbaseKey(i)) == Good(f.hbase, s4)
    ensures ReadForm(s, i) == Good(f, s4)
  {
    hide ReadInt;
    hide ReadVec;
    hide ReadVec16;
    hide HdstKey;
    hide HoKey;
    hide HrefKey;
    hide HbaseKey;
  }

  lemma FormReads(s: string, f: Formation, i: nat, tail: string)
    requires Fits(f) && i < 0x8000
    requires Leads(s, PrintForm(f, i) + tail)
    ensures ReadForm(s, i) == Good(f, "\n" + tail)
  {
    FormKeys(i);
    hide Line;
    hide PrintVec;
    hide PrintForm;
    hide HdstKey;
    hide HoKey;
    hide HrefKey;
    hide HbaseKey;
    hide GoodKey;
    hide Fits;
    hide ReadInt;
    hide ReadVec;
    hide ReadVec16;
    hide ReadForm;
    PrintFormText(f, i, tail);
    var t4 := PrintVec(HbaseKey(i), f.hbase) + tail;
    var t3 := PrintVec(HrefKey(i), f.href) + t4;
    var t2 := PrintVec(HoKey(i), f.ho) + t3;
    assert Fits(f);
    LineReads(s, HdstKey(i), f.hdst, t2);
    Vec16Reads("\n" + t2, HoKey(i), f.ho, t3);
    Vec16Reads("\n" + t3, HrefKey(i), f.href, t4);
    VecReads("\n" + t4, HbaseKey(i), f.hbase, tail);
    ReadFormOf(f, i, s, "\n" + t2, "\n" + t3, "\n" + t4, "\n" + tail);
  }

  /** Reading the first `n` formations of a file that holds as many or more. */
  lemma {:induction false} FormsRead(s: string, forms: seq<Formation>, i: nat, n: nat, tail: string)
    requires |forms| < 0x8000 && i <= n <= |forms| && forall k :: 0 <= k < |forms| ==> Fits(forms[k])
    requires Leads(s, PrintForms(forms, i) + tail)
    ensures ReadForms(s, forms[..i], n).Good?
    ensures ReadForms(s, forms[..i], n).value == forms[..n]
    ensures Leads(ReadForms(s, forms[..i], n).rest, PrintForms(forms, n) + tail)
    decreases n - i
  {
    hide PrintForm;
    hide ReadForm;
    if i < n {
      var t := PrintForms(forms, i + 1) + tail;
      assert PrintForms(forms, i) + tail == PrintForm(forms[i], i) + t;
      FormReads(s, forms[i], i, t);
      assert forms[..i] + [forms[i]] == forms[..i + 1];
      FormsRead("\n" + t, forms, i + 1, n, tail);
    }
  }

  lemma FirstFormsRead(forms: seq<Formation>, n: nat, tail: string)
    requires |forms| < 0x8000 && n <= |forms| && forall k :: 0 <= k < |forms| ==> Fits(forms[k])
    ensures var r := ReadForms(PrintForms(forms, 0) + tail, [], n);
      r.Good? && r.value == forms[..n] && Leads(r.rest, if n == |forms| then tail else PrintForms(forms, n) + tail)
  {
    assert forms[..0] == [];
    FormsRead(PrintForms(forms, 0) + tail, forms, 0, n, tail);
    if n == |forms| {
      assert PrintForms(forms, n) + tail == tail;
    }
    hide ReadForms;
  }

  /** What is saved is loaded, for any number of formations and all values that fit their fields. */
  lemma RoundTrip(p: Params)
    requires Savable(p)
    ensures ReadParams(Printed(p), |p.forms|) == Good(p, "\n")
  {
    hide PrintForms;
    hide PrintVec;
    hide ReadForms;
    hide ReadVec16;
    hide Leads;
    var tail, n := PrintVec("AO", p.ao), |p.forms|;
    assert p.forms[..n] == p.forms;
    FirstFormsRead(p.forms, n, tail);
    AoReads(ReadForms(Printed(p), [], n).rest, p.ao);
  }

  lemma AoReads(s: string, ao: Vec)
    requires Vec16(ao) && Leads(s, PrintVec("AO", ao))
    ensures ReadVec16(s, "AO") == Good(ao, "\n")
  {
    hide ReadVec16;
    assert GoodKey("AO");
    hide GoodKey;
    assert PrintVec("AO", ao) + "" == PrintVec("AO", ao);
    hide PrintVec;
    Vec16Reads(s, "AO", ao, "");
  }

  /** A file goes on with a formation's first key. */
  lemma FormKeyScanned(s: string, forms: seq<Formation>, n: nat, tail: string)
    requires n < |forms| < 0x8000 && Fits(forms[n]) && Leads(s, PrintForms(forms, n) + tail)
    ensures ScanLine(s).Good? && ScanLine(s).value.0 == HdstKey(n)
  {
    hide PrintForm;
    hide ScanLine;
    hide ReadInt;
    hide HdstKey;
    hide Line;
    var f, rest := forms[n], PrintForms(forms, n + 1) + tail;
    Joined(PrintForm(f, n), PrintForms(forms, n + 1), tail);
    FormKeys(n);
    PrintFormText(f, n, rest);
    hide PrintVec;
    hide PrintForms;
    hide GoodKey;
    LineReads(s, HdstKey(n), f.hdst, PrintVec(HoKey(n), f.ho) + (PrintVec(HrefKey(n), f.href)
                                     + (PrintVec(HbaseKey(n), f.hbase) + rest)));
  }

  /** A file goes on with the first key of the last vector. */
  lemma AoKeyScanned(s: string, ao: Vec)
    requires Vec16(ao) && Leads(s, PrintVec("AO", ao))
    ensures ScanLine(s).Good? && ScanLine(s).value.0 == "AO.x"
  {
    hide Line;
    hide ScanLine;
    hide ReadInt;
    hide Leads;
    assert "AO" + ".x" == "AO.x" && KeyName("AO.x") == "AO.x" && Printable("AO.x");
    var y, z := Line(KeyName("AO" + ".y"), ao.y), Line(KeyName("AO" + ".z"), ao.z);
    Joined(Line("AO.x", ao.x), y, z);
    LineReads(s, "AO.x", ao.x, y + z);
  }

  lemma HdstKeyStarts(i: nat)
    ensures HdstKey(i) != [] && HdstKey(i)[0] == 'H'
  {}

  lemma SameCount(p: Params, q: Params)
    requires Savable(p) && Savable(q) && Printed(p) == Printed(q)
    ensures |q.forms| <= |p.forms|
  {
    hide PrintForms;
    hide PrintVec;
    hide ReadForms;
    hide Leads;
    hide ScanLine;
    var n := |p.forms|;
    FirstFormsRead(p.forms, n, PrintVec("AO", p.ao));
    var s := ReadForms(Printed(p), [], n).rest;
    AoKeyScanned(s, p.ao);
    if n < |q.forms| {
      FirstFormsRead(q.forms, n, PrintVec("AO", q.ao));
      FormKeyScanned(s, q.forms, n, PrintVec("AO", q.ao));
      HdstKeyStarts(n);
      assert false;
    }
  }

  /** So two savable sets of parameters with the same file are the same, their counts included. */
  lemma FileDeterminesParams(p: Params, q: Params)
    requires Savable(p) && Savable(q) && Printed(p) == Printed(q)
    ensures p == q
  {
    SameCount(p, q);
    SameCount(q, p);
    RoundTrip(p);
    RoundTrip(q);
  }

  /** A saved line is accepted under its own name only. Under any other its number is stored all the
      same, because the scan comes before the comparison, although `LoadInt` is documented to leave
      the value alone on failure. */
  lemma MismatchOverwrites(s: string, key: string, val: int, tail: string, expected: string)
    requires Printable(key) && 0 < |key| < KEYNAME_SIZE && Int32(val) && Printable(expected)
    requires Leads(s, Line(key, val) + tail)
    ensures ReadInt(s, expected).Good? <==> expected == key
    ensures ScanLine(s) == Good((key, val), "\n" + tail)
  {
    LineReads(s, key, val, tail);
    CStringOf(key);
    CStringOf(expected);
    hide ScanLine;
    hide Leads;
    hide Line;
  }

  // ----- the file in letters

  /** Decimal text: a sign, and the digits '0' to '9' to the base 10, the last one last. */
  lemma DecimalMeaning(n: nat, d: nat)
    requires d < 10
    ensures Digits(d) == ["0123456789"[d]]
    ensures 0 < n ==> Digits(10 * n + d) == Digits(n) + ["0123456789"[d]]
    ensures Decimal(n) == Digits(n) && (0 < n ==> Decimal(-(n as int)) == "-" + Digits(n))
  {
    assert (10 * n + d) / 10 == n && (10 * n + d) % 10 == d;
  }

  /** A line of the file: the name, the number of the formation, the axis, and the value. */
  function Written(name: string, index: string, axis: string, val: int): string {
    name + index + axis + " = " + Decimal(val) + "\n"
  }

  lemma WrittenLine(name: string, index: string, axis: string, val: int)
    requires |name| <= 16 && |index| <= 5 && |axis| <= 2
    ensures Line(KeyName(KeyName(name + index) + axis), val) == Written(name, index, axis, val)
    ensures Line(KeyName(name + index), val) == Written(name, index, "", val)
  {
    hide Decimal;
    assert name + index + "" == name + index;
  }

  lemma WrittenVec(name: string, index: string, v: Vec)
    requires |name| <= 16 && |index| <= 5
    ensures PrintVec(KeyName(name + index), v)
         == Written(name, index, ".x", v.x) + Written(name, index, ".y", v.y) + Written(name, index, ".z", v.z)
  {
    WrittenLine(name, index, ".x", v.x);
    WrittenLine(name, index, ".y", v.y);
    WrittenLine(name, index, ".z", v.z);
    hide Line;
    hide Written;
    hide KeyName;
  }

  lemma ShortIndex(i: nat)
    requires i < 0x8000
    ensures |Decimal(i)| <= 5
  {
    assert Pow10(5) == 100_000;
    DigitsLength(i, 5);
  }

  /** The ten lines of a formation and the three of the last vector, in letters. */
  lemma FileInLetters(f: Formation, i: nat, ao: Vec)
    requires i < 0x8000
    ensures var n := Decimal(i);
      PrintForm(f, i) == Written("HSUC_HDST_FORM", n, "", f.hdst)
        + (Written("HSUC_HO_FORM", n, ".x", f.ho.x) + Written("HSUC_HO_FORM", n, ".y", f.ho.y) + Written("HSUC_HO_FORM", n, ".z", f.ho.z))
        + (Written("HFLUCV_HREF_FORM", n, ".x", f.href.x) + Written("HFLUCV_HREF_FORM", n, ".y", f.href.y)
           + Written("HFLUCV_HREF_FORM", n, ".z", f.href.z))
        + (Written("HSUC_HBASE_FORM", n, ".x", f.hbase.x) + Written("HSUC_HBASE_FORM", n, ".y", f.hbase.y)
           + Written("HSUC_HBASE_FORM", n, ".z", f.hbase.z))
    ensures PrintVec("AO", ao) == Written("AO", "", ".x", ao.x) + Written("AO", "", ".y", ao.y) + Written("AO", "", ".z", ao.z)
  {
    ShortIndex(i);
    var n := Decimal(i);
    assert "AO" + "" == "AO" && KeyName("AO") == "AO";
    hide Decimal;
    hide KeyName;
    hide Line;
    hide PrintVec;
    hide Written;
    WrittenLine("HSUC_HDST_FORM", n, "", f.hdst);
    WrittenVec("HSUC_HO_FORM", n, f.ho);
    WrittenVec("HFLUCV_HREF_FORM", n, f.href);
    WrittenVec("HSUC_HBASE_FORM", n, f.hbase);
    WrittenVec("AO", "", ao);
  }

  lemma {:induction false} DigitRunCut(ds: string, width: nat)
    requires width <= |ds| && forall i :: 0 <= i < |ds| ==> IsDigit(ds[i])
    ensures DigitRun(ds, width) == width
    decreases width
  {
    if width > 0 {
      DigitRunCut(ds[1..], width - 1);
    }
  }

  /** Of a longer number no more than eleven characters are read, the sign among them; the rest is left. */
  lemma LongNumbersCut(ds: string)
    requires |ds| == 12 && forall i :: 0 <= i < |ds| ==> IsDigit(ds[i])
    ensures ScanInt(ds) == Good(Cast32(Number(ds[..11])), ds[11..])
    ensures ScanInt("-" + ds[..11]) == Good(Cast32(-(Number(ds[..10]) as int)), [ds[10]])
  {
    assert IsDigit(ds[0]);
    DigitRunCut(ds, 11);
    SkipNothing(ds);
    var e := ds[..11];
    DigitRunCut(e, 10);
    SkipNothing("-" + e);
    assert ("-" + e)[1..] == e && e[..10] == ds[..10] && e[10..] == [ds[10]];
    hide SkipSpaces;
    hide DigitRun;
    hide Number;
    hide Cast32;
  }

  lemma {:induction false} WordRunCut(s: string, width: nat)
    requires width <= |s| && forall i :: 0 <= i < width ==> !IsSpace(s[i])
    ensures WordRun(s, width) == width
    decreases width
  {
    if width > 0 {
      WordRunCut(s[1..], width - 1);
    }
  }

  /** Of a name no more than 63 characters are read, so a longer one leaves no '=' to come next. */
  lemma LongNamesRefused(s: string)
    requires |s| >= 64 && (forall i :: 0 <= i < 64 ==> !IsSpace(s[i])) && s[63] != '='
    ensures ScanLine(s).Bad?
  {
    SkipNothing(s);
    WordRunCut(s, 63);
    SkipNothing(s[63..]);
    hide SkipSpaces;
    hide WordRun;
    hide ScanInt;
  }

  /** The narrowing casts keep the value modulo the width, within the signed range. */
  lemma CastMeaning(v: int)
    ensures -32768 <= Cast16(v) < 32768 && (Cast16(v) - v) % 65536 == 0
    ensures -2147483648 <= Cast32(v) < 2147483648 && (Cast32(v) - v) % 4294967296 == 0
  {}

  // ----- the stateful code

  /** A stdio stream: the text written so far, or the text not read yet. */
  class TextFile {
    var text: string
    var failed: bool

    /** `fprintf`, which may fail. */
    method Print(line: string) returns (written: int)
      requires !failed
      modifies this
      ensures written < 0 <==> failed
      ensures !failed ==> text == old(text) + line
    {
      var works: bool := *;
      if works {
        text := text + line;
        return |line|;
      }
      failed := true;
      return -1;
    }

    /** `fscanf` of a name and a number. */
    method Scan(val: int) returns (fields: int, buf: string, v: int)
      modifies `text
      ensures fields == 2 <==> ScanLine(old(text)).Good?
      ensures fields == 2 ==> ScanLine(old(text)) == Good((buf, v), text)
      ensures fields != 2 ==> v == val
    {
      match ScanLine(text)
      case Bad =>
        return 1, "", val;
      case Good((name, n), rest) =>
        text := rest;
        return 2, name, n;
    }
  }

  method SaveInt(fp: TextFile, key: string, val: int) returns (ret: bool)
    requires !fp.failed
    modifies fp
    ensures ret == !fp.failed
    ensures ret ==> fp.text == old(fp.text) + Line(key, val)
  {
    var written := fp.Print(key + " = " + Decimal(val) + "\n");
    return written >= 0;
  }

  method SaveVec(fp: TextFile, key: string, v: Vec) returns (ret: bool)
    requires !fp.failed
    modifies fp
    ensures ret == !fp.failed
    ensures ret ==> fp.text == old(fp.text) + PrintVec(key, v)
  {
    hide Line;
    ret := SaveInt(fp, KeyName(key + ".x"), v.x);
    if ret {
      ret := SaveInt(fp, KeyName(key + ".y"), v.y);
    }
    if ret {
      ret := SaveInt(fp, KeyName(key + ".z"), v.z);
    }
  }

  /** Stores the number read, whether or not its name is the expected one. */
  method LoadInt(fp: TextFile, key: string, val: int) returns (ret: bool, v: int)
    modifies fp`text
    ensures ret == ReadInt(old(fp.text), key).Good?
    ensures ret ==> ReadInt(old(fp.text), key) == Good(v, fp.text)
    ensures v == match ScanLine(old(fp.text)) { case Bad => val case Good((_, n), _) => n }
    ensures !ret ==> (v == val <==> ScanLine(old(fp.text)).Bad? || ScanLine(old(fp.text)).value.1 == val)
  {
    var fields, buf: string;
    fields, buf, v := fp.Scan(val);
    if fields != 2 {
      return false, v;
    }
    if CString(buf) != CString(key) {
      return false, v;
    }
    return true, v;
  }

  method LoadVec(fp: TextFile, key: string) returns (ret: bool, v: Vec)
    modifies fp`text
    ensures ret == ReadVec(old(fp.text), key).Good?
    ensures ret ==> ReadVec(old(fp.text), key) == Good(v, fp.text)
  {
    hide ReadInt;
    hide ScanLine;
    hide KeyName;
    var tmp: int := *;
    ret, tmp := LoadInt(fp, KeyName(key + ".x"), tmp);
    var x := tmp;
    if ret {
      ret, tmp := LoadInt(fp, KeyName(key + ".y"), tmp);
    }
    var y := tmp;
    if ret {
      ret, tmp := LoadInt(fp, KeyName(key + ".z"), tmp);
    }
    v := Vec(x, y, tmp);
  }

  method LoadVec16(fp: TextFile, key: string) returns (ret: bool, v: Vec)
    modifies fp`text
    ensures ret == ReadVec16(old(fp.text), key).Good?
    ensures ret ==> ReadVec16(old(fp.text), key) == Good(v, fp.text)
  {
    ret, v := LoadVec(fp, key);
    v := Vec(Cast16(v.x), Cast16(v.y), Cast16(v.z));
  }

  /** The calibration parameters, an array element per formation. */
  class AkscPrms {
    const hdst: array<int>
    const ho: array<Vec>
    const href: array<Vec>
    const hbase: array<Vec>
    var ao: Vec

    ghost predicate Valid() {
      && hdst.Length == ho.Length == href.Length == hbase.Length < 0x8000
      && ho != href && ho != hbase && href != hbase
    }

    ghost function Form(i: nat): Formation
      reads hdst, ho, href, hbase
      requires Valid() && i < hdst.Length
    {
      Formation(hdst[i], ho[i], href[i], hbase[i])
    }

    ghost function Forms(n: nat): (fs: seq<Formation>)
      reads hdst, ho, href, hbase
      requires Valid() && n <= hdst.Length
      ensures |fs| == n && forall i :: 0 <= i < n ==> fs[i] == Form(i)
    {
      if n == 0 then [] else Forms(n - 1) + [Form(n - 1)]
    }

    ghost function Value(): Params
      reads this, hdst, ho, href, hbase
      requires Valid()
    {
      Params(Forms(hdst.Length), ao)
    }

    method SaveFormation(file: TextFile, i: nat) returns (ret: bool)
      requires Valid() && i < hdst.Length && !file.failed
      modifies file
      ensures ret == !file.failed
      ensures ret ==> file.text == old(file.text) + PrintForm(Form(i), i)
    {
      hide Line;
      hide PrintVec;
      ret := SaveInt(file, HdstKey(i), hdst[i]);
      if ret {
        ret := SaveVec(file, HoKey(i), ho[i]);
      }
      if ret {
        ret := SaveVec(file, HrefKey(i), href[i]);
      }
      if ret {
        ret := SaveVec(file, HbaseKey(i), hbase[i]);
      }
    }

    /** Writes the file; `opens`, `closes` and `chmods` say whether those calls succeed. */
    method SaveParameters(file: TextFile, opens: bool, closes: bool, chmods: bool) returns (ret: bool)
      requires Valid()
      modifies file
      ensures !opens ==> !ret && file.text == old(file.text)
      ensures opens ==> ret == (!file.failed && closes && chmods)
      ensures opens && !file.failed ==> file.text == Printed(Value())
    {
      hide PrintForm;
      hide PrintVec;
      if !opens {
        return false;
      }
      file.text, file.failed := "", false;
      ret := true;
      ghost var forms := Forms(hdst.Length);
      var i := 0;
      while i < hdst.Length
        invariant 0 <= i <= hdst.Length && ret == !file.failed
        invariant ret ==> file.text + PrintForms(forms, i) == PrintForms(forms, 0)
      {
        if ret {
          Joined(file.text, PrintForm(forms[i], i), PrintForms(forms, i + 1));
          ret := SaveFormation(file, i);
        }
        i := i + 1;
      }
      if ret {
        assert file.text == PrintForms(forms, 0);
        ret := SaveVec(file, "AO", ao);
      }
      if !closes {
        ret := false;
      }
      if !chmods {
        ret := false;
      }
    }

    /** Reads formation `i`, unless an earlier value was bad; a bad formation's level is left 0. */
    method LoadFormation(file: TextFile, i: nat, ok: bool) returns (ret: bool)
      requires Valid() && i < hdst.Length
      modifies file`text, hdst, ho, href, hbase
      ensures forall k :: 0 <= k < hdst.Length && k != i ==> Form(k) == old(Form(k))
      ensures ret == (ok && ReadForm(old(file.text), i).Good?)
      ensures ret ==> ReadForm(old(file.text), i) == Good(Form(i), file.text)
      ensures !ok ==> Form(i) == old(Form(i)).(hdst := 0)
    {
      hide ReadInt;
      hide ReadVec;
      hide ReadVec16;
      hide ScanLine;
      ret := ok;
      var tmp := 0;
      if ret {
        ret, tmp := LoadInt(file, HdstKey(i), tmp);
      }
      hdst[i] := tmp;
      if ret {
        ret, ho[i] := LoadVec16(file, HoKey(i));
      }
      if ret {
        ret, href[i] := LoadVec16(file, HrefKey(i));
      }
      if ret {
        ret, hbase[i] := LoadVec(file, HbaseKey(i));
      }
    }

    /** Reads the file: succeeds exactly when the file holds every value in order, and then the
        parameters are those values. */
    method LoadParameters(file: TextFile, opens: bool, closes: bool) returns (ret: bool)
      requires Valid()
      modifies this, file`text, hdst, ho, href, hbase
      ensures ret == (opens && closes && ReadParams(old(file.text), hdst.Length).Good?)
      ensures opens && ReadParams(old(file.text), hdst.Length).Good? ==>
        ReadParams(old(file.text), hdst.Length) == Good(Value(), file.text)
    {
      hide ReadForm;
      hide ReadVec16;
      if !opens {
        return false;
      }
      ghost var s := file.text;
      ghost var n := hdst.Length;
      ret := true;
      var i := 0;
      while i < hdst.Length
        invariant 0 <= i <= hdst.Length
        invariant ret ==> ReadForms(file.text, Forms(i), n) == ReadForms(s, [], n)
        invariant !ret ==> ReadForms(s, [], n).Bad?
      {
        ghost var done := Forms(i);
        ret := LoadFormation(file, i, ret);
        assert done == Forms(i);
        i := i + 1;
      }
      if ret {
        ret, ao := LoadVec16(file, "AO");
      }
      if !closes {
        ret := false;
      }
    }
  }

  /** Saving into a file and loading it into fresh parameters restores every value. */
  method SaveAndLoad(prms: AkscPrms, other: AkscPrms, file: TextFile) returns (saved: bool, loaded: bool)
    requires prms.Valid() && other.Valid() && Savable(prms.Value()) && other.hdst.Length == prms.hdst.Length
    requires {other.hdst as object, other.ho, other.href, other.hbase, other}
          !! {prms.hdst as object, prms.ho, prms.href, prms.hbase, prms}
    modifies file, other, other.hdst, other.ho, other.href, other.hbase
    ensures saved ==> loaded && other.Value() == old(prms.Value()) == prms.Value()
  {
    hide ReadParams;
    hide Printed;
    ghost var value := prms.Value();
    saved := prms.SaveParameters(file, true, true, true);
    assert prms.Value() == value;
    RoundTrip(value);
    loaded := other.LoadParameters(file, true, true);
  }
}
