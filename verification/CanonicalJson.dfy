/**
 * Canonical JSON: the audit chain's printer, the knowledge plane's re-implementation of it,
 * and a parser for the grammar of sections 2 to 7 of RFC 8259.
 *
 * A value is a tree. Numbers carry the text ECMAScript prints them with; strings are Unicode
 * scalar values.
 */
module CanonicalJson {
  import opened Prelude

  datatype Value =
    | Null
    | Undefined
    | NonFinite
    | Bool(b: bool)
    | Num(lexeme: string)
    | Str(s: string)
    | Arr(items: Values)
    | Obj(members: Members)

  datatype Values = VNil | VCons(head: Value, tail: Values)

  datatype Members = MNil | MCons(key: string, value: Value, rest: Members)

  /**
   * What becomes of a number that is read: the text the double nearest to it is printed with, or
   * None if it overflows to an infinity. "1.0", "1" and "1e0" all give "1".
   */
  type Numbers = string -> Option<string>

  /** Printing is settled: the text of a number that was read is read as itself. */
  ghost predicate Settles(num: Numbers) {
    forall x {:trigger num(x)} :: IsNumber(x) && num(x).Some? ==> IsNumber(num(x).value) && num(num(x).value) == num(x)
  }

  // ---------------------------------------------------------------------------
  // Keys
  // ---------------------------------------------------------------------------

  /** Which of the two printers: they order index-like keys and treat undefined members differently. */
  datatype Printer = Audit | Knowledge

  predicate StrLe(a: string, b: string) {
    a == "" || (b != "" && (a[0] < b[0] || (a[0] == b[0] && StrLe(a[1..], b[1..]))))
  }

  predicate AllDigits(s: string) {
    forall i :: 0 <= i < |s| ==> '0' <= s[i] <= '9'
  }

  /** An ECMAScript array index, 0 to 2^32 - 2 in canonical decimal. */
  predicate IsIndexKey(k: string) {
    && k != "" && AllDigits(k) && (k[0] == '0' ==> |k| == 1)
    && (|k| < 10 || (|k| == 10 && StrLe(k, "4294967294")))
  }

  /**
   * The order in which a printer lists keys. The audit printer re-inserts sorted keys into a
   * fresh object, and an object lists its index-like keys first, by value.
   */
  predicate KeyLe(p: Printer, a: string, b: string) {
    if p == Audit && (IsIndexKey(a) || IsIndexKey(b))
    then IsIndexKey(a) && (IsIndexKey(b) ==> |a| < |b| || (|a| == |b| && StrLe(a, b)))
    else StrLe(a, b)
  }

  lemma {:induction false} StrOrder(a: string, b: string, c: string)
    ensures StrLe(a, b) || StrLe(b, a)
    ensures StrLe(a, b) && StrLe(b, a) ==> a == b
    ensures StrLe(a, b) && StrLe(b, c) ==> StrLe(a, c)
  {
    if a != "" && b != "" && a[0] == b[0] {
      StrOrder(a[1..], b[1..], if c != "" then c[1..] else "");
      assert a == [a[0]] + a[1..] && b == [b[0]] + b[1..];
    }
  }

  /** Text order: a prefix first, and otherwise the smaller character where the two first differ. */
  ghost predicate DiffersUp(a: string, b: string, i: int) {
    0 <= i < |a| && i < |b| && a[..i] == b[..i] && a[i] < b[i]
  }

  lemma {:induction false} TextOrderIsLexicographic(a: string, b: string)
    ensures StrLe(a, b) <==> a <= b || exists i :: DiffersUp(a, b, i)
  {
    if a != "" && b != "" && a[0] == b[0] {
      TextOrderIsLexicographic(a[1..], b[1..]);
      assert a == [a[0]] + a[1..] && b == [b[0]] + b[1..];
      if i :| DiffersUp(a[1..], b[1..], i) {
        assert a[..i + 1] == [a[0]] + a[1..][..i] && b[..i + 1] == [b[0]] + b[1..][..i];
        assert DiffersUp(a, b, i + 1);
      }
      if i :| DiffersUp(a, b, i) {
        assert a[1..][..i - 1] == a[..i][1..] && b[1..][..i - 1] == b[..i][1..];
        assert DiffersUp(a[1..], b[1..], i - 1);
      }
    } else if a != "" && b != "" {
      assert a[..0] == b[..0];
      assert StrLe(a, b) ==> DiffersUp(a, b, 0);
    }
  }

  function Pow10(n: nat): nat {
    if n == 0 then 1 else 10 * Pow10(n - 1)
  }

  /** The number a string of digits writes. */
  function NatOf(s: string): nat
    requires AllDigits(s)
  {
    if s == "" then 0 else (s[0] as int - '0' as int) * Pow10(|s| - 1) + NatOf(s[1..])
  }

  lemma {:induction false} DigitShare(d: int, e: int, p: int)
    requires 0 <= d < e && p >= 1
    ensures d * p + p <= e * p
  {
    MulGrows(e - d, p);
    assert e * p == d * p + (e - d) * p;
  }

  lemma {:induction false} MulGrows(n: int, p: int)
    requires n >= 1 && p >= 1
    ensures n * p >= p
    decreases n
  {
    if n > 1 {
      MulGrows(n - 1, p);
      assert n * p == (n - 1) * p + p;
    }
  }

  lemma {:induction false} NatIsBounded(s: string)
    requires AllDigits(s)
    ensures NatOf(s) < Pow10(|s|)
    ensures s != "" && s[0] != '0' ==> NatOf(s) >= Pow10(|s| - 1)
  {
    if s != "" {
      NatIsBounded(s[1..]);
      DigitShare(s[0] as int - '0' as int, 10, Pow10(|s| - 1));
      if s[0] != '0' {
        DigitShare(0, s[0] as int - '0' as int, Pow10(|s| - 1));
      }
    }
  }

  lemma {:induction false} PowGrows(m: nat, n: nat)
    requires m <= n
    ensures 1 <= Pow10(m) <= Pow10(n)
    decreases n
  {
    if m < n {
      PowGrows(m, n - 1);
    } else if n > 0 {
      PowGrows(0, n - 1);
    }
  }

  /** Numbers of equally many digits are ordered as their texts are. */
  lemma {:induction false} EqualLengthOrder(a: string, b: string)
    requires AllDigits(a) && AllDigits(b) && |a| == |b|
    ensures StrLe(a, b) <==> NatOf(a) <= NatOf(b)
  {
    if a != "" {
      EqualLengthOrder(a[1..], b[1..]);
      NatIsBounded(a[1..]);
      NatIsBounded(b[1..]);
      PowGrows(0, |a| - 1);
      var d, e := a[0] as int - '0' as int, b[0] as int - '0' as int;
      if d < e {
        DigitShare(d, e, Pow10(|a| - 1));
      } else if e < d {
        DigitShare(e, d, Pow10(|a| - 1));
      }
    }
  }

  /** The audit printer's index-like keys come in the order of the numbers they write. */
  lemma {:induction false} IndexOrderIsNumeric(a: string, b: string)
    requires IsIndexKey(a) && IsIndexKey(b)
    ensures KeyLe(Audit, a, b) <==> NatOf(a) <= NatOf(b)
  {
    hide NatOf, StrLe;
    if |a| == |b| {
      EqualLengthOrder(a, b);
    } else if |a| < |b| {
      ShorterIsLess(a, b);
    } else {
      ShorterIsLess(b, a);
    }
  }

  lemma {:induction false} ShorterIsLess(a: string, b: string)
    requires AllDigits(a) && AllDigits(b) && |a| < |b| && b[0] != '0'
    ensures NatOf(a) < NatOf(b)
  {
    NatIsBounded(a);
    NatIsBounded(b);
    PowGrows(|a|, |b| - 1);
  }

  /** Index-like keys are the decimal numerals, without leading zeros, of the numbers up to 2^32 - 2. */
  lemma {:induction false} IndexKeyIsExact(k: string)
    requires k != "" && AllDigits(k) && (k[0] == '0' ==> |k| == 1)
    ensures IsIndexKey(k) <==> NatOf(k) <= 4_294_967_294
  {
    hide NatOf, StrLe;
    LargestIndex();
    if |k| == 10 {
      EqualLengthOrder(k, "4294967294");
    } else if |k| < 10 {
      ShorterIsLess(k, "4294967294");
    } else {
      ShorterIsLess("4294967294", k);
    }
  }

  lemma {:induction false} NatCons(c: char, digits: string)
    requires '0' <= c <= '9' && AllDigits(digits)
    ensures NatOf([c] + digits) == (c as int - '0' as int) * Pow10(|digits|) + NatOf(digits)
  {
    assert ([c] + digits)[1..] == digits;
  }

  lemma {:induction false} LargestIndex()
    ensures NatOf("4294967294") == 4_294_967_294
  {
    hide NatOf, Pow10;
    PowersOfTen();
    LastFive();
    NatCons('9', "67294");
    NatCons('4', "967294");
    NatCons('9', "4967294");
    NatCons('2', "94967294");
    NatCons('4', "294967294");
    assert "9" + "67294" == "967294" && "4" + "967294" == "4967294" && "9" + "4967294" == "94967294";
    assert "2" + "94967294" == "294967294" && "4" + "294967294" == "4294967294";
  }

  lemma {:induction false} LastFive()
    ensures NatOf("67294") == 67_294
  {
    hide NatOf, Pow10;
    EmptyIsZero();
    PowersOfTen();
    NatCons('4', "");
    NatCons('9', "4");
    NatCons('2', "94");
    NatCons('7', "294");
    NatCons('6', "7294");
    assert "4" + "" == "4" && "9" + "4" == "94" && "2" + "94" == "294";
    assert "7" + "294" == "7294" && "6" + "7294" == "67294";
  }

  lemma {:induction false} EmptyIsZero()
    ensures NatOf("") == 0
  {
  }

  lemma {:induction false} PowersOfTen()
    ensures Pow10(0) == 1 && Pow10(1) == 10 && Pow10(2) == 100 && Pow10(3) == 1_000 && Pow10(4) == 10_000
    ensures Pow10(5) == 100_000 && Pow10(6) == 1_000_000 && Pow10(7) == 10_000_000 && Pow10(8) == 100_000_000
    ensures Pow10(9) == 1_000_000_000
  {
  }

  lemma {:induction false} KeyOrder(p: Printer, a: string, b: string, c: string)
    ensures KeyLe(p, a, b) || KeyLe(p, b, a)
    ensures KeyLe(p, a, b) && KeyLe(p, b, a) ==> a == b
    ensures KeyLe(p, a, b) && KeyLe(p, b, c) ==> KeyLe(p, a, c)
  {
    StrOrder(a, b, c);
  }

  // ---------------------------------------------------------------------------
  // Members as a finite map
  // ---------------------------------------------------------------------------

  function Look(ms: Members, k: string): (r: Option<Value>)
    ensures r.Some? ==> r.value < ms
  {
    match ms
    case MNil => None
    case MCons(key, v, rest) => if key == k then Some(v) else Look(rest, k)
  }

  predicate Has(ms: Members, k: string) {
    Look(ms, k).Some?
  }

  /** Keys are distinct, as they are in any object. */
  predicate Distinct(ms: Members) {
    match ms
    case MNil => true
    case MCons(key, _, rest) => !Has(rest, key) && Distinct(rest)
  }

  /** Assigning to this key of a plain object sets its prototype and creates no member. */
  const PROTO := "__proto__"

  /**
   * The printer keeps this member. The audit printer drops undefined ones, and loses one keyed
   * `__proto__` by assigning it to a fresh object; the knowledge printer reads members in place.
   */
  predicate Kept(p: Printer, k: string, v: Value) {
    p == Knowledge || (v != Undefined && k != PROTO)
  }

  // ---------------------------------------------------------------------------
  // Walk: key-sorted, defined values
  // ---------------------------------------------------------------------------

  function Insert(p: Printer, k: string, v: Value, ms: Members): Members {
    match ms
    case MNil => MCons(k, v, MNil)
    case MCons(key, w, rest) =>
      if KeyLe(p, k, key) then MCons(k, v, ms) else MCons(key, w, Insert(p, k, v, rest))
  }

  function Walk(p: Printer, v: Value): Value {
    match v
    case Undefined => Null
    case NonFinite => Null
    case Arr(xs) => Arr(WalkItems(p, xs))
    case Obj(ms) => Obj(WalkMembers(p, ms))
    case _ => v
  }

  function WalkItems(p: Printer, xs: Values): Values {
    match xs
    case VNil => VNil
    case VCons(x, rest) => VCons(Walk(p, x), WalkItems(p, rest))
  }

  function WalkMembers(p: Printer, ms: Members): Members {
    match ms
    case MNil => MNil
    case MCons(k, v, rest) =>
      if Kept(p, k, v) then Insert(p, k, Walk(p, v), WalkMembers(p, rest)) else WalkMembers(p, rest)
  }

  // ---------------------------------------------------------------------------
  // Printing
  // ---------------------------------------------------------------------------

  function HexDigit(n: int): char
    requires 0 <= n < 16
  {
    "0123456789abcdef"[n]
  }

  /** The escapes of `JSON.stringify`. */
  function Escape(c: char): string {
    if c == '\"' then "\\\""
    else if c == '\\' then "\\\\"
    else if c == '\U{8}' then "\\b"
    else if c == '\U{C}' then "\\f"
    else if c == '\n' then "\\n"
    else if c == '\r' then "\\r"
    else if c == '\t' then "\\t"
    else if c < ' ' then ['\\', 'u', '0', '0', HexDigit(c as int / 16), HexDigit(c as int % 16)]
    else [c]
  }

  function Escaped(s: string): string {
    if s == "" then "" else Escape(s[0]) + Escaped(s[1..])
  }

  function Quote(s: string): string {
    "\"" + Escaped(s) + "\""
  }

  function Print(v: Value): string {
    match v
    case Bool(b) => if b then "true" else "false"
    case Num(lexeme) => lexeme
    case Str(s) => Quote(s)
    case Arr(xs) => "[" + PrintItems(xs) + "]"
    case Obj(ms) => "{" + PrintMembers(ms) + "}"
    case _ => "null"
  }

  function PrintItems(xs: Values): string {
    match xs
    case VNil => ""
    case VCons(x, VNil) => Print(x)
    case VCons(x, rest) => Print(x) + "," + PrintItems(rest)
  }

  function PrintMembers(ms: Members): string {
    match ms
    case MNil => ""
    case MCons(k, v, MNil) => Quote(k) + ":" + Print(v)
    case MCons(k, v, rest) => Quote(k) + ":" + Print(v) + "," + PrintMembers(rest)
  }

  function CanonicalStringify(p: Printer, v: Value): string {
    Print(Walk(p, v))
  }

  const LIST := Arr(VCons(Bool(true), VCons(Null, VNil)))
  const SAMPLE := Obj(MCons("10", Bool(true), MCons("9", Null, MNil)))

  /** The two canonical texts of {"10":true,"9":null}: the audit one lists 9 before 10. */
  lemma {:induction false} CanonicalSample()
    ensures CanonicalStringify(Audit, SAMPLE) == "{\"9\":null,\"10\":true}"
    ensures CanonicalStringify(Knowledge, SAMPLE) == "{\"10\":true,\"9\":null}"
    ensures CanonicalStringify(Audit, LIST) == CanonicalStringify(Knowledge, LIST) == "[true,null]"
  {
    hide Walk, Print;
    SampleWalks();
    PrintsAudit();
    PrintsKnowledge();
    PrintsList();
  }

  lemma {:induction false} PrintsList()
    ensures Print(LIST) == "[true,null]"
  {
  }

  lemma {:induction false} PrintsAudit()
    ensures Print(Obj(MCons("9", Null, MCons("10", Bool(true), MNil)))) == "{\"9\":null,\"10\":true}"
  {
    hide Quote;
    SampleQuotes();
    assert PrintMembers(MCons("10", Bool(true), MNil)) == "\"10\":true";
  }

  lemma {:induction false} PrintsKnowledge()
    ensures Print(SAMPLE) == "{\"10\":true,\"9\":null}"
  {
    hide Quote;
    SampleQuotes();
    assert PrintMembers(MCons("9", Null, MNil)) == "\"9\":null";
  }

  lemma {:induction false} SampleQuotes()
    ensures Quote("9") == "\"9\"" && Quote("10") == "\"10\""
  {
    assert "10"[1..] == "0" && "9"[1..] == "" && "0"[1..] == "";
    assert Escaped("0") == "0";
  }

  lemma {:induction false} SampleWalks()
    ensures Walk(Audit, SAMPLE) == Obj(MCons("9", Null, MCons("10", Bool(true), MNil)))
    ensures Walk(Knowledge, SAMPLE) == SAMPLE
    ensures Walk(Audit, LIST) == Walk(Knowledge, LIST) == LIST
  {
    assert IsIndexKey("9") && IsIndexKey("10") && StrLe("10", "9") && !StrLe("9", "10");
    assert WalkMembers(Audit, MCons("9", Null, MNil)) == MCons("9", Null, MNil);
    assert WalkMembers(Knowledge, MCons("9", Null, MNil)) == MCons("9", Null, MNil);
  }

  // ---------------------------------------------------------------------------
  // Number lexemes, section 6 of RFC 8259
  // ---------------------------------------------------------------------------

  datatype NumState = Start | Sign | Zero | Int | Point | Frac | Exp | ExpSign | ExpInt | Bad

  predicate NumChar(c: char) {
    '0' <= c <= '9' || c in "-+.eE"
  }

  function NumStep(st: NumState, c: char): NumState {
    if '0' <= c <= '9' then
      match st
      case Start => if c == '0' then Zero else Int
      case Sign => if c == '0' then Zero else Int
      case Int => Int
      case Point => Frac
      case Frac => Frac
      case Exp => ExpInt
      case ExpSign => ExpInt
      case ExpInt => ExpInt
      case _ => Bad
    else if c == '-' then (if st == Start then Sign else if st == Exp then ExpSign else Bad)
    else if c == '+' then (if st == Exp then ExpSign else Bad)
    else if c == '.' then (if st == Zero || st == Int then Point else Bad)
    else if c == 'e' || c == 'E' then (if st == Zero || st == Int || st == Frac then Exp else Bad)
    else Bad
  }

  function NumRun(st: NumState, s: string): NumState
    decreases |s|
  {
    if s == "" then st else NumRun(NumStep(st, s[0]), s[1..])
  }

  predicate IsNumber(s: string) {
    NumRun(Start, s) in {Zero, Int, Frac, ExpInt}
  }

  lemma {:induction false} BadStays(s: string)
    ensures NumRun(Bad, s) == Bad
  {
    if s != "" {
      BadStays(s[1..]);
    }
  }

  lemma {:induction false} NumbersAreNumChars(st: NumState, s: string)
    requires NumRun(st, s) != Bad
    decreases |s|
    ensures forall i :: 0 <= i < |s| ==> NumChar(s[i])
  {
    if s != "" {
      if !NumChar(s[0]) {
        BadStays(s[1..]);
      }
      NumbersAreNumChars(NumStep(st, s[0]), s[1..]);
      assert forall i :: 0 < i < |s| ==> s[i] == s[1..][i - 1];
    }
  }

  // ---------------------------------------------------------------------------
  // Parsing
  // ---------------------------------------------------------------------------

  predicate IsWs(c: char) {
    c == ' ' || c == '\t' || c == '\n' || c == '\r'
  }

  function SkipWs(s: string): (r: string)
    ensures |r| <= |s|
    ensures s != "" && !IsWs(s[0]) ==> r == s
  {
    if s != "" && IsWs(s[0]) then SkipWs(s[1..]) else s
  }

  function HexValue(c: char): Option<int> {
    if '0' <= c <= '9' then Some(c as int - '0' as int)
    else if 'a' <= c <= 'f' then Some(c as int - 'a' as int + 10)
    else if 'A' <= c <= 'F' then Some(c as int - 'A' as int + 10)
    else None
  }

  /** One character of a string literal, escaped or not, and what follows it. */
  function ParseChar(s: string): (r: Option<(char, string)>)
    ensures r.Some? ==> |r.value.1| < |s|
  {
    if s == "" || s[0] < ' ' || s[0] == '\"' then None
    else if s[0] != '\\' then Some((s[0], s[1..]))
    else if |s| < 2 then None
    else if s[1] == '\"' || s[1] == '\\' || s[1] == '/' then Some((s[1], s[2..]))
    else if s[1] == 'b' then Some(('\U{8}', s[2..]))
    else if s[1] == 'f' then Some(('\U{C}', s[2..]))
    else if s[1] == 'n' then Some(('\n', s[2..]))
    else if s[1] == 'r' then Some(('\r', s[2..]))
    else if s[1] == 't' then Some(('\t', s[2..]))
    else if s[1] == 'u' && |s| >= 6 then
      match (HexValue(s[2]), HexValue(s[3]), HexValue(s[4]), HexValue(s[5]))
      case (Some(a), Some(b), Some(c), Some(d)) =>
        var n := ((a * 16 + b) * 16 + c) * 16 + d;
        if 0 <= n < 0xD800 || 0xE000 <= n < 0x11_0000 then Some((n as char, s[6..])) else None
      case _ => None
    else None
  }

  /** The rest of a string literal, after its opening quote. */
  function ParseStr(s: string): (r: Option<(string, string)>)
    ensures r.Some? ==> |r.value.1| < |s|
    decreases |s|
  {
    if s != "" && s[0] == '\"' then Some(("", s[1..]))
    else
      match ParseChar(s)
      case None => None
      case Some((c, rest)) =>
        match ParseStr(rest)
        case None => None
        case Some((t, rest')) => Some(([c] + t, rest'))
  }

  function NumSpan(s: string): (n: nat)
    ensures n <= |s|
  {
    if s != "" && NumChar(s[0]) then 1 + NumSpan(s[1..]) else 0
  }

  function ParseLiteral(s: string, word: string, v: Value): Option<(Value, string)> {
    if |word| <= |s| && s[..|word|] == word then Some((v, s[|word|..])) else None
  }

  /** A repeated key keeps its first place and takes its last value. */
  function Join(k: string, v: Value, ms: Members): Members {
    if Has(ms, k) then MCons(k, Look(ms, k).value, Without(ms, k)) else MCons(k, v, ms)
  }

  function Without(ms: Members, k: string): Members {
    match ms
    case MNil => MNil
    case MCons(key, v, rest) => if key == k then Without(rest, k) else MCons(key, v, Without(rest, k))
  }

  function NumberOf(num: Numbers, lexeme: string): Value {
    match num(lexeme)
    case None => NonFinite
    case Some(printed) => Num(printed)
  }

  function ParseValue(num: Numbers, text: string): (r: Option<(Value, string)>)
    ensures r.Some? ==> |r.value.1| < |text|
    decreases |text|, 0
  {
    var s := SkipWs(text);
    if s == "" then None
    else if s[0] == 'n' then ParseLiteral(s, "null", Null)
    else if s[0] == 't' then ParseLiteral(s, "true", Bool(true))
    else if s[0] == 'f' then ParseLiteral(s, "false", Bool(false))
    else if s[0] == '\"' then
      match ParseStr(s[1..])
      case None => None
      case Some((t, rest)) => Some((Str(t), rest))
    else if s[0] == '[' then
      var s1 := SkipWs(s[1..]);
      if s1 != "" && s1[0] == ']' then Some((Arr(VNil), s1[1..]))
      else
        match ParseItems(num, s1)
        case None => None
        case Some((xs, rest)) => Some((Arr(xs), rest))
    else if s[0] == '{' then
      var s1 := SkipWs(s[1..]);
      if s1 != "" && s1[0] == '}' then Some((Obj(MNil), s1[1..]))
      else
        match ParseMembers(num, s1)
        case None => None
        case Some((ms, rest)) => Some((Obj(ms), rest))
    else
      var n := NumSpan(s);
      if IsNumber(s[..n]) then Some((NumberOf(num, s[..n]), s[n..])) else None
  }

  /** One or more items and the closing bracket. */
  function ParseItems(num: Numbers, text: string): (r: Option<(Values, string)>)
    ensures r.Some? ==> |r.value.1| < |text|
    decreases |text|, 1
  {
    match ParseValue(num, text)
    case None => None
    case Some((x, rest)) =>
      var s := SkipWs(rest);
      if s == "" then None
      else if s[0] == ']' then Some((VCons(x, VNil), s[1..]))
      else if s[0] == ',' then
        match ParseItems(num, s[1..])
        case None => None
        case Some((xs, rest')) => Some((VCons(x, xs), rest'))
      else None
  }

  /** A key, a colon and a value. */
  function ParseMember(num: Numbers, text: string): (r: Option<(string, Value, string)>)
    ensures r.Some? ==> |r.value.2| < |text|
    decreases |text|, 1
  {
    var s := SkipWs(text);
    if s == "" || s[0] != '\"' then None
    else
      match ParseStr(s[1..])
      case None => None
      case Some((k, afterKey)) =>
        var s1 := SkipWs(afterKey);
        if s1 == "" || s1[0] != ':' then None
        else
          match ParseValue(num, s1[1..])
          case None => None
          case Some((v, rest)) => Some((k, v, rest))
  }

  /** One or more members and the closing brace. */
  function ParseMembers(num: Numbers, text: string): (r: Option<(Members, string)>)
    ensures r.Some? ==> |r.value.1| < |text|
    decreases |text|, 2
  {
    match ParseMember(num, text)
    case None => None
    case Some((k, v, afterValue)) =>
      var s := SkipWs(afterValue);
      if s == "" then None
      else if s[0] == '}' then Some((MCons(k, v, MNil), s[1..]))
      else if s[0] == ',' then
        match ParseMembers(num, s[1..])
        case None => None
        case Some((ms, rest)) => Some((Join(k, v, ms), rest))
      else None
  }

  /** `JSON.parse`. */
  function Parse(num: Numbers, text: string): Option<Value> {
    match ParseValue(num, text)
    case None => None
    case Some((v, rest)) => if SkipWs(rest) == "" then Some(v) else None
  }

  // ---------------------------------------------------------------------------
  // Well-formed and proper trees
  // ---------------------------------------------------------------------------

  /** A tree the program can hold: number texts are those numbers are printed with, keys are distinct. */
  predicate WellFormed(num: Numbers, v: Value) {
    match v
    case Num(lexeme) => IsNumber(lexeme) && num(lexeme) == Some(lexeme)
    case Arr(xs) => WellFormedItems(num, xs)
    case Obj(ms) => Distinct(ms) && WellFormedMembers(num, ms)
    case _ => true
  }

  predicate WellFormedItems(num: Numbers, xs: Values) {
    match xs
    case VNil => true
    case VCons(x, rest) => WellFormed(num, x) && WellFormedItems(num, rest)
  }

  predicate WellFormedMembers(num: Numbers, ms: Members) {
    match ms
    case MNil => true
    case MCons(_, v, rest) => WellFormed(num, v) && WellFormedMembers(num, rest)
  }

  /** JSON proper: nothing undefined, nothing non-finite. */
  predicate Json(v: Value) {
    match v
    case Undefined => false
    case NonFinite => false
    case Arr(xs) => JsonItems(xs)
    case Obj(ms) => JsonMembers(ms)
    case _ => true
  }

  predicate JsonItems(xs: Values) {
    match xs
    case VNil => true
    case VCons(x, rest) => Json(x) && JsonItems(rest)
  }

  predicate JsonMembers(ms: Members) {
    match ms
    case MNil => true
    case MCons(_, v, rest) => Json(v) && JsonMembers(rest)
  }

  /** A tree as a file may write it: numbers in any notation. */
  predicate Raw(v: Value) {
    match v
    case Num(lexeme) => IsNumber(lexeme)
    case Arr(xs) => RawItems(xs)
    case Obj(ms) => Distinct(ms) && RawMembers(ms)
    case _ => true
  }

  predicate RawItems(xs: Values) {
    match xs
    case VNil => true
    case VCons(x, rest) => Raw(x) && RawItems(rest)
  }

  predicate RawMembers(ms: Members) {
    match ms
    case MNil => true
    case MCons(_, v, rest) => Raw(v) && RawMembers(rest)
  }

  /** The tree as the program holds it, each number read. */
  function Read(num: Numbers, v: Value): Value {
    match v
    case Num(lexeme) => NumberOf(num, lexeme)
    case Arr(xs) => Arr(ReadItems(num, xs))
    case Obj(ms) => Obj(ReadMembers(num, ms))
    case _ => v
  }

  function ReadItems(num: Numbers, xs: Values): Values {
    match xs
    case VNil => VNil
    case VCons(x, rest) => VCons(Read(num, x), ReadItems(num, rest))
  }

  function ReadMembers(num: Numbers, ms: Members): Members {
    match ms
    case MNil => MNil
    case MCons(k, v, rest) => MCons(k, Read(num, v), ReadMembers(num, rest))
  }

  lemma {:induction false} ReadKeepsKeys(num: Numbers, ms: Members, k: string)
    ensures Has(ReadMembers(num, ms), k) <==> Has(ms, k)
  {
    if ms.MCons? && ms.key != k {
      ReadKeepsKeys(num, ms.rest, k);
    }
  }

  /** A tree the program can hold reads as itself. */
  lemma {:induction false} HeldReadsAsItself(num: Numbers, v: Value)
    requires WellFormed(num, v)
    ensures Raw(v) && Read(num, v) == v
    decreases v, 1
  {
    match v {
      case Arr(xs) => HeldItemsReadAsThemselves(num, xs);
      case Obj(ms) => HeldMembersReadAsThemselves(num, ms);
      case _ =>
    }
  }

  lemma {:induction false} HeldItemsReadAsThemselves(num: Numbers, xs: Values)
    requires WellFormedItems(num, xs)
    ensures RawItems(xs) && ReadItems(num, xs) == xs
    decreases xs, 0
  {
    if xs.VCons? {
      HeldReadsAsItself(num, xs.head);
      HeldItemsReadAsThemselves(num, xs.tail);
    }
  }

  lemma {:induction false} HeldMembersReadAsThemselves(num: Numbers, ms: Members)
    requires WellFormedMembers(num, ms)
    ensures RawMembers(ms) && ReadMembers(num, ms) == ms
    decreases ms, 0
  {
    if ms.MCons? {
      HeldReadsAsItself(num, ms.value);
      HeldMembersReadAsThemselves(num, ms.rest);
    }
  }

  // ---------------------------------------------------------------------------
  // Printing a JSON tree and parsing the text gives the tree back
  // ---------------------------------------------------------------------------

  lemma {:induction false} HexRoundTrip(n: int)
    requires 0 <= n < 16
    ensures HexValue(HexDigit(n)) == Some(n) && HexValue('0') == Some(0)
  {
  }

  lemma {:induction false} EscapeParses(c: char, rest: string)
    ensures ParseChar(Escape(c) + rest) == Some((c, rest))
    ensures Escape(c) != "" && Escape(c)[0] != '\"'
  {
    hide HexDigit, HexValue;
    var e := Escape(c);
    assert (e + rest)[|e|..] == rest;
    if c < ' ' {
      HexRoundTrip(c as int / 16);
      HexRoundTrip(c as int % 16);
    }
  }

  lemma {:induction false} QuoteParses(s: string, rest: string)
    ensures ParseStr(Escaped(s) + "\"" + rest) == Some((s, rest))
  {
    hide Escape, ParseChar;
    if s == "" {
      assert "" + "\"" + rest == "\"" + rest;
    } else {
      var tail := Escaped(s[1..]) + "\"" + rest;
      assert Escaped(s) + "\"" + rest == Escape(s[0]) + tail;
      EscapeParses(s[0], tail);
      QuoteParses(s[1..], rest);
      assert [s[0]] + s[1..] == s;
    }
  }

  /** A number must not run on into what follows it. */
  predicate Stops(rest: string) {
    rest == "" || !NumChar(rest[0])
  }

  lemma {:induction false} SpanStops(lexeme: string, rest: string)
    requires forall i :: 0 <= i < |lexeme| ==> NumChar(lexeme[i])
    requires Stops(rest)
    ensures NumSpan(lexeme + rest) == |lexeme|
  {
    if lexeme == "" {
      assert lexeme + rest == rest;
    } else {
      assert (lexeme + rest)[1..] == lexeme[1..] + rest;
      SpanStops(lexeme[1..], rest);
    }
  }

  lemma {:induction false} NumberParses(num: Numbers, lexeme: string, rest: string)
    requires IsNumber(lexeme) && Stops(rest)
    ensures ParseValue(num, lexeme + rest) == Some((NumberOf(num, lexeme), rest))
  {
    hide ParseStr, ParseItems, ParseMembers;
    NumbersAreNumChars(Start, lexeme);
    SpanStops(lexeme, rest);
    var s := lexeme + rest;
    assert s[0] == lexeme[0] && NumChar(s[0]);
    assert s[..|lexeme|] == lexeme && s[|lexeme|..] == rest;
  }

  lemma {:induction false} StringParses(num: Numbers, t: string, rest: string)
    ensures ParseValue(num, Quote(t) + rest) == Some((Str(t), rest))
  {
    hide ParseStr, Escaped, ParseItems, ParseMembers, ParseLiteral, NumSpan, IsNumber;
    QuoteParses(t, rest);
    assert (Quote(t) + rest)[1..] == Escaped(t) + "\"" + rest;
  }

  lemma {:induction false} WordParses(num: Numbers, word: string, v: Value, rest: string)
    requires (word == "null" && v == Null) || (word == "true" && v == Bool(true))
          || (word == "false" && v == Bool(false))
    ensures ParseValue(num, word + rest) == Some((v, rest))
  {
    var s := word + rest;
    assert s[..|word|] == word && s[|word|..] == rest;
  }

  /** Printed text starts with a character that is neither white space nor a closing bracket. */
  lemma {:induction false} PrintStarts(v: Value)
    requires Raw(v)
    ensures Print(v) != "" && !IsWs(Print(v)[0]) && Print(v)[0] != ']'
  {
    if v.Num? {
      NumbersAreNumChars(Start, v.lexeme);
    }
  }

  lemma {:induction false} PrintParses(num: Numbers, v: Value, rest: string)
    requires Raw(v) && Json(v) && Stops(rest)
    ensures ParseValue(num, Print(v) + rest) == Some((Read(num, v), rest))
    decreases v, 0
  {
    match v {
      case Null => WordParses(num, "null", v, rest);
      case Bool(b) => WordParses(num, if b then "true" else "false", v, rest);
      case Num(lexeme) => NumberParses(num, lexeme, rest);
      case Str(t) => StringParses(num, t, rest);
      case Arr(xs) => ArrayParses(num, xs, rest);
      case Obj(ms) => ObjectParses(num, ms, rest);
      case Undefined =>
      case NonFinite =>
    }
  }

  lemma {:induction false} DropFirst(open: string, body: string, close: string, rest: string)
    requires |open| == 1
    ensures (open + body + close + rest)[1..] == body + close + rest
    ensures (open + body + close + rest)[0] == open[0]
    ensures body != "" ==> (body + close + rest)[0] == body[0]
    ensures body == "" && close != "" ==>
      (body + close + rest)[0] == close[0] && (body + close + rest)[|close|..] == rest
  {
  }

  lemma {:induction false} ArrayParses(num: Numbers, xs: Values, rest: string)
    requires RawItems(xs) && JsonItems(xs)
    ensures ParseValue(num, "[" + PrintItems(xs) + "]" + rest) == Some((Arr(ReadItems(num, xs)), rest))
    decreases xs, 2
  {
    DropFirst("[", PrintItems(xs), "]", rest);
    if xs.VCons? {
      PrintStarts(xs.head);
      assert PrintItems(xs)[0] == Print(xs.head)[0];
      ItemsParse(num, xs, rest);
    }
  }

  lemma {:induction false} ItemsParse(num: Numbers, xs: Values, rest: string)
    requires xs.VCons? && RawItems(xs) && JsonItems(xs)
    ensures ParseItems(num, PrintItems(xs) + "]" + rest) == Some((ReadItems(num, xs), rest))
    decreases xs, 1
  {
    hide ParseValue, Print;
    if xs.tail == VNil {
      PrintParses(num, xs.head, "]" + rest);
      assert PrintItems(xs) + "]" + rest == Print(xs.head) + ("]" + rest);
    } else {
      var tail := PrintItems(xs.tail) + "]" + rest;
      PrintParses(num, xs.head, "," + tail);
      assert PrintItems(xs) + "]" + rest == Print(xs.head) + ("," + tail);
      ItemsParse(num, xs.tail, rest);
      assert ("," + tail)[1..] == tail;
    }
  }

  lemma {:induction false} ObjectParses(num: Numbers, ms: Members, rest: string)
    requires Distinct(ms) && RawMembers(ms) && JsonMembers(ms)
    ensures ParseValue(num, "{" + PrintMembers(ms) + "}" + rest) == Some((Obj(ReadMembers(num, ms)), rest))
    decreases ms, 2
  {
    hide ParseItems, ParseMembers, ParseStr, ParseLiteral, NumSpan, IsNumber, Print;
    DropFirst("{", PrintMembers(ms), "}", rest);
    if ms.MCons? {
      assert PrintMembers(ms)[0] == '\"';
      MembersParse(num, ms, rest);
    }
  }

  lemma {:induction false} MemberParses(num: Numbers, k: string, v: Value, rest: string)
    requires Raw(v) && Json(v) && Stops(rest)
    ensures ParseMember(num, Quote(k) + ":" + Print(v) + rest) == Some((k, Read(num, v), rest))
    decreases v, 1
  {
    MemberText(Escaped(k), Print(v), rest);
    QuoteParses(k, ":" + (Print(v) + rest));
    PrintParses(num, v, rest);
  }

  lemma {:induction false} MemberText(key: string, value: string, rest: string)
    ensures var s := ("\"" + key + "\"") + ":" + value + rest;
      s[0] == '\"' && s[1..] == key + "\"" + (":" + (value + rest))
    ensures (":" + (value + rest))[1..] == value + rest
  {
  }

  lemma {:induction false} Regroup(first: string, more: string, rest: string)
    ensures first + "," + more + "}" + rest == first + ("," + (more + "}" + rest))
  {
  }

  lemma {:induction false} MoreMembersParse(
    num: Numbers, text: string, k: string, v: Value, tail: string, more: Members, rest: string)
    requires ParseMember(num, text) == Some((k, v, "," + tail))
    requires ParseMembers(num, tail) == Some((more, rest)) && !Has(more, k)
    ensures ParseMembers(num, text) == Some((MCons(k, v, more), rest))
  {
    hide ParseMember;
    assert ("," + tail)[1..] == tail;
  }

  lemma {:induction false} MembersParse(num: Numbers, ms: Members, rest: string)
    requires ms.MCons? && Distinct(ms) && RawMembers(ms) && JsonMembers(ms)
    ensures ParseMembers(num, PrintMembers(ms) + "}" + rest) == Some((ReadMembers(num, ms), rest))
    decreases ms, 1
  {
    hide Print, ParseMember, Quote;
    if ms.rest == MNil {
      MemberParses(num, ms.key, ms.value, "}" + rest);
      assert PrintMembers(ms) + "}" + rest == Quote(ms.key) + ":" + Print(ms.value) + ("}" + rest);
    } else {
      var tail := PrintMembers(ms.rest) + "}" + rest;
      MemberParses(num, ms.key, ms.value, "," + tail);
      Regroup(Quote(ms.key) + ":" + Print(ms.value), PrintMembers(ms.rest), rest);
      MembersParse(num, ms.rest, rest);
      ReadKeepsKeys(num, ms.rest, ms.key);
      MoreMembersParse(num, PrintMembers(ms) + "}" + rest, ms.key, Read(num, ms.value), tail,
                       ReadMembers(num, ms.rest), rest);
    }
  }

  /** Parsing printed JSON gives the printed tree, each number read. */
  lemma {:induction false} ParsePrintReads(num: Numbers, v: Value)
    requires Raw(v) && Json(v)
    ensures Parse(num, Print(v)) == Some(Read(num, v))
  {
    PrintParses(num, v, "");
    assert Print(v) + "" == Print(v);
  }

  /** Round trip: on a tree the program can hold, parsing gives the printed tree back. */
  lemma {:induction false} ParsePrint(num: Numbers, v: Value)
    requires WellFormed(num, v) && Json(v)
    ensures Parse(num, Print(v)) == Some(v)
  {
    HeldReadsAsItself(num, v);
    ParsePrintReads(num, v);
  }

  // ---------------------------------------------------------------------------
  // What a walked object holds
  // ---------------------------------------------------------------------------

  /** Keys strictly ascending in the printer's order. */
  predicate Ascending(p: Printer, ms: Members) {
    match ms
    case MNil => true
    case MCons(k, _, rest) => Above(p, k, rest) && Ascending(p, rest)
  }

  /** Every key of `ms` lies strictly above `k`. */
  predicate Above(p: Printer, k: string, ms: Members) {
    match ms
    case MNil => true
    case MCons(key, _, rest) => KeyLe(p, k, key) && k != key && Above(p, k, rest)
  }

  lemma {:induction false} AboveHas(p: Printer, k: string, ms: Members, j: string)
    requires Above(p, k, ms) && Has(ms, j)
    ensures KeyLe(p, k, j) && k != j
  {
    if ms.key != j {
      AboveHas(p, k, ms.rest, j);
    }
  }

  lemma {:induction false} AboveWeakens(p: Printer, j: string, k: string, ms: Members)
    requires KeyLe(p, j, k) && j != k && Above(p, k, ms)
    ensures Above(p, j, ms)
  {
    if ms.MCons? {
      KeyOrder(p, j, k, ms.key);
      KeyOrder(p, k, ms.key, j);
      AboveWeakens(p, j, k, ms.rest);
    }
  }

  lemma {:induction false} InsertAbove(p: Printer, j: string, k: string, v: Value, ms: Members)
    requires KeyLe(p, j, k) && j != k && Above(p, j, ms)
    ensures Above(p, j, Insert(p, k, v, ms))
  {
    if ms.MCons? && !KeyLe(p, k, ms.key) {
      InsertAbove(p, j, k, v, ms.rest);
    }
  }

  lemma {:induction false} InsertHolds(p: Printer, k: string, v: Value, ms: Members)
    requires Ascending(p, ms) && !Has(ms, k)
    ensures Ascending(p, Insert(p, k, v, ms))
    ensures forall j :: Look(Insert(p, k, v, ms), j) == if j == k then Some(v) else Look(ms, j)
  {
    if ms.MCons? {
      KeyOrder(p, k, ms.key, k);
      if KeyLe(p, k, ms.key) {
        AboveWeakens(p, k, ms.key, ms.rest);
      } else {
        InsertHolds(p, k, v, ms.rest);
        InsertAbove(p, ms.key, k, v, ms.rest);
      }
    }
  }

  /** The member the printer sees under `k`: none if it is absent or dropped. */
  function Seen(p: Printer, ms: Members, k: string): (r: Option<Value>)
    ensures r.Some? ==> r.value < ms
  {
    if Has(ms, k) && Kept(p, k, Look(ms, k).value) then Look(ms, k) else None
  }

  function WalkSeen(p: Printer, v: Option<Value>): Option<Value> {
    if v.Some? then Some(Walk(p, v.value)) else None
  }

  lemma {:induction false} WalkLooks(p: Printer, ms: Members)
    requires Distinct(ms)
    ensures Ascending(p, WalkMembers(p, ms))
    ensures forall k :: Look(WalkMembers(p, ms), k) == WalkSeen(p, Seen(p, ms, k))
  {
    if ms.MCons? {
      WalkLooks(p, ms.rest);
      if Kept(p, ms.key, ms.value) {
        InsertHolds(p, ms.key, Walk(p, ms.value), WalkMembers(p, ms.rest));
      }
    }
  }

  /** Two ascending lists that look the same are the same. */
  lemma {:induction false} AscendingIsUnique(p: Printer, a: Members, b: Members)
    requires Ascending(p, a) && Ascending(p, b)
    requires forall k :: Look(a, k) == Look(b, k)
    ensures a == b
  {
    if a.MNil? {
      assert b.MCons? ==> Look(a, b.key) == Look(b, b.key);
    } else {
      assert Has(a, a.key) && Has(b, a.key);
      if a.key != b.key {
        assert Has(b, b.key) && Has(a, b.key);
        AboveHas(p, a.key, a.rest, b.key);
        AboveHas(p, b.key, b.rest, a.key);
        KeyOrder(p, a.key, b.key, a.key);
      } else {
        forall k
          ensures Look(a.rest, k) == Look(b.rest, k)
        {
          assert Look(a, k) == Look(b, k);
          if k == a.key {
            if Has(a.rest, k) {
              AboveHas(p, k, a.rest, k);
            }
            if Has(b.rest, k) {
              AboveHas(p, k, b.rest, k);
            }
          }
        }
        AscendingIsUnique(p, a.rest, b.rest);
      }
    }
  }

  // ---------------------------------------------------------------------------
  // Equal text means the same value up to key order
  // ---------------------------------------------------------------------------

  /** The same value to a printer: same shape, same scalars, and per object the same members whatever their order. */
  ghost predicate Same(p: Printer, a: Value, b: Value)
    decreases a
  {
    match a
    case Arr(xs) => b.Arr? && SameItems(p, xs, b.items)
    case Obj(ms) =>
      b.Obj? && forall k ::
        && (Seen(p, ms, k).Some? <==> Seen(p, b.members, k).Some?)
        && (Seen(p, ms, k).Some? && Seen(p, b.members, k).Some? ==>
              Same(p, Seen(p, ms, k).value, Seen(p, b.members, k).value))
    case Null => b.Null? || b.Undefined? || b.NonFinite?
    case Undefined => b.Null? || b.Undefined? || b.NonFinite?
    case NonFinite => b.Null? || b.Undefined? || b.NonFinite?
    case _ => a == b
  }

  ghost predicate SameItems(p: Printer, xs: Values, ys: Values)
    decreases xs
  {
    match xs
    case VNil => ys.VNil?
    case VCons(x, rest) => ys.VCons? && Same(p, x, ys.head) && SameItems(p, rest, ys.tail)
  }

  lemma {:induction false} MemberWellFormed(num: Numbers, ms: Members, k: string)
    requires WellFormedMembers(num, ms) && Has(ms, k)
    ensures WellFormed(num, Look(ms, k).value)
  {
    if ms.key != k {
      MemberWellFormed(num, ms.rest, k);
    }
  }

  lemma {:induction false} WalkDecidesSame(num: Numbers, p: Printer, a: Value, b: Value)
    requires WellFormed(num, a) && WellFormed(num, b)
    ensures Walk(p, a) == Walk(p, b) <==> Same(p, a, b)
    decreases a, 1
  {
    if a.Arr? && b.Arr? {
      WalkDecidesSameItems(num, p, a.items, b.items);
    } else if a.Obj? && b.Obj? {
      WalkDecidesSameMembers(num, p, a.members, b.members);
    }
  }

  lemma {:induction false} WalkDecidesSameItems(num: Numbers, p: Printer, xs: Values, ys: Values)
    requires WellFormedItems(num, xs) && WellFormedItems(num, ys)
    ensures WalkItems(p, xs) == WalkItems(p, ys) <==> SameItems(p, xs, ys)
    decreases xs, 0
  {
    if xs.VCons? && ys.VCons? {
      WalkDecidesSame(num, p, xs.head, ys.head);
      WalkDecidesSameItems(num, p, xs.tail, ys.tail);
    }
  }

  lemma {:induction false} WalkDecidesSameMembers(num: Numbers, p: Printer, ms: Members, ns: Members)
    requires Distinct(ms) && Distinct(ns) && WellFormedMembers(num, ms) && WellFormedMembers(num, ns)
    ensures WalkMembers(p, ms) == WalkMembers(p, ns) <==> Same(p, Obj(ms), Obj(ns))
    decreases ms, 0
  {
    WalkLooks(p, ms);
    WalkLooks(p, ns);
    forall k | Seen(p, ms, k).Some? && Seen(p, ns, k).Some?
      ensures Walk(p, Seen(p, ms, k).value) == Walk(p, Seen(p, ns, k).value)
         <==> Same(p, Seen(p, ms, k).value, Seen(p, ns, k).value)
    {
      MemberWellFormed(num, ms, k);
      MemberWellFormed(num, ns, k);
      WalkDecidesSame(num, p, Seen(p, ms, k).value, Seen(p, ns, k).value);
    }
    if Same(p, Obj(ms), Obj(ns)) {
      AscendingIsUnique(p, WalkMembers(p, ms), WalkMembers(p, ns));
    }
    if WalkMembers(p, ms) == WalkMembers(p, ns) {
      forall k
        ensures WalkSeen(p, Seen(p, ms, k)) == WalkSeen(p, Seen(p, ns, k))
      {
        assert Look(WalkMembers(p, ms), k) == Look(WalkMembers(p, ns), k);
      }
    }
  }

  // ---------------------------------------------------------------------------
  // Canonical text
  // ---------------------------------------------------------------------------

  lemma {:induction false} WalkIsJson(num: Numbers, p: Printer, v: Value)
    requires WellFormed(num, v)
    ensures WellFormed(num, Walk(p, v)) && Json(Walk(p, v))
    ensures Walk(p, Walk(p, v)) == Walk(p, v)
    decreases v, 1
  {
    match v {
      case Arr(xs) => WalkIsJsonItems(num, p, xs);
      case Obj(ms) => WalkIsJsonMembers(num, p, ms);
      case _ =>
    }
  }

  lemma {:induction false} WalkIsJsonItems(num: Numbers, p: Printer, xs: Values)
    requires WellFormedItems(num, xs)
    ensures WellFormedItems(num, WalkItems(p, xs)) && JsonItems(WalkItems(p, xs))
    ensures WalkItems(p, WalkItems(p, xs)) == WalkItems(p, xs)
    decreases xs, 0
  {
    if xs.VCons? {
      WalkIsJson(num, p, xs.head);
      WalkIsJsonItems(num, p, xs.tail);
    }
  }

  /** Every member is kept, and its value well-formed, JSON, and already walked. */
  predicate Settled(num: Numbers, p: Printer, ms: Members) {
    match ms
    case MNil => true
    case MCons(k, v, rest) => Kept(p, k, v) && WellFormed(num, v) && Json(v) && Walk(p, v) == v && Settled(num, p, rest)
  }

  lemma {:induction false} InsertSettles(num: Numbers, p: Printer, k: string, v: Value, ms: Members)
    requires Settled(num, p, ms) && Kept(p, k, v) && WellFormed(num, v) && Json(v) && Walk(p, v) == v
    ensures Settled(num, p, Insert(p, k, v, ms))
  {
    if ms.MCons? && !KeyLe(p, k, ms.key) {
      InsertSettles(num, p, k, v, ms.rest);
    }
  }

  lemma {:induction false} SettledStays(num: Numbers, p: Printer, ms: Members)
    requires Settled(num, p, ms) && Ascending(p, ms)
    ensures WalkMembers(p, ms) == ms && Distinct(ms) && WellFormedMembers(num, ms) && JsonMembers(ms)
  {
    if ms.MCons? {
      SettledStays(num, p, ms.rest);
      if Has(ms.rest, ms.key) {
        AboveHas(p, ms.key, ms.rest, ms.key);
      }
    }
  }

  lemma {:induction false} WalkIsJsonMembers(num: Numbers, p: Printer, ms: Members)
    requires Distinct(ms) && WellFormedMembers(num, ms)
    ensures var ws := WalkMembers(p, ms);
      && Settled(num, p, ws) && Ascending(p, ws) && Distinct(ws) && WellFormedMembers(num, ws) && JsonMembers(ws)
      && WalkMembers(p, ws) == ws
    decreases ms, 0
  {
    if ms.MCons? {
      WalkIsJsonMembers(num, p, ms.rest);
      WalkIsJson(num, p, ms.value);
      WalkLooks(p, ms);
      if Kept(p, ms.key, ms.value) {
        InsertSettles(num, p, ms.key, Walk(p, ms.value), WalkMembers(p, ms.rest));
      }
    }
    SettledStays(num, p, WalkMembers(p, ms));
  }

  /** Canonical text parses back to the key-sorted tree. */
  lemma {:induction false} CanonicalParses(num: Numbers, p: Printer, v: Value)
    requires WellFormed(num, v)
    ensures Parse(num, CanonicalStringify(p, v)) == Some(Walk(p, v))
  {
    WalkIsJson(num, p, v);
    ParsePrint(num, Walk(p, v));
  }

  /** Canonicalisation is idempotent: parsing canonical text and printing it again changes nothing. */
  lemma {:induction false} CanonicalIsStable(num: Numbers, p: Printer, v: Value)
    requires WellFormed(num, v)
    ensures var w := Parse(num, CanonicalStringify(p, v));
      w.Some? && CanonicalStringify(p, w.value) == CanonicalStringify(p, v)
  {
    CanonicalParses(num, p, v);
    WalkIsJson(num, p, v);
  }

  /** Two values have one canonical text exactly when they are the same up to key order. */
  lemma {:induction false} CanonicalDecidesSame(num: Numbers, p: Printer, a: Value, b: Value)
    requires WellFormed(num, a) && WellFormed(num, b)
    ensures CanonicalStringify(p, a) == CanonicalStringify(p, b) <==> Same(p, a, b)
  {
    CanonicalParses(num, p, a);
    CanonicalParses(num, p, b);
    WalkDecidesSame(num, p, a, b);
  }

  // ---------------------------------------------------------------------------
  // When the two printers agree
  // ---------------------------------------------------------------------------

  /** `k` compares the same way with every key of `ms` under both printers. */
  predicate ComparesAlike(k: string, ms: Members) {
    match ms
    case MNil => true
    case MCons(key, _, rest) =>
      && KeyLe(Audit, k, key) == KeyLe(Knowledge, k, key)
      && KeyLe(Audit, key, k) == KeyLe(Knowledge, key, k)
      && ComparesAlike(k, rest)
  }

  /** No object has an undefined member, a member keyed `__proto__`, or two keys the printers order differently. */
  predicate Unambiguous(v: Value) {
    match v
    case Arr(xs) => UnambiguousItems(xs)
    case Obj(ms) => UnambiguousMembers(ms)
    case _ => true
  }

  predicate UnambiguousItems(xs: Values) {
    match xs
    case VNil => true
    case VCons(x, rest) => Unambiguous(x) && UnambiguousItems(rest)
  }

  predicate UnambiguousMembers(ms: Members) {
    match ms
    case MNil => true
    case MCons(k, v, rest) =>
      k != PROTO && v != Undefined && Unambiguous(v) && ComparesAlike(k, rest) && UnambiguousMembers(rest)
  }

  lemma {:induction false} InsertAlike(k: string, v: Value, ms: Members)
    requires ComparesAlike(k, ms)
    ensures Insert(Audit, k, v, ms) == Insert(Knowledge, k, v, ms)
  {
    if ms.MCons? {
      InsertAlike(k, v, ms.rest);
    }
  }

  lemma {:induction false} InsertKeepsAlike(k: string, p: Printer, j: string, v: Value, ms: Members)
    requires ComparesAlike(k, MCons(j, v, MNil)) && ComparesAlike(k, ms)
    ensures ComparesAlike(k, Insert(p, j, v, ms))
  {
    if ms.MCons? {
      InsertKeepsAlike(k, p, j, v, ms.rest);
    }
  }

  lemma {:induction false} WalkKeepsAlike(k: string, p: Printer, ms: Members)
    requires ComparesAlike(k, ms)
    ensures ComparesAlike(k, WalkMembers(p, ms))
  {
    if ms.MCons? {
      WalkKeepsAlike(k, p, ms.rest);
      if Kept(p, ms.key, ms.value) {
        InsertKeepsAlike(k, p, ms.key, Walk(p, ms.value), WalkMembers(p, ms.rest));
      }
    }
  }

  lemma {:induction false} UnambiguousWalksAlike(v: Value)
    requires Unambiguous(v)
    ensures Walk(Audit, v) == Walk(Knowledge, v)
    decreases v, 1
  {
    match v {
      case Arr(xs) => UnambiguousItemsWalkAlike(xs);
      case Obj(ms) => UnambiguousMembersWalkAlike(ms);
      case _ =>
    }
  }

  lemma {:induction false} UnambiguousItemsWalkAlike(xs: Values)
    requires UnambiguousItems(xs)
    ensures WalkItems(Audit, xs) == WalkItems(Knowledge, xs)
    decreases xs, 0
  {
    if xs.VCons? {
      UnambiguousWalksAlike(xs.head);
      UnambiguousItemsWalkAlike(xs.tail);
    }
  }

  lemma {:induction false} UnambiguousMembersWalkAlike(ms: Members)
    requires UnambiguousMembers(ms)
    ensures WalkMembers(Audit, ms) == WalkMembers(Knowledge, ms)
    decreases ms, 0
  {
    if ms.MCons? {
      UnambiguousWalksAlike(ms.value);
      UnambiguousMembersWalkAlike(ms.rest);
      WalkKeepsAlike(ms.key, Audit, ms.rest);
      InsertAlike(ms.key, Walk(Audit, ms.value), WalkMembers(Audit, ms.rest));
    }
  }

  /** Keys of one list that ascends under both printers compare alike. */
  lemma {:induction false} BothAscendingAlike(ws: Members, j: string, k: string)
    requires Ascending(Audit, ws) && Ascending(Knowledge, ws) && Has(ws, j) && Has(ws, k)
    ensures KeyLe(Audit, j, k) == KeyLe(Knowledge, j, k)
  {
    KeyOrder(Audit, j, k, j);
    KeyOrder(Knowledge, j, k, j);
    if ws.key == j && j != k {
      AboveHas(Audit, j, ws.rest, k);
      AboveHas(Knowledge, j, ws.rest, k);
    } else if ws.key == k && j != k {
      AboveHas(Audit, k, ws.rest, j);
      AboveHas(Knowledge, k, ws.rest, j);
    } else if j != k {
      BothAscendingAlike(ws.rest, j, k);
    }
  }

  lemma {:induction false} AlikeWithAll(ws: Members, k: string, part: Members)
    requires Ascending(Audit, ws) && Ascending(Knowledge, ws) && Has(ws, k)
    requires forall j :: Has(part, j) ==> Has(ws, j)
    ensures ComparesAlike(k, part)
  {
    if part.MCons? {
      assert Has(part, part.key);
      BothAscendingAlike(ws, k, part.key);
      BothAscendingAlike(ws, part.key, k);
      AlikeWithAll(ws, k, part.rest);
    }
  }

  lemma {:induction false} PartIsUnambiguous(ws: Members, part: Members)
    requires Ascending(Audit, ws) && Ascending(Knowledge, ws) && Distinct(part)
    requires forall k :: Has(part, k) ==>
      Has(ws, k) && k != PROTO && Look(part, k).value != Undefined && Unambiguous(Look(part, k).value)
    ensures UnambiguousMembers(part)
  {
    if part.MCons? {
      assert Has(part, part.key);
      forall k | Has(part.rest, k)
        ensures Look(part, k) == Look(part.rest, k)
      {
      }
      PartIsUnambiguous(ws, part.rest);
      AlikeWithAll(ws, part.key, part.rest);
    }
  }

  lemma {:induction false} WalkedAlikeIsUnambiguous(num: Numbers, v: Value)
    requires WellFormed(num, v) && Walk(Audit, v) == Walk(Knowledge, v)
    ensures Unambiguous(v)
    decreases v, 1
  {
    match v {
      case Arr(xs) => ItemsWalkedAlike(num, xs);
      case Obj(ms) => MembersWalkedAlike(num, ms);
      case _ =>
    }
  }

  lemma {:induction false} ItemsWalkedAlike(num: Numbers, xs: Values)
    requires WellFormedItems(num, xs) && WalkItems(Audit, xs) == WalkItems(Knowledge, xs)
    ensures UnambiguousItems(xs)
    decreases xs, 0
  {
    if xs.VCons? {
      WalkedAlikeIsUnambiguous(num, xs.head);
      ItemsWalkedAlike(num, xs.tail);
    }
  }

  lemma {:induction false} MembersWalkedAlike(num: Numbers, ms: Members)
    requires Distinct(ms) && WellFormedMembers(num, ms) && WalkMembers(Audit, ms) == WalkMembers(Knowledge, ms)
    ensures UnambiguousMembers(ms)
    decreases ms, 0
  {
    var ws := WalkMembers(Audit, ms);
    WalkLooks(Audit, ms);
    WalkLooks(Knowledge, ms);
    forall k | Has(ms, k)
      ensures Has(ws, k) && k != PROTO && Look(ms, k).value != Undefined && Unambiguous(Look(ms, k).value)
    {
      assert Look(ws, k) == WalkSeen(Audit, Seen(Audit, ms, k)) == WalkSeen(Knowledge, Seen(Knowledge, ms, k));
      MemberWellFormed(num, ms, k);
      WalkedAlikeIsUnambiguous(num, Look(ms, k).value);
    }
    PartIsUnambiguous(ws, ms);
  }

  /**
   * The knowledge plane's printer is a re-implementation of the audit chain's. They print the
   * same text exactly on unambiguous values: no undefined member, no member keyed `__proto__`,
   * and no pair of keys, such as "9" and "10", that sorts one way as text and the other way as
   * array indices.
   */
  lemma {:induction false} PrintersAgreeExactly(num: Numbers, v: Value)
    requires WellFormed(num, v)
    ensures CanonicalStringify(Audit, v) == CanonicalStringify(Knowledge, v) <==> Unambiguous(v)
  {
    CanonicalParses(num, Audit, v);
    CanonicalParses(num, Knowledge, v);
    if Unambiguous(v) {
      UnambiguousWalksAlike(v);
    } else if Walk(Audit, v) == Walk(Knowledge, v) {
      WalkedAlikeIsUnambiguous(num, v);
    }
  }

  /** The audit text does not show a member keyed `__proto__`: with and without it the text is one. */
  lemma {:induction false} ProtoMemberIsNotPrinted(num: Numbers, v: Value, ms: Members)
    requires WellFormed(num, v) && Distinct(ms) && WellFormedMembers(num, ms) && !Has(ms, PROTO)
    ensures WellFormed(num, Obj(MCons(PROTO, v, ms))) && WellFormed(num, Obj(ms))
    ensures Same(Audit, Obj(MCons(PROTO, v, ms)), Obj(ms)) && !Same(Knowledge, Obj(MCons(PROTO, v, ms)), Obj(ms))
    ensures CanonicalStringify(Audit, Obj(MCons(PROTO, v, ms))) == CanonicalStringify(Audit, Obj(ms))
  {
    var more := Obj(MCons(PROTO, v, ms));
    assert Walk(Audit, more) == Walk(Audit, Obj(ms));
    WalkDecidesSame(num, Audit, more, Obj(ms));
    assert Seen(Knowledge, more.members, PROTO).Some? && Seen(Knowledge, ms, PROTO).None?;
  }

  // ---------------------------------------------------------------------------
  // What parsing gives is well-formed
  // ---------------------------------------------------------------------------

  lemma {:induction false} ValueIsWellFormed(num: Numbers, text: string)
    requires Settles(num)
    ensures var r := ParseValue(num, text); r.Some? ==> WellFormed(num, r.value.0)
    decreases |text|, 0
  {
    hide ParseStr, ParseItems, ParseMembers, Distinct;
    var s := SkipWs(text);
    if s != "" && s[0] == '[' {
      ItemsAreWellFormed(num, SkipWs(s[1..]));
    } else if s != "" && s[0] == '{' {
      MembersAreWellFormed(num, SkipWs(s[1..]));
      NoMembersAreDistinct(num);
    }
  }

  lemma {:induction false} NoMembersAreDistinct(num: Numbers)
    ensures Distinct(MNil) && WellFormedMembers(num, MNil)
  {
  }

  lemma {:induction false} ItemsAreWellFormed(num: Numbers, text: string)
    requires Settles(num)
    ensures var r := ParseItems(num, text); r.Some? ==> WellFormedItems(num, r.value.0)
    decreases |text|, 1
  {
    hide ParseValue, WellFormed;
    ValueIsWellFormed(num, text);
    var v := ParseValue(num, text);
    if v.Some? {
      var s := SkipWs(v.value.1);
      if s != "" && s[0] == ',' {
        ItemsAreWellFormed(num, s[1..]);
      }
    }
  }

  lemma {:induction false} MembersAreWellFormed(num: Numbers, text: string)
    requires Settles(num)
    ensures var r := ParseMembers(num, text); r.Some? ==> Distinct(r.value.0) && WellFormedMembers(num, r.value.0)
    decreases |text|, 2
  {
    hide ParseMember, WellFormed;
    MemberIsWellFormed(num, text);
    var m := ParseMember(num, text);
    if m.Some? {
      var s := SkipWs(m.value.2);
      if s != "" && s[0] == ',' {
        MembersAreWellFormed(num, s[1..]);
        var more := ParseMembers(num, s[1..]);
        if more.Some? {
          JoinIsWellFormed(num, m.value.0, m.value.1, more.value.0);
        }
      }
    }
  }

  lemma {:induction false} MemberIsWellFormed(num: Numbers, text: string)
    requires Settles(num)
    ensures var r := ParseMember(num, text); r.Some? ==> WellFormed(num, r.value.1)
    decreases |text|, 1
  {
    hide ParseValue, WellFormed;
    var s := SkipWs(text);
    if s != "" && s[0] == '\"' && ParseStr(s[1..]).Some? {
      var s1 := SkipWs(ParseStr(s[1..]).value.1);
      if s1 != "" {
        ValueIsWellFormed(num, s1[1..]);
      }
    }
  }

  lemma {:induction false} WithoutIsWellFormed(num: Numbers, ms: Members, k: string)
    requires Distinct(ms) && WellFormedMembers(num, ms)
    ensures Distinct(Without(ms, k)) && WellFormedMembers(num, Without(ms, k)) && !Has(Without(ms, k), k)
  {
    WithoutLooks(ms, k, k);
    if ms.MCons? {
      WithoutIsWellFormed(num, ms.rest, k);
      WithoutLooks(ms.rest, k, ms.key);
    }
  }

  lemma {:induction false} WithoutLooks(ms: Members, k: string, j: string)
    ensures Look(Without(ms, k), j) == if j == k then None else Look(ms, j)
  {
    if ms.MCons? {
      WithoutLooks(ms.rest, k, j);
    }
  }

  lemma {:induction false} JoinIsWellFormed(num: Numbers, k: string, v: Value, ms: Members)
    requires WellFormed(num, v) && Distinct(ms) && WellFormedMembers(num, ms)
    ensures Distinct(Join(k, v, ms)) && WellFormedMembers(num, Join(k, v, ms))
  {
    WithoutIsWellFormed(num, ms, k);
    if Has(ms, k) {
      MemberWellFormed(num, ms, k);
    }
  }

  /** Whatever `JSON.parse` returns is a tree the program can hold. */
  lemma {:induction false} ParsedIsWellFormed(num: Numbers, text: string)
    requires Settles(num) && Parse(num, text).Some?
    ensures WellFormed(num, Parse(num, text).value)
  {
    hide WellFormed, ParseValue;
    ValueIsWellFormed(num, text);
  }

  /** A number is canonical text exactly when it is the text it is printed with. */
  lemma {:induction false} NumberIsCanonicalExactly(num: Numbers, lexeme: string)
    requires IsNumber(lexeme)
    ensures Parse(num, lexeme) == Some(NumberOf(num, lexeme))
    ensures CanonicalStringify(Audit, NumberOf(num, lexeme)) == lexeme <==> num(lexeme) == Some(lexeme)
  {
    hide ParseValue;
    NumberParses(num, lexeme, "");
    assert lexeme + "" == lexeme;
    NumbersAreNumChars(Start, lexeme);
  }

  /** Two ways of writing one number are read as one value. */
  lemma {:induction false} RewrittenNumberIsSame(num: Numbers, x: string, y: string)
    requires IsNumber(x) && IsNumber(y) && num(x) == num(y)
    ensures Parse(num, x) == Parse(num, y)
  {
    NumberIsCanonicalExactly(num, x);
    NumberIsCanonicalExactly(num, y);
  }

  // ---------------------------------------------------------------------------
  // Reading a member back
  // ---------------------------------------------------------------------------

  /** The text member `inner` of the object member `outer`. */
  function TextAt(v: Value, outer: string, inner: string): Option<string> {
    if !v.Obj? then None
    else
      var o := Look(v.members, outer);
      if o.None? || !o.value.Obj? then None
      else
        var t := Look(o.value.members, inner);
        if t.Some? && t.value.Str? then Some(t.value.s) else None
  }

  /** A text member of an object member is read back from the canonical text. */
  lemma {:induction false} TextSurvives(num: Numbers, v: Value, outer: string, inner: string)
    requires WellFormed(num, v) && TextAt(v, outer, inner).Some? && outer != PROTO && inner != PROTO
    ensures var r := Parse(num, CanonicalStringify(Audit, v));
      r.Some? && TextAt(r.value, outer, inner) == TextAt(v, outer, inner)
  {
    hide CanonicalStringify, Parse, WalkMembers;
    CanonicalParses(num, Audit, v);
    WalkLooks(Audit, v.members);
    MemberWellFormed(num, v.members, outer);
    var o := Look(v.members, outer).value;
    WalkLooks(Audit, o.members);
    assert Look(WalkMembers(Audit, v.members), outer) == Some(Walk(Audit, o));
    assert Look(WalkMembers(Audit, o.members), inner) == Look(o.members, inner);
  }
}
