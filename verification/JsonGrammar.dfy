/**
 * The grammar of sections 2 to 7 of RFC 8259 as syntax trees, and the proof that the parser
 * accepts exactly the texts they write and reads each as its tree.
 */
module JsonGrammar {
  import opened Prelude
  import opened CanonicalJson

  // ---------------------------------------------------------------------------
  // The grammar
  // ---------------------------------------------------------------------------

  /** Insignificant white space. */
  predicate Blank(s: string) {
    forall i :: 0 <= i < |s| ==> s[i] == ' ' || s[i] == '\t' || s[i] == '\n' || s[i] == '\r'
  }

  /** One character of a string: as it is, after a reverse solidus, or in four hexadecimal digits. */
  datatype Piece = Plain(c: char) | Short(letter: char) | Hex(a: char, b: char, c: char, d: char)

  predicate IsHex(c: char) {
    '0' <= c <= '9' || 'a' <= c <= 'f' || 'A' <= c <= 'F'
  }

  function HexOf(c: char): int
    requires IsHex(c)
  {
    if c <= '9' then c as int - '0' as int
    else if c <= 'F' then c as int - 'A' as int + 10 else c as int - 'a' as int + 10
  }

  function FourHex(a: char, b: char, c: char, d: char): int
    requires IsHex(a) && IsHex(b) && IsHex(c) && IsHex(d)
  {
    HexOf(a) * 4096 + HexOf(b) * 256 + HexOf(c) * 16 + HexOf(d)
  }

  predicate ValidPiece(p: Piece) {
    match p
    case Plain(c) => c >= ' ' && c != '\"' && c != '\\'
    case Short(letter) => letter in "\"\\/bfnrt"
    case Hex(a, b, c, d) =>
      IsHex(a) && IsHex(b) && IsHex(c) && IsHex(d) && !(0xD800 <= FourHex(a, b, c, d) < 0xE000)
  }

  function CharOf(p: Piece): char
    requires ValidPiece(p)
  {
    match p
    case Plain(c) => c
    case Short(letter) =>
      (match letter
       case 'b' => '\U{8}' case 'f' => '\U{C}' case 'n' => '\n' case 'r' => '\r' case 't' => '\t' case _ => letter)
    case Hex(a, b, c, d) => FourHex(a, b, c, d) as char
  }

  function WritePiece(p: Piece): string {
    match p
    case Plain(c) => [c]
    case Short(letter) => ['\\', letter]
    case Hex(a, b, c, d) => ['\\', 'u', a, b, c, d]
  }

  predicate ValidPieces(ps: seq<Piece>) {
    forall p :: p in ps ==> ValidPiece(p)
  }

  function Chars(ps: seq<Piece>): string
    requires ValidPieces(ps)
  {
    if ps == [] then "" else [CharOf(ps[0])] + Chars(ps[1..])
  }

  /** The text after the opening quotation mark. */
  function WritePieces(ps: seq<Piece>): string {
    if ps == [] then "\"" else WritePiece(ps[0]) + WritePieces(ps[1..])
  }

  datatype Exponent = Exponent(mark: char, sign: string, digits: string)

  datatype Numeral = Numeral(negative: bool, whole: string, fraction: Option<string>, exponent: Option<Exponent>)

  predicate Digits(s: string) {
    s != "" && AllDigits(s)
  }

  predicate ValidNumeral(n: Numeral) {
    && Digits(n.whole) && (n.whole[0] == '0' ==> |n.whole| == 1)
    && (n.fraction.Some? ==> Digits(n.fraction.value))
    && (n.exponent.Some? ==> ValidExponent(n.exponent.value))
  }

  predicate ValidExponent(e: Exponent) {
    (e.mark == 'e' || e.mark == 'E') && (e.sign == "" || e.sign == "+" || e.sign == "-") && Digits(e.digits)
  }

  function WriteExponent(e: Option<Exponent>): string {
    if e.None? then "" else [e.value.mark] + e.value.sign + e.value.digits
  }

  function WriteFraction(f: Option<string>): string {
    if f.None? then "" else "." + f.value
  }

  function WriteNumeral(n: Numeral): string {
    (if n.negative then "-" else "") + (n.whole + (WriteFraction(n.fraction) + WriteExponent(n.exponent)))
  }

  /** A value with the white space before it. */
  datatype Doc = Doc(lead: string, body: Body)

  datatype Body =
    | Word(word: string)
    | Number(n: Numeral)
    | Text(ps: seq<Piece>)
    | EmptyArr(blank: string)
    | Items(items: Items)
    | EmptyObj(blank: string)
    | Fields(fields: Fields)

  datatype Items = LastItem(d: Doc, trail: string) | Item(d: Doc, trail: string, rest: Items)

  datatype Field = Field(lead: string, key: seq<Piece>, colon: string, d: Doc)

  datatype Fields = LastField(f: Field, trail: string) | AndField(f: Field, trail: string, rest: Fields)

  predicate ValidDoc(d: Doc) {
    Blank(d.lead) && ValidBody(d.body)
  }

  predicate ValidBody(b: Body) {
    match b
    case Word(word) => word == "null" || word == "true" || word == "false"
    case Number(n) => ValidNumeral(n)
    case Text(ps) => ValidPieces(ps)
    case EmptyArr(blank) => Blank(blank)
    case Items(items) => ValidItems(items)
    case EmptyObj(blank) => Blank(blank)
    case Fields(fields) => ValidFields(fields)
  }

  predicate ValidItems(items: Items) {
    match items
    case LastItem(d, trail) => ValidDoc(d) && Blank(trail)
    case Item(d, trail, rest) => ValidDoc(d) && Blank(trail) && ValidItems(rest)
  }

  predicate ValidField(f: Field) {
    Blank(f.lead) && ValidPieces(f.key) && Blank(f.colon) && ValidDoc(f.d)
  }

  predicate ValidFields(fields: Fields) {
    match fields
    case LastField(f, trail) => ValidField(f) && Blank(trail)
    case AndField(f, trail, rest) => ValidField(f) && Blank(trail) && ValidFields(rest)
  }

  function WriteDoc(d: Doc): string {
    d.lead + WriteBody(d.body)
  }

  function WriteBody(b: Body): string {
    match b
    case Word(word) => word
    case Number(n) => WriteNumeral(n)
    case Text(ps) => "\"" + WritePieces(ps)
    case EmptyArr(blank) => "[" + (blank + "]")
    case Items(items) => "[" + WriteItems(items)
    case EmptyObj(blank) => "{" + (blank + "}")
    case Fields(fields) => "{" + WriteFields(fields)
  }

  function WriteItems(items: Items): string {
    match items
    case LastItem(d, trail) => WriteDoc(d) + (trail + "]")
    case Item(d, trail, rest) => WriteDoc(d) + (trail + ("," + WriteItems(rest)))
  }

  function WriteField(f: Field): string {
    f.lead + ("\"" + (WritePieces(f.key) + (f.colon + (":" + WriteDoc(f.d)))))
  }

  function WriteFields(fields: Fields): string {
    match fields
    case LastField(f, trail) => WriteField(f) + (trail + "}")
    case AndField(f, trail, rest) => WriteField(f) + (trail + ("," + WriteFields(rest)))
  }

  // ---------------------------------------------------------------------------
  // What a text means
  // ---------------------------------------------------------------------------

  function DocValue(num: Numbers, d: Doc): Value
    requires ValidDoc(d)
  {
    BodyValue(num, d.body)
  }

  function BodyValue(num: Numbers, b: Body): Value
    requires ValidBody(b)
  {
    match b
    case Word(word) => if word == "null" then Null else Bool(word == "true")
    case Number(n) => NumberOf(num, WriteNumeral(n))
    case Text(ps) => Str(Chars(ps))
    case EmptyArr(_) => Arr(VNil)
    case Items(items) => Arr(ItemValues(num, items))
    case EmptyObj(_) => Obj(MNil)
    case Fields(fields) => Obj(FieldValues(num, fields))
  }

  function ItemValues(num: Numbers, items: Items): Values
    requires ValidItems(items)
  {
    match items
    case LastItem(d, _) => VCons(DocValue(num, d), VNil)
    case Item(d, _, rest) => VCons(DocValue(num, d), ItemValues(num, rest))
  }

  function KeyOf(f: Field): string
    requires ValidField(f)
  {
    Chars(f.key)
  }

  function FieldValue(num: Numbers, f: Field): Value
    requires ValidField(f)
  {
    DocValue(num, f.d)
  }

  function FieldValues(num: Numbers, fields: Fields): Members
    requires ValidFields(fields)
  {
    match fields
    case LastField(f, _) => MCons(KeyOf(f), FieldValue(num, f), MNil)
    case AndField(f, _, rest) => Join(KeyOf(f), FieldValue(num, f), FieldValues(num, rest))
  }

  /** The value of the last field with this key. */
  function LastOf(num: Numbers, fields: Fields, k: string): Option<Value>
    requires ValidFields(fields)
  {
    match fields
    case LastField(f, _) => if KeyOf(f) == k then Some(FieldValue(num, f)) else None
    case AndField(f, _, rest) =>
      var later := LastOf(num, rest, k);
      if later.Some? then later else if KeyOf(f) == k then Some(FieldValue(num, f)) else None
  }

  lemma {:induction false} WithoutHolds(ms: Members, k: string)
    requires Distinct(ms)
    ensures Distinct(Without(ms, k)) && !Has(Without(ms, k), k)
    ensures forall j :: j != k ==> Look(Without(ms, k), j) == Look(ms, j)
  {
    if ms.MCons? {
      WithoutHolds(ms.rest, k);
    }
  }

  /** An object has each key once, with the value of its last field. */
  lemma {:induction false} LastFieldWins(num: Numbers, fields: Fields)
    requires ValidFields(fields)
    ensures Distinct(FieldValues(num, fields))
    ensures forall k :: Look(FieldValues(num, fields), k) == LastOf(num, fields, k)
  {
    if fields.AndField? {
      LastFieldWins(num, fields.rest);
      WithoutHolds(FieldValues(num, fields.rest), KeyOf(fields.f));
    }
  }

  // ---------------------------------------------------------------------------
  // Numerals
  // ---------------------------------------------------------------------------

  predicate Accepts(st: NumState, s: string) {
    NumRun(st, s) in {Zero, Int, Frac, ExpInt}
  }

  /** In these states the next character must be a digit. */
  lemma {:induction false} NeedsDigit(st: NumState, s: string)
    requires st in {Sign, Point, ExpSign} && Accepts(st, s)
    ensures s != "" && '0' <= s[0] <= '9' && Accepts(NumStep(st, s[0]), s[1..])
  {
    if s != "" {
      BadStays(s[1..]);
    }
  }

  /** In these states digits change nothing. */
  lemma {:induction false} DigitsRun(st: NumState, digits: string, rest: string)
    requires st in {Int, Frac, ExpInt} && AllDigits(digits)
    ensures NumRun(st, digits + rest) == NumRun(st, rest)
  {
    if digits == "" {
      assert digits + rest == rest;
    } else {
      assert (digits + rest)[1..] == digits[1..] + rest;
      DigitsRun(st, digits[1..], rest);
    }
  }

  lemma {:induction false} SomeDigitsRun(st: NumState, to: NumState, digits: string, rest: string)
    requires (st == Point && to == Frac) || (st in {Exp, ExpSign} && to == ExpInt)
    requires Digits(digits)
    ensures NumRun(st, digits + rest) == NumRun(to, rest)
  {
    assert (digits + rest)[1..] == digits[1..] + rest;
    DigitsRun(to, digits[1..], rest);
  }

  lemma {:induction false} ExponentRuns(st: NumState, e: Exponent)
    requires st in {Zero, Int, Frac} && ValidExponent(e)
    ensures NumRun(st, WriteExponent(Some(e))) == ExpInt
  {
    var s := WriteExponent(Some(e));
    assert s[1..] == e.sign + e.digits;
    if e.sign == "" {
      assert e.sign + e.digits == e.digits + "";
      SomeDigitsRun(Exp, ExpInt, e.digits, "");
    } else {
      assert (e.sign + e.digits)[1..] == e.digits + "";
      SomeDigitsRun(ExpSign, ExpInt, e.digits, "");
    }
  }

  lemma {:induction false} EndRuns(st: NumState, e: Option<Exponent>)
    requires st in {Zero, Int, Frac} && (e.Some? ==> ValidExponent(e.value))
    ensures Accepts(st, WriteExponent(e))
  {
    if e.Some? {
      hide ValidExponent, WriteExponent;
      ExponentRuns(st, e.value);
      assert e == Some(e.value);
    }
  }

  lemma {:induction false} FractionRuns(st: NumState, f: Option<string>, e: Option<Exponent>)
    requires st in {Zero, Int} && (f.Some? ==> Digits(f.value)) && (e.Some? ==> ValidExponent(e.value))
    ensures Accepts(st, WriteFraction(f) + WriteExponent(e))
  {
    hide ValidExponent, WriteExponent;
    var more := WriteExponent(e);
    if f.Some? {
      assert (WriteFraction(f) + more)[1..] == f.value + more;
      SomeDigitsRun(Point, Frac, f.value, more);
      EndRuns(Frac, e);
    } else {
      assert WriteFraction(f) + more == more;
      EndRuns(st, e);
    }
  }

  lemma {:induction false} NumeralIsNumber(n: Numeral)
    requires ValidNumeral(n)
    ensures IsNumber(WriteNumeral(n))
  {
    hide WriteFraction, WriteExponent;
    var more := WriteFraction(n.fraction) + WriteExponent(n.exponent);
    var text := n.whole + more;
    var st := if n.whole[0] == '0' then Zero else Int;
    FractionRuns(st, n.fraction, n.exponent);
    assert text[1..] == n.whole[1..] + more;
    if st == Int {
      DigitsRun(Int, n.whole[1..], more);
    } else {
      assert n.whole[1..] + more == more;
    }
    assert NumRun(Start, text) == NumRun(Sign, text) == NumRun(st, more);
    if n.negative {
      assert WriteNumeral(n)[1..] == text;
    } else {
      assert WriteNumeral(n) == "" + text == text;
    }
  }

  lemma {:induction false} SplitDigits(st: NumState, s: string) returns (digits: string, rest: string)
    requires st in {Int, Frac, ExpInt} && Accepts(st, s)
    ensures AllDigits(digits) && s == digits + rest && NumRun(st, s) == NumRun(st, rest)
    ensures rest == "" || !('0' <= rest[0] <= '9')
  {
    if s != "" && '0' <= s[0] <= '9' {
      digits, rest := SplitDigits(st, s[1..]);
      digits := [s[0]] + digits;
      assert s == [s[0]] + s[1..];
    } else {
      digits, rest := "", s;
      assert s == "" + s;
    }
  }

  lemma {:induction false} SignIsWritten(s: string) returns (sign: string, tail: string)
    requires Accepts(Exp, s)
    ensures s == sign + tail && (sign == "" || sign == "+" || sign == "-")
    ensures tail != "" && '0' <= tail[0] <= '9' && Accepts(ExpInt, tail[1..])
  {
    sign, tail := "", s;
    if s != "" {
      BadStays(s[1..]);
      if s[0] == '+' || s[0] == '-' {
        sign, tail := [s[0]], s[1..];
        NeedsDigit(ExpSign, tail);
      }
    }
    assert s == sign + tail;
  }

  lemma {:induction false} ExponentIsWritten(mark: char, s: string) returns (e: Exponent)
    requires (mark == 'e' || mark == 'E') && Accepts(Exp, s)
    ensures ValidExponent(e) && [mark] + s == WriteExponent(Some(e))
  {
    hide Accepts;
    var sign, tail := SignIsWritten(s);
    var digits := OnlyDigits(tail[1..]);
    e := Exponent(mark, sign, tail);
    assert tail == [tail[0]] + digits;
    assert [mark] + s == [mark] + sign + tail;
  }

  /** Nothing but digits may follow the first digit of an exponent. */
  lemma {:induction false} OnlyDigits(s: string) returns (digits: string)
    requires Accepts(ExpInt, s)
    ensures digits == s && AllDigits(s)
  {
    var rest;
    digits, rest := SplitDigits(ExpInt, s);
    if rest != "" {
      BadStays(rest[1..]);
    }
    assert digits + "" == digits;
  }

  /** An exponent or nothing. */
  lemma {:induction false} EndIsWritten(st: NumState, s: string) returns (e: Option<Exponent>)
    requires st in {Zero, Int, Frac} && Accepts(st, s)
    requires s == "" || (!('0' <= s[0] <= '9') && s[0] != '.')
    ensures (e.Some? ==> ValidExponent(e.value)) && s == WriteExponent(e)
  {
    hide ValidExponent, WriteExponent;
    e := None;
    if s != "" {
      BadStays(s[1..]);
      assert s == [s[0]] + s[1..];
      var x := ExponentIsWritten(s[0], s[1..]);
      e := Some(x);
    } else {
      NoExponent();
    }
  }

  lemma {:induction false} NoExponent()
    ensures WriteExponent(None) == ""
  {
  }

  /** What may follow the whole part: a fraction, an exponent, both or nothing. */
  lemma {:induction false} TailIsWritten(st: NumState, s: string) returns (f: Option<string>, e: Option<Exponent>)
    requires st in {Zero, Int} && Accepts(st, s)
    requires s == "" || !('0' <= s[0] <= '9')
    ensures (f.Some? ==> Digits(f.value)) && (e.Some? ==> ValidExponent(e.value))
    ensures s == WriteFraction(f) + WriteExponent(e)
  {
    hide ValidExponent, WriteExponent;
    if s != "" && s[0] == '.' {
      var tail := s[1..];
      NeedsDigit(Point, tail);
      var digits, rest := SplitDigits(Frac, tail[1..]);
      if rest != "" && rest[0] == '.' {
        BadStays(rest[1..]);
      }
      e := EndIsWritten(Frac, rest);
      f := Some([tail[0]] + digits);
      assert s == "." + ([tail[0]] + digits) + rest;
    } else {
      e := EndIsWritten(st, s);
      f := None;
      assert "" + s == s;
    }
  }

  lemma {:induction false} UnsignedIsWritten(negative: bool, s: string) returns (n: Numeral)
    requires NumRun(if negative then Sign else Start, s) in {Zero, Int, Frac, ExpInt}
    requires s != "" && '0' <= s[0] <= '9'
    ensures ValidNumeral(n) && WriteNumeral(n) == (if negative then "-" else "") + s
  {
    hide WriteFraction, WriteExponent;
    var whole, rest := [s[0]], s[1..];
    if s[0] == '0' {
      if rest != "" {
        BadStays(rest[1..]);
      }
      assert s == whole + rest;
    } else {
      var digits;
      digits, rest := SplitDigits(Int, s[1..]);
      whole := [s[0]] + digits;
      assert s == [s[0]] + s[1..];
    }
    var f, e := TailIsWritten(if s[0] == '0' then Zero else Int, rest);
    n := Numeral(negative, whole, f, e);
    assert s == whole + (WriteFraction(f) + WriteExponent(e));
  }

  lemma {:induction false} NumberIsWritten(s: string) returns (n: Numeral)
    requires IsNumber(s)
    ensures ValidNumeral(n) && WriteNumeral(n) == s
  {
    BadStays(s[1..]);
    if s[0] == '-' {
      var t := s[1..];
      NeedsDigit(Sign, t);
      n := UnsignedIsWritten(true, t);
      assert s == "-" + t;
    } else {
      n := UnsignedIsWritten(false, s);
      assert "" + s == s;
    }
  }

  ghost predicate IsNumeral(s: string) {
    exists n :: ValidNumeral(n) && WriteNumeral(n) == s
  }

  /** The number automaton accepts exactly the numerals of section 6. */
  lemma {:induction false} NumeralsAreExact(s: string)
    ensures IsNumber(s) <==> IsNumeral(s)
  {
    hide WriteNumeral, ValidNumeral, IsNumber;
    if IsNumber(s) {
      var n := NumberIsWritten(s);
    }
    if n :| ValidNumeral(n) && WriteNumeral(n) == s {
      NumeralIsNumber(n);
    }
  }

  // ---------------------------------------------------------------------------
  // Strings
  // ---------------------------------------------------------------------------

  lemma {:induction false} HexIsRead(c: char)
    ensures HexValue(c) == if IsHex(c) then Some(HexOf(c)) else None
    ensures IsHex(c) ==> 0 <= HexOf(c) < 16
  {
  }

  lemma {:induction false} PieceParses(p: Piece, rest: string)
    requires ValidPiece(p)
    ensures ParseChar(WritePiece(p) + rest) == Some((CharOf(p), rest))
    ensures WritePiece(p) != "" && WritePiece(p)[0] != '\"'
  {
    hide HexValue, IsHex, HexOf;
    var s := WritePiece(p) + rest;
    assert s[|WritePiece(p)|..] == rest;
    if p.Hex? {
      HexIsRead(p.a);
      HexIsRead(p.b);
      HexIsRead(p.c);
      HexIsRead(p.d);
    }
  }

  lemma {:induction false} PiecesParse(ps: seq<Piece>, rest: string)
    requires ValidPieces(ps)
    ensures ParseStr(WritePieces(ps) + rest) == Some((Chars(ps), rest))
  {
    hide ParseChar, WritePiece, ValidPiece, CharOf;
    if ps == [] {
      assert ("\"" + rest)[1..] == rest;
    } else {
      var tail := WritePieces(ps[1..]) + rest;
      assert WritePieces(ps) + rest == WritePiece(ps[0]) + tail;
      assert ps[0] in ps;
      PieceParses(ps[0], tail);
      PiecesParse(ps[1..], rest);
    }
  }

  lemma {:induction false} CharIsPiece(s: string) returns (p: Piece)
    requires ParseChar(s).Some?
    ensures ValidPiece(p) && CharOf(p) == ParseChar(s).value.0 && s == WritePiece(p) + ParseChar(s).value.1
    ensures WritePiece(p) != "" && WritePiece(p)[0] != '\"'
  {
    hide HexValue, IsHex, HexOf;
    if s[0] != '\\' {
      p := Plain(s[0]);
      assert s == [s[0]] + s[1..];
    } else if s[1] != 'u' {
      p := Short(s[1]);
      assert s == [s[0], s[1]] + s[2..];
    } else {
      HexIsRead(s[2]);
      HexIsRead(s[3]);
      HexIsRead(s[4]);
      HexIsRead(s[5]);
      p := Hex(s[2], s[3], s[4], s[5]);
      assert s == [s[0], s[1], s[2], s[3], s[4], s[5]] + s[6..];
    }
  }

  lemma {:induction false} StrIsPieces(s: string) returns (ps: seq<Piece>)
    requires ParseStr(s).Some?
    ensures ValidPieces(ps) && Chars(ps) == ParseStr(s).value.0 && s == WritePieces(ps) + ParseStr(s).value.1
    decreases |s|
  {
    hide ParseChar, WritePiece, ValidPiece, CharOf;
    if s[0] == '\"' {
      ps := [];
      assert s == "\"" + s[1..];
    } else {
      var p := CharIsPiece(s);
      var rest := ParseChar(s).value.1;
      var more := StrIsPieces(rest);
      ps := [p] + more;
      assert ps[1..] == more;
      assert s == WritePiece(p) + (WritePieces(more) + ParseStr(s).value.1);
    }
  }

  // ---------------------------------------------------------------------------
  // Every text of the grammar is accepted
  // ---------------------------------------------------------------------------

  lemma {:induction false} BlankIsSkipped(blank: string, rest: string)
    requires Blank(blank) && (rest == "" || !IsWs(rest[0]))
    ensures SkipWs(blank + rest) == rest
  {
    if blank == "" {
      assert blank + rest == rest;
    } else {
      assert (blank + rest)[1..] == blank[1..] + rest;
      BlankIsSkipped(blank[1..], rest);
    }
  }

  /** A value's first character is not white space, nor a closing bracket or brace. */
  lemma {:induction false} BodyStarts(b: Body)
    requires ValidBody(b)
    ensures WriteBody(b) != "" && !IsWs(WriteBody(b)[0]) && WriteBody(b)[0] != ']' && WriteBody(b)[0] != '}'
  {
    hide ValidItems, ValidFields, WriteItems, WriteFields, WritePieces, WriteFraction, WriteExponent, ValidPieces;
  }

  lemma {:induction false} NumeralParses(num: Numbers, n: Numeral, rest: string)
    requires ValidNumeral(n) && Stops(rest)
    ensures ParseValue(num, WriteNumeral(n) + rest) == Some((NumberOf(num, WriteNumeral(n)), rest))
  {
    hide WriteNumeral, ValidNumeral, ParseValue;
    NumeralIsNumber(n);
    NumberParses(num, WriteNumeral(n), rest);
  }

  lemma {:induction false} TextParses(num: Numbers, ps: seq<Piece>, rest: string)
    requires ValidPieces(ps)
    ensures ParseValue(num, "\"" + WritePieces(ps) + rest) == Some((Str(Chars(ps)), rest))
  {
    hide ParseStr, WritePieces, ParseItems, ParseMembers, ParseLiteral, NumSpan, IsNumber, ValidPieces;
    PiecesParse(ps, rest);
    assert ("\"" + WritePieces(ps) + rest)[1..] == WritePieces(ps) + rest;
  }

  /** White space before a value is skipped. */
  lemma {:induction false} LeadIsSkipped(num: Numbers, lead: string, s: string)
    requires Blank(lead) && s != "" && !IsWs(s[0])
    ensures ParseValue(num, lead + s) == ParseValue(num, s)
  {
    hide ParseStr, ParseItems, ParseMembers, ParseLiteral, NumSpan, IsNumber;
    BlankIsSkipped(lead, s);
  }

  lemma {:induction false} DocParses(num: Numbers, d: Doc, rest: string)
    requires ValidDoc(d) && Stops(rest)
    ensures ParseValue(num, WriteDoc(d) + rest) == Some((DocValue(num, d), rest))
    decreases d, 1
  {
    hide ParseValue, WriteBody, ValidBody, BodyValue;
    BodyStarts(d.body);
    BodyParses(num, d.body, rest);
    LeadIsSkipped(num, d.lead, WriteBody(d.body) + rest);
    assert WriteDoc(d) + rest == d.lead + (WriteBody(d.body) + rest);
  }

  lemma {:induction false} BodyParses(num: Numbers, b: Body, rest: string)
    requires ValidBody(b) && Stops(rest)
    ensures ParseValue(num, WriteBody(b) + rest) == Some((BodyValue(num, b), rest))
    decreases b, 0
  {
    hide ParseValue, ParseItems, ParseMembers, WriteNumeral, ValidNumeral, WritePieces, ValidPieces;
    match b {
      case Word(word) =>
        WordParses(num, word, if word == "null" then Null else Bool(word == "true"), rest);
      case Number(n) => NumeralParses(num, n, rest);
      case Text(ps) => TextParses(num, ps, rest);
      case EmptyArr(blank) => EmptyParses(num, "[", blank, "]", rest);
      case EmptyObj(blank) => EmptyParses(num, "{", blank, "}", rest);
      case Items(items) =>
        ItemsStart(items);
        ItemListParses(num, items, rest);
        ArrayTextParses(num, WriteItems(items), rest);
      case Fields(fields) =>
        FieldsStart(fields);
        FieldListParses(num, fields, rest);
        ObjectTextParses(num, WriteFields(fields), rest);
    }
  }

  lemma {:induction false} EmptyParses(num: Numbers, open: string, blank: string, close: string, rest: string)
    requires Blank(blank) && ((open == "[" && close == "]") || (open == "{" && close == "}"))
    ensures ParseValue(num, open + (blank + close) + rest)
      == Some((if open == "[" then Arr(VNil) else Obj(MNil), rest))
  {
    hide ParseStr, ParseItems, ParseMembers, ParseLiteral, NumSpan, IsNumber;
    var s := open + (blank + close) + rest;
    BlankIsSkipped(blank, close + rest);
    assert s[1..] == blank + (close + rest);
    assert (close + rest)[1..] == rest;
  }

  /** The text of an array that is not empty, without its opening bracket. */
  predicate StartsItem(text: string, close: char) {
    SkipWs(text) != "" && SkipWs(text)[0] != close
  }

  lemma {:induction false} SkipTwice(s: string)
    ensures SkipWs(SkipWs(s)) == SkipWs(s)
  {
    if s != "" && IsWs(s[0]) {
      SkipTwice(s[1..]);
    }
  }

  lemma {:induction false} ItemsSkipBlank(num: Numbers, text: string)
    ensures ParseItems(num, SkipWs(text)) == ParseItems(num, text)
    ensures ParseMembers(num, SkipWs(text)) == ParseMembers(num, text)
  {
    hide ParseStr, ParseLiteral, NumSpan, IsNumber, SkipWs;
    SkipTwice(text);
  }

  lemma {:induction false} ArrayTextParses(num: Numbers, text: string, rest: string)
    requires StartsItem(text + rest, ']')
    ensures ParseValue(num, "[" + text + rest) ==
      match ParseItems(num, text + rest) case None => None case Some((xs, tail)) => Some((Arr(xs), tail))
  {
    hide ParseStr, ParseItems, ParseMembers, ParseLiteral, NumSpan, IsNumber;
    ItemsSkipBlank(num, text + rest);
    assert ("[" + text + rest)[1..] == text + rest;
  }

  lemma {:induction false} ObjectTextParses(num: Numbers, text: string, rest: string)
    requires StartsItem(text + rest, '}')
    ensures ParseValue(num, "{" + text + rest) ==
      match ParseMembers(num, text + rest) case None => None case Some((ms, tail)) => Some((Obj(ms), tail))
  {
    hide ParseStr, ParseItems, ParseMembers, ParseLiteral, NumSpan, IsNumber;
    ItemsSkipBlank(num, text + rest);
    assert ("{" + text + rest)[1..] == text + rest;
  }

  lemma {:induction false} BlankThenStarts(blank: string, s: string, more: string, close: char)
    requires Blank(blank) && s != "" && !IsWs(s[0]) && s[0] != close
    ensures StartsItem(blank + s + more, close)
  {
    BlankIsSkipped(blank, s + more);
    assert blank + s + more == blank + (s + more);
  }

  lemma {:induction false} ItemsStart(items: Items)
    requires ValidItems(items)
    ensures forall rest :: StartsItem(WriteItems(items) + rest, ']')
  {
    hide ValidBody, WriteBody, StartsItem;
    BodyStarts(items.d.body);
    forall rest
      ensures StartsItem(WriteItems(items) + rest, ']')
    {
      var body := WriteBody(items.d.body);
      var tail := if items.LastItem? then items.trail + "]" else items.trail + ("," + WriteItems(items.rest));
      BlankThenStarts(items.d.lead, body, tail + rest, ']');
      assert WriteItems(items) + rest == items.d.lead + body + (tail + rest);
    }
  }

  lemma {:induction false} FieldsStart(fields: Fields)
    requires ValidFields(fields)
    ensures forall rest :: StartsItem(WriteFields(fields) + rest, '}')
  {
    hide StartsItem, WritePieces;
    forall rest
      ensures StartsItem(WriteFields(fields) + rest, '}')
    {
      var f := fields.f;
      var tail := if fields.LastField? then fields.trail + "}" else fields.trail + ("," + WriteFields(fields.rest));
      var more := WritePieces(f.key) + (f.colon + (":" + WriteDoc(f.d)));
      BlankThenStarts(f.lead, "\"" + more, tail + rest, '}');
      assert WriteFields(fields) + rest == f.lead + ("\"" + more) + (tail + rest);
    }
  }

  lemma {:induction false} BlankStops(blank: string, mark: string, rest: string)
    requires Blank(blank) && (mark == "," || mark == "]" || mark == "}" || mark == ":")
    ensures Stops(blank + (mark + rest)) && SkipWs(blank + (mark + rest)) == mark + rest && (mark + rest)[1..] == rest
  {
    BlankIsSkipped(blank, mark + rest);
  }

  lemma {:induction false} ItemListParses(num: Numbers, items: Items, rest: string)
    requires ValidItems(items)
    ensures ParseItems(num, WriteItems(items) + rest) == Some((ItemValues(num, items), rest))
    decreases items, 0
  {
    hide ParseValue, ValidDoc, WriteDoc, DocValue, Stops, SkipWs;
    if items.LastItem? {
      BlankStops(items.trail, "]", rest);
      DocParses(num, items.d, items.trail + ("]" + rest));
      assert WriteItems(items) + rest == WriteDoc(items.d) + (items.trail + ("]" + rest));
    } else {
      var tail := WriteItems(items.rest) + rest;
      BlankStops(items.trail, ",", tail);
      DocParses(num, items.d, items.trail + ("," + tail));
      ItemListParses(num, items.rest, rest);
      assert WriteItems(items) + rest == WriteDoc(items.d) + (items.trail + ("," + tail));
    }
  }

  lemma {:induction false} FieldParses(num: Numbers, f: Field, rest: string)
    requires ValidField(f) && Stops(rest)
    ensures ParseMember(num, WriteField(f) + rest) == Some((KeyOf(f), FieldValue(num, f), rest))
    decreases f, 0
  {
    hide ParseValue, ValidDoc, WriteDoc, DocValue, Stops, SkipWs, ParseStr, WritePieces, ValidPieces, Chars;
    var value := WriteDoc(f.d) + rest;
    var afterKey := f.colon + (":" + value);
    BlankStops(f.colon, ":", value);
    PiecesParse(f.key, afterKey);
    QuoteIsNext(f.lead, WritePieces(f.key) + afterKey);
    DocParses(num, f.d, rest);
    assert WriteField(f) + rest == f.lead + ("\"" + (WritePieces(f.key) + afterKey));
  }

  lemma {:induction false} QuoteIsNext(blank: string, s: string)
    requires Blank(blank)
    ensures SkipWs(blank + ("\"" + s)) == "\"" + s && ("\"" + s)[1..] == s
  {
    BlankIsSkipped(blank, "\"" + s);
  }

  lemma {:induction false} FieldListParses(num: Numbers, fields: Fields, rest: string)
    requires ValidFields(fields)
    ensures ParseMembers(num, WriteFields(fields) + rest) == Some((FieldValues(num, fields), rest))
    decreases fields, 0
  {
    hide ParseMember, ValidField, WriteField, FieldValue, KeyOf, Stops, SkipWs, Join;
    if fields.LastField? {
      BlankStops(fields.trail, "}", rest);
      FieldParses(num, fields.f, fields.trail + ("}" + rest));
      assert WriteFields(fields) + rest == WriteField(fields.f) + (fields.trail + ("}" + rest));
    } else {
      var tail := WriteFields(fields.rest) + rest;
      BlankStops(fields.trail, ",", tail);
      FieldParses(num, fields.f, fields.trail + ("," + tail));
      FieldListParses(num, fields.rest, rest);
      assert WriteFields(fields) + rest == WriteField(fields.f) + (fields.trail + ("," + tail));
    }
  }

  // ---------------------------------------------------------------------------
  // Nothing else is accepted
  // ---------------------------------------------------------------------------

  lemma {:induction false} SkippedIsBlank(s: string) returns (blank: string)
    ensures Blank(blank) && s == blank + SkipWs(s)
  {
    if s != "" && IsWs(s[0]) {
      var more := SkippedIsBlank(s[1..]);
      blank := [s[0]] + more;
      assert s == [s[0]] + s[1..];
    } else {
      blank := "";
      assert s == "" + s;
    }
  }

  /** The tree stands for what was read: it writes the text up to the rest, and has the value. */
  ghost predicate IsDocOf(num: Numbers, d: Doc, text: string, v: Value, rest: string) {
    ValidDoc(d) && text == WriteDoc(d) + rest && DocValue(num, d) == v
  }

  ghost predicate IsItemsOf(num: Numbers, items: Items, text: string, xs: Values, rest: string) {
    ValidItems(items) && text == WriteItems(items) + rest && ItemValues(num, items) == xs
  }

  ghost predicate IsFieldOf(num: Numbers, f: Field, text: string, k: string, v: Value, rest: string) {
    ValidField(f) && text == WriteField(f) + rest && KeyOf(f) == k && FieldValue(num, f) == v
  }

  ghost predicate IsFieldsOf(num: Numbers, fields: Fields, text: string, ms: Members, rest: string) {
    ValidFields(fields) && text == WriteFields(fields) + rest && FieldValues(num, fields) == ms
  }

  lemma {:induction false} ValueIsDoc(num: Numbers, text: string) returns (d: Doc)
    requires ParseValue(num, text).Some?
    ensures IsDocOf(num, d, text, ParseValue(num, text).value.0, ParseValue(num, text).value.1)
    decreases |text|, 2
  {
    var lead := SkippedIsBlank(text);
    var s := SkipWs(text);
    var v, rest := ParseValue(num, text).value.0, ParseValue(num, text).value.1;
    var b := BodyOf(num, text, s, v, rest);
    d := Doc(lead, b);
    assert text == lead + (WriteBody(b) + rest);
  }

  lemma {:induction false} BodyOf(num: Numbers, text: string, s: string, v: Value, rest: string) returns (b: Body)
    requires s == SkipWs(text) && ParseValue(num, text) == Some((v, rest))
    ensures ValidBody(b) && s == WriteBody(b) + rest && BodyValue(num, b) == v
    decreases |text|, 1
  {
    NotEmpty(num, text);
    hide ParseValue, ValidBody, WriteBody, BodyValue, SkipWs;
    if s[0] == 'n' || s[0] == 't' || s[0] == 'f' {
      b := WordOf(num, text, s, v, rest);
    } else if s[0] == '\"' {
      b := TextOf(num, text, s, v, rest);
    } else if s[0] == '[' {
      b := ArrayOf(num, text, s, v, rest);
    } else if s[0] == '{' {
      b := ObjectOf(num, text, s, v, rest);
    } else {
      b := NumeralOf(num, text, s, v, rest);
    }
  }

  lemma {:induction false} NotEmpty(num: Numbers, text: string)
    requires ParseValue(num, text).Some?
    ensures SkipWs(text) != ""
  {
  }

  lemma {:induction false} WordOf(num: Numbers, text: string, s: string, v: Value, rest: string) returns (b: Body)
    requires s == SkipWs(text) && ParseValue(num, text) == Some((v, rest))
    requires s != "" && (s[0] == 'n' || s[0] == 't' || s[0] == 'f')
    ensures ValidBody(b) && s == WriteBody(b) + rest && BodyValue(num, b) == v
  {
    hide ParseStr, ParseItems, ParseMembers, IsNumber, NumSpan, SkipWs;
    var word := if s[0] == 'n' then "null" else if s[0] == 't' then "true" else "false";
    b := Word(word);
    assert ParseLiteral(s, word, v) == Some((v, rest));
    assert s == s[..|word|] + s[|word|..];
  }

  lemma {:induction false} TextOf(num: Numbers, text: string, s: string, v: Value, rest: string) returns (b: Body)
    requires s == SkipWs(text) && ParseValue(num, text) == Some((v, rest)) && s != "" && s[0] == '\"'
    ensures ValidBody(b) && s == WriteBody(b) + rest && BodyValue(num, b) == v
  {
    hide ParseStr, ParseItems, ParseMembers, IsNumber, NumSpan, SkipWs, WritePieces, ValidPieces;
    var ps := StrIsPieces(s[1..]);
    b := Text(ps);
    assert s == "\"" + s[1..];
    assert s == "\"" + WritePieces(ps) + rest;
  }

  lemma {:induction false} NumeralOf(num: Numbers, text: string, s: string, v: Value, rest: string) returns (b: Body)
    requires s == SkipWs(text) && ParseValue(num, text) == Some((v, rest)) && s != ""
    requires s[0] != 'n' && s[0] != 't' && s[0] != 'f' && s[0] != '\"' && s[0] != '[' && s[0] != '{'
    ensures ValidBody(b) && s == WriteBody(b) + rest && BodyValue(num, b) == v
  {
    hide ParseStr, ParseItems, ParseMembers, ParseLiteral, IsNumber, SkipWs, WriteNumeral, ValidNumeral;
    var n := NumberIsWritten(s[..NumSpan(s)]);
    b := Number(n);
    assert s == s[..NumSpan(s)] + s[NumSpan(s)..];
  }

  /** What was read after the opening bracket. */
  lemma {:induction false} ArrayShape(num: Numbers, text: string, s: string, v: Value, rest: string)
    requires s == SkipWs(text) && ParseValue(num, text) == Some((v, rest)) && s != "" && s[0] == '['
    ensures var s1 := SkipWs(s[1..]);
      if s1 != "" && s1[0] == ']' then v == Arr(VNil) && rest == s1[1..]
      else v.Arr? && ParseItems(num, s1) == Some((v.items, rest))
  {
    hide ParseStr, ParseItems, ParseMembers, IsNumber, ParseLiteral, NumSpan, SkipWs;
  }

  lemma {:induction false} EmptyArrIsBody(num: Numbers, s: string, blank: string, s1: string)
    requires s != "" && s[0] == '[' && s1 != "" && s1[0] == ']' && Blank(blank) && s[1..] == blank + s1
    ensures var b := EmptyArr(blank);
      ValidBody(b) && s == WriteBody(b) + s1[1..] && BodyValue(num, b) == Arr(VNil)
  {
    assert s == "[" + s[1..] && s1 == "]" + s1[1..];
    assert s == "[" + (blank + "]") + s1[1..];
  }

  lemma {:induction false} ItemsAreBody(num: Numbers, s: string, items: Items, v: Value, rest: string)
    requires s != "" && s[0] == '[' && v.Arr? && IsItemsOf(num, items, s[1..], v.items, rest)
    ensures var b := Body.Items(items); ValidBody(b) && s == WriteBody(b) + rest && BodyValue(num, b) == v
  {
    hide WriteItems, ValidItems, ItemValues;
    assert s == "[" + s[1..];
    assert s == "[" + WriteItems(items) + rest;
  }

  lemma {:induction false} ArrayOf(num: Numbers, text: string, s: string, v: Value, rest: string) returns (b: Body)
    requires s == SkipWs(text) && ParseValue(num, text) == Some((v, rest)) && s != "" && s[0] == '['
    ensures ValidBody(b) && s == WriteBody(b) + rest && BodyValue(num, b) == v
    decreases |text|, 0
  {
    ArrayShape(num, text, s, v, rest);
    hide ParseValue, ParseItems, ParseMembers, SkipWs, ValidBody, WriteBody, BodyValue, IsItemsOf;
    var s1 := SkipWs(s[1..]);
    if s1 != "" && s1[0] == ']' {
      var blank := SkippedIsBlank(s[1..]);
      b := EmptyArr(blank);
      EmptyArrIsBody(num, s, blank, s1);
    } else {
      ItemsSkipBlank(num, s[1..]);
      var items := ItemsOf(num, s[1..]);
      b := Items(items);
      ItemsAreBody(num, s, items, v, rest);
    }
  }

  /** What was read after the opening brace. */
  lemma {:induction false} ObjectShape(num: Numbers, text: string, s: string, v: Value, rest: string)
    requires s == SkipWs(text) && ParseValue(num, text) == Some((v, rest)) && s != "" && s[0] == '{'
    ensures var s1 := SkipWs(s[1..]);
      if s1 != "" && s1[0] == '}' then v == Obj(MNil) && rest == s1[1..]
      else v.Obj? && ParseMembers(num, s1) == Some((v.members, rest))
  {
    hide ParseStr, ParseItems, ParseMembers, IsNumber, ParseLiteral, NumSpan, SkipWs;
  }

  lemma {:induction false} EmptyObjIsBody(num: Numbers, s: string, blank: string, s1: string)
    requires s != "" && s[0] == '{' && s1 != "" && s1[0] == '}' && Blank(blank) && s[1..] == blank + s1
    ensures var b := EmptyObj(blank);
      ValidBody(b) && s == WriteBody(b) + s1[1..] && BodyValue(num, b) == Obj(MNil)
  {
    assert s == "{" + s[1..] && s1 == "}" + s1[1..];
    assert s == "{" + (blank + "}") + s1[1..];
  }

  lemma {:induction false} FieldsAreBody(num: Numbers, s: string, fields: Fields, v: Value, rest: string)
    requires s != "" && s[0] == '{' && v.Obj? && IsFieldsOf(num, fields, s[1..], v.members, rest)
    ensures var b := Body.Fields(fields); ValidBody(b) && s == WriteBody(b) + rest && BodyValue(num, b) == v
  {
    hide WriteFields, ValidFields, FieldValues;
    assert s == "{" + s[1..];
    assert s == "{" + WriteFields(fields) + rest;
  }

  lemma {:induction false} ObjectOf(num: Numbers, text: string, s: string, v: Value, rest: string) returns (b: Body)
    requires s == SkipWs(text) && ParseValue(num, text) == Some((v, rest)) && s != "" && s[0] == '{'
    ensures ValidBody(b) && s == WriteBody(b) + rest && BodyValue(num, b) == v
    decreases |text|, 0
  {
    ObjectShape(num, text, s, v, rest);
    hide ParseValue, ParseItems, ParseMembers, SkipWs, ValidBody, WriteBody, BodyValue, IsFieldsOf;
    var s1 := SkipWs(s[1..]);
    if s1 != "" && s1[0] == '}' {
      var blank := SkippedIsBlank(s[1..]);
      b := EmptyObj(blank);
      EmptyObjIsBody(num, s, blank, s1);
    } else {
      ItemsSkipBlank(num, s[1..]);
      var fields := FieldsOf(num, s[1..]);
      b := Fields(fields);
      FieldsAreBody(num, s, fields, v, rest);
    }
  }

  lemma {:induction false} ItemsOf(num: Numbers, text: string) returns (items: Items)
    requires ParseItems(num, text).Some?
    ensures IsItemsOf(num, items, text, ParseItems(num, text).value.0, ParseItems(num, text).value.1)
    decreases |text|, 3
  {
    hide ParseValue, ValidDoc, WriteDoc, DocValue, SkipWs;
    var d := ValueIsDoc(num, text);
    var rest := ParseValue(num, text).value.1;
    var trail := SkippedIsBlank(rest);
    var s := SkipWs(rest);
    assert s == [s[0]] + s[1..];
    if s[0] == ']' {
      items := LastItem(d, trail);
      assert text == WriteDoc(d) + (trail + "]") + s[1..];
    } else {
      var more := ItemsOf(num, s[1..]);
      items := Item(d, trail, more);
      var tail := ParseItems(num, s[1..]).value.1;
      assert text == WriteDoc(d) + (trail + ("," + WriteItems(more))) + tail;
    }
  }

  lemma {:induction false} FieldOf(num: Numbers, text: string) returns (f: Field)
    requires ParseMember(num, text).Some?
    ensures var (k, v, rest) := ParseMember(num, text).value; IsFieldOf(num, f, text, k, v, rest)
    decreases |text|, 3
  {
    hide ParseValue, ValidDoc, WriteDoc, DocValue, SkipWs, ParseStr, WritePieces, ValidPieces, Chars;
    var lead := SkippedIsBlank(text);
    var s := SkipWs(text);
    var key := StrIsPieces(s[1..]);
    var afterKey := ParseStr(s[1..]).value.1;
    var colon := SkippedIsBlank(afterKey);
    var s1 := SkipWs(afterKey);
    var d := ValueIsDoc(num, s1[1..]);
    var rest := ParseMember(num, text).value.2;
    f := Field(lead, key, colon, d);
    assert s == "\"" + s[1..] && s1 == ":" + s1[1..];
    assert text == lead + ("\"" + (WritePieces(key) + (colon + (":" + WriteDoc(d))))) + rest;
  }

  lemma {:induction false} FieldsOf(num: Numbers, text: string) returns (fields: Fields)
    requires ParseMembers(num, text).Some?
    ensures IsFieldsOf(num, fields, text, ParseMembers(num, text).value.0, ParseMembers(num, text).value.1)
    decreases |text|, 4
  {
    hide ParseMember, ValidField, WriteField, FieldValue, KeyOf, SkipWs, Join;
    var f := FieldOf(num, text);
    var rest := ParseMember(num, text).value.2;
    var trail := SkippedIsBlank(rest);
    var s := SkipWs(rest);
    assert s == [s[0]] + s[1..];
    if s[0] == '}' {
      fields := LastField(f, trail);
      assert text == WriteField(f) + (trail + "}") + s[1..];
    } else {
      var more := FieldsOf(num, s[1..]);
      fields := AndField(f, trail, more);
      var tail := ParseMembers(num, s[1..]).value.1;
      assert text == WriteField(f) + (trail + ("," + WriteFields(more))) + tail;
    }
  }

  // ---------------------------------------------------------------------------
  // The parser is the grammar
  // ---------------------------------------------------------------------------

  /** The whole text is a value with white space around it. */
  ghost predicate IsTextOf(d: Doc, tail: string, text: string) {
    ValidDoc(d) && Blank(tail) && text == WriteDoc(d) + tail
  }

  lemma {:induction false} GrammarParses(num: Numbers, d: Doc, tail: string, text: string)
    requires IsTextOf(d, tail, text)
    ensures Parse(num, text) == Some(DocValue(num, d))
  {
    hide ParseValue, ValidDoc, WriteDoc, DocValue;
    DocParses(num, d, tail);
    BlankIsSkipped(tail, "");
    assert tail + "" == tail;
  }

  lemma {:induction false} ParsedIsGrammar(num: Numbers, text: string) returns (d: Doc, tail: string)
    requires Parse(num, text).Some?
    ensures IsTextOf(d, tail, text)
  {
    hide ParseValue, ValidDoc, WriteDoc, DocValue;
    d := ValueIsDoc(num, text);
    tail := ParseValue(num, text).value.1;
    var blank := SkippedIsBlank(tail);
    assert blank + "" == blank;
  }

  /** `JSON.parse` accepts exactly the texts of the grammar, and reads each as the value of its tree. */
  lemma {:induction false} ParseIsGrammar(num: Numbers, text: string)
    ensures Parse(num, text).Some? <==> exists d, tail :: IsTextOf(d, tail, text)
    ensures forall d, tail :: IsTextOf(d, tail, text) ==> Parse(num, text) == Some(DocValue(num, d))
  {
    hide Parse, IsTextOf;
    if Parse(num, text).Some? {
      var d, tail := ParsedIsGrammar(num, text);
    }
    forall d, tail | IsTextOf(d, tail, text)
      ensures ValidDoc(d) && Parse(num, text) == Some(DocValue(num, d))
    {
      IsTextIsValid(d, tail, text);
      GrammarParses(num, d, tail, text);
    }
  }

  lemma {:induction false} IsTextIsValid(d: Doc, tail: string, text: string)
    requires IsTextOf(d, tail, text)
    ensures ValidDoc(d)
  {
  }
}
