/**
 * JSON values and their compact text. A string is the sequence of its bytes, so every
 * theorem about text covers every byte string.
 */
module Json {
  import opened Basics
  import Lexical

  /** A number literal: sign, digits, digits after the point, and a written exponent. */
  datatype Number = Number(negative: bool, digits: nat, scale: nat, exponent: Option<int>)

  datatype Json =
    | Null
    | Bool(b: bool)
    | Num(n: Number)
    | Str(s: string)
    | Arr(items: seq<Json>)
    | Obj(fields: map<string, Json>)

  function Get(v: Json, key: string): Option<Json> {
    if v.Obj? && key in v.fields then Some(v.fields[key]) else None
  }

  function GetStr(v: Json, key: string): Option<string> {
    match Get(v, key)
    case Some(Str(s)) => Some(s)
    case _ => None
  }

  function Pow10(n: nat): (p: nat)
    ensures p >= 1
  {
    if n == 0 then 1 else 10 * Pow10(n - 1)
  }

  /** The exact decimal a literal denotes. */
  function Value(n: Number): real {
    var unsigned := n.digits as real / Pow10(n.scale) as real;
    var scaled := match n.exponent
      case None => unsigned
      case Some(e) => if e >= 0 then unsigned * Pow10(e) as real else unsigned / Pow10(-e) as real;
    if n.negative then -scaled else scaled
  }

  const U64_BOUND: nat := 0x1_0000_0000_0000_0000

  /** Only a plain unsigned integer literal in range reads as `u64`. */
  function AsU64(v: Json): Option<nat> {
    match v
    case Num(Number(false, digits, 0, None)) => if digits < U64_BOUND then Some(digits) else None
    case _ => None
  }

  function GetU64(v: Json, key: string): Option<nat> {
    match Get(v, key)
    case Some(n) => AsU64(n)
    case None => None
  }

  /** What is read of a field: the field itself, its string, or its unsigned 64-bit integer. */
  lemma ReadsField(v: Json, key: string)
    ensures forall field :: Get(v, key) == Some(field) <==> v.Obj? && key in v.fields && v.fields[key] == field
    ensures forall s :: GetStr(v, key) == Some(s) <==> v.Obj? && key in v.fields && v.fields[key] == Str(s)
    ensures forall n: nat :: GetU64(v, key) == Some(n) <==>
              v.Obj? && key in v.fields && v.fields[key] == Num(Number(false, n, 0, None)) && n < 18446744073709551616
  {}

  function Digit(d: nat): char
    requires d < 16
  {
    "0123456789abcdef"[d]
  }

  function Digits(n: nat): string {
    if n < 10 then [Digit(n)] else Digits(n / 10) + [Digit(n % 10)]
  }

  function FractionDigits(n: nat, width: nat): string {
    if width == 0 then "" else FractionDigits(n / 10, width - 1) + [Digit(n % 10)]
  }

  function PrintExponent(exponent: Option<int>): string {
    match exponent
    case None => ""
    case Some(e) => if e >= 0 then "e" + Digits(e) else "e-" + Digits(-e)
  }

  /** The digits left once `places` of them are cut off. */
  function WholePart(n: nat, places: nat): nat {
    if places == 0 then n else WholePart(n / 10, places - 1)
  }

  function PrintNumber(n: Number): string {
    (if n.negative then "-" else "")
    + Digits(WholePart(n.digits, n.scale))
    + (if n.scale == 0 then "" else "." + FractionDigits(n.digits, n.scale))
    + PrintExponent(n.exponent)
  }

  /** Control bytes, quotes and backslashes are escaped (section 7 of RFC 8259). */
  function Escape(c: char): string {
    if c == '\"' then "\\\""
    else if c == '\\' then "\\\\"
    else if c as int == 8 then "\\b"
    else if c == '\t' then "\\t"
    else if c == '\n' then "\\n"
    else if c as int == 12 then "\\f"
    else if c == '\r' then "\\r"
    else if c as int < 0x20 then "\\u00" + [Digit(c as int / 16), Digit(c as int % 16)]
    else [c]
  }

  function EscapeAll(s: string): string {
    if s == "" then "" else Escape(s[0]) + EscapeAll(s[1..])
  }

  function Quote(s: string): string {
    "\"" + EscapeAll(s) + "\""
  }

  function Print(v: Json): string
    decreases v, 1, 0
  {
    match v
    case Null => "null"
    case Bool(b) => if b then "true" else "false"
    case Num(n) => PrintNumber(n)
    case Str(s) => Quote(s)
    case Arr(items) => "[" + PrintItems(v, 0) + "]"
    case Obj(fields) => "{" + PrintFields(v, Lexical.InOrder(fields.Keys)) + "}"
  }

  function PrintItems(v: Json, from: nat): string
    requires v.Arr? && from <= |v.items|
    decreases v, 0, |v.items| - from
  {
    if from == |v.items| then ""
    else (if from == 0 then "" else ",") + Print(v.items[from]) + PrintItems(v, from + 1)
  }

  function PrintFields(v: Json, keys: seq<string>): string
    requires v.Obj? && forall k <- keys :: k in v.fields
    decreases v, 0, |keys|
  {
    if keys == [] then ""
    else
      Quote(keys[0]) + ":" + Print(v.fields[keys[0]])
      + (if |keys| == 1 then "" else ",") + PrintFields(v, keys[1..])
  }

  /** The text occupies one line. */
  predicate OneLine(s: string) {
    '\n' !in s && '\r' !in s
  }

  lemma {:induction false} DigitsOneLine(n: nat)
    ensures OneLine(Digits(n))
  {
    if n >= 10 { DigitsOneLine(n / 10); }
  }

  lemma {:induction false} FractionOneLine(n: nat, width: nat)
    ensures OneLine(FractionDigits(n, width))
  {
    if width > 0 { FractionOneLine(n / 10, width - 1); }
  }

  lemma {:induction false} EscapedOneLine(s: string)
    ensures OneLine(EscapeAll(s))
  {
    if s != "" {
      assert OneLine(Escape(s[0]));
      EscapedOneLine(s[1..]);
    }
  }

  lemma NumberOneLine(n: Number)
    ensures OneLine(PrintNumber(n))
  {
    DigitsOneLine(WholePart(n.digits, n.scale));
    FractionOneLine(n.digits, n.scale);
    if n.exponent.Some? {
      DigitsOneLine(if n.exponent.value >= 0 then n.exponent.value else -n.exponent.value);
    }
  }

  /** Compact JSON text never contains a raw CR or LF, whatever its strings hold; an object's starts with a brace. */
  lemma {:induction false} PrintOneLine(v: Json)
    ensures OneLine(Print(v))
    ensures v.Obj? ==> Print(v) != "" && Print(v)[0] == '{'
    decreases v, 1, 0
  {
    match v
    case Num(n) => NumberOneLine(n);
    case Str(s) => EscapedOneLine(s);
    case Arr(items) => ItemsOneLine(v, 0);
    case Obj(fields) => FieldsOneLine(v, Lexical.InOrder(fields.Keys));
    case _ =>
  }

  lemma {:induction false} ItemsOneLine(v: Json, from: nat)
    requires v.Arr? && from <= |v.items|
    ensures OneLine(PrintItems(v, from))
    decreases v, 0, |v.items| - from
  {
    if from < |v.items| {
      PrintOneLine(v.items[from]);
      ItemsOneLine(v, from + 1);
    }
  }

  lemma {:induction false} FieldsOneLine(v: Json, keys: seq<string>)
    requires v.Obj? && forall k <- keys :: k in v.fields
    ensures OneLine(PrintFields(v, keys))
    decreases v, 0, |keys|
  {
    if keys != [] {
      EscapedOneLine(keys[0]);
      PrintOneLine(v.fields[keys[0]]);
      FieldsOneLine(v, keys[1..]);
    }
  }
}
