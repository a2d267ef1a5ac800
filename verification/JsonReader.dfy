/** A reader of compact JSON text, and the round trip: it reads every printed value back, so printing loses nothing. */
module JsonReader {
  import opened Basics
  import opened Json

  // ------------------------------------------------------------------ numbers

  predicate IsDigit(c: char) {
    '0' <= c <= '9'
  }

  predicate AllDigits(s: string) {
    forall i :: 0 <= i < |s| ==> IsDigit(s[i])
  }

  /** The longest run of leading digits, and what follows it. */
  function Span(s: string): (parts: (string, string))
    ensures parts.0 + parts.1 == s && AllDigits(parts.0)
  {
    if s == "" || !IsDigit(s[0]) then ("", s)
    else var (digits, rest) := Span(s[1..]); ([s[0]] + digits, rest)
  }

  function NatOf(digits: string): nat
    requires AllDigits(digits)
  {
    if digits == "" then 0
    else 10 * NatOf(digits[..|digits| - 1]) + (digits[|digits| - 1] as int - '0' as int)
  }

  function ReadExponent(s: string): (read: (Option<int>, string))
    ensures |read.1| <= |s|
  {
    if s == "" || s[0] != 'e' then (None, s)
    else if |s| >= 2 && s[1] == '-' then
      var (digits, rest) := Span(s[2..]);
      var exponent := -(NatOf(digits) as int);
      (Some(exponent), rest)
    else var (digits, rest) := Span(s[1..]); (Some(NatOf(digits)), rest)
  }

  function ReadFraction(s: string): (read: (string, string))
    ensures |read.1| <= |s| && AllDigits(read.0)
  {
    if s != "" && s[0] == '.' then Span(s[1..]) else ("", s)
  }

  function ReadNumber(s: string): (read: Option<(Number, string)>)
    ensures read.Some? ==> |read.value.1| < |s|
  {
    var negative := s != "" && s[0] == '-';
    var (whole, afterWhole) := Span(if negative then s[1..] else s);
    if whole == "" then None
    else
      var (fraction, afterFraction) := ReadFraction(afterWhole);
      var (exponent, rest) := ReadExponent(afterFraction);
      Some((Number(negative, NatOf(whole + fraction), |fraction|, exponent), rest))
  }

  // ------------------------------------------------------------------ strings

  function HexValue(c: char): (d: nat)
    ensures d < 16
  {
    if IsDigit(c) then c as int - '0' as int else if 'a' <= c <= 'f' then c as int - 'a' as int + 10 else 0
  }

  /** One character of a string, which may be escaped. */
  function ReadChar(s: string): (read: Option<(char, string)>)
    ensures read.Some? ==> |read.value.1| < |s|
  {
    if s == "" then None
    else if s[0] != '\\' then Some((s[0], s[1..]))
    else if |s| < 2 then None
    else match s[1]
      case 'b' => Some((8 as char, s[2..]))
      case 't' => Some(('\t', s[2..]))
      case 'n' => Some(('\n', s[2..]))
      case 'f' => Some((12 as char, s[2..]))
      case 'r' => Some(('\r', s[2..]))
      case 'u' => if |s| < 6 then None else Some(((16 * HexValue(s[4]) + HexValue(s[5])) as char, s[6..]))
      case c => Some((c, s[2..]))
  }

  /** The rest of a string up to its closing quote. */
  function ReadText(s: string): (read: Option<(string, string)>)
    ensures read.Some? ==> |read.value.1| < |s|
    decreases |s|
  {
    if s == "" then None
    else if s[0] == '\"' then Some(("", s[1..]))
    else match ReadChar(s)
      case None => None
      case Some((c, rest)) =>
        match ReadText(rest)
        case None => None
        case Some((text, after)) => Some(([c] + text, after))
  }

  // ------------------------------------------------------------------- values

  function ReadValue(s: string): (read: Option<(Json, string)>)
    ensures read.Some? ==> |read.value.1| < |s|
    decreases |s|, 0
  {
    if s == "" then None
    else match s[0]
      case 'n' => if "null" <= s then Some((Null, s[4..])) else None
      case 't' => if "true" <= s then Some((Bool(true), s[4..])) else None
      case 'f' => if "false" <= s then Some((Bool(false), s[5..])) else None
      case '\"' => (match ReadText(s[1..]) case None => None case Some((text, rest)) => Some((Str(text), rest)))
      case '[' =>
        if |s| > 1 && s[1] == ']' then Some((Arr([]), s[2..]))
        else (match ReadItems(s[1..]) case None => None case Some((items, rest)) => Some((Arr(items), rest)))
      case '{' =>
        if |s| > 1 && s[1] == '}' then Some((Obj(map[]), s[2..]))
        else (match ReadFields(s[1..]) case None => None case Some((fields, rest)) => Some((Obj(fields), rest)))
      case _ => (match ReadNumber(s) case None => None case Some((n, rest)) => Some((Num(n), rest)))
  }

  function ReadItems(s: string): (read: Option<(seq<Json>, string)>)
    ensures read.Some? ==> |read.value.1| < |s|
    decreases |s|, 1
  {
    match ReadValue(s)
    case None => None
    case Some((v, rest)) =>
      if rest == "" then None
      else if rest[0] == ']' then Some(([v], rest[1..]))
      else if rest[0] != ',' then None
      else match ReadItems(rest[1..])
        case None => None
        case Some((items, after)) => Some(([v] + items, after))
  }

  function ReadFields(s: string): (read: Option<(map<string, Json>, string)>)
    ensures read.Some? ==> |read.value.1| < |s|
    decreases |s|, 1
  {
    if s == "" || s[0] != '\"' then None
    else match ReadText(s[1..])
      case None => None
      case Some((key, afterKey)) =>
        if afterKey == "" || afterKey[0] != ':' then None
        else match ReadValue(afterKey[1..])
          case None => None
          case Some((v, rest)) =>
            if rest == "" then None
            else if rest[0] == '}' then Some((map[key := v], rest[1..]))
            else if rest[0] != ',' then None
            else match ReadFields(rest[1..])
              case None => None
              case Some((fields, after)) => Some((map[key := v] + fields, after))
  }

  /** The value of a whole text. */
  function Read(text: string): Option<Json> {
    match ReadValue(text)
    case None => None
    case Some((v, rest)) => if rest == "" then Some(v) else None
  }

  // --------------------------------------------------------------- round trips

  lemma Assoc(a: string, b: string, c: string)
    ensures (a + b) + c == a + (b + c)
  {}

  lemma Glue(a: string, b: string, c: string, d: string)
    ensures a + b + c + d == a + (b + c + d)
  {}

  lemma DigitIsDecimal(d: nat)
    requires d < 10
    ensures IsDigit(Digit(d)) && Digit(d) as int - '0' as int == d
  {}

  lemma NatOfAppended(front: string, d: nat)
    requires AllDigits(front) && d < 10
    ensures AllDigits(front + [Digit(d)]) && NatOf(front + [Digit(d)]) == 10 * NatOf(front) + d
  {
    DigitIsDecimal(d);
    assert (front + [Digit(d)])[..|front|] == front;
  }

  lemma {:induction false} DigitsReadBack(n: nat)
    ensures Digits(n) != "" && AllDigits(Digits(n)) && NatOf(Digits(n)) == n
  {
    if n < 10 {
      NatOfAppended("", n);
      assert "" + [Digit(n)] == [Digit(n)];
    } else {
      DigitsReadBack(n / 10);
      NatOfAppended(Digits(n / 10), n % 10);
    }
  }

  /** The digits before and after the point are all the digits. */
  lemma {:induction false} PlacesReadBack(n: nat, places: nat)
    ensures AllDigits(FractionDigits(n, places)) && |FractionDigits(n, places)| == places
    ensures var whole := Digits(WholePart(n, places)); AllDigits(whole) && whole != ""
    ensures AllDigits(Digits(WholePart(n, places)) + FractionDigits(n, places))
    ensures NatOf(Digits(WholePart(n, places)) + FractionDigits(n, places)) == n
  {
    if places == 0 {
      DigitsReadBack(n);
      assert Digits(n) + "" == Digits(n);
    } else {
      var whole, front := Digits(WholePart(n, places)), FractionDigits(n / 10, places - 1);
      PlacesReadBack(n / 10, places - 1);
      DigitIsDecimal(n % 10);
      NatOfAppended(whole + front, n % 10);
      Assoc(whole, front, [Digit(n % 10)]);
    }
  }

  predicate NoDigitFirst(s: string) {
    s == "" || !IsDigit(s[0])
  }

  lemma {:induction false} SpanStops(digits: string, rest: string)
    requires AllDigits(digits) && NoDigitFirst(rest)
    ensures Span(digits + rest) == (digits, rest)
  {
    if digits == "" {
      assert digits + rest == rest;
    } else {
      SpanStops(digits[1..], rest);
      assert (digits + rest)[1..] == digits[1..] + rest;
      assert [digits[0]] + digits[1..] == digits;
    }
  }

  /** What may follow a value: nothing, or the next mark of the enclosing array or object. */
  predicate Ends(s: string) {
    s == "" || s[0] == ',' || s[0] == ']' || s[0] == '}'
  }

  lemma ExponentReadsBack(exponent: Option<int>, x: string)
    requires Ends(x)
    ensures ReadExponent(PrintExponent(exponent) + x) == (exponent, x)
    ensures NoDigitFirst(PrintExponent(exponent) + x)
    ensures PrintExponent(exponent) + x == "" || (PrintExponent(exponent) + x)[0] != '.'
  {
    match exponent
    case None =>
      assert "" + x == x;
    case Some(e) =>
      var magnitude := if e >= 0 then e else -e;
      var front := if e >= 0 then "e" else "e-";
      DigitsReadBack(magnitude);
      SpanStops(Digits(magnitude), x);
      Assoc(front, Digits(magnitude), x);
      var text := front + (Digits(magnitude) + x);
      assert text[|front|..] == Digits(magnitude) + x;
      assert e >= 0 ==> text[1] == Digits(magnitude)[0] && IsDigit(text[1]);
  }

  function Fraction(n: Number): string {
    if n.scale == 0 then "" else "." + FractionDigits(n.digits, n.scale)
  }

  function Sign(n: Number): string {
    if n.negative then "-" else ""
  }

  lemma FractionReadsBack(n: Number, rest: string)
    requires NoDigitFirst(rest) && (rest == "" || rest[0] != '.')
    ensures ReadFraction(Fraction(n) + rest) == (FractionDigits(n.digits, n.scale), rest)
    ensures NoDigitFirst(Fraction(n) + rest)
  {
    PlacesReadBack(n.digits, n.scale);
    if n.scale == 0 {
      assert "" + rest == rest;
    } else {
      var digits := FractionDigits(n.digits, n.scale);
      SpanStops(digits, rest);
      Assoc(".", digits, rest);
      assert ("." + (digits + rest))[1..] == digits + rest;
    }
  }

  lemma NumberReadsBack(n: Number, x: string)
    requires Ends(x)
    ensures ReadNumber(PrintNumber(n) + x) == Some((n, x))
  {
    var whole, tail := Digits(WholePart(n.digits, n.scale)), PrintExponent(n.exponent) + x;
    var text := whole + (Fraction(n) + tail);
    assert PrintNumber(n) + x == Sign(n) + text by {
      Assoc(Sign(n) + whole + Fraction(n), PrintExponent(n.exponent), x);
      Assoc(Sign(n) + whole, Fraction(n), tail);
      Assoc(Sign(n), whole, Fraction(n) + tail);
    }
    PlacesReadBack(n.digits, n.scale);
    ExponentReadsBack(n.exponent, x);
    FractionReadsBack(n, tail);
    SpanStops(whole, Fraction(n) + tail);
    hide Digits, Span, ReadFraction, ReadExponent, PrintExponent, Fraction, NatOf, WholePart, FractionDigits;
    if n.negative {
      assert ("-" + text)[1..] == text;
    } else {
      assert "" + text == text;
      assert text[0] == whole[0] && IsDigit(text[0]);
    }
  }

  lemma HexReadsBack(d: nat)
    requires d < 16
    ensures HexValue(Digit(d)) == d
  {}

  predicate IsControl(c: char) {
    c as int < 0x20 && c !in {8 as char, '\t', '\n', 12 as char, '\r'}
  }

  lemma ControlReadsBack(c: char, rest: string)
    requires IsControl(c)
    ensures ReadChar(Escape(c) + rest) == Some((c, rest))
  {
    var high, low := Digit(c as int / 16), Digit(c as int % 16);
    HexReadsBack(c as int / 16);
    HexReadsBack(c as int % 16);
    assert Escape(c) == "\\u00" + [high, low];
    hide Digit, HexValue, Escape;
    var text := "\\u00" + [high, low] + rest;
    assert text[0] == '\\' && text[1] == 'u' && text[4] == high && text[5] == low;
    assert text[6..] == rest;
  }

  lemma CharReadsBack(c: char, rest: string)
    ensures ReadChar(Escape(c) + rest) == Some((c, rest))
    ensures Escape(c)[0] != '\"'
  {
    if IsControl(c) {
      ControlReadsBack(c, rest);
    } else {
      hide Digit, HexValue;
      var text := Escape(c) + rest;
      assert text[|Escape(c)|..] == rest;
    }
  }

  lemma {:induction false} TextReadsBack(s: string, x: string)
    ensures ReadText(EscapeAll(s) + "\"" + x) == Some((s, x))
  {
    if s == "" {
      var text := EscapeAll(s) + "\"" + x;
      assert text[0] == '\"' && text[1..] == x;
    } else {
      hide Escape, ReadChar;
      var rest := EscapeAll(s[1..]) + "\"" + x;
      TextReadsBack(s[1..], x);
      CharReadsBack(s[0], rest);
      assert EscapeAll(s) + "\"" + x == Escape(s[0]) + rest;
      assert (Escape(s[0]) + rest)[0] == Escape(s[0])[0];
      assert [s[0]] + s[1..] == s;
    }
  }

  /** The text of a value tells its kind by its first character. */
  predicate StartsLike(text: string, v: Json) {
    && text != ""
    && match v
       case Null => "null" <= text
       case Bool(b) => (if b then "true" else "false") <= text
       case Num(_) => text[0] == '-' || IsDigit(text[0])
       case Str(_) => text[0] == '\"'
       case Arr(_) => text[0] == '['
       case Obj(_) => text[0] == '{'
  }

  lemma PrintStartsLike(v: Json, x: string)
    ensures StartsLike(Print(v) + x, v)
  {
    match v
    case Num(n) =>
      var whole := Digits(WholePart(n.digits, n.scale));
      DigitsReadBack(WholePart(n.digits, n.scale));
      assert PrintNumber(n)[0] == if n.negative then '-' else whole[0];
    case _ =>
  }

  lemma WordReadsBack(v: Json, x: string)
    requires v.Null? || v.Bool?
    ensures ReadValue(Print(v) + x) == Some((v, x))
  {
    var word := Print(v);
    var text := word + x;
    assert text[|word|..] == x;
    assert word <= text && text[0] == word[0];
  }

  lemma ItemsEnd(text: string, v: Json, x: string)
    requires ReadValue(text) == Some((v, "]" + x))
    ensures ReadItems(text) == Some(([v], x))
  {
    hide ReadValue;
    assert ("]" + x)[1..] == x;
  }

  lemma ItemsGoOn(text: string, v: Json, later: string, items: seq<Json>, x: string)
    requires ReadValue(text) == Some((v, "," + later)) && ReadItems(later) == Some((items, x))
    ensures ReadItems(text) == Some(([v] + items, x))
  {
    hide ReadValue;
    assert ("," + later)[1..] == later;
  }

  lemma FieldEnds(key: string, text: string, v: Json, x: string)
    requires ReadValue(text) == Some((v, "}" + x))
    ensures ReadFields(Quote(key) + ":" + text) == Some((map[key := v], x))
  {
    KeyReadsBack(key, text);
    hide ReadValue, ReadText, EscapeAll;
    assert ("}" + x)[1..] == x;
  }

  lemma FieldsGoOn(key: string, text: string, v: Json, later: string, fields: map<string, Json>, x: string)
    requires ReadValue(text) == Some((v, "," + later)) && ReadFields(later) == Some((fields, x))
    ensures ReadFields(Quote(key) + ":" + text) == Some((map[key := v] + fields, x))
  {
    KeyReadsBack(key, text);
    hide ReadValue, ReadText, EscapeAll;
    assert ("," + later)[1..] == later;
  }

  lemma KeyReadsBack(key: string, text: string)
    ensures var whole := Quote(key) + ":" + text;
            && whole[0] == '\"' && ReadText(whole[1..]) == Some((key, ":" + text))
            && (":" + text)[0] == ':' && (":" + text)[1..] == text
  {
    var whole := Quote(key) + ":" + text;
    hide EscapeAll, ReadText;
    TextReadsBack(key, ":" + text);
    assert whole[1..] == EscapeAll(key) + "\"" + (":" + text);
  }

  /** A printed value, followed by what may follow it, is read back with exactly that left over. */
  lemma {:induction false} ValueReadsBack(v: Json, x: string)
    requires Ends(x)
    ensures ReadValue(Print(v) + x) == Some((v, x))
    decreases v, 2, 0
  {
    match v
    case Num(n) =>
      PrintStartsLike(v, x);
      NumberReadsBack(n, x);
      hide ReadNumber, PrintNumber, ReadValue;
      NumberOpens(Print(v) + x, n, x);
    case Str(s) =>
      TextReadsBack(s, x);
      hide ReadText, EscapeAll, ReadValue;
      assert Print(v) + x == "\"" + (EscapeAll(s) + "\"" + x);
      TextOpens(EscapeAll(s) + "\"" + x, s, x);
    case Arr(items) =>
      ArrayReadsBack(v, x);
    case Obj(fields) =>
      ObjectReadsBack(v, x);
    case _ =>
      WordReadsBack(v, x);
  }

  /** The items from `from` on, without the comma in front of them. */
  function ItemsText(v: Json, from: nat): string
    requires v.Arr? && from < |v.items|
  {
    Print(v.items[from]) + PrintItems(v, from + 1)
  }

  lemma ItemsUnfold(v: Json, from: nat)
    requires v.Arr? && from <= |v.items|
    ensures PrintItems(v, from)
         == if from == |v.items| then "" else if from == 0 then ItemsText(v, 0) else "," + ItemsText(v, from)
  {
    hide Print;
    if from < |v.items| {
      Assoc(if from == 0 then "" else ",", Print(v.items[from]), PrintItems(v, from + 1));
    }
  }

  lemma StartsNoClose(text: string, v: Json)
    requires StartsLike(text, v)
    ensures text[0] != ']'
  {
    var word := if v.Null? then "null" else if v.Bool? && v.b then "true" else "false";
    assert word <= text ==> text[0] == word[0];
  }

  lemma {:induction false} ArrayReadsBack(v: Json, x: string)
    requires v.Arr?
    ensures ReadValue(Print(v) + x) == Some((v, x))
    decreases v, 1, 0
  {
    ItemsUnfold(v, 0);
    assert Print(v) == "[" + PrintItems(v, 0) + "]";
    if v.items == [] {
      assert Print(v) == "[]";
      hide Print, ReadValue, PrintItems;
      EmptyReadsBack(x);
    } else {
      hide ReadValue, ReadItems;
      ItemsReadBack(v, 0, x);
      var items := ItemsText(v, 0) + "]" + x;
      Glue(Print(v.items[0]), PrintItems(v, 1), "]", x);
      PrintStartsLike(v.items[0], PrintItems(v, 1) + "]" + x);
      hide Print, PrintItems, ItemsText;
      StartsNoClose(items, v.items[0]);
      Glue("[", ItemsText(v, 0), "]", x);
      assert v.items[0..] == v.items;
      hide StartsLike;
      OpenArray(items, v.items, x);
    }
  }

  lemma EmptyReadsBack(x: string)
    ensures ReadValue("[]" + x) == Some((Arr([]), x)) && ReadValue("{}" + x) == Some((Obj(map[]), x))
  {
    assert ("[]" + x)[2..] == x && ("{}" + x)[2..] == x;
  }

  lemma TextOpens(text: string, t: string, x: string)
    requires ReadText(text) == Some((t, x))
    ensures ReadValue("\"" + text) == Some((Str(t), x))
  {
    hide ReadItems, ReadFields, ReadNumber, ReadText;
    assert ("\"" + text)[1..] == text;
  }

  lemma NumberOpens(text: string, n: Number, x: string)
    requires text != "" && (text[0] == '-' || IsDigit(text[0])) && ReadNumber(text) == Some((n, x))
    ensures ReadValue(text) == Some((Num(n), x))
  {
    hide ReadItems, ReadFields, ReadNumber, ReadText;
  }

  lemma OpenArray(text: string, items: seq<Json>, x: string)
    requires text != "" && text[0] != ']' && ReadItems(text) == Some((items, x))
    ensures ReadValue("[" + text) == Some((Arr(items), x))
  {
    hide ReadItems, ReadFields, ReadNumber, ReadText;
    assert ("[" + text)[1..] == text && ("[" + text)[1] == text[0];
  }

  lemma OpenObject(text: string, fields: map<string, Json>, x: string)
    requires text != "" && text[0] != '}' && ReadFields(text) == Some((fields, x))
    ensures ReadValue("{" + text) == Some((Obj(fields), x))
  {
    hide ReadItems, ReadFields, ReadNumber, ReadText;
    assert ("{" + text)[1..] == text && ("{" + text)[1] == text[0];
  }

  lemma {:induction false} ItemsReadBack(v: Json, from: nat, x: string)
    requires v.Arr? && from < |v.items|
    ensures ReadItems(ItemsText(v, from) + "]" + x) == Some((v.items[from..], x))
    decreases v, 0, |v.items| - from
  {
    hide Print, ReadValue, ReadItems, PrintItems;
    var item, text := v.items[from], ItemsText(v, from) + "]" + x;
    var rest := PrintItems(v, from + 1) + "]" + x;
    Glue(Print(item), PrintItems(v, from + 1), "]", x);
    assert text == Print(item) + rest;
    ItemsUnfold(v, from + 1);
    hide ItemsText;
    if from + 1 == |v.items| {
      assert rest == "]" + x;
      ValueReadsBack(item, rest);
      ItemsEnd(text, item, x);
      assert v.items[from..] == [item];
    } else {
      var later := ItemsText(v, from + 1) + "]" + x;
      Glue(",", ItemsText(v, from + 1), "]", x);
      assert rest == "," + later;
      ItemsReadBack(v, from + 1, x);
      ValueReadsBack(item, rest);
      ItemsGoOn(text, item, later, v.items[from + 1..], x);
      assert v.items[from..] == [item] + v.items[from + 1..];
    }
  }

  function FieldsOf(v: Json, keys: seq<string>): map<string, Json>
    requires v.Obj? && forall k <- keys :: k in v.fields
  {
    map k | k in keys :: v.fields[k]
  }

  lemma KeysAreAllFields(v: Json)
    requires v.Obj?
    ensures var keys := Lexical.InOrder(v.fields.Keys);
            FieldsOf(v, keys) == v.fields && (keys == [] <==> v.fields == map[])
  {
    var keys := Lexical.InOrder(v.fields.Keys);
    hide Lexical.InOrder;
    assert FieldsOf(v, keys) == v.fields;
    if keys != [] { assert keys[0] in keys; }
    if v.fields != map[] {
      var some :| some in v.fields;
      assert some in keys;
    }
  }

  lemma FieldsOfCons(v: Json, keys: seq<string>)
    requires v.Obj? && keys != [] && forall k <- keys :: k in v.fields
    ensures FieldsOf(v, keys) == map[keys[0] := v.fields[keys[0]]] + FieldsOf(v, keys[1..])
    ensures |keys| == 1 ==> FieldsOf(v, keys) == map[keys[0] := v.fields[keys[0]]]
  {
    assert keys == [keys[0]] + keys[1..];
  }

  lemma {:induction false} ObjectReadsBack(v: Json, x: string)
    requires v.Obj?
    ensures ReadValue(Print(v) + x) == Some((v, x))
    decreases v, 1, 0
  {
    var keys := Lexical.InOrder(v.fields.Keys);
    KeysAreAllFields(v);
    assert Print(v) == "{" + PrintFields(v, keys) + "}";
    if keys == [] {
      assert Print(v) == "{}";
      hide Print, PrintFields, ReadValue, Lexical.InOrder, FieldsOf;
      EmptyReadsBack(x);
    } else {
      hide Print, ReadValue, ReadFields, Lexical.InOrder, FieldsOf, PrintFields;
      FieldsReadBack(v, keys, x);
      FieldsStartWithQuote(v, keys);
      Glue("{", PrintFields(v, keys), "}", x);
      OpenObject(PrintFields(v, keys) + "}" + x, v.fields, x);
    }
  }

  lemma FieldsStartWithQuote(v: Json, keys: seq<string>)
    requires v.Obj? && keys != [] && forall k <- keys :: k in v.fields
    ensures PrintFields(v, keys) != "" && PrintFields(v, keys)[0] == '\"'
  {
    hide Print, EscapeAll;
  }

  lemma FieldsUnfold(v: Json, keys: seq<string>, x: string)
    requires v.Obj? && keys != [] && forall k <- keys :: k in v.fields
    ensures PrintFields(v, keys) + "}" + x
         == Quote(keys[0]) + ":" + (Print(v.fields[keys[0]])
            + (if |keys| == 1 then "}" + x else "," + (PrintFields(v, keys[1..]) + "}" + x)))
  {
    hide Print, Quote;
    var later := PrintFields(v, keys[1..]);
    assert |keys| == 1 ==> later == "";
  }

  lemma {:induction false} FieldsReadBack(v: Json, keys: seq<string>, x: string)
    requires v.Obj? && keys != [] && forall k <- keys :: k in v.fields
    ensures ReadFields(PrintFields(v, keys) + "}" + x) == Some((FieldsOf(v, keys), x))
    decreases v, 0, |keys|
  {
    FieldsUnfold(v, keys, x);
    FieldsOfCons(v, keys);
    hide Print, PrintFields, ReadValue, ReadFields, Quote, FieldsOf;
    var key, later := keys[0], keys[1..];
    var value := v.fields[key];
    if |keys| == 1 {
      ValueReadsBack(value, "}" + x);
      FieldEnds(key, Print(value) + ("}" + x), value, x);
    } else {
      var text := PrintFields(v, later) + "}" + x;
      FieldsReadBack(v, later, x);
      ValueReadsBack(value, "," + text);
      FieldsGoOn(key, Print(value) + ("," + text), value, text, FieldsOf(v, later), x);
    }
  }

  /** Every value is read back from its own text, so different values never print alike. */
  lemma PrintReadsBack(v: Json)
    ensures Read(Print(v)) == Some(v)
    ensures forall other: Json :: Print(other) == Print(v) ==> other == v
  {
    forall other: Json ensures Read(Print(other)) == Some(other) {
      ValueReadsBack(other, "");
      assert Print(other) + "" == Print(other);
    }
  }

  /** The parser reads every printed value back. */
  ghost predicate IsReader(parse: string -> Option<Json>) {
    forall v: Json :: parse(Print(v)) == Some(v)
  }

  /** There is such a parser. */
  lemma ReadIsReader()
    ensures IsReader(Read)
  {
    forall v: Json ensures Read(Print(v)) == Some(v) {
      PrintReadsBack(v);
    }
  }
}
