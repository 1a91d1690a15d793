/** The one-pass scanner that predicts how long PostgreSQL's spaced JSONB text of a compact payload is. */
module JsonSize {
  import opened Prelude

  const MAX_PAYLOAD_BYTES := 65536

  // ---- JSON values and their two texts (RFC 8259, sections 2 to 7) ----

  datatype StringPart =
    | Plain(c: char)
    | Escape(c: char)
    | Unicode(h0: char, h1: char, h2: char, h3: char)

  datatype Exponent = Exponent(mark: char, sign: string, digits: string)

  datatype Number = Number(negative: bool, whole: string, fraction: Option<string>, exponent: Option<Exponent>)

  datatype Json =
    | Null
    | True
    | False
    | Num(number: Number)
    | Str(parts: seq<StringPart>)
    | Arr(items: Items)
    | Obj(fields: Fields)
  datatype Items = NoItems | Item(head: Json, tail: Items)
  datatype Fields = NoFields | Field(key: seq<StringPart>, value: Json, rest: Fields)

  predicate IsDigit(c: char) {
    '0' <= c <= '9'
  }

  predicate IsHex(c: char) {
    IsDigit(c) || 'a' <= c <= 'f' || 'A' <= c <= 'F'
  }

  predicate Digits(s: string) {
    s != "" && forall i :: 0 <= i < |s| ==> IsDigit(s[i])
  }

  predicate ValidPart(p: StringPart) {
    match p
    case Plain(c) => c >= ' ' && c != '"' && c != '\\'
    case Escape(c) => c in "\"\\/bfnrt"
    case Unicode(h0, h1, h2, h3) => IsHex(h0) && IsHex(h1) && IsHex(h2) && IsHex(h3)
  }

  predicate ValidParts(ps: seq<StringPart>) {
    forall i :: 0 <= i < |ps| ==> ValidPart(ps[i])
  }

  predicate ValidExponent(e: Exponent) {
    (e.mark == 'e' || e.mark == 'E') && (e.sign == "" || e.sign == "+" || e.sign == "-") && Digits(e.digits)
  }

  predicate ValidNumber(n: Number) {
    && Digits(n.whole) && (n.whole[0] == '0' ==> |n.whole| == 1)
    && (n.fraction.Some? ==> Digits(n.fraction.value))
    && (n.exponent.Some? ==> ValidExponent(n.exponent.value))
  }

  predicate Valid(v: Json) {
    match v
    case Num(n) => ValidNumber(n)
    case Str(ps) => ValidParts(ps)
    case Arr(items) => ValidItems(items)
    case Obj(fields) => ValidFields(fields)
    case _ => true
  }

  predicate ValidItems(items: Items) {
    items.Item? ==> Valid(items.head) && ValidItems(items.tail)
  }

  predicate ValidFields(fields: Fields) {
    fields.Field? ==> ValidParts(fields.key) && Valid(fields.value) && ValidFields(fields.rest)
  }

  function PartText(p: StringPart): string {
    match p
    case Plain(c) => [c]
    case Escape(c) => ['\\', c]
    case Unicode(h0, h1, h2, h3) => ['\\', 'u', h0, h1, h2, h3]
  }

  function PartsText(ps: seq<StringPart>): string {
    if ps == [] then "" else PartText(ps[0]) + PartsText(ps[1..])
  }

  function Quoted(ps: seq<StringPart>): string {
    "\"" + PartsText(ps) + "\""
  }

  function Mantissa(n: Number): string {
    (if n.negative then "-" else "") + n.whole + (if n.fraction.Some? then "." + n.fraction.value else "")
  }

  function ExponentText(n: Number): string {
    if n.exponent.Some? then [n.exponent.value.mark] + n.exponent.value.sign + n.exponent.value.digits else ""
  }

  function NumberText(n: Number): string {
    Mantissa(n) + ExponentText(n)
  }

  /** The text of a value with `gap` after every comma and every colon. */
  function Text(v: Json, gap: string): string {
    match v
    case Null => "null"
    case True => "true"
    case False => "false"
    case Num(n) => NumberText(n)
    case Str(ps) => Quoted(ps)
    case Arr(items) => "[" + ItemsText(items, gap) + "]"
    case Obj(fields) => "{" + FieldsText(fields, gap) + "}"
  }

  function ItemsText(items: Items, gap: string): string {
    match items
    case NoItems => ""
    case Item(head, tail) => Text(head, gap) + (if tail.NoItems? then "" else "," + gap + ItemsText(tail, gap))
  }

  function FieldsText(fields: Fields, gap: string): string {
    match fields
    case NoFields => ""
    case Field(key, value, rest) =>
      Quoted(key) + ":" + gap + Text(value, gap) + (if rest.NoFields? then "" else "," + gap + FieldsText(rest, gap))
  }

  function Compact(v: Json): string {
    Text(v, "")
  }

  /** How PostgreSQL prints a stored JSONB value. */
  function Spaced(v: Json): string {
    Text(v, " ")
  }

  predicate HasExponent(v: Json) {
    match v
    case Num(n) => n.exponent.Some?
    case Arr(items) => ItemsHaveExponent(items)
    case Obj(fields) => FieldsHaveExponent(fields)
    case _ => false
  }

  predicate ItemsHaveExponent(items: Items) {
    items.Item? && (HasExponent(items.head) || ItemsHaveExponent(items.tail))
  }

  predicate FieldsHaveExponent(fields: Fields) {
    fields.Field? && (HasExponent(fields.value) || FieldsHaveExponent(fields.rest))
  }

  // ---- The scanner on a suffix ----

  predicate EndsNumber(c: char) {
    c == ',' || c == ']' || c == '}'
  }

  predicate MarksExponent(c: char) {
    c == 'e' || c == 'E'
  }

  /** What is left once the scanner has skipped a number, unless an exponent stops it. */
  function AfterNumber(s: string): (rest: Option<string>)
    ensures rest.Some? ==> |rest.value| <= |s|
  {
    if s == "" then Some("")
    else if MarksExponent(s[0]) then None
    else if EndsNumber(s[0]) then Some(s)
    else AfterNumber(s[1..])
  }

  function Plus(n: nat, more: Option<nat>): Option<nat> {
    if more.Some? then Some(n + more.value) else None
  }

  /** How many bytes spacing adds to the rest of a text, from the scanner's state in front of it. */
  function Extra(s: string, inString: bool, escaped: bool): Option<nat>
    decreases |s|
  {
    if s == "" then Some(0)
    else if inString then
      if escaped then Extra(s[1..], true, false)
      else if s[0] == '\\' then Extra(s[1..], true, true)
      else Extra(s[1..], s[0] != '"', false)
    else if s[0] == '"' then Extra(s[1..], true, escaped)
    else if s[0] == ',' || s[0] == ':' then Plus(1, Extra(s[1..], false, escaped))
    else if s[0] == '-' || IsDigit(s[0]) then
      match AfterNumber(s[1..])
      case None => None
      case Some(rest) => Extra(rest, false, escaped)
    else Extra(s[1..], false, escaped)
  }

  function From(payload: string, index: nat): string {
    if index <= |payload| then payload[index..] else ""
  }

  /** The nested loop over a number's characters: stops on a separator, at the end, or on an exponent. */
  method SkipNumber(payload: string, start: nat) returns (index: nat, plain: bool)
    requires start <= |payload|
    ensures start <= index <= |payload|
    ensures plain <==> AfterNumber(payload[start..]).Some?
    ensures plain ==> AfterNumber(payload[start..]) == Some(payload[index..])
  {
    index := start;
    while index < |payload| && !EndsNumber(payload[index])
      invariant start <= index <= |payload|
      invariant AfterNumber(payload[start..]) == AfterNumber(payload[index..])
      decreases |payload| - index
    {
      if MarksExponent(payload[index]) {
        return index, false;
      }
      assert payload[index..][1..] == payload[index + 1..];
      index := index + 1;
    }
    plain := true;
  }

  /** The source's loop, index by index. */
  method PostgresJsonbTextSize(payload: string) returns (size: nat, supported: bool)
    ensures supported <==> Extra(payload, false, false).Some?
    ensures supported ==> size == |payload| + Extra(payload, false, false).value
    ensures !supported ==> size == 0
  {
    var storedSize := |payload|;
    var inString, escaped := false, false;
    var index := 0;
    while index < |payload|
      invariant index <= |payload| + 1
      invariant storedSize >= |payload|
      invariant Extra(payload, false, false) ==
        Plus(storedSize - |payload|, Extra(From(payload, index), inString, escaped))
      decreases |payload| - index
    {
      var character := payload[index];
      assert From(payload, index)[1..] == From(payload, index + 1);
      if inString {
        if escaped {
          escaped := false;
        } else if character == '\\' {
          escaped := true;
        } else if character == '"' {
          inString := false;
        }
      } else if character == '"' {
        inString := true;
      } else if character == ',' || character == ':' {
        storedSize := storedSize + 1;
      } else if character == '-' || IsDigit(character) {
        var plain;
        index, plain := SkipNumber(payload, index + 1);
        if !plain {
          return 0, false;
        }
        if index < |payload| {
          index := index - 1;
        }
      }
      index := index + 1;
    }
    size, supported := storedSize, true;
  }

  // ---- The scanner follows the printer ----

  /** A text may follow a complete value: nothing, or a separator or closing bracket. */
  predicate Follows(rest: string) {
    rest == "" || EndsNumber(rest[0])
  }

  lemma {:induction false} SkipDigits(s: string, rest: string)
    requires forall i :: 0 <= i < |s| ==> !EndsNumber(s[i]) && !MarksExponent(s[i])
    ensures AfterNumber(s + rest) == AfterNumber(rest)
  {
    if s == "" {
      assert s + rest == rest;
    } else {
      assert (s + rest)[1..] == s[1..] + rest;
      SkipDigits(s[1..], rest);
    }
  }

  predicate Skipped(s: string) {
    forall i :: 0 <= i < |s| ==> !EndsNumber(s[i]) && !MarksExponent(s[i])
  }

  lemma MantissaScans(n: Number)
    requires ValidNumber(n)
    ensures |Mantissa(n)| > 0 && (Mantissa(n)[0] == '-' || IsDigit(Mantissa(n)[0])) && Skipped(Mantissa(n))
  {
    var sign := if n.negative then "-" else "";
    var mantissa := Mantissa(n);
    forall i | 0 <= i < |mantissa| ensures !EndsNumber(mantissa[i]) && !MarksExponent(mantissa[i]) {
      if |sign| <= i < |sign| + |n.whole| {
        assert mantissa[i] == n.whole[i - |sign|];
      } else if i > |sign| + |n.whole| {
        assert mantissa[i] == n.fraction.value[i - |sign| - |n.whole| - 1];
      }
    }
  }

  lemma ScanMantissa(mantissa: string, tail: string)
    requires |mantissa| > 0 && (mantissa[0] == '-' || IsDigit(mantissa[0])) && Skipped(mantissa)
    ensures Extra(mantissa + tail, false, false) ==
      if AfterNumber(tail).None? then None else Extra(AfterNumber(tail).value, false, false)
  {
    assert (mantissa + tail)[1..] == mantissa[1..] + tail;
    SkipDigits(mantissa[1..], tail);
  }

  lemma ScanNumber(n: Number, rest: string)
    requires ValidNumber(n) && Follows(rest)
    ensures Extra(NumberText(n) + rest, false, false) == if n.exponent.Some? then None else Extra(rest, false, false)
  {
    MantissaScans(n);
    var tail := ExponentText(n) + rest;
    assert NumberText(n) + rest == Mantissa(n) + tail;
    ScanMantissa(Mantissa(n), tail);
    if n.exponent.Some? {
      assert tail[0] == n.exponent.value.mark;
    } else {
      assert tail == rest;
    }
  }

  lemma {:induction false} ScanInsideString(ps: seq<StringPart>, rest: string)
    requires ValidParts(ps)
    ensures Extra(PartsText(ps) + "\"" + rest, true, false) == Extra(rest, false, false)
  {
    var text := PartsText(ps) + "\"" + rest;
    if ps == [] {
      assert text[1..] == rest;
    } else {
      var tail := PartsText(ps[1..]) + "\"" + rest;
      assert text == PartText(ps[0]) + tail;
      assert ValidPart(ps[0]);
      ScanInsideString(ps[1..], rest);
      ScanPart(ps[0], tail);
    }
  }

  lemma ScanPart(p: StringPart, tail: string)
    requires ValidPart(p)
    ensures Extra(PartText(p) + tail, true, false) == Extra(tail, true, false)
  {
    var text := PartText(p) + tail;
    match p {
      case Plain(c) =>
        assert text[1..] == tail;
      case Escape(c) =>
        assert text[1..] == [c] + tail;
        assert text[1..][1..] == tail;
      case Unicode(h0, h1, h2, h3) =>
        assert text[1..] == ['u'] + ([h0, h1, h2, h3] + tail);
        assert text[1..][1..] == [h0, h1, h2, h3] + tail;
        ScanHex([h0, h1, h2, h3], tail);
    }
  }

  lemma {:induction false} ScanHex(s: string, tail: string)
    requires forall i :: 0 <= i < |s| ==> IsHex(s[i])
    ensures Extra(s + tail, true, false) == Extra(tail, true, false)
  {
    if s == "" {
      assert s + tail == tail;
    } else {
      assert (s + tail)[1..] == s[1..] + tail;
      ScanHex(s[1..], tail);
    }
  }

  lemma ScanQuoted(ps: seq<StringPart>, rest: string)
    requires ValidParts(ps)
    ensures Extra(Quoted(ps) + rest, false, false) == Extra(rest, false, false)
  {
    assert (Quoted(ps) + rest)[1..] == PartsText(ps) + "\"" + rest;
    ScanInsideString(ps, rest);
  }

  /** Characters that neither open a string nor a number nor separate anything cost nothing. */
  predicate Inert(c: char) {
    c != '"' && c != ',' && c != ':' && c != '-' && !IsDigit(c)
  }

  lemma {:induction false} ScanInert(s: string, rest: string)
    requires forall i :: 0 <= i < |s| ==> Inert(s[i])
    ensures Extra(s + rest, false, false) == Extra(rest, false, false)
  {
    if s == "" {
      assert s + rest == rest;
    } else {
      assert (s + rest)[1..] == s[1..] + rest;
      ScanInert(s[1..], rest);
    }
  }

  lemma ScanSeparator(c: char, rest: string)
    requires c == ',' || c == ':'
    ensures Extra([c] + rest, false, false) == Plus(1, Extra(rest, false, false))
  {
    assert ([c] + rest)[1..] == rest;
  }

  /** Commas and colons of a value: what spacing adds. */
  function Gaps(v: Json): nat {
    match v
    case Arr(items) => ItemsGaps(items)
    case Obj(fields) => FieldsGaps(fields)
    case _ => 0
  }

  function ItemsGaps(items: Items): nat {
    match items
    case NoItems => 0
    case Item(head, tail) => Gaps(head) + (if tail.NoItems? then 0 else 1 + ItemsGaps(tail))
  }

  function FieldsGaps(fields: Fields): nat {
    match fields
    case NoFields => 0
    case Field(_, value, rest) => 1 + Gaps(value) + (if rest.NoFields? then 0 else 1 + FieldsGaps(rest))
  }

  function Costs(exponent: bool, gaps: nat, rest: Option<nat>): Option<nat> {
    if exponent then None else Plus(gaps, rest)
  }

  lemma {:induction false} ScanValue(v: Json, rest: string)
    requires Valid(v) && Follows(rest)
    ensures Extra(Compact(v) + rest, false, false) == Costs(HasExponent(v), Gaps(v), Extra(rest, false, false))
    decreases v, 0
  {
    match v {
      case Null => ScanInert("null", rest);
      case True => ScanInert("true", rest);
      case False => ScanInert("false", rest);
      case Num(n) => ScanNumber(n, rest);
      case Str(ps) => ScanQuoted(ps, rest);
      case Arr(items) =>
        ScanItems(items, "]" + rest);
        ScanBracketed('[', ItemsText(items, ""), ']', rest);
      case Obj(fields) =>
        ScanFields(fields, "}" + rest);
        ScanBracketed('{', FieldsText(fields, ""), '}', rest);
    }
  }

  lemma ScanBracketed(open: char, body: string, close: char, rest: string)
    requires Inert(open) && Inert(close)
    ensures Extra([open] + body + [close] + rest, false, false) == Extra(body + ([close] + rest), false, false)
    ensures Extra([close] + rest, false, false) == Extra(rest, false, false)
  {
    assert [open] + body + [close] + rest == [open] + (body + ([close] + rest));
    ScanInert([open], body + ([close] + rest));
    ScanInert([close], rest);
  }

  /** A scanned text costs the spaces it takes, unless an exponent in it stops the scan. */
  predicate Scans(text: string, rest: string, exponent: bool, gaps: nat) {
    Extra(text + rest, false, false) == Costs(exponent, gaps, Extra(rest, false, false))
  }

  /** Two scanned texts around a comma. */
  lemma ScanPair(head: string, tail: string, rest: string, e1: bool, g1: nat, e2: bool, g2: nat)
    requires Scans(head, "," + (tail + rest), e1, g1) && Scans(tail, rest, e2, g2)
    ensures Scans(head + "," + tail, rest, e1 || e2, g1 + 1 + g2)
  {
    ScanSeparator(',', tail + rest);
    assert head + "," + tail + rest == head + ("," + (tail + rest));
  }

  lemma {:induction false} ScanItems(items: Items, rest: string)
    requires ValidItems(items) && Follows(rest)
    ensures Scans(ItemsText(items, ""), rest, ItemsHaveExponent(items), ItemsGaps(items))
    decreases items
  {
    if items.NoItems? {
      assert ItemsText(items, "") + rest == rest;
    } else if items.tail.NoItems? {
      ItemsTextParts(items);
      ScanValue(items.head, rest);
    } else {
      var head, tail := Compact(items.head), ItemsText(items.tail, "");
      ScanValue(items.head, "," + (tail + rest));
      ScanItems(items.tail, rest);
      ScanPair(head, tail, rest, HasExponent(items.head), Gaps(items.head), ItemsHaveExponent(items.tail),
        ItemsGaps(items.tail));
      ItemsTextParts(items);
    }
  }

  lemma ItemsTextParts(items: Items)
    requires items.Item?
    ensures ItemsText(items, "") ==
      if items.tail.NoItems? then Compact(items.head) else Compact(items.head) + "," + ItemsText(items.tail, "")
  {
  }

  /** One field: its quoted key, a colon and its value. */
  function FieldText(key: seq<StringPart>, value: Json): string {
    Quoted(key) + ":" + Compact(value)
  }

  lemma {:induction false} ScanField(key: seq<StringPart>, value: Json, rest: string)
    requires ValidParts(key) && Valid(value) && Follows(rest)
    ensures Scans(FieldText(key, value), rest, HasExponent(value), 1 + Gaps(value))
    decreases value, 1
  {
    ScanValue(value, rest);
    ScanKey(key, Compact(value) + rest);
    ScanAfterKey(Quoted(key), Compact(value), rest, HasExponent(value), Gaps(value));
  }

  lemma ScanAfterKey(quoted: string, body: string, rest: string, exponent: bool, gaps: nat)
    requires Extra(quoted + (":" + (body + rest)), false, false) == Plus(1, Extra(body + rest, false, false))
    requires Scans(body, rest, exponent, gaps)
    ensures Scans(quoted + ":" + body, rest, exponent, 1 + gaps)
  {
    assert quoted + ":" + body + rest == quoted + (":" + (body + rest));
  }

  lemma {:induction false} ScanFields(fields: Fields, rest: string)
    requires ValidFields(fields) && Follows(rest)
    ensures Scans(FieldsText(fields, ""), rest, FieldsHaveExponent(fields), FieldsGaps(fields))
    decreases fields
  {
    if fields.NoFields? {
      assert FieldsText(fields, "") + rest == rest;
    } else if fields.rest.NoFields? {
      FieldsTextParts(fields);
      ScanField(fields.key, fields.value, rest);
    } else {
      var head, tail := FieldText(fields.key, fields.value), FieldsText(fields.rest, "");
      ScanField(fields.key, fields.value, "," + (tail + rest));
      ScanFields(fields.rest, rest);
      FieldsCompose(fields, rest);
    }
  }

  lemma FieldsCompose(fields: Fields, rest: string)
    requires fields.Field? && fields.rest.Field?
    requires
      var head, tail := FieldText(fields.key, fields.value), FieldsText(fields.rest, "");
      && Scans(head, "," + (tail + rest), HasExponent(fields.value), 1 + Gaps(fields.value))
      && Scans(tail, rest, FieldsHaveExponent(fields.rest), FieldsGaps(fields.rest))
    ensures Scans(FieldsText(fields, ""), rest, FieldsHaveExponent(fields), FieldsGaps(fields))
  {
    FieldsTextParts(fields);
    ScanPair(FieldText(fields.key, fields.value), FieldsText(fields.rest, ""), rest, HasExponent(fields.value),
             1 + Gaps(fields.value), FieldsHaveExponent(fields.rest), FieldsGaps(fields.rest));
  }

  lemma FieldsTextParts(fields: Fields)
    requires fields.Field?
    ensures
      var head := FieldText(fields.key, fields.value);
      FieldsText(fields, "") == if fields.rest.NoFields? then head else head + "," + FieldsText(fields.rest, "")
  {
  }

  lemma ScanKey(key: seq<StringPart>, rest: string)
    requires ValidParts(key)
    ensures Extra(Quoted(key) + (":" + rest), false, false) == Plus(1, Extra(rest, false, false))
  {
    ScanQuoted(key, ":" + rest);
    ScanSeparator(':', rest);
  }

  lemma {:induction false} SpacedLength(v: Json)
    ensures |Spaced(v)| == |Compact(v)| + Gaps(v)
    decreases v
  {
    match v {
      case Arr(items) => ItemsLength(items);
      case Obj(fields) => FieldsLength(fields);
      case _ =>
    }
  }

  lemma {:induction false} ItemsLength(items: Items)
    ensures |ItemsText(items, " ")| == |ItemsText(items, "")| + ItemsGaps(items)
    decreases items
  {
    match items {
      case NoItems =>
      case Item(head, tail) =>
        SpacedLength(head);
        ItemsLength(tail);
    }
  }

  lemma {:induction false} FieldsLength(fields: Fields)
    ensures |FieldsText(fields, " ")| == |FieldsText(fields, "")| + FieldsGaps(fields)
    decreases fields
  {
    match fields {
      case NoFields =>
      case Field(_, value, rest) =>
        SpacedLength(value);
        FieldsLength(rest);
    }
  }

  /** Scanner refines printer: on the compact text of any value the scan finds exactly the spaced length,
      unless some number has an exponent, and then it refuses. */
  lemma ScannerMatchesPrinter(v: Json)
    requires Valid(v)
    ensures Extra(Compact(v), false, false) ==
            if HasExponent(v) then None else Some(|Spaced(v)| - |Compact(v)|)
  {
    assert Compact(v) + "" == Compact(v);
    ScanValue(v, "");
    SpacedLength(v);
  }

  /** Only an object starts with a brace. */
  lemma ObjectsStartWithBrace(v: Json)
    requires Valid(v)
    ensures |Compact(v)| > 0 && (Compact(v)[0] == '{' <==> v.Obj?)
    ensures v.Obj? ==> |Compact(v)| >= 2
  {
    if v.Num? {
      MantissaScans(v.number);
      assert NumberText(v.number)[0] == Mantissa(v.number)[0];
    }
  }

  /** Acceptance of a compacted payload: exactly the objects that print without exponents within the limit. */
  method FitsColumn(payload: string) returns (fits: bool)
    ensures forall v: Json :: Valid(v) && Compact(v) == payload ==>
      (fits <==> v.Obj? && !HasExponent(v) && |Spaced(v)| <= MAX_PAYLOAD_BYTES)
  {
    forall v: Json | Valid(v) && Compact(v) == payload
      ensures |payload| > 0 && (payload[0] == '{' <==> v.Obj?) && (v.Obj? ==> |payload| >= 2)
      ensures Extra(payload, false, false).Some? <==> !HasExponent(v)
      ensures !HasExponent(v) ==> |payload| + Extra(payload, false, false).value == |Spaced(v)|
    {
      ObjectsStartWithBrace(v);
      ScannerMatchesPrinter(v);
    }
    if |payload| < 2 || payload[0] != '{' {
      return false;
    }
    var size, supported := PostgresJsonbTextSize(payload);
    return supported && size <= MAX_PAYLOAD_BYTES;
  }
}
