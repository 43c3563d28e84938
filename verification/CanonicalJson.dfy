/**
 Canonical graph JSON (internal/architecturecatalog/export.go, `CanonicalGraphJSON`).

 A graph is hashed and compared through this text, so the text must determine the value.
 `Print` is what the writer emits; `ParseValue` is an independent decoder, and the two are
 related for every tree.  Text is a sequence of code points: UTF-8 is left out.
 */
module CanonicalJson {
  import opened Wrappers
  import opened Ordering

  /** Decoded values: graph payloads hold strings, booleans, nulls and integers. */
  datatype Json =
    | JNull
    | JBool(b: bool)
    | JNumber(n: int)
    | JString(s: string)
    | JArray(items: seq<Json>)
    | JObject(fields: map<string, Json>)

  // ---------- the text of a value ----------

  function HexDigit(n: nat): char
    requires n < 16
  {
    if n < 10 then '0' + n as char else 'a' + (n - 10) as char
  }

  /** Section 7 of RFC 8259: the short escapes, and `\u00xx` for other control characters. */
  function Escape(c: char): string {
    match c
    case '"' => "\\\""
    case '\\' => "\\\\"
    case '\U{8}' => "\\b"
    case '\t' => "\\t"
    case '\n' => "\\n"
    case '\U{c}' => "\\f"
    case '\r' => "\\r"
    case _ =>
      if c < ' ' then "\\u00" + [HexDigit(c as nat / 16), HexDigit(c as nat % 16)] else [c]
  }

  function EscapeAll(s: string): string {
    if s == "" then "" else Escape(s[0]) + EscapeAll(s[1..])
  }

  function Quote(s: string): string {
    "\"" + EscapeAll(s) + "\""
  }

  function PrintNat(n: nat): string {
    if n < 10 then [HexDigit(n)] else PrintNat(n / 10) + [HexDigit(n % 10)]
  }

  function PrintInt(n: int): string {
    if n < 0 then "-" + PrintNat(-n) else PrintNat(n)
  }

  ghost function Print(j: Json): string
    decreases j
  {
    match j
    case JNull => "null"
    case JBool(b) => if b then "true" else "false"
    case JNumber(n) => PrintInt(n)
    case JString(s) => Quote(s)
    case JArray(items) => if items == [] then "[]" else "[" + PrintItems(j, 0)
    case JObject(fields) => if fields == map[] then "{}" else "{" + PrintFields(j, SortedKeys(fields.Keys), 0)
  }

  /** The items from the `i`-th on, with the closing bracket. */
  ghost function PrintItems(j: Json, i: nat): string
    requires j.JArray? && i < |j.items|
    decreases j, |j.items| - i
  {
    Print(j.items[i]) + if i + 1 < |j.items| then "," + PrintItems(j, i + 1) else "]"
  }

  /** The fields from the `i`-th key on, with the closing brace. */
  ghost function PrintFields(j: Json, keys: seq<string>, i: nat): string
    requires j.JObject? && i < |keys| && forall k | k in keys :: k in j.fields
    decreases j, |keys| - i
  {
    Quote(keys[i]) + ":" + Print(j.fields[keys[i]])
    + if i + 1 < |keys| then "," + PrintFields(j, keys, i + 1) else "}"
  }

  // ---------- an independent decoder ----------

  predicate IsDigit(c: char) {
    '0' <= c <= '9'
  }

  function HexValue(c: char): Option<nat> {
    if IsDigit(c) then Some((c - '0') as nat)
    else if 'a' <= c <= 'f' then Some((c - 'a') as nat + 10)
    else None
  }

  /** The text after an opening quote, up to and including the closing one. */
  function ParseText(s: string): (r: Option<(string, string)>)
    ensures r.Some? ==> |r.value.1| < |s|
  {
    if s == "" then None
    else if s[0] == '"' then Some(("", s[1..]))
    else if s[0] < ' ' then None
    else if s[0] != '\\' then Cons(s[0], ParseText(s[1..]))
    else if |s| < 2 then None
    else if s[1] == 'u' then
      if |s| < 6 || s[2] != '0' || s[3] != '0' then None
      else
        match (HexValue(s[4]), HexValue(s[5]))
        case (Some(h), Some(l)) => Cons((16 * h + l) as char, ParseText(s[6..]))
        case _ => None
    else
      match s[1]
      case '"' => Cons('"', ParseText(s[2..]))
      case '\\' => Cons('\\', ParseText(s[2..]))
      case 'b' => Cons('\U{8}', ParseText(s[2..]))
      case 't' => Cons('\t', ParseText(s[2..]))
      case 'n' => Cons('\n', ParseText(s[2..]))
      case 'f' => Cons('\U{c}', ParseText(s[2..]))
      case 'r' => Cons('\r', ParseText(s[2..]))
      case _ => None
  }

  function Cons(c: char, tail: Option<(string, string)>): Option<(string, string)> {
    if tail.Some? then Some(([c] + tail.value.0, tail.value.1)) else None
  }

  function ReadDigits(s: string, sofar: int): (r: (int, string))
    ensures |r.1| <= |s|
  {
    if s != "" && IsDigit(s[0]) then ReadDigits(s[1..], 10 * sofar + (s[0] - '0') as int) else (sofar, s)
  }

  function ParseNumber(s: string): (r: Option<(int, string)>)
    ensures r.Some? ==> |r.value.1| < |s|
  {
    if s != "" && IsDigit(s[0]) then
      var r := ReadDigits(s[1..], (s[0] - '0') as int);
      Some((r.0, r.1))
    else if |s| > 1 && s[0] == '-' && IsDigit(s[1]) then
      var r := ReadDigits(s[2..], (s[1] - '0') as int);
      Some((-r.0, r.1))
    else None
  }

  function ParseValue(s: string): (r: Option<(Json, string)>)
    ensures r.Some? ==> |r.value.1| < |s|
    decreases |s|, 1
  {
    if s == "" then None
    else if "null" <= s then Some((JNull, s[4..]))
    else if "true" <= s then Some((JBool(true), s[4..]))
    else if "false" <= s then Some((JBool(false), s[5..]))
    else if s[0] == '"' then
      var t := ParseText(s[1..]);
      if t.Some? then Some((JString(t.value.0), t.value.1)) else None
    else if "[]" <= s then Some((JArray([]), s[2..]))
    else if s[0] == '[' then
      var t := ParseItems(s[1..]);
      if t.Some? then Some((JArray(t.value.0), t.value.1)) else None
    else if "{}" <= s then Some((JObject(map[]), s[2..]))
    else if s[0] == '{' then
      var t := ParseFields(s[1..]);
      if t.Some? then Some((JObject(t.value.0), t.value.1)) else None
    else
      var t := ParseNumber(s);
      if t.Some? then Some((JNumber(t.value.0), t.value.1)) else None
  }

  function ParseItems(s: string): (r: Option<(seq<Json>, string)>)
    ensures r.Some? ==> |r.value.1| < |s|
    decreases |s|, 2
  {
    var first := ParseValue(s);
    if first.None? || first.value.1 == "" then None
    else
      var rest := first.value.1;
      if rest[0] == ']' then Some(([first.value.0], rest[1..]))
      else if rest[0] == ',' then
        var more := ParseItems(rest[1..]);
        if more.Some? then Some(([first.value.0] + more.value.0, more.value.1)) else None
      else None
  }

  function ParseFields(s: string): (r: Option<(map<string, Json>, string)>)
    ensures r.Some? ==> |r.value.1| < |s|
    decreases |s|, 2
  {
    if s == "" || s[0] != '"' then None
    else
      var key := ParseText(s[1..]);
      if key.None? || key.value.1 == "" || key.value.1[0] != ':' then None
      else
        var first := ParseValue(key.value.1[1..]);
        if first.None? || first.value.1 == "" then None
        else
          var rest := first.value.1;
          if rest[0] == '}' then Some((map[key.value.0 := first.value.0], rest[1..]))
          else if rest[0] == ',' then
            var more := ParseFields(rest[1..]);
            if more.Some? then Some((more.value.0[key.value.0 := first.value.0], more.value.1)) else None
          else None
  }

  // ---------- the decoder recovers what was printed ----------

  /** What may follow a value: nothing that could be taken for one more digit. */
  predicate Ends(rest: string) {
    rest == "" || !IsDigit(rest[0])
  }

  lemma {:induction false} EscapeIsUndone(c: char, tail: string)
    ensures ParseText(Escape(c) + tail) == Cons(c, ParseText(tail))
  {
    var e := Escape(c);
    assert (e + tail)[|e|..] == tail;
    if c < ' ' && |e| == 6 {
      assert HexValue(e[4]) == Some(c as nat / 16) && HexValue(e[5]) == Some(c as nat % 16);
    }
  }

  lemma {:induction false} TextRoundTrip(s: string, rest: string)
    ensures ParseText(EscapeAll(s) + "\"" + rest) == Some((s, rest))
  {
    if s == "" {
      assert EscapeAll(s) + "\"" + rest == "\"" + rest;
      assert ("\"" + rest)[1..] == rest;
    } else {
      var tail := EscapeAll(s[1..]) + "\"" + rest;
      assert EscapeAll(s) + "\"" + rest == Escape(s[0]) + tail;
      EscapeIsUndone(s[0], tail);
      TextRoundTrip(s[1..], rest);
      assert s == [s[0]] + s[1..];
    }
  }

  lemma {:induction false} DigitsRoundTrip(n: nat, rest: string)
    ensures PrintNat(n) != "" && IsDigit(PrintNat(n)[0])
    ensures ReadDigits((PrintNat(n) + rest)[1..], (PrintNat(n)[0] - '0') as int) == ReadDigits(rest, n)
  {
    if n < 10 {
      assert (PrintNat(n) + rest)[1..] == rest;
    } else {
      var last := [HexDigit(n % 10)];
      DigitsRoundTrip(n / 10, last + rest);
      assert PrintNat(n) + rest == PrintNat(n / 10) + (last + rest);
      assert (last + rest)[1..] == rest;
    }
  }

  lemma NumberRoundTrip(n: int, rest: string)
    requires Ends(rest)
    ensures ParseNumber(PrintInt(n) + rest) == Some((n, rest))
    ensures PrintInt(n) != "" && (IsDigit(PrintInt(n)[0]) || PrintInt(n)[0] == '-')
  {
    var digits := PrintNat(if n < 0 then -n else n);
    DigitsRoundTrip(if n < 0 then -n else n, rest);
    if n < 0 {
      Reassociate("-", digits, rest);
      SignedNumber(digits + rest);
    }
  }

  lemma SignedNumber(s: string)
    requires s != "" && IsDigit(s[0])
    ensures ParseNumber("-" + s) == var r := ReadDigits(s[1..], (s[0] - '0') as int); Some((-r.0, r.1))
  {
    assert ("-" + s)[2..] == s[1..];
  }

  lemma {:induction false} FirstChar(j: Json)
    ensures Print(j) != ""
    ensures match j
            case JNull => Print(j)[0] == 'n'
            case JBool(b) => Print(j)[0] == if b then 't' else 'f'
            case JNumber(_) => IsDigit(Print(j)[0]) || Print(j)[0] == '-'
            case JString(_) => Print(j)[0] == '"'
            case JArray(_) => Print(j)[0] == '['
            case JObject(_) => Print(j)[0] == '{'
  {
    if j.JNumber? { NumberRoundTrip(j.n, ""); }
  }

  /** The first characters decide how the decoder goes on. */
  lemma {:induction false} Dispatch(s: string)
    requires |s| > 1
    ensures s[0] == '[' && s[1] != ']' ==>
              ParseValue(s) == var t := ParseItems(s[1..]);
                  if t.Some? then Some((JArray(t.value.0), t.value.1)) else None
    ensures s[0] == '{' && s[1] != '}' ==>
              ParseValue(s) == var t := ParseFields(s[1..]);
                  if t.Some? then Some((JObject(t.value.0), t.value.1)) else None
    ensures s[0] == '"' ==>
              ParseValue(s) == var t := ParseText(s[1..]);
                  if t.Some? then Some((JString(t.value.0), t.value.1)) else None
  {
  }

  lemma {:induction false} DispatchNumber(s: string)
    requires s != "" && (IsDigit(s[0]) || s[0] == '-')
    ensures ParseValue(s) == var t := ParseNumber(s); if t.Some? then Some((JNumber(t.value.0), t.value.1)) else None
  {
  }

  lemma LiteralText(literal: string, rest: string)
    ensures (literal + rest)[|literal|..] == rest && literal <= literal + rest
    ensures literal != "" ==> (literal + rest)[0] == literal[0]
  {
  }

  lemma {:induction false} LiteralRoundTrip(j: Json, rest: string)
    requires j.JNull? || j.JBool? || j == JArray([]) || j == JObject(map[])
    ensures ParseValue(Print(j) + rest) == Some((j, rest))
  {
    if j.JNull? {
      LiteralText("null", rest);
    } else if j.JBool? {
      LiteralText(if j.b then "true" else "false", rest);
    } else if j.JArray? {
      LiteralText("[]", rest);
    } else {
      LiteralText("{}", rest);
    }
  }

  lemma Reassociate(a: string, b: string, c: string)
    ensures (a + b) + c == a + (b + c)
  {
  }

  /** One step of `ParseItems`, with the printed text abstracted. */
  lemma {:induction false} ItemsStep(first: Json, text: string, tail: string, more: seq<Json>, rest: string)
    requires ParseValue(text + ("," + tail)) == Some((first, "," + tail))
    requires ParseItems(tail) == Some((more, rest))
    ensures ParseItems(text + ("," + tail)) == Some(([first] + more, rest))
  {
    assert ("," + tail)[1..] == tail;
  }

  lemma {:induction false} ItemsLast(first: Json, text: string, rest: string)
    requires ParseValue(text + ("]" + rest)) == Some((first, "]" + rest))
    ensures ParseItems(text + ("]" + rest)) == Some(([first], rest))
  {
    assert ("]" + rest)[1..] == rest;
  }

  /** One step of `ParseFields`. */
  lemma {:induction false} FieldsStep(key: string, value: Json, text: string, tail: string, more: map<string, Json>,
                                      rest: string)
    requires ParseValue(text + ("," + tail)) == Some((value, "," + tail))
    requires ParseFields(tail) == Some((more, rest))
    ensures ParseFields(Quote(key) + (":" + (text + ("," + tail)))) == Some((more[key := value], rest))
  {
    FieldKey(key, text + ("," + tail));
    assert ("," + tail)[1..] == tail;
  }

  lemma {:induction false} FieldsLast(key: string, value: Json, text: string, rest: string)
    requires ParseValue(text + ("}" + rest)) == Some((value, "}" + rest))
    ensures ParseFields(Quote(key) + (":" + (text + ("}" + rest)))) == Some((map[key := value], rest))
  {
    FieldKey(key, text + ("}" + rest));
    assert ("}" + rest)[1..] == rest;
  }

  lemma FieldKey(key: string, after: string)
    ensures var s := Quote(key) + (":" + after);
            s[0] == '"' && ParseText(s[1..]) == Some((key, ":" + after)) && (":" + after)[1..] == after
  {
    var s := Quote(key) + (":" + after);
    assert s[1..] == EscapeAll(key) + "\"" + (":" + after);
    TextRoundTrip(key, ":" + after);
  }

  lemma {:induction false} StringRoundTrip(t: string, rest: string)
    ensures ParseValue(Quote(t) + rest) == Some((JString(t), rest))
  {
    var s := Quote(t) + rest;
    assert s[1..] == EscapeAll(t) + "\"" + rest;
    TextRoundTrip(t, rest);
    Dispatch(s);
  }

  lemma AfterFirst(open: string, inner: string, rest: string)
    requires |open| == 1 && inner != ""
    ensures var s := (open + inner) + rest; |s| > 1 && s[0] == open[0] && s[1] == inner[0] && s[1..] == inner + rest
  {
  }

  lemma {:induction false} ArrayRoundTrip(items: seq<Json>, inner: string, rest: string)
    requires inner != "" && inner[0] != ']' && ParseItems(inner + rest) == Some((items, rest))
    ensures ParseValue(("[" + inner) + rest) == Some((JArray(items), rest))
  {
    var s := ("[" + inner) + rest;
    AfterFirst("[", inner, rest);
    Dispatch(s);
  }

  lemma {:induction false} ObjectRoundTrip(fields: map<string, Json>, inner: string, rest: string)
    requires inner != "" && inner[0] == '"' && ParseFields(inner + rest) == Some((fields, rest))
    ensures ParseValue(("{" + inner) + rest) == Some((JObject(fields), rest))
  {
    var s := ("{" + inner) + rest;
    AfterFirst("{", inner, rest);
    Dispatch(s);
  }

  /** Decoding the text of a tree gives the tree back, whatever comes after it. */
  lemma {:induction false} RoundTrip(j: Json, rest: string)
    requires Ends(rest)
    ensures ParseValue(Print(j) + rest) == Some((j, rest))
    decreases j
  {
    if j.JNull? || j.JBool? || j == JArray([]) || j == JObject(map[]) {
      LiteralRoundTrip(j, rest);
    } else if j.JNumber? {
      NumberRoundTrip(j.n, rest);
      DispatchNumber(PrintInt(j.n) + rest);
    } else if j.JString? {
      StringRoundTrip(j.s, rest);
    } else if j.JArray? {
      ItemsRoundTrip(j, 0, rest);
      ItemsFirstChar(j);
      assert j.items[0..] == j.items;
      ArrayRoundTrip(j.items, PrintItems(j, 0), rest);
    } else {
      var keys := SortedKeys(j.fields.Keys);
      ObjectHasKeys(j.fields);
      FieldsRoundTrip(j, keys, 0, rest);
      assert FieldsFrom(j, keys, 0) == j.fields;
      FieldsFirstChar(j, keys);
      ObjectRoundTrip(j.fields, PrintFields(j, keys, 0), rest);
    }
  }

  lemma ObjectHasKeys(fields: map<string, Json>)
    requires fields != map[]
    ensures SortedKeys(fields.Keys) != []
  {
    assert exists k :: k in fields.Keys;
  }

  lemma {:induction false} ItemsFirstChar(j: Json)
    requires j.JArray? && j.items != []
    ensures PrintItems(j, 0) != "" && PrintItems(j, 0)[0] != ']'
  {
    FirstChar(j.items[0]);
  }

  lemma {:induction false} FieldsFirstChar(j: Json, keys: seq<string>)
    requires j.JObject? && keys != [] && forall k | k in keys :: k in j.fields
    ensures PrintFields(j, keys, 0) != "" && PrintFields(j, keys, 0)[0] == '"'
  {
    assert Quote(keys[0])[0] == '"';
  }

  lemma {:induction false} ItemsRoundTrip(j: Json, i: nat, rest: string)
    requires j.JArray? && i < |j.items|
    ensures ParseItems(PrintItems(j, i) + rest) == Some((j.items[i..], rest))
    decreases j, |j.items| - i
  {
    var text := Print(j.items[i]);
    assert j.items[i..] == [j.items[i]] + j.items[i + 1..];
    if i + 1 == |j.items| {
      RoundTrip(j.items[i], "]" + rest);
      Reassociate(text, "]", rest);
      ItemsLast(j.items[i], text, rest);
      assert j.items[i..] == [j.items[i]];
    } else {
      var inner := PrintItems(j, i + 1);
      RoundTrip(j.items[i], "," + (inner + rest));
      Reassociate(text, "," + inner, rest);
      Reassociate(",", inner, rest);
      ItemsRoundTrip(j, i + 1, rest);
      ItemsStep(j.items[i], text, inner + rest, j.items[i + 1..], rest);
    }
  }

  /** The fields of the keys from the `i`-th on. */
  ghost function FieldsFrom(j: Json, keys: seq<string>, i: nat): map<string, Json>
    requires j.JObject? && i <= |keys| && forall k | k in keys :: k in j.fields
  {
    map k | k in keys[i..] :: j.fields[k]
  }

  lemma {:induction false} FieldsRoundTrip(j: Json, keys: seq<string>, i: nat, rest: string)
    requires j.JObject? && i < |keys| && forall k | k in keys :: k in j.fields
    ensures ParseFields(PrintFields(j, keys, i) + rest) == Some((FieldsFrom(j, keys, i), rest))
    decreases j, |keys| - i
  {
    var key, value := keys[i], j.fields[keys[i]];
    var text := Print(value);
    FieldsFromStep(j, keys, i);
    if i + 1 == |keys| {
      RoundTrip(value, "}" + rest);
      FieldText(Quote(key), text, "}", rest);
      FieldsLast(key, value, text, rest);
    } else {
      var inner := PrintFields(j, keys, i + 1);
      RoundTrip(value, "," + (inner + rest));
      FieldText(Quote(key), text, "," + inner, rest);
      Reassociate(",", inner, rest);
      FieldsRoundTrip(j, keys, i + 1, rest);
      FieldsStep(key, value, text, inner + rest, FieldsFrom(j, keys, i + 1), rest);
    }
  }

  lemma FieldText(key: string, text: string, after: string, rest: string)
    ensures (key + ":" + text + after) + rest == key + (":" + (text + (after + rest)))
  {
  }

  lemma FieldsFromStep(j: Json, keys: seq<string>, i: nat)
    requires j.JObject? && i < |keys| && forall k | k in keys :: k in j.fields
    ensures FieldsFrom(j, keys, i) == FieldsFrom(j, keys, i + 1)[keys[i] := j.fields[keys[i]]]
    ensures i + 1 == |keys| ==> FieldsFrom(j, keys, i) == map[keys[i] := j.fields[keys[i]]]
  {
    assert keys[i..] == [keys[i]] + keys[i + 1..];
  }

  /** Two different trees never have the same text. */
  lemma {:induction false} PrintIsInjective(a: Json, b: Json)
    requires Print(a) == Print(b)
    ensures a == b
  {
    RoundTrip(a, "");
    RoundTrip(b, "");
    assert Print(a) + "" == Print(b) + "";
  }

  // ---------- the writer ----------

  class GraphWriter {
    var out: string

    constructor ()
      ensures out == ""
    {
      out := "";
    }

    method WriteString(value: string)
      modifies this
      ensures out == old(out) + Quote(value)
    {
      out := out + "\"";
      ghost var start := out;
      for i := 0 to |value|
        invariant out == start + EscapeAll(value[..i])
      {
        EscapeAllOfLonger(value[..i], value[i]);
        assert value[..i + 1] == value[..i] + [value[i]];
        Reassociate(start, EscapeAll(value[..i]), Escape(value[i]));
        out := out + Escape(value[i]);
      }
      assert value[..|value|] == value;
      out := out + "\"";
      Reassociate(old(out), "\"", EscapeAll(value));
      Reassociate(old(out), "\"" + EscapeAll(value), "\"");
    }

    /** `write`: the keys of an object are met in an arbitrary order and sorted first. */
    method Write(value: Json)
      modifies this
      ensures out == old(out) + Print(value)
      decreases value, 2
    {
      match value
      case JObject(fields) =>
        WriteObject(value, fields);
      case JArray(items) =>
        WriteArray(value, items);
      case JString(s) =>
        WriteString(s);
      case JNumber(n) =>
        out := out + PrintInt(n);
      case JBool(b) =>
        out := out + if b then "true" else "false";
      case JNull =>
        out := out + "null";
    }

    method WriteObject(value: Json, fields: map<string, Json>)
      requires value == JObject(fields)
      modifies this
      ensures out == old(out) + Print(value)
      decreases value, 1
    {
      var listing := ListKeys(fields.Keys);
      var keys := SortUnique(listing);
      out := out + "{";
      ghost var start := out;
      for i := 0 to |keys|
        invariant out == start + FieldsBefore(value, keys, i)
      {
        WriteField(value, fields, keys, i);
        FieldAppends(start, value, keys, i);
      }
      out := out + "}";
      ObjectAssembles(old(out), value);
    }

    method WriteField(value: Json, fields: map<string, Json>, keys: seq<string>, i: nat)
      requires value == JObject(fields) && i < |keys| && forall k | k in keys :: k in fields
      modifies this
      ensures out == old(out) + FieldPiece(value, keys, i)
      decreases value, 0
    {
      assert keys[i] in keys;
      if i > 0 {
        out := out + ",";
      }
      WriteString(keys[i]);
      out := out + ":";
      Write(fields[keys[i]]);
      PieceAppends(old(out), if i > 0 then "," else "", Quote(keys[i]) + ":", Print(fields[keys[i]]));
      Reassociate(old(out) + if i > 0 then "," else "", Quote(keys[i]), ":");
    }

    method WriteArray(value: Json, items: seq<Json>)
      requires value == JArray(items)
      modifies this
      ensures out == old(out) + Print(value)
      decreases value, 0
    {
      out := out + "[";
      ghost var start := out;
      for i := 0 to |items|
        invariant out == start + ItemsBefore(value, i)
      {
        ghost var before := out;
        if i > 0 {
          out := out + ",";
        }
        Write(items[i]);
        PieceAppends(before, if i > 0 then "," else "", "", Print(items[i]));
        Reassociate(start, ItemsBefore(value, i), ItemPiece(value, i));
      }
      out := out + "]";
      ItemsBeforeIsPrint(value);
      Reassociate(start, ItemsBefore(value, |items|), "]");
      Reassociate(old(out), "[", ItemsBefore(value, |items|) + "]");
    }
  }

  lemma {:induction false} EscapeAllOfLonger(s: string, c: char)
    ensures EscapeAll(s + [c]) == EscapeAll(s) + Escape(c)
  {
    if s == "" {
      assert [c][1..] == "";
    } else {
      assert (s + [c])[1..] == s[1..] + [c];
      EscapeAllOfLonger(s[1..], c);
      Reassociate(Escape(s[0]), EscapeAll(s[1..]), Escape(c));
    }
  }

  lemma PieceAppends(before: string, comma: string, key: string, text: string)
    ensures before + comma + key + text == before + (comma + key + text)
    ensures before + "" == before
    ensures before + comma + text == before + (comma + "" + text)
  {
  }

  /** One field as it is appended, and all the fields before the `i`-th. */
  ghost function FieldPiece(j: Json, keys: seq<string>, i: nat): string
    requires j.JObject? && i < |keys| && forall k | k in keys :: k in j.fields
  {
    (if i > 0 then "," else "") + (Quote(keys[i]) + ":") + Print(j.fields[keys[i]])
  }

  ghost function FieldsBefore(j: Json, keys: seq<string>, i: nat): string
    requires j.JObject? && i <= |keys| && forall k | k in keys :: k in j.fields
  {
    if i == 0 then "" else FieldsBefore(j, keys, i - 1) + FieldPiece(j, keys, i - 1)
  }

  ghost function ItemPiece(j: Json, i: nat): string
    requires j.JArray? && i < |j.items|
  {
    (if i > 0 then "," else "") + "" + Print(j.items[i])
  }

  ghost function ItemsBefore(j: Json, i: nat): string
    requires j.JArray? && i <= |j.items|
  {
    if i == 0 then "" else ItemsBefore(j, i - 1) + ItemPiece(j, i - 1)
  }

  lemma FieldAppends(start: string, j: Json, keys: seq<string>, i: nat)
    requires j.JObject? && i < |keys| && forall k | k in keys :: k in j.fields
    ensures start + FieldsBefore(j, keys, i) + FieldPiece(j, keys, i) == start + FieldsBefore(j, keys, i + 1)
  {
    Reassociate(start, FieldsBefore(j, keys, i), FieldPiece(j, keys, i));
  }

  lemma {:induction false} ObjectAssembles(start: string, j: Json)
    requires j.JObject?
    ensures var keys := SortedKeys(j.fields.Keys);
            start + "{" + FieldsBefore(j, keys, |keys|) + "}" == start + Print(j)
  {
    var keys := SortedKeys(j.fields.Keys);
    FieldsBeforeIsPrint(j);
    Reassociate(start + "{", FieldsBefore(j, keys, |keys|), "}");
    Reassociate(start, "{", FieldsBefore(j, keys, |keys|) + "}");
  }

  /** Appending field by field gives the text that `PrintFields` describes from the front. */
  lemma {:induction false} FieldsBeforeAndAfter(j: Json, keys: seq<string>, i: nat)
    requires j.JObject? && i < |keys| && forall k | k in keys :: k in j.fields
    ensures FieldsBefore(j, keys, |keys|) + "}"
                == FieldsBefore(j, keys, i) + ((if i > 0 then "," else "") + PrintFields(j, keys, i))
    decreases |keys| - i
  {
    var before, comma := FieldsBefore(j, keys, i), if i > 0 then "," else "";
    var head, text := Quote(keys[i]) + ":", Print(j.fields[keys[i]]);
    if i + 1 == |keys| {
      Regroup(before, comma, head, text, "}");
    } else {
      FieldsBeforeAndAfter(j, keys, i + 1);
      Regroup(before, comma, head, text, "," + PrintFields(j, keys, i + 1));
    }
  }

  lemma {:induction false} ItemsBeforeAndAfter(j: Json, i: nat)
    requires j.JArray? && i < |j.items|
    ensures ItemsBefore(j, |j.items|) + "]" == ItemsBefore(j, i) + ((if i > 0 then "," else "") + PrintItems(j, i))
    decreases |j.items| - i
  {
    var before, comma, text := ItemsBefore(j, i), (if i > 0 then "," else ""), Print(j.items[i]);
    if i + 1 == |j.items| {
      Regroup(before, comma, "", text, "]");
    } else {
      ItemsBeforeAndAfter(j, i + 1);
      Regroup(before, comma, "", text, "," + PrintItems(j, i + 1));
    }
  }

  lemma Regroup(before: string, comma: string, head: string, text: string, tail: string)
    ensures (before + (comma + head + text)) + tail == before + (comma + (head + text + tail))
    ensures head == "" ==> head + text == text
  {
  }

  lemma {:induction false} FieldsBeforeIsPrint(j: Json)
    requires j.JObject?
    ensures var keys := SortedKeys(j.fields.Keys); "{" + (FieldsBefore(j, keys, |keys|) + "}") == Print(j)
  {
    var keys := SortedKeys(j.fields.Keys);
    if keys == [] {
      assert forall k :: k !in j.fields.Keys;
      assert j.fields == map[];
    } else {
      assert keys[0] in keys;
      FieldsBeforeAndAfter(j, keys, 0);
    }
  }

  lemma {:induction false} ItemsBeforeIsPrint(j: Json)
    requires j.JArray?
    ensures "[" + (ItemsBefore(j, |j.items|) + "]") == Print(j)
  {
    if j.items != [] { ItemsBeforeAndAfter(j, 0); }
  }

  /** `CanonicalGraphJSON` on a decoded value. */
  method CanonicalGraphJson(value: Json) returns (text: string)
    ensures text == Print(value)
    ensures ParseValue(text) == Some((value, ""))
  {
    var writer := new GraphWriter();
    writer.Write(value);
    text := writer.out;
    RoundTrip(value, "");
    assert text + "" == text;
  }
}
