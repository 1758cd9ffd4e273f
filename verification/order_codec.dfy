/** The text form in which an order's items are stored: a JSON array of
    {id, name, price, quantity} objects, written by Serialize (for
    JSON.stringify) and read back by Parse (for JSON.parse). Prices are whole
    numbers of cents. */
module OrderCodec {
  import opened Text

  datatype Item = Item(id: int, name: string, price: int, quantity: int)

  // ---------------------------------------------------------------- writing

  /** One character of a string body: `"` and `\` take a backslash. */
  function EscapeChar(c: char): string
  {
    if c == '"' || c == '\\' then ['\\', c] else [c]
  }

  /** A string body with every character escaped. */
  function Escape(s: string): string
  {
    if s == [] then [] else EscapeChar(s[0]) + Escape(s[1..])
  }

  /** The JSON.stringify text of one item, keys in their declared order. */
  function EncodeItem(it: Item): string
  {
    "{\"id\":" + IntToString(it.id)
    + (",\"name\":\"" + Escape(it.name) + "\""
    + (",\"price\":" + IntToString(it.price)
    + (",\"quantity\":" + IntToString(it.quantity)
    + "}")))
  }

  /** The encoded items separated by commas. */
  function EncodeElements(items: seq<Item>): string
    requires items != []
  {
    if |items| == 1 then EncodeItem(items[0])
    else EncodeItem(items[0]) + ("," + EncodeElements(items[1..]))
  }

  function Serialize(items: seq<Item>): string
  {
    if items == [] then "[]" else "[" + EncodeElements(items) + "]"
  }

  // ---------------------------------------------------------------- reading

  /** Consumes the literal `lit` at the front of s. */
  function Expect(lit: string, s: string): (r: Option<string>)
    ensures r.Some? ==> |r.value| == |s| - |lit| && s == lit + r.value
  {
    if lit <= s then
      assert s == lit + s[|lit|..];
      Some(s[|lit|..])
    else None
  }

  /** An optional minus sign and a maximal run of at least one digit. */
  function ParseInt(s: string): (r: Option<(int, string)>)
    ensures r.Some? ==> |r.value.1| < |s|
  {
    var negative := s != [] && s[0] == '-';
    var body := if negative then s[1..] else s;
    var k := DigitRun(body);
    if k == 0 then None
    else
      var magnitude := DigitsValue(body[..k]);
      Some((if negative then -(magnitude as int) else magnitude, body[k..]))
  }

  /** The rest of a string literal whose opening quote is already consumed:
      up to the first unescaped `"`, a backslash taking the next character
      literally. */
  function ParseStringBody(s: string): (r: Option<(string, string)>)
    ensures r.Some? ==> |r.value.1| < |s|
  {
    if s == [] then None
    else if s[0] == '"' then Some(("", s[1..]))
    else if s[0] == '\\' then
      if |s| < 2 then None
      else
        var p :- ParseStringBody(s[2..]);
        Some(([s[1]] + p.0, p.1))
    else
      var p :- ParseStringBody(s[1..]);
      Some(([s[0]] + p.0, p.1))
  }

  /** The literal `lit` followed by an integer. */
  function ExpectInt(lit: string, s: string): (r: Option<(int, string)>)
    ensures r.Some? ==> |r.value.1| < |s|
  {
    var t :- Expect(lit, s);
    ParseInt(t)
  }

  /** The literal `lit`, which ends with the opening quote, then a string body. */
  function ExpectString(lit: string, s: string): (r: Option<(string, string)>)
    ensures r.Some? ==> |r.value.1| < |s|
  {
    var t :- Expect(lit, s);
    ParseStringBody(t)
  }

  function ParseItem(s: string): (r: Option<(Item, string)>)
    ensures r.Some? ==> |r.value.1| < |s|
  {
    var id :- ExpectInt("{\"id\":", s);
    var name :- ExpectString(",\"name\":\"", id.1);
    var price :- ExpectInt(",\"price\":", name.1);
    var quantity :- ExpectInt(",\"quantity\":", price.1);
    var rest :- Expect("}", quantity.1);
    Some((Item(id.0, name.0, price.0, quantity.0), rest))
  }

  /** Items separated by commas, up to and including the closing `]`. */
  function ParseElements(s: string): (r: Option<(seq<Item>, string)>)
    decreases |s|
  {
    var first :- ParseItem(s);
    var rest := first.1;
    if rest != [] && rest[0] == ',' then
      var more :- ParseElements(rest[1..]);
      Some(([first.0] + more.0, more.1))
    else if rest != [] && rest[0] == ']' then Some(([first.0], rest[1..]))
    else None
  }

  /** The whole text must be one array of items. */
  function Parse(text: string): Option<seq<Item>>
  {
    if text == "[]" then Some([])
    else if text != [] && text[0] == '[' then
      var p :- ParseElements(text[1..]);
      if p.1 == "" then Some(p.0) else None
    else None
  }

  // ---------------------------------------------------------------- round trip

  lemma ExpectPrefix(lit: string, rest: string)
    ensures Expect(lit, lit + rest) == Some(rest)
  {
    assert (lit + rest)[..|lit|] == lit;
    assert (lit + rest)[|lit|..] == rest;
  }

  /** A digit string followed by a non-digit. */
  lemma ParseDigitsOf(d: string, rest: string)
    requires d != [] && AllDigits(d) && StartsNonDigit(rest)
    ensures ParseInt(d + rest) == Some((DigitsValue(d) as int, rest))
  {
    DigitRunOf(d, rest);
    assert (d + rest)[..|d|] == d && (d + rest)[|d|..] == rest;
    assert (d + rest)[0] == d[0];
  }

  /** A minus sign in front of a text that starts with a digit negates what
      that text reads as. */
  lemma ParseMinus(t: string)
    requires t != [] && IsDigit(t[0]) && ParseInt(t).Some?
    ensures ParseInt("-" + t) == Some((-ParseInt(t).value.0, ParseInt(t).value.1))
  {
    assert ("-" + t)[1..] == t;
  }

  /** A minus sign, a digit string and a non-digit. */
  lemma ParseNegativeOf(d: string, rest: string)
    requires d != [] && AllDigits(d) && StartsNonDigit(rest)
    ensures ParseInt("-" + d + rest) == Some((-(DigitsValue(d) as int), rest))
  {
    ParseDigitsOf(d, rest);
    assert (d + rest)[0] == d[0];
    ParseMinus(d + rest);
    Regroup3("-", d, rest);
  }

  lemma ParseIntOf(n: int, rest: string)
    requires StartsNonDigit(rest)
    ensures ParseInt(IntToString(n) + rest) == Some((n, rest))
  {
    var s := IntToString(n);
    if n < 0 {
      var d := NatToString(-n);
      assert s == "-" + d by {
        assert s == [s[0]] + s[1..];
      }
      ParseNegativeOf(d, rest);
    } else {
      ParseDigitsOf(NatToString(n), rest);
    }
  }

  /** One escaped character in front of a string body that parses. */
  lemma ParseEscapedChar(c: char, tail: string, u: string, rest: string)
    requires ParseStringBody(tail) == Some((u, rest))
    ensures ParseStringBody(EscapeChar(c) + tail) == Some(([c] + u, rest))
  {
    var s := EscapeChar(c) + tail;
    if c == '"' || c == '\\' {
      assert s[2..] == tail;
    } else {
      assert s[1..] == tail;
    }
  }

  lemma {:induction false} ParseStringBodyOf(t: string, rest: string)
    ensures ParseStringBody(Escape(t) + "\"" + rest) == Some((t, rest))
  {
    if t == [] {
      assert Escape(t) + "\"" + rest == "\"" + rest;
    } else {
      var a, b := EscapeChar(t[0]), Escape(t[1..]);
      ParseStringBodyOf(t[1..], rest);
      Regroup3(a, b, "\"");
      Regroup3(a, b + "\"", rest);
      ParseEscapedChar(t[0], b + "\"" + rest, t[1..], rest);
      assert [t[0]] + t[1..] == t;
    }
  }

  /** Concatenation regrouped, for strings the solver need not look into. */
  lemma Regroup3(a: string, b: string, c: string)
    ensures a + b + c == a + (b + c)
  {
  }

  lemma ExpectIntOf(lit: string, n: int, rest: string)
    requires StartsNonDigit(rest)
    ensures ExpectInt(lit, lit + IntToString(n) + rest) == Some((n, rest))
  {
    Regroup3(lit, IntToString(n), rest);
    ExpectPrefix(lit, IntToString(n) + rest);
    ParseIntOf(n, rest);
  }

  lemma ExpectStringOf(lit: string, t: string, rest: string)
    ensures ExpectString(lit, lit + Escape(t) + "\"" + rest) == Some((t, rest))
  {
    var body := Escape(t) + "\"";
    Regroup3(lit, body, rest);
    Regroup3(lit, Escape(t), "\"");
    ExpectPrefix(lit, body + rest);
    ParseStringBodyOf(t, rest);
  }

  lemma ParseItemOf(it: Item, rest: string)
    ensures ParseItem(EncodeItem(it) + rest) == Some((it, rest))
  {
    var t3 := "}" + rest;
    var t2 := ",\"quantity\":" + IntToString(it.quantity) + t3;
    var t1 := ",\"price\":" + IntToString(it.price) + t2;
    var t0 := ",\"name\":\"" + Escape(it.name) + "\"" + t1;
    assert EncodeItem(it) + rest == "{\"id\":" + IntToString(it.id) + t0;
    ExpectIntOf("{\"id\":", it.id, t0);
    ExpectStringOf(",\"name\":\"", it.name, t1);
    ExpectIntOf(",\"price\":", it.price, t2);
    ExpectIntOf(",\"quantity\":", it.quantity, t3);
    ExpectPrefix("}", rest);
  }

  /** The last item of the list: ParseElements stops at the `]`. */
  lemma ParseElementsLast(x: Item, rest: string)
    ensures ParseElements(EncodeItem(x) + ("]" + rest)) == Some(([x], rest))
  {
    var s := EncodeItem(x) + ("]" + rest);
    ParseItemOf(x, "]" + rest);
    assert ("]" + rest)[1..] == rest;
  }

  /** An item followed by a comma: ParseElements goes on after it. */
  lemma ParseElementsCons(x: Item, more: string, xs: seq<Item>, rest: string)
    requires ParseElements(more) == Some((xs, rest))
    ensures ParseElements(EncodeItem(x) + ("," + more)) == Some(([x] + xs, rest))
  {
    ParseItemOf(x, "," + more);
    assert ("," + more)[1..] == more;
  }

  lemma HeadAndTail(items: seq<Item>)
    requires items != []
    ensures [items[0]] + items[1..] == items
  {
  }

  lemma EncodeElementsLast(items: seq<Item>, rest: string)
    requires |items| == 1
    ensures EncodeElements(items) + "]" + rest == EncodeItem(items[0]) + ("]" + rest)
  {
  }

  lemma EncodeElementsCons(items: seq<Item>, rest: string)
    requires |items| > 1
    ensures EncodeElements(items) + "]" + rest
            == EncodeItem(items[0]) + ("," + (EncodeElements(items[1..]) + "]" + rest))
  {
    Regroup(EncodeItem(items[0]), EncodeElements(items[1..]), rest);
  }

  lemma Regroup(head: string, tail: string, rest: string)
    ensures head + ("," + tail) + "]" + rest == head + ("," + (tail + "]" + rest))
  {
  }

  lemma ParseOneElementOf(items: seq<Item>, rest: string)
    requires |items| == 1
    ensures ParseElements(EncodeElements(items) + "]" + rest) == Some((items, rest))
  {
    EncodeElementsLast(items, rest);
    ParseElementsLast(items[0], rest);
    assert [items[0]] == items;
  }

  lemma ParseMoreElementsOf(items: seq<Item>, rest: string)
    requires |items| > 1
    requires ParseElements(EncodeElements(items[1..]) + "]" + rest) == Some((items[1..], rest))
    ensures ParseElements(EncodeElements(items) + "]" + rest) == Some((items, rest))
  {
    HeadAndTail(items);
    EncodeElementsCons(items, rest);
    ParseElementsCons(items[0], EncodeElements(items[1..]) + "]" + rest, items[1..], rest);
  }

  lemma {:induction false} ParseElementsOf(items: seq<Item>, rest: string)
    requires items != []
    ensures ParseElements(EncodeElements(items) + "]" + rest) == Some((items, rest))
  {
    if |items| == 1 {
      ParseOneElementOf(items, rest);
    } else {
      ParseElementsOf(items[1..], rest);
      ParseMoreElementsOf(items, rest);
    }
  }

  lemma DropOpening(c: string, t: string)
    requires |c| == 1
    ensures (c + t)[1..] == t
  {
  }

  /** A text opening with `[` whose elements parse to the very end. */
  lemma ParseOpening(text: string, items: seq<Item>)
    requires |text| > 2 && text[0] == '['
    requires ParseElements(text[1..]) == Some((items, ""))
    ensures Parse(text) == Some(items)
  {
  }

  /** A bracketed list whose elements parse to the very end. */
  lemma ParseBracketed(body: string, items: seq<Item>)
    requires body != []
    requires ParseElements(body + "]") == Some((items, ""))
    ensures Parse("[" + body + "]") == Some(items)
  {
    Regroup3("[", body, "]");
    DropOpening("[", body + "]");
    ParseOpening("[" + body + "]", items);
  }

  /** Parsing the stored text gives back exactly the submitted items: the
      same items, field for field, in the same order. */
  lemma RoundTrip(items: seq<Item>)
    ensures Parse(Serialize(items)) == Some(items)
  {
    if items != [] {
      var body := EncodeElements(items);
      ParseElementsOf(items, "");
      assert body + "]" + "" == body + "]";
      ParseBracketed(body, items);
    }
  }
}
