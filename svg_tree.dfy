/**
 * The element tree that the SVG transformer of build/svg.ts reads and rewrites
 * (the object form an XML parser such as xml-js produces), how attribute values are
 * coerced to strings, and how they are escaped before being serialised again.
 */
module SvgTree {
  import opened Common

  /** An attribute value: a string, a number (only whole numbers here) or `undefined`. */
  datatype AttrValue = Str(s: string) | Num(n: int) | Undefined

  /**
   * One node of the tree. `kind` is the node type (`element`, `text`, `comment`, ...);
   * `name` is the tag name, with an absent name written as ""; `payload` stands for the
   * remaining node fields (text, comment or instruction bodies), which the transformer
   * only carries along.
   */
  datatype Element = Element(
    kind: string,
    name: string,
    attributes: Option<map<string, AttrValue>>,
    elements: Children,
    payload: string)

  /** The `elements` field of a node: absent, or a list of child nodes. */
  datatype Children = Absent | Present(items: seq<Element>)

  // ---------------------------------------------------------------------------
  // coerceToString (build/svg.ts:233-241)
  // ---------------------------------------------------------------------------

  predicate IsDigit(c: char) { '0' <= c <= '9' }

  function DigitChar(d: nat): (c: char)
    requires d < 10
    ensures IsDigit(c) && (c == '0' <==> d == 0)
  {
    ('0' as int + d) as char
  }

  function DigitValue(c: char): (d: nat)
    requires IsDigit(c)
    ensures d < 10
  {
    (c as int - '0' as int) as nat
  }

  /** The decimal digits of `n`, most significant first, without leading zeros. */
  function NatDigits(n: nat): (r: string)
    ensures |r| >= 1
    ensures forall i :: 0 <= i < |r| ==> IsDigit(r[i])
    ensures r[0] == '0' ==> n == 0
    decreases n
  {
    if n < 10 then [DigitChar(n)] else NatDigits(n / 10) + [DigitChar(n % 10)]
  }

  /** A whole number rendered the way a JavaScript template literal renders it. */
  function Decimal(n: int): string
  {
    if n < 0 then "-" + NatDigits(-n) else NatDigits(n)
  }

  /** Reads back a string of decimal digits. */
  function ParseNat(s: string): nat
    requires forall i :: 0 <= i < |s| ==> IsDigit(s[i])
  {
    if s == [] then 0 else ParseNat(s[..|s| - 1]) * 10 + DigitValue(s[|s| - 1])
  }

  predicate AllDigits(s: string) {
    forall i :: 0 <= i < |s| ==> IsDigit(s[i])
  }

  /** Reads back an optionally negative decimal number; `None` for anything else. */
  function ParseDecimal(s: string): Option<int>
  {
    if |s| >= 1 && s[0] == '-' then
      (if |s| >= 2 && AllDigits(s[1..]) then Some(-(ParseNat(s[1..]) as int)) else None)
    else if |s| >= 1 && AllDigits(s) then Some(ParseNat(s))
    else None
  }

  lemma {:induction false} ParseNatDigits(n: nat)
    ensures ParseNat(NatDigits(n)) == n
    decreases n
  {
    if n >= 10 {
      var d := NatDigits(n);
      assert d[..|d| - 1] == NatDigits(n / 10);
      ParseNatDigits(n / 10);
    }
  }

  /** A string of digits is read as an unsigned number. */
  lemma ParseUnsigned(d: string)
    requires |d| >= 1 && AllDigits(d)
    ensures ParseDecimal(d) == Some(ParseNat(d) as int)
  {
    assert d[0] != '-';
  }

  /** A minus sign followed by a string of digits is read as a negative number. */
  lemma ParseSigned(d: string)
    requires |d| >= 1 && AllDigits(d)
    ensures ParseDecimal("-" + d) == Some(-(ParseNat(d) as int))
  {
    assert ("-" + d)[1..] == d;
  }

  /** Decimal rendering loses nothing: parsing it back gives the number. */
  lemma DecimalRoundTrip(n: int)
    ensures ParseDecimal(Decimal(n)) == Some(n)
  {
    if n < 0 {
      var d := NatDigits(-n);
      ParseNatDigits(-n);
      ParseSigned(d);
      assert Decimal(n) == "-" + d;
    } else {
      var d := NatDigits(n);
      ParseNatDigits(n);
      ParseUnsigned(d);
      assert Decimal(n) == d;
    }
  }

  /**
   * `coerceToString`: `undefined` becomes the empty string, a string is kept, a number is
   * rendered in decimal: a non-empty string that starts with `-` exactly for a negative
   * number and reads back as the number (`CoerceNumberRoundTrip`).
   */
  function CoerceToString(v: AttrValue): (r: string)
    ensures v.Undefined? ==> r == ""
    ensures v.Str? ==> r == v.s
    ensures v.Num? ==> |r| >= 1 && (r[0] == '-' <==> v.n < 0)
    ensures r == "" <==> v == Undefined || v == Str("")
  {
    match v
    case Undefined => ""
    case Str(s) => s
    case Num(n) => Decimal(n)
  }

  /** A number attribute's string form reads back as that number. */
  lemma CoerceNumberRoundTrip(n: int)
    ensures ParseDecimal(CoerceToString(Num(n))) == Some(n)
  {
    DecimalRoundTrip(n);
  }

  // ---------------------------------------------------------------------------
  // Attribute escaping (build/svg.ts:202-216)
  // ---------------------------------------------------------------------------

  /** The characters that may not appear raw inside a double-quoted XML attribute value (besides `&`). */
  predicate IsMarkupChar(c: char) {
    c == '<' || c == '>' || c == '"' || c == '\''
  }

  /** No raw markup character anywhere in `s`. */
  predicate NoMarkup(s: string) {
    forall i :: 0 <= i < |s| ==> !IsMarkupChar(s[i])
  }

  lemma NoMarkupConcat(a: string, b: string)
    requires NoMarkup(a) && NoMarkup(b)
    ensures NoMarkup(a + b)
  {
    forall i | 0 <= i < |a + b| ensures !IsMarkupChar((a + b)[i]) {
      if i >= |a| {
        assert (a + b)[i] == b[i - |a|];
      }
    }
  }

  /** The predefined XML entity for each of the five special characters (XML 1.0, section 4.6). */
  function EscapeChar(c: char): (r: string)
    ensures |r| >= 1 && (r[0] == '&' <==> c == '&' || IsMarkupChar(c))
    ensures NoMarkup(r)
  {
    if c == '&' then "&amp;"
    else if c == '<' then "&lt;"
    else if c == '>' then "&gt;"
    else if c == '"' then "&quot;"
    else if c == '\'' then "&#39;"
    else [c]
  }

  /** Escapes EVERY occurrence of the five special characters. */
  function EscapeText(s: string): (r: string)
    ensures NoMarkup(r)
    ensures |r| >= |s|
  {
    if s == [] then []
    else
      var head, tail := EscapeChar(s[0]), EscapeText(s[1..]);
      NoMarkupConcat(head, tail);
      head + tail
  }

  /**
   * The character and length of the predefined entity that `s` starts with, if any
   * (`&amp;`, `&lt;`, `&gt;`, `&quot;` or `&#39;`).
   */
  function EntityAt(s: string): (r: Option<(char, nat)>)
    ensures r.Some? ==> 4 <= r.value.1 <= |s| && s[0] == '&'
  {
    if s == [] || s[0] != '&' then None
    else if StartsWith(s, "&amp;") then Some(('&', 5))
    else if StartsWith(s, "&lt;") then Some(('<', 4))
    else if StartsWith(s, "&gt;") then Some(('>', 4))
    else if StartsWith(s, "&quot;") then Some(('"', 6))
    else if StartsWith(s, "&#39;") then Some(('\'', 5))
    else None
  }

  /** Decodes the five predefined entities; any other character is kept. */
  function Unescape(s: string): string
    decreases |s|
  {
    if s == [] then []
    else match EntityAt(s)
      case Some((c, n)) => [c] + Unescape(s[n..])
      case None => [s[0]] + Unescape(s[1..])
  }

  /** The entity that an escaped character starts with decodes back to that character. */
  lemma EntityAtEscape(c: char, rest: string)
    ensures EntityAt(EscapeChar(c) + rest) ==
      if c == '&' || IsMarkupChar(c) then Some((c, |EscapeChar(c)|)) else None
  {
    var e := EscapeChar(c) + rest;
    if c == '&' {
      assert e[..5] == "&amp;";
    } else if c == '<' {
      assert e[..4] == "&lt;" && e[1] != 'a';
    } else if c == '>' {
      assert e[..4] == "&gt;" && e[1] != 'a' && e[1] != 'l';
    } else if c == '"' {
      assert e[..6] == "&quot;" && e[1] != 'a' && e[1] != 'l' && e[1] != 'g';
    } else if c == '\'' {
      assert e[..5] == "&#39;" && e[1] != 'a' && e[1] != 'l' && e[1] != 'g' && e[1] != 'q';
    } else {
      assert e[0] == c;
    }
  }

  /** Escaping every occurrence is undone by decoding the entities. */
  lemma {:induction false} UnescapeEscape(s: string)
    ensures Unescape(EscapeText(s)) == s
  {
    if s != [] {
      var head, rest := EscapeChar(s[0]), EscapeText(s[1..]);
      UnescapeEscape(s[1..]);
      EntityAtEscape(s[0], rest);
      assert EscapeText(s) == head + rest;
      assert (head + rest)[|head|..] == rest;
      if !(s[0] == '&' || IsMarkupChar(s[0])) {
        assert head == [s[0]];
        assert (head + rest)[1..] == rest;
      }
    }
  }

  /** The index of the first `c` in `s`, or `|s|` when there is none (JavaScript's `indexOf`, with -1 as `|s|`). */
  function IndexOf(s: string, c: char): (r: nat)
    ensures r <= |s|
    ensures r < |s| ==> s[r] == c
    ensures forall j :: 0 <= j < r ==> s[j] != c
  {
    if s == [] then 0 else if s[0] == c then 0 else 1 + IndexOf(s[1..], c)
  }

  /**
   * JavaScript's `String.prototype.replace` with a string pattern: only the FIRST
   * occurrence of `c` is replaced by `rep`.
   */
  function ReplaceFirst(s: string, c: char, rep: string): (r: string)
    ensures c !in s ==> r == s
    ensures c in s ==> |r| == |s| + |rep| - 1
    ensures c in s ==> exists i :: 0 <= i < |s| && s[i] == c && c !in s[..i] && r == s[..i] + rep + s[i + 1..]
  {
    var i := IndexOf(s, c);
    if i == |s| then s else assert c !in s[..i]; s[..i] + rep + s[i + 1..]
  }

  /**
   * The escaping chain as build/svg.ts:205-210 writes it: one `replace` per character, in
   * this order, each replacing only the first occurrence. A value without special
   * characters is kept, and each of the five replacements adds at most the length of its
   * entity less one.
   */
  function EscapeFirstOnly(s: string): (r: string)
    ensures '&' !in s && '<' !in s && '>' !in s && '"' !in s && '\'' !in s ==> r == s
    ensures |s| <= |r| <= |s| + 19
  {
    ReplaceFirst(ReplaceFirst(ReplaceFirst(ReplaceFirst(ReplaceFirst(
      s, '&', "&amp;"), '<', "&lt;"), '>', "&gt;"), '"', "&quot;"), '\'', "&#39;")
  }

  /** `&lt;` followed by a `<` has no `>`, `"` or `'` for the last three replacements to find. */
  lemma LastThreeKeepLt(t: string)
    requires |t| == 5 && t[..4] == "&lt;" && t[4] == '<'
    ensures ReplaceFirst(ReplaceFirst(ReplaceFirst(t, '>', "&gt;"), '"', "&quot;"), '\'', "&#39;") == t
  {
    assert forall i :: 0 <= i < |t| ==> t[i] in "&lt;<";
    assert '>' !in t && '"' !in t && '\'' !in t;
  }

  /**
   * The escaping as written leaves a second occurrence of a special character raw:
   * of two `<` only the first becomes `&lt;`.
   */
  lemma FirstOnlyLeavesMarkup(s: string)
    requires |s| == 2 && s[0] == '<' && s[1] == '<'
    ensures EscapeFirstOnly(s) == "&lt;" + s[1..]
    ensures IsMarkupChar(EscapeFirstOnly(s)[4])
  {
    assert '&' !in s;
    assert IndexOf(s, '<') == 0;
    var t := ReplaceFirst(s, '<', "&lt;");
    assert t == "&lt;" + s[1..];
    LastThreeKeepLt(t);
  }

  /** Escaping every occurrence turns both `<` into `&lt;`, and decoding gives back `<<`. */
  lemma EscapeEveryLt()
    ensures EscapeText("<<") == "&lt;&lt;"
    ensures Unescape(EscapeText("<<")) == "<<"
  {
    assert EscapeText("<") == "&lt;";
    assert "<<"[1..] == "<";
    UnescapeEscape("<<");
  }

  // ---------------------------------------------------------------------------
  // escapeAttributes on whole trees (build/svg.ts:202-216)
  // ---------------------------------------------------------------------------

  /** One node's attributes, each value coerced to a string and escaped by `esc`. */
  function EscapeAttributes(esc: string -> string, m: map<string, AttrValue>): map<string, AttrValue>
  {
    map k | k in m :: Str(esc(CoerceToString(m[k])))
  }

  /**
   * `escapeAttributes(inXml)`: every attribute value of the node and of all its descendants
   * becomes the escaped string form of its coerced value; nothing else changes. `esc` is
   * the escaping applied to each value (the source's chain, or the corrected one).
   */
  function EscapeTree(esc: string -> string, e: Element): (r: Element)
    ensures r.kind == e.kind && r.name == e.name && r.payload == e.payload
    ensures r.attributes.Some? <==> e.attributes.Some?
    ensures e.attributes.Some? ==> r.attributes.value.Keys == e.attributes.value.Keys
    ensures e.attributes.Some? ==> forall k :: k in e.attributes.value ==>
              r.attributes.value[k] == Str(esc(CoerceToString(e.attributes.value[k])))
    ensures r.elements.Present? <==> e.elements.Present?
    ensures e.elements.Present? ==> |r.elements.items| == |e.elements.items|
    ensures e.elements.Present? ==> forall i :: 0 <= i < |e.elements.items| ==>
              r.elements.items[i] == EscapeTree(esc, e.elements.items[i])
  {
    var attributes :=
      match e.attributes
      case None => None
      case Some(m) => Some(EscapeAttributes(esc, m));
    var elements :=
      match e.elements
      case Absent => Absent
      case Present(cs) => Present(seq(|cs|, i requires 0 <= i < |cs| => EscapeTree(esc, cs[i])));
    e.(attributes := attributes, elements := elements)
  }

  /** Every attribute value of the node and of all descendants is a string with no raw markup character. */
  predicate Escaped(e: Element)
  {
    && (e.attributes.Some? ==> forall k :: k in e.attributes.value ==>
          e.attributes.value[k].Str? && NoMarkup(e.attributes.value[k].s))
    && (e.elements.Present? ==> forall i :: 0 <= i < |e.elements.items| ==> Escaped(e.elements.items[i]))
  }

  /** Escaping every occurrence reaches every attribute of every descendant. */
  lemma {:induction false} EscapeTreeEscapes(e: Element)
    ensures Escaped(EscapeTree(EscapeText, e))
  {
    if e.elements.Present? {
      var cs := e.elements.items;
      forall i | 0 <= i < |cs| ensures Escaped(EscapeTree(EscapeText, e).elements.items[i]) {
        EscapeTreeEscapes(cs[i]);
      }
    }
  }

  function CoerceAttributes(m: map<string, AttrValue>): map<string, AttrValue>
  {
    map k | k in m :: Str(CoerceToString(m[k]))
  }

  /** Every attribute value replaced by its coerced string, as escaping followed by decoding should give. */
  function CoerceTree(e: Element): Element
  {
    var attributes :=
      match e.attributes
      case None => None
      case Some(m) => Some(CoerceAttributes(m));
    var elements :=
      match e.elements
      case Absent => Absent
      case Present(cs) => Present(seq(|cs|, i requires 0 <= i < |cs| => CoerceTree(cs[i])));
    e.(attributes := attributes, elements := elements)
  }

  function UnescapeAttributes(m: map<string, AttrValue>): map<string, AttrValue>
  {
    map k | k in m :: if m[k].Str? then Str(Unescape(m[k].s)) else m[k]
  }

  /** What a parser reading the serialised tree sees: every string attribute value decoded. */
  function UnescapeTree(e: Element): Element
  {
    var attributes :=
      match e.attributes
      case None => None
      case Some(m) => Some(UnescapeAttributes(m));
    var elements :=
      match e.elements
      case Absent => Absent
      case Present(cs) => Present(seq(|cs|, i requires 0 <= i < |cs| => UnescapeTree(cs[i])));
    e.(attributes := attributes, elements := elements)
  }

  /** Decoding one escaped attribute gives back its coerced string. */
  lemma UnescapeEscapeValue(m: map<string, AttrValue>, k: string)
    requires k in m
    ensures k in EscapeAttributes(EscapeText, m)
    ensures UnescapeAttributes(EscapeAttributes(EscapeText, m))[k] == CoerceAttributes(m)[k]
  {
    var x := CoerceToString(m[k]);
    assert EscapeAttributes(EscapeText, m)[k] == Str(EscapeText(x));
    UnescapeEscape(x);
  }

  /** Escaping, decoding and coercing attributes keep their names. */
  lemma AttributeKeys(m: map<string, AttrValue>)
    ensures EscapeAttributes(EscapeText, m).Keys == m.Keys
    ensures UnescapeAttributes(EscapeAttributes(EscapeText, m)).Keys == m.Keys
    ensures CoerceAttributes(m).Keys == m.Keys
  {
    assert EscapeAttributes(EscapeText, m).Keys == m.Keys;
  }

  /** Decoding the escaped attributes of a node gives back their coerced strings. */
  lemma UnescapeEscapeAttributes(m: map<string, AttrValue>)
    ensures UnescapeAttributes(EscapeAttributes(EscapeText, m)) == CoerceAttributes(m)
  {
    AttributeKeys(m);
    forall k | k in m ensures UnescapeAttributes(EscapeAttributes(EscapeText, m))[k] == CoerceAttributes(m)[k] {
      UnescapeEscapeValue(m, k);
    }
  }

  /** Decoding a fully escaped tree gives back every attribute's coerced string, and nothing else changes. */
  lemma {:induction false} UnescapeEscapeTree(e: Element)
    ensures UnescapeTree(EscapeTree(EscapeText, e)) == CoerceTree(e)
  {
    var u, c := UnescapeTree(EscapeTree(EscapeText, e)), CoerceTree(e);
    if e.attributes.Some? {
      UnescapeEscapeAttributes(e.attributes.value);
    }
    if e.elements.Present? {
      var cs := e.elements.items;
      forall i | 0 <= i < |cs| ensures u.elements.items[i] == c.elements.items[i] {
        UnescapeEscapeTree(cs[i]);
      }
      assert u.elements.items == c.elements.items;
    }
  }
}
