/**
 The texts of RFC 8259 (sections 2 to 7) as syntax trees that keep every blank,
 and the same trees printed with trailing commas.
 */
module JsonText {
  import opened Common

  predicate IsWs(w: string) {
    forall i :: 0 <= i < |w| ==> w[i] in " \t\n\r"
  }

  function Digits(s: string): (n: nat)
    ensures n <= |s|
    ensures forall i :: 0 <= i < n ==> '0' <= s[i] <= '9'
  {
    if s != "" && '0' <= s[0] <= '9' then 1 + Digits(s[1..]) else 0
  }

  /** Section 6: an optional minus, digits without a leading zero, fraction, exponent. */
  predicate IsNumber(s: string) {
    var a := if s != "" && s[0] == '-' then s[1..] else s;
    var d := Digits(a);
    d > 0 && (a[0] == '0' ==> d == 1) && IsFraction(a[d..])
  }

  predicate IsFraction(r: string) {
    if r != "" && r[0] == '.' then
      var d := Digits(r[1..]);
      d > 0 && IsExponent(r[1..][d..])
    else IsExponent(r)
  }

  predicate IsExponent(r: string) {
    r == "" ||
    (r[0] in "eE" &&
     var t := if |r| > 1 && r[1] in "+-" then r[2..] else r[1..];
     t != "" && Digits(t) == |t|)
  }

  predicate IsLiteral(s: string) {
    s == "true" || s == "false" || s == "null" || IsNumber(s)
  }

  predicate IsHex(c: char) {
    '0' <= c <= '9' || 'a' <= c <= 'f' || 'A' <= c <= 'F'
  }

  /** Section 7: unescaped characters, two-character escapes, and \u with four hex digits. */
  predicate IsStringBody(s: string) {
    if s == "" then true
    else if s[0] == '\\' then
      if |s| >= 2 && s[1] in "\"\\/bfnrt" then IsStringBody(s[2..])
      else
        |s| >= 6 && s[1] == 'u' && IsHex(s[2]) && IsHex(s[3]) && IsHex(s[4]) && IsHex(s[5]) && IsStringBody(s[6..])
    else s[0] != '"' && s[0] >= ' ' && IsStringBody(s[1..])
  }

  /**
   `trail` marks the containers a printer may put one trailing comma in, with the
   blanks between that comma and the closing bracket.
   */
  datatype Value =
    | Literal(text: string)
    | String(body: string)
    | Array(open: string, items: Items, trail: Option<string>)
    | Object(open: string, fields: Fields, trail: Option<string>)

  datatype Items = NoItems | Item(pre: string, v: Value, post: string, more: Items)

  datatype Fields = NoFields | Field(pre: string, key: string, mid: string, mid2: string, v: Value, post: string, more: Fields)

  /** Plain: the ordinary text. Trailing: with every marked comma. Repaired: with those a carriage return protects. */
  datatype Mode = Plain | Trailing | Repaired

  function TrailText(trail: Option<string>, m: Mode): string {
    match trail
    case None => ""
    case Some(w) => (if m == Trailing || (m == Repaired && '\r' in w) then "," else "") + w
  }

  function Text(v: Value, m: Mode): string {
    match v
    case Literal(t) => t
    case String(b) => "\"" + b + "\""
    case Array(open, items, trail) => "[" + (open + ItemsText(items, m) + TrailText(trail, m)) + "]"
    case Object(open, fields, trail) => "{" + (open + FieldsText(fields, m) + TrailText(trail, m)) + "}"
  }

  function ItemsText(items: Items, m: Mode): string {
    match items
    case NoItems => ""
    case Item(pre, v, post, more) => pre + Text(v, m) + post + Separator(more.Item?) + ItemsText(more, m)
  }

  function FieldsText(fields: Fields, m: Mode): string {
    match fields
    case NoFields => ""
    case Field(pre, key, mid, mid2, v, post, more) =>
      pre + ("\"" + key + "\"") + (mid + ":" + mid2) + Text(v, m) + post + Separator(more.Field?) + FieldsText(more, m)
  }

  function Separator(needed: bool): string {
    if needed then "," else ""
  }

  predicate WfTrail(trail: Option<string>) {
    trail.Some? ==> IsWs(trail.value)
  }

  /** The tree's own conditions: blanks are blanks, literals and strings follow the grammar. */
  predicate Wf(v: Value) {
    match v
    case Literal(t) => IsLiteral(t)
    case String(b) => IsStringBody(b)
    case Array(open, items, trail) => IsWs(open) && WfItems(items) && WfTrail(trail)
    case Object(open, fields, trail) => IsWs(open) && WfFields(fields) && WfTrail(trail)
  }

  predicate WfItems(items: Items) {
    match items
    case NoItems => true
    case Item(pre, v, post, more) => IsWs(pre) && Wf(v) && IsWs(post) && WfItems(more)
  }

  predicate WfFields(fields: Fields) {
    match fields
    case NoFields => true
    case Field(pre, key, mid, mid2, v, post, more) =>
      IsWs(pre) && IsStringBody(key) && IsWs(mid) && IsWs(mid2) && Wf(v) && IsWs(post) && WfFields(more)
  }

  // ---- what characters a literal can hold -------------------------------

  /** A character that means nothing to a scanner for strings, braces, brackets and commas. */
  predicate Inert(c: char) {
    c != '"' && c != '\\' && c !in "{}[],"
  }

  predicate AllInert(s: string) {
    forall i :: 0 <= i < |s| ==> Inert(s[i])
  }

  lemma {:induction false} DigitsInert(s: string)
    requires AllInert(s[Digits(s)..])
    ensures AllInert(s)
  {
    var d := Digits(s);
    forall i | 0 <= i < |s| ensures Inert(s[i]) {
      if i >= d { assert s[i] == s[d..][i - d]; }
    }
  }

  lemma ExponentInert(r: string)
    requires IsExponent(r)
    ensures AllInert(r)
  {
    if r != "" {
      var t := if |r| > 1 && r[1] in "+-" then r[2..] else r[1..];
      forall i | 0 <= i < |r| ensures Inert(r[i]) {
        var k := |r| - |t|;
        if i >= k { assert r[i] == t[i - k]; }
      }
    }
  }

  lemma FractionInert(r: string)
    requires IsFraction(r)
    ensures AllInert(r)
  {
    if r != "" && r[0] == '.' {
      ExponentInert(r[1..][Digits(r[1..])..]);
      DigitsInert(r[1..]);
      forall i | 0 <= i < |r| ensures Inert(r[i]) {
        if i > 0 { assert r[i] == r[1..][i - 1]; }
      }
    } else {
      ExponentInert(r);
    }
  }

  lemma NumberInert(s: string)
    requires IsNumber(s)
    ensures AllInert(s)
  {
    hide IsFraction, IsExponent;
    var a := if s[0] == '-' then s[1..] else s;
    FractionInert(a[Digits(a)..]);
    DigitsInert(a);
    forall i | 0 <= i < |s| ensures Inert(s[i]) {
      if s[0] == '-' && i > 0 { assert s[i] == a[i - 1]; }
    }
  }

  lemma NumberStart(s: string)
    requires IsNumber(s)
    ensures s != "" && s[0] !in " \t\n\r"
  {
    hide IsFraction;
  }

  lemma LiteralInert(s: string)
    requires IsLiteral(s)
    ensures AllInert(s) && s != "" && s[0] !in " \t\n\r"
  {
    hide IsNumber;
    if IsNumber(s) {
      NumberInert(s);
      NumberStart(s);
    }
  }

  /** Behind an escape and its first character, a string body goes on as a string body. */
  lemma EscapeTail(b: string)
    requires IsStringBody(b) && b != "" && b[0] == '\\'
    ensures |b| >= 2 && IsStringBody(b[2..])
  {
    if b[1] !in "\"\\/bfnrt" {
      var t := b[2..];
      assert t[1..][1..][1..][1..] == b[6..];
      assert t[0] == b[2] && t[1..][0] == b[3] && t[1..][1..][0] == b[4] && t[1..][1..][1..][0] == b[5];
      assert IsStringBody(t[1..][1..][1..]);
      assert IsStringBody(t[1..][1..]);
      assert IsStringBody(t[1..]);
    }
  }

  lemma WsInert(w: string)
    requires IsWs(w)
    ensures AllInert(w)
  {
  }

  /** Every value begins with a character that is no blank and closes nothing. */
  lemma TextStart(v: Value, m: Mode)
    requires Wf(v)
    ensures Text(v, m) != "" && Text(v, m)[0] !in " \t\n\r" && Text(v, m)[0] !in "}]"
  {
    if v.Literal? { LiteralInert(v.text); }
  }
}
