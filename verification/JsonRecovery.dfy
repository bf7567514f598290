/**
 Recovering a JSON object from free text: the brace scan with its string state,
 the string-safe comma repair, and the search over candidate starts. Parsing the
 candidate itself is the foreign `loads`.
 */
module JsonRecovery {
  import opened Common
  import opened JsonText
  import B = Branching

  /** Outside strings, inside one, or right behind a backslash inside one. */
  datatype Scan = Out | In | Esc

  function Next(st: Scan, c: char): Scan {
    match st
    case Out => if c == '"' then In else Out
    case In => if c == '\\' then Esc else if c == '"' then Out else In
    case Esc => In
  }

  // ---- the brace scan ---------------------------------------------------

  function Shift(k: Option<nat>, n: nat): Option<nat> {
    if k.Some? then Some(k.value + n) else None
  }

  /** Where the brace that brings the depth back to zero stands in `s`. */
  function CloseAt(s: string, depth: int, st: Scan): (r: Option<nat>)
    ensures r.Some? ==> r.value < |s|
  {
    if s == "" then None
    else
      var c := s[0];
      var deeper := if st != Out then depth else if c == '{' then depth + 1 else if c == '}' then depth - 1 else depth;
      if st == Out && c == '}' && deeper == 0 then Some(0)
      else Shift(CloseAt(s[1..], deeper, Next(st, c)), 1)
  }

  /** `p` neither opens nor closes anything: scanning over it only moves the position. */
  ghost predicate Neutral(p: string) {
    forall rest: string, d: int {:trigger CloseAt(p + rest, d, Out)} ::
      d >= 1 ==> CloseAt(p + rest, d, Out) == Shift(CloseAt(rest, d, Out), |p|)
  }

  lemma NeutralConcat(a: string, b: string)
    requires Neutral(a) && Neutral(b)
    ensures Neutral(a + b)
  {
    forall rest: string, d: int | d >= 1
      ensures CloseAt(a + b + rest, d, Out) == Shift(CloseAt(rest, d, Out), |a + b|)
    {
      assert a + b + rest == a + (b + rest);
      assert CloseAt(a + (b + rest), d, Out) == Shift(CloseAt(b + rest, d, Out), |a|);
    }
  }

  lemma ConsTail(s: string, rest: string)
    requires s != ""
    ensures (s + rest)[0] == s[0] && (s + rest)[1..] == s[1..] + rest
  {
  }

  lemma {:induction false} CloseInert(s: string, rest: string, d: int)
    requires AllInert(s) && d >= 1
    ensures CloseAt(s + rest, d, Out) == Shift(CloseAt(rest, d, Out), |s|)
    decreases |s|
  {
    if s == "" {
      assert s + rest == rest;
    } else {
      ConsTail(s, rest);
      CloseInert(s[1..], rest, d);
    }
  }

  lemma NeutralInert(s: string)
    requires AllInert(s)
    ensures Neutral(s)
  {
    forall rest: string, d: int | d >= 1
      ensures CloseAt(s + rest, d, Out) == Shift(CloseAt(rest, d, Out), |s|)
    { CloseInert(s, rest, d); }
  }

  lemma NeutralChar(c: char)
    requires c !in "{}" && c != '"'
    ensures Neutral([c])
  {
    forall rest: string, d: int | d >= 1
      ensures CloseAt([c] + rest, d, Out) == Shift(CloseAt(rest, d, Out), 1)
    { ConsTail([c], rest); assert [c][1..] + rest == rest; }
  }

  lemma EscapeScanned(b: string, q: string, d: int)
    requires IsStringBody(b) && b != "" && b[0] == '\\'
    ensures |b| >= 2 && IsStringBody(b[2..])
    ensures CloseAt(b + q, d, In) == Shift(CloseAt(b[2..] + q, d, In), 2)
  {
    ConsTail(b, q);
    EscapeTail(b);
    ConsTail(b[1..], q);
    assert b[1..][1..] == b[2..];
  }

  lemma PlainScanned(b: string, q: string, d: int)
    requires IsStringBody(b) && b != "" && b[0] != '\\'
    ensures IsStringBody(b[1..])
    ensures CloseAt(b + q, d, In) == Shift(CloseAt(b[1..] + q, d, In), 1)
  {
    ConsTail(b, q);
  }

  /** A string body and its closing quote leave the in-string state exactly at the quote. */
  lemma {:induction false} CloseBody(b: string, rest: string, d: int)
    requires IsStringBody(b)
    ensures CloseAt(b + ("\"" + rest), d, In) == Shift(CloseAt(rest, d, Out), |b| + 1)
    decreases |b|
  {
    var q := "\"" + rest;
    if b == "" {
      assert b + q == q && q[1..] == rest;
    } else if b[0] == '\\' {
      EscapeScanned(b, q, d);
      CloseBody(b[2..], rest, d);
    } else {
      PlainScanned(b, q, d);
      CloseBody(b[1..], rest, d);
    }
  }

  lemma NeutralString(b: string)
    requires IsStringBody(b)
    ensures Neutral("\"" + b + "\"")
  {
    var p := "\"" + b + "\"";
    forall rest: string, d: int | d >= 1
      ensures CloseAt(p + rest, d, Out) == Shift(CloseAt(rest, d, Out), |p|)
    {
      ConsTail(p, rest);
      assert p[1..] + rest == b + ("\"" + rest);
      CloseBody(b, rest, d);
    }
  }

  lemma NeutralBraces(p: string)
    requires Neutral(p)
    ensures Neutral("{" + p + "}")
  {
    var q := "{" + p + "}";
    forall rest: string, d: int | d >= 1
      ensures CloseAt(q + rest, d, Out) == Shift(CloseAt(rest, d, Out), |q|)
    {
      BracesClose(p, rest, d);
    }
  }

  /** Scanning `{p}` from depth `d`: the closing brace ends the scan exactly when `d` is zero. */
  lemma BracesClose(p: string, rest: string, d: int)
    requires Neutral(p) && d >= 0
    ensures CloseAt("{" + p + "}" + rest, d, Out) ==
            if d == 0 then Some(|p| + 1) else Shift(CloseAt(rest, d, Out), |p| + 2)
  {
    var s := "{" + p + "}" + rest;
    var tail := "}" + rest;
    assert s[0] == '{' && s[1..] == p + tail;
    assert CloseAt(p + tail, d + 1, Out) == Shift(CloseAt(tail, d + 1, Out), |p|);
    assert tail[0] == '}' && tail[1..] == rest;
  }

  lemma NeutralBrackets(p: string)
    requires Neutral(p)
    ensures Neutral("[" + p + "]")
  {
    NeutralChar('[');
    NeutralChar(']');
    NeutralConcat("[", p);
    NeutralConcat("[" + p, "]");
  }

  lemma NeutralTrail(trail: Option<string>, m: Mode)
    requires WfTrail(trail)
    ensures Neutral(TrailText(trail, m))
  {
    if trail.Some? {
      WsInert(trail.value);
      NeutralInert(trail.value);
      NeutralChar(',');
      NeutralConcat(",", trail.value);
      NeutralInert("");
      NeutralConcat("", trail.value);
    } else {
      NeutralInert("");
    }
  }

  lemma NeutralSeparator(needed: bool)
    ensures Neutral(Separator(needed))
  {
    NeutralInert("");
    NeutralChar(',');
  }

  /** No value, however its strings are filled, disturbs the brace depth. */
  lemma {:induction false} NeutralValue(v: Value, m: Mode)
    requires Wf(v)
    ensures Neutral(Text(v, m))
    decreases v
  {
    hide Neutral, CloseAt;
    match v {
      case Literal(t) => LiteralInert(t); NeutralInert(t);
      case String(b) => NeutralString(b);
      case Array(open, items, trail) =>
        NeutralItems(items, m);
        NeutralInside(open, ItemsText(items, m), trail, m);
        NeutralBrackets(open + ItemsText(items, m) + TrailText(trail, m));
      case Object(open, fields, trail) =>
        NeutralFields(fields, m);
        NeutralInside(open, FieldsText(fields, m), trail, m);
        NeutralBraces(open + FieldsText(fields, m) + TrailText(trail, m));
    }
  }

  lemma NeutralInside(open: string, middle: string, trail: Option<string>, m: Mode)
    requires IsWs(open) && Neutral(middle) && WfTrail(trail)
    ensures Neutral(open + middle + TrailText(trail, m))
  {
    hide Neutral, CloseAt;
    WsInert(open);
    NeutralInert(open);
    NeutralTrail(trail, m);
    NeutralConcat(open, middle);
    NeutralConcat(open + middle, TrailText(trail, m));
  }

  lemma {:induction false} NeutralItems(items: Items, m: Mode)
    requires WfItems(items)
    ensures Neutral(ItemsText(items, m))
    decreases items
  {
    hide Neutral, CloseAt;
    match items {
      case NoItems => NeutralInert("");
      case Item(pre, v, post, more) =>
        NeutralValue(v, m);
        NeutralItems(more, m);
        NeutralSeparator(more.Item?);
        WsInert(pre); NeutralInert(pre);
        WsInert(post); NeutralInert(post);
        NeutralConcat(pre, Text(v, m));
        NeutralConcat(pre + Text(v, m), post);
        NeutralConcat(pre + Text(v, m) + post, Separator(more.Item?));
        NeutralConcat(pre + Text(v, m) + post + Separator(more.Item?), ItemsText(more, m));
    }
  }

  lemma {:induction false} NeutralFields(fields: Fields, m: Mode)
    requires WfFields(fields)
    ensures Neutral(FieldsText(fields, m))
    decreases fields
  {
    hide Neutral, CloseAt;
    match fields {
      case NoFields => NeutralInert("");
      case Field(pre, key, mid, mid2, v, post, more) =>
        NeutralValue(v, m);
        NeutralFields(more, m);
        NeutralSeparator(more.Field?);
        NeutralKey(pre, key, mid, mid2);
        WsInert(post); NeutralInert(post);
        var head := pre + ("\"" + key + "\"") + (mid + ":" + mid2);
        NeutralConcat(head, Text(v, m));
        NeutralConcat(head + Text(v, m), post);
        NeutralConcat(head + Text(v, m) + post, Separator(more.Field?));
        NeutralConcat(head + Text(v, m) + post + Separator(more.Field?), FieldsText(more, m));
    }
  }

  lemma NeutralKey(pre: string, key: string, mid: string, mid2: string)
    requires IsWs(pre) && IsStringBody(key) && IsWs(mid) && IsWs(mid2)
    ensures Neutral(pre + ("\"" + key + "\"") + (mid + ":" + mid2))
  {
    hide Neutral, CloseAt;
    WsInert(pre); NeutralInert(pre);
    WsInert(mid); NeutralInert(mid);
    WsInert(mid2); NeutralInert(mid2);
    NeutralString(key);
    NeutralChar(':');
    NeutralConcat(mid, ":");
    NeutralConcat(mid + ":", mid2);
    NeutralConcat(pre, "\"" + key + "\"");
    NeutralConcat(pre + ("\"" + key + "\""), mid + ":" + mid2);
  }

  /** The scan from an object's opening brace stops exactly at its own closing brace. */
  lemma ScanStopsAtObjectEnd(v: Value, m: Mode, rest: string)
    requires Wf(v) && v.Object?
    ensures CloseAt(Text(v, m) + rest, 0, Out) == Some(|Text(v, m)| - 1)
  {
    hide Neutral, CloseAt;
    NeutralFields(v.fields, m);
    NeutralInside(v.open, FieldsText(v.fields, m), v.trail, m);
    BracesClose(v.open + FieldsText(v.fields, m) + TrailText(v.trail, m), rest, 0);
  }

  /** One character of the scan, with the scan's flags as the loop keeps them. */
  lemma CloseStep(text: string, j: nat, depth: int, st: Scan)
    requires j < |text|
    ensures var c := text[j];
            var deeper := if st != Out then depth else if c == '{' then depth + 1 else if c == '}' then depth - 1 else depth;
            Shift(CloseAt(text[j..], depth, st), j) ==
            if st == Out && c == '}' && deeper == 0 then Some(j)
            else Shift(CloseAt(text[j + 1..], deeper, Next(st, c)), j + 1)
  {
    assert text[j..][1..] == text[j + 1..];
  }

  method TryFromClose(text: string, start: nat) returns (end: Option<nat>)
    requires start <= |text|
    ensures end == Shift(CloseAt(text[start..], 0, Out), start)
  {
    var depth, inStr, esc := 0, false, false;
    for j := start to |text|
      invariant esc ==> inStr
      invariant Shift(CloseAt(text[start..], 0, Out), start) ==
                Shift(CloseAt(text[j..], depth, ScanOf(inStr, esc)), j)
    {
      hide CloseAt;
      var ch := text[j];
      CloseStep(text, j, depth, ScanOf(inStr, esc));
      if inStr {
        if esc { esc := false; }
        else if ch == '\\' { esc := true; }
        else if ch == '"' { inStr := false; }
      } else if ch == '"' {
        inStr := true;
      } else if ch == '{' {
        depth := depth + 1;
      } else if ch == '}' {
        depth := depth - 1;
        if depth == 0 { return Some(j); }
      }
    }
    end := None;
  }

  function ScanOf(inStr: bool, esc: bool): Scan {
    if esc then Esc else if inStr then In else Out
  }

  // ---- the comma repair -------------------------------------------------

  function SkipBlank(s: string): (t: string)
    ensures |t| <= |s|
  {
    if s != "" && s[0] in " \t\n" then SkipBlank(s[1..]) else s
  }

  /** The text behind a comma closes a container; a carriage return is not skipped. */
  predicate Dangling(s: string) {
    var t := SkipBlank(s);
    t != "" && t[0] in "}]"
  }

  predicate Drops(s: string, st: Scan)
    requires s != ""
  {
    st == Out && s[0] == ',' && Dangling(s[1..])
  }

  function StripCommas(s: string, st: Scan): string {
    if s == "" then ""
    else (if Drops(s, st) then "" else [s[0]]) + StripCommas(s[1..], Next(st, s[0]))
  }

  method StripTrailingCommas(text: string) returns (out: string)
    ensures out == StripCommas(text, Out)
  {
    out := "";
    var inStr, esc := false, false;
    for i := 0 to |text|
      invariant esc ==> inStr
      invariant StripCommas(text, Out) == out + StripCommas(text[i..], ScanOf(inStr, esc))
    {
      var ch := text[i];
      assert text[i..][1..] == text[i + 1..];
      ghost var rest := StripCommas(text[i + 1..], Next(ScanOf(inStr, esc), ch));
      Regroup(out, [ch], rest);
      if inStr {
        out := out + [ch];
        if esc { esc := false; }
        else if ch == '\\' { esc := true; }
        else if ch == '"' { inStr := false; }
        continue;
      }
      if ch == ',' {
        var j := i + 1;
        while j < |text| && text[j] in " \t\n"
          invariant i < j <= |text|
          invariant SkipBlank(text[i + 1..]) == SkipBlank(text[j..])
        {
          assert text[j..][1..] == text[j + 1..];
          j := j + 1;
        }
        assert SkipBlank(text[i + 1..]) == text[j..];
        if j < |text| && text[j] in "}]" {
          continue;
        }
      } else if ch == '"' {
        inStr := true;
      }
      out := out + [ch];
    }
  }

  lemma Regroup(a: string, b: string, c: string)
    ensures a + (b + c) == a + b + c
    ensures a + ("" + c) == a + c
  {
    assert "" + c == c;
  }

  // ---- what the repair keeps, on any text -------------------------------

  /** Which characters stay. */
  ghost function Mask(s: string, st: Scan): (keep: seq<bool>)
    ensures |keep| == |s|
  {
    if s == "" then [] else [!Drops(s, st)] + Mask(s[1..], Next(st, s[0]))
  }

  /** Every character with the scan state in front of it. */
  ghost function Annotate(s: string, st: Scan): (a: seq<(char, Scan)>)
    ensures |a| == |s|
  {
    if s == "" then [] else [(s[0], st)] + Annotate(s[1..], Next(st, s[0]))
  }

  ghost function Select<T>(s: seq<T>, keep: seq<bool>): seq<T>
    requires |s| == |keep|
  {
    if s == [] then [] else (if keep[0] then [s[0]] else []) + Select(s[1..], keep[1..])
  }

  /**
   The repair only removes characters, each of them a comma outside strings, and
   every character it keeps is read in the same string state as before.
   */
  lemma {:induction false} RepairDropsOnlyCommas(s: string, st: Scan)
    ensures StripCommas(s, st) == Select(s, Mask(s, st))
    ensures forall i :: 0 <= i < |s| && !Mask(s, st)[i] ==> s[i] == ',' && Annotate(s, st)[i].1 == Out
    ensures Annotate(StripCommas(s, st), st) == Select(Annotate(s, st), Mask(s, st))
    decreases |s|
  {
    if s != "" {
      var st1 := Next(st, s[0]);
      RepairDropsOnlyCommas(s[1..], st1);
      assert Mask(s, st)[1..] == Mask(s[1..], st1);
      assert Annotate(s, st)[1..] == Annotate(s[1..], st1);
      forall i | 0 <= i < |s| && !Mask(s, st)[i] ensures s[i] == ',' && Annotate(s, st)[i].1 == Out {
        if i > 0 { assert Mask(s, st)[i] == Mask(s[1..], st1)[i - 1] && Annotate(s, st)[i] == Annotate(s[1..], st1)[i - 1]; }
      }
      var rest := StripCommas(s[1..], st1);
      if Drops(s, st) {
        assert StripCommas(s, st) == rest;
      } else {
        assert StripCommas(s, st) == [s[0]] + rest;
        assert ([s[0]] + rest)[1..] == rest;
      }
    }
  }

  // ---- what the repair does to JSON texts -------------------------------

  /** Over `p` the repair writes `q`, whatever follows. */
  ghost predicate Becomes(p: string, q: string) {
    forall rest: string {:trigger StripCommas(p + rest, Out)} :: StripCommas(p + rest, Out) == q + StripCommas(rest, Out)
  }

  lemma BecomesConcat(a: string, b: string, x: string, y: string)
    requires Becomes(a, x) && Becomes(b, y)
    ensures Becomes(a + b, x + y)
  {
    forall rest: string ensures StripCommas(a + b + rest, Out) == x + y + StripCommas(rest, Out) {
      assert a + b + rest == a + (b + rest);
      assert StripCommas(a + (b + rest), Out) == x + StripCommas(b + rest, Out);
      assert x + (y + StripCommas(rest, Out)) == x + y + StripCommas(rest, Out);
    }
  }

  /** Characters that are neither quotes nor commas are copied. */
  lemma {:induction false} CopyPlain(s: string)
    requires forall i :: 0 <= i < |s| ==> s[i] != '"' && s[i] != ','
    ensures Becomes(s, s)
    decreases |s|
  {
    forall rest: string ensures StripCommas(s + rest, Out) == s + StripCommas(rest, Out) {
      if s == "" {
        assert s + rest == rest && s + StripCommas(rest, Out) == StripCommas(rest, Out);
      } else {
        ConsTail(s, rest);
        CopyPlain(s[1..]);
        assert StripCommas(s[1..] + rest, Out) == s[1..] + StripCommas(rest, Out);
        assert [s[0]] + (s[1..] + StripCommas(rest, Out)) == s + StripCommas(rest, Out);
      }
    }
  }

  /** One copied character in front of a copied rest. */
  lemma CopyOne(s: string, st: Scan, tail: string)
    requires s != "" && (st != Out || s[0] != ',')
    requires StripCommas(s[1..], Next(st, s[0])) == tail
    ensures StripCommas(s, st) == [s[0]] + tail
  {
  }

  lemma ConsAssoc(c: char, s: string, t: string)
    ensures [c] + (s + t) == ([c] + s) + t
  {
  }

  lemma UnCons(s: string)
    requires s != ""
    ensures [s[0]] + s[1..] == s
  {
  }

  lemma {:induction false} CopyBody(b: string, rest: string)
    requires IsStringBody(b)
    ensures StripCommas(b + ("\"" + rest), In) == b + ("\"" + StripCommas(rest, Out))
    decreases |b|
  {
    var q, r := "\"" + rest, "\"" + StripCommas(rest, Out);
    if b == "" {
      assert b + q == q && q[1..] == rest && b + r == r;
    } else {
      ConsTail(b, q);
      if b[0] == '\\' {
        EscapeTail(b);
        assert b[1..][1..] == b[2..];
        CopyBody(b[2..], rest);
        CopyInString(b[1..], q, Esc, r);
        CopyInString(b, q, In, r);
      } else {
        CopyBody(b[1..], rest);
        CopyInString(b, q, In, r);
      }
    }
  }

  lemma CopyInString(b: string, q: string, st: Scan, r: string)
    requires b != "" && st != Out && StripCommas(b[1..] + q, Next(st, b[0])) == b[1..] + r
    ensures StripCommas(b + q, st) == b + r
  {
    ConsTail(b, q);
    CopyOne(b + q, st, b[1..] + r);
    ConsAssoc(b[0], b[1..], r);
    UnCons(b);
  }

  lemma CopyString(b: string)
    requires IsStringBody(b)
    ensures Becomes("\"" + b + "\"", "\"" + b + "\"")
  {
    forall rest: string
      ensures StripCommas("\"" + b + "\"" + rest, Out) == "\"" + b + "\"" + StripCommas(rest, Out)
    {
      CopyQuoted(b, rest);
    }
  }

  lemma CopyQuoted(b: string, rest: string)
    requires IsStringBody(b)
    ensures StripCommas("\"" + b + "\"" + rest, Out) == "\"" + b + "\"" + StripCommas(rest, Out)
  {
    var p := "\"" + b + "\"";
    var r := StripCommas(rest, Out);
    CopyBody(b, rest);
    ConsTail(p, rest);
    assert p[1..] + rest == b + ("\"" + rest);
    CopyOne(p + rest, Out, b + ("\"" + r));
    assert p + r == ['"'] + (b + ("\"" + r));
  }

  /** Behind blanks the first other character decides, or a carriage return among the blanks. */
  lemma {:induction false} DanglingBehind(w: string, t: string)
    requires IsWs(w) && t != "" && t[0] !in " \t\n\r"
    ensures Dangling(w + t) <==> '\r' !in w && t[0] in "}]"
    decreases |w|
  {
    if w == "" {
      assert w + t == t;
    } else {
      ConsTail(w, t);
      if w[0] != '\r' {
        DanglingBehind(w[1..], t);
        assert w == [w[0]] + w[1..];
      }
    }
  }

  function After(m: Mode): Mode {
    if m == Plain then Plain else Repaired
  }

  /** The closing of a container: its trailing comma goes, unless a carriage return stands behind it. */
  lemma CloseBecomes(trail: Option<string>, m: Mode, close: string)
    requires WfTrail(trail) && close in {"]", "}"}
    ensures Becomes(TrailText(trail, m) + close, TrailText(trail, After(m)) + close)
  {
    if trail.Some? {
      CopyPlain(trail.value + close);
      assert "" + trail.value + close == trail.value + close;
      if TrailText(trail, m) == "," + trail.value {
        TrailComma(trail.value, close);
        assert "," + trail.value + close == "," + (trail.value + close);
      }
    } else {
      CopyPlain("" + close);
    }
  }

  lemma TrailComma(w: string, close: string)
    requires IsWs(w) && close in {"]", "}"}
    ensures Becomes("," + (w + close), (if '\r' in w then "," else "") + (w + close))
  {
    CopyPlain(w + close);
    forall rest: string
      ensures StripCommas("," + (w + close) + rest, Out) ==
              (if '\r' in w then "," else "") + (w + close) + StripCommas(rest, Out)
    {
      var t := w + close + rest;
      ConsTail("," + (w + close), rest);
      assert ("," + (w + close))[1..] + rest == t;
      assert t == w + (close + rest);
      DanglingBehind(w, close + rest);
      assert StripCommas(t, Out) == w + close + StripCommas(rest, Out);
      Regroup("", ",", w + close);
      assert [','] + (w + close + StripCommas(rest, Out)) == "," + (w + close) + StripCommas(rest, Out);
      assert "" + (w + close) == w + close;
    }
  }

  ghost predicate NeverDangles(t: string) {
    forall rest: string {:trigger Dangling(t + rest)} :: !Dangling(t + rest)
  }

  /** Blanks and then something that closes nothing. */
  lemma StartNeverDangles(pre: string, t: string, more: string)
    requires IsWs(pre) && t != "" && t[0] !in " \t\n\r" && t[0] !in "}]"
    ensures NeverDangles(pre + t + more)
  {
    forall rest: string ensures !Dangling(pre + t + more + rest) {
      assert pre + t + more + rest == pre + (t + more + rest);
      DanglingBehind(pre, t + more + rest);
    }
  }

  lemma CommaKept(t: string, u: string)
    requires Becomes(t, u) && NeverDangles(t)
    ensures Becomes("," + t, "," + u)
  {
    forall rest: string ensures StripCommas("," + t + rest, Out) == "," + u + StripCommas(rest, Out) {
      ConsTail("," + t, rest);
      assert ("," + t)[1..] + rest == t + rest;
      ConsAssoc(',', u, StripCommas(rest, Out));
    }
  }

  lemma SeparatorKept(needed: bool, t: string, u: string)
    requires Becomes(t, u) && (needed ==> NeverDangles(t))
    ensures Becomes(Separator(needed) + t, Separator(needed) + u)
  {
    if needed {
      CommaKept(t, u);
    } else {
      assert "" + t == t && "" + u == u;
    }
  }

  lemma WsCopied(w: string)
    requires IsWs(w)
    ensures Becomes(w, w)
  {
    CopyPlain(w);
  }

  /** Joins an element (blanks, value, blanks), its separator and the rest. */
  lemma JoinElement(head: string, t: string, u: string, post: string, needed: bool, more: string, more': string)
    requires Becomes(head, head) && Becomes(t, u) && Becomes(post, post)
    requires Becomes(Separator(needed) + more, Separator(needed) + more')
    ensures Becomes(head + t + post + Separator(needed) + more, head + u + post + Separator(needed) + more')
  {
    hide Becomes;
    BecomesConcat(head, t, head, u);
    BecomesConcat(head + t, post, head + u, post);
    BecomesConcat(head + t + post, Separator(needed) + more, head + u + post, Separator(needed) + more');
    Regroup(head + t + post, Separator(needed), more);
    Regroup(head + u + post, Separator(needed), more');
  }

  lemma JoinContainer(bra: string, open: string, x: string, y: string, trail: Option<string>, m: Mode, close: string)
    requires IsWs(open) && WfTrail(trail) && bra in {"[", "{"} && close in {"]", "}"}
    requires Becomes(x, y)
    ensures Becomes(bra + (open + x + TrailText(trail, m)) + close, bra + (open + y + TrailText(trail, After(m))) + close)
  {
    var t, u := TrailText(trail, m), TrailText(trail, After(m));
    hide Becomes, TrailText, WfTrail, After;
    CloseBecomes(trail, m, close);
    CopyPlain(bra + open);
    BecomesConcat(bra + open, x, bra + open, y);
    BecomesConcat(bra + open + x, t + close, bra + open + y, u + close);
    assert bra + open + x + (t + close) == bra + (open + x + t) + close;
    assert bra + open + y + (u + close) == bra + (open + y + u) + close;
  }

  /** The repair on any JSON text with marked trailing commas. */
  lemma {:induction false} RepairValue(v: Value, m: Mode)
    requires Wf(v)
    ensures Becomes(Text(v, m), Text(v, After(m)))
    decreases v
  {
    hide Becomes, After;
    match v {
      case Literal(t) => LiteralInert(t); CopyPlain(t);
      case String(b) => CopyString(b);
      case Array(open, items, trail) =>
        RepairItems(items, m);
        JoinContainer("[", open, ItemsText(items, m), ItemsText(items, After(m)), trail, m, "]");
      case Object(open, fields, trail) =>
        RepairFields(fields, m);
        JoinContainer("{", open, FieldsText(fields, m), FieldsText(fields, After(m)), trail, m, "}");
    }
  }

  lemma {:induction false} RepairItems(items: Items, m: Mode)
    requires WfItems(items)
    ensures Becomes(ItemsText(items, m), ItemsText(items, After(m)))
    ensures items.Item? ==> NeverDangles(ItemsText(items, m))
    decreases items
  {
    hide Becomes, After, NeverDangles, Separator;
    match items {
      case NoItems => CopyPlain("");
      case Item(pre, v, post, more) =>
        RepairValue(v, m);
        RepairItems(more, m);
        SeparatorKept(more.Item?, ItemsText(more, m), ItemsText(more, After(m)));
        WsCopied(pre);
        WsCopied(post);
        JoinElement(pre, Text(v, m), Text(v, After(m)), post, more.Item?, ItemsText(more, m), ItemsText(more, After(m)));
        TextStart(v, m);
        var tail := post + (Separator(more.Item?) + ItemsText(more, m));
        StartNeverDangles(pre, Text(v, m), tail);
        Regroup(pre + Text(v, m), post, Separator(more.Item?) + ItemsText(more, m));
        Regroup(pre + Text(v, m) + post, Separator(more.Item?), ItemsText(more, m));
    }
  }

  lemma KeyCopied(pre: string, key: string, mid: string, mid2: string)
    requires IsWs(pre) && IsStringBody(key) && IsWs(mid) && IsWs(mid2)
    ensures var head := pre + ("\"" + key + "\"") + (mid + ":" + mid2);
            Becomes(head, head)
  {
    hide Becomes;
    CopyPlain(pre);
    CopyString(key);
    CopyPlain(mid + ":" + mid2);
    BecomesConcat(pre, "\"" + key + "\"", pre, "\"" + key + "\"");
    BecomesConcat(pre + ("\"" + key + "\""), mid + ":" + mid2, pre + ("\"" + key + "\""), mid + ":" + mid2);
  }

  lemma {:induction false} RepairFields(fields: Fields, m: Mode)
    requires WfFields(fields)
    ensures Becomes(FieldsText(fields, m), FieldsText(fields, After(m)))
    ensures fields.Field? ==> NeverDangles(FieldsText(fields, m))
    decreases fields
  {
    hide Becomes, After, NeverDangles, Separator;
    match fields {
      case NoFields => CopyPlain("");
      case Field(pre, key, mid, mid2, v, post, more) =>
        RepairValue(v, m);
        RepairFields(more, m);
        SeparatorKept(more.Field?, FieldsText(more, m), FieldsText(more, After(m)));
        KeyCopied(pre, key, mid, mid2);
        WsCopied(post);
        var head := pre + ("\"" + key + "\"") + (mid + ":" + mid2);
        JoinElement(head, Text(v, m), Text(v, After(m)), post, more.Field?, FieldsText(more, m), FieldsText(more, After(m)));
        var tail := (mid + ":" + mid2) + Text(v, m) + post + Separator(more.Field?) + FieldsText(more, m);
        StartNeverDangles(pre, "\"" + key + "\"", tail);
        FieldAssoc(pre, "\"" + key + "\"", mid + ":" + mid2, Text(v, m), post, Separator(more.Field?), FieldsText(more, m));
    }
  }

  lemma FieldAssoc(pre: string, key: string, colon: string, t: string, post: string, sep: string, more: string)
    ensures pre + key + (colon + t + post + sep + more) == pre + key + colon + t + post + sep + more
  {
  }

  // ---- the repair's laws ------------------------------------------------

  lemma StripNothing(v: Value, m: Mode)
    requires Wf(v)
    ensures StripCommas(Text(v, m), Out) == Text(v, After(m))
  {
    RepairValue(v, m);
    assert Text(v, m) + "" == Text(v, m);
    assert StripCommas(Text(v, m) + "", Out) == Text(v, After(m)) + StripCommas("", Out);
  }

  /** The repair is the identity on every valid JSON text, blanks around it included. */
  lemma RepairIsIdentityOnJson(before: string, v: Value, after: string)
    requires Wf(v) && IsWs(before) && IsWs(after)
    ensures StripCommas(before + Text(v, Plain) + after, Out) == before + Text(v, Plain) + after
  {
    var t := before + Text(v, Plain) + after;
    WsCopied(before);
    WsCopied(after);
    RepairValue(v, Plain);
    BecomesConcat(before, Text(v, Plain), before, Text(v, Plain));
    BecomesConcat(before + Text(v, Plain), after, before + Text(v, Plain), after);
    assert t + "" == t;
    assert StripCommas(t + "", Out) == t + StripCommas("", Out);
  }

  /** How many trailing commas a carriage return protects. */
  function Protected(v: Value): nat {
    match v
    case Literal(_) => 0
    case String(_) => 0
    case Array(_, items, trail) => ProtectedItems(items) + ProtectedTrail(trail)
    case Object(_, fields, trail) => ProtectedFields(fields) + ProtectedTrail(trail)
  }

  function ProtectedItems(items: Items): nat {
    match items
    case NoItems => 0
    case Item(_, v, _, more) => Protected(v) + ProtectedItems(more)
  }

  function ProtectedFields(fields: Fields): nat {
    match fields
    case NoFields => 0
    case Field(_, _, _, _, v, _, more) => Protected(v) + ProtectedFields(more)
  }

  function ProtectedTrail(trail: Option<string>): nat {
    if trail.Some? && '\r' in trail.value then 1 else 0
  }

  lemma {:induction false} RepairedLength(v: Value)
    ensures |Text(v, Repaired)| == |Text(v, Plain)| + Protected(v)
    ensures Protected(v) == 0 ==> Text(v, Repaired) == Text(v, Plain)
    decreases v
  {
    match v {
      case Literal(_) =>
      case String(_) =>
      case Array(_, items, trail) => RepairedItemsLength(items);
      case Object(_, fields, trail) => RepairedFieldsLength(fields);
    }
  }

  lemma {:induction false} RepairedItemsLength(items: Items)
    ensures |ItemsText(items, Repaired)| == |ItemsText(items, Plain)| + ProtectedItems(items)
    ensures ProtectedItems(items) == 0 ==> ItemsText(items, Repaired) == ItemsText(items, Plain)
    decreases items
  {
    if items.Item? {
      RepairedLength(items.v);
      RepairedItemsLength(items.more);
    }
  }

  lemma {:induction false} RepairedFieldsLength(fields: Fields)
    ensures |FieldsText(fields, Repaired)| == |FieldsText(fields, Plain)| + ProtectedFields(fields)
    ensures ProtectedFields(fields) == 0 ==> FieldsText(fields, Repaired) == FieldsText(fields, Plain)
    decreases fields
  {
    if fields.Field? {
      RepairedLength(fields.v);
      RepairedFieldsLength(fields.more);
    }
  }

  /**
   A text with one trailing comma in any containers is turned back into the
   ordinary text exactly when no carriage return stands behind such a comma.
   */
  lemma TrailingCommasRepairedIff(v: Value)
    requires Wf(v)
    ensures StripCommas(Text(v, Trailing), Out) == Text(v, Plain) <==> Protected(v) == 0
  {
    StripNothing(v, Trailing);
    RepairedLength(v);
  }

  // ---- when a second repair changes nothing -------------------------------

  /** The text goes on, behind blanks, with a comma the repair drops. */
  predicate DropsNext(s: string) {
    var t := SkipBlank(s);
    t != "" && Drops(t, Out)
  }

  /** Some comma outside strings is followed, behind blanks, by a comma the repair drops. */
  predicate Doubled(s: string, st: Scan) {
    s != "" && ((st == Out && s[0] == ',' && DropsNext(s[1..])) || Doubled(s[1..], Next(st, s[0])))
  }

  predicate AnyDropped(s: string, st: Scan) {
    s != "" && (Drops(s, st) || AnyDropped(s[1..], Next(st, s[0])))
  }

  lemma {:induction false} FixedIffNothingDropped(s: string, st: Scan)
    ensures |StripCommas(s, st)| <= |s|
    ensures StripCommas(s, st) == s <==> !AnyDropped(s, st)
  {
    if s != "" {
      FixedIffNothingDropped(s[1..], Next(st, s[0]));
      var rest := StripCommas(s[1..], Next(st, s[0]));
      if Drops(s, st) {
        assert StripCommas(s, st) == rest;
      } else {
        assert StripCommas(s, st) == [s[0]] + rest;
        assert s == [s[0]] + s[1..];
        if [s[0]] + rest == s { assert rest == ([s[0]] + rest)[1..]; }
      }
    }
  }

  /** Behind a comma, the repaired text closes a container if the text did, or if its next sign is a dropped comma. */
  lemma {:induction false} DanglingRepaired(s: string)
    ensures Dangling(StripCommas(s, Out)) <==> Dangling(s) || DropsNext(s)
  {
    if s != "" {
      var rest := StripCommas(s[1..], Next(Out, s[0]));
      if Drops(s, Out) {
        DanglingRepaired(s[1..]);
        assert StripCommas(s, Out) == rest;
      } else {
        assert StripCommas(s, Out) == [s[0]] + rest;
        assert ([s[0]] + rest)[1..] == rest;
        if s[0] in " \t\n" { DanglingRepaired(s[1..]); }
      }
    }
  }

  lemma {:induction false} DroppedAgainIffDoubled(s: string, st: Scan)
    ensures AnyDropped(StripCommas(s, st), st) <==> Doubled(s, st)
  {
    if s != "" {
      var st1 := Next(st, s[0]);
      var rest := StripCommas(s[1..], st1);
      DroppedAgainIffDoubled(s[1..], st1);
      if st == Out { DanglingRepaired(s[1..]); }
      if Drops(s, st) {
        assert StripCommas(s, st) == rest;
      } else {
        assert StripCommas(s, st) == [s[0]] + rest;
        assert ([s[0]] + rest)[1..] == rest;
      }
    }
  }

  /** Repairing again changes nothing exactly when no comma has a dropped comma as its next sign. */
  lemma RepairIdempotentIff(s: string)
    ensures StripCommas(StripCommas(s, Out), Out) == StripCommas(s, Out) <==> !Doubled(s, Out)
  {
    FixedIffNothingDropped(StripCommas(s, Out), Out);
    DroppedAgainIffDoubled(s, Out);
  }

  lemma OneCommaRepaired()
    ensures StripCommas(",]", Out) == "]" && StripCommas("[1,]", Out) == "[1]"
  {
    assert SkipBlank("]") == "]";
    assert "[1,]"[1..] == "1,]" && "1,]"[1..] == ",]" && ",]"[1..] == "]" && "]"[1..] == "";
    assert StripCommas("]", Out) == "]";
    assert StripCommas("1,]", Out) == "1]";
  }

  /** Two trailing commas need two repairs: the repair is not idempotent. */
  lemma RepairNotIdempotent()
    ensures StripCommas("[1,,]", Out) == "[1,]" && StripCommas("[1,]", Out) == "[1]"
  {
    OneCommaRepaired();
    assert "[1,,]"[1..] == "1,,]" && "1,,]"[1..] == ",,]" && ",,]"[1..] == ",]";
    assert SkipBlank(",]") == ",]";
    assert StripCommas(",,]", Out) == ",]";
    assert StripCommas("1,,]", Out) == "1,]";
  }

  /** A carriage return behind the trailing comma of `[1,]` protects the comma. */
  lemma CarriageReturnProtects()
    ensures var v := Array("", Item("", Literal("1"), "", NoItems), Some("\r"));
            && Wf(v) && Text(v, Trailing) == "[1,\r]"
            && StripCommas("[1,\r]", Out) == "[1,\r]"
  {
    var v := Array("", Item("", Literal("1"), "", NoItems), Some("\r"));
    assert Digits("1") == 1 && "1"[1..] == "" && IsNumber("1");
    StripNothing(v, Trailing);
    assert Text(v, Trailing) == Text(v, Repaired);
  }
}
