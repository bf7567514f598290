/** Searching a reply for the first candidate that parses as an object. */
module JsonExtract {
  import opened Common
  import opened JsonText
  import opened JsonRecovery
  import B = Branching

  /** What the JSON library makes of a text: an object, some other value, or a decode error. */
  datatype Loaded<V> = Dict(value: V) | OtherValue | DecodeError

  /** The candidate as it stands, or else with its trailing commas removed. */
  function TryLoads<V>(loads: string -> Loaded<V>, candidate: string): Option<V> {
    var first := loads(candidate);
    if first.Dict? then Some(first.value)
    else
      var repaired := StripCommas(candidate, Out);
      if repaired == candidate then None
      else
        var second := loads(repaired);
        if second.Dict? then Some(second.value) else None
  }

  function TryFrom<V>(loads: string -> Loaded<V>, text: string, start: nat): Option<V>
    requires start <= |text|
  {
    match CloseAt(text[start..], 0, Out)
    case None => None
    case Some(k) => TryLoads(loads, text[start..start + k + 1])
  }

  /** The first brace from `i` on whose candidate loads as an object. */
  function FirstObject<V>(loads: string -> Loaded<V>, text: string, i: nat): Option<V>
    requires i <= |text|
    decreases |text| - i
  {
    if i == |text| then None
    else if text[i] == '{' && TryFrom(loads, text, i).Some? then TryFrom(loads, text, i)
    else FirstObject(loads, text, i + 1)
  }

  const FENCE := "```"

  function LowerRun(s: string): (n: nat)
    ensures n <= |s|
    ensures forall i :: 0 <= i < n ==> 'a' <= s[i] <= 'z'
  {
    if s != "" && 'a' <= s[0] <= 'z' then 1 + LowerRun(s[1..]) else 0
  }

  /** Removes an opening fence line: the fence, a lower-case language tag, a line feed. */
  function DropOpenFence(s: string): string
    requires FENCE <= s
  {
    var tagged := s[|FENCE|..];
    var body := tagged[LowerRun(tagged)..];
    if body != "" && body[0] == '\n' then body[1..] else body
  }

  /** Removes a closing fence at the end, with the line feed in front of it. */
  function DropCloseFence(s: string): string {
    if |s| >= |FENCE| && s[|s| - |FENCE|..] == FENCE then
      var body := s[..|s| - |FENCE|];
      if body != "" && body[|body| - 1] == '\n' then body[..|body| - 1] else body
    else s
  }

  function Cleaned(text: string): string {
    var s := B.Strip(text);
    if FENCE <= s then DropCloseFence(DropOpenFence(s)) else s
  }

  function Extract<V>(loads: string -> Loaded<V>, text: Option<string>): Option<V> {
    FirstObject(loads, Cleaned(if text.Some? then text.value else ""), 0)
  }

  method ExtractJson<V>(loads: string -> Loaded<V>, text: Option<string>) returns (r: Option<V>)
    ensures r == Extract(loads, text)
  {
    hide TryFrom, Cleaned;
    var s := Cleaned(if text.Some? then text.value else "");
    for i := 0 to |s|
      invariant FirstObject(loads, s, 0) == FirstObject(loads, s, i)
    {
      if s[i] != '{' { continue; }
      var obj := TryCandidate(loads, s, i);
      if obj.Some? { return obj; }
    }
    r := None;
  }

  method TryCandidate<V>(loads: string -> Loaded<V>, text: string, start: nat) returns (r: Option<V>)
    requires start <= |text|
    ensures r == TryFrom(loads, text, start)
  {
    hide CloseAt, TryLoads;
    var end := TryFromClose(text, start);
    if end.None? { return None; }
    r := LoadCandidate(loads, text[start..end.value + 1]);
  }

  method LoadCandidate<V>(loads: string -> Loaded<V>, candidate: string) returns (r: Option<V>)
    ensures r == TryLoads(loads, candidate)
  {
    hide StripCommas;
    var first := loads(candidate);
    if first.Dict? { return Some(first.value); }
    var repaired := StripTrailingCommas(candidate);
    if repaired == candidate { return None; }
    var second := loads(repaired);
    r := if second.Dict? then Some(second.value) else None;
  }

  // ---- what the search finds ---------------------------------------------

  /** The balanced part that opens at `i` loads as `x`: as it stands or, failing that, without its trailing commas. */
  ghost predicate LoadsAt<V>(loads: string -> Loaded<V>, t: string, i: nat, x: V) {
    && i < |t| && t[i] == '{'
    && var k := CloseAt(t[i..], 0, Out);
       && k.Some?
       && var part := t[i..i + k.value + 1];
          loads(part) == Dict(x) || (!loads(part).Dict? && loads(StripCommas(part, Out)) == Dict(x))
  }

  /** No part that opens in front of `n` loads. */
  ghost predicate NoneLoads<V(!new)>(loads: string -> Loaded<V>, t: string, n: nat) {
    forall j: nat, y :: j < n ==> !LoadsAt(loads, t, j, y)
  }

  lemma TryIsLoads<V>(loads: string -> Loaded<V>, t: string, i: nat, x: V)
    requires i < |t| && t[i] == '{'
    ensures TryFrom(loads, t, i) == Some(x) <==> LoadsAt(loads, t, i, x)
  {
    hide CloseAt, StripCommas;
  }

  /** Searching from `k` on: the first part that loads, if any does. */
  lemma {:induction false} SearchFinds<V(!new)>(loads: string -> Loaded<V>, t: string, k: nat) returns (i: nat)
    requires k <= |t|
    ensures k <= i && forall j: nat, y :: k <= j < i ==> !LoadsAt(loads, t, j, y)
    ensures var r := FirstObject(loads, t, k); if r.Some? then LoadsAt(loads, t, i, r.value) else i == |t|
    decreases |t| - k
  {
    hide TryFrom, LoadsAt;
    if k == |t| {
      i := k;
    } else if t[k] == '{' && TryFrom(loads, t, k).Some? {
      i := k;
      TryIsLoads(loads, t, k, TryFrom(loads, t, k).value);
    } else {
      i := SearchFinds(loads, t, k + 1);
      forall y ensures !LoadsAt(loads, t, k, y) { NotHere(loads, t, k, y); }
    }
  }

  lemma NotHere<V>(loads: string -> Loaded<V>, t: string, k: nat, y: V)
    requires k < |t| && !(t[k] == '{' && TryFrom(loads, t, k).Some?)
    ensures !LoadsAt(loads, t, k, y)
  {
    hide TryFrom, CloseAt, StripCommas;
    if t[k] == '{' { TryIsLoads(loads, t, k, y); }
  }

  lemma LoadsOne<V>(loads: string -> Loaded<V>, t: string, i: nat, x: V, y: V)
    requires LoadsAt(loads, t, i, x) && LoadsAt(loads, t, i, y)
    ensures x == y
  {
    hide CloseAt, StripCommas;
  }

  // ---- cleaning changes nothing -------------------------------------------

  lemma {:induction false} CloseBefore(s: string, rest: string, depth: int, st: Scan)
    requires '}' !in rest
    ensures CloseAt(s + rest, depth, st) == CloseAt(s, depth, st)
    decreases |s|, |rest|
  {
    if s != "" {
      ConsTail(s, rest);
      var c := s[0];
      var deeper := if st != Out then depth else if c == '{' then depth + 1 else if c == '}' then depth - 1 else depth;
      CloseBefore(s[1..], rest, deeper, Next(st, c));
    } else {
      assert s + rest == rest;
      NeverCloses(rest, depth, st);
    }
  }

  lemma {:induction false} NeverCloses(s: string, depth: int, st: Scan)
    requires '}' !in s
    ensures CloseAt(s, depth, st) == None
    decreases |s|
  {
    if s != "" {
      var c := s[0];
      var deeper := if st != Out then depth else if c == '{' then depth + 1 else if c == '}' then depth - 1 else depth;
      NeverCloses(s[1..], deeper, Next(st, c));
    }
  }

  /** Parts that hold no brace may stand on both sides. */
  lemma LoadsShifted<V>(loads: string -> Loaded<V>, p: string, s: string, q: string, i: nat, x: V)
    requires '{' !in p && '{' !in q && '}' !in q
    ensures LoadsAt(loads, p + s + q, i, x) <==> i >= |p| && LoadsAt(loads, s, i - |p|, x)
  {
    hide StripCommas;
    var t := p + s + q;
    if |p| <= i < |p| + |s| {
      var tail := s[i - |p|..];
      assert t[i..] == tail + q && t[i] == s[i - |p|];
      CloseBefore(tail, q, 0, Out);
      var k := CloseAt(tail, 0, Out);
      if k.Some? { assert t[i..i + k.value + 1] == s[i - |p|..i - |p| + k.value + 1]; }
    } else if i < |p| {
      assert t[i] == p[i];
    } else if i < |t| {
      assert t[i] == q[i - |p| - |s|];
    }
  }

  lemma {:induction false} StripLeftParts(s: string) returns (p: string)
    ensures s == p + B.StripLeft(s) && '{' !in p
  {
    if s != "" && B.IsSpace(s[0]) {
      var more := StripLeftParts(s[1..]);
      p := [s[0]] + more;
    } else {
      p := "";
    }
  }

  lemma {:induction false} StripRightParts(s: string) returns (q: string)
    ensures s == B.StripRight(s) + q && '{' !in q && '}' !in q
    decreases |s|
  {
    if s != "" && B.IsSpace(s[|s| - 1]) {
      var more := StripRightParts(s[..|s| - 1]);
      q := more + [s[|s| - 1]];
    } else {
      q := "";
    }
  }

  lemma TagIsPlain(s: string)
    ensures '{' !in s[..LowerRun(s)]
  {
  }

  lemma LineFeedParts(body: string) returns (feed: string)
    ensures body == feed + (if body != "" && body[0] == '\n' then body[1..] else body) && '{' !in feed
  {
    feed := if body != "" && body[0] == '\n' then "\n" else "";
  }

  /** The fence, its tag, and what is left behind them with its line feed. */
  lemma FenceParts(s: string)
    requires FENCE <= s
    ensures var tagged := s[3..]; var body := tagged[LowerRun(tagged)..];
            && s == FENCE + tagged && tagged == tagged[..LowerRun(tagged)] + body
            && DropOpenFence(s) == if body != "" && body[0] == '\n' then body[1..] else body
  {
    hide LowerRun;
  }

  lemma OpenFenceParts(s: string) returns (p: string)
    requires FENCE <= s
    ensures s == p + DropOpenFence(s) && '{' !in p
  {
    hide LowerRun, DropOpenFence;
    FenceParts(s);
    var tagged := s[3..];
    var tag, body := tagged[..LowerRun(tagged)], tagged[LowerRun(tagged)..];
    TagIsPlain(tagged);
    var feed := LineFeedParts(body);
    p := FENCE + (tag + feed);
    Assoc(FENCE, tag, feed, DropOpenFence(s));
    NoBraceIn(tag, feed);
    NoBraceIn(FENCE, tag + feed);
  }

  lemma Assoc(a: string, b: string, c: string, d: string)
    ensures a + (b + (c + d)) == a + (b + c) + d
  {
  }

  lemma NoBraceIn(a: string, b: string)
    requires '{' !in a && '{' !in b
    ensures '{' !in a + b
  {
  }

  lemma CloseFenceParts(s: string) returns (q: string)
    ensures s == DropCloseFence(s) + q && '{' !in q && '}' !in q
  {
    q := s[|DropCloseFence(s)|..];
    if |s| >= 3 && s[|s| - 3..] == FENCE {
      var body := s[..|s| - 3];
      if body != "" && body[|body| - 1] == '\n' {
        assert q == ['\n'] + FENCE;
      } else {
        assert q == FENCE;
      }
    }
  }

  /** Cleaning only takes brace-free ends. */
  lemma CleanedParts(t: string) returns (p: string, q: string)
    ensures t == p + Cleaned(t) + q && '{' !in p && '{' !in q && '}' !in q
  {
    hide DropOpenFence, DropCloseFence, B.StripLeft, B.StripRight;
    p := StripLeftParts(t);
    q := StripRightParts(B.StripLeft(t));
    var s := B.Strip(t);
    assert t == p + s + q;
    if FENCE <= s {
      var p' := OpenFenceParts(s);
      var q' := CloseFenceParts(DropOpenFence(s));
      assert p + (p' + (DropCloseFence(DropOpenFence(s)) + q')) + q
             == (p + p') + DropCloseFence(DropOpenFence(s)) + (q' + q);
      p, q := p + p', q' + q;
    }
  }

  /**
   What is extracted from a text, white space and fences or not: the value of the first
   brace whose balanced part loads, and nothing exactly when no brace's part does.
   */
  lemma ExtractIff<V(!new)>(loads: string -> Loaded<V>, text: string, x: V)
    ensures Extract(loads, Some(text)) == Some(x) <==>
            exists i :: LoadsAt(loads, text, i, x) && NoneLoads(loads, text, i)
    ensures Extract(loads, Some(text)) == None <==> NoneLoads(loads, text, |text|)
  {
    hide LoadsAt, FirstObject, Cleaned;
    var s := Cleaned(text);
    var p, q := CleanedParts(text);
    var k := SearchFinds(loads, s, 0);
    forall i: nat, y ensures LoadsAt(loads, text, i, y) <==> i >= |p| && LoadsAt(loads, s, i - |p|, y) {
      LoadsShifted(loads, p, s, q, i, y);
    }
    var r := Extract(loads, Some(text));
    if r.Some? {
      var i := |p| + k;
      assert LoadsAt(loads, text, i, r.value) && NoneLoads(loads, text, i);
      LoadsInside(loads, text, i, r.value);
      if j :| LoadsAt(loads, text, j, x) && NoneLoads(loads, text, j) {
        assert j == i;
        LoadsOne(loads, text, i, x, r.value);
      }
    } else {
      forall i: nat, y ensures !LoadsAt(loads, text, i, y) {
        if i >= |p| && LoadsAt(loads, s, i - |p|, y) { LoadsInside(loads, s, i - |p|, y); }
      }
    }
  }

  lemma LoadsInside<V>(loads: string -> Loaded<V>, t: string, i: nat, x: V)
    requires LoadsAt(loads, t, i, x)
    ensures i < |t|
  {
  }

  // ---- an object in free text ---------------------------------------------

  lemma SplitBehind(t: string, i: nat, part: string)
    requires i + |part| <= |t| && t[i..i + |part|] == part
    ensures t[i..] == part + t[i + |part|..]
  {
    assert t[i..] == t[i..i + |part|] + t[i + |part|..];
  }

  /** Where an object text stands, the part that opens there is the object text. */
  lemma ObjectLoads<V>(loads: string -> Loaded<V>, before: string, v: Value, m: Mode, after: string, x: V)
    requires Wf(v) && v.Object? && TryLoads(loads, Text(v, m)) == Some(x)
    ensures LoadsAt(loads, before + Text(v, m) + after, |before|, x)
  {
    hide StripCommas;
    var obj := Text(v, m);
    var t := before + obj + after;
    assert t[|before|..] == obj + after && obj[0] == '{' && t[|before|] == obj[0];
    ScanStopsAtObjectEnd(v, m, after);
    assert t[|before|..|before| + |obj|] == obj;
  }

  /** No part opens where there is no brace. */
  lemma BraceFreeLoadsNothing<V(!new)>(loads: string -> Loaded<V>, before: string, rest: string)
    requires '{' !in before
    ensures NoneLoads(loads, before + rest, |before|)
  {
    forall j: nat, y | j < |before| ensures !LoadsAt(loads, before + rest, j, y) {
      assert (before + rest)[j] == before[j];
    }
  }

  /**
   A JSON object text, with or without trailing commas, is recovered from any text around
   it: the part in front may hold anything, braces included, from which nothing loads; the
   part behind may hold anything.
   */
  lemma ExtractFindsObject<V(!new)>(loads: string -> Loaded<V>, before: string, v: Value, m: Mode, after: string)
    requires Wf(v) && v.Object? && NoneLoads(loads, before + Text(v, m) + after, |before|)
    requires TryLoads(loads, Text(v, m)).Some?
    ensures Extract(loads, Some(before + Text(v, m) + after)) == TryLoads(loads, Text(v, m))
  {
    hide TryLoads, LoadsAt, NoneLoads, Extract;
    var x := TryLoads(loads, Text(v, m)).value;
    ObjectLoads(loads, before, v, m, after, x);
    ExtractIff(loads, before + Text(v, m) + after, x);
  }

  /** What the candidate loads as: itself if the library takes it, else the ordinary text behind the repair. */
  lemma TryLoadsOfText<V>(loads: string -> Loaded<V>, v: Value)
    requires Wf(v) && v.Object? && Protected(v) == 0
    ensures loads(Text(v, Plain)).Dict? ==>
              TryLoads(loads, Text(v, Plain)) == Some(loads(Text(v, Plain)).value)
    ensures !loads(Text(v, Trailing)).Dict? && loads(Text(v, Plain)).Dict? ==>
              TryLoads(loads, Text(v, Trailing)) == Some(loads(Text(v, Plain)).value)
  {
    TrailingCommasRepairedIff(v);
  }

  /** The two together: the library's value of the ordinary text comes back from either print. */
  lemma RecoverObject<V(!new)>(loads: string -> Loaded<V>, before: string, v: Value, m: Mode, after: string, x: V)
    requires Wf(v) && v.Object? && Protected(v) == 0 && NoneLoads(loads, before + Text(v, m) + after, |before|)
    requires loads(Text(v, Plain)) == Dict(x)
    requires m == Plain || (m == Trailing && !loads(Text(v, Trailing)).Dict?)
    ensures Extract(loads, Some(before + Text(v, m) + after)) == Some(x)
  {
    TryLoadsOfText(loads, v);
    ExtractFindsObject(loads, before, v, m, after);
  }
}
