/** HTML escaping and its inverse (`escape_text`, `escape_attr` and `decode_entities` in crates/mb-core/src/html.rs). */
module Escaping {
  import opened Strings

  // ---------------------------------------------------------------- escaping

  function TextChar(c: char): string {
    if c == '&' then "&amp;" else if c == '<' then "&lt;" else if c == '>' then "&gt;" else [c]
  }

  function AttrChar(c: char): string {
    if c == '"' then "&quot;" else if c == '\'' then "&#39;" else TextChar(c)
  }

  function EscapeText(s: string): string {
    if s == "" then "" else TextChar(s[0]) + EscapeText(s[1..])
  }

  function EscapeAttr(s: string): string {
    if s == "" then "" else AttrChar(s[0]) + EscapeAttr(s[1..])
  }

  lemma TextStep(out: string, text: string, i: nat)
    requires i < |text|
    ensures out + EscapeText(text[i..]) == out + TextChar(text[i]) + EscapeText(text[i + 1..])
  {
    assert text[i..][1..] == text[i + 1..];
    Associate(out, TextChar(text[i]), EscapeText(text[i + 1..]));
  }

  lemma AttrStep(out: string, text: string, i: nat)
    requires i < |text|
    ensures out + EscapeAttr(text[i..]) == out + AttrChar(text[i]) + EscapeAttr(text[i + 1..])
  {
    assert text[i..][1..] == text[i + 1..];
    Associate(out, AttrChar(text[i]), EscapeAttr(text[i + 1..]));
  }

  method RunEscapeText(text: string, out: string) returns (r: string)
    ensures r == out + EscapeText(text)
  {
    r := out;
    assert text[0..] == text;
    for i := 0 to |text|
      invariant r + EscapeText(text[i..]) == out + EscapeText(text)
    {
      TextStep(r, text, i);
      var c := text[i];
      r := r + if c == '&' then "&amp;" else if c == '<' then "&lt;" else if c == '>' then "&gt;" else [c];
    }
    assert r + "" == r;
  }

  method RunEscapeAttr(text: string, out: string) returns (r: string)
    ensures r == out + EscapeAttr(text)
  {
    r := out;
    assert text[0..] == text;
    for i := 0 to |text|
      invariant r + EscapeAttr(text[i..]) == out + EscapeAttr(text)
    {
      AttrStep(r, text, i);
      var c := text[i];
      r := r + if c == '"' then "&quot;" else if c == '\'' then "&#39;" else TextChar(c);
    }
    assert r + "" == r;
  }

  lemma {:induction false} EscapeTextConcat(a: string, b: string)
    ensures EscapeText(a + b) == EscapeText(a) + EscapeText(b)
    decreases |a|
  {
    if a == "" {
      assert a + b == b;
    } else {
      EscapeTextConcat(a[1..], b);
      TailOfConcat(a, b);
      assert TextChar(a[0]) + (EscapeText(a[1..]) + EscapeText(b)) == TextChar(a[0]) + EscapeText(a[1..]) + EscapeText(b);
    }
  }

  lemma {:induction false} EscapeAttrConcat(a: string, b: string)
    ensures EscapeAttr(a + b) == EscapeAttr(a) + EscapeAttr(b)
    decreases |a|
  {
    if a == "" {
      assert a + b == b;
    } else {
      EscapeAttrConcat(a[1..], b);
      TailOfConcat(a, b);
      Associate(AttrChar(a[0]), EscapeAttr(a[1..]), EscapeAttr(b));
    }
  }

  lemma CharsAreTame(c: char)
    ensures TextChar(c) != "" && AttrChar(c) != ""
    ensures '<' !in TextChar(c) && '>' !in TextChar(c) && '<' !in AttrChar(c) && '>' !in AttrChar(c)
    ensures '"' !in AttrChar(c) && '\'' !in AttrChar(c)
  {
  }

  /** Escaped text cannot open an element. */
  lemma {:induction false} EscapedTextHasNoTag(s: string)
    ensures '<' !in EscapeText(s) && '>' !in EscapeText(s)
    ensures EscapeText(s) == "" <==> s == ""
  {
    if s != "" {
      CharsAreTame(s[0]);
      EscapedTextHasNoTag(s[1..]);
    }
  }

  /** Escaped text cannot close an attribute, nor the tag around it. */
  lemma {:induction false} EscapedAttrHasNoQuote(s: string)
    ensures '<' !in EscapeAttr(s) && '>' !in EscapeAttr(s) && '"' !in EscapeAttr(s) && '\'' !in EscapeAttr(s)
  {
    if s != "" {
      CharsAreTame(s[0]);
      EscapedAttrHasNoQuote(s[1..]);
    }
  }

  predicate IsPlain(s: string) {
    forall i :: 0 <= i < |s| ==> s[i] !in {'&', '<', '>', '"', '\''}
  }

  /** Text without special characters escapes to itself. */
  lemma {:induction false} PlainEscapesToItself(s: string)
    requires IsPlain(s)
    ensures EscapeAttr(s) == s && EscapeText(s) == s
    decreases |s|
  {
    if s != "" {
      assert forall i :: 0 <= i < |s[1..]| ==> s[1..][i] == s[i + 1];
      PlainEscapesToItself(s[1..]);
    }
  }

  // ---------------------------------------------------------------- decoding

  function HexDigit(c: char): Option<nat> {
    if '0' <= c <= '9' then Some((c - '0') as nat)
    else if 'a' <= c <= 'f' then Some((c - 'a') as nat + 10)
    else if 'A' <= c <= 'F' then Some((c - 'A') as nat + 10)
    else None
  }

  /** The value of a run of digits in the given radix; nothing for an empty run, another character or an overflow. */
  function DigitsValue(s: string, radix: nat): Option<nat> {
    if s == "" then None
    else
      var high := if |s| == 1 then Some(0) else DigitsValue(s[..|s| - 1], radix);
      match (high, HexDigit(s[|s| - 1]))
      case (Some(h), Some(d)) =>
        if d < radix && h * radix + d < 0x1_0000_0000 then Some(h * radix + d) else None
      case _ => None
  }

  /** `u32::from_str_radix`: an optional plus sign and digits. */
  function ParseU32(s: string, radix: nat): Option<nat> {
    DigitsValue(if |s| > 1 && s[0] == '+' then s[1..] else s, radix)
  }

  /** `char::from_u32`: a Unicode scalar value. */
  function CharFrom(n: Option<nat>): Option<char> {
    match n
    case None => None
    case Some(v) => if v < 0xD800 || 0xE000 <= v < 0x11_0000 then Some(v as char) else None
  }

  /** The entities the parser knows, named and numeric. */
  function EntityChar(entity: string): Option<char> {
    if entity == "amp" then Some('&')
    else if entity == "lt" then Some('<')
    else if entity == "gt" then Some('>')
    else if entity == "quot" then Some('"')
    else if entity == "apos" || entity == "#39" then Some('\'')
    else if entity == "nbsp" then Some(' ')
    else if "#x" <= entity then CharFrom(ParseU32(entity[2..], 16))
    else if "#" <= entity then CharFrom(ParseU32(entity[1..], 10))
    else None
  }

  /** A table of entities that knows the ones escaping writes. */
  type Entities = string -> Option<char>

  predicate KnowsEscapes(table: Entities) {
    && table("amp") == Some('&') && table("lt") == Some('<') && table("gt") == Some('>')
    && table("quot") == Some('"') && table("#39") == Some('\'')
  }

  /** Where `c` first occurs in `s` from `i` on, or `|s|` when it does not. */
  function FindFrom(s: string, c: char, i: nat): (n: nat)
    requires i <= |s|
    ensures i <= n <= |s|
    ensures n < |s| ==> s[n] == c
    ensures forall k :: i <= k < n ==> s[k] != c
  {
    i + Find(s[i..], c)
  }

  /** The first `&`, if there is one, has a `;` behind it. */
  predicate Closed(s: string) {
    Find(s, '&') < |s| ==> FindFrom(s, ';', Find(s, '&')) < |s|
  }

  /** What an entity between `start` and `end` appends, and what is left behind it. */
  function StepAt(table: Entities, s: string, start: nat, end: nat): (r: (string, string))
    requires start < end < |s|
    ensures |r.1| < |s|
  {
    match table(s[start + 1..end])
    case Some(c) => (s[..start] + [c], s[end + 1..])
    case None => (s[..start] + "&", s[start + 1..])
  }

  /**
   * `decode_entities`. When an `&` has no `;` behind it, the rest is appended from that `&` on, and then, behind
   * the loop, once more as a whole.
   */
  function DecodeWith(table: Entities, s: string): string
    decreases |s|
  {
    var start := Find(s, '&');
    if start == |s| then s
    else
      var end := FindFrom(s, ';', start);
      if end == |s| then s[..start] + s[start..] + s
      else
        var step := StepAt(table, s, start, end);
        step.0 + DecodeWith(table, step.1)
  }

  function Decode(s: string): string {
    DecodeWith(EntityChar, s)
  }

  lemma DecodeUnfolds(table: Entities, s: string, start: nat, end: nat)
    requires start == Find(s, '&') < |s| && end == FindFrom(s, ';', start) < |s|
    ensures start < end
    ensures DecodeWith(table, s) == StepAt(table, s, start, end).0 + DecodeWith(table, StepAt(table, s, start, end).1)
  {
  }

  /** `decode_entities` as the program runs it. */
  method RunDecode(table: Entities, text: string) returns (out: string)
    ensures out == DecodeWith(table, text)
  {
    out := "";
    var rest := text;
    assert "" + DecodeWith(table, text) == DecodeWith(table, text);
    while Find(rest, '&') < |rest|
      invariant out + DecodeWith(table, rest) == DecodeWith(table, text)
      decreases |rest|
    {
      var start := Find(rest, '&');
      var end := FindFrom(rest, ';', start);
      if end == |rest| {
        UnclosedAppends(table, out, rest);
        out := out + (rest[..start] + rest[start..]);
        break;
      }
      var step := StepAt(table, rest, start, end);
      DecodeUnfolds(table, rest, start, end);
      Associate(out, step.0, DecodeWith(table, step.1));
      out := out + step.0;
      rest := step.1;
    }
    out := out + rest;
  }

  lemma UnclosedAppends(table: Entities, out: string, rest: string)
    requires !Closed(rest)
    ensures out + (rest[..Find(rest, '&')] + rest[Find(rest, '&')..]) + rest == out + DecodeWith(table, rest)
  {
    var start := Find(rest, '&');
    Associate(out, rest[..start] + rest[start..], rest);
  }

  /** An entity that ends at `n` decodes to its character. */
  lemma DecodeEntity(table: Entities, s: string, n: nat, c: char)
    requires 0 < n < |s| && s[0] == '&' && s[n] == ';'
    requires forall k :: 0 <= k < n ==> s[k] != ';'
    requires table(s[1..n]) == Some(c)
    ensures DecodeWith(table, s) == [c] + DecodeWith(table, s[n + 1..])
  {
    FindIs(s, '&', 0);
    assert FindFrom(s, ';', 0) == n;
    DecodeUnfolds(table, s, 0, n);
    assert s[..0] + [c] == [c];
  }

  lemma EntityPiece(table: Entities, piece: string, rest: string, c: char)
    requires |piece| >= 2 && piece[0] == '&' && piece[|piece| - 1] == ';'
    requires forall k :: 0 <= k < |piece| - 1 ==> piece[k] != ';'
    requires table(piece[1..|piece| - 1]) == Some(c)
    ensures DecodeWith(table, piece + rest) == [c] + DecodeWith(table, rest)
  {
    var s := piece + rest;
    assert s[1..|piece| - 1] == piece[1..|piece| - 1] && s[|piece|..] == rest;
    DecodeEntity(table, s, |piece| - 1, c);
  }

  lemma DecodePlainEnd(table: Entities, c: char, rest: string)
    requires c != '&' && Find(rest, '&') == |rest|
    ensures DecodeWith(table, [c] + rest) == [c] + DecodeWith(table, rest)
  {
    var s := [c] + rest;
    assert forall k :: 0 < k < |s| ==> s[k] == rest[k - 1];
    FindIs(s, '&', |s|);
  }

  lemma DecodePlain(table: Entities, c: char, rest: string)
    requires c != '&' && Closed(rest)
    ensures DecodeWith(table, [c] + rest) == [c] + DecodeWith(table, rest)
  {
    if Find(rest, '&') == |rest| {
      DecodePlainEnd(table, c, rest);
    } else {
      DecodePlainFront(table, c, rest);
    }
  }

  lemma DecodePlainFront(table: Entities, c: char, rest: string)
    requires c != '&' && Closed(rest) && Find(rest, '&') < |rest|
    ensures DecodeWith(table, [c] + rest) == [c] + DecodeWith(table, rest)
  {
    var start := Find(rest, '&');
    var end := FindFrom(rest, ';', start);
    var step := StepAt(table, rest, start, end);
    DecodeEntityAt(table, rest, start, end, step.0, step.1);
    DecodeBehind(table, c, rest, start, end, step.0, step.1);
    Associate([c], step.0, DecodeWith(table, step.1));
  }

  /** The first entity stands between `start` and `end`. */
  predicate EntityAt(s: string, start: nat, end: nat) {
    && start < end < |s| && s[start] == '&' && s[end] == ';'
    && (forall k :: 0 <= k < start ==> s[k] != '&') && (forall k :: start <= k < end ==> s[k] != ';')
  }

  lemma FirstEntity(s: string, start: nat, end: nat)
    requires EntityAt(s, start, end)
    ensures Find(s, '&') == start && FindFrom(s, ';', start) == end
  {
    FindIs(s, '&', start);
  }

  lemma EntityBehind(c: char, rest: string, start: nat, end: nat)
    requires c != '&' && EntityAt(rest, start, end)
    ensures EntityAt([c] + rest, start + 1, end + 1)
  {
    var s := [c] + rest;
    assert forall k :: 0 < k < |s| ==> s[k] == rest[k - 1];
  }

  lemma DecodeBehind(table: Entities, c: char, rest: string, start: nat, end: nat, piece: string, next: string)
    requires c != '&' && EntityAt(rest, start, end) && StepAt(table, rest, start, end) == (piece, next)
    ensures DecodeWith(table, [c] + rest) == [c] + piece + DecodeWith(table, next)
  {
    EntityBehind(c, rest, start, end);
    StepBehindPlain(table, c, rest, start, end);
    DecodeEntityAt(table, [c] + rest, start + 1, end + 1, [c] + piece, next);
  }

  lemma DecodeEntityAt(table: Entities, s: string, start: nat, end: nat, piece: string, next: string)
    requires EntityAt(s, start, end) && StepAt(table, s, start, end) == (piece, next)
    ensures DecodeWith(table, s) == piece + DecodeWith(table, next)
  {
    FirstEntity(s, start, end);
    DecodeUnfolds(table, s, start, end);
  }

  lemma ShiftedFind(c: char, rest: string)
    requires c != '&'
    ensures Find([c] + rest, '&') == Find(rest, '&') + 1
  {
    var s := [c] + rest;
    assert forall k :: 0 < k < |s| ==> s[k] == rest[k - 1];
    FindIs(s, '&', Find(rest, '&') + 1);
  }

  lemma ShiftedEnd(c: char, rest: string, start: nat)
    requires start <= |rest|
    ensures FindFrom([c] + rest, ';', start + 1) == FindFrom(rest, ';', start) + 1
  {
    assert ([c] + rest)[start + 1..] == rest[start..];
  }

  lemma ShiftedSlices(c: char, rest: string, i: nat, j: nat)
    requires i <= j <= |rest|
    ensures ([c] + rest)[i + 1..j + 1] == rest[i..j]
    ensures ([c] + rest)[i + 1..] == rest[i..]
    ensures ([c] + rest)[..i + 1] == [c] + rest[..i]
  {
  }

  lemma StepBehindPlain(table: Entities, c: char, rest: string, start: nat, end: nat)
    requires start < end < |rest|
    ensures StepAt(table, [c] + rest, start + 1, end + 1)
         == ([c] + StepAt(table, rest, start, end).0, StepAt(table, rest, start, end).1)
  {
    ShiftedSlices(c, rest, start, end);
    ShiftedSlices(c, rest, start + 1, end);
    ShiftedSlices(c, rest, end + 1, end + 1);
    Associate([c], rest[..start], "&");
    match table(rest[start + 1..end])
    case Some(d) => Associate([c], rest[..start], [d]);
    case None =>
  }

  lemma {:induction false} EntitiesClose(s: string, attr: bool)
    ensures Closed(if attr then EscapeAttr(s) else EscapeText(s))
  {
    if s != "" {
      EntitiesClose(s[1..], attr);
      var piece := if attr then AttrChar(s[0]) else TextChar(s[0]);
      var rest := if attr then EscapeAttr(s[1..]) else EscapeText(s[1..]);
      PieceCloses(piece, rest, s[0], attr);
    }
  }

  lemma PieceCloses(piece: string, rest: string, c: char, attr: bool)
    requires piece == (if attr then AttrChar(c) else TextChar(c)) && Closed(rest)
    ensures Closed(piece + rest)
  {
    if piece == [c] && c != '&' {
      ShiftedFind(c, rest);
      ShiftedEnd(c, rest, Find(rest, '&'));
    } else {
      EntityCloses(piece, rest);
    }
  }

  lemma EntityCloses(piece: string, rest: string)
    requires piece != "" && piece[0] == '&' && Last(piece) == ';'
    ensures Closed(piece + rest)
  {
    var s := piece + rest;
    FindIs(s, '&', 0);
    assert s[|piece| - 1] == ';';
  }

  lemma {:induction false} DecodeUndoesEscapeWith(table: Entities, s: string, attr: bool)
    requires KnowsEscapes(table)
    ensures DecodeWith(table, if attr then EscapeAttr(s) else EscapeText(s)) == s
    decreases |s|
  {
    if s == "" {
      FindIs("", '&', 0);
    } else {
      var rest := if attr then EscapeAttr(s[1..]) else EscapeText(s[1..]);
      DecodeUndoesEscapeWith(table, s[1..], attr);
      EntitiesClose(s[1..], attr);
      DecodeOne(table, s[0], rest, attr);
      assert s == [s[0]] + s[1..];
    }
  }

  lemma DecodeOne(table: Entities, c: char, rest: string, attr: bool)
    requires Closed(rest) && KnowsEscapes(table)
    ensures DecodeWith(table, (if attr then AttrChar(c) else TextChar(c)) + rest) == [c] + DecodeWith(table, rest)
  {
    var piece := if attr then AttrChar(c) else TextChar(c);
    if piece == [c] && c != '&' {
      DecodePlain(table, c, rest);
    } else {
      PieceIsEntity(table, piece, c, attr);
      EntityPiece(table, piece, rest, c);
    }
  }

  lemma PieceIsEntity(table: Entities, piece: string, c: char, attr: bool)
    requires KnowsEscapes(table)
    requires piece == (if attr then AttrChar(c) else TextChar(c)) && (piece != [c] || c == '&')
    ensures |piece| >= 2 && piece[0] == '&' && piece[|piece| - 1] == ';'
    ensures forall k :: 0 <= k < |piece| - 1 ==> piece[k] != ';'
    ensures table(piece[1..|piece| - 1]) == Some(c)
  {
    assert "&amp;"[1..4] == "amp" && "&lt;"[1..3] == "lt" && "&gt;"[1..3] == "gt";
    assert "&quot;"[1..5] == "quot" && "&#39;"[1..4] == "#39";
  }

  /** Decoding undoes escaping, for text and for attributes. */
  lemma DecodeUndoesEscape(s: string, attr: bool)
    ensures Decode(if attr then EscapeAttr(s) else EscapeText(s)) == s
  {
    DecodeUndoesEscapeWith(EntityChar, s, attr);
  }

  // ---------------------------------------------------------------- what decoding is right for

  /** Decoding with the rest behind an unclosed `&` written once, as it stands. */
  function DecodeOnce(table: Entities, s: string): string
    decreases |s|
  {
    var start := Find(s, '&');
    if start == |s| || FindFrom(s, ';', start) == |s| then s
    else
      var step := StepAt(table, s, start, FindFrom(s, ';', start));
      step.0 + DecodeOnce(table, step.1)
  }

  /** Some `;` stands behind `i`. */
  predicate Ends(s: string, i: nat) {
    exists j :: i < j < |s| && s[j] == ';'
  }

  /** Every `&` has some `;` behind it. */
  predicate AllClosed(s: string) {
    forall i: nat | i < |s| :: s[i] == '&' ==> Ends(s, i)
  }

  lemma EndsInSuffix(s: string, m: nat, i: nat)
    requires m <= |s| && i < |s| - m
    ensures s[m..][i] == s[m + i] && (Ends(s[m..], i) <==> Ends(s, m + i))
  {
    var rest := s[m..];
    assert forall j :: 0 <= j < |rest| ==> rest[j] == s[m + j];
    if Ends(s, m + i) {
      var j :| m + i < j < |s| && s[j] == ';';
      assert rest[j - m] == ';';
    }
  }

  /** Cutting off a front whose last `&` has a `;` behind it leaves the same question open. */
  lemma SuffixClosed(s: string, m: nat, end: nat)
    requires m <= |s| && end < |s| && s[end] == ';' && forall i: nat | i < m :: s[i] == '&' ==> i < end
    ensures AllClosed(s) <==> AllClosed(s[m..])
  {
    forall i: nat | i < |s[m..]| ensures s[m..][i] == s[m + i] && (Ends(s[m..], i) <==> Ends(s, m + i)) {
      EndsInSuffix(s, m, i);
    }
    if AllClosed(s[m..]) {
      forall i: nat | i < |s| && s[i] == '&' ensures Ends(s, i) {
        if i >= m {
          assert s[m..][i - m] == '&';
        }
      }
    }
  }

  lemma NeverEnds(s: string, start: nat)
    requires start < |s| && s[start] == '&' && forall j :: start <= j < |s| ==> s[j] != ';'
    ensures !AllClosed(s)
  {
    assert !Ends(s, start);
  }

  lemma UnclosedOnce(table: Entities, s: string, start: nat)
    requires start == Find(s, '&') < |s| && FindFrom(s, ';', start) == |s|
    ensures DecodeOnce(table, s) == s
  {
  }

  lemma UnclosedTwice(table: Entities, s: string, start: nat)
    requires start == Find(s, '&') < |s| && FindFrom(s, ';', start) == |s|
    ensures DecodeWith(table, s) == s[..start] + s[start..] + s
  {
  }

  lemma CutJoins(s: string, start: nat)
    requires start <= |s|
    ensures s[..start] + s[start..] == s
  {
  }

  lemma UnclosedDecodes(table: Entities, s: string, start: nat)
    requires start == Find(s, '&') < |s| && FindFrom(s, ';', start) == |s|
    ensures DecodeWith(table, s) == s + s && DecodeOnce(table, s) == s
  {
    UnclosedOnce(table, s, start);
    UnclosedTwice(table, s, start);
    CutJoins(s, start);
  }

  lemma UnclosedIsOpen(table: Entities, s: string, start: nat)
    requires start == Find(s, '&') < |s| && FindFrom(s, ';', start) == |s|
    ensures !AllClosed(s) && DecodeWith(table, s) == s + s && DecodeOnce(table, s) == s
  {
    UnclosedDecodes(table, s, start);
    NeverEnds(s, start);
  }

  lemma PlainIsClosed(table: Entities, s: string)
    requires Find(s, '&') == |s|
    ensures AllClosed(s) && DecodeWith(table, s) == s == DecodeOnce(table, s)
  {
  }

  lemma OnceUnfolds(table: Entities, s: string, start: nat, end: nat)
    requires start == Find(s, '&') < |s| && end == FindFrom(s, ';', start) < |s|
    ensures start < end
    ensures DecodeOnce(table, s) == StepAt(table, s, start, end).0 + DecodeOnce(table, StepAt(table, s, start, end).1)
  {
  }

  function Behind(table: Entities, s: string, start: nat, end: nat): (m: nat)
    requires start < end < |s|
    ensures start < m <= end + 1 && StepAt(table, s, start, end).1 == s[m..]
  {
    if table(s[start + 1..end]).Some? then end + 1 else start + 1
  }

  /** The rest behind an entity is as closed as the whole. */
  lemma StepClosed(table: Entities, s: string, start: nat, end: nat)
    requires start < end < |s| && s[end] == ';'
    requires forall i: nat | i < |s| :: s[i] == '&' ==> start <= i
    ensures AllClosed(s) <==> AllClosed(StepAt(table, s, start, end).1)
  {
    var m := Behind(table, s, start, end);
    SuffixClosed(s, m, end);
  }

  lemma RepeatStep(s: string, m: nat, k: nat, piece: string, decoded: string, once: string)
    requires 0 < m <= |s| && k < |s[m..]| && decoded == once + s[m..][k..]
    ensures m + k < |s| && piece + decoded == piece + once + s[m + k..]
  {
    assert s[m..][k..] == s[m + k..];
    Associate(piece, once, s[m + k..]);
  }

  /** `decoded` is `once` with some end of `s` written again behind it. */
  predicate Repeats(s: string, decoded: string, once: string) {
    exists k: nat | k < |s| :: decoded == once + s[k..]
  }

  /** Decoding writes some end of the text twice where an `&` is left open, and everything once where none is. */
  lemma {:induction false} DecodingRepeats(table: Entities, s: string)
    ensures AllClosed(s) ==> DecodeWith(table, s) == DecodeOnce(table, s)
    ensures !AllClosed(s) ==> Repeats(s, DecodeWith(table, s), DecodeOnce(table, s))
    decreases |s|, 1
  {
    var start := Find(s, '&');
    if start == |s| {
      PlainIsClosed(table, s);
    } else if FindFrom(s, ';', start) == |s| {
      UnclosedIsOpen(table, s, start);
      assert s[0..] == s;
    } else {
      StepRepeats(table, s, start, FindFrom(s, ';', start));
    }
  }

  lemma {:induction false} StepRepeats(table: Entities, s: string, start: nat, end: nat)
    requires start == Find(s, '&') < |s| && end == FindFrom(s, ';', start) < |s|
    ensures AllClosed(s) ==> DecodeWith(table, s) == DecodeOnce(table, s)
    ensures !AllClosed(s) ==> Repeats(s, DecodeWith(table, s), DecodeOnce(table, s))
    decreases |s|, 0
  {
    DecodeUnfolds(table, s, start, end);
    OnceUnfolds(table, s, start, end);
    StepClosed(table, s, start, end);
    var step, m := StepAt(table, s, start, end), Behind(table, s, start, end);
    DecodingRepeats(table, step.1);
    if !AllClosed(s) {
      var k: nat :| k < |step.1| && DecodeWith(table, step.1) == DecodeOnce(table, step.1) + step.1[k..];
      RepeatStep(s, m, k, step.0, DecodeWith(table, step.1), DecodeOnce(table, step.1));
    }
  }

  /** Decoding writes everything once exactly where every `&` has a `;` behind it. */
  lemma DecodesOnceIffClosed(table: Entities, s: string)
    ensures DecodeWith(table, s) == DecodeOnce(table, s) <==> AllClosed(s)
    ensures !AllClosed(s) ==> Repeats(s, DecodeWith(table, s), DecodeOnce(table, s))
  {
    DecodingRepeats(table, s);
  }

  /** The texts of the examples: a name with an ampersand, and one with an entity in front of an ampersand. */
  const NAME := "R&D"
  const MIXED := "&amp; & x"
  const OPEN := " & x"

  lemma NameDoubles()
    ensures Decode(NAME) == NAME + NAME && DecodeOnce(EntityChar, NAME) == NAME
  {
    FindIs(NAME, '&', 1);
    UnclosedDecodes(EntityChar, NAME, 1);
  }

  lemma OpenDoubles()
    ensures Decode(OPEN) == OPEN + OPEN && DecodeOnce(EntityChar, OPEN) == OPEN
  {
    FindIs(OPEN, '&', 1);
    UnclosedDecodes(EntityChar, OPEN, 1);
  }

  lemma MixedStep()
    ensures Find(MIXED, '&') == 0 && FindFrom(MIXED, ';', 0) == 4 && StepAt(EntityChar, MIXED, 0, 4) == ("&", OPEN)
  {
    FindIs(MIXED, '&', 0);
    FindIs(MIXED, ';', 4);
    assert MIXED[0..] == MIXED && MIXED[1..4] == "amp" && MIXED[5..] == OPEN && MIXED[..0] + ['&'] == "&";
  }

  lemma MixedDoubles()
    ensures Decode(MIXED) == "&" + (OPEN + OPEN) && DecodeOnce(EntityChar, MIXED) == "&" + OPEN
  {
    MixedStep();
    DecodeUnfolds(EntityChar, MIXED, 0, 4);
    OnceUnfolds(EntityChar, MIXED, 0, 4);
    OpenDoubles();
  }

  /** A name with an ampersand is written twice; behind an entity that decodes, what follows is. */
  lemma UnclosedEntityDoubles()
    ensures Decode(NAME) == NAME + NAME && DecodeOnce(EntityChar, NAME) == NAME
    ensures Decode(MIXED) == "&" + (OPEN + OPEN) && DecodeOnce(EntityChar, MIXED) == "&" + OPEN
  {
    NameDoubles();
    MixedDoubles();
  }
}
