/** Strings as the rest of the model uses them: whitespace, trimming and small sequence helpers. */
module Strings {

  datatype Option<+T> = None | Some(value: T)

  /** The first of two options that holds a value. */
  function OrElse<T>(a: Option<T>, b: Option<T>): Option<T> {
    if a.Some? then a else b
  }

  function Init<T>(s: seq<T>): seq<T>
    requires s != []
  {
    s[..|s| - 1]
  }

  function Last<T>(s: seq<T>): T
    requires s != []
  {
    s[|s| - 1]
  }

  function LastOption<T>(s: seq<T>): Option<T> {
    if s == [] then None else Some(s[|s| - 1])
  }

  lemma InitLast<T>(s: seq<T>)
    requires s != []
    ensures s == Init(s) + [Last(s)]
  {
  }

  lemma SnocInit<T>(s: seq<T>, x: T)
    ensures s + [x] != [] && Init(s + [x]) == s && Last(s + [x]) == x
  {
  }

  lemma InitOfConcat<T>(a: seq<T>, b: seq<T>)
    requires b != []
    ensures Init(a + b) == a + Init(b) && Last(a + b) == Last(b)
  {
  }

  lemma TailOfConcat<T>(a: seq<T>, b: seq<T>)
    requires a != []
    ensures (a + b)[1..] == a[1..] + b && (a + b)[0] == a[0]
  {
  }

  lemma TakeSnoc<T>(s: seq<T>, n: nat)
    requires n < |s|
    ensures s[..n + 1] == s[..n] + [s[n]]
  {
  }

  lemma Associate<T>(a: seq<T>, b: seq<T>, c: seq<T>)
    ensures a + b + c == a + (b + c)
  {
  }

  /** Unicode White_Space, the set behind `char::is_whitespace`, `trim` and `trim_end`. */
  predicate IsWhite(c: char) {
    || '\U{0009}' <= c <= '\U{000D}'
    || c == ' ' || c == '\U{0085}' || c == '\U{00A0}' || c == '\U{1680}'
    || '\U{2000}' <= c <= '\U{200A}'
    || c == '\U{2028}' || c == '\U{2029}' || c == '\U{202F}' || c == '\U{205F}' || c == '\U{3000}'
  }

  function TrimStart(s: string): (r: string)
    ensures |r| <= |s|
  {
    if s != "" && IsWhite(s[0]) then TrimStart(s[1..]) else s
  }

  function TrimEnd(s: string): (r: string)
    ensures |r| <= |s|
  {
    if s != "" && IsWhite(s[|s| - 1]) then TrimEnd(s[..|s| - 1]) else s
  }

  function Trim(s: string): string {
    TrimEnd(TrimStart(s))
  }

  /** The characters of `s` that are not whitespace, in order. */
  function NonWhite(s: string): string {
    if s == "" then ""
    else NonWhite(Init(s)) + if IsWhite(Last(s)) then "" else [Last(s)]
  }

  lemma {:induction false} NonWhiteConcat(a: string, b: string)
    ensures NonWhite(a + b) == NonWhite(a) + NonWhite(b)
  {
    if b == "" {
      assert a + b == a;
    } else {
      InitOfConcat(a, b);
      NonWhiteConcat(a, Init(b));
    }
  }

  lemma {:induction false} TrimStartKeepsInk(s: string)
    ensures NonWhite(TrimStart(s)) == NonWhite(s)
    ensures |TrimStart(s)| <= |s| && (|TrimStart(s)| == |s| ==> TrimStart(s) == s)
    ensures TrimStart(s) == "" || !IsWhite(TrimStart(s)[0])
    ensures TrimStart(s) == s[|s| - |TrimStart(s)|..]
    decreases |s|
  {
    if s != "" && IsWhite(s[0]) {
      TrimStartKeepsInk(s[1..]);
      assert s == s[..1] + s[1..];
      NonWhiteConcat(s[..1], s[1..]);
      assert Init(s[..1]) == "";
    }
  }

  lemma {:induction false} TrimEndKeepsInk(s: string)
    ensures NonWhite(TrimEnd(s)) == NonWhite(s)
    ensures |TrimEnd(s)| <= |s| && (|TrimEnd(s)| == |s| ==> TrimEnd(s) == s)
    ensures TrimEnd(s) == "" || !IsWhite(Last(TrimEnd(s)))
    ensures TrimEnd(s) == s[..|TrimEnd(s)|]
    ensures forall k :: |TrimEnd(s)| <= k < |s| ==> IsWhite(s[k])
    decreases |s|
  {
    if s != "" && IsWhite(Last(s)) {
      TrimEndKeepsInk(Init(s));
    }
  }

  /** Where `c` first occurs in `s`, or `|s|` when it does not. */
  function Find(s: string, c: char): (n: nat)
    ensures n <= |s|
    ensures n < |s| ==> s[n] == c
    ensures forall k :: 0 <= k < n ==> s[k] != c
    decreases |s|
  {
    if s == "" || s[0] == c then 0 else 1 + Find(s[1..], c)
  }

  lemma FindIs(s: string, c: char, n: nat)
    requires n <= |s|
    requires n < |s| ==> s[n] == c
    requires forall k :: 0 <= k < n ==> s[k] != c
    ensures Find(s, c) == n
  {
  }

  lemma TrimEndFixed(t: string)
    ensures TrimEnd(t) == t <==> t == "" || !IsWhite(Last(t))
  {
    if t != "" && IsWhite(Last(t)) {
      assert |TrimEnd(Init(t))| <= |t| - 1;
    }
  }

  lemma TrimStartFixed(t: string)
    ensures TrimStart(t) == t <==> t == "" || !IsWhite(t[0])
  {
    if t != "" && IsWhite(t[0]) {
      assert |TrimStart(t[1..])| <= |t| - 1;
    }
  }

  /** A trimmed string has no white space at either end, and trimming it again changes nothing. */
  lemma TrimShape(s: string)
    ensures Trim(s) == "" || (!IsWhite(Trim(s)[0]) && !IsWhite(Last(Trim(s))))
    ensures Trim(Trim(s)) == Trim(s)
    ensures |Trim(s)| <= |s|
    ensures NonWhite(Trim(s)) == NonWhite(s)
    ensures forall c: char :: c !in s ==> c !in Trim(s)
  {
    var a := TrimStart(s);
    TrimStartKeepsInk(s);
    TrimEndKeepsInk(a);
    TrimStartFixed(a);
    var t := Trim(s);
    TrimStartFixed(t);
    TrimEndFixed(t);
  }

  function LowerChar(c: char): char {
    if 'A' <= c <= 'Z' then c - 'A' + 'a' else c
  }

  /** `to_ascii_lowercase`. */
  function AsciiLower(s: string): string {
    seq(|s|, i requires 0 <= i < |s| => LowerChar(s[i]))
  }

  function FindWhite(s: string): (n: nat)
    ensures n <= |s|
    ensures n < |s| ==> IsWhite(s[n])
    ensures forall k :: 0 <= k < n ==> !IsWhite(s[k])
  {
    if s == "" || IsWhite(s[0]) then 0 else 1 + FindWhite(s[1..])
  }

  /** Where `pattern` first occurs in `s`. */
  function FindText(s: string, pattern: string): (r: Option<nat>)
    ensures r.Some? ==> r.value + |pattern| <= |s|
  {
    if pattern <= s then Some(0)
    else if s == "" then None
    else match FindText(s[1..], pattern) case None => None case Some(n) => Some(n + 1)
  }

  function Decimal(n: nat): string {
    (if n < 10 then "" else Decimal(n / 10)) + [(n % 10) as char + '0']
  }

  /** The bytes of a character in UTF-8. */
  function Utf8(c: char): seq<nat> {
    var n := c as nat;
    if n < 0x80 then [n]
    else if n < 0x800 then [0xC0 + n / 0x40, 0x80 + n % 0x40]
    else if n < 0x1_0000 then [0xE0 + n / 0x1000, 0x80 + n / 0x40 % 0x40, 0x80 + n % 0x40]
    else [0xF0 + n / 0x4_0000, 0x80 + n / 0x1000 % 0x40, 0x80 + n / 0x40 % 0x40, 0x80 + n % 0x40]
  }

  /** `str::len`: the number of bytes. */
  function ByteLength(s: string): nat {
    if s == "" then 0 else |Utf8(s[0])| + ByteLength(s[1..])
  }

  /** `str::split` at a character: always at least one piece. */
  function SplitOn(s: string, c: char): (r: seq<string>)
    ensures r != []
    decreases |s|
  {
    var n := Find(s, c);
    if n == |s| then [s] else [s[..n]] + SplitOn(s[n + 1..], c)
  }

  function StripCr(line: string): string {
    if line != "" && Last(line) == '\r' then Init(line) else line
  }

  /** `lines`: a line ends at `\n` or `\r\n`, and a final line break does not start another line. */
  function Lines(s: string): seq<string>
    decreases |s|
  {
    if s == "" then []
    else
      var n := Find(s, '\n');
      if n == |s| then [s] else [StripCr(s[..n])] + Lines(s[n + 1..])
  }

  lemma LinesOfOne(line: string)
    requires line != "" && '\n' !in line
    ensures Lines(line) == [line]
  {
    FindIs(line, '\n', |line|);
  }

  lemma LinesUnfold(line: string, more: string)
    requires '\n' !in line && StripCr(line) == line
    ensures Lines(line + "\n" + more) == [line] + Lines(more)
  {
    var s := line + "\n" + more;
    FindIs(s, '\n', |line|);
    assert s[..|line|] == line && s[|line| + 1..] == more;
  }
}
