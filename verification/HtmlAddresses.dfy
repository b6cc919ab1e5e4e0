/** Where a rendered address leads: what a browser makes of it, and what the guard lets through (crates/mb-core/src/html.rs). */
module HtmlAddresses {
  import opened Strings
  import opened Model
  import opened HtmlMarkup

  // ---------------------------------------------------------------- what a browser does

  /** Blanks and control characters in front of an address do not belong to it. */
  function FromContent(s: string): string {
    if s != "" && s[0] <= ' ' then FromContent(s[1..]) else s
  }

  predicate IsLineControl(c: char) {
    c == '\t' || c == '\n' || c == '\r'
  }

  /** Tabulators and line ends are dropped wherever they stand. */
  function OneLine(s: string): string {
    if s == "" then "" else (if IsLineControl(s[0]) then "" else [s[0]]) + OneLine(s[1..])
  }

  predicate IsLetter(c: char) {
    'a' <= c <= 'z' || 'A' <= c <= 'Z'
  }

  predicate IsSchemeChar(c: char) {
    IsLetter(c) || '0' <= c <= '9' || c in {'+', '-', '.'}
  }

  /** The scheme of a cleaned address reaches to its first colon: a letter, then letters, digits, `+`, `-` and `.`. */
  predicate HasScheme(s: string, n: nat) {
    0 < n < |s| && IsLetter(s[0]) && s[n] == ':' && forall i :: 0 <= i < n ==> IsSchemeChar(s[i])
  }

  /** The schemes that run what they carry, or reach the reader's own files. */
  predicate IsRunning(scheme: string) {
    scheme in {"javascript", "vbscript", "data", "file"}
  }

  function Cleaned(dest: string): string {
    OneLine(FromContent(dest))
  }

  /** A browser that follows `dest` runs it: its scheme, in any case, is one of those that run. */
  ghost predicate BrowserExecutes(dest: string) {
    exists n: nat :: HasScheme(Cleaned(dest), n) && IsRunning(AsciiLower(Cleaned(dest)[..n]))
  }

  // ---------------------------------------------------------------- the guard sees at least as much

  lemma {:induction false} StrippedConcat(a: string, b: string)
    ensures Stripped(a + b) == Stripped(a) + Stripped(b)
    decreases |a|
  {
    if a == "" {
      assert a + b == b;
    } else {
      StrippedConcat(a[1..], b);
      TailOfConcat(a, b);
      Associate(if IsControl(a[0]) || a[0] == ' ' then "" else [a[0]], Stripped(a[1..]), Stripped(b));
    }
  }

  lemma {:induction false} StrippedFromContent(s: string)
    ensures Stripped(FromContent(s)) == Stripped(s)
  {
    if s != "" && s[0] <= ' ' {
      StrippedFromContent(s[1..]);
    }
  }

  lemma {:induction false} StrippedOneLine(s: string)
    ensures Stripped(OneLine(s)) == Stripped(s)
  {
    if s != "" {
      StrippedOneLine(s[1..]);
      if IsLineControl(s[0]) {
        assert OneLine(s) == OneLine(s[1..]) && Stripped(s) == Stripped(s[1..]);
      } else {
        StrippedConcat([s[0]], s[1..]);
        StrippedConcat([s[0]], OneLine(s[1..]));
        assert s == [s[0]] + s[1..];
      }
    }
  }

  predicate Unblank(c: char) {
    !IsControl(c) && c != ' '
  }

  lemma {:induction false} StrippedKeepsUnblank(s: string)
    requires forall c :: c in s ==> Unblank(c)
    ensures Stripped(s) == s
  {
    if s != "" {
      assert s[0] in s && forall c :: c in s[1..] ==> c in s;
      StrippedKeepsUnblank(s[1..]);
      assert s == [s[0]] + s[1..];
    }
  }

  /** A scheme and its colon survive the guard's stripping. */
  lemma SchemeIsKept(s: string, n: nat)
    requires HasScheme(s, n)
    ensures s[..n + 1] <= Stripped(s)
  {
    StrippedKeepsUnblank(s[..n + 1]);
    assert s == s[..n + 1] + s[n + 1..];
    StrippedConcat(s[..n + 1], s[n + 1..]);
  }

  lemma LowerOfPrefix(a: string, b: string)
    requires a <= b
    ensures AsciiLower(a) <= AsciiLower(b)
  {
  }

  lemma LowerOfScheme(s: string, n: nat)
    requires n < |s| && s[n] == ':'
    ensures AsciiLower(s[..n + 1]) == AsciiLower(s[..n]) + ":"
  {
  }

  lemma RunningIsBlocked(scheme: string, lower: string)
    requires IsRunning(scheme) && scheme + ":" <= lower
    ensures "javascript:" <= lower || "vbscript:" <= lower || "data:" <= lower || "file:" <= lower
  {
    assert "javascript" + ":" == "javascript:" && "vbscript" + ":" == "vbscript:";
    assert "data" + ":" == "data:" && "file" + ":" == "file:";
  }

  /** The guard blocks every address that a browser would run. */
  lemma GuardCovers(dest: string)
    requires BrowserExecutes(dest)
    ensures Executes(dest)
  {
    var s := Cleaned(dest);
    var n: nat :| HasScheme(s, n) && IsRunning(AsciiLower(s[..n]));
    StrippedFromContent(dest);
    StrippedOneLine(FromContent(dest));
    SchemeIsKept(s, n);
    LowerOfPrefix(s[..n + 1], Stripped(dest));
    LowerOfScheme(s, n);
    RunningIsBlocked(AsciiLower(s[..n]), AsciiLower(Stripped(dest)));
  }

  lemma {:induction false} OneLineUnblank(s: string)
    requires forall c :: c in s ==> Unblank(c)
    ensures OneLine(s) == s
  {
    if s != "" {
      assert s[0] in s && forall c :: c in s[1..] ==> c in s;
      OneLineUnblank(s[1..]);
      assert s == [s[0]] + s[1..];
    }
  }

  lemma CleanedUnblank(s: string)
    requires forall c :: c in s ==> Unblank(c)
    ensures Cleaned(s) == s
  {
    OneLineUnblank(s);
    if s != "" {
      assert s[0] in s;
    }
  }

  lemma BlockedHasScheme(scheme: string, s: string)
    requires IsRunning(scheme) && scheme + ":" <= AsciiLower(s)
    ensures HasScheme(s, |scheme|) && AsciiLower(s[..|scheme|]) == scheme
  {
    var n := |scheme|;
    var lower := AsciiLower(s);
    assert lower[n] == (scheme + ":")[n] == ':' && lower[n] == LowerChar(s[n]);
    assert forall i :: 0 <= i < n ==> scheme[i] == (scheme + ":")[i] == lower[i] == LowerChar(s[i]);
    assert forall i :: 0 <= i < n ==> 'a' <= scheme[i] <= 'z';
  }

  /** On an address without blanks and control characters, the guard blocks nothing else. */
  lemma GuardIsExact(dest: string)
    requires forall c :: c in dest ==> Unblank(c)
    ensures Executes(dest) <==> BrowserExecutes(dest)
  {
    StrippedKeepsUnblank(dest);
    CleanedUnblank(dest);
    if Executes(dest) {
      BlockedIsRunning(dest);
    }
    if BrowserExecutes(dest) {
      GuardCovers(dest);
    }
  }

  lemma BlockedIsRunning(dest: string)
    requires Stripped(dest) == dest && Cleaned(dest) == dest && Executes(dest)
    ensures BrowserExecutes(dest)
  {
    var lower := AsciiLower(dest);
    assert "javascript" + ":" == "javascript:" && "vbscript" + ":" == "vbscript:";
    assert "data" + ":" == "data:" && "file" + ":" == "file:";
    if "javascript:" <= lower {
      BlockedHasScheme("javascript", dest);
    } else if "vbscript:" <= lower {
      BlockedHasScheme("vbscript", dest);
    } else if "data:" <= lower {
      BlockedHasScheme("data", dest);
    } else {
      BlockedHasScheme("file", dest);
    }
  }

  /** No browser runs what `safe_url` returns; and an address without blanks that no browser runs comes back as it is. */
  lemma SafeUrlIsSafe(dest: string)
    ensures !BrowserExecutes(SafeUrl(dest))
    ensures (forall c :: c in dest ==> Unblank(c)) && !BrowserExecutes(dest) ==> SafeUrl(dest) == dest
  {
    if Executes(dest) {
      assert Cleaned("#blocked")[0] == '#';
    } else if BrowserExecutes(dest) {
      GuardCovers(dest);
    }
    if forall c :: c in dest ==> Unblank(c) {
      GuardIsExact(dest);
    }
  }

  // ---------------------------------------------------------------- addresses the renderer puts together

  lemma EncodedByteIsTame(b: nat, i: nat)
    requires i < |EncodeByte(b)|
    ensures IsUnreserved(EncodeByte(b)[i]) || EncodeByte(b)[i] == '%'
  {
  }

  predicate Tame(s: string) {
    forall i :: 0 <= i < |s| ==> IsUnreserved(s[i]) || s[i] == '%'
  }

  lemma {:induction false} EncodedBytesAreTame(bytes: seq<nat>)
    ensures Tame(EncodeBytes(bytes))
  {
    if bytes != [] {
      EncodedBytesAreTame(bytes[1..]);
      assert Tame(EncodeByte(bytes[0])) by {
        forall i | 0 <= i < |EncodeByte(bytes[0])| ensures IsUnreserved(EncodeByte(bytes[0])[i]) || EncodeByte(bytes[0])[i] == '%' {
          EncodedByteIsTame(bytes[0], i);
        }
      }
    }
  }

  /** Percent-encoded text holds nothing that could end a path, a query or a scheme. */
  lemma {:induction false} EncodedIsTame(text: string)
    ensures Tame(PercentEncode(text))
  {
    if text != "" {
      EncodedIsTame(text[1..]);
      EncodedBytesAreTame(Utf8(text[0]));
    }
  }

  lemma TameHasNoColon(s: string)
    requires Tame(s)
    ensures ':' !in s
  {
  }

  lemma {:induction false} FromContentConcat(a: string, b: string)
    ensures FromContent(a + b) == if FromContent(a) == "" then FromContent(b) else FromContent(a) + b
    decreases |a|
  {
    if a == "" {
      assert a + b == b;
    } else {
      TailOfConcat(a, b);
      if a[0] <= ' ' {
        FromContentConcat(a[1..], b);
      }
    }
  }

  lemma {:induction false} OneLineConcat(a: string, b: string)
    ensures OneLine(a + b) == OneLine(a) + OneLine(b)
    decreases |a|
  {
    if a == "" {
      assert a + b == b;
    } else {
      OneLineConcat(a[1..], b);
      TailOfConcat(a, b);
      Associate(if IsLineControl(a[0]) then "" else [a[0]], OneLine(a[1..]), OneLine(b));
    }
  }

  lemma {:induction false} CleaningAddsNothing(s: string, c: char)
    requires c !in s
    ensures c !in FromContent(s) && c !in OneLine(s)
  {
    if s != "" {
      assert c !in s[1..];
      CleaningAddsNothing(s[1..], c);
    }
  }

  /** Cleaning an address with a routed tail leaves a front made from the prefix alone. */
  lemma CleanedRoute(prefix: string, tail: string)
    requires ':' !in tail
    ensures ':' !in OneLine(tail) && ':' !in Cleaned(tail)
    ensures Cleaned(prefix + tail) == Cleaned(prefix) + OneLine(tail) || Cleaned(prefix + tail) == Cleaned(tail)
  {
    FromContentConcat(prefix, tail);
    OneLineConcat(FromContent(prefix), tail);
    CleaningAddsNothing(tail, ':');
    CleaningAddsNothing(FromContent(tail), ':');
  }

  lemma ColonIsInFront(front: string, tail: string, n: nat)
    requires n < |front + tail| && (front + tail)[n] == ':'
    ensures n < |front| || ':' in tail
  {
    if n >= |front| {
      assert (front + tail)[n] == tail[n - |front|];
    }
  }

  /** A scheme in front of a tail without a colon is a scheme without the tail. */
  lemma SchemeIsInFront(front: string, tail: string, n: nat)
    requires HasScheme(front + tail, n) && ':' !in tail
    ensures HasScheme(front, n) && front[..n] == (front + tail)[..n]
  {
    ColonIsInFront(front, tail, n);
    assert forall i :: 0 <= i <= n ==> front[i] == (front + tail)[i];
  }

  /** What follows a prefix, if it has no colon, cannot make the address run. */
  lemma RoutedIsSafe(prefix: string, tail: string)
    requires ':' !in tail
    ensures BrowserExecutes(prefix + tail) ==> BrowserExecutes(prefix)
  {
    CleanedRoute(prefix, tail);
    if BrowserExecutes(prefix + tail) {
      var s := Cleaned(prefix + tail);
      var n: nat :| HasScheme(s, n) && IsRunning(AsciiLower(s[..n]));
      assert s[n] in s;
      SchemeIsInFront(Cleaned(prefix), OneLine(tail), n);
    }
  }

  /** An address of the renderer runs only if the prefix that the server chose for it does. */
  lemma WikiHrefIsSafe(w: WikiLink, urls: Urls)
    ensures BrowserExecutes(WikiHref(w, urls)) ==> BrowserExecutes(urls.note)
  {
    var fragment := match w.anchor case None => "" case Some(a) => "#" + PercentEncode(AnchorName(a));
    EncodedIsTame(w.target);
    if w.anchor.Some? {
      EncodedIsTame(AnchorName(w.anchor.value));
    }
    TameHasNoColon(PercentEncode(w.target));
    assert ':' !in fragment;
    Associate(urls.note, PercentEncode(w.target), fragment);
    RoutedIsSafe(urls.note, PercentEncode(w.target) + fragment);
  }

  lemma MediaIsSafe(dest: string, urls: Urls)
    ensures BrowserExecutes(ResolveMedia(dest, urls)) ==> BrowserExecutes(urls.media)
  {
    SafeUrlIsSafe(dest);
    EncodedIsTame(dest);
    TameHasNoColon(PercentEncode(dest));
    RoutedIsSafe(urls.media, PercentEncode(dest));
  }

  // ---------------------------------------------------------------- encoded text is still there

  function HexValue(c: char): nat {
    if '0' <= c <= '9' then (c - '0') as nat else if 'A' <= c <= 'F' then (c - 'A') as nat + 10 else 0
  }

  /** The bytes an encoded text stands for, as a server reads them. */
  function PercentDecode(s: string): seq<nat> {
    if s == "" then []
    else if s[0] == '%' && |s| >= 3 then [HexValue(s[1]) * 16 + HexValue(s[2])] + PercentDecode(s[3..])
    else [s[0] as nat] + PercentDecode(s[1..])
  }

  /** The bytes of a text in UTF-8. */
  function Bytes(text: string): seq<nat> {
    if text == "" then [] else Utf8(text[0]) + Bytes(text[1..])
  }

  lemma EncodedByteIsRead(b: nat, rest: string)
    requires b < 256
    ensures PercentDecode(EncodeByte(b) + rest) == [b] + PercentDecode(rest)
  {
    var s := EncodeByte(b) + rest;
    if b < 0x80 && IsUnreserved(b as char) {
      assert s[1..] == rest && s[0] != '%';
    } else {
      assert s[3..] == rest && b / 16 < 16 && b % 16 < 16;
      assert HexValue(UpperHex(b / 16)) == b / 16 && HexValue(UpperHex(b % 16)) == b % 16;
    }
  }

  lemma {:induction false} EncodedBytesAreRead(bytes: seq<nat>, rest: string)
    requires forall i :: 0 <= i < |bytes| ==> bytes[i] < 256
    ensures PercentDecode(EncodeBytes(bytes) + rest) == bytes + PercentDecode(rest)
    decreases |bytes|
  {
    if bytes == [] {
      assert "" + rest == rest;
    } else {
      EncodedBytesAreRead(bytes[1..], rest);
      Associate(EncodeByte(bytes[0]), EncodeBytes(bytes[1..]), rest);
      EncodedByteIsRead(bytes[0], EncodeBytes(bytes[1..]) + rest);
      assert bytes == [bytes[0]] + bytes[1..];
    }
  }

  /** Decoding an encoded text gives its bytes: nothing of a target is lost in an address. */
  lemma {:induction false} EncodingIsReversible(text: string)
    ensures PercentDecode(PercentEncode(text)) == Bytes(text)
  {
    if text != "" {
      EncodingIsReversible(text[1..]);
      EncodedBytesAreRead(Utf8(text[0]), PercentEncode(text[1..]));
    }
  }

  /** The number of the character that bytes in UTF-8 stand for, in as few of them as it needs (RFC 3629, section 3). */
  function Utf8Number(bytes: seq<nat>): Option<nat> {
    if |bytes| == 1 && bytes[0] < 0x80 then Some(bytes[0])
    else if |bytes| == 2 && 0xC2 <= bytes[0] < 0xE0 && IsTrail(bytes[1]) then Some((bytes[0] - 0xC0) * 64 + (bytes[1] - 0x80))
    else if |bytes| == 3 && 0xE0 <= bytes[0] < 0xF0 && IsTrail(bytes[1]) && IsTrail(bytes[2]) then
      Some(((bytes[0] - 0xE0) * 64 + (bytes[1] - 0x80)) * 64 + (bytes[2] - 0x80))
    else if |bytes| == 4 && 0xF0 <= bytes[0] < 0xF5 && IsTrail(bytes[1]) && IsTrail(bytes[2]) && IsTrail(bytes[3]) then
      Some((((bytes[0] - 0xF0) * 64 + (bytes[1] - 0x80)) * 64 + (bytes[2] - 0x80)) * 64 + (bytes[3] - 0x80))
    else None
  }

  predicate IsTrail(b: nat) {
    0x80 <= b < 0xC0
  }

  lemma Utf8IsRead(c: char)
    ensures Utf8Number(Utf8(c)) == Some(c as nat)
  {
    var n := c as nat;
    var b := n / 64;
    assert n == b * 64 + n % 64;
    if 0x1_0000 <= n {
      assert b == b / 64 * 64 + b % 64 && n / 0x1000 == b / 64 && n / 0x4_0000 == b / 64 / 64;
    } else if 0x800 <= n {
      assert b == b / 64 * 64 + b % 64 && n / 0x1000 == b / 64;
    }
  }

  /** The characters of a path that need no encoding. */
  predicate IsPathChar(c: char) {
    'a' <= c <= 'z' || 'A' <= c <= 'Z' || '0' <= c <= '9' || c == '-' || c == '_' || c == '.' || c == '~' || c == '/'
  }

  predicate IsPath(text: string) {
    forall c :: c in text ==> IsPathChar(c)
  }

  lemma CharEncodes(c: char)
    ensures EncodeBytes(Utf8(c)) == [c] || (!IsPathChar(c) && |EncodeBytes(Utf8(c))| > 1)
    ensures IsPathChar(c) ==> EncodeBytes(Utf8(c)) == [c]
    ensures EncodeBytes(Utf8(c)) == [c] ==> IsPathChar(c)
  {
    var bytes := Utf8(c);
    assert EncodeBytes(bytes) == EncodeByte(bytes[0]) + EncodeBytes(bytes[1..]);
    if |bytes| == 1 {
      assert bytes[1..] == [] && bytes[0] as char == c;
    }
  }

  /** Encoding leaves just the plain paths alone, and makes everything else longer. */
  lemma {:induction false} EncodingKeepsPaths(text: string)
    ensures if IsPath(text) then PercentEncode(text) == text else |PercentEncode(text)| > |text|
  {
    if text != "" {
      EncodingKeepsPaths(text[1..]);
      CharEncodes(text[0]);
      assert text == [text[0]] + text[1..];
      assert IsPath(text) <==> IsPathChar(text[0]) && IsPath(text[1..]);
    }
  }

  // ---------------------------------------------------------------- where the addresses lead

  lemma NoHash(text: string)
    ensures '#' !in PercentEncode(text)
  {
    EncodedIsTame(text);
  }

  lemma FirstHash(path: string, name: string)
    requires '#' !in path
    ensures var tail := path + ("#" + name);
      Find(path, '#') == |path| && Find(tail, '#') == |path| < |tail| && tail[..|path|] == path && tail[|path| + 1..] == name
  {
    FindIs(path, '#', |path|);
    FindIs(path + ("#" + name), '#', |path|);
  }

  /** A tail without a fragment, or with one. */
  lemma TailReads(target: string, name: string)
    ensures var path, tail := PercentEncode(target), PercentEncode(target) + ("#" + PercentEncode(name));
      && Find(path, '#') == |path| && PercentDecode(path) == Bytes(target)
      && Find(tail, '#') == |path| && tail[..|path|] == path
      && |path| < |tail| && PercentDecode(tail[|path| + 1..]) == Bytes(name)
  {
    NoHash(target);
    EncodingIsReversible(target);
    EncodingIsReversible(name);
    FirstHash(PercentEncode(target), PercentEncode(name));
  }

  function AddressTail(target: string, name: Option<string>): string {
    match name case None => PercentEncode(target) case Some(n) => PercentEncode(target) + ("#" + PercentEncode(n))
  }

  lemma WikiHrefIs(w: WikiLink, urls: Urls)
    ensures WikiHref(w, urls)
         == urls.note + AddressTail(w.target, match w.anchor case None => None case Some(a) => Some(AnchorName(a)))
  {
    if w.anchor.Some? {
      Associate(urls.note, PercentEncode(w.target), "#" + PercentEncode(AnchorName(w.anchor.value)));
    }
  }

  /** What is decoded behind the prefix: the target and, behind a `#`, a name. */
  predicate LeadsTo(tail: string, target: string, name: Option<string>) {
    var n := Find(tail, '#');
    && PercentDecode(tail[..n]) == Bytes(target)
    && if n < |tail| then name.Some? && PercentDecode(tail[n + 1..]) == Bytes(name.value) else name.None?
  }

  lemma TailLeadsTo(target: string, name: Option<string>)
    ensures LeadsTo(AddressTail(target, name), target, name)
  {
    TailReads(target, if name.Some? then name.value else "");
    if name.None? {
      assert PercentEncode(target)[..|PercentEncode(target)|] == PercentEncode(target);
    }
  }

  /** A wikilink's address leads, under the prefix, to its target and to the heading or block it names. */
  lemma WikiAddress(w: WikiLink, urls: Urls)
    ensures urls.note <= WikiHref(w, urls)
    ensures var tail := WikiHref(w, urls)[|urls.note|..];
      match w.anchor
      case None => LeadsTo(tail, w.target, None)
      case Some(HeadingAnchor(h)) => LeadsTo(tail, w.target, Some(h))
      case Some(BlockAnchor(id)) => LeadsTo(tail, w.target, Some(id))
  {
    var name := match w.anchor case None => None case Some(a) => Some(AnchorName(a));
    var tail := AddressTail(w.target, name);
    WikiHrefIs(w, urls);
    assert (urls.note + tail)[|urls.note|..] == tail;
    TailLeadsTo(w.target, name);
  }

  /** An address with an authority of its own. */
  ghost predicate HasAuthority(dest: string) {
    exists scheme: string, rest: string :: Spells(dest, scheme, rest)
  }

  predicate Spells(dest: string, scheme: string, rest: string) {
    dest == scheme + ("//" + rest) && AsciiLower(scheme) in {"", "http:", "https:"}
  }

  lemma SpelledIsExternal(dest: string, scheme: string, rest: string)
    requires Spells(dest, scheme, rest)
    ensures IsExternal(dest)
  {
    assert AsciiLower(dest) == AsciiLower(scheme) + ("//" + AsciiLower(rest));
  }

  lemma ExternalIsSpelled(dest: string, scheme: string)
    requires scheme in {"", "http:", "https:"} && scheme + "//" <= AsciiLower(dest)
    ensures Spells(dest, dest[..|scheme|], dest[|scheme| + 2..])
  {
    var n, lower := |scheme|, AsciiLower(dest);
    assert lower[..n] == scheme;
    assert AsciiLower(dest[..n]) == lower[..n];
    assert lower[n] == '/' && lower[n + 1] == '/';
    assert dest == dest[..n] + ("//" + dest[n + 2..]);
  }

  lemma ExternalIsAuthority(dest: string)
    ensures IsExternal(dest) <==> HasAuthority(dest)
  {
    if IsExternal(dest) {
      var lower := AsciiLower(dest);
      var scheme := if "http://" <= lower then "http:" else if "https://" <= lower then "https:" else "";
      assert "http:" + "//" == "http://" && "https:" + "//" == "https://" && "" + "//" == "//";
      ExternalIsSpelled(dest, scheme);
    }
    if HasAuthority(dest) {
      var scheme, rest :| Spells(dest, scheme, rest);
      SpelledIsExternal(dest, scheme, rest);
    }
  }

  /** Media elsewhere, and paths from the root, are addressed as they are; the rest lies encoded under the prefix. */
  lemma MediaAddress(dest: string, urls: Urls)
    ensures if HasAuthority(dest) || "/" <= dest then ResolveMedia(dest, urls) == SafeUrl(dest)
            else && urls.media <= ResolveMedia(dest, urls)
                 && PercentDecode(ResolveMedia(dest, urls)[|urls.media|..]) == Bytes(dest)
  {
    ExternalIsAuthority(dest);
    EncodingIsReversible(dest);
    assert (urls.media + PercentEncode(dest))[|urls.media|..] == PercentEncode(dest);
  }
}
