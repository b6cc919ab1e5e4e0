/** Tags as text: how far the one at the front of a run of characters reaches (crates/mb-core/src/syntax.rs). */
module Syntax {
  import opened Strings

  predicate IsLetter(c: char) {
    'a' <= c <= 'z' || 'A' <= c <= 'Z'
  }

  predicate IsTagChar(c: char) {
    IsLetter(c) || '0' <= c <= '9' || c == '_' || c == '-' || c == '/'
  }

  predicate IsTagTail(c: char) {
    c == '/' || c == '-' || c == '_'
  }

  /** The longest prefix of tag characters. */
  function TagRun(s: string): (n: nat)
    ensures n <= |s|
  {
    if s != "" && IsTagChar(s[0]) then 1 + TagRun(s[1..]) else 0
  }

  /** `body[..TagTrim(body)]` is `body` without its trailing `/`, `-` and `_`. */
  function TagTrim(body: string): (n: nat)
    ensures n <= |body|
  {
    if body != "" && IsTagTail(Last(body)) then TagTrim(Init(body)) else |body|
  }

  /** What `scan_tag` returns: how long a tag body the text starts with, if it starts with one. */
  function TagLength(s: string): Option<nat> {
    var body := s[..TagRun(s)];
    var n := TagTrim(body);
    if n == 0 || !exists k :: 0 <= k < |body| && IsLetter(body[k]) then None else Some(n)
  }

  lemma {:induction false} TagRunIsRun(s: string)
    ensures forall k :: 0 <= k < TagRun(s) ==> IsTagChar(s[k])
    ensures TagRun(s) < |s| ==> !IsTagChar(s[TagRun(s)])
    decreases |s|
  {
    if s != "" && IsTagChar(s[0]) {
      TagRunIsRun(s[1..]);
    }
  }

  lemma {:induction false} TagTrimIsTrim(body: string)
    ensures TagTrim(body) > 0 ==> !IsTagTail(body[TagTrim(body) - 1])
    ensures forall k :: TagTrim(body) <= k < |body| ==> IsTagTail(body[k])
    decreases |body|
  {
    if body != "" && IsTagTail(Last(body)) {
      TagTrimIsTrim(Init(body));
    }
  }

  /** A scanned tag is made of tag characters and ends in none of `/`, `-` and `_`. */
  lemma TagLengthShape(s: string)
    requires TagLength(s).Some?
    ensures var n := TagLength(s).value;
      && 0 < n <= |s|
      && (forall k :: 0 <= k < n ==> IsTagChar(s[k]))
      && !IsTagTail(s[n - 1])
  {
    TagRunIsRun(s);
    TagTrimIsTrim(s[..TagRun(s)]);
  }

  /** A run that stops at a position is the longest prefix of tag characters. */
  lemma {:induction false} TagRunUnique(s: string, n: nat)
    requires n <= |s|
    requires forall k :: 0 <= k < n ==> IsTagChar(s[k])
    requires n < |s| ==> !IsTagChar(s[n])
    ensures TagRun(s) == n
    decreases |s|
  {
    if n > 0 {
      TagRunUnique(s[1..], n - 1);
    }
  }

  /** Cutting the text at or behind its first non-tag character does not change the scan. */
  lemma TagLengthOfPrefix(s: string, n: nat)
    requires TagRun(s) <= n <= |s|
    ensures TagLength(s[..n]) == TagLength(s)
  {
    TagRunIsRun(s);
    TagRunUnique(s[..n], TagRun(s));
    assert s[..n][..TagRun(s)] == s[..TagRun(s)];
  }

  /** `scan_tag`: one pass that counts tag characters, then trims the tail. */
  method ScanTag(s: string) returns (r: Option<nat>)
    ensures r == TagLength(s)
  {
    var len := 0;
    var hasAlpha := false;
    while len < |s| && IsTagChar(s[len])
      invariant 0 <= len <= |s|
      invariant forall k :: 0 <= k < len ==> IsTagChar(s[k])
      invariant hasAlpha <==> exists k :: 0 <= k < len && IsLetter(s[k])
    {
      hasAlpha := hasAlpha || IsLetter(s[len]);
      len := len + 1;
    }
    TagRunUnique(s, len);
    ghost var body := s[..len];
    var n := len;
    while n > 0 && IsTagTail(s[n - 1])
      invariant 0 <= n <= len
      invariant TagTrim(s[..n]) == TagTrim(body)
    {
      assert Init(s[..n]) == s[..n - 1];
      n := n - 1;
    }
    assert TagTrim(s[..n]) == n by {
      if n > 0 {
        assert Last(s[..n]) == s[n - 1];
      }
    }
    r := if n == 0 || !hasAlpha then None else Some(n);
    assert hasAlpha <==> exists k :: 0 <= k < |body| && IsLetter(body[k]) by {
      if hasAlpha {
        var k :| 0 <= k < len && IsLetter(s[k]);
        assert IsLetter(body[k]);
      }
    }
  }
}
