/** Character references by name and by number (`decode_entities` in crates/mb-core/src/html.rs). */
module Entities {
  import opened Strings
  import opened Escaping

  // ---------------------------------------------------------------- numeric entities

  /** A number in decimal or, in lower case, in hexadecimal digits. */
  function Digits(n: nat, radix: nat): string
    requires radix == 10 || radix == 16
  {
    var d := n % radix;
    (if n < radix then "" else Digits(n / radix, radix)) + [if d < 10 then d as char + '0' else (d - 10) as char + 'a']
  }

  lemma LastDigit(n: nat, radix: nat)
    requires radix == 10 || radix == 16
    ensures var s, d := Digits(n, radix), n % radix;
      && s != "" && HexDigit(s[|s| - 1]) == Some(d) && ('0' <= s[|s| - 1] <= '9' || 'a' <= s[|s| - 1] <= 'f')
      && s[..|s| - 1] == (if n < radix then "" else Digits(n / radix, radix))
  {
  }

  lemma Recombined(n: nat, radix: nat)
    requires radix == 10 || radix == 16
    ensures n / radix * radix + n % radix == n && (n >= radix ==> n / radix < n)
  {
  }

  lemma {:induction false} DigitsAreRead(n: nat, radix: nat)
    requires (radix == 10 || radix == 16) && n < 0x1_0000_0000
    ensures DigitsValue(Digits(n, radix), radix) == Some(n)
    ensures Digits(n, radix) != "" && forall c :: c in Digits(n, radix) ==> '0' <= c <= '9' || 'a' <= c <= 'f'
  {
    var s := Digits(n, radix);
    LastDigit(n, radix);
    Recombined(n, radix);
    assert s == s[..|s| - 1] + [s[|s| - 1]];
    if n >= radix {
      DigitsAreRead(n / radix, radix);
    }
  }

  /** A Unicode scalar value. */
  predicate IsScalar(n: nat) {
    n < 0xD800 || 0xE000 <= n < 0x11_0000
  }

  lemma NumberIsRead(n: nat, radix: nat)
    requires (radix == 10 || radix == 16) && IsScalar(n)
    ensures CharFrom(ParseU32(Digits(n, radix), radix)) == Some(n as char)
  {
    DigitsAreRead(n, radix);
    assert Digits(n, radix)[0] in Digits(n, radix);
  }

  lemma HashEntity(e: string)
    requires e != "" && e[0] == '#' && e != "#39"
    ensures EntityChar(e)
         == if |e| > 1 && e[1] == 'x' then CharFrom(ParseU32(e[2..], 16)) else CharFrom(ParseU32(e[1..], 10))
  {
    assert "amp"[0] != '#' && "lt"[0] != '#' && "gt"[0] != '#' && "quot"[0] != '#' && "apos"[0] != '#' && "nbsp"[0] != '#';
  }

  lemma DecimalEntity(n: nat)
    requires IsScalar(n)
    ensures EntityChar("#" + Digits(n, 10)) == Some(n as char)
  {
    var digits := Digits(n, 10);
    var e := "#" + digits;
    DigitsAreRead(n, 10);
    DecimalHasNoX(n);
    NumberIsRead(n, 10);
    assert e[1..] == digits && e[1] == digits[0] && digits[0] in digits;
    if e == "#39" {
      assert digits == "39";
      NumberIsRead(39, 10);
      ApostropheDigits();
    } else {
      HashEntity(e);
    }
  }

  lemma HexEntity(n: nat)
    requires IsScalar(n)
    ensures EntityChar("#x" + Digits(n, 16)) == Some(n as char)
  {
    var e := "#x" + Digits(n, 16);
    NumberIsRead(n, 16);
    assert e[2..] == Digits(n, 16) && e[1] == 'x' && "#39"[1] == '3';
    HashEntity(e);
  }

  lemma {:induction false} DecimalHasNoX(n: nat)
    ensures forall c :: c in Digits(n, 10) ==> '0' <= c <= '9'
  {
    if n >= 10 {
      DecimalHasNoX(n / 10);
    }
  }

  lemma EntityShape(name: string, rest: string)
    ensures var s, n := "&" + name + ";" + rest, |name| + 1;
      && n < |s| && s[0] == '&' && s[n] == ';' && s[1..n] == name && s[n + 1..] == rest && s[1..] == name + ";" + rest
      && forall k :: 1 <= k < n ==> s[k] == name[k - 1]
  {
    var s := "&" + (name + (";" + rest));
    assert s[1..] == name + (";" + rest) && s == "&" + name + ";" + rest;
    assert s[1..][..|name|] == name && s[1..|name| + 1] == s[1..][..|name|];
  }

  /** An entity between an `&` and a `;`, with neither inside, becomes its character. */
  lemma EntityDecodes(name: string, rest: string, c: char)
    requires ';' !in name && EntityChar(name) == Some(c)
    ensures Decode("&" + name + ";" + rest) == [c] + Decode(rest)
  {
    var s := "&" + name + ";" + rest;
    EntityShape(name, rest);
    assert forall k :: 0 <= k < |name| + 1 ==> s[k] != ';';
    DecodeEntity(EntityChar, s, |name| + 1, c);
  }

  /** And stays as it is if it is none. */
  lemma UnknownStays(name: string, rest: string)
    requires ';' !in name && EntityChar(name) == None
    ensures Decode("&" + name + ";" + rest) == "&" + Decode(name + ";" + rest)
  {
    var s, n := "&" + name + ";" + rest, |name| + 1;
    assert EntityAt(s, 0, n);
    assert s[1..n] == name && s[1..] == name + ";" + rest && s[..0] + "&" == "&";
    DecodeEntityAt(EntityChar, s, 0, n, "&", name + ";" + rest);
  }

  lemma DigitsAreTame(n: nat, radix: nat)
    requires (radix == 10 || radix == 16) && n < 0x1_0000_0000
    ensures ';' !in Digits(n, radix) && '&' !in Digits(n, radix)
  {
    DigitsAreRead(n, radix);
  }

  /** Every character can be written by its number, in decimal or hexadecimal digits. */
  lemma NumericEntityDecodes(n: nat, rest: string)
    requires IsScalar(n)
    ensures Decode("&" + ("#" + Digits(n, 10)) + ";" + rest) == [n as char] + Decode(rest)
    ensures Decode("&" + ("#x" + Digits(n, 16)) + ";" + rest) == [n as char] + Decode(rest)
  {
    DigitsAreTame(n, 10);
    DigitsAreTame(n, 16);
    DecimalEntity(n);
    HexEntity(n);
    EntityDecodes("#" + Digits(n, 10), rest, n as char);
    EntityDecodes("#x" + Digits(n, 16), rest, n as char);
  }

  /** A space that does not break becomes an ordinary one. */
  lemma NamedEntitiesDecode(rest: string)
    ensures Decode("&" + "nbsp" + ";" + rest) == " " + Decode(rest) && Decode("&" + "apos" + ";" + rest) == "'" + Decode(rest)
  {
    assert EntityChar("nbsp") == Some(' ') && EntityChar("apos") == Some('\'');
    EntityDecodes("nbsp", rest, ' ');
    EntityDecodes("apos", rest, '\'');
  }

  lemma ApostropheDigits()
    ensures EntityChar("#39") == Some('\'') && 39 as char == '\'' && DigitsValue("39", 10) == Some(39)
  {
    assert "39"[..1] == "3" && "3"[..0] == "" && DigitsValue("3", 10) == Some(3);
  }
}
