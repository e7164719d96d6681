/** Player names as the registration handler accepts them: the typed text is trimmed
    the way ECMAScript's String.prototype.trim trims, and an empty result is refused. */
module Names {

  /** The characters trim removes: ECMAScript WhiteSpace (tab, vertical tab, form feed,
      space, no-break space, byte order mark and the Unicode space separators) and
      LineTerminator (line feed, carriage return, line and paragraph separators). */
  predicate IsSpace(c: char) {
    c == '\t' || c == '\n' || c == '\U{000B}' || c == '\U{000C}' || c == '\r' || c == ' '
    || c == '\U{00A0}' || c == '\U{1680}' || ('\U{2000}' <= c <= '\U{200A}')
    || c == '\U{2028}' || c == '\U{2029}' || c == '\U{202F}' || c == '\U{205F}'
    || c == '\U{3000}' || c == '\U{FEFF}'
  }

  /** The number of white-space characters `s` starts with. */
  function Leading(s: string): (n: nat)
    ensures n <= |s|
    ensures forall i :: 0 <= i < n ==> IsSpace(s[i])
    ensures n < |s| ==> !IsSpace(s[n])
  {
    if s != [] && IsSpace(s[0]) then 1 + Leading(s[1..]) else 0
  }

  /** The number of white-space characters `s` ends with. */
  function Trailing(s: string): (n: nat)
    ensures n <= |s|
    ensures forall i :: |s| - n <= i < |s| ==> IsSpace(s[i])
    ensures n < |s| ==> !IsSpace(s[|s| - n - 1])
  {
    if s != [] && IsSpace(s[|s| - 1]) then 1 + Trailing(s[..|s| - 1]) else 0
  }

  /** String.prototype.trim: what is left of `s` once its leading and then its
      trailing white space are dropped. It is a piece of `s` that starts after the
      leading white space and is followed only by white space, it has no white space
      at either end, and it is empty
      exactly when `s` is all white space. */
  function Trim(s: string): (r: string)
    ensures Leading(s) + |r| <= |s| && r == s[Leading(s)..Leading(s) + |r|]
    ensures r == [] || (!IsSpace(r[0]) && !IsSpace(r[|r| - 1]))
    ensures forall i :: Leading(s) + |r| <= i < |s| ==> IsSpace(s[i])
    ensures r == [] <==> forall i :: 0 <= i < |s| ==> IsSpace(s[i])
  {
    var t := s[Leading(s)..];
    var r := t[..|t| - Trailing(t)];
    assert r == s[Leading(s)..Leading(s) + |r|];
    assert r != [] ==> r[0] == t[0] && r[|r| - 1] == t[|t| - Trailing(t) - 1];
    assert r != [] ==> !IsSpace(s[Leading(s)]);
    r
  }

  /** A name the registration list can hold: non-empty, with no white space at
      either end. */
  predicate Registrable(name: string) {
    name != [] && !IsSpace(name[0]) && !IsSpace(name[|name| - 1])
  }

  /** Registrable names are exactly the non-empty names trimming leaves alone. */
  lemma RegistrableIffTrimmed(name: string)
    ensures Registrable(name) <==> name != [] && Trim(name) == name
  {
    if Registrable(name) {
      assert Leading(name) == 0;
      assert Trailing(name) == 0;
    }
  }

  /** Trimming is idempotent. */
  lemma TrimIdempotent(s: string)
    ensures Trim(Trim(s)) == Trim(s)
  {
    var r := Trim(s);
    if r != [] {
      RegistrableIffTrimmed(r);
    } else {
      assert Leading(r) == 0;
    }
  }
}
