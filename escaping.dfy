/**
 * The literal-mode escaper `matcher.replace(/[#-.]|[[-^]|[?|{}]/g, '\\$&')`:
 * every character of the class gets one backslash in front of it (`$&` is the
 * matched character), every other character is copied as it is.
 */
module Escaping {
  /** Membership in the character class [#-.]|[[-^]|[?|{}]. */
  predicate IsSpecial(c: char) {
    ('#' <= c <= '.') || ('[' <= c <= '^') || c == '?' || c == '|' || c == '{' || c == '}'
  }

  /** The class written out: U+0023 to U+002E, U+005B to U+005E, then ? | { }. */
  const SpecialCharacters: string := "#$%&'()*+,-.[\\]^?|{}"

  lemma SpecialCharactersExactly(c: char)
    ensures IsSpecial(c) <==> c in SpecialCharacters
    ensures |SpecialCharacters| == 20
  {
  }

  /** The replacement for one character. */
  function EscapeChar(c: char): string {
    if IsSpecial(c) then ['\\', c] else [c]
  }

  /** How many characters of s belong to the class. */
  function CountSpecial(s: string): nat {
    if s == [] then 0 else (if IsSpecial(s[0]) then 1 else 0) + CountSpecial(s[1..])
  }

  function Escape(s: string): (r: string)
    ensures |r| == |s| + CountSpecial(s)
  {
    if s == [] then [] else EscapeChar(s[0]) + Escape(s[1..])
  }

  /** Delete the backslash of every backslash pair, keeping the character after it. */
  function Unescape(t: string): string
    decreases |t|
  {
    if t == [] then []
    else if t[0] == '\\' && |t| >= 2 then [t[1]] + Unescape(t[2..])
    else [t[0]] + Unescape(t[1..])
  }

  /**
   * Every special character of t is preceded by a backslash of its own, and
   * every such backslash is followed by a special character.
   */
  predicate WellEscaped(t: string)
    decreases |t|
  {
    if t == [] then true
    else if t[0] == '\\' then |t| >= 2 && IsSpecial(t[1]) && WellEscaped(t[2..])
    else !IsSpecial(t[0]) && WellEscaped(t[1..])
  }

  lemma {:induction false} EscapeAppend(a: string, b: string)
    ensures Escape(a + b) == Escape(a) + Escape(b)
  {
    if a == [] {
      assert a + b == b;
    } else {
      assert (a + b)[0] == a[0];
      assert (a + b)[1..] == a[1..] + b;
      EscapeAppend(a[1..], b);
    }
  }

  lemma {:induction false} CountSpecialAppend(a: string, b: string)
    ensures CountSpecial(a + b) == CountSpecial(a) + CountSpecial(b)
  {
    if a == [] {
      assert a + b == b;
    } else {
      assert (a + b)[0] == a[0];
      assert (a + b)[1..] == a[1..] + b;
      CountSpecialAppend(a[1..], b);
    }
  }

  /**
   * The character at index i of the matcher appears, escaped on its own, at
   * offset i + (number of special characters before it) of the result, with
   * the escaped prefix before it and the escaped suffix after it.
   */
  lemma EscapeAt(s: string, i: nat)
    requires i < |s|
    ensures Escape(s) == Escape(s[..i]) + EscapeChar(s[i]) + Escape(s[i + 1..])
    ensures |Escape(s[..i])| == i + CountSpecial(s[..i])
  {
    assert s == s[..i] + ([s[i]] + s[i + 1..]);
    EscapeAppend(s[..i], [s[i]] + s[i + 1..]);
    EscapeAppend([s[i]], s[i + 1..]);
    assert [s[i]][1..] == [];
  }

  /** A matcher with no special character is its own escape. */
  lemma {:induction false} EscapePlain(s: string)
    requires forall i :: 0 <= i < |s| ==> !IsSpecial(s[i])
    ensures Escape(s) == s
    ensures CountSpecial(s) == 0
  {
    if s != [] {
      EscapePlain(s[1..]);
    }
  }

  /** Deleting the inserted backslashes gives the matcher back. */
  lemma {:induction false} UnescapeEscape(s: string)
    ensures Unescape(Escape(s)) == s
  {
    if s != [] {
      var t := Escape(s);
      assert t == EscapeChar(s[0]) + Escape(s[1..]);
      UnescapeEscape(s[1..]);
      if IsSpecial(s[0]) {
        assert t[0] == '\\' && t[1] == s[0];
        assert t[2..] == Escape(s[1..]);
      } else {
        assert t[0] == s[0] != '\\';
        assert t[1..] == Escape(s[1..]);
      }
    }
  }

  /** The escaped matcher holds no special character without its backslash. */
  lemma {:induction false} EscapeWellEscaped(s: string)
    ensures WellEscaped(Escape(s))
  {
    if s != [] {
      var t := Escape(s);
      assert t == EscapeChar(s[0]) + Escape(s[1..]);
      EscapeWellEscaped(s[1..]);
      if IsSpecial(s[0]) {
        assert t[2..] == Escape(s[1..]);
      } else {
        assert t[1..] == Escape(s[1..]);
      }
    }
  }

  /** Conversely every well-escaped string is the escape of exactly its unescaped form. */
  lemma {:induction false} EscapeUnescape(t: string)
    requires WellEscaped(t)
    ensures Escape(Unescape(t)) == t
    decreases |t|
  {
    if t != [] {
      if t[0] == '\\' {
        EscapeUnescape(t[2..]);
        var u := Unescape(t);
        assert u == [t[1]] + Unescape(t[2..]);
        assert u[0] == t[1] && u[1..] == Unescape(t[2..]);
        assert t == [t[0], t[1]] + t[2..];
      } else {
        EscapeUnescape(t[1..]);
        var u := Unescape(t);
        assert u == [t[0]] + Unescape(t[1..]);
        assert u[0] == t[0] && u[1..] == Unescape(t[1..]);
        assert t == [t[0]] + t[1..];
      }
    }
  }

  /** No escaped matcher begins with the two characters `\b`. */
  lemma EscapeNeverStartsWithBoundary(s: string)
    ensures !(|Escape(s)| >= 2 && Escape(s)[0] == '\\' && Escape(s)[1] == 'b')
  {
    if s != [] {
      assert Escape(s) == EscapeChar(s[0]) + Escape(s[1..]);
    }
  }
}
