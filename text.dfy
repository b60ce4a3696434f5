/** Username and text normalisation: Python's str.strip() and str.lower(). */
module Text {

  /** The characters for which Python's str.isspace() holds, which is what
      str.strip() with no argument removes. */
  predicate IsSpace(c: char)
  {
    || ('\t' <= c <= '\r')              // tab, line feed, vertical tab, form feed, carriage return
    || ('\U{1C}' <= c <= '\U{1F}')      // file, group, record and unit separators
    || c == ' '
    || c == '\U{85}' || c == '\U{A0}' || c == '\U{1680}'
    || ('\U{2000}' <= c <= '\U{200A}')
    || c == '\U{2028}' || c == '\U{2029}' || c == '\U{202F}' || c == '\U{205F}' || c == '\U{3000}'
  }

  /** A string with no whitespace at either end: what strip() leaves. */
  predicate Stripped(s: string)
  {
    s == [] || (!IsSpace(s[0]) && !IsSpace(s[|s| - 1]))
  }

  /** Removes leading whitespace. */
  function TrimStart(s: string): string
  {
    if |s| > 0 && IsSpace(s[0]) then TrimStart(s[1..]) else s
  }

  /** Removes trailing whitespace. */
  function TrimEnd(s: string): string
  {
    if |s| > 0 && IsSpace(s[|s| - 1]) then TrimEnd(s[..|s| - 1]) else s
  }

  /** str.strip() */
  function Trim(s: string): string
  {
    TrimEnd(TrimStart(s))
  }

  /** TrimStart returns the suffix of s that starts at its first non-space
      character: everything it drops is space, and what it keeps does not
      start with space. */
  lemma {:induction false} TrimStartSpec(s: string)
    ensures |TrimStart(s)| <= |s| && TrimStart(s) == s[|s| - |TrimStart(s)|..]
    ensures TrimStart(s) == [] || !IsSpace(TrimStart(s)[0])
    ensures forall i :: 0 <= i < |s| - |TrimStart(s)| ==> IsSpace(s[i])
  {
    if |s| > 0 && IsSpace(s[0]) {
      TrimStartSpec(s[1..]);
      forall i | 1 <= i < |s| - |TrimStart(s)| ensures IsSpace(s[i]) {
        assert s[i] == s[1..][i - 1];
      }
    }
  }

  /** TrimEnd returns the prefix of s that ends at its last non-space
      character. */
  lemma {:induction false} TrimEndSpec(s: string)
    ensures |TrimEnd(s)| <= |s| && TrimEnd(s) == s[..|TrimEnd(s)|]
    ensures TrimEnd(s) == [] || !IsSpace(TrimEnd(s)[|TrimEnd(s)| - 1])
    ensures forall i :: |TrimEnd(s)| <= i < |s| ==> IsSpace(s[i])
  {
    if |s| > 0 && IsSpace(s[|s| - 1]) {
      TrimEndSpec(s[..|s| - 1]);
    }
  }

  /** strip() leaves no whitespace at either end and never lengthens. */
  lemma TrimSpec(s: string)
    ensures |Trim(s)| <= |s|
    ensures Stripped(Trim(s))
  {
    TrimStartSpec(s);
    TrimEndSpec(TrimStart(s));
  }

  /** str.lower() on one character, for the ASCII letters: the result is
      no upper-case letter, is whitespace exactly when the input is, and
      differs from the input only for an upper-case letter. */
  function LowerChar(c: char): (r: char)
    ensures !('A' <= r <= 'Z')
    ensures IsSpace(r) <==> IsSpace(c)
    ensures r != c ==> 'A' <= c <= 'Z'
  {
    if 'A' <= c <= 'Z' then (c as int + 32) as char else c
  }

  /** str.lower() */
  function Lower(s: string): string
  {
    seq(|s|, i requires 0 <= i < |s| => LowerChar(s[i]))
  }

  /** The normalisation every handler applies to a username:
      `(name or "").strip().lower()`. */
  function Normalize(s: string): string
  {
    Lower(Trim(s))
  }

  /** strip() removes exactly a block of whitespace at each end: it returns
      the infix s[i..j] where everything before i and from j on is space. */
  lemma TrimIsInfix(s: string)
    ensures exists i, j ::
              0 <= i <= j <= |s| && Trim(s) == s[i..j] &&
              (forall k :: 0 <= k < i ==> IsSpace(s[k])) &&
              (forall k :: j <= k < |s| ==> IsSpace(s[k]))
  {
    var t := TrimStart(s);
    var r := TrimEnd(t);
    TrimStartSpec(s);
    TrimEndSpec(t);
    var i := |s| - |t|;
    assert r == s[i..i + |r|];
    forall k | i + |r| <= k < |s| ensures IsSpace(s[k]) {
      assert s[k] == t[k - i];
    }
  }

  /** A string that is already stripped is left alone. */
  lemma TrimStripped(s: string)
    requires Stripped(s)
    ensures Trim(s) == s
  {
  }

  /** strip() yields the empty string exactly when every character is
      whitespace. */
  lemma TrimEmptyIff(s: string)
    ensures Trim(s) == [] <==> forall i :: 0 <= i < |s| ==> IsSpace(s[i])
  {
    var t := TrimStart(s);
    TrimStartSpec(s);
    TrimEndSpec(t);
    if !forall i :: 0 <= i < |s| ==> IsSpace(s[i]) {
      var i :| 0 <= i < |s| && !IsSpace(s[i]);
      assert i >= |s| - |t|;
      assert t[i - (|s| - |t|)] == s[i];
      assert !IsSpace(t[i - (|s| - |t|)]);
    }
  }

  /** Lowering neither moves nor creates whitespace. */
  lemma LowerKeepsStripped(s: string)
    requires Stripped(s)
    ensures Stripped(Lower(s))
  {
  }

  /** Normalisation is idempotent: a name that has been normalised once
      compares equal to its own normalisation. */
  lemma {:induction false} NormalizeIdempotent(s: string)
    ensures Normalize(Normalize(s)) == Normalize(s)
  {
    var l := Normalize(s);
    TrimSpec(s);
    LowerKeepsStripped(Trim(s));
    TrimStripped(l);
    assert Lower(l) == l;
  }

  /** A normalised name is empty exactly when the raw name held only
      whitespace, and it is never longer than the raw name. */
  lemma NormalizeEmptyIff(s: string)
    ensures |Normalize(s)| <= |s|
    ensures Normalize(s) == [] <==> forall i :: 0 <= i < |s| ==> IsSpace(s[i])
  {
    TrimSpec(s);
    TrimEmptyIff(s);
  }

  /** A normalised name holds no upper-case ASCII letter and no whitespace
      at either end. */
  lemma NormalizeShape(s: string)
    ensures Stripped(Normalize(s))
    ensures forall i :: 0 <= i < |Normalize(s)| ==> !('A' <= Normalize(s)[i] <= 'Z')
  {
    TrimSpec(s);
    LowerKeepsStripped(Trim(s));
  }

  /** A name already in normal form (no whitespace at the ends, no
      upper-case ASCII letter) is its own normalisation. */
  lemma NormalizeNormal(s: string)
    requires Stripped(s)
    requires forall i :: 0 <= i < |s| ==> !('A' <= s[i] <= 'Z')
    ensures Normalize(s) == s
  {
    TrimStripped(s);
  }
}
