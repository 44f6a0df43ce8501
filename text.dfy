/** `String.prototype.trim` as the sign-in form uses it: an input is blank when
    trimming leaves the empty string. */
module Text {

  /** The characters ECMAScript's `trim` removes: WhiteSpace (tab, vertical tab,
      form feed, space, no-break space, the byte order mark and the other
      Unicode space separators) and LineTerminator (line feed, carriage return,
      line separator, paragraph separator). */
  predicate IsWhitespace(c: char) {
    || c == '\t' || c == '\n' || c == '\U{000B}' || c == '\U{000C}' || c == '\r'
    || c == ' ' || c == '\U{00A0}' || c == '\U{1680}'
    || ('\U{2000}' <= c <= '\U{200A}')
    || c == '\U{2028}' || c == '\U{2029}' || c == '\U{202F}' || c == '\U{205F}'
    || c == '\U{3000}' || c == '\U{FEFF}'
  }

  /** Every character of `s` is whitespace (the empty string included). */
  predicate IsBlank(s: string) {
    forall i :: 0 <= i < |s| ==> IsWhitespace(s[i])
  }

  /** `s` with its leading whitespace removed. */
  function TrimStart(s: string): (r: string)
    ensures |r| <= |s|
  {
    if s == [] || !IsWhitespace(s[0]) then s else TrimStart(s[1..])
  }

  /** What `TrimStart` removes is a blank prefix, and what it keeps is the
      rest of the string, starting with a non-whitespace character. */
  lemma {:induction false} TrimStartSplits(s: string)
    ensures var r := TrimStart(s);
            r == s[|s| - |r|..] && IsBlank(s[..|s| - |r|]) && (r == [] || !IsWhitespace(r[0]))
  {
    if s != [] && IsWhitespace(s[0]) {
      var r := TrimStart(s[1..]);
      TrimStartSplits(s[1..]);
      assert s[1..][..|s[1..]| - |r|] == s[1..|s| - |r|];
      assert s[1..][|s[1..]| - |r|..] == s[|s| - |r|..];
    }
  }

  /** `s` with its trailing whitespace removed. */
  function TrimEnd(s: string): (r: string)
    ensures |r| <= |s|
  {
    if s == [] || !IsWhitespace(s[|s| - 1]) then s else TrimEnd(s[..|s| - 1])
  }

  /** What `TrimEnd` removes is a blank suffix, and what it keeps is the
      beginning of the string, ending with a non-whitespace character. */
  lemma {:induction false} TrimEndSplits(s: string)
    ensures var r := TrimEnd(s);
            r == s[..|r|] && IsBlank(s[|r|..]) && (r == [] || !IsWhitespace(r[|r| - 1]))
  {
    if s != [] && IsWhitespace(s[|s| - 1]) {
      var r := TrimEnd(s[..|s| - 1]);
      TrimEndSplits(s[..|s| - 1]);
      assert s[..|s| - 1][|r|..] == s[|r|..|s| - 1];
      assert s[..|s| - 1][..|r|] == s[..|r|];
    }
  }

  /** `s.trim()`: no longer than `s`, and neither starting nor ending with
      whitespace; `TrimCutsBlankEnds` says what is cut off. */
  function Trim(s: string): (r: string)
    ensures |r| <= |s|
    ensures r == [] || (!IsWhitespace(r[0]) && !IsWhitespace(r[|r| - 1]))
  {
    TrimStartSplits(s);
    TrimEndSplits(TrimStart(s));
    TrimEnd(TrimStart(s))
  }

  /** Trimming cuts a blank prefix and a blank suffix off `s` and keeps the
      slice between them. */
  lemma TrimCutsBlankEnds(s: string)
    ensures exists i, j :: 0 <= i <= j <= |s| && Trim(s) == s[i..j] && IsBlank(s[..i]) && IsBlank(s[j..])
  {
    var t := TrimStart(s);
    TrimStartSplits(s);
    TrimEndSplits(t);
    var r := TrimEnd(t);
    var i := |s| - |t|;
    assert t[..|r|] == s[i..i + |r|];
    assert t[|r|..] == s[i + |r|..];
  }

  /** Trimming yields the empty string exactly when the input is blank, so a
      whitespace-only field counts as empty. */
  lemma TrimEmptyIffBlank(s: string)
    ensures Trim(s) == "" <==> IsBlank(s)
  {
    var t := TrimStart(s);
    TrimStartSplits(s);
    TrimEndSplits(t);
    if Trim(s) == "" {
      // what trimming the end left is empty, so t is blank; since t starts
      // with a non-whitespace character unless empty, t is empty
      assert IsBlank(t) by { assert t[0..] == t; }
      assert s[..|s| - |t|] == s;
    }
  }
}
