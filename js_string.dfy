/**
 * The part of JavaScript's string library the product model relies on:
 * `String.prototype.trim`, which removes leading and trailing white space
 * and line terminators (ECMAScript's WhiteSpace and LineTerminator code points).
 */
module JsString {

  /** The code points ECMAScript's `trim` strips: TAB, LF, VT, FF, CR, the Unicode
      space separators (category Zs), LINE SEPARATOR, PARAGRAPH SEPARATOR and BOM.
      Among the ASCII characters these are exactly TAB, LF, VT, FF, CR and space;
      everything it strips outside ASCII lies in the Unicode spaces and separators. */
  predicate IsWs(c: char)
    ensures c as int < 0x80 ==> (IsWs(c) <==> c in "\t\n\U{000B}\U{000C}\r ")
    ensures IsWs(c) && c as int >= 0x80 ==> c as int == 0xA0 || 0x1680 <= c as int <= 0x3000 || c as int == 0xFEFF
  {
    var n := c as int;
    (0x09 <= n <= 0x0D) || n == 0x20 || n == 0xA0 || n == 0x1680 ||
    (0x2000 <= n <= 0x200A) || n == 0x2028 || n == 0x2029 || n == 0x202F ||
    n == 0x205F || n == 0x3000 || n == 0xFEFF
  }

  /** A string with no white space at either end. */
  predicate IsTrimmed(s: string) {
    s == [] || (!IsWs(s[0]) && !IsWs(s[|s| - 1]))
  }

  /** `s` with its leading white space removed. */
  function TrimStart(s: string): string {
    if s != [] && IsWs(s[0]) then TrimStart(s[1..]) else s
  }

  /** `s` with its trailing white space removed. */
  function TrimEnd(s: string): string {
    if s != [] && IsWs(s[|s| - 1]) then TrimEnd(s[..|s| - 1]) else s
  }

  /** `s.trim()`: never longer than `s` and with no white space at either end
      (`TrimSpec` says which slice of `s` it is). */
  function Trim(s: string): (r: string)
    ensures |r| <= |s| && IsTrimmed(r)
  {
    TrimStartSpec(s);
    TrimEndSpec(TrimStart(s));
    TrimEnd(TrimStart(s))
  }

  /** `TrimStart(s)` is the suffix of `s` left after cutting off a run of white
      space, and it does not start with white space. */
  lemma {:induction false} TrimStartSpec(s: string)
    ensures var r := TrimStart(s);
      |r| <= |s| && r == s[|s| - |r|..] &&
      (forall i :: 0 <= i < |s| - |r| ==> IsWs(s[i])) &&
      (r != [] ==> !IsWs(r[0]))
  {
    if s != [] && IsWs(s[0]) {
      var t := s[1..];
      TrimStartSpec(t);
      var r := TrimStart(t);
      assert t[|t| - |r|..] == s[|s| - |r|..];
      forall i | 0 <= i < |s| - |r| ensures IsWs(s[i]) {
        if i > 0 { assert s[i] == t[i - 1]; }
      }
    }
  }

  /** `TrimEnd(s)` is the prefix of `s` left after cutting off a run of white
      space, and it does not end with white space. */
  lemma {:induction false} TrimEndSpec(s: string)
    ensures var r := TrimEnd(s);
      |r| <= |s| && r == s[..|r|] &&
      (forall i :: |r| <= i < |s| ==> IsWs(s[i])) &&
      (r != [] ==> !IsWs(r[|r| - 1]))
  {
    if s != [] && IsWs(s[|s| - 1]) {
      var t := s[..|s| - 1];
      TrimEndSpec(t);
      var r := TrimEnd(t);
      assert t[..|r|] == s[..|r|];
      forall i | |r| <= i < |s| ensures IsWs(s[i]) {
        if i < |t| { assert s[i] == t[i]; }
      }
    }
  }

  /** `Trim(s)` is the slice of `s` that starts where the leading white space
      ends and leaves out the trailing white space; it is trimmed; it is empty
      exactly when `s` is all white space; and a string that is already trimmed
      comes back as it is, so trimming is idempotent. */
  lemma TrimSpec(s: string)
    ensures var r, k := Trim(s), |s| - |TrimStart(s)|;
      0 <= k <= |s| - |r| && r == s[k..k + |r|] &&
      (forall i :: 0 <= i < k ==> IsWs(s[i])) &&
      (forall i :: k + |r| <= i < |s| ==> IsWs(s[i]))
    ensures IsTrimmed(Trim(s))
    ensures Trim(s) == [] <==> forall i :: 0 <= i < |s| ==> IsWs(s[i])
    ensures IsTrimmed(s) ==> Trim(s) == s
    ensures Trim(Trim(s)) == Trim(s)
  {
    TrimStartSpec(s);
    TrimEndSpec(TrimStart(s));
    TrimOfTrimmed(Trim(s));
  }

  /** A trimmed string is its own trim. */
  lemma TrimOfTrimmed(s: string)
    requires IsTrimmed(s)
    ensures Trim(s) == s
  {
  }
}
