/** The normalisation the User schema applies to an email before storing it or matching a
    query against it: `lowercase: true` and `trim: true` (models/User.js:9-10).
    Case mapping is modelled for ASCII letters; trimming for the ASCII whitespace and line
    terminators, the no-break space and the byte-order mark. */
module Email {

  predicate IsWhitespace(c: char) {
    c == ' ' || c == '\t' || c == '\n' || c == '\r' || c == '\U{000B}' || c == '\U{000C}'
    || c == '\U{00A0}' || c == '\U{FEFF}'
  }

  predicate IsUpper(c: char) {
    'A' <= c <= 'Z'
  }

  /** No ASCII upper-case letter occurs in s. */
  predicate NoUpper(s: string) {
    forall i :: 0 <= i < |s| ==> !IsUpper(s[i])
  }

  function LowerChar(c: char): (r: char)
    ensures !IsUpper(r)
    ensures IsWhitespace(r) <==> IsWhitespace(c)
    ensures IsUpper(c) ==> 'a' <= r <= 'z'
    ensures !IsUpper(c) ==> r == c
  {
    if IsUpper(c) then (c as int - 'A' as int + 'a' as int) as char else c
  }

  function Lower(s: string): (r: string)
    ensures |r| == |s| && NoUpper(r)
    ensures forall i :: 0 <= i < |s| ==> r[i] == LowerChar(s[i])
  {
    seq(|s|, i requires 0 <= i < |s| => LowerChar(s[i]))
  }

  /** s without its leading whitespace. */
  function TrimStart(s: string): (r: string)
    ensures |r| <= |s| && r == s[|s| - |r|..]
    ensures |r| > 0 ==> !IsWhitespace(r[0])
    ensures forall i :: 0 <= i < |s| - |r| ==> IsWhitespace(s[i])
    ensures NoUpper(s) ==> NoUpper(r)
  {
    if |s| > 0 && IsWhitespace(s[0]) then
      var t := s[1..];
      var r := TrimStart(t);
      assert forall i :: 1 <= i < |s| ==> s[i] == t[i - 1];
      r
    else s
  }

  /** s without its trailing whitespace. */
  function TrimEnd(s: string): (r: string)
    ensures |r| <= |s| && r == s[..|r|]
    ensures |r| > 0 ==> !IsWhitespace(r[|r| - 1])
    ensures forall i :: |r| <= i < |s| ==> IsWhitespace(s[i])
    ensures NoUpper(s) ==> NoUpper(r)
  {
    if |s| > 0 && IsWhitespace(s[|s| - 1]) then
      var t := s[..|s| - 1];
      var r := TrimEnd(t);
      assert forall i :: 0 <= i < |t| ==> s[i] == t[i];
      r
    else s
  }

  /** `trim: true`: s without its leading and trailing whitespace. */
  function Trim(s: string): (r: string)
    ensures |r| > 0 ==> !IsWhitespace(r[0]) && !IsWhitespace(r[|r| - 1])
    ensures NoUpper(s) ==> NoUpper(r)
  {
    TrimEnd(TrimStart(s))
  }

  /** The value the schema stores for an email field, and the value a query on it matches. */
  function Normalise(email: string): string {
    Trim(Lower(email))
  }

  /** A normalised email has no upper-case letter and no surrounding whitespace. */
  predicate IsNormalised(email: string) {
    NoUpper(email) && (|email| > 0 ==> !IsWhitespace(email[0]) && !IsWhitespace(email[|email| - 1]))
  }

  lemma LowerOfLowered(s: string)
    requires NoUpper(s)
    ensures Lower(s) == s
  {
  }

  /** A string that neither starts nor ends with whitespace is its own trim. */
  lemma TrimOfTrimmed(t: string)
    requires |t| > 0 ==> !IsWhitespace(t[0]) && !IsWhitespace(t[|t| - 1])
    ensures Trim(t) == t
  {
  }

  /** Normalising a normalised email changes nothing. */
  lemma NormalisedIsFixed(email: string)
    requires IsNormalised(email)
    ensures Normalise(email) == email
  {
    LowerOfLowered(email);
    TrimOfTrimmed(email);
  }

  /** Normalisation yields a normalised email, so normalising twice is normalising once: a
      stored email is its own query value, and the schema's uniqueness constraint is a
      constraint on normalised emails. */
  lemma {:induction false} NormaliseIdempotent(email: string)
    ensures IsNormalised(Normalise(email))
    ensures Normalise(Normalise(email)) == Normalise(email)
  {
    var low := Lower(email);
    var a := TrimStart(low);
    var t := TrimEnd(a);
    assert |t| > 0 ==> t[0] == a[0];
    assert IsNormalised(t);
    NormalisedIsFixed(t);
  }
}
