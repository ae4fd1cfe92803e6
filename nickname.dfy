/**
 * The nickname form of the client (NicknameInput.handleSubmit): a nickname
 * is submitted only when it is non-empty after String.prototype.trim, and
 * it is submitted trimmed.
 */
module Nickname {
  import opened Options

  /** The characters String.prototype.trim strips: ECMAScript WhiteSpace and LineTerminator. */
  predicate IsSpace(c: char)
  {
    || c == '\t' || c == '\n' || c == '\r' || c == ' '
    || c == '\U{000B}' || c == '\U{000C}' || c == '\U{00A0}' || c == '\U{1680}'
    || ('\U{2000}' <= c <= '\U{200A}')
    || c == '\U{2028}' || c == '\U{2029}' || c == '\U{202F}' || c == '\U{205F}'
    || c == '\U{3000}' || c == '\U{FEFF}'
  }

  /** How many white-space characters the string starts with. */
  function LeadingSpaces(s: string): (n: nat)
    ensures n <= |s|
    ensures forall k :: 0 <= k < n ==> IsSpace(s[k])
    ensures n < |s| ==> !IsSpace(s[n])
  {
    if s != [] && IsSpace(s[0]) then 1 + LeadingSpaces(s[1..]) else 0
  }

  /** The length of the string without its trailing white space. */
  function LengthWithoutTrailing(s: string): (n: nat)
    ensures n <= |s|
    ensures forall k :: n <= k < |s| ==> IsSpace(s[k])
    ensures n > 0 ==> !IsSpace(s[n - 1])
  {
    if s != [] && IsSpace(s[|s| - 1]) then LengthWithoutTrailing(s[..|s| - 1]) else |s|
  }

  /** String.prototype.trim: the result neither starts nor ends with white space. */
  function Trim(s: string): (r: string)
    ensures r != [] ==> !IsSpace(r[0]) && !IsSpace(r[|r| - 1])
  {
    var t := s[LeadingSpaces(s)..];
    t[..LengthWithoutTrailing(t)]
  }

  /** Trimming removes exactly the surrounding white space: the result is a slice of the input with only white space around it. */
  lemma TrimIsCore(s: string)
    ensures var r, i := Trim(s), LeadingSpaces(s);
      && i + |r| <= |s|
      && r == s[i..i + |r|]
      && (forall k :: 0 <= k < i ==> IsSpace(s[k]))
      && (forall k :: i + |r| <= k < |s| ==> IsSpace(s[k]))
  {
    var i := LeadingSpaces(s);
    var t := s[i..];
    var n := LengthWithoutTrailing(t);
    assert Trim(s) == s[i..i + n];
    forall k | i + n <= k < |s|
      ensures IsSpace(s[k])
    {
      assert s[k] == t[k - i];
    }
  }

  /** The trimmed nickname is empty exactly when every character is a space. */
  lemma TrimEmptyIffAllSpace(s: string)
    ensures Trim(s) == [] <==> forall k :: 0 <= k < |s| ==> IsSpace(s[k])
  {
    TrimIsCore(s);
    var r := Trim(s);
    if r != [] {
      assert s[LeadingSpaces(s)] == r[0];
    }
  }

  /** Trimming twice is trimming once. */
  lemma TrimIdempotent(s: string)
    ensures Trim(Trim(s)) == Trim(s)
  {
    var r := Trim(s);
    if r != [] {
      assert LeadingSpaces(r) == 0;
      assert LengthWithoutTrailing(r) == |r|;
      assert r[0..][..|r|] == r;
    }
  }

  /** handleSubmit: the value passed on to the game, if any. */
  function Submit(input: string): (submitted: Option<string>)
    ensures submitted.Some? <==> exists k :: 0 <= k < |input| && !IsSpace(input[k])
    ensures submitted.Some? ==> submitted.value == Trim(input) && submitted.value != []
  {
    TrimEmptyIffAllSpace(input);
    var name := Trim(input);
    if name != [] then Some(name) else None
  }
}
