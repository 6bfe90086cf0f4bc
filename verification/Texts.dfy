/** Trimming of failure categories, as Rust's `str::trim` does it. */
module Texts {

  /** The characters with the Unicode White_Space property. */
  predicate IsWhitespace(c: char) {
    var v := c as int;
    || 0x9 <= v <= 0xD || v == 0x20 || v == 0x85 || v == 0xA0 || v == 0x1680
    || 0x2000 <= v <= 0x200A || v == 0x2028 || v == 0x2029 || v == 0x202F || v == 0x205F || v == 0x3000
  }

  function TrimStart(s: string): string {
    if s != [] && IsWhitespace(s[0]) then TrimStart(s[1..]) else s
  }

  function TrimEnd(s: string): string {
    if s != [] && IsWhitespace(s[|s| - 1]) then TrimEnd(s[..|s| - 1]) else s
  }

  function Trim(s: string): string {
    TrimEnd(TrimStart(s))
  }

  /** Nothing is left after trimming. */
  predicate Blank(s: string) {
    Trim(s) == []
  }

  predicate Trimmed(s: string) {
    s == [] || (!IsWhitespace(s[0]) && !IsWhitespace(s[|s| - 1]))
  }

  lemma {:induction false} TrimEndKeepsStart(s: string)
    requires s == [] || !IsWhitespace(s[0])
    ensures Trimmed(TrimEnd(s))
    decreases |s|
  {
    if s != [] && IsWhitespace(s[|s| - 1]) {
      TrimEndKeepsStart(s[..|s| - 1]);
    }
  }

  lemma {:induction false} TrimStartTrims(s: string)
    ensures TrimStart(s) == [] || !IsWhitespace(TrimStart(s)[0])
  {
    if s != [] && IsWhitespace(s[0]) {
      TrimStartTrims(s[1..]);
    }
  }

  lemma TrimmedFixed(s: string)
    requires Trimmed(s)
    ensures Trim(s) == s
  {
  }

  /** Trimming leaves no outer whitespace, so trimming again changes
      nothing. */
  lemma TrimIdempotent(s: string)
    ensures Trimmed(Trim(s)) && Trim(Trim(s)) == Trim(s)
  {
    TrimStartTrims(s);
    TrimEndKeepsStart(TrimStart(s));
  }

  predicate AllWhitespace(s: string) {
    forall k :: 0 <= k < |s| ==> IsWhitespace(s[k])
  }

  lemma {:induction false} TrimStartDrops(s: string) returns (left: string)
    ensures s == left + TrimStart(s) && AllWhitespace(left)
  {
    hide IsWhitespace;
    left := [];
    if s != [] && IsWhitespace(s[0]) {
      var rest := TrimStartDrops(s[1..]);
      left := [s[0]] + rest;
      assert s == [s[0]] + s[1..];
    }
  }

  lemma {:induction false} TrimEndDrops(s: string) returns (right: string)
    ensures s == TrimEnd(s) + right && AllWhitespace(right)
    decreases |s|
  {
    hide IsWhitespace;
    right := [];
    if s != [] && IsWhitespace(s[|s| - 1]) {
      var rest := TrimEndDrops(s[..|s| - 1]);
      right := rest + [s[|s| - 1]];
      assert s == s[..|s| - 1] + [s[|s| - 1]];
    }
  }

  /** Trimming drops whitespace at both ends, all of it, and nothing else. */
  lemma TrimExact(s: string) returns (left: string, right: string)
    ensures s == left + Trim(s) + right && AllWhitespace(left) && AllWhitespace(right) && Trimmed(Trim(s))
  {
    TrimIdempotent(s);
    hide TrimStart, TrimEnd, IsWhitespace, Trimmed;
    left := TrimStartDrops(s);
    right := TrimEndDrops(TrimStart(s));
  }

  /** A text is blank exactly when all of it is whitespace. */
  lemma BlankExact(s: string)
    ensures Blank(s) <==> AllWhitespace(s)
  {
    var left, right := TrimExact(s);
    hide IsWhitespace, Trim;
    if Trim(s) != [] {
      assert s[|left|] == Trim(s)[0];
    }
  }
}
