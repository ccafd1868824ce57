/** The part of java.lang.String that the chat engine relies on. */
module JavaStrings {

  /** `String.trim()` removes every leading and trailing char whose code is at most U+0020. */
  predicate IsTrimmed(c: char) {
    c <= ' '
  }

  /** A string that `trim()` reduces to the empty string. */
  predicate IsBlank(s: string) {
    forall i :: 0 <= i < |s| ==> IsTrimmed(s[i])
  }

  /** Drops the leading trimmed chars. */
  function TrimStart(s: string): (r: string)
    ensures |r| <= |s| && r == s[|s| - |r|..]
    ensures forall i :: 0 <= i < |s| - |r| ==> IsTrimmed(s[i])
    ensures r != [] ==> !IsTrimmed(r[0])
  {
    if s != [] && IsTrimmed(s[0]) then TrimStart(s[1..]) else s
  }

  /** Drops the trailing trimmed chars. */
  function TrimEnd(s: string): (r: string)
    ensures |r| <= |s| && r == s[..|r|]
    ensures forall i :: |r| <= i < |s| ==> IsTrimmed(s[i])
    ensures r != [] ==> !IsTrimmed(r[|r| - 1])
  {
    if s != [] && IsTrimmed(s[|s| - 1]) then TrimEnd(s[..|s| - 1]) else s
  }

  /** `String.trim()`. */
  function Trim(s: string): string {
    TrimEnd(TrimStart(s))
  }

  /** `text.trim().isEmpty()` holds exactly of the strings made only of trimmed chars. */
  lemma TrimIsEmptyIffBlank(s: string)
    ensures Trim(s) == [] <==> IsBlank(s)
  {
    var t := TrimStart(s);
    if Trim(s) == [] {
      // every char of t is trimmed, yet a non-empty t starts with an untrimmed one
      if t != [] {
        assert false;
      }
    } else {
      var r := Trim(s);
      assert r[0] == s[|s| - |t|];
      assert !IsTrimmed(s[|s| - |t|]);
    }
  }

  /** `s.trim().isEmpty()`. */
  method TrimIsEmpty(s: string) returns (r: bool)
    ensures r <==> IsBlank(s)
  {
    TrimIsEmptyIffBlank(s);
    r := Trim(s) == [];
  }
}
