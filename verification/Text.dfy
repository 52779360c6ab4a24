/** Trimming, as PostgreSQL's btrim() and Python's str.strip() do it. */
module Text {

  /** btrim() strips spaces only. */
  predicate Blank(s: string) { forall i :: 0 <= i < |s| ==> s[i] == ' ' }

  /** What str.strip() removes: the characters str.isspace() accepts. */
  predicate IsSpace(ch: char) {
    var n := ch as int;
    || 9 <= n <= 13 || 28 <= n <= 32 || n == 0x85 || n == 0xa0 || n == 0x1680 || 0x2000 <= n <= 0x200a
    || n == 0x2028 || n == 0x2029 || n == 0x202f || n == 0x205f || n == 0x3000
  }

  function StripLeft(s: string): (r: string)
    ensures r != "" ==> !IsSpace(r[0])
  {
    if s == "" || !IsSpace(s[0]) then s else StripLeft(s[1..])
  }

  function StripRight(s: string): (r: string)
    ensures r != "" ==> s != "" && r[0] == s[0]
  {
    if s == "" || !IsSpace(s[|s| - 1]) then s else StripRight(s[..|s| - 1])
  }

  /** Text that survives strip() satisfies the database's own blank check. */
  function Strip(s: string): (r: string)
    ensures r != "" ==> !Blank(r)
  {
    StripRight(StripLeft(s))
  }

  lemma {:induction false} StripLeftIsASuffix(s: string) returns (i: nat)
    ensures i <= |s| && StripLeft(s) == s[i..] && forall k :: 0 <= k < i ==> IsSpace(s[k])
  {
    i := 0;
    if s != "" && IsSpace(s[0]) {
      i := StripLeftIsASuffix(s[1..]);
      i := i + 1;
    }
  }

  lemma {:induction false} StripRightIsAPrefix(s: string) returns (j: nat)
    ensures j <= |s| && StripRight(s) == s[..j] && forall k :: j <= k < |s| ==> IsSpace(s[k])
    ensures j > 0 ==> !IsSpace(s[j - 1])
  {
    j := |s|;
    if s != "" && IsSpace(s[|s| - 1]) {
      j := StripRightIsAPrefix(s[..|s| - 1]);
    }
  }

  /** strip() cuts off the spaces at both ends and nothing else. */
  lemma {:induction false} StripCutsOnlyTheEnds(s: string) returns (i: nat, j: nat)
    ensures i <= j <= |s| && Strip(s) == s[i..j]
    ensures forall k :: 0 <= k < |s| && !(i <= k < j) ==> IsSpace(s[k])
    ensures i < j ==> !IsSpace(s[i]) && !IsSpace(s[j - 1])
  {
    i := StripLeftIsASuffix(s);
    var n := StripRightIsAPrefix(s[i..]);
    j := i + n;
  }
}
