/** String operations of the host language: `trim` and `toLowerCase`. */
module Text {

  /** White space and line terminators, after sections 12.2 and 12.3 of ECMA-262. */
  predicate IsSpace(c: char) {
    var u := c as int;
    0x09 <= u <= 0x0D || u == 0x20 || u == 0xA0 || u == 0x1680 || 0x2000 <= u <= 0x200A ||
    u == 0x2028 || u == 0x2029 || u == 0x202F || u == 0x205F || u == 0x3000 || u == 0xFEFF
  }

  function TrimStart(s: string): (r: string)
    ensures r != [] ==> !IsSpace(r[0])
  {
    if s != [] && IsSpace(s[0]) then TrimStart(s[1..]) else s
  }

  function TrimEnd(s: string): (r: string)
    ensures r <= s && (r != [] ==> !IsSpace(r[|r| - 1]))
  {
    if s != [] && IsSpace(s[|s| - 1]) then TrimEnd(s[..|s| - 1]) else s
  }

  function Trim(s: string): (r: string)
    ensures Trimmed(r)
  {
    TrimEnd(TrimStart(s))
  }

  /** No white space at either end. */
  predicate Trimmed(s: string) {
    s != [] ==> !IsSpace(s[0]) && !IsSpace(s[|s| - 1])
  }

  lemma TrimKeepsTrimmed(s: string)
    requires Trimmed(s)
    ensures Trim(s) == s
  {
  }

  /** What is trimmed is white space, at the two ends. */
  lemma TrimCuts(s: string) returns (from: nat, to: nat)
    ensures from <= to <= |s| && Trim(s) == s[from..to]
    ensures forall i :: 0 <= i < |s| && !(from <= i < to) ==> IsSpace(s[i])
  {
    from := TrimStartCuts(s);
    var n := TrimEndCuts(TrimStart(s));
    to := from + n;
    assert forall i :: to <= i < |s| ==> s[i] == TrimStart(s)[i - from];
  }

  lemma {:induction false} TrimStartCuts(s: string) returns (from: nat)
    ensures from <= |s| && TrimStart(s) == s[from..]
    ensures forall i :: 0 <= i < from ==> IsSpace(s[i])
  {
    from := 0;
    if s != [] && IsSpace(s[0]) {
      var n := TrimStartCuts(s[1..]);
      assert forall i :: 0 < i < n + 1 ==> s[i] == s[1..][i - 1];
      from := n + 1;
    }
  }

  lemma {:induction false} TrimEndCuts(s: string) returns (to: nat)
    ensures to <= |s| && TrimEnd(s) == s[..to]
    ensures forall i :: to <= i < |s| ==> IsSpace(s[i])
  {
    to := |s|;
    if s != [] && IsSpace(s[|s| - 1]) {
      to := TrimEndCuts(s[..|s| - 1]);
      assert forall i :: to <= i < |s| - 1 ==> s[i] == s[..|s| - 1][i];
    }
  }

  /** Letters outside ASCII stand for themselves. */
  function LowerChar(c: char): (r: char)
    ensures IsSpace(r) <==> IsSpace(c)
    ensures if 'A' <= c <= 'Z' then 'a' <= r <= 'z' && r as int - 'a' as int == c as int - 'A' as int else r == c
  {
    if 'A' <= c <= 'Z' then (c as int + 32) as char else c
  }

  function Lower(s: string): (r: string)
    ensures |r| == |s|
    ensures forall i :: 0 <= i < |s| ==> r[i] == LowerChar(s[i])
  {
    if s == [] then [] else [LowerChar(s[0])] + Lower(s[1..])
  }

  lemma LowerOfLower(s: string)
    ensures Lower(Lower(s)) == Lower(s)
  {
  }

  /** Trimming first or last makes no difference once a string is trimmed. */
  lemma TrimLowerOfTrimmed(s: string)
    requires Trimmed(s)
    ensures Trim(Lower(s)) == Lower(s) && Trim(Lower(Lower(s))) == Lower(s)
  {
    TrimKeepsTrimmed(Lower(s));
    LowerOfLower(s);
  }
}
