/** String helpers shared by the parser models: the white-space trimming and
    searching that the programs take from their standard libraries. */
module Text {

  datatype Option<+T> = None | Some(value: T)

  /** The Unicode white space that Go's strings.TrimSpace removes. */
  predicate IsSpace(c: char) {
    || '\t' <= c <= '\r'
    || c == ' '
    || c == '\U{0085}'
    || c == '\U{00A0}'
    || c == '\U{1680}'
    || '\U{2000}' <= c <= '\U{200A}'
    || c == '\U{2028}'
    || c == '\U{2029}'
    || c == '\U{202F}'
    || c == '\U{205F}'
    || c == '\U{3000}'
  }

  /** Neither end is white space. */
  predicate Trimmed(s: string) {
    s == "" || (!IsSpace(s[0]) && !IsSpace(s[|s| - 1]))
  }

  /** The first position from i on that is not white space, or the end. */
  function Lead(s: string, i: nat): (r: nat)
    requires i <= |s|
    ensures i <= r <= |s|
    ensures forall k :: i <= k < r ==> IsSpace(s[k])
    ensures r < |s| ==> !IsSpace(s[r])
    decreases |s| - i
  {
    if i < |s| && IsSpace(s[i]) then Lead(s, i + 1) else i
  }

  /** The least end, not before lo, of s[..hi] without its closing white space. */
  function Rear(s: string, lo: nat, hi: nat): (r: nat)
    requires lo <= hi <= |s|
    ensures lo <= r <= hi
    ensures forall k :: r <= k < hi ==> IsSpace(s[k])
    ensures r > lo ==> !IsSpace(s[r - 1])
    decreases hi
  {
    if lo < hi && IsSpace(s[hi - 1]) then Rear(s, lo, hi - 1) else hi
  }

  /** strings.TrimSpace */
  function TrimSpace(s: string): (r: string)
    ensures Trimmed(r)
    ensures |r| <= |s|
    ensures Trimmed(s) ==> r == s
  {
    var lo := Lead(s, 0);
    s[lo..Rear(s, lo, |s|)]
  }

  /** What is left after dropping white space on both sides is determined. */
  lemma TrimSpaceIs(s: string, lo: nat, hi: nat)
    requires lo < hi <= |s| && !IsSpace(s[lo]) && !IsSpace(s[hi - 1])
    requires forall k :: 0 <= k < lo || hi <= k < |s| ==> IsSpace(s[k])
    ensures TrimSpace(s) == s[lo..hi]
  {
    var l := Lead(s, 0);
    var r := Rear(s, l, |s|);
    assert l == lo;
    assert r == hi;
  }

  /** Appending something solid makes the white space before it inner, except at
      the front. */
  lemma TrimSpaceKeepsSolidEnd(s: string, t: string)
    requires t != "" && !IsSpace(t[0]) && !IsSpace(t[|t| - 1])
    ensures TrimSpace(s + t) == s[Lead(s, 0)..] + t
  {
    var lo := Lead(s, 0);
    SuffixOfSum(s, t, lo);
    forall k | 0 <= k < lo
      ensures IsSpace((s + t)[k])
    {
      assert (s + t)[k] == s[k];
    }
    TrimSpaceIs(s + t, lo, |s + t|);
  }

  lemma SuffixOfSum(s: string, t: string, lo: nat)
    requires lo <= |s| && t != ""
    ensures (s + t)[lo..|s + t|] == s[lo..] + t
    ensures (s + t)[lo] == if lo < |s| then s[lo] else t[0]
    ensures (s + t)[|s + t| - 1] == t[|t| - 1]
  {
  }

  /** Dropping white space at the front first does not change what is left. */
  lemma TrimSpaceFrom(s: string, lo: nat, hi: nat)
    requires lo < hi <= |s| && !IsSpace(s[lo]) && !IsSpace(s[hi - 1])
    requires forall k :: hi <= k < |s| ==> IsSpace(s[k])
    ensures TrimSpace(s[lo..]) == s[lo..hi]
  {
    var t := s[lo..];
    assert t[hi - lo - 1] == s[hi - 1];
    TrimSpaceIs(t, 0, hi - lo);
    assert t[0..hi - lo] == s[lo..hi];
  }

  lemma TrimSpaceSkipsLead(s: string)
    ensures TrimSpace(s[Lead(s, 0)..]) == TrimSpace(s)
  {
    var lo := Lead(s, 0);
    if lo < |s| {
      TrimSpaceFrom(s, lo, Rear(s, lo, |s|));
    }
  }

  /** strings.Index for a one-character needle: the first position of c, or -1. */
  function IndexOf(s: string, c: char): (i: int)
    ensures -1 <= i < |s|
    ensures i == -1 ==> forall k :: 0 <= k < |s| ==> s[k] != c
    ensures i >= 0 ==> s[i] == c && forall k :: 0 <= k < i ==> s[k] != c
  {
    IndexFrom(s, c, 0)
  }

  function IndexFrom(s: string, c: char, from: nat): (i: int)
    requires from <= |s|
    ensures i == -1 || from <= i < |s|
    ensures i == -1 ==> forall k :: from <= k < |s| ==> s[k] != c
    ensures i != -1 ==> s[i] == c && forall k :: from <= k < i ==> s[k] != c
    decreases |s| - from
  {
    if from == |s| then -1 else if s[from] == c then from else IndexFrom(s, c, from + 1)
  }

  /** The first position of c in a + [c] + b is |a| when a has no c. */
  lemma IndexOfFirst(a: string, c: char, b: string)
    requires c !in a
    ensures IndexOf(a + [c] + b, c) == |a|
  {
    var s := a + [c] + b;
    assert s[|a|] == c;
    assert forall k :: 0 <= k < |a| ==> s[k] == a[k] && a[k] in a;
  }

  /** strings.ToLower on the ASCII letters. */
  function ToLower(s: string): (r: string)
    ensures |r| == |s|
    ensures forall i :: 0 <= i < |s| ==> r[i] == if 'A' <= s[i] <= 'Z' then s[i] + ' ' else s[i]
  {
    seq(|s|, i requires 0 <= i < |s| => if 'A' <= s[i] <= 'Z' then s[i] + ' ' else s[i])
  }
}
