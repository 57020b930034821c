/** Player-name clean-up of internal/antivpn/supervisor.go: trailing colour codes
    are stripped from logged names, and names are sanitized before they are
    shown or stored. */
module PlayerName {
  import opened Text

  predicate IsHex(c: char) {
    '0' <= c <= '9' || 'a' <= c <= 'f' || 'A' <= c <= 'F'
  }

  predicate IsColorCodeSuffix(c: char) {
    '0' <= c <= '9' || 'a' <= c <= 'z' || 'A' <= c <= 'Z'
  }

  /** ^xRRGGBB */
  predicate IsLongCode(s: string) {
    |s| == 8 && s[0] == '^' && (s[1] == 'x' || s[1] == 'X') && forall i :: 2 <= i < 8 ==> IsHex(s[i])
  }

  /** ^N */
  predicate IsShortCode(s: string) {
    |s| == 2 && s[0] == '^' && IsColorCodeSuffix(s[1])
  }

  predicate IsCode(s: string) { IsLongCode(s) || IsShortCode(s) }

  lemma HexExactly(c: char)
    ensures IsHex(c) <==> c in "0123456789abcdefABCDEF"
  {
  }

  lemma SuffixExactly(c: char)
    ensures IsColorCodeSuffix(c) <==>
            || c in "0123456789" || c in "abcdefghijklmnopqrstuvwxyz" || c in "ABCDEFGHIJKLMNOPQRSTUVWXYZ"
  {
  }

  /** A code is a caret and a digit or letter, or a caret, an x and six hexadecimal
      digits. */
  lemma CodesExactly(s: string)
    ensures IsShortCode(s) <==>
            exists c: char ::
              && s == "^" + [c]
              && (c in "0123456789" || c in "abcdefghijklmnopqrstuvwxyz" || c in "ABCDEFGHIJKLMNOPQRSTUVWXYZ")
    ensures IsLongCode(s) <==>
            exists h: string ::
              && |h| == 6 && (s == "^x" + h || s == "^X" + h)
              && forall i :: 0 <= i < 6 ==> h[i] in "0123456789abcdefABCDEF"
  {
    forall c: char
      ensures IsHex(c) <==> c in "0123456789abcdefABCDEF"
    {
      HexExactly(c);
    }
    if |s| == 2 {
      SuffixExactly(s[1]);
      assert s == [s[0]] + [s[1]];
    }
    if |s| == 8 {
      var h := s[2..];
      assert s == [s[0], s[1]] + h;
      assert forall i :: 0 <= i < 6 ==> h[i] == s[i + 2];
    }
  }

  predicate EndsInCode(s: string) {
    || (|s| >= 8 && IsLongCode(s[|s| - 8..]))
    || (|s| >= 2 && IsShortCode(s[|s| - 2..]))
  }

  function TrimTrailingColorCode(value: string): (r: (string, bool))
    ensures r.1 <==> EndsInCode(value)
    ensures r.0 <= value
    ensures r.1 ==> |r.0| < |value| && IsCode(value[|r.0|..])
    ensures !r.1 ==> r.0 == value
  {
    if |value| >= 8 && IsLongCode(value[|value| - 8..]) then (value[..|value| - 8], true)
    else if |value| >= 2 && IsShortCode(value[|value| - 2..]) then (value[..|value| - 2], true)
    else (value, false)
  }

  /** The fixpoint the program's loop runs to. */
  function Normalized(value: string): string
    decreases |value|
  {
    var v := TrimSpace(value);
    var (shorter, changed) := TrimTrailingColorCode(v);
    if changed then Normalized(shorter) else v
  }

  lemma NormalizedStep(value: string)
    requires Trimmed(value)
    ensures var (shorter, changed) := TrimTrailingColorCode(value);
            Normalized(value) == if changed then Normalized(TrimSpace(shorter)) else value
  {
    var (shorter, changed) := TrimTrailingColorCode(value);
    if changed {
      assert TrimSpace(TrimSpace(shorter)) == TrimSpace(shorter);
    }
  }

  method NormalizeLoggedPlayerName(name: string) returns (value: string)
    ensures value == Normalized(name)
  {
    value := TrimSpace(name);
    assert Normalized(value) == Normalized(name);
    if value == "" {
      return;
    }
    var changed := true;
    while changed
      invariant Trimmed(value)
      invariant Normalized(value) == Normalized(name)
      invariant !changed ==> value == Normalized(name)
      decreases |value|, changed
    {
      NormalizedStep(value);
      var (trimmed, stripped) := TrimTrailingColorCode(value);
      changed := stripped;
      if changed {
        value := TrimSpace(trimmed);
      }
    }
  }

  /** The result has no outer white space and no trailing code. */
  lemma {:induction false} NormalizedIsClean(name: string)
    ensures Trimmed(Normalized(name)) && !EndsInCode(Normalized(name))
    decreases |name|
  {
    var (shorter, changed) := TrimTrailingColorCode(TrimSpace(name));
    if !changed {
    } else {
      NormalizedIsClean(shorter);
    }
  }

  /** It is a prefix of the trimmed name: nothing but the right end is touched. */
  lemma {:induction false} NormalizedIsAPrefix(name: string)
    ensures Normalized(name) <= TrimSpace(name)
    decreases |name|
  {
    var v := TrimSpace(name);
    var (shorter, changed) := TrimTrailingColorCode(v);
    if !changed {
    } else {
      NormalizedIsAPrefix(shorter);
      PrefixTrim(v, shorter);
      PrefixTransitive(Normalized(shorter), TrimSpace(shorter), v);
    }
  }

  lemma PrefixTransitive(a: string, b: string, c: string)
    requires a <= b <= c
    ensures a <= c
  {
  }

  /** A prefix of a trimmed string loses only its right end to trimming. */
  lemma PrefixTrim(v: string, shorter: string)
    requires Trimmed(v) && shorter <= v
    ensures TrimSpace(shorter) <= v
  {
    assert shorter != "" ==> shorter[0] == v[0];
    if shorter != "" {
      assert Lead(shorter, 0) == 0;
    }
  }

  lemma NormalizedIsIdempotent(name: string)
    ensures Normalized(Normalized(name)) == Normalized(name)
  {
    NormalizedIsClean(name);
  }

  /** A clean name is left alone. */
  lemma NormalizedKeepsCleanNames(name: string)
    requires Trimmed(name) && !EndsInCode(name)
    ensures Normalized(name) == name
  {
  }

  lemma CodeComesOff(v: string, code: string)
    requires IsCode(code)
    ensures TrimTrailingColorCode(v + code) == (v, true)
  {
    var w := v + code;
    assert w[|w| - |code|..] == code;
    assert w[..|w| - |code|] == v;
    if IsShortCode(code) && |w| >= 8 {
      assert w[|w| - 8..][6] == '^';
    }
  }

  lemma CodeIsSolid(code: string)
    requires IsCode(code)
    ensures !IsSpace(code[0]) && !IsSpace(code[|code| - 1])
  {
  }

  /** Appending a colour code to any name does not change its normal form. */
  lemma AppendedCodeIsStripped(name: string, code: string)
    requires IsCode(code)
    ensures Normalized(name + code) == Normalized(name)
  {
    var v := name[Lead(name, 0)..];
    CodeIsSolid(code);
    TrimSpaceKeepsSolidEnd(name, code);
    CodeComesOff(v, code);
    assert Normalized(name + code) == Normalized(v);
    TrimSpaceSkipsLead(name);
  }

  // ----- names as they are stored -------------------------------------------

  const UNKNOWN := "Unknown Player"

  /** One pass over the runes: a caret goes, with the digit behind it, and so do
      control characters. */
  function Visible(s: string, skipDigit: bool): string {
    if s == "" then ""
    else if skipDigit && '0' <= s[0] <= '9' then Visible(s[1..], false)
    else if s[0] == '^' then Visible(s[1..], true)
    else if s[0] < ' ' || s[0] == '\U{007F}' then Visible(s[1..], false)
    else [s[0]] + Visible(s[1..], false)
  }

  function SanitizePlayerName(value: string): (r: string)
    ensures r != "" && TrimSpace(r) != ""
    ensures |r| <= 35
  {
    var v := TrimSpace(value);
    if v == "" then UNKNOWN
    else
      var visible := TrimSpace(Visible(v, false));
      var sanitized := if visible == "" then UNKNOWN else visible;
      if |sanitized| > 32 then
        TrimSpaceKeepsSolidEnd(sanitized[..32], "...");
        sanitized[..32] + "..."
      else sanitized
  }

  method SanitizeNameLoop(value: string) returns (built: string)
    ensures built == Visible(value, false)
  {
    built := "";
    var skipColorDigit := false;
    var i := 0;
    while i < |value|
      invariant 0 <= i <= |value|
      invariant Visible(value, false) == built + Visible(value[i..], skipColorDigit)
    {
      var c := value[i];
      assert value[i..][1..] == value[i + 1..];
      i := i + 1;
      if skipColorDigit {
        skipColorDigit := false;
        if '0' <= c <= '9' {
          continue;
        }
      }
      if c == '^' {
        skipColorDigit := true;
        continue;
      }
      if c < ' ' || c == '\U{007F}' {
        continue;
      }
      built := built + [c];
    }
  }

  /** What is shown of a text: a caret is not, nor the digit behind it, nor a control
      character. */
  predicate Shown(s: string, i: nat)
    requires i < |s|
  {
    && s[i] != '^' && s[i] >= ' ' && s[i] != '\U{007F}'
    && !('0' <= s[i] <= '9' && i > 0 && s[i - 1] == '^')
  }

  /** The shown characters of the first n. */
  function ShownOf(s: string, n: nat): (r: string)
    requires n <= |s|
    ensures |r| <= n
  {
    if n == 0 then "" else ShownOf(s, n - 1) + if Shown(s, n - 1) then [s[n - 1]] else ""
  }

  lemma {:induction false} VisibleFrom(s: string, n: nat)
    requires n <= |s|
    ensures ShownOf(s, n) + Visible(s[n..], n > 0 && s[n - 1] == '^') == ShownOf(s, |s|)
    decreases |s| - n
  {
    if n == |s| {
    } else {
      VisibleFrom(s, n + 1);
      assert s[n..][1..] == s[n + 1..];
    }
  }

  /** The pass shows exactly these. */
  lemma VisibleExactly(s: string)
    ensures Visible(s, false) == ShownOf(s, |s|)
  {
    VisibleFrom(s, 0);
    assert s[0..] == s;
  }

  lemma {:induction false} AllShown(s: string, n: nat)
    requires n <= |s| && forall i :: 0 <= i < n ==> Shown(s, i)
    ensures ShownOf(s, n) == s[..n]
  {
    if n == 0 {
    } else {
      AllShown(s, n - 1);
    }
  }

  /** A stored name is what is shown of the trimmed text, trimmed again; "Unknown Player"
      when nothing is; and its first 32 characters with three dots when it is longer. */
  lemma SanitizedName(value: string)
    ensures var v := TrimSpace(value);
            var shown := TrimSpace(ShownOf(v, |v|));
            var r := SanitizePlayerName(value);
            && (shown == "" ==> r == "Unknown Player")
            && (1 <= |shown| <= 32 ==> r == shown)
            && (|shown| > 32 ==> |r| == 35 && r[..32] == shown[..32] && r[32..] == "...")
  {
    VisibleExactly(TrimSpace(value));
  }

  /** A trimmed text of up to 32 shown characters is kept as it is. */
  lemma PlainNameIsKept(value: string)
    requires value != "" && Trimmed(value) && |value| <= 32
    requires forall i :: 0 <= i < |value| ==> Shown(value, i)
    ensures SanitizePlayerName(value) == value
  {
    SanitizedName(value);
    AllShown(value, |value|);
    assert value[..|value|] == value;
  }

  /** No caret and no control character is ever shown. */
  lemma {:induction false} VisibleIsPrintable(s: string, skipDigit: bool)
    ensures forall c :: c in Visible(s, skipDigit) ==> c != '^' && c >= ' ' && c != '\U{007F}'
  {
    if s == "" {
    } else {
      VisibleIsPrintable(s[1..], true);
      VisibleIsPrintable(s[1..], false);
    }
  }
}
