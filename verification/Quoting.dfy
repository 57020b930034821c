/** `quote_rcon_arg` of bundled-addons/defaults/match-announcer.py. */
module Quoting {
  import opened Text

  const BACKSLASH := '\\'
  const QUOTE := '\"'

  /** str.replace with a one-character pattern. */
  function Replace(s: string, c: char, sub: string): string {
    if s == "" then "" else (if s[0] == c then sub else [s[0]]) + Replace(s[1..], c, sub)
  }

  function QuoteRconArg(value: string): string {
    var escaped := Replace(Replace(value, BACKSLASH, [BACKSLASH, BACKSLASH]), QUOTE, [BACKSLASH, QUOTE]);
    [QUOTE] + escaped + [QUOTE]
  }

  /** What is between the outer quotes. */
  function Inner(quoted: string): string
    requires |quoted| >= 2
  {
    quoted[1..|quoted| - 1]
  }

  /** How an argument reader undoes the escapes; None for a stray quote or a
      backslash with nothing behind it. */
  function Unescape(s: string): Option<string> {
    if s == "" then Some("")
    else if s[0] == QUOTE then None
    else if s[0] == BACKSLASH then
      if |s| == 1 then None
      else match Unescape(s[2..])
        case Some(rest) => Some([s[1]] + rest)
        case None => None
    else match Unescape(s[1..])
      case Some(rest) => Some([s[0]] + rest)
      case None => None
  }

  lemma {:induction false} ReplaceAppend(s: string, t: string, c: char, sub: string)
    ensures Replace(s + t, c, sub) == Replace(s, c, sub) + Replace(t, c, sub)
  {
    if s == "" {
      assert s + t == t;
    } else {
      assert (s + t)[1..] == s[1..] + t;
      ReplaceAppend(s[1..], t, c, sub);
    }
  }

  function Escaped(value: string): string {
    Replace(Replace(value, BACKSLASH, [BACKSLASH, BACKSLASH]), QUOTE, [BACKSLASH, QUOTE])
  }

  /** Both replacements together treat the first character on its own. */
  lemma EscapedStep(value: string)
    requires value != ""
    ensures Escaped(value) ==
            (if value[0] == BACKSLASH || value[0] == QUOTE then [BACKSLASH, value[0]] else [value[0]])
            + Escaped(value[1..])
  {
    var head := if value[0] == BACKSLASH then [BACKSLASH, BACKSLASH] else [value[0]];
    var tail := Replace(value[1..], BACKSLASH, [BACKSLASH, BACKSLASH]);
    ReplaceAppend(head, tail, QUOTE, [BACKSLASH, QUOTE]);
    if value[0] == BACKSLASH {
      assert head[1..] == [BACKSLASH];
      assert Replace([BACKSLASH], QUOTE, [BACKSLASH, QUOTE]) == [BACKSLASH];
      assert Replace(head, QUOTE, [BACKSLASH, QUOTE]) == [BACKSLASH, BACKSLASH];
    } else {
      assert head[1..] == "";
    }
  }

  lemma {:induction false} UnescapeUndoesEscaped(value: string)
    ensures Unescape(Escaped(value)) == Some(value)
  {
    if value == "" {
    } else {
      EscapedStep(value);
      UnescapeUndoesEscaped(value[1..]);
      var rest := Escaped(value[1..]);
      assert ([BACKSLASH, value[0]] + rest)[2..] == rest;
      assert ([value[0]] + rest)[1..] == rest;
      assert [value[0]] + value[1..] == value;
    }
  }

  /** The quoted argument reads back as the value, so no quote inside it is
      unescaped and the closing quote is not swallowed by an escape. */
  lemma QuotedArgumentReadsBack(value: string)
    ensures var q := QuoteRconArg(value);
            |q| >= 2 && q[0] == QUOTE && q[|q| - 1] == QUOTE && Unescape(Inner(q)) == Some(value)
  {
    var q := QuoteRconArg(value);
    assert Inner(q) == Escaped(value);
    UnescapeUndoesEscaped(value);
  }

  lemma QuoteRconArgIsInjective(a: string, b: string)
    requires QuoteRconArg(a) == QuoteRconArg(b)
    ensures a == b
  {
    QuotedArgumentReadsBack(a);
    QuotedArgumentReadsBack(b);
  }

  /** The position of a quote is escaped when an odd run of backslashes ends
      just before it. */
  function BackslashesBefore(s: string, i: nat): nat
    requires i <= |s|
  {
    if i == 0 || s[i - 1] != BACKSLASH then 0 else 1 + BackslashesBefore(s, i - 1)
  }

  /** In text that can be unescaped, every quote has an odd run of backslashes
      before it, and the text ends in an even run. */
  lemma {:induction false} UnescapableHasNoBareQuote(s: string, i: nat)
    requires Unescape(s).Some? && i <= |s|
    ensures i < |s| && s[i] == QUOTE ==> BackslashesBefore(s, i) % 2 == 1
    ensures i == |s| ==> BackslashesBefore(s, i) % 2 == 0
    decreases |s|
  {
    if s == "" {
    } else {
      var k := if s[0] == BACKSLASH then 2 else 1;
      if i >= k {
        UnescapableHasNoBareQuote(s[k..], i - k);
        BackslashRunShift(s, k, i);
      }
    }
  }

  /** A run of backslashes seen past position k has the same parity when the
      text before k is one whole unit: a plain character or an escape pair. */
  lemma {:induction false} BackslashRunShift(s: string, k: nat, i: nat)
    requires k <= i <= |s|
    requires (k == 1 && s[0] != BACKSLASH) || (k == 2 && s[0] == BACKSLASH)
    ensures BackslashesBefore(s, i) % 2 == BackslashesBefore(s[k..], i - k) % 2
    decreases i
  {
    if i > k {
      assert s[k..][i - k - 1] == s[i - 1];
      BackslashRunShift(s, k, i - 1);
    } else if k == 2 {
      assert BackslashesBefore(s, 1) == 1;
    }
  }

  /** The inner text of a quoted argument has no unescaped quote. */
  lemma NoUnescapedInnerQuote(value: string, i: nat)
    requires i < |Inner(QuoteRconArg(value))| && Inner(QuoteRconArg(value))[i] == QUOTE
    ensures BackslashesBefore(Inner(QuoteRconArg(value)), i) % 2 == 1
  {
    QuotedArgumentReadsBack(value);
    UnescapableHasNoBareQuote(Inner(QuoteRconArg(value)), i);
  }
}
