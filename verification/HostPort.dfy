/** Splitting the host token of a `Bad rcon from` line
    (internal/antivpn/rconguard.go). */
module HostPort {
  import opened Text

  // ----- decimal numbers ---------------------------------------------------

  predicate IsDigit(c: char) { '0' <= c <= '9' }

  predicate AllDigits(s: string) {
    s != "" && forall c :: c in s ==> IsDigit(c)
  }

  function DigitsValue(s: string): (n: int)
    requires forall c :: c in s ==> IsDigit(c)
    ensures n >= 0
  {
    if s == "" then 0
    else
      assert IsDigit(s[|s| - 1]);
      10 * DigitsValue(s[..|s| - 1]) + (s[|s| - 1] as int - '0' as int)
  }

  /** strconv.Atoi without its range error: callers reject big numbers anyway. */
  function Atoi(s: string): Option<int> {
    if AllDigits(s) then Some(DigitsValue(s))
    else if s != "" && s[0] == '+' && AllDigits(s[1..]) then Some(DigitsValue(s[1..]))
    else if s != "" && s[0] == '-' && AllDigits(s[1..]) then Some(-DigitsValue(s[1..]))
    else None
  }

  /** Atoi reads digits, with a plus or without, and a minus before them. */
  lemma AtoiExactly(s: string, n: int)
    ensures Atoi(s) == Some(n) <==>
            || (AllDigits(s) && n == DigitsValue(s))
            || (exists d: string :: AllDigits(d) && s == "+" + d && n == DigitsValue(d))
            || (exists d: string :: AllDigits(d) && s == "-" + d && n == -DigitsValue(d))
  {
    if s != "" {
      assert s == [s[0]] + s[1..];
    }
    forall d: string | AllDigits(d) && (s == "+" + d || s == "-" + d)
      ensures s[1..] == d && !AllDigits(s)
    {
      assert s[0] in s;
    }
  }

  function PrintNat(n: nat): (s: string)
    ensures AllDigits(s) && (|s| > 1 ==> s[0] != '0')
  {
    var d := ['0' + (n % 10) as char];
    if n < 10 then d else PrintNat(n / 10) + d
  }

  lemma {:induction false} AtoiUndoesPrint(n: nat)
    ensures Atoi(PrintNat(n)) == Some(n)
  {
    DigitsValueUndoesPrint(n);
  }

  lemma {:induction false} DigitsValueUndoesPrint(n: nat)
    ensures DigitsValue(PrintNat(n)) == n
  {
    var s := PrintNat(n);
    if n < 10 {
    } else {
      DigitsValueUndoesPrint(n / 10);
      assert s[..|s| - 1] == PrintNat(n / 10);
    }
  }

  // ----- the splitter -------------------------------------------------------

  function Count(s: string, c: char): (n: nat)
    ensures n == 0 <==> c !in s
  {
    if s == "" then 0
    else
      assert s == [s[0]] + s[1..];
      (if s[0] == c then 1 else 0) + Count(s[1..], c)
  }

  lemma {:induction false} CountAppend(s: string, t: string, c: char)
    ensures Count(s + t, c) == Count(s, c) + Count(t, c)
  {
    if s == "" {
      assert s + t == t;
    } else {
      assert (s + t)[1..] == s[1..] + t;
      CountAppend(s[1..], t, c);
    }
  }

  predicate IsBracket(c: char) { c == '[' || c == ']' }

  /** strings.Trim(s, "[]") */
  function TrimBrackets(s: string): (r: string)
    ensures r != "" ==> r[0] !in "[]" && r[|r| - 1] !in "[]"
    ensures s != "" && s[0] !in "[]" && s[|s| - 1] !in "[]" ==> r == s
  {
    if s == "" then s
    else if IsBracket(s[0]) then TrimBrackets(s[1..])
    else if IsBracket(s[|s| - 1]) then TrimBrackets(s[..|s| - 1])
    else s
  }

  function ParsePort(text: string): Option<int> {
    match Atoi(text)
    case Some(port) => if 0 < port <= 65535 then Some(port) else None
    case None => None
  }

  function SplitBadRconHostPort(raw: string): (string, int) {
    var token := TrimSpace(raw);
    if token == "" then ("", 0)
    else if token[0] == '[' then SplitBracketed(token)
    else SplitPlain(token)
  }

  function SplitBracketed(token: string): (string, int)
    requires token != "" && token[0] == '['
  {
    var closing := IndexOf(token, ']');
    if closing == -1 then (TrimBrackets(token), 0)
    else
      var host := token[1..closing];
      var rest := token[closing + 1..];
      if rest != "" && rest[0] == ':' then
        match ParsePort(rest[1..])
        case Some(port) => (host, port)
        case None => (host, 0)
      else (host, 0)
  }

  function SplitPlain(token: string): (string, int) {
    if Count(token, ':') == 1 then
      var cut := IndexOf(token, ':');
      match ParsePort(token[cut + 1..])
      case Some(port) => (token[..cut], port)
      case None => (token, 0)
    else (token, 0)
  }

  // ----- splitting undoes printing ------------------------------------------

  lemma PortTextIsSolid(port: int)
    requires 1 <= port <= 65535
    ensures ParsePort(PrintNat(port)) == Some(port)
    ensures forall c :: c in PrintNat(port) ==> !IsSpace(c) && c != ':'
    ensures PrintNat(port) != ""
  {
    AtoiUndoesPrint(port);
  }

  lemma PrintedTokenIsTrimmed(front: string, digits: string)
    requires AllDigits(digits)
    requires front != "" && !IsSpace(front[0])
    ensures Trimmed(front + digits)
  {
    assert digits[|digits| - 1] in digits;
  }

  lemma SplitPlainUndoesPrint(host: string, text: string, port: int)
    requires ':' !in host && ':' !in text && ParsePort(text) == Some(port)
    ensures SplitPlain(host + [':'] + text) == (host, port)
  {
    var token := host + [':'] + text;
    CountAppend(host + [':'], text, ':');
    CountAppend(host, [':'], ':');
    IndexOfFirst(host, ':', text);
    assert token[|host| + 1..] == text;
    assert token[..|host|] == host;
  }

  lemma SplitBracketedUndoesPrint(host: string, text: string, port: int)
    requires ']' !in host && ParsePort(text) == Some(port)
    ensures SplitBracketed(['['] + host + [']'] + ([':'] + text)) == (host, port)
  {
    var token := ['['] + host + [']'] + ([':'] + text);
    IndexOfFirst(['['] + host, ']', [':'] + text);
    assert token[1..|host| + 1] == host;
    assert token[|host| + 2..] == [':'] + text;
    assert ([':'] + text)[1..] == text;
  }

  /** host:port for every colon-free host that does not open with a bracket or
      with white space. */
  lemma SplitUndoesPlainPrint(host: string, port: int)
    requires ':' !in host
    requires host == "" || (host[0] != '[' && !IsSpace(host[0]))
    requires 1 <= port <= 65535
    ensures SplitBadRconHostPort(host + ":" + PrintNat(port)) == (host, port)
  {
    PortTextIsSolid(port);
    PrintedTokenIsTrimmed(host + ":", PrintNat(port));
    SplitPlainUndoesPrint(host, PrintNat(port), port);
  }

  /** [literal]:port for every literal without a closing bracket; the IP-literal
      of section 3.2.2 of RFC 3986 has none. */
  lemma SplitUndoesBracketedPrint(host: string, port: int)
    requires ']' !in host
    requires 1 <= port <= 65535
    ensures SplitBadRconHostPort("[" + host + "]:" + PrintNat(port)) == (host, port)
  {
    PortTextIsSolid(port);
    PrintedTokenIsTrimmed("[" + host + "]:", PrintNat(port));
    SplitBracketedUndoesPrint(host, PrintNat(port), port);
    assert "[" + host + "]:" + PrintNat(port) == ['['] + host + [']'] + ([':'] + PrintNat(port));
  }

  /** A token that is not bracketed and has no single colon is the host itself,
      so a bare IPv6 literal is never cut. */
  lemma SplitKeepsBareHost(host: string)
    requires host != "" && Trimmed(host) && host[0] != '[' && Count(host, ':') != 1
    ensures SplitBadRconHostPort(host) == (host, 0)
  {
  }

  /** Without a closing bracket the brackets at both ends go, and there is no port. */
  lemma UnclosedBracketIsDropped(host: string)
    requires host != "" && host[0] != '[' && host[|host| - 1] != '[' && ']' !in host && !IsSpace(host[|host| - 1])
    ensures SplitBadRconHostPort("[" + host) == (host, 0)
  {
    assert Trimmed("[" + host);
    assert host[0] in host && host[|host| - 1] in host;
    assert ("[" + host)[1..] == host;
    assert forall c :: c in "[" + host ==> c == '[' || c in host;
  }

  /** Behind a closing bracket anything but a colon and a port is ignored. */
  lemma BracketedWithoutPort(host: string, rest: string)
    requires ']' !in host && Trimmed("[" + host + "]" + rest)
    requires !(rest != "" && rest[0] == ':' && ParsePort(rest[1..]).Some?)
    ensures SplitBadRconHostPort("[" + host + "]" + rest) == (host, 0)
  {
    var token := "[" + host + "]" + rest;
    IndexOfFirst("[" + host, ']', rest);
    assert token == ("[" + host) + [']'] + rest;
    assert token[1..|host| + 1] == host && token[|host| + 2..] == rest;
  }

  /** With one colon and no port behind it the token is the host. */
  lemma PlainWithoutPort(host: string, text: string)
    requires ':' !in host && ':' !in text && ParsePort(text).None?
    requires Trimmed(host + ":" + text) && (host == "" || host[0] != '[')
    ensures SplitBadRconHostPort(host + ":" + text) == (host + ":" + text, 0)
  {
    var token := host + ":" + text;
    IndexOfFirst(host, ':', text);
    assert token == host + [':'] + text && token[|host| + 1..] == text;
    CountAppend(host + ":", text, ':');
    CountAppend(host, ":", ':');
  }

  /** A port is a number from 1 to 65535 in digits, perhaps behind a plus. */
  lemma PortExactly(text: string, port: int)
    ensures ParsePort(text) == Some(port) <==>
            && 1 <= port <= 65535
            && ((AllDigits(text) && port == DigitsValue(text))
                || exists d: string :: AllDigits(d) && text == "+" + d && port == DigitsValue(d))
  {
    AtoiExactly(text, port);
  }

  ghost predicate PrintedShape(token: string, host: string, text: string) {
    token == "[" + host + "]:" + text || token == host + ":" + text
  }

  /** Conversely a nonzero port is only ever read from one of the two printed
      shapes, and is in range. */
  lemma PortComesFromAPrintedShape(raw: string)
    requires SplitBadRconHostPort(raw).1 != 0
    ensures 1 <= SplitBadRconHostPort(raw).1 <= 65535
    ensures exists text: string ::
              ParsePort(text) == Some(SplitBadRconHostPort(raw).1)
              && PrintedShape(TrimSpace(raw), SplitBadRconHostPort(raw).0, text)
  {
    var token := TrimSpace(raw);
    if token[0] == '[' {
      BracketedPortShape(token);
    } else {
      PlainPortShape(token);
    }
  }

  lemma BracketedPortShape(token: string)
    requires token != "" && token[0] == '[' && SplitBracketed(token).1 != 0
    ensures exists text: string ::
              ParsePort(text) == Some(SplitBracketed(token).1) && PrintedShape(token, SplitBracketed(token).0, text)
  {
    var closing := IndexOf(token, ']');
    var text := token[closing + 1..][1..];
    assert text == token[closing + 2..];
    assert token[closing + 1..][0] == token[closing + 1];
    assert token == "[" + token[1..closing] + "]:" + text;
    assert PrintedShape(token, token[1..closing], text);
  }

  lemma PlainPortShape(token: string)
    requires SplitPlain(token).1 != 0
    ensures exists text: string ::
              ParsePort(text) == Some(SplitPlain(token).1) && PrintedShape(token, SplitPlain(token).0, text)
  {
    var cut := IndexOf(token, ':');
    assert token == token[..cut] + ":" + token[cut + 1..];
    assert PrintedShape(token, token[..cut], token[cut + 1..]);
  }
}
