/** The infostring lookup of internal/antivpn/supervisor.go: a userinfo line is
    a chain of keys and values separated by backslashes. */
module Userinfo {
  import opened Text

  const SEP := '\\'

  // ----- an independent reading of a line: its fields ---------------------

  function Fields(s: string): (r: seq<string>)
    ensures |r| >= 1
    decreases |s|
  {
    var i := IndexOf(s, SEP);
    if i == -1 then [s] else [s[..i]] + Fields(s[i + 1..])
  }

  function Join(fields: seq<string>): string {
    if fields == [] then ""
    else if |fields| == 1 then fields[0]
    else fields[0] + [SEP] + Join(fields[1..])
  }

  predicate SepFree(fields: seq<string>) {
    forall f :: f in fields ==> SEP !in f
  }

  /** The fields of a line are separator-free and join back to the line. */
  lemma {:induction false} FieldsSplitTheLine(s: string)
    ensures Join(Fields(s)) == s && SepFree(Fields(s))
    decreases |s|
  {
    var i := IndexOf(s, SEP);
    if i == -1 {
    } else {
      FieldsSplitTheLine(s[i + 1..]);
      assert Fields(s)[1..] == Fields(s[i + 1..]);
      assert s == s[..i] + [SEP] + s[i + 1..];
    }
  }

  /** Splitting undoes joining. */
  lemma {:induction false} FieldsOfJoin(fields: seq<string>)
    requires fields != [] && SepFree(fields)
    ensures Fields(Join(fields)) == fields
  {
    assert fields[0] in fields;
    if |fields| == 1 {
      assert fields == [fields[0]];
    } else {
      var rest := Join(fields[1..]);
      IndexOfFirst(fields[0], SEP, rest);
      var s := fields[0] + [SEP] + rest;
      assert s == Join(fields);
      assert s[..|fields[0]|] == fields[0];
      assert s[|fields[0]| + 1..] == rest;
      FieldsOfJoin(fields[1..]);
      assert fields == [fields[0]] + fields[1..];
    }
  }

  /** Fields read in pairs: the value after the first even field equal to key. */
  function ValueOf(fields: seq<string>, key: string): string {
    if |fields| < 2 then ""
    else if fields[0] == key then fields[1]
    else ValueOf(fields[2..], key)
  }

  function DropLeadingSep(s: string): string {
    if s != "" && s[0] == SEP then s[1..] else s
  }

  function Lookup(line: string, key: string): string {
    if key == "" then "" else ValueOf(Fields(DropLeadingSep(TrimSpace(line))), key)
  }

  lemma ValueOfPair(k: string, v: string, rest: seq<string>, key: string)
    ensures ValueOf([k, v] + rest, key) == if k == key then v else ValueOf(rest, key)
  {
    assert ([k, v] + rest)[2..] == rest;
  }

  /** A last field that is a key or a key's value. */
  lemma ValueOfLast(s: string, keyEnd: nat, key: string)
    requires IndexOf(s, SEP) == keyEnd && IndexOf(s[keyEnd + 1..], SEP) == -1
    ensures ValueOf(Fields(s), key) == if s[..keyEnd] == key then s[keyEnd + 1..] else ""
  {
    ValueOfPair(s[..keyEnd], s[keyEnd + 1..], [], key);
    assert [s[..keyEnd]] + [s[keyEnd + 1..]] == [s[..keyEnd], s[keyEnd + 1..]] + [];
  }

  /** A key and its value read off the front of a line. */
  lemma ValueOfStep(s: string, keyEnd: nat, rest: string, valueEnd: nat, key: string)
    requires IndexOf(s, SEP) == keyEnd && rest == s[keyEnd + 1..]
    requires IndexOf(rest, SEP) == valueEnd
    ensures ValueOf(Fields(s), key) ==
            if s[..keyEnd] == key then rest[..valueEnd] else ValueOf(Fields(rest[valueEnd + 1..]), key)
  {
    var k, v, more := s[..keyEnd], rest[..valueEnd], Fields(rest[valueEnd + 1..]);
    assert Fields(s) == [k] + ([v] + more);
    assert [k] + ([v] + more) == [k, v] + more;
    ValueOfPair(k, v, more, key);
  }

  // ----- the program's loop -----------------------------------------------

  method ExtractUserinfoValue(line: string, key: string) returns (value: string)
    ensures value == Lookup(line, key)
  {
    var trimmed := TrimSpace(line);
    if trimmed == "" || key == "" {
      return "";
    }
    var remaining := DropLeadingSep(trimmed);
    while remaining != ""
      invariant Lookup(line, key) == ValueOf(Fields(remaining), key)
      decreases |remaining|
    {
      var keyEnd := IndexOf(remaining, SEP);
      if keyEnd == -1 {
        return "";
      }
      var currentKey := remaining[..keyEnd];
      ghost var whole := remaining;
      remaining := remaining[keyEnd + 1..];

      var valueEnd := IndexOf(remaining, SEP);
      if valueEnd == -1 {
        ValueOfLast(whole, keyEnd, key);
        if currentKey == key {
          return remaining;
        }
        return "";
      }
      ValueOfStep(whole, keyEnd, remaining, valueEnd, key);
      if currentKey == key {
        return remaining[..valueEnd];
      }
      remaining := remaining[valueEnd + 1..];
    }
    return "";
  }

  // ----- printing and looking up ------------------------------------------

  type Pair = (string, string)

  function Flatten(pairs: seq<Pair>): (r: seq<string>)
    ensures |r| == 2 * |pairs|
  {
    if pairs == [] then [] else [pairs[0].0, pairs[0].1] + Flatten(pairs[1..])
  }

  /** The printed form, with or without the engine's leading backslash. */
  function Render(pairs: seq<Pair>, leading: bool): string {
    (if leading then [SEP] else "") + Join(Flatten(pairs))
  }

  function FirstBinding(pairs: seq<Pair>, key: string): string {
    if pairs == [] then ""
    else if pairs[0].0 == key then pairs[0].1
    else FirstBinding(pairs[1..], key)
  }

  lemma {:induction false} ValueOfFlatten(pairs: seq<Pair>, key: string)
    ensures ValueOf(Flatten(pairs), key) == FirstBinding(pairs, key)
  {
    if pairs == [] {
    } else {
      assert Flatten(pairs)[2..] == Flatten(pairs[1..]);
      ValueOfFlatten(pairs[1..], key);
    }
  }

  lemma {:induction false} FlattenSepFree(pairs: seq<Pair>)
    requires forall p :: p in pairs ==> SEP !in p.0 && SEP !in p.1
    ensures SepFree(Flatten(pairs))
  {
    if pairs == [] {
    } else {
      assert pairs[0] in pairs;
      FlattenSepFree(pairs[1..]);
    }
  }

  /** Looking a key up in a printed list gives the first value bound to it, for
      every list of backslash-free pairs whose print has no outer white space.
      Without the leading backslash the first key has to be nonempty. */
  lemma LookupUndoesRender(pairs: seq<Pair>, leading: bool, key: string)
    requires forall p :: p in pairs ==> SEP !in p.0 && SEP !in p.1
    requires Trimmed(Render(pairs, leading))
    requires leading || pairs == [] || pairs[0].0 != ""
    requires key != ""
    ensures Lookup(Render(pairs, leading), key) == FirstBinding(pairs, key)
  {
    var body := Join(Flatten(pairs));
    if pairs == [] {
      assert DropLeadingSep(Render(pairs, leading)) == "";
    } else {
      if leading {
        assert DropLeadingSep(Render(pairs, leading)) == body;
      } else {
        assert pairs[0] in pairs;
        assert body[0] == pairs[0].0[0];
        assert pairs[0].0[0] in pairs[0].0;
      }
      FlattenSepFree(pairs);
      FieldsOfJoin(Flatten(pairs));
      ValueOfFlatten(pairs, key);
    }
  }
}
