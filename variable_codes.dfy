/**
 * The composite variable code `code::unitsid-medium`: the key that the
 * Variable mapper and the data-value grouping build, and the splitter that
 * reads a requested variable code back into its filters.
 */
module VariableCodes {
  import opened Wrappers
  import opened Decimal

  /** A text that contains neither separator character, so it survives a split. */
  predicate Plain(s: string) {
    forall i :: 0 <= i < |s| ==> s[i] != ':' && s[i] != '-'
  }

  /** True when a separator (`::` or `-`) starts at the front of `s`. */
  predicate StartsWithSeparator(s: string) {
    (|s| >= 2 && s[0] == ':' && s[1] == ':') || (|s| >= 1 && s[0] == '-')
  }

  /**
   * `re.split('::|-', s)`: the pieces between the leftmost non-overlapping
   * matches of `::` or `-`, scanning from the left.
   */
  function SplitCode(s: string): (items: seq<string>)
    ensures |items| >= 1
    decreases |s|
  {
    if s == [] then [""]
    else if |s| >= 2 && s[0] == ':' && s[1] == ':' then [""] + SplitCode(s[2..])
    else if s[0] == '-' then [""] + SplitCode(s[1..])
    else
      var rest := SplitCode(s[1..]);
      [[s[0]] + rest[0]] + rest[1..]
  }

  /** The `(var_code, unitid, samplemedium)` triple of `get_variable_params`. */
  datatype VariableParams = VariableParams(code: string, unitId: Option<string>, sampleMedium: Option<string>)

  /**
   * `get_variable_params`: one, two or three pieces fill the code, the unit id
   * and the sample medium by position; four or more leave the code unsplit and
   * set no unit and no medium.
   */
  function GetVariableParams(varCode: string): (p: VariableParams)
    ensures var items := SplitCode(varCode);
            (|items| <= 3 ==> p.code == items[0]) && (|items| > 3 ==> p.code == varCode)
    ensures var items := SplitCode(varCode);
            (p.unitId.Some? <==> |items| == 2 || |items| == 3) && (p.unitId.Some? ==> p.unitId.value == items[1])
    ensures var items := SplitCode(varCode);
            (p.sampleMedium.Some? <==> |items| == 3) && (p.sampleMedium.Some? ==> p.sampleMedium.value == items[2])
  {
    var items := SplitCode(varCode);
    if |items| == 1 then VariableParams(items[0], None, None)
    else if |items| == 2 then VariableParams(items[0], Some(items[1]), None)
    else if |items| == 3 then VariableParams(items[0], Some(items[1]), Some(items[2]))
    else VariableParams(varCode, None, None)
  }

  /** `'%s::%s-%s' % (code, unitsId, medium)`. */
  function VariableKey(code: string, unitsId: int, medium: string): (k: string)
    ensures |k| == |code| + 2 + |IntToDecimal(unitsId)| + 1 + |medium|
    ensures code + "::" <= k
  {
    code + "::" + IntToDecimal(unitsId) + "-" + medium
  }

  /** A plain text is a single piece. */
  lemma {:induction false} SplitPlain(a: string)
    requires Plain(a)
    ensures SplitCode(a) == [a]
  {
    if a != [] {
      SplitPlain(a[1..]);
      assert [a[0]] + a[1..] == a;
    }
  }

  /** A `::` after a plain text ends the first piece. */
  lemma {:induction false} SplitPlainThenColons(a: string, rest: string)
    requires Plain(a)
    ensures SplitCode(a + "::" + rest) == [a] + SplitCode(rest)
  {
    var s := a + "::" + rest;
    if a == [] {
      assert s == "::" + rest && s[2..] == rest;
    } else {
      SplitPlainThenColons(a[1..], rest);
      assert s[0] == a[0] && s[1..] == a[1..] + "::" + rest;
      assert [a[0]] + a[1..] == a;
    }
  }

  /** A `-` after a plain text ends the first piece. */
  lemma {:induction false} SplitPlainThenDash(a: string, rest: string)
    requires Plain(a)
    ensures SplitCode(a + "-" + rest) == [a] + SplitCode(rest)
  {
    var s := a + "-" + rest;
    if a == [] {
      assert s == "-" + rest && s[1..] == rest;
    } else {
      SplitPlainThenDash(a[1..], rest);
      assert s[0] == a[0] && s[1..] == a[1..] + "-" + rest;
      assert [a[0]] + a[1..] == a;
    }
  }

  /** No piece of a split contains `-` or a `::` pair. */
  lemma {:induction false} SplitPiecesHaveNoSeparator(s: string, j: nat, k: nat)
    requires j < |SplitCode(s)| && k < |SplitCode(s)[j]|
    ensures !StartsWithSeparator(SplitCode(s)[j][k..])
    decreases |s|
  {
    if s == [] {
    } else if |s| >= 2 && s[0] == ':' && s[1] == ':' {
      SplitPiecesHaveNoSeparator(s[2..], j - 1, k);
    } else if s[0] == '-' {
      SplitPiecesHaveNoSeparator(s[1..], j - 1, k);
    } else {
      var rest := SplitCode(s[1..]);
      if j > 0 {
        SplitPiecesHaveNoSeparator(s[1..], j, k);
      } else if k > 0 {
        assert SplitCode(s)[0][k..] == rest[0][k - 1..];
        SplitPiecesHaveNoSeparator(s[1..], 0, k - 1);
      } else if |rest[0]| > 0 {
        SplitPiecesHaveNoSeparator(s[1..], 0, 0);
      }
    }
  }

  /** A code without separators is returned as it is, with no unit and no medium. */
  lemma PlainCodeHasNoFilters(code: string)
    requires Plain(code)
    ensures GetVariableParams(code) == VariableParams(code, None, None)
  {
    SplitPlain(code);
  }

  /** `code::unitid` (or `code-unitid`) sets the unit filter only. */
  lemma CodeAndUnitParams(code: string, unitId: string)
    requires Plain(code) && Plain(unitId)
    ensures GetVariableParams(code + "::" + unitId) == VariableParams(code, Some(unitId), None)
    ensures GetVariableParams(code + "-" + unitId) == VariableParams(code, Some(unitId), None)
  {
    SplitPlainThenColons(code, unitId);
    SplitPlainThenDash(code, unitId);
    SplitPlain(unitId);
  }

  /**
   * Round trip: the composite key built from a code, a non-negative units id
   * and a medium without separators splits back into exactly those three.
   */
  lemma KeyRoundTrip(code: string, unitsId: int, medium: string)
    requires Plain(code) && Plain(medium) && unitsId >= 0
    ensures GetVariableParams(VariableKey(code, unitsId, medium))
         == VariableParams(code, Some(IntToDecimal(unitsId)), Some(medium))
  {
    var u := IntToDecimal(unitsId);
    assert Plain(u);
    assert VariableKey(code, unitsId, medium) == code + "::" + (u + "-" + medium);
    SplitPlainThenColons(code, u + "-" + medium);
    SplitPlainThenDash(u, medium);
    SplitPlain(medium);
  }

  /** Distinct (code, units id, medium) triples give distinct keys. */
  lemma KeyInjective(code1: string, unitsId1: int, medium1: string, code2: string, unitsId2: int, medium2: string)
    requires Plain(code1) && Plain(medium1) && unitsId1 >= 0
    requires Plain(code2) && Plain(medium2) && unitsId2 >= 0
    requires VariableKey(code1, unitsId1, medium1) == VariableKey(code2, unitsId2, medium2)
    ensures code1 == code2 && unitsId1 == unitsId2 && medium1 == medium2
  {
    KeyRoundTrip(code1, unitsId1, medium1);
    KeyRoundTrip(code2, unitsId2, medium2);
    ParseIntOfDecimal(unitsId1);
    ParseIntOfDecimal(unitsId2);
  }

  /**
   * Four or more pieces: the requested code is kept whole and no unit or
   * medium filter is set, as happens to the key of a variable whose own code
   * contains a `-`.
   */
  lemma ManyPiecesKeepCodeWhole(a: string, b: string, c: string, d: string)
    requires Plain(a) && Plain(b) && Plain(c) && Plain(d)
    ensures GetVariableParams(a + "-" + b + "::" + c + "-" + d)
         == VariableParams(a + "-" + b + "::" + c + "-" + d, None, None)
  {
    var s := a + "-" + b + "::" + c + "-" + d;
    assert s == a + "-" + (b + "::" + (c + "-" + d));
    SplitPlainThenDash(a, b + "::" + (c + "-" + d));
    SplitPlainThenColons(b, c + "-" + d);
    SplitPlainThenDash(c, d);
    SplitPlain(d);
  }
}
