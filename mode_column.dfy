/**
 * The "Activity Mode N" column of a timeline's CSV export: for the
 * `index`-th mode of an activity, the CSV text of that mode (looked up by
 * its id in `idMap`), or the empty string when the activity has fewer
 * modes.
 */
module ModeColumn {
  import opened Base

  const NamePrefix := "Activity Mode "

  /** The decimal digit of `d`. */
  function Digit(d: int): (c: char)
    requires 0 <= d < 10
    ensures '0' <= c <= '9'
  {
    (('0' as int) + d) as char
  }

  /** The value of a decimal digit character. */
  function DigitValue(c: char): (d: int)
    requires '0' <= c <= '9'
    ensures 0 <= d < 10 && Digit(d) == c
  {
    (c as int) - ('0' as int)
  }

  /** `n` written in decimal, as string concatenation renders a non-negative integer. */
  function Decimal(n: nat): (s: string)
    ensures s != [] && forall i :: 0 <= i < |s| ==> '0' <= s[i] <= '9'
    ensures |s| > 1 ==> s[0] != '0'
  {
    if n < 10 then [Digit(n)] else Decimal(n / 10) + [Digit(n % 10)]
  }

  /** The number a string of decimal digits denotes. */
  function DecimalValue(s: string): nat
    requires forall i :: 0 <= i < |s| ==> '0' <= s[i] <= '9'
  {
    if s == [] then 0 else DecimalValue(s[..|s| - 1]) * 10 + DigitValue(s[|s| - 1])
  }

  /** Appending a digit multiplies the value by ten and adds the digit. */
  lemma DecimalValueAppend(s: string, c: char)
    requires forall i :: 0 <= i < |s| ==> '0' <= s[i] <= '9'
    requires '0' <= c <= '9'
    ensures DecimalValue(s + [c]) == DecimalValue(s) * 10 + DigitValue(c)
  {
    assert (s + [c])[..|s|] == s;
  }

  /** Reading back the decimal text of `n` gives `n`. */
  lemma {:induction false} DecimalRoundTrip(n: nat)
    ensures DecimalValue(Decimal(n)) == n
  {
    if n >= 10 {
      DecimalRoundTrip(n / 10);
      DecimalValueAppend(Decimal(n / 10), Digit(n % 10));
    } else {
      assert DigitValue(Digit(n)) == n;
    }
  }

  /** Different columns have different names. */
  lemma NamesAreDistinct(i: nat, j: nat)
    requires i != j
    ensures Name(i) != Name(j)
  {
    var a, b := Name(i), Name(j);
    assert a[|NamePrefix|..] == Decimal(i + 1);
    assert b[|NamePrefix|..] == Decimal(j + 1);
    DecimalRoundTrip(i + 1);
    DecimalRoundTrip(j + 1);
  }

  /** `name()`: the prefix followed by the one-based column number. */
  function Name(index: nat): (r: string)
    ensures |r| > |NamePrefix| && r[..|NamePrefix|] == NamePrefix
    ensures forall i :: |NamePrefix| <= i < |r| ==> '0' <= r[i] <= '9'
    ensures DecimalValue(r[|NamePrefix|..]) == index + 1
    ensures |r| > |NamePrefix| + 1 ==> r[|NamePrefix|] != '0'
  {
    var r := NamePrefix + Decimal(index + 1);
    assert r[|NamePrefix|..] == Decimal(index + 1);
    DecimalRoundTrip(index + 1);
    r
  }

  /** An activity model's `relationships`, as far as its `modes` go; None stands for a missing entry. */
  datatype Relationships = Relationships(modes: Option<seq<string>>)

  /** The activity's modes: `(relationships || {}).modes || []`. */
  function Modes(relationships: Option<Relationships>): (r: seq<string>)
    ensures relationships.Some? && relationships.value.modes.Some? ==> r == relationships.value.modes.value
    ensures relationships.None? || relationships.value.modes.None? ==> r == []
  {
    match relationships
    case None => []
    case Some(rel) => rel.modes.GetOr([])
  }

  /**
   * `value(domainObject)`: the `idMap` entry of the `index`-th mode, None
   * (undefined) when the map has no entry for it, or "" when there are
   * not that many modes.
   */
  function Value(index: nat, idMap: map<string, string>, relationships: Option<Relationships>): (r: Option<string>)
    ensures index < |Modes(relationships)| ==>
      (r.Some? <==> Modes(relationships)[index] in idMap)
      && (r.Some? ==> r.value == idMap[Modes(relationships)[index]])
    ensures index >= |Modes(relationships)| ==> r == Some("")
  {
    var modes := Modes(relationships);
    if |modes| > index then
      if modes[index] in idMap then Some(idMap[modes[index]]) else None
    else Some("")
  }
}
