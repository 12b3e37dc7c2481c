/**
  Subcolumn discriminators. X subcolumns are numbered by `count()` (rendered with `str`),
  Y subcolumns either the same way or by `cycle()` over a fixed list of three labels,
  chosen by the table's `YFormat` attribute.
 */
module Naming {

  predicate IsDigit(c: char) {
    '0' <= c <= '9'
  }

  predicate AllDigits(s: string) {
    forall i :: 0 <= i < |s| ==> IsDigit(s[i])
  }

  function DigitChar(d: nat): (c: char)
    requires d < 10
    ensures IsDigit(c) && c as int - '0' as int == d
  {
    (d + '0' as int) as char
  }

  /** `str(n)` for a non-negative integer: its decimal digits, most significant first. */
  function NatToString(n: nat): (s: string)
    ensures |s| >= 1 && AllDigits(s)
    ensures n > 0 ==> s[0] != '0'
  {
    if n < 10 then [DigitChar(n)] else NatToString(n / 10) + [DigitChar(n % 10)]
  }

  /** Reads a string of decimal digits back as a number. */
  function ParseNat(s: string): nat
    requires AllDigits(s)
  {
    if s == [] then 0 else 10 * ParseNat(s[..|s| - 1]) + (s[|s| - 1] as int - '0' as int)
  }

  /** Reading back the rendering of a counter value gives that value. */
  lemma {:induction false} ParseNatToString(n: nat)
    ensures ParseNat(NatToString(n)) == n
  {
    var s := NatToString(n);
    if n < 10 {
      assert s[..0] == [];
    } else {
      assert s[..|s| - 1] == NatToString(n / 10);
      ParseNatToString(n / 10);
    }
  }

  /** Distinct counter values never render to the same discriminator. */
  lemma NatToStringInjective(a: nat, b: nat)
    requires NatToString(a) == NatToString(b)
    ensures a == b
  {
    ParseNatToString(a);
    ParseNatToString(b);
  }

  /** A source of subcolumn discriminators: an integer counter, or a cycle over three labels. */
  datatype Scheme = Counter | Cycle(labels: seq<string>)

  predicate WellFormed(scheme: Scheme) {
    scheme.Cycle? ==> |scheme.labels| == 3
  }

  /** The scheme `_parse_xy_table` chooses for Y subcolumns from `YFormat`. */
  function YScheme(yformat: string): (scheme: Scheme)
    ensures WellFormed(scheme)
  {
    if yformat == "SEN" then Cycle(["Mean", "SEM", "N"])
    else if yformat == "upper-lower-limits" then Cycle(["Mean", "Lower", "Upper"])
    else Counter
  }

  /** The k-th discriminator (counting from 0) that a scheme hands out. */
  function NameAt(scheme: Scheme, k: nat): string
    requires WellFormed(scheme)
  {
    match scheme
    case Counter => NatToString(k)
    case Cycle(labels) => labels[k % 3]
  }

  /** The k-th Y discriminator for each `YFormat`: the SEN triple, the limits triple,
      or the running number. */
  lemma YNames(yformat: string, k: nat)
    ensures yformat == "SEN" ==> NameAt(YScheme(yformat), k) == ["Mean", "SEM", "N"][k % 3]
    ensures yformat == "upper-lower-limits" ==>
              NameAt(YScheme(yformat), k) == ["Mean", "Lower", "Upper"][k % 3]
    ensures yformat != "SEN" && yformat != "upper-lower-limits" ==>
              NameAt(YScheme(yformat), k) == NatToString(k)
  {
  }

  /** The first three Y discriminators for the two label formats. */
  lemma FirstYNames()
    ensures [NameAt(YScheme("SEN"), 0), NameAt(YScheme("SEN"), 1), NameAt(YScheme("SEN"), 2)]
            == ["Mean", "SEM", "N"]
    ensures [NameAt(YScheme("upper-lower-limits"), 0), NameAt(YScheme("upper-lower-limits"), 1),
             NameAt(YScheme("upper-lower-limits"), 2)] == ["Mean", "Lower", "Upper"]
    ensures [NameAt(YScheme("other"), 0), NameAt(YScheme("other"), 1), NameAt(YScheme("other"), 2)]
            == ["0", "1", "2"]
  {
  }

  /** The discriminator generator of one table (the `count()` / `cycle()` iterator with the
      closure that calls `next` on it). `counter` is the next value `count()` yields,
      `position` the index of the label `cycle()` yields next; `issued` counts the calls. */
  class SubcolumnNamer {
    const scheme: Scheme
    var counter: nat
    var position: nat
    ghost var issued: nat

    ghost predicate Valid()
      reads this
    {
      && WellFormed(scheme)
      && (scheme.Counter? ==> counter == issued)
      && (scheme.Cycle? ==> position == issued % 3)
    }

    constructor (s: Scheme)
      requires WellFormed(s)
      ensures Valid() && scheme == s && issued == 0
    {
      scheme := s;
      counter := 0;
      position := 0;
      issued := 0;
    }

    /** Hands out the next discriminator: `str(next(counter))` or `next(labels)`. */
    method Next() returns (name: string)
      requires Valid()
      modifies this
      ensures Valid() && issued == old(issued) + 1
      ensures name == NameAt(scheme, old(issued))
    {
      match scheme {
        case Counter =>
          name := NatToString(counter);
          counter := counter + 1;
        case Cycle(labels) =>
          name := labels[position];
          position := if position + 1 == 3 then 0 else position + 1;
      }
      issued := issued + 1;
    }
  }

  /** Splitting a key at its last underscore: when both discriminators are digit strings,
      equal keys mean equal discriminators and equal column titles. */
  lemma KeySplit(t1: string, d1: string, t2: string, d2: string)
    requires AllDigits(d1) && AllDigits(d2)
    requires t1 + "_" + d1 == t2 + "_" + d2
    ensures d1 == d2 && t1 == t2
  {
    var k := t1 + "_" + d1;
    UnderscoreBeforeDigits(t1, d1);
    UnderscoreBeforeDigits(t2, d2);
    assert |t1| == |t2|;
    assert d1 == k[|t1| + 1..] == d2;
    assert t1 == k[..|t1|] == t2;
  }

  /** In `t + "_" + d` with `d` all digits, the last underscore is the one just before `d`. */
  lemma UnderscoreBeforeDigits(t: string, d: string)
    requires AllDigits(d)
    ensures (t + "_" + d)[|t|] == '_'
    ensures forall i :: |t| < i < |t + "_" + d| ==> (t + "_" + d)[i] != '_'
  {
    forall i | |t| < i < |t + "_" + d|
      ensures (t + "_" + d)[i] != '_'
    {
      assert (t + "_" + d)[i] == d[i - |t| - 1];
    }
  }

  /** Two counter-numbered keys are equal only when they carry the same number. */
  lemma CounterKeysDistinct(t1: string, i: nat, t2: string, j: nat)
    requires i != j
    ensures t1 + "_" + NameAt(Counter, i) != t2 + "_" + NameAt(Counter, j)
  {
    if t1 + "_" + NatToString(i) == t2 + "_" + NatToString(j) {
      KeySplit(t1, NatToString(i), t2, NatToString(j));
      NatToStringInjective(i, j);
    }
  }
}
