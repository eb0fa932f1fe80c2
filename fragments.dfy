/** The folder-name fragment of a combination: `name=level` for each factor, in
    combination order, separated by ", ". */
module Fragments {
  import opened Decimal
  import opened Experiments

  const SEPARATOR: string := ", "

  function Entry(v: Variation, level: int): string {
    v.name + "=" + DecimalString(level)
  }

  function Entries(vs: seq<Variation>, levels: seq<int>): (r: seq<string>)
    requires |vs| == |levels|
    ensures |r| == |vs|
    ensures forall i :: 0 <= i < |r| ==> r[i] == Entry(vs[i], levels[i])
  {
    seq(|vs|, i requires 0 <= i < |vs| => Entry(vs[i], levels[i]))
  }

  /** `parts` joined by the separator, built from the left as the source's loop does. */
  function Join(parts: seq<string>): string
  {
    if |parts| == 0 then ""
    else if |parts| == 1 then parts[0]
    else Join(parts[..|parts| - 1]) + SEPARATOR + parts[|parts| - 1]
  }

  function Fragment(vs: seq<Variation>, levels: seq<int>): string
    requires |vs| == |levels|
  {
    Join(Entries(vs, levels))
  }

  /** The loop of variateModelAndSimulate that appends to the fragment with `+=`. */
  method BuildFragment(variations: seq<Variation>, factorLevels: seq<int>) returns (s: string)
    requires |variations| == |factorLevels|
    ensures s == Fragment(variations, factorLevels)
  {
    ghost var parts := Entries(variations, factorLevels);
    s := "";
    for i := 0 to |factorLevels|
      invariant s == Built(parts, i)
    {
      BuiltStep(parts, i);
      s := s + Entry(variations[i], factorLevels[i]);
      if i + 1 < |factorLevels| {
        s := s + SEPARATOR;
      }
    }
    assert parts[..|factorLevels|] == parts;
  }

  /** What the loop has built after `i` of the parts: their join, and a separator when
      more parts follow. */
  ghost function Built(parts: seq<string>, i: nat): string
    requires i <= |parts|
  {
    Join(parts[..i]) + (if 0 < i < |parts| then SEPARATOR else "")
  }

  lemma BuiltStep(parts: seq<string>, i: nat)
    requires i < |parts|
    ensures i + 1 < |parts| ==> Built(parts, i) + parts[i] + SEPARATOR == Built(parts, i + 1)
    ensures i + 1 == |parts| ==> Built(parts, i) + parts[i] == Built(parts, i + 1)
  {
    JoinPrefix(parts, i);
  }

  lemma JoinPrefix(parts: seq<string>, i: nat)
    requires i < |parts|
    ensures Join(parts[..i + 1]) == if i == 0 then parts[0] else Join(parts[..i]) + SEPARATOR + parts[i]
  {
    assert parts[..i + 1][..i] == parts[..i];
  }

  lemma {:induction false} JoinFront(parts: seq<string>)
    requires |parts| >= 2
    ensures Join(parts) == parts[0] + SEPARATOR + Join(parts[1..])
    decreases |parts|
  {
    var n := |parts|;
    if n > 2 {
      JoinFront(parts[..n - 1]);
      assert parts[..n - 1][1..] == parts[1..][..n - 2];
      assert parts[..n - 1][0] == parts[0];
      assert parts[1..][n - 2] == parts[n - 1];
    } else {
      assert parts[1..] == [parts[1]];
      assert parts[..1] == [parts[0]];
    }
  }

  /** The fragment reflects factor order: it starts with the first factor's entry, and
      after one separator continues with the fragment of the remaining factors. */
  lemma FragmentFront(vs: seq<Variation>, levels: seq<int>)
    requires |vs| == |levels| && |vs| >= 1
    ensures |vs| == 1 ==> Fragment(vs, levels) == Entry(vs[0], levels[0])
    ensures |vs| >= 2 ==> Fragment(vs, levels)
                          == Entry(vs[0], levels[0]) + SEPARATOR + Fragment(vs[1..], levels[1..])
  {
    if |vs| >= 2 {
      JoinFront(Entries(vs, levels));
      assert Entries(vs, levels)[1..] == Entries(vs[1..], levels[1..]);
    }
  }

  /** A join ends with the end of its last part. */
  lemma JoinEnd(parts: seq<string>)
    requires |parts| > 0 && |parts[|parts| - 1]| > 0
    ensures |Join(parts)| > 0
    ensures Join(parts)[|Join(parts)| - 1] == parts[|parts| - 1][|parts[|parts| - 1]| - 1]
  {
    var n := |parts|;
    var last := parts[n - 1];
    var front := if n == 1 then "" else Join(parts[..n - 1]) + SEPARATOR;
    assert Join(parts) == front + last;
    assert (front + last)[|front| + |last| - 1] == last[|last| - 1];
  }

  /** A non-empty combination's fragment ends with a digit of the last level, so there is
      never a trailing separator; the empty combination's fragment is empty. */
  lemma FragmentEnds(vs: seq<Variation>, levels: seq<int>)
    requires |vs| == |levels|
    ensures |vs| == 0 <==> Fragment(vs, levels) == ""
    ensures |vs| > 0 ==> IsDigit(Fragment(vs, levels)[|Fragment(vs, levels)| - 1])
  {
    var parts := Entries(vs, levels);
    var n := |vs|;
    if n > 0 {
      var last := DecimalString(levels[n - 1]);
      DecimalStringEndsWithDigit(levels[n - 1]);
      var entry := parts[n - 1];
      assert entry == (vs[n - 1].name + "=") + last;
      assert entry[|entry| - 1] == last[|last| - 1];
      JoinEnd(parts);
    }
  }

  /** A level's decimal text never contains the separator's comma. */
  lemma DecimalStringHasNoComma(level: int)
    ensures ',' !in DecimalString(level)
  {
    var d := DecimalString(level);
    if level < 0 {
      var t := NatString(-level);
      forall i | 0 <= i < |d| ensures d[i] != ',' {
        if i > 0 {
          assert d[i] == t[i - 1];
        }
      }
    }
  }

  /** Two texts without a comma, each followed by the separator, split the same way. */
  lemma SplitAtSeparator(d1: string, d2: string, r1: string, r2: string)
    requires ',' !in d1 && ',' !in d2
    requires d1 + SEPARATOR + r1 == d2 + SEPARATOR + r2
    ensures d1 == d2 && r1 == r2
  {
    var s := d1 + SEPARATOR + r1;
    assert s[|d1|] == ',' && s[|d2|] == ',';
    assert |d1| == |d2|;
    assert d1 == s[..|d1|] == d2;
    assert r1 == s[|d1| + 2..] == r2;
  }

  /** A factor's entry determines its level. */
  lemma EntryInjective(v: Variation, a: int, b: int)
    requires Entry(v, a) == Entry(v, b)
    ensures a == b
  {
    var n := |v.name| + 1;
    assert Entry(v, a)[n..] == DecimalString(a);
    assert Entry(v, b)[n..] == DecimalString(b);
    DecimalStringInjective(a, b);
  }

  /** Distinct level combinations of the same factors get distinct folder fragments, so
      no combination's folder is another's. */
  lemma {:induction false} FragmentInjective(vs: seq<Variation>, a: seq<int>, b: seq<int>)
    requires |vs| == |a| == |b|
    requires Fragment(vs, a) == Fragment(vs, b)
    ensures a == b
    decreases |vs|
  {
    if |vs| == 1 {
      FragmentSingle(vs, a, b);
    } else if |vs| > 1 {
      FragmentHead(vs, a, b);
      FragmentInjective(vs[1..], a[1..], b[1..]);
      HeadAndTail(a, b);
    }
  }

  /** Sequences that agree on their first element and on the rest are equal. */
  lemma HeadAndTail(a: seq<int>, b: seq<int>)
    requires |a| == |b| >= 1 && a[0] == b[0] && a[1..] == b[1..]
    ensures a == b
  {
    assert a == [a[0]] + a[1..] && b == [b[0]] + b[1..];
  }

  /** Equal fragments of a single factor have equal levels. */
  lemma FragmentSingle(vs: seq<Variation>, a: seq<int>, b: seq<int>)
    requires |vs| == |a| == |b| == 1
    requires Fragment(vs, a) == Fragment(vs, b)
    ensures a == b
  {
    FragmentFront(vs, a);
    FragmentFront(vs, b);
    EntryInjective(vs[0], a[0], b[0]);
    assert a == [a[0]] && b == [b[0]];
  }

  /** Equal fragments of two or more factors agree on the first level and on the fragment
      of the rest. */
  lemma FragmentHead(vs: seq<Variation>, a: seq<int>, b: seq<int>)
    requires |vs| == |a| == |b| && |vs| > 1
    requires Fragment(vs, a) == Fragment(vs, b)
    ensures a[0] == b[0] && Fragment(vs[1..], a[1..]) == Fragment(vs[1..], b[1..])
  {
    FragmentFront(vs, a);
    FragmentFront(vs, b);
    EntryThenRest(vs[0], a[0], b[0], Fragment(vs[1..], a[1..]), Fragment(vs[1..], b[1..]));
  }

  /** An entry followed by the separator determines its level and what follows. */
  lemma EntryThenRest(v: Variation, a: int, b: int, r1: string, r2: string)
    requires Entry(v, a) + SEPARATOR + r1 == Entry(v, b) + SEPARATOR + r2
    ensures a == b && r1 == r2
  {
    var p := v.name + "=";
    var d1, d2 := DecimalString(a), DecimalString(b);
    var x, y := d1 + SEPARATOR + r1, d2 + SEPARATOR + r2;
    assert Entry(v, a) + SEPARATOR + r1 == p + x;
    assert Entry(v, b) + SEPARATOR + r2 == p + y;
    assert x == (p + x)[|p|..] == (p + y)[|p|..] == y;
    DecimalStringHasNoComma(a);
    DecimalStringHasNoComma(b);
    SplitAtSeparator(d1, d2, r1, r2);
    DecimalStringInjective(a, b);
  }
}
