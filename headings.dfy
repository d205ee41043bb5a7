/**
 * The accordion heading both list forms give an entry: "<first or its placeholder> at
 * <second or its placeholder>" once either field is filled in, otherwise the entry's noun
 * and its one-based position in the list.
 */
module Headings {
  import opened Strings

  function ItemHeading(first: string, firstPlaceholder: string, second: string,
                       secondPlaceholder: string, noun: string, index: nat): (r: string)
    ensures first != "" || second != "" ==>
      r == OrElse(first, firstPlaceholder) + " at " + OrElse(second, secondPlaceholder)
    ensures first == "" && second == "" ==> r == noun + " " + NatToString(index + 1)
  {
    if first != "" || second != "" then
      OrElse(first, firstPlaceholder) + " at " + OrElse(second, secondPlaceholder)
    else noun + " " + NatToString(index + 1)
  }

  /** Distinct numbers are written differently. */
  lemma NatToStringInjective(m: nat, n: nat)
    requires NatToString(m) == NatToString(n)
    ensures m == n
  {
    NatToStringValue(m);
    NatToStringValue(n);
  }

  /** Two blank entries at different positions never share a heading. */
  lemma BlankHeadingsDistinct(noun: string, fp: string, sp: string, i: nat, j: nat)
    requires i != j
    ensures ItemHeading("", fp, "", sp, noun, i) != ItemHeading("", fp, "", sp, noun, j)
  {
    var a := ItemHeading("", fp, "", sp, noun, i);
    var b := ItemHeading("", fp, "", sp, noun, j);
    if a == b {
      var k := |noun| + 1;
      assert a[k..] == NatToString(i + 1);
      assert b[k..] == NatToString(j + 1);
      NatToStringInjective(i + 1, j + 1);
    }
  }
}
