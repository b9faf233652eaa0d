/**
 * The canonical pair identifier `makePairId` (contract/src/onrampPriceRegistry.contract.js):
 * the two brands' alleged names in sorted order, joined by an underscore. It names
 * the storage node under which a pair's recorder publishes.
 */
module PairIds {
  import opened Wrappers
  import opened Ratios

  /**
   * `a` sorts no later than `b`: the model's stand-in for `a.localeCompare(b) <= 0`,
   * taken as plain lexicographic order on character codes.
   */
  predicate NameLe(a: string, b: string)
  {
    |a| == 0 || (|b| > 0 && (a[0] < b[0] || (a[0] == b[0] && NameLe(a[1..], b[1..]))))
  }

  /** Any two names are comparable. */
  lemma {:induction false} NameLeTotal(a: string, b: string)
    ensures NameLe(a, b) || NameLe(b, a)
  {
    if |a| > 0 && |b| > 0 && a[0] == b[0] {
      NameLeTotal(a[1..], b[1..]);
    }
  }

  /** Two names that each sort no later than the other are the same name. */
  lemma {:induction false} NameLeAntisymmetric(a: string, b: string)
    requires NameLe(a, b) && NameLe(b, a)
    ensures a == b
  {
    if |a| > 0 {
      NameLeAntisymmetric(a[1..], b[1..]);
      assert a == [a[0]] + a[1..] && b == [b[0]] + b[1..];
    }
  }

  /** Ordering is transitive, so sorting by it is consistent. */
  lemma {:induction false} NameLeTransitive(a: string, b: string, c: string)
    requires NameLe(a, b) && NameLe(b, c)
    ensures NameLe(a, c)
  {
    if |a| > 0 && a[0] == b[0] && b[0] == c[0] {
      NameLeTransitive(a[1..], b[1..], c[1..]);
    }
  }

  /**
   * makePairId(brandA, brandB): whichever name sorts first, then `_`, then the
   * other. The contract is symmetric in the two brands: the identifier does not
   * depend on the order in which the pair is given.
   */
  function MakePairId(brandA: Brand, brandB: Brand): (id: string)
    ensures NameLe(brandA.allegedName, brandB.allegedName) ==>
              id == brandA.allegedName + "_" + brandB.allegedName
    ensures NameLe(brandB.allegedName, brandA.allegedName) ==>
              id == brandB.allegedName + "_" + brandA.allegedName
    ensures |id| == |brandA.allegedName| + |brandB.allegedName| + 1
  {
    var nameIn, nameOut := brandA.allegedName, brandB.allegedName;
    if NameLe(nameIn, nameOut) then
      (if NameLe(nameOut, nameIn) then NameLeAntisymmetric(nameIn, nameOut); nameIn + "_" + nameOut
       else nameIn + "_" + nameOut)
    else
      nameOut + "_" + nameIn
  }

  /** The identifier is the same for (a, b) and (b, a). */
  lemma PairIdSymmetric(a: Brand, b: Brand)
    ensures MakePairId(a, b) == MakePairId(b, a)
  {
    NameLeTotal(a.allegedName, b.allegedName);
  }

  /** Two brands with the same name give `name_name`. */
  lemma PairIdSameName(a: Brand, b: Brand)
    requires a.allegedName == b.allegedName
    ensures MakePairId(a, b) == a.allegedName + "_" + a.allegedName
  {
  }

  /**
   * The identifier is not injective: the unordered name pairs {"a_b", "c"} and
   * {"a", "b_c"} share the node name "a_b_c".
   */
  lemma PairIdCollision()
    ensures MakePairId(Brand(0, "a_b", None), Brand(1, "c", None))
         == MakePairId(Brand(2, "a", None), Brand(3, "b_c", None))
         == "a_b_c"
  {
  }
}
