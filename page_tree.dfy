/**
 * The page-tree root's /Kids array and /Count, as functions of the
 * writer's own ordered list of page references.
 */
module PageTree {

  import opened Variants

  /** The /Kids array for a list of page references: one Reference variant per page, in order. */
  function KidsOf(refs: seq<Reference>): seq<Variant> {
    if refs == [] then [] else [Ref(refs[0])] + KidsOf(refs[1..])
  }

  /** KidsOf has one entry per page, and its i-th entry references the i-th page. */
  lemma {:induction false} KidsOfAt(refs: seq<Reference>, i: nat)
    requires i < |refs|
    ensures |KidsOf(refs)| == |refs|
    ensures KidsOf(refs)[i] == Ref(refs[i])
  {
    if i > 0 {
      KidsOfAt(refs[1..], i - 1);
    } else if |refs| > 1 {
      KidsOfAt(refs[1..], 0);
    }
  }

  /**
   * Rebuilding the array for one more page equals appending one Reference
   * to the array for the earlier pages: the full rebuild and an
   * incremental append give the same /Kids.
   */
  lemma {:induction false} KidsOfAppend(refs: seq<Reference>, r: Reference)
    ensures KidsOf(refs + [r]) == KidsOf(refs) + [Ref(r)]
  {
    if refs == [] {
      assert refs + [r] == [r];
    } else {
      assert (refs + [r])[1..] == refs[1..] + [r];
      KidsOfAppend(refs[1..], r);
    }
  }

  /** Builds the /Kids array by walking the reference list from its start. */
  method KidsArray(refs: seq<Reference>) returns (kids: seq<Variant>)
    ensures kids == KidsOf(refs)
    ensures |kids| == |refs|
    ensures forall i :: 0 <= i < |refs| ==> kids[i] == Ref(refs[i])
  {
    kids := [];
    var it := 0;
    while it < |refs|
      invariant 0 <= it <= |refs|
      invariant kids == KidsOf(refs[..it])
      invariant |kids| == it
      invariant forall i :: 0 <= i < it ==> kids[i] == Ref(refs[i])
    {
      KidsOfAppend(refs[..it], refs[it]);
      assert refs[..it + 1] == refs[..it] + [refs[it]];
      kids := kids + [Ref(refs[it])];
      it := it + 1;
    }
    assert refs[..it] == refs;
  }

  /**
   * The page-tree root is consistent with the page list: tagged /Pages;
   * the literal empty /Kids while no page exists; otherwise /Count is the
   * decimal page count and /Kids the Reference array of the pages in order.
   */
  ghost predicate TreeMatches(root: Dict, refs: seq<Reference>) {
    && Type in root && root[Type] == Name("Pages")
    && Kids in root
    && (refs == [] ==> root[Kids] == RawData("[ ]"))
    && (refs != [] ==>
          && root[Kids] == Arr(KidsOf(refs))
          && Count in root && root[Count] == RawData(Decimal(|refs|)))
  }

  /**
   * A root consistent with a non-empty page list has /Count reading back
   * as the number of pages and /Kids whose i-th entry is the i-th page.
   */
  lemma TreeMatchesMeaning(root: Dict, refs: seq<Reference>, i: nat)
    requires TreeMatches(root, refs) && i < |refs|
    ensures root[Count].RawData? && AllDigits(root[Count].text)
    ensures ParseDecimal(root[Count].text) == |refs|
    ensures root[Kids].Arr? && |root[Kids].items| == |refs|
    ensures root[Kids].items[i] == Ref(refs[i])
  {
    DecimalRoundTrip(|refs|);
    KidsOfAt(refs, i);
  }
}
