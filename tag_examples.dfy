/** Concrete runs of the tag allocator: the numbering the design describes,
    and two stores in which it issues a tag that already exists. */
module TagExamples {
  import opened Common
  import opened Decimal
  import opened TagNumbers
  import LexOrder

  /** Worked example: a new prefix gets 100001, 100002, 100003. */
  lemma FirstThreeTags(prefix: string)
    ensures Allocation(prefix, LastNumber([], prefix), 3)
              == [prefix + "100001", prefix + "100002", prefix + "100003"]
  {
    assert LastNumber([], prefix) == 100000;
    After100000(prefix);
  }

  lemma After100000(prefix: string)
    ensures Allocation(prefix, 100000, 3) == [prefix + "100001", prefix + "100002", prefix + "100003"]
  {
    Tag100001(prefix);
    Tag100002(prefix);
    Tag100003(prefix);
  }

  /** Worked example: after a stored 100050 come 100051 and 100052. */
  lemma ContinuesAfterLatest(prefix: string)
    ensures TailsParse([prefix + "100050"], prefix)
    ensures LastNumber([prefix + "100050"], prefix) == 100050
    ensures Allocation(prefix, LastNumber([prefix + "100050"], prefix), 2)
              == [prefix + "100051", prefix + "100052"]
  {
    Tag100050(prefix);
    StoredAlone(prefix, 100050);
    After100050(prefix);
  }

  lemma After100050(prefix: string)
    ensures Allocation(prefix, 100050, 2) == [prefix + "100051", prefix + "100052"]
  {
    Tag100051(prefix);
    Tag100052(prefix);
  }

  /** A single stored tag under the prefix is the latest one, and its
      number is read back. */
  lemma StoredAlone(prefix: string, n: nat)
    requires n <= 999999
    ensures TailsParse([TagNumber(prefix, n)], prefix)
    ensures LastNumber([TagNumber(prefix, n)], prefix) == n
  {
    var t := TagNumber(prefix, n);
    TagDigitTail(prefix, n);
    Pad6Facts(n);
    assert LastSix(t) == Pad6(n);
    assert Latest([t], prefix) == Some(t);
  }

  /** The tag for a six-digit number is the prefix and its decimal text. */
  lemma TagOf(prefix: string, n: nat, s: string)
    requires 100000 <= n <= 999999 && s == ToDecimal(n)
    ensures TagNumber(prefix, n) == prefix + s
  {
    Pad6Facts(n);
  }

  lemma Tag100001(prefix: string)
    ensures TagNumber(prefix, 100001) == prefix + "100001"
  {
    TagOf(prefix, 100001, "100001");
  }

  lemma Tag100002(prefix: string)
    ensures TagNumber(prefix, 100002) == prefix + "100002"
  {
    TagOf(prefix, 100002, "100002");
  }

  lemma Tag100003(prefix: string)
    ensures TagNumber(prefix, 100003) == prefix + "100003"
  {
    TagOf(prefix, 100003, "100003");
  }

  lemma Tag100051(prefix: string)
    ensures TagNumber(prefix, 100051) == prefix + "100051"
  {
    TagOf(prefix, 100051, "100051");
  }

  lemma Tag100052(prefix: string)
    ensures TagNumber(prefix, 100052) == prefix + "100052"
  {
    TagOf(prefix, 100052, "100052");
  }

  lemma Tag100050(prefix: string)
    ensures TagNumber(prefix, 100050) == prefix + "100050"
  {
    TagOf(prefix, 100050, "100050");
  }

  lemma ParseOf(s: string, n: nat)
    requires s == ToDecimal(n)
    ensures ParseDigits(s) == n
  {
    ParseToDecimal(n);
  }

  /** The suffix of a number past six digits is its decimal text. */
  lemma BeyondSixDigits(n: nat, s: string)
    requires n > 999999 && s == ToDecimal(n)
    ensures Pad6(n) == s
  {
    Pad6Facts(n);
  }

  /** `slice(-6)` of a tag is the end of the text after its prefix. */
  lemma LastSixAfter(prefix: string, tail: string)
    requires |tail| >= 6 && AllDigits(tail)
    ensures StartsWith(prefix + tail, prefix) && DigitTail(prefix + tail)
    ensures LastSix(prefix + tail) == tail[|tail| - 6..]
    ensures |tail| == 6 ==> LastSix(prefix + tail) == tail
  {
    var t := prefix + tail;
    assert t[..|prefix|] == prefix;
    assert t[|t| - 6..] == tail[|tail| - 6..];
  }

  /** `findFirst` over three stored tags that all carry the prefix. */
  lemma LatestOfThree(a: string, b: string, c: string, prefix: string)
    requires StartsWith(a, prefix) && StartsWith(b, prefix) && StartsWith(c, prefix)
    ensures Latest([a, b, c], prefix)
              == var r := if LexOrder.Less(c, b) then b else c;
                 Some(if LexOrder.Less(r, a) then a else r)
  {
    var s := [a, b, c];
    assert s[1..] == [b, c] && s[1..][1..] == [c] && [c][1..] == [];
    assert Latest([c], prefix) == Some(c);
    assert Latest([b, c], prefix) == Some(if LexOrder.Less(c, b) then b else c);
  }

  lemma TailsOfThree(a: string, b: string, c: string, prefix: string)
    requires DigitTail(a) && DigitTail(b) && DigitTail(c)
    ensures TailsParse([a, b, c], prefix)
  {
    var s := [a, b, c];
    forall i | 0 <= i < |s| && StartsWith(s[i], prefix) ensures DigitTail(s[i]) {
      assert s[i] == a || s[i] == b || s[i] == c;
    }
  }

  /** Past 999999 freshness fails, whatever the prefix: after 999999 the
      allocator issues prefix+"1000000" and prefix+"1000001"; both sort below
      prefix+"999999" ('1' < '9'), so the next call starts again from 999999
      and issues prefix+"1000000" a second time. */
  lemma OverflowRepeatsTag(prefix: string)
    ensures TailsParse([prefix + "999999"], prefix)
    ensures Allocation(prefix, LastNumber([prefix + "999999"], prefix), 2)
              == [prefix + "1000000", prefix + "1000001"]
    ensures var stored := [prefix + "999999", prefix + "1000000", prefix + "1000001"];
            TailsParse(stored, prefix) &&
            Allocation(prefix, LastNumber(stored, prefix), 1) == [prefix + "1000000"]
  {
    OverflowFirstCall(prefix);
    OverflowSecondCall(prefix);
  }

  lemma OverflowFirstCall(prefix: string)
    ensures TailsParse([prefix + "999999"], prefix)
    ensures LastNumber([prefix + "999999"], prefix) == 999999
    ensures Allocation(prefix, 999999, 2) == [prefix + "1000000", prefix + "1000001"]
    ensures Allocation(prefix, 999999, 1) == [prefix + "1000000"]
  {
    var a := prefix + "999999";
    LastSixAfter(prefix, "999999");
    assert Latest([a], prefix) == Some(a);
    Parse999999();
    LongSuffixes(prefix);
  }

  lemma Parse999999()
    ensures ParseDigits("999999") == 999999
  {
    ParseOf("999999", 999999);
  }

  lemma LongSuffixes(prefix: string)
    ensures Allocation(prefix, 999999, 2) == [prefix + "1000000", prefix + "1000001"]
    ensures Allocation(prefix, 999999, 1) == [prefix + "1000000"]
  {
    Tag1000000(prefix);
    Tag1000001(prefix);
  }

  lemma Tag1000000(prefix: string)
    ensures TagNumber(prefix, 1000000) == prefix + "1000000"
  {
    BeyondSixDigits(1000000, "1000000");
  }

  lemma Tag1000001(prefix: string)
    ensures TagNumber(prefix, 1000001) == prefix + "1000001"
  {
    BeyondSixDigits(1000001, "1000001");
  }

  lemma OverflowSecondCall(prefix: string)
    ensures var stored := [prefix + "999999", prefix + "1000000", prefix + "1000001"];
            TailsParse(stored, prefix) && LastNumber(stored, prefix) == 999999
  {
    var a, b, c := prefix + "999999", prefix + "1000000", prefix + "1000001";
    OverflowTails(prefix);
    LongTagsSortLower(prefix);
    LatestOfThree(a, b, c, prefix);
    assert Latest([a, b, c], prefix) == Some(a);
    Parse999999();
  }

  lemma OverflowTails(prefix: string)
    ensures LastSix(prefix + "999999") == "999999"
    ensures TailsParse([prefix + "999999", prefix + "1000000", prefix + "1000001"], prefix)
    ensures StartsWith(prefix + "999999", prefix) && StartsWith(prefix + "1000000", prefix)
    ensures StartsWith(prefix + "1000001", prefix)
  {
    LastSixAfter(prefix, "999999");
    LastSixAfter(prefix, "1000000");
    LastSixAfter(prefix, "1000001");
    TailsOfThree(prefix + "999999", prefix + "1000000", prefix + "1000001", prefix);
  }

  lemma LongTagsSortLower(prefix: string)
    ensures LexOrder.Less(prefix + "1000001", prefix + "999999")
    ensures !LexOrder.Less(prefix + "1000001", prefix + "1000000")
  {
    var b, c := prefix + "1000000", prefix + "1000001";
    assert LexOrder.Less("1000000", "1000001") by {
      assert "1000000" == "100000" + "0" && "1000001" == "100000" + "1";
      LexOrder.CommonPrefix("100000", "0", "1");
    }
    assert LexOrder.Less("1000001", "999999");
    LexOrder.CommonPrefix(prefix, "1000001", "999999");
    LexOrder.CommonPrefix(prefix, "1000000", "1000001");
    LexOrder.Irreflexive(c);
    if LexOrder.Less(c, b) {
      LexOrder.Transitive(c, b, c);
    }
  }

  /** A category prefix that begins another's breaks freshness: if one
      category's codes spell `prefix` and another's spell prefix + "2" (sub
      codes "1" and "12", say, which are different and so both accepted), the
      latest `prefix` tag in text order is the other category's first tag
      prefix+"2100001", whose last six characters read 100001, so
      prefix+"100002" is issued again. */
  lemma PrefixCollisionRepeatsTag(prefix: string)
    ensures var stored := [prefix + "100001", prefix + "100002", prefix + "2100001"];
            TailsParse(stored, prefix) &&
            Allocation(prefix, LastNumber(stored, prefix), 1) == [prefix + "100002"] &&
            prefix + "100002" in stored
  {
    var a, b, c := prefix + "100001", prefix + "100002", prefix + "2100001";
    CollidingLatest(prefix);
    Suffix100002(prefix);
  }

  lemma Suffix100002(prefix: string)
    ensures Allocation(prefix, 100001, 1) == [prefix + "100002"]
  {
    Tag100002(prefix);
  }

  lemma CollidingLatest(prefix: string)
    ensures var stored := [prefix + "100001", prefix + "100002", prefix + "2100001"];
            TailsParse(stored, prefix) && LastNumber(stored, prefix) == 100001
  {
    var a, b, c := prefix + "100001", prefix + "100002", prefix + "2100001";
    CollidingTails(prefix);
    LongerPrefixSortsHigher(prefix);
    LatestOfThree(a, b, c, prefix);
    assert Latest([a, b, c], prefix) == Some(c);
    Parse100001();
  }

  lemma Parse100001()
    ensures ParseDigits("100001") == 100001
  {
    ParseOf("100001", 100001);
  }

  lemma CollidingTails(prefix: string)
    ensures LastSix(prefix + "2100001") == "100001"
    ensures TailsParse([prefix + "100001", prefix + "100002", prefix + "2100001"], prefix)
    ensures StartsWith(prefix + "100001", prefix) && StartsWith(prefix + "100002", prefix)
    ensures StartsWith(prefix + "2100001", prefix)
  {
    LastSixAfter(prefix, "100001");
    LastSixAfter(prefix, "100002");
    LastSixAfter(prefix, "2100001");
    assert "2100001"[1..] == "100001";
    TailsOfThree(prefix + "100001", prefix + "100002", prefix + "2100001", prefix);
  }

  lemma LongerPrefixSortsHigher(prefix: string)
    ensures !LexOrder.Less(prefix + "2100001", prefix + "100002")
    ensures !LexOrder.Less(prefix + "2100001", prefix + "100001")
  {
    assert LexOrder.Less("100002", "2100001") && LexOrder.Less("100001", "2100001");
    LexOrder.CommonPrefix(prefix, "100002", "2100001");
    LexOrder.CommonPrefix(prefix, "100001", "2100001");
    var a, b, c := prefix + "100001", prefix + "100002", prefix + "2100001";
    LexOrder.Irreflexive(c);
    if LexOrder.Less(c, b) {
      LexOrder.Transitive(c, b, c);
    }
    if LexOrder.Less(c, a) {
      LexOrder.Transitive(c, a, c);
    }
  }
}
