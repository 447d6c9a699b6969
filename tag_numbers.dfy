/** The tag allocator (`generateTagNumbers`): the next `quantity` tag
    numbers of a category, each its prefix (main code, then sub code)
    followed by a six-digit running number. */
module TagNumbers {
  import opened Common
  import opened Records
  import opened Decimal
  import LexOrder

  /** The number taken as the last one issued when the prefix has no tag yet,
      so that the first tag of a prefix ends in 100001. */
  const NoTagsYet: nat := 100000

  datatype AllocError = CategoryNotFound | MissingCodes

  /** Both codes are present (truthy). */
  predicate HasCodes(c: FatsCategory) {
    c.mainCatCode != "" && c.subCategoryCode != ""
  }

  function Prefix(c: FatsCategory): string {
    c.mainCatCode + c.subCategoryCode
  }

  /** `startsWith` as the store evaluates it. */
  predicate StartsWith(s: string, p: string) {
    p <= s
  }

  /** `tagNumber.slice(-6)`. */
  function LastSix(t: string): string {
    LastChars(t, 6)
  }

  /** The last six characters are a non-empty run of digits, so `parseInt`
      reads all of them. */
  predicate DigitTail(t: string) {
    LastSix(t) != [] && AllDigits(LastSix(t))
  }

  /** Every stored tag carrying the prefix ends in digits. */
  predicate TailsParse(stored: seq<string>, prefix: string) {
    forall i :: 0 <= i < |stored| && StartsWith(stored[i], prefix) ==> DigitTail(stored[i])
  }

  /** The tag is the prefix followed by exactly six digits, as every tag the
      allocator issues up to 999999 is. */
  predicate SixDigitSuffix(t: string, prefix: string) {
    StartsWith(t, prefix) && |t| == |prefix| + 6 && AllDigits(t[|prefix|..])
  }

  /** Every stored tag carrying the prefix has that shape. */
  predicate Numbered(stored: seq<string>, prefix: string) {
    forall i :: 0 <= i < |stored| && StartsWith(stored[i], prefix) ==> SixDigitSuffix(stored[i], prefix)
  }

  /** The tag that `findFirst` returns for `startsWith: prefix`, ordered by
      tag number descending: a stored tag with the prefix, if there is one. */
  function Latest(stored: seq<string>, prefix: string): (r: Option<string>)
    ensures r.Some? ==> r.value in stored && StartsWith(r.value, prefix)
    ensures r.None? <==> forall i :: 0 <= i < |stored| ==> !StartsWith(stored[i], prefix)
  {
    if stored == [] then None
    else
      var rest := Latest(stored[1..], prefix);
      assert forall i :: 1 <= i < |stored| ==> stored[i] == stored[1..][i - 1];
      if !StartsWith(stored[0], prefix) then rest
      else if rest.None? || LexOrder.Less(rest.value, stored[0]) then Some(stored[0])
      else rest
  }

  /** The number the allocator continues from: that of the latest tag, read
      from its last six characters, or NoTagsYet. */
  function LastNumber(stored: seq<string>, prefix: string): nat
    requires TailsParse(stored, prefix)
  {
    match Latest(stored, prefix)
    case None => NoTagsYet
    case Some(t) => ParseDigits(LastSix(t))
  }

  /** The tag number for running number `n`. */
  function TagNumber(prefix: string, n: nat): string {
    prefix + Pad6(n)
  }

  /** How often `for (let i = 0; i < quantity; i++)` runs. */
  function Count(quantity: int): nat {
    if quantity > 0 then quantity else 0
  }

  /** The tags a call issues after `last`: the i-th is numbered last + 1 + i. */
  function Allocation(prefix: string, last: nat, quantity: int): (r: seq<string>)
    ensures |r| == Count(quantity)
    ensures forall i :: 0 <= i < |r| ==> r[i] == TagNumber(prefix, last + 1 + i)
  {
    seq(Count(quantity), i requires 0 <= i => TagNumber(prefix, last + 1 + i))
  }

  /** `generateTagNumbers(fatsCategoryId, quantity)` against the category
      table and the tag numbers already stored. */
  method GenerateTagNumbers(categories: map<Id, FatsCategory>, stored: seq<string>,
                            fatsCategoryId: Id, quantity: int)
    returns (r: Result<seq<string>, AllocError>)
    requires fatsCategoryId in categories ==> TailsParse(stored, Prefix(categories[fatsCategoryId]))
    ensures fatsCategoryId !in categories <==> r == Failure(CategoryNotFound)
    ensures (fatsCategoryId in categories && !HasCodes(categories[fatsCategoryId]))
              <==> r == Failure(MissingCodes)
    ensures fatsCategoryId in categories && HasCodes(categories[fatsCategoryId]) ==>
              var prefix := Prefix(categories[fatsCategoryId]);
              r == Success(Allocation(prefix, LastNumber(stored, prefix), quantity))
  {
    if fatsCategoryId !in categories {
      return Failure(CategoryNotFound);
    }
    var category := categories[fatsCategoryId];
    if category.mainCatCode == "" || category.subCategoryCode == "" {
      return Failure(MissingCodes);
    }
    var prefix := category.mainCatCode + category.subCategoryCode;
    var latest := Latest(stored, prefix);
    var lastNumber := NoTagsYet;
    if latest.Some? {
      lastNumber := ParseDigits(LastSix(latest.value));
    }
    var tagNumbers: seq<string> := [];
    var i := 0;
    while i < quantity
      invariant 0 <= i <= Count(quantity)
      invariant tagNumbers == Allocation(prefix, lastNumber, i)
    {
      var newNumber := lastNumber + i + 1;
      assert Allocation(prefix, lastNumber, i + 1)
               == Allocation(prefix, lastNumber, i) + [TagNumber(prefix, newNumber)];
      tagNumbers := tagNumbers + [prefix + PadStart(ToDecimal(newNumber), 6)];
      i := i + 1;
    }
    assert i == Count(quantity);
    return Success(tagNumbers);
  }

  // ----- what the allocator promises -----

  /** The `findFirst` tag sorts at or above every stored tag with the prefix. */
  lemma {:induction false} LatestIsGreatest(stored: seq<string>, prefix: string)
    ensures Latest(stored, prefix).Some? ==>
              forall i :: 0 <= i < |stored| && StartsWith(stored[i], prefix) ==>
                !LexOrder.Less(Latest(stored, prefix).value, stored[i])
  {
    if stored != [] {
      var rest := stored[1..];
      LatestIsGreatest(rest, prefix);
      var r := Latest(stored, prefix);
      if r.Some? {
        forall i | 0 <= i < |stored| && StartsWith(stored[i], prefix)
          ensures !LexOrder.Less(r.value, stored[i])
        {
          if i == 0 || stored[i] == r.value {
            if stored[i] == r.value {
              LexOrder.Irreflexive(r.value);
            }
          } else {
            assert stored[i] == rest[i - 1];
            var lr := Latest(rest, prefix);
            assert lr.Some?;
            if r.value != lr.value {
              // r is stored[0], chosen because lr sorts below it
              assert LexOrder.Less(lr.value, r.value);
              if LexOrder.Less(r.value, stored[i]) {
                LexOrder.Transitive(lr.value, r.value, stored[i]);
              }
            }
          }
        }
      }
    }
  }

  /** The scan order does not matter: two listings of the same tag numbers
      have the same latest tag for the prefix. */
  lemma LatestBySet(s1: seq<string>, s2: seq<string>, prefix: string)
    requires Elements(s1) == Elements(s2)
    ensures Latest(s1, prefix) == Latest(s2, prefix)
  {
    var r1, r2 := Latest(s1, prefix), Latest(s2, prefix);
    if r2.Some? {
      SameElements(r2.value, s2, s1);
    }
    if r1.Some? {
      SameElements(r1.value, s1, s2);
    }
    if r1.Some? && r2.Some? {
      LatestIsGreatest(s1, prefix);
      LatestIsGreatest(s2, prefix);
      LexOrder.Total(r1.value, r2.value);
    }
  }

  lemma SameElements(x: string, s1: seq<string>, s2: seq<string>)
    requires x in s1 && Elements(s1) == Elements(s2)
    ensures exists i :: 0 <= i < |s2| && s2[i] == x
  {
    assert x in Elements(s1);
  }

  /** So the number the allocator continues from is a function of the set
      of stored tag numbers. */
  lemma LastNumberBySet(s1: seq<string>, s2: seq<string>, prefix: string)
    requires Elements(s1) == Elements(s2) && TailsParse(s1, prefix)
    ensures TailsParse(s2, prefix)
    ensures LastNumber(s2, prefix) == LastNumber(s1, prefix)
  {
    forall j | 0 <= j < |s2| && StartsWith(s2[j], prefix) ensures DigitTail(s2[j]) {
      SameElements(s2[j], s2, s1);
    }
    LatestBySet(s1, s2, prefix);
  }

  /** When stored tags of the prefix are prefix + six digits, no stored number
      exceeds the one the allocator continues from. */
  lemma NumbersBelowLast(stored: seq<string>, prefix: string)
    requires Numbered(stored, prefix)
    ensures TailsParse(stored, prefix)
    ensures forall i :: 0 <= i < |stored| && StartsWith(stored[i], prefix) ==>
              ParseDigits(stored[i][|prefix|..]) <= LastNumber(stored, prefix)
  {
    forall i | 0 <= i < |stored| && StartsWith(stored[i], prefix)
      ensures LastSix(stored[i]) == stored[i][|prefix|..] && DigitTail(stored[i])
    {
      SuffixIsLastSix(stored[i], prefix);
    }
    assert TailsParse(stored, prefix);
    LatestIsGreatest(stored, prefix);
    forall i | 0 <= i < |stored| && StartsWith(stored[i], prefix)
      ensures ParseDigits(stored[i][|prefix|..]) <= LastNumber(stored, prefix)
    {
      var t := Latest(stored, prefix).value;
      var k :| 0 <= k < |stored| && stored[k] == t;
      assert SixDigitSuffix(t, prefix);
      SuffixIsLastSix(t, prefix);
      var s := stored[i];
      var ts, ss := t[|prefix|..], s[|prefix|..];
      assert t == prefix + ts && s == prefix + ss;
      assert !LexOrder.Less(t, s);
      LexOrder.CommonPrefix(prefix, ts, ss);
      LexOrder.DigitsOrder(ts, ss);
    }
  }

  /** For a tag of that shape, `slice(-6)` is exactly the part after the prefix. */
  lemma SuffixIsLastSix(t: string, prefix: string)
    requires SixDigitSuffix(t, prefix)
    ensures LastSix(t) == t[|prefix|..] && DigitTail(t)
  {
  }

  /** The shape of what is issued: `quantity || 0` tags, each the prefix
      followed by the decimal digits of last + 1 + i. */
  lemma AllocationShape(prefix: string, last: nat, quantity: int)
    ensures |Allocation(prefix, last, quantity)| == Count(quantity)
    ensures forall i :: 0 <= i < Count(quantity) ==>
              var t := Allocation(prefix, last, quantity)[i];
              StartsWith(t, prefix) && AllDigits(t[|prefix|..]) &&
              ParseDigits(t[|prefix|..]) == last + 1 + i
  {
    forall i | 0 <= i < Count(quantity)
      ensures var t := Allocation(prefix, last, quantity)[i];
              StartsWith(t, prefix) && AllDigits(t[|prefix|..]) &&
              ParseDigits(t[|prefix|..]) == last + 1 + i
    {
      var t := Allocation(prefix, last, quantity)[i];
      Pad6Facts(last + 1 + i);
      assert t[|prefix|..] == Pad6(last + 1 + i);
    }
  }

  /** One call never issues the same tag twice. */
  lemma AllocationDistinct(prefix: string, last: nat, quantity: int)
    ensures Distinct(Allocation(prefix, last, quantity))
  {
    var a := Allocation(prefix, last, quantity);
    forall i, j | 0 <= i < j < |a| ensures a[i] != a[j] {
      if a[i] == a[j] {
        assert a[i][|prefix|..] == Pad6(last + 1 + i);
        assert a[j][|prefix|..] == Pad6(last + 1 + j);
        Pad6Injective(last + 1 + i, last + 1 + j);
      }
    }
  }

  /** While the numbers stay within six digits, every issued tag is the prefix
      plus exactly six digits, its `slice(-6)` reads back its number, and the
      tags sort in the order they were issued. */
  lemma AllocationFits(prefix: string, last: nat, quantity: int)
    requires last + Count(quantity) <= 999999
    ensures forall i :: 0 <= i < Count(quantity) ==>
              var t := Allocation(prefix, last, quantity)[i];
              SixDigitSuffix(t, prefix) && ParseDigits(LastSix(t)) == last + 1 + i
    ensures forall i, j :: 0 <= i < j < Count(quantity) ==>
              LexOrder.Less(Allocation(prefix, last, quantity)[i], Allocation(prefix, last, quantity)[j])
  {
    var a := Allocation(prefix, last, quantity);
    forall i | 0 <= i < Count(quantity)
      ensures SixDigitSuffix(a[i], prefix) && ParseDigits(LastSix(a[i])) == last + 1 + i
    {
      TagFits(prefix, last + 1 + i);
    }
    forall i, j | 0 <= i < j < Count(quantity)
      ensures LexOrder.Less(a[i], a[j])
    {
      TagsInOrder(prefix, last + 1 + i, last + 1 + j);
    }
  }

  lemma TagFits(prefix: string, n: nat)
    requires n <= 999999
    ensures SixDigitSuffix(TagNumber(prefix, n), prefix)
    ensures ParseDigits(LastSix(TagNumber(prefix, n))) == n
  {
    var t := TagNumber(prefix, n);
    Pad6Facts(n);
    assert t[|prefix|..] == Pad6(n);
    SuffixIsLastSix(t, prefix);
  }

  lemma TagsInOrder(prefix: string, m: nat, n: nat)
    requires m < n <= 999999
    ensures LexOrder.Less(TagNumber(prefix, m), TagNumber(prefix, n))
  {
    Pad6Facts(m);
    Pad6Facts(n);
    LexOrder.DigitsOrder(Pad6(m), Pad6(n));
    LexOrder.CommonPrefix(prefix, Pad6(m), Pad6(n));
  }

  /** Past 999999 the suffix is the whole number, longer than six digits:
      `padStart` does not truncate. */
  lemma AllocationOverflows(prefix: string, last: nat, quantity: int)
    ensures forall i :: 0 <= i < Count(quantity) && last + 1 + i > 999999 ==>
              Allocation(prefix, last, quantity)[i] == prefix + ToDecimal(last + 1 + i) &&
              |Allocation(prefix, last, quantity)[i]| > |prefix| + 6
  {
    forall i | 0 <= i < Count(quantity) && last + 1 + i > 999999
      ensures Allocation(prefix, last, quantity)[i] == prefix + ToDecimal(last + 1 + i)
      ensures |Allocation(prefix, last, quantity)[i]| > |prefix| + 6
    {
      Pad6Facts(last + 1 + i);
    }
  }

  /** With well-formed stored tags, nothing issued is already stored. */
  lemma AllocationFresh(stored: seq<string>, prefix: string, quantity: int)
    requires Numbered(stored, prefix)
    ensures TailsParse(stored, prefix)
    ensures forall i :: 0 <= i < Count(quantity) ==>
              Allocation(prefix, LastNumber(stored, prefix), quantity)[i] !in stored
  {
    NumbersBelowLast(stored, prefix);
    var last := LastNumber(stored, prefix);
    var a := Allocation(prefix, last, quantity);
    AllocationShape(prefix, last, quantity);
    forall i | 0 <= i < Count(quantity) ensures a[i] !in stored {
      forall k | 0 <= k < |stored| ensures stored[k] != a[i] {
        if StartsWith(stored[k], prefix) {
          assert ParseDigits(stored[k][|prefix|..]) <= last < ParseDigits(a[i][|prefix|..]);
        }
      }
    }
  }

  /** A prefix with no tag yet starts at 100001. */
  lemma FirstAllocation(stored: seq<string>, prefix: string, quantity: int)
    requires forall i :: 0 <= i < |stored| ==> !StartsWith(stored[i], prefix)
    ensures TailsParse(stored, prefix) && LastNumber(stored, prefix) == 100000
    ensures forall i :: 0 <= i < Count(quantity) ==>
              Allocation(prefix, LastNumber(stored, prefix), quantity)[i] == prefix + Pad6(100001 + i)
  {
  }

  /** Every issued tag ends in digits, so a later call can read its number. */
  lemma TagDigitTail(prefix: string, n: nat)
    ensures StartsWith(TagNumber(prefix, n), prefix) && DigitTail(TagNumber(prefix, n))
  {
    var t := TagNumber(prefix, n);
    Pad6Facts(n);
    assert |Pad6(n)| >= 6;
    assert t[..|prefix|] == prefix;
    assert LastSix(t) == Pad6(n)[|Pad6(n)| - 6..];
  }
}
