/**
 * src/custom.spec.ts: the "contains exactly N matching elements" custom
 * type. `contains` counts the elements the item guard accepts and hands
 * the list to one of three callbacks; the `ArrayWithContains` predicate and
 * the repairs inside `generatorContains` are built from it. The item guard
 * is a parameter; the indices and elements the repair draws at random are
 * parameters too.
 */
module Contains {
  import opened Wrappers
  import opened Seqs
  import opened Runtypes

  /** The custom type's `args`: the item guard and the optional count. */
  datatype Args<!T> = Args(item: T -> bool, count: Option<int>)

  /** The `res` object `contains` hands to its callbacks. */
  datatype Summary<!T> = Summary(needCount: int, count: nat, item: T -> bool)

  /** Which of the three callbacks `contains` invokes. */
  datatype Branch = Equal | TooFew | TooMany

  /** `args.count`, or 1 when it is undefined. */
  function NeedCount(count: Option<int>): (n: int)
    ensures count.None? ==> n == 1
    ensures count.Some? ==> n == count.value
  {
    count.GetOr(1)
  }

  function Summarize<T>(list: seq<T>, args: Args<T>): Summary<T>
  {
    Summary(NeedCount(args.count), Count(list, args.item), args.item)
  }

  /** The three-way comparison of `needCount` with `count` (src/custom.spec.ts:14-20). */
  function Classify<T>(list: seq<T>, args: Args<T>): (b: Branch)
    ensures b == Equal <==> NeedCount(args.count) == Count(list, args.item)
    ensures b == TooFew <==> NeedCount(args.count) > Count(list, args.item)
    ensures b == TooMany <==> NeedCount(args.count) < Count(list, args.item)
  {
    var res := Summarize(list, args);
    if res.needCount == res.count then Equal
    else if res.needCount > res.count then TooFew
    else TooMany
  }

  /** `contains`: exactly one callback is applied, the one `Classify` selects. */
  function Contains<T, R>(list: seq<T>, args: Args<T>,
                          eqFn: (seq<T>, Summary<T>) -> R,
                          lessFn: (seq<T>, Summary<T>) -> R,
                          moreFn: (seq<T>, Summary<T>) -> R): (r: R)
    ensures Classify(list, args) == Equal ==> r == eqFn(list, Summarize(list, args))
    ensures Classify(list, args) == TooFew ==> r == lessFn(list, Summarize(list, args))
    ensures Classify(list, args) == TooMany ==> r == moreFn(list, Summarize(list, args))
  {
    var res := Summarize(list, args);
    match Classify(list, args)
    case Equal => eqFn(list, res)
    case TooFew => lessFn(list, res)
    case TooMany => moreFn(list, res)
  }

  function DigitChar(d: nat): char
    requires d < 10
  {
    "0123456789"[d]
  }

  function Digits(n: nat): (s: string)
    ensures |s| > 0
    decreases n
  {
    if n < 10 then [DigitChar(n)] else Digits(n / 10) + [DigitChar(n % 10)]
  }

  /** The decimal text a template literal gives an integer. */
  function DecimalString(n: int): (s: string)
    ensures |s| > 0
  {
    if n < 0 then "-" + Digits(-n) else Digits(n)
  }

  /** The predicate of `ArrayWithContains` (src/custom.spec.ts:23-32). */
  function CheckContains<T>(list: seq<T>, args: Args<T>): (v: Verdict)
    ensures v == Pass <==> Count(list, args.item) == NeedCount(args.count)
    ensures NeedCount(args.count) > Count(list, args.item) ==>
      v == Fail("Array contains less than " + DecimalString(NeedCount(args.count)) + " items")
    ensures NeedCount(args.count) < Count(list, args.item) ==>
      v == Fail("Array contains more than " + DecimalString(NeedCount(args.count)) + " items")
  {
    Contains(list, args,
      (_, _) => Pass,
      (_, res: Summary<T>) => Fail("Array contains less than " + DecimalString(res.needCount) + " items"),
      (_, res: Summary<T>) => Fail("Array contains more than " + DecimalString(res.needCount) + " items"))
  }

  // ---------------------------------------------------------------------
  // The too-many repair (src/custom.spec.ts:52-63)

  /**
   * What the `reduce` keeps of `s` when `quota` more matching elements may
   * still be kept: every non-matching element, and matching ones while the
   * quota lasts.
   */
  function Trimmed<T>(s: seq<T>, item: T -> bool, quota: int): seq<T>
  {
    if s == [] then []
    else if !item(s[0]) then [s[0]] + Trimmed(s[1..], item, quota)
    else if quota > 0 then [s[0]] + Trimmed(s[1..], item, quota - 1)
    else Trimmed(s[1..], item, quota - 1)
  }

  /** One step of the `reduce` at index `i`: the element is kept or dropped, the quota counts it if it matches. */
  lemma TrimmedStep<T>(list: seq<T>, item: T -> bool, quota: int, i: nat)
    requires i < |list|
    ensures Trimmed(list[i..], item, quota) ==
      (if !item(list[i]) || quota > 0 then [list[i]] else []) +
      Trimmed(list[i + 1..], item, if item(list[i]) then quota - 1 else quota)
  {
    assert list[i..][0] == list[i] && list[i..][1..] == list[i + 1..];
  }

  function Clamp(q: int, n: nat): (r: nat)
    ensures r <= n
  {
    if q <= 0 then 0 else if q < n then q else n
  }

  /** The trimmed list is a subsequence of the input. */
  lemma {:induction false} TrimmedSubseq<T>(s: seq<T>, item: T -> bool, quota: int)
    ensures Subseq(Trimmed(s, item, quota), s)
  {
    if s != [] {
      var q := if item(s[0]) then quota - 1 else quota;
      TrimmedSubseq(s[1..], item, q);
      var t := Trimmed(s[1..], item, q);
      if !item(s[0]) || quota > 0 {
        assert ([s[0]] + t)[1..] == t;
      } else if t != [] {
      }
    }
  }

  /** Every non-matching element survives, in order. */
  lemma {:induction false} TrimmedKeepsOthers<T>(s: seq<T>, item: T -> bool, quota: int)
    ensures Filter(Trimmed(s, item, quota), x => !item(x)) == Filter(s, x => !item(x))
  {
    if s != [] {
      var q := if item(s[0]) then quota - 1 else quota;
      TrimmedKeepsOthers(s[1..], item, q);
      var t := Trimmed(s[1..], item, q);
      if !item(s[0]) || quota > 0 {
        assert ([s[0]] + t)[1..] == t;
      }
    }
  }

  /** Of the matching elements, exactly the first `quota` survive (none if `quota <= 0`). */
  lemma {:induction false} TrimmedKeepsFirstMatching<T>(s: seq<T>, item: T -> bool, quota: int)
    ensures Filter(Trimmed(s, item, quota), item) == Filter(s, item)[..Clamp(quota, Count(s, item))]
  {
    if s != [] {
      var q := if item(s[0]) then quota - 1 else quota;
      TrimmedKeepsFirstMatching(s[1..], item, q);
      var t := Trimmed(s[1..], item, q);
      if !item(s[0]) || quota > 0 {
        assert ([s[0]] + t)[1..] == t;
      }
    }
  }

  /**
   * The `reduce` of the too-many callback: one pass with the kept list and
   * the count seen so far. What the result keeps is proved of `Trimmed` above.
   */
  method TrimSurplus<T>(list: seq<T>, res: Summary<T>) returns (out: seq<T>)
    ensures out == Trimmed(list, res.item, res.needCount)
  {
    var acc: seq<T> := [];
    var seen := 0;
    var i := 0;
    while i < |list|
      invariant 0 <= i <= |list|
      invariant acc + Trimmed(list[i..], res.item, res.needCount - seen) == Trimmed(list, res.item, res.needCount)
    {
      var isItem := res.item(list[i]);
      TrimmedStep(list, res.item, res.needCount - seen, i);
      if !isItem || seen < res.needCount {
        acc := acc + [list[i]];
      }
      if isItem {
        seen := seen + 1;
      }
      i := i + 1;
    }
    assert list[i..] == [];
    out := acc;
  }

  // ---------------------------------------------------------------------
  // The too-few repair (src/custom.spec.ts:42-50)

  /** `range(n)`. */
  function Range(n: nat): (r: seq<nat>)
    ensures |r| == n && forall j :: 0 <= j < n ==> r[j] == j
  {
    seq(n, j => j)
  }

  /** The insertion indices: the sampled ones for a non-empty list, `range(howMuch)` otherwise. */
  function Positions(len: nat, howMuch: nat, sampled: seq<nat>): seq<nat>
  {
    if len > 0 then sampled else Range(howMuch)
  }

  /**
   * Each insertion, taken in order, goes at an index no larger than the
   * length of the list at that moment (so `splice` never clamps it).
   */
  predicate Fits(idxs: seq<nat>, len: nat)
    decreases |idxs|
  {
    idxs == [] || (idxs[0] <= len && Fits(idxs[1..], len + 1))
  }

  /** An index bound that grows by one per insertion is enough to fit. */
  lemma {:induction false} FitsByBound(idxs: seq<nat>, len: nat)
    requires forall j :: 0 <= j < |idxs| ==> idxs[j] <= len + j
    ensures Fits(idxs, len)
    decreases |idxs|
  {
    if idxs != [] {
      FitsByBound(idxs[1..], len + 1);
    }
  }

  /** The drawn indices always fit, and there are `howMuch` of them. */
  lemma PositionsFit(len: nat, howMuch: nat, sampled: seq<nat>)
    requires len > 0 ==> |sampled| == howMuch && forall j :: 0 <= j < |sampled| ==> sampled[j] < len
    ensures |Positions(len, howMuch, sampled)| == howMuch
    ensures Fits(Positions(len, howMuch, sampled), len)
  {
    FitsByBound(Positions(len, howMuch, sampled), len);
  }

  /** The `forEach` of `splice(idx, 0, element)` calls over `zip(idxs, elements)`, in order. */
  function InsertAll<T>(s: seq<T>, idxs: seq<nat>, es: seq<T>): (r: seq<T>)
    requires |idxs| == |es| && Fits(idxs, |s|)
    ensures |r| == |s| + |idxs|
    decreases |idxs|
  {
    if idxs == [] then s
    else InsertAll(Insert(s, idxs[0], es[0]), idxs[1..], es[1..])
  }

  /** The original elements keep their relative order. */
  lemma {:induction false} InsertAllSubseq<T>(a: seq<T>, s: seq<T>, idxs: seq<nat>, es: seq<T>)
    requires |idxs| == |es| && Fits(idxs, |s|) && Subseq(a, s)
    ensures Subseq(a, InsertAll(s, idxs, es))
    decreases |idxs|
  {
    if idxs != [] {
      SubseqInsert(a, s, idxs[0], es[0]);
      InsertAllSubseq(a, Insert(s, idxs[0], es[0]), idxs[1..], es[1..]);
    }
  }

  /** Nothing but the inserted elements is added. */
  lemma {:induction false} InsertAllMultiset<T>(s: seq<T>, idxs: seq<nat>, es: seq<T>)
    requires |idxs| == |es| && Fits(idxs, |s|)
    ensures multiset(InsertAll(s, idxs, es)) == multiset(s) + multiset(es)
    decreases |idxs|
  {
    if idxs != [] {
      MultisetInsert(s, idxs[0], es[0]);
      InsertAllMultiset(Insert(s, idxs[0], es[0]), idxs[1..], es[1..]);
      assert es == [es[0]] + es[1..];
    }
  }

  /** The matching count grows by the number of matching inserted elements. */
  lemma {:induction false} InsertAllCount<T>(s: seq<T>, idxs: seq<nat>, es: seq<T>, p: T -> bool)
    requires |idxs| == |es| && Fits(idxs, |s|)
    ensures Count(InsertAll(s, idxs, es), p) == Count(s, p) + Count(es, p)
    decreases |idxs|
  {
    if idxs != [] {
      CountInsert(s, idxs[0], es[0], p);
      InsertAllCount(Insert(s, idxs[0], es[0]), idxs[1..], es[1..], p);
    }
  }

  /** A sequence all of whose elements match has all of them counted. */
  lemma {:induction false} CountAll<T>(s: seq<T>, p: T -> bool)
    requires forall x :: x in s ==> p(x)
    ensures Count(s, p) == |s|
  {
    if s != [] {
      CountAll(s[1..], p);
    }
  }

  /** The too-few callback: `howMuch` splices of the drawn elements at the drawn indices. */
  method FillMissing<T>(list: seq<T>, res: Summary<T>, sampled: seq<nat>, elements: seq<T>)
    returns (out: seq<T>)
    requires res.needCount > res.count
    requires |elements| == res.needCount - res.count
    requires |list| > 0 ==>
      |sampled| == res.needCount - res.count &&
      forall j :: 0 <= j < |sampled| ==> sampled[j] < |list|
    ensures Fits(Positions(|list|, res.needCount - res.count, sampled), |list|)
    ensures |Positions(|list|, res.needCount - res.count, sampled)| == |elements|
    ensures out == InsertAll(list, Positions(|list|, res.needCount - res.count, sampled), elements)
    ensures |out| == |list| + (res.needCount - res.count)
    ensures Subseq(list, out)
    ensures multiset(out) == multiset(list) + multiset(elements)
    ensures res.count == Count(list, res.item) && (forall e :: e in elements ==> res.item(e)) ==>
      Count(out, res.item) == res.needCount
  {
    var howMuch: nat := res.needCount - res.count;
    var idxs := if |list| > 0 then sampled else Range(howMuch);
    PositionsFit(|list|, howMuch, sampled);
    assert idxs == Positions(|list|, howMuch, sampled);
    out := list;
    var j := 0;
    while j < |idxs|
      invariant 0 <= j <= |idxs|
      invariant |out| == |list| + j
      invariant Fits(idxs[j..], |out|)
      invariant InsertAll(out, idxs[j..], elements[j..]) == InsertAll(list, idxs, elements)
    {
      assert idxs[j..][1..] == idxs[j + 1..];
      assert elements[j..][1..] == elements[j + 1..];
      out := Insert(out, idxs[j], elements[j]);
      j := j + 1;
    }
    assert idxs[j..] == [] && elements[j..] == [];
    SubseqRefl(list);
    InsertAllSubseq(list, list, idxs, elements);
    InsertAllMultiset(list, idxs, elements);
    InsertAllCount(list, idxs, elements, res.item);
    if forall e :: e in elements ==> res.item(e) {
      CountAll(elements, res.item);
    }
  }

  // ---------------------------------------------------------------------
  // The correction of `generatorContains` (src/custom.spec.ts:37-66)

  /**
   * The function `generatorContains` passes to `smap`: the list unchanged
   * when the count is right, spliced when too few match, trimmed when too
   * many match. When the count asked for is not negative and the drawn
   * elements all match, the result passes `ArrayWithContains`.
   */
  method Repair<T>(coll: seq<T>, args: Args<T>, sampled: seq<nat>, elements: seq<T>)
    returns (out: seq<T>)
    requires NeedCount(args.count) > Count(coll, args.item) ==>
      |elements| == NeedCount(args.count) - Count(coll, args.item) &&
      (|coll| > 0 ==>
        |sampled| == |elements| && forall j :: 0 <= j < |sampled| ==> sampled[j] < |coll|)
    ensures Classify(coll, args) == Equal ==> out == coll
    ensures Classify(coll, args) == TooFew ==>
      var idxs := Positions(|coll|, NeedCount(args.count) - Count(coll, args.item), sampled);
      |idxs| == |elements| && Fits(idxs, |coll|) && out == InsertAll(coll, idxs, elements)
    ensures Classify(coll, args) == TooFew ==>
      Subseq(coll, out) && multiset(out) == multiset(coll) + multiset(elements)
    ensures Classify(coll, args) == TooMany ==> out == Trimmed(coll, args.item, NeedCount(args.count))
    ensures NeedCount(args.count) >= 0 && (forall e :: e in elements ==> args.item(e)) ==>
      CheckContains(out, args) == Pass
  {
    var res := Summarize(coll, args);
    match Classify(coll, args)
    case Equal =>
      out := coll;
    case TooFew =>
      out := FillMissing(coll, res, sampled, elements);
    case TooMany =>
      out := TrimSurplus(coll, res);
      TrimmedKeepsFirstMatching(coll, args.item, res.needCount);
  }
}
