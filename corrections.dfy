/**
 * src/index.spec.ts: the two validator/correction pairs used with
 * `withConstraint(result, value)`. The validator part says whether a value
 * is accepted; the correction part is the value the `smap` of the
 * constraint strategy turns each draw into.
 */
module Corrections {
  import opened Wrappers
  import opened Seqs
  import opened Runtypes

  /** The `{ result, value }` object a checking function returns. */
  datatype Checked<R, V> = Checked(result: R, value: V)

  // ---------------------------------------------------------------------
  // positiveConstraint (src/index.spec.ts:70-76)

  /** Accepts positive numbers; corrects every other number to 3. */
  function PositiveConstraint(n: real): (c: Checked<bool, real>)
    ensures c.result <==> n > 0.0
    ensures c.result ==> c.value == n
    ensures !c.result ==> c.value == 3.0
    ensures c.value > 0.0
  {
    var isPos := n > 0.0;
    Checked(isPos, if isPos then n else 3.0)
  }

  /** The corrected value is always accepted, and a value already accepted is left alone. */
  lemma PositiveRepairsInOneStep(n: real)
    ensures PositiveConstraint(PositiveConstraint(n).value).result
    ensures PositiveConstraint(n).result ==> PositiveConstraint(n).value == n
  {
  }

  // ---------------------------------------------------------------------
  // checkFamily (src/index.spec.ts:115-163)

  /** A family member: `role`, the `fio` object and the optional `dependant` key. */
  datatype Member = Member(role: Value, fio: map<string, Value>, dependant: Option<Value>)

  /** A family object: its `type` and its `members`. */
  datatype Family = Family(kind: Value, members: seq<Member>)

  const Espoused: Value := StringValue("espoused")

  /** The member `{ role: 'spouse', fio: {} }` the first correction prepends. */
  const AddedSpouse: Member := Member(StringValue("spouse"), map[], None)

  const NoSpouseMessage := "Espoused but has not spouse"
  const StraySpouseMessage := "Not espoused but has spouse"
  const ExtraSpouseMessage := "Has more than 1 spouse"

  predicate IsSpouse(m: Member)
  {
    m.role == StringValue("spouse")
  }

  predicate IsNotSpouse(m: Member)
  {
    !IsSpouse(m)
  }

  /** Number of members whose role is 'spouse' (`spouse.length`). */
  function SpouseCount(ms: seq<Member>): nat
  {
    Count(ms, IsSpouse)
  }

  /**
   * What the third correction's `reduce` keeps: nothing before the first
   * spouse, that spouse, and every non-spouse after it.
   */
  function FirstSpouseOnward(ms: seq<Member>): seq<Member>
  {
    if ms == [] then []
    else if IsSpouse(ms[0]) then [ms[0]] + Filter(ms[1..], IsNotSpouse)
    else FirstSpouseOnward(ms[1..])
  }

  /** `checkFamily`: the verdict and, on a failure, the corrected family. */
  function CheckFamily(f: Family): (c: Checked<Verdict, Family>)
    ensures c.result == Pass <==>
      (f.kind == Espoused && SpouseCount(f.members) == 1) ||
      (f.kind != Espoused && SpouseCount(f.members) == 0)
    ensures c.result == Pass ==> c.value == f
    ensures c.value.kind == f.kind
    ensures c.result.Fail? ==>
      c.result.message in {NoSpouseMessage, StraySpouseMessage, ExtraSpouseMessage}
  {
    var spouses := Filter(f.members, IsSpouse);
    if f.kind == Espoused && |spouses| == 0 then
      Checked(Fail(NoSpouseMessage), Family(f.kind, [AddedSpouse] + f.members))
    else if f.kind != Espoused && |spouses| != 0 then
      Checked(Fail(StraySpouseMessage), Family(f.kind, Filter(f.members, IsNotSpouse)))
    else if |spouses| > 1 then
      Checked(Fail(ExtraSpouseMessage), Family(f.kind, FirstSpouseOnward(f.members)))
    else
      Checked(Pass, f)
  }

  /** One step of the `reduce` at index `i`, for either value of `hasSpouse`. */
  lemma KeepFirstSpouseStep(ms: seq<Member>, i: nat)
    requires i < |ms|
    ensures Filter(ms[i..], IsNotSpouse) ==
      (if IsSpouse(ms[i]) then [] else [ms[i]]) + Filter(ms[i + 1..], IsNotSpouse)
    ensures FirstSpouseOnward(ms[i..]) ==
      if IsSpouse(ms[i]) then [ms[i]] + Filter(ms[i + 1..], IsNotSpouse)
      else FirstSpouseOnward(ms[i + 1..])
  {
    assert ms[i..][0] == ms[i] && ms[i..][1..] == ms[i + 1..];
  }

  /** The `reduce` of the third correction, one member at a time with the `hasSpouse` flag. */
  method KeepFirstSpouse(members: seq<Member>) returns (kept: seq<Member>)
    ensures kept == FirstSpouseOnward(members)
  {
    kept := [];
    var hasSpouse := false;
    var i := 0;
    while i < |members|
      invariant 0 <= i <= |members|
      invariant !hasSpouse ==> kept == [] && FirstSpouseOnward(members[i..]) == FirstSpouseOnward(members)
      invariant hasSpouse ==> kept + Filter(members[i..], IsNotSpouse) == FirstSpouseOnward(members)
    {
      var m := members[i];
      KeepFirstSpouseStep(members, i);
      if !IsSpouse(m) && hasSpouse {
        kept := kept + [m];
      } else if IsSpouse(m) && !hasSpouse {
        kept := kept + [m];
        hasSpouse := true;
      }
      i := i + 1;
    }
    assert members[i..] == [];
  }

  /** No member is a spouse after the filter. */
  lemma {:induction false} NonSpousesHaveNoSpouse(ms: seq<Member>)
    ensures SpouseCount(Filter(ms, IsNotSpouse)) == 0
  {
    if ms != [] {
      NonSpousesHaveNoSpouse(ms[1..]);
      if IsNotSpouse(ms[0]) {
        assert ([ms[0]] + Filter(ms[1..], IsNotSpouse))[1..] == Filter(ms[1..], IsNotSpouse);
      }
    }
  }

  /** Exactly one spouse survives the third correction when there was at least one. */
  lemma {:induction false} FirstSpouseOnwardSpouseCount(ms: seq<Member>)
    ensures SpouseCount(FirstSpouseOnward(ms)) == if SpouseCount(ms) > 0 then 1 else 0
  {
    if ms != [] {
      if IsSpouse(ms[0]) {
        NonSpousesHaveNoSpouse(ms[1..]);
        var rest := Filter(ms[1..], IsNotSpouse);
        assert ([ms[0]] + rest)[1..] == rest;
      } else {
        FirstSpouseOnwardSpouseCount(ms[1..]);
      }
    }
  }

  /**
   * The third correction's members, positionally: with `k` the index of the
   * first spouse, that spouse and the non-spouses after it; the members
   * before it are dropped.
   */
  lemma {:induction false} FirstSpouseOnwardAt(ms: seq<Member>, k: nat)
    requires k < |ms| && IsSpouse(ms[k])
    requires forall j :: 0 <= j < k ==> !IsSpouse(ms[j])
    ensures FirstSpouseOnward(ms) == [ms[k]] + Filter(ms[k + 1..], IsNotSpouse)
  {
    if k > 0 {
      assert ms[1..][k - 1] == ms[k];
      assert ms[1..][k..] == ms[k + 1..];
      FirstSpouseOnwardAt(ms[1..], k - 1);
    }
  }

  /** Branch "espoused but no spouse": a spouse is prepended, nothing else changes. */
  lemma MissingSpouseCorrection(f: Family)
    requires f.kind == Espoused && SpouseCount(f.members) == 0
    ensures CheckFamily(f) == Checked(Fail(NoSpouseMessage), Family(f.kind, [AddedSpouse] + f.members))
  {
  }

  /** Branch "not espoused but has spouse": every spouse is removed, order kept. */
  lemma StraySpouseCorrection(f: Family)
    requires f.kind != Espoused && SpouseCount(f.members) != 0
    ensures CheckFamily(f).result == Fail(StraySpouseMessage)
    ensures CheckFamily(f).value.members == Filter(f.members, IsNotSpouse)
    ensures Subseq(CheckFamily(f).value.members, f.members)
    ensures SpouseCount(CheckFamily(f).value.members) == 0
  {
    FilterSubseq(f.members, IsNotSpouse);
    NonSpousesHaveNoSpouse(f.members);
  }

  /** Branch "more than one spouse": only reachable for an espoused family; one spouse is kept. */
  lemma ExtraSpouseCorrection(f: Family)
    requires CheckFamily(f).result == Fail(ExtraSpouseMessage)
    ensures f.kind == Espoused && SpouseCount(f.members) > 1
    ensures CheckFamily(f).value.members == FirstSpouseOnward(f.members)
    ensures SpouseCount(CheckFamily(f).value.members) == 1
  {
    FirstSpouseOnwardSpouseCount(f.members);
  }

  /**
   * The correction repairs in one step: whatever the family, its corrected
   * value passes the check (what the `FamilyObjectWithConstraint` test needs).
   */
  lemma CheckFamilyRepairsInOneStep(f: Family)
    ensures CheckFamily(CheckFamily(f).value).result == Pass
  {
    var c := CheckFamily(f);
    if c.result == Fail(NoSpouseMessage) {
      CountConcat([AddedSpouse], f.members, IsSpouse);
      assert Filter([AddedSpouse], IsSpouse) == [AddedSpouse] by {
        assert [AddedSpouse][1..] == [];
      }
    } else if c.result == Fail(StraySpouseMessage) {
      NonSpousesHaveNoSpouse(f.members);
    } else if c.result == Fail(ExtraSpouseMessage) {
      FirstSpouseOnwardSpouseCount(f.members);
    }
  }
}
