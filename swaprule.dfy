/** The shard committee swap rule, version 3
  * (blockchain/committeestate/swap_rule_v3.go): penalised flexible members
  * are slashed, then a share of the flexible members is swapped out for
  * substitutes, then substitutes are swapped in up to the committee's
  * maximum size. The first numberOfFixedValidators members are never moved.
  *
  * Two places in the source do not do what the rule evidently means; the
  * model writes each down as it is and as it is meant, and the swap itself
  * (GenInstructions) is the meant one. */
module SwapRule {
  import opened Common
  import Grouping

  /** MAX_SLASH_PERCENT, MAX_SWAP_OUT_PERCENT, MAX_SWAP_IN_PERCENT and
    * MAX_ASSIGN_PERCENT: divisors of the committee size. Their values live
    * outside this file; the model takes them as parameters. */
  datatype Percents = Percents(maxSlash: int, maxSwapOut: int, maxSwapIn: int, maxAssign: int)

  predicate ValidPercents(pc: Percents)
  {
    pc.maxSlash > 0 && pc.maxSwapOut > 0 && pc.maxSwapIn > 0 && pc.maxAssign > 0
  }

  /** The swap instruction: empty, or the keys swapped in and out of a
    * shard. */
  datatype SwapInstruction =
    | EmptySwap
    | SwapShard(inPublicKeys: seq<string>, outPublicKeys: seq<string>, chainID: int, typ: int)

  // Offsets

  /** getSlashingOffset: no slashing for a committee at its minimum size or
    * made only of fixed validators; otherwise a share of the committee, at
    * most its flexible part. */
  function GetSlashingOffset(lenCommittees: int, minCommitteeSize: int, numberOfFixedValidators: int,
                             maxSlashOutPercent: int): (r: int)
    requires maxSlashOutPercent > 0
    ensures lenCommittees == minCommitteeSize || lenCommittees == numberOfFixedValidators ==> r == 0
    ensures lenCommittees != minCommitteeSize && lenCommittees != numberOfFixedValidators ==>
              r <= lenCommittees / maxSlashOutPercent && r <= lenCommittees - numberOfFixedValidators
              && (r == lenCommittees / maxSlashOutPercent || r == lenCommittees - numberOfFixedValidators)
    ensures 0 <= numberOfFixedValidators <= lenCommittees ==> 0 <= r <= lenCommittees - numberOfFixedValidators
  {
    if lenCommittees == minCommitteeSize then 0
    else if lenCommittees == numberOfFixedValidators then 0
    else
      var offset := lenCommittees / maxSlashOutPercent;
      if numberOfFixedValidators + offset > lenCommittees then lenCommittees - numberOfFixedValidators
      else offset
  }

  /** getNormalSwapOutOffset: what the swap-out share leaves after slashing,
    * at most the number of substitutes; nothing when slashing already took
    * the share, when the committee is below its minimum size, or when there
    * is no substitute. The number of fixed validators is not consulted. */
  function GetNormalSwapOutOffset(lenCommitteesBeforeSlash: int, lenSubstitutes: int, lenSlashedCommittees: int,
                                  maxSwapOutPercent: int, numberOfFixedValidators: int, minCommitteeSize: int): (r: int)
    requires maxSwapOutPercent > 0 && lenSubstitutes >= 0
    ensures r > 0 <==> lenSlashedCommittees < lenCommitteesBeforeSlash / maxSwapOutPercent
                       && lenCommitteesBeforeSlash >= minCommitteeSize && lenSubstitutes > 0
    ensures 0 <= r <= lenSubstitutes
    ensures r > 0 ==> lenSlashedCommittees + r <= lenCommitteesBeforeSlash / maxSwapOutPercent
    ensures r > 0 ==> lenSlashedCommittees + r == lenCommitteesBeforeSlash / maxSwapOutPercent || r == lenSubstitutes
  {
    var offset := lenCommitteesBeforeSlash / maxSwapOutPercent;
    if lenSlashedCommittees >= offset then 0
    else if lenCommitteesBeforeSlash < minCommitteeSize then 0
    else if lenSubstitutes == 0 then 0
    else
      var offset := offset - lenSlashedCommittees;
      if offset > lenSubstitutes then lenSubstitutes else offset
  }

  /** getSwapInOffset: all substitutes when there are fewer than the swap-in
    * share (with no size cap), otherwise the share cut down so that the
    * committee does not grow past maxCommitteeSize. The cut can go below
    * zero when the committee is already larger than that size. */
  function GetSwapInOffset(lenCommitteesAfterSwapOut: int, lenSubstitutes: int, maxSwapInPercent: int,
                           maxCommitteeSize: int): (r: int)
    requires maxSwapInPercent > 0
    ensures lenSubstitutes < lenCommitteesAfterSwapOut / maxSwapInPercent ==> r == lenSubstitutes
    ensures lenSubstitutes >= lenCommitteesAfterSwapOut / maxSwapInPercent ==>
              && r <= lenCommitteesAfterSwapOut / maxSwapInPercent
              && (lenCommitteesAfterSwapOut + r <= maxCommitteeSize || r == lenCommitteesAfterSwapOut / maxSwapInPercent)
              && (lenCommitteesAfterSwapOut + lenCommitteesAfterSwapOut / maxSwapInPercent > maxCommitteeSize
                  ==> lenCommitteesAfterSwapOut + r == maxCommitteeSize)
    ensures r <= lenSubstitutes
    ensures lenCommitteesAfterSwapOut >= 0 && lenSubstitutes >= 0 ==>
              (r >= 0 <==> lenSubstitutes < lenCommitteesAfterSwapOut / maxSwapInPercent
                           || lenCommitteesAfterSwapOut <= maxCommitteeSize)
  {
    var offset := lenCommitteesAfterSwapOut / maxSwapInPercent;
    if lenSubstitutes < offset then lenSubstitutes
    else if lenCommitteesAfterSwapOut + offset > maxCommitteeSize then maxCommitteeSize - lenCommitteesAfterSwapOut
    else offset
  }

  /** AssignOffset: how many new candidates a shard takes, at least one. The
    * substitutes' count and the minimum size are not consulted. */
  function AssignOffset(lenShardSubstitute: int, lenCommittees: int, numberOfFixedValidators: int,
                        minCommitteeSize: int, maxAssignPercent: int): (r: int)
    requires maxAssignPercent > 0 && lenCommittees >= 0
    ensures r >= 1
    ensures r == 1 <==> (|| lenCommittees < maxAssignPercent
                         || lenCommittees - numberOfFixedValidators < lenCommittees / maxAssignPercent
                         || lenCommittees / maxAssignPercent == 1)
    ensures r != 1 ==> r == lenCommittees / maxAssignPercent
  {
    var assignOffset := lenCommittees / maxAssignPercent;
    if assignOffset == 0 && lenCommittees < maxAssignPercent then 1
    else if lenCommittees - numberOfFixedValidators < assignOffset then 1
    else assignOffset
  }

  // Slashing

  /** The slashing pass over the flexible members: what is kept, what is
    * slashed, and how much slashing budget is left. */
  datatype Slash = Slash(kept: seq<string>, slashed: seq<string>, budget: int)

  /** Whether a member has a penalty (the penalty map's keys). */
  function Penalized(penalty: set<string>): string -> bool
  {
    x => x in penalty
  }

  /** The slashing pass, member by member in committee order: a penalised
    * member is slashed while budget remains, anything else is kept. */
  function SlashScan(flex: seq<string>, penalty: set<string>, offset: int): Slash
  {
    if |flex| == 0 then Slash([], [], offset)
    else
      var r := SlashScan(flex[..|flex| - 1], penalty, offset);
      var x := flex[|flex| - 1];
      if x in penalty && r.budget > 0 then Slash(r.kept, r.slashed + [x], r.budget - 1)
      else Slash(r.kept + [x], r.slashed, r.budget)
  }

  /** The pass loses no member and invents none. */
  lemma {:induction false} SlashScanMultiset(flex: seq<string>, penalty: set<string>, offset: int)
    ensures var r := SlashScan(flex, penalty, offset);
            multiset(r.kept) + multiset(r.slashed) == multiset(flex)
  {
    if |flex| > 0 {
      SlashScanMultiset(flex[..|flex| - 1], penalty, offset);
      assert flex == flex[..|flex| - 1] + [flex[|flex| - 1]];
    }
  }

  /** The pass slashes exactly the first `offset` penalised members (all of
    * them when there are fewer), and the budget left is what it did not
    * use. */
  lemma {:induction false} SlashScanFirst(flex: seq<string>, penalty: set<string>, offset: int)
    requires offset >= 0
    ensures var r := SlashScan(flex, penalty, offset);
            var f := Grouping.Filter(flex, Penalized(penalty));
            && r.budget == offset - |r.slashed| >= 0
            && |r.slashed| == (if offset < |f| then offset else |f|)
            && r.slashed == f[..|r.slashed|]
  {
    if |flex| > 0 {
      var init := flex[..|flex| - 1];
      var x := flex[|flex| - 1];
      SlashScanFirst(init, penalty, offset);
      var f := Grouping.Filter(init, Penalized(penalty));
      assert Grouping.Filter(flex, Penalized(penalty)) == f + (if x in penalty then [x] else []);
    }
  }

  /** While budget is left, no penalised member is kept. */
  lemma {:induction false} SlashScanExhaustive(flex: seq<string>, penalty: set<string>, offset: int)
    ensures var r := SlashScan(flex, penalty, offset);
            r.budget > 0 ==> forall i :: 0 <= i < |r.kept| ==> r.kept[i] !in penalty
  {
    if |flex| > 0 {
      SlashScanExhaustive(flex[..|flex| - 1], penalty, offset);
      var r := SlashScan(flex[..|flex| - 1], penalty, offset);
      assert SlashScan(flex, penalty, offset).budget <= r.budget by {
        SlashScanBudgetFalls(flex, penalty, offset);
      }
    }
  }

  lemma SlashScanBudgetFalls(flex: seq<string>, penalty: set<string>, offset: int)
    requires |flex| > 0
    ensures SlashScan(flex, penalty, offset).budget <= SlashScan(flex[..|flex| - 1], penalty, offset).budget
  {
  }

  /** slashingSwapOut as a value: the fixed members stay in front, the
    * flexible ones go through the slashing pass. */
  function Slashing(committees: seq<string>, penalty: set<string>, minCommitteeSize: int,
                    numberOfFixedValidators: nat, maxSlashOutPercent: int): (seq<string>, seq<string>)
    requires numberOfFixedValidators <= |committees| && maxSlashOutPercent > 0
  {
    var offset := GetSlashingOffset(|committees|, minCommitteeSize, numberOfFixedValidators, maxSlashOutPercent);
    var r := SlashScan(committees[numberOfFixedValidators..], penalty, offset);
    (committees[..numberOfFixedValidators] + r.kept, r.slashed)
  }

  /** Slashing keeps the fixed members in front, loses and duplicates
    * nobody, slashes no more than the slashing offset, and slashes only
    * penalised members, the first ones in committee order. */
  lemma SlashingFacts(committees: seq<string>, penalty: set<string>, minCommitteeSize: int,
                      numberOfFixedValidators: nat, maxSlashOutPercent: int)
    requires numberOfFixedValidators <= |committees| && maxSlashOutPercent > 0
    ensures var (kept, slashed) := Slashing(committees, penalty, minCommitteeSize, numberOfFixedValidators, maxSlashOutPercent);
            var f := Grouping.Filter(committees[numberOfFixedValidators..], Penalized(penalty));
            && numberOfFixedValidators <= |kept|
            && kept[..numberOfFixedValidators] == committees[..numberOfFixedValidators]
            && multiset(kept) + multiset(slashed) == multiset(committees)
            && |kept| + |slashed| == |committees|
            && |slashed| <= GetSlashingOffset(|committees|, minCommitteeSize, numberOfFixedValidators, maxSlashOutPercent)
            && |slashed| <= |f| && slashed == f[..|slashed|]
            && (forall i :: 0 <= i < |slashed| ==> slashed[i] in penalty)
  {
    var offset := GetSlashingOffset(|committees|, minCommitteeSize, numberOfFixedValidators, maxSlashOutPercent);
    var fixed := committees[..numberOfFixedValidators];
    var flex := committees[numberOfFixedValidators..];
    var (kept, slashed) := Slashing(committees, penalty, minCommitteeSize, numberOfFixedValidators, maxSlashOutPercent);
    SlashScanMultiset(flex, penalty, offset);
    SlashScanFirst(flex, penalty, offset);
    assert kept[..numberOfFixedValidators] == fixed;
    assert committees == fixed + flex;
    assert |multiset(kept) + multiset(slashed)| == |multiset(committees)|;
    var f := Grouping.Filter(flex, Penalized(penalty));
    forall j | 0 <= j < |slashed|
      ensures slashed[j] in penalty
    {
      assert slashed[j] == f[j];
      Grouping.FilterMember(flex, Penalized(penalty), f[j]);
    }
  }

  /** Slashing removes from the committee exactly the members it slashes,
    * and at most the flexible ones. */
  lemma SlashingSizes(committees: seq<string>, penalty: set<string>, minCommitteeSize: int,
                      numberOfFixedValidators: nat, maxSlashOutPercent: int)
    requires numberOfFixedValidators <= |committees| && maxSlashOutPercent > 0
    ensures var (kept, slashed) := Slashing(committees, penalty, minCommitteeSize, numberOfFixedValidators, maxSlashOutPercent);
            |kept| + |slashed| == |committees| && |slashed| <= |committees| - numberOfFixedValidators
  {
    SlashingFacts(committees, penalty, minCommitteeSize, numberOfFixedValidators, maxSlashOutPercent);
  }

  /** The slashing loop over the flexible members. */
  method SlashingSwapOut(committees: seq<string>, penalty: set<string>, minCommitteeSize: int,
                         numberOfFixedValidators: nat, maxSlashOutPercent: int)
    returns (newCommittees: seq<string>, slashingCommittees: seq<string>)
    requires numberOfFixedValidators <= |committees| && maxSlashOutPercent > 0
    ensures (newCommittees, slashingCommittees)
            == Slashing(committees, penalty, minCommitteeSize, numberOfFixedValidators, maxSlashOutPercent)
  {
    var fixedCommittees := committees[..numberOfFixedValidators];
    var flexCommittees := committees[numberOfFixedValidators..];
    var flexAfterSlashingCommittees: seq<string> := [];
    slashingCommittees := [];
    var slashingOffset := GetSlashingOffset(|committees|, minCommitteeSize, numberOfFixedValidators, maxSlashOutPercent);
    ghost var offset := slashingOffset;
    var i := 0;
    while i < |flexCommittees|
      invariant 0 <= i <= |flexCommittees|
      invariant SlashScan(flexCommittees[..i], penalty, offset) == Slash(flexAfterSlashingCommittees, slashingCommittees, slashingOffset)
    {
      var flexCommittee := flexCommittees[i];
      assert flexCommittees[..i + 1][..i] == flexCommittees[..i];
      if flexCommittee in penalty && slashingOffset > 0 {
        slashingCommittees := slashingCommittees + [flexCommittee];
        slashingOffset := slashingOffset - 1;
      } else {
        flexAfterSlashingCommittees := flexAfterSlashingCommittees + [flexCommittee];
      }
      i := i + 1;
    }
    assert flexCommittees[..i] == flexCommittees;
    newCommittees := fixedCommittees + flexAfterSlashingCommittees;
  }

  // Normal swap-out

  /** normalSwapOut as meant: keep the fixed prefix and everything after
    * the swapped-out members, and hand back the `offset` members after the
    * prefix. None stands for the slice-bounds panic. */
  function NormalSwapOut(committees: seq<string>, lenSubstitutes: int, lenBeforeSlashedCommittees: int,
                         lenSlashedCommittees: int, maxSwapOutPercent: int, numberOfFixedValidators: nat,
                         minCommitteeSize: int): (r: Option<(seq<string>, seq<string>)>)
    requires maxSwapOutPercent > 0 && lenSubstitutes >= 0
    ensures var offset := GetNormalSwapOutOffset(lenBeforeSlashedCommittees, lenSubstitutes, lenSlashedCommittees,
                                                 maxSwapOutPercent, numberOfFixedValidators, minCommitteeSize);
            && (r.Some? <==> numberOfFixedValidators + offset <= |committees|)
            && (r.Some? ==>
                  && |r.value.1| == offset
                  && |r.value.0| == |committees| - offset
                  && r.value.0[..numberOfFixedValidators] == committees[..numberOfFixedValidators]
                  && r.value.0[..numberOfFixedValidators] + r.value.1 + r.value.0[numberOfFixedValidators..] == committees
                  && multiset(r.value.0) + multiset(r.value.1) == multiset(committees))
  {
    var offset := GetNormalSwapOutOffset(lenBeforeSlashedCommittees, lenSubstitutes, lenSlashedCommittees,
                                         maxSwapOutPercent, numberOfFixedValidators, minCommitteeSize);
    if numberOfFixedValidators + offset > |committees| then None
    else
      var f := numberOfFixedValidators;
      var kept := committees[..f] + committees[f + offset..];
      var out := committees[f..f + offset];
      assert kept[..f] == committees[..f] && kept[f..] == committees[f + offset..];
      assert committees[..f] + out + committees[f + offset..] == committees;
      Some((kept, out))
  }

  /** The backing array of the committee slice after
    * append(committees[:f], committees[f+offset:]...): the tail moves down
    * over the swapped-out members in place (the slice always has room), and
    * the last `offset` cells keep what they held. */
  function AppendedBacking(committees: seq<string>, f: nat, offset: nat): (r: seq<string>)
    requires f + offset <= |committees|
    ensures |r| == |committees|
    ensures forall k :: 0 <= k < |r| ==>
              r[k] == (if k < f then committees[k] else if k < |committees| - offset then committees[k + offset] else committees[k])
  {
    committees[..f] + committees[f + offset..] + committees[|committees| - offset..]
  }

  /** normalSwapOut as written, on the committee's backing array: the
    * append shifts the tail down in place, and the swapped-out list is then
    * read from the rewritten cells. */
  method NormalSwapOutInPlace(committees: array<string>, lenSubstitutes: int, lenBeforeSlashedCommittees: int,
                              lenSlashedCommittees: int, maxSwapOutPercent: int, numberOfFixedValidators: nat,
                              minCommitteeSize: int)
    returns (resCommittees: seq<string>, resNormalSwapOut: seq<string>)
    requires maxSwapOutPercent > 0 && lenSubstitutes >= 0
    requires numberOfFixedValidators + GetNormalSwapOutOffset(lenBeforeSlashedCommittees, lenSubstitutes,
               lenSlashedCommittees, maxSwapOutPercent, numberOfFixedValidators, minCommitteeSize) <= committees.Length
    modifies committees
    ensures var offset := GetNormalSwapOutOffset(lenBeforeSlashedCommittees, lenSubstitutes, lenSlashedCommittees,
                                                 maxSwapOutPercent, numberOfFixedValidators, minCommitteeSize);
            && committees[..] == AppendedBacking(old(committees[..]), numberOfFixedValidators, offset)
            && resCommittees == old(committees[..])[..numberOfFixedValidators] + old(committees[..])[numberOfFixedValidators + offset..]
            && resNormalSwapOut == committees[..][numberOfFixedValidators..numberOfFixedValidators + offset]
  {
    var offset := GetNormalSwapOutOffset(lenBeforeSlashedCommittees, lenSubstitutes, lenSlashedCommittees,
                                         maxSwapOutPercent, numberOfFixedValidators, minCommitteeSize);
    var f := numberOfFixedValidators;
    AppendInPlace(committees, f, offset);
    resCommittees := committees[..committees.Length - offset];
    resNormalSwapOut := committees[f..f + offset];
  }

  /** append(committees[:f], committees[f+offset:]...) on the slice's
    * backing array: the tail is copied down over the `offset` cells from
    * `f`, front to back. */
  method AppendInPlace(committees: array<string>, f: nat, offset: nat)
    requires f + offset <= committees.Length
    modifies committees
    ensures committees[..] == AppendedBacking(old(committees[..]), f, offset)
    ensures committees[..committees.Length - offset] == old(committees[..])[..f] + old(committees[..])[f + offset..]
  {
    ghost var before := committees[..];
    var n := committees.Length - f - offset;
    var j := 0;
    while j < n
      invariant 0 <= j <= n
      invariant forall k :: 0 <= k < f ==> committees[k] == before[k]
      invariant forall k :: f <= k < f + j ==> committees[k] == before[k + offset]
      invariant forall k :: f + j <= k < committees.Length ==> committees[k] == before[k]
    {
      committees[f + j] := committees[f + offset + j];
      j := j + 1;
    }
    ShiftedIsAppended(committees[..], before, f, offset);
  }

  /** A backing array whose tail has moved down by `offset` over the cells
    * from `f` on is the appended backing, and its first cells are the
    * remaining committee. */
  lemma ShiftedIsAppended(now: seq<string>, before: seq<string>, f: nat, offset: nat)
    requires |now| == |before| && f + offset <= |before|
    requires forall k :: 0 <= k < f ==> now[k] == before[k]
    requires forall k :: f <= k < |before| - offset ==> now[k] == before[k + offset]
    requires forall k :: |before| - offset <= k < |before| ==> now[k] == before[k]
    ensures now == AppendedBacking(before, f, offset)
    ensures now[..|before| - offset] == before[..f] + before[f + offset..]
  {
    var after := AppendedBacking(before, f, offset);
    assert forall k :: 0 <= k < |now| ==> now[k] == after[k];
    var rest := before[..f] + before[f + offset..];
    assert forall k :: 0 <= k < |before| - offset ==> now[k] == rest[k];
  }

  /** normalSwapOut as written, on a committee slice whose backing array
    * holds exactly its members: the remaining committee is right, and the
    * swapped-out list is read from the rewritten cells. None stands for the
    * slice-bounds panic. */
  method NormalSwapOutAsWritten(committees: seq<string>, lenSubstitutes: int, lenBeforeSlashedCommittees: int,
                                lenSlashedCommittees: int, maxSwapOutPercent: int, numberOfFixedValidators: nat,
                                minCommitteeSize: int)
    returns (r: Option<(seq<string>, seq<string>)>)
    requires maxSwapOutPercent > 0 && lenSubstitutes >= 0
    ensures var offset := GetNormalSwapOutOffset(lenBeforeSlashedCommittees, lenSubstitutes, lenSlashedCommittees,
                                                 maxSwapOutPercent, numberOfFixedValidators, minCommitteeSize);
            && (r.Some? <==> numberOfFixedValidators + offset <= |committees|)
            && (r.Some? ==>
                  && r.value.0 == committees[..numberOfFixedValidators] + committees[numberOfFixedValidators + offset..]
                  && r.value.1 == AppendedBacking(committees, numberOfFixedValidators, offset)[numberOfFixedValidators..numberOfFixedValidators + offset])
  {
    var offset := GetNormalSwapOutOffset(lenBeforeSlashedCommittees, lenSubstitutes, lenSlashedCommittees,
                                         maxSwapOutPercent, numberOfFixedValidators, minCommitteeSize);
    if numberOfFixedValidators + offset > |committees| {
      return None;
    }
    var backing := new string[|committees|](i requires 0 <= i < |committees| => committees[i]);
    assert forall i :: 0 <= i < backing.Length ==> backing[i] == committees[i];
    assert backing[..] == committees;
    var resCommittees, resNormalSwapOut := NormalSwapOutInPlace(backing, lenSubstitutes, lenBeforeSlashedCommittees,
                                                                lenSlashedCommittees, maxSwapOutPercent,
                                                                numberOfFixedValidators, minCommitteeSize);
    r := Some((resCommittees, resNormalSwapOut));
  }

  /** Whenever at least `offset` members follow the swapped-out ones, the
    * list normalSwapOut hands back as written holds those following members,
    * which stay in the committee, instead of the members that left it. */
  lemma AliasedSwapOutIsNext(committees: seq<string>, f: nat, offset: nat)
    requires f + 2 * offset <= |committees|
    ensures AppendedBacking(committees, f, offset)[f..f + offset] == committees[f + offset..f + 2 * offset]
  {
  }

  /** One committee shows it: with one fixed member and one member to swap
    * out, the list names "c", which stays, instead of "b", which leaves; the
    * meant normalSwapOut names "b" and loses nobody. */
  lemma AliasedSwapOutCounterexample()
    ensures AppendedBacking(["a", "b", "c", "d"], 1, 1)[1..2] == ["c"]
    ensures NormalSwapOut(["a", "b", "c", "d"], 1, 4, 0, 4, 1, 0) == Some((["a", "c", "d"], ["b"]))
    ensures multiset(["a", "c", "d"]) + multiset(["c"]) != multiset(["a", "b", "c", "d"])
  {
    AliasedSwapOutIsNext(["a", "b", "c", "d"], 1, 1);
    assert ["a", "b", "c", "d"][1..2] == ["b"];
    assert ["a", "b", "c", "d"][..1] + ["a", "b", "c", "d"][2..] == ["a", "c", "d"];
    assert "b" !in multiset(["a", "c", "d"]) + multiset(["c"]);
  }

  /** The normal swap-out list as GenInstructions returns it: the cells
    * from `f` of the committee's backing array after the swap-in append.
    * The slice left by the swap-out has length |afterSlash| - offset and the
    * capacity of the slashing result, |afterSlash| plus `spare` (Go's
    * growth policy, a parameter here); when the swapped-in members fit in
    * it, the append writes them into the cells from |afterSlash| - offset,
    * which the returned list may share. */
  function SwappedOutAfterSwapIn(afterSlash: seq<string>, f: nat, offset: nat, swapIn: seq<string>,
                                 spare: nat): (r: seq<string>)
    requires f + offset <= |afterSlash|
    ensures |r| == offset
    ensures var at := |afterSlash| - offset;
            forall k :: 0 <= k < offset ==>
              r[k] == (if |swapIn| <= offset + spare && at <= f + k < at + |swapIn| then swapIn[f + k - at]
                       else if f + k < at then afterSlash[f + k + offset] else afterSlash[f + k])
  {
    var backing := AppendedBacking(afterSlash, f, offset);
    if |swapIn| > offset + spare then backing[f..f + offset]
    else Overwritten(backing, |afterSlash| - offset, swapIn)[f..f + offset]
  }

  /** The cells of `backing` after an append writes `added` from cell `at`
    * on, as far as the backing's length. */
  function Overwritten(backing: seq<string>, at: nat, added: seq<string>): (r: seq<string>)
    requires at <= |backing|
    ensures |r| == |backing|
    ensures forall k :: 0 <= k < |r| ==> r[k] == (if at <= k < at + |added| then added[k - at] else backing[k])
  {
    if at + |added| <= |backing| then backing[..at] + added + backing[at + |added|..]
    else backing[..at] + added[..|backing| - at]
  }

  /** When the swapped-in members are no more than the swapped-out ones,
    * the append always writes in place, and when fewer than `offset`
    * members follow the swapped-out ones, it overwrites the returned list:
    * its cell at |afterSlash| - offset - f names the first swapped-in
    * member, whatever the spare capacity. */
  lemma SwapInOverwritesSwapOut(afterSlash: seq<string>, f: nat, offset: nat, swapIn: seq<string>, spare: nat)
    requires f + offset <= |afterSlash| < f + 2 * offset
    requires 0 < |swapIn| <= offset
    ensures var r := SwappedOutAfterSwapIn(afterSlash, f, offset, swapIn, spare);
            0 <= |afterSlash| - offset - f < offset && r[|afterSlash| - offset - f] == swapIn[0]
  {
  }

  /** With at least `offset` members after the swapped-out ones, the swap-in
    * append writes past the returned cells, which keep the members that
    * followed the leavers. */
  lemma SwapOutListUntouchedWhenRoomy(afterSlash: seq<string>, f: nat, offset: nat, swapIn: seq<string>, spare: nat)
    requires f + 2 * offset <= |afterSlash|
    ensures SwappedOutAfterSwapIn(afterSlash, f, offset, swapIn, spare) == afterSlash[f + offset..f + 2 * offset]
  {
    var r := SwappedOutAfterSwapIn(afterSlash, f, offset, swapIn, spare);
    assert forall k :: 0 <= k < offset ==> r[k] == afterSlash[f + offset..f + 2 * offset][k];
  }

  /** Committees [a, b, c] with two fixed members, one substitute and a
    * swap-out divisor of three: "c" leaves, the swap-in with the fixed count
    * as its cap takes "s1", and the append writes "s1" over the cell the
    * returned swap-out list reads, so GenInstructions returns ["s1"] while
    * its instruction names "c". */
  lemma SwapInOverwriteCounterexample(spare: nat)
    ensures Slashing(["a", "b", "c"], {}, 1, 2, 1) == (["a", "b", "c"], [])
    ensures GetNormalSwapOutOffset(3, 1, 0, 3, 2, 1) == 1
    ensures GetSwapInOffset(2, 1, 1, 2) == 1
    ensures AppendedBacking(["a", "b", "c"], 2, 1)[2..3] == ["c"]
    ensures SwappedOutAfterSwapIn(["a", "b", "c"], 2, 1, ["s1"], spare) == ["s1"]
  {
    var c := ["a", "b", "c"];
    assert c[2..] == ["c"] && ["c"][..0] == [];
    assert SlashScan(["c"], {}, 1) == Slash(["c"], [], 1);
    assert c[..2] + ["c"] == c;
  }

  // Swap-in

  /** The committee, the substitutes and the members swapped in. */
  datatype SwapIn = SwapIn(committees: seq<string>, substitutes: seq<string>, swapIn: seq<string>)

  /** swapInAfterSwapOut (parameters in the source's order): the first
    * `offset` substitutes join the end of the committee, in order, and the
    * others stay substitutes, in order. None stands for the slice-bounds
    * panic of a negative offset. The number of fixed validators is not
    * consulted. */
  function SwapInAfterSwapOut(committees: seq<string>, substitutes: seq<string>, maxSwapInPercent: int,
                              numberOfFixedValidators: int, maxCommitteeSize: int): (r: Option<SwapIn>)
    requires maxSwapInPercent > 0
    ensures var offset := GetSwapInOffset(|committees|, |substitutes|, maxSwapInPercent, maxCommitteeSize);
            && (r.None? <==> offset < 0)
            && (r.Some? ==>
                  && |r.value.swapIn| == offset
                  && r.value.committees == committees + r.value.swapIn
                  && r.value.swapIn + r.value.substitutes == substitutes)
  {
    var swapInOffset := GetSwapInOffset(|committees|, |substitutes|, maxSwapInPercent, maxCommitteeSize);
    if swapInOffset < 0 then None
    else
      assert substitutes[..swapInOffset] + substitutes[swapInOffset..] == substitutes;
      Some(SwapIn(committees + substitutes[..swapInOffset], substitutes[swapInOffset..], substitutes[..swapInOffset]))
  }

  /** Swapping in with the arguments in GenInstructions' order (the maximum
    * size where the fixed count belongs and the other way round) caps the
    * committee at the fixed count: a committee of eight after swap-out, with
    * four fixed members, five substitutes, a maximum of ten and a divisor of
    * six goes below zero and panics, where the parameters' own order swaps
    * in one substitute. */
  lemma SwapInArgumentOrderCounterexample()
    ensures var c := ["k1", "k2", "k3", "k4", "k5", "k6", "k7", "k8"];
            var s := ["s1", "s2", "s3", "s4", "s5"];
            && GetSwapInOffset(|c|, |s|, 6, 4) == -4
            && SwapInAfterSwapOut(c, s, 6, 10, 4).None?
            && SwapInAfterSwapOut(c, s, 6, 4, 10) == Some(SwapIn(c + ["s1"], ["s2", "s3", "s4", "s5"], ["s1"]))
  {
    var c := ["k1", "k2", "k3", "k4", "k5", "k6", "k7", "k8"];
    var s := ["s1", "s2", "s3", "s4", "s5"];
    assert s[..1] == ["s1"] && s[1..] == ["s2", "s3", "s4", "s5"];
  }

  // The whole rule

  /** What GenInstructions returns: the instruction, the new committee and
    * substitutes, the slashed and the normally swapped-out members; and the
    * members swapped in, which the instruction carries. */
  datatype SwapOutcome = SwapOutcome(inst: SwapInstruction, committees: seq<string>, substitutes: seq<string>,
                                     slashed: seq<string>, normalSwapOut: seq<string>, swapIn: seq<string>)

  /** The instruction for a swap: empty exactly when nobody moves. */
  function SwapInstructionFor(swapIn: seq<string>, swappedOut: seq<string>, shardID: Shard, typeIns: int): (r: SwapInstruction)
    ensures r.EmptySwap? <==> |swapIn| == 0 && |swappedOut| == 0
    ensures r.SwapShard? ==> r.inPublicKeys == swapIn && r.outPublicKeys == swappedOut && r.chainID == shardID && r.typ == typeIns
  {
    if |swapIn| == 0 && |swappedOut| == 0 then EmptySwap
    else SwapShard(swapIn, swappedOut, shardID, typeIns)
  }

  /** Neither slice of the swap panics when the fixed members leave room
    * for the swap-out share and the committee is within its maximum size. */
  lemma NoPanicWhenFits(afterSlash: seq<string>, substitutes: seq<string>, lenCommittees: int, lenSlashed: int,
                        pc: Percents, numberOfFixedValidators: nat, minCommitteeSize: int, maxCommitteeSize: int)
    requires ValidPercents(pc) && 0 <= lenSlashed <= lenCommittees - numberOfFixedValidators
    requires |afterSlash| == lenCommittees - lenSlashed
    requires numberOfFixedValidators + lenCommittees / pc.maxSwapOut <= lenCommittees <= maxCommitteeSize
    ensures var n := NormalSwapOut(afterSlash, |substitutes|, lenCommittees, lenSlashed, pc.maxSwapOut,
                                   numberOfFixedValidators, minCommitteeSize);
            && n.Some?
            && SwapInAfterSwapOut(n.value.0, substitutes, pc.maxSwapIn, numberOfFixedValidators, maxCommitteeSize).Some?
  {
    var offset := GetNormalSwapOutOffset(lenCommittees, |substitutes|, lenSlashed, pc.maxSwapOut,
                                         numberOfFixedValidators, minCommitteeSize);
    assert numberOfFixedValidators + offset <= |afterSlash|;
  }

  /** Slashing, swap-out and swap-in together lose and duplicate nobody
    * and leave the fixed members in front. */
  lemma SwapConserves(committees: seq<string>, substitutes: seq<string>, f: nat, slashed: seq<string>,
                      afterSlash: seq<string>, normal: seq<string>, afterSwapOut: seq<string>, swapIn: seq<string>,
                      newCommittees: seq<string>, newSubstitutes: seq<string>)
    requires f <= |committees| && f <= |afterSlash| && f <= |afterSwapOut|
    requires multiset(afterSlash) + multiset(slashed) == multiset(committees)
    requires afterSlash[..f] == committees[..f]
    requires multiset(afterSwapOut) + multiset(normal) == multiset(afterSlash)
    requires afterSwapOut[..f] == afterSlash[..f]
    requires newCommittees == afterSwapOut + swapIn && swapIn + newSubstitutes == substitutes
    ensures f <= |newCommittees| && newCommittees[..f] == committees[..f]
    ensures multiset(newCommittees) + multiset(newSubstitutes) + multiset(slashed) + multiset(normal)
            == multiset(committees) + multiset(substitutes)
  {
    assert newCommittees[..f] == afterSwapOut[..f];
    assert multiset(swapIn) + multiset(newSubstitutes) == multiset(substitutes);
  }

  /** GenInstructions as meant: slashing, then normal swap-out, then
    * swap-in with the maximum committee size as the cap. None stands for a
    * slice-bounds panic. */
  function Rule(shardID: Shard, committees: seq<string>, substitutes: seq<string>, minCommitteeSize: int,
                maxCommitteeSize: int, typeIns: int, numberOfFixedValidators: nat, penalty: set<string>,
                pc: Percents): Option<SwapOutcome>
    requires ValidPercents(pc)
  {
    if numberOfFixedValidators > |committees| then None
    else
      var (afterSlash, slashed) := Slashing(committees, penalty, minCommitteeSize, numberOfFixedValidators, pc.maxSlash);
      var normal := NormalSwapOut(afterSlash, |substitutes|, |committees|, |slashed|, pc.maxSwapOut,
                                  numberOfFixedValidators, minCommitteeSize);
      if normal.None? then None
      else
        var (afterSwapOut, out) := normal.value;
        var swapped := SwapInAfterSwapOut(afterSwapOut, substitutes, pc.maxSwapIn, numberOfFixedValidators,
                                          maxCommitteeSize);
        if swapped.None? then None
        else
          var s := swapped.value;
          Some(SwapOutcome(SwapInstructionFor(s.swapIn, slashed + out, shardID, typeIns), s.committees,
                           s.substitutes, slashed, out, s.swapIn))
  }

  /** The rule loses and duplicates nobody, leaves the fixed members in
    * front, swaps in the first substitutes in order, slashes only penalised
    * members, and its instruction is empty exactly when nobody moves; when
    * the substitutes fill the swap-in share, the committee stays within its
    * maximum size. */
  lemma RuleSound(shardID: Shard, committees: seq<string>, substitutes: seq<string>, minCommitteeSize: int,
                  maxCommitteeSize: int, typeIns: int, numberOfFixedValidators: nat, penalty: set<string>,
                  pc: Percents)
    requires ValidPercents(pc)
    ensures var r := Rule(shardID, committees, substitutes, minCommitteeSize, maxCommitteeSize, typeIns,
                          numberOfFixedValidators, penalty, pc);
      r.Some? ==>
      var o := r.value;
      && numberOfFixedValidators <= |committees| && numberOfFixedValidators <= |o.committees|
      && multiset(o.committees) + multiset(o.substitutes) + multiset(o.slashed) + multiset(o.normalSwapOut)
         == multiset(committees) + multiset(substitutes)
      && o.committees[..numberOfFixedValidators] == committees[..numberOfFixedValidators]
      && o.swapIn + o.substitutes == substitutes
      && (forall i :: 0 <= i < |o.slashed| ==> o.slashed[i] in penalty)
      && (o.inst.EmptySwap? <==> |o.swapIn| == 0 && |o.slashed| == 0 && |o.normalSwapOut| == 0)
      && (|substitutes| >= (|o.committees| - |o.swapIn|) / pc.maxSwapIn && |o.committees| - |o.swapIn| <= maxCommitteeSize
          ==> |o.committees| <= maxCommitteeSize)
  {
    var r := Rule(shardID, committees, substitutes, minCommitteeSize, maxCommitteeSize, typeIns,
                  numberOfFixedValidators, penalty, pc);
    if r.Some? {
      var f := numberOfFixedValidators;
      SlashingFacts(committees, penalty, minCommitteeSize, f, pc.maxSlash);
      var (afterSlash, slashed) := Slashing(committees, penalty, minCommitteeSize, f, pc.maxSlash);
      var (afterSwapOut, out) := NormalSwapOut(afterSlash, |substitutes|, |committees|, |slashed|, pc.maxSwapOut,
                                               f, minCommitteeSize).value;
      var s := SwapInAfterSwapOut(afterSwapOut, substitutes, pc.maxSwapIn, f, maxCommitteeSize).value;
      SwapConserves(committees, substitutes, f, slashed, afterSlash, out, afterSwapOut, s.swapIn, s.committees,
                    s.substitutes);
    }
  }

  /** The rule does not panic when the fixed members fit in the committee
    * with the swap-out share beside them and the committee is within its
    * maximum size. */
  lemma RuleNoPanic(shardID: Shard, committees: seq<string>, substitutes: seq<string>, minCommitteeSize: int,
                    maxCommitteeSize: int, typeIns: int, numberOfFixedValidators: nat, penalty: set<string>,
                    pc: Percents)
    requires ValidPercents(pc)
    requires numberOfFixedValidators + |committees| / pc.maxSwapOut <= |committees| <= maxCommitteeSize
    ensures Rule(shardID, committees, substitutes, minCommitteeSize, maxCommitteeSize, typeIns,
                 numberOfFixedValidators, penalty, pc).Some?
  {
    var f := numberOfFixedValidators;
    assert f <= |committees|;
    SlashingSizes(committees, penalty, minCommitteeSize, f, pc.maxSlash);
    var (afterSlash, slashed) := Slashing(committees, penalty, minCommitteeSize, f, pc.maxSlash);
    NoPanicWhenFits(afterSlash, substitutes, |committees|, |slashed|, pc, f, minCommitteeSize, maxCommitteeSize);
    RuleSomeWhenBothFit(shardID, committees, substitutes, minCommitteeSize, maxCommitteeSize, typeIns, f, penalty, pc);
  }

  /** The rule answers exactly when the fixed members fit and neither
    * slice panics: the swap-out share fits after the fixed members, and the
    * swap-in offset is not negative. */
  lemma RuleSomeWhenBothFit(shardID: Shard, committees: seq<string>, substitutes: seq<string>, minCommitteeSize: int,
                            maxCommitteeSize: int, typeIns: int, numberOfFixedValidators: nat, penalty: set<string>,
                            pc: Percents)
    requires ValidPercents(pc)
    ensures var f := numberOfFixedValidators;
            Rule(shardID, committees, substitutes, minCommitteeSize, maxCommitteeSize, typeIns, f, penalty, pc).Some?
            <==> f <= |committees| &&
                 var (afterSlash, slashed) := Slashing(committees, penalty, minCommitteeSize, f, pc.maxSlash);
                 var offset := GetNormalSwapOutOffset(|committees|, |substitutes|, |slashed|, pc.maxSwapOut, f,
                                                      minCommitteeSize);
                 f + offset <= |afterSlash|
                 && GetSwapInOffset(|afterSlash| - offset, |substitutes|, pc.maxSwapIn, maxCommitteeSize) >= 0
  {
    var f := numberOfFixedValidators;
    var r := Rule(shardID, committees, substitutes, minCommitteeSize, maxCommitteeSize, typeIns, f, penalty, pc);
    if f <= |committees| {
      var (afterSlash, slashed) := Slashing(committees, penalty, minCommitteeSize, f, pc.maxSlash);
      var offset := GetNormalSwapOutOffset(|committees|, |substitutes|, |slashed|, pc.maxSwapOut, f, minCommitteeSize);
      var n := NormalSwapOut(afterSlash, |substitutes|, |committees|, |slashed|, pc.maxSwapOut, f, minCommitteeSize);
      assert n.Some? <==> f + offset <= |afterSlash|;
      if n.Some? {
        var sw := SwapInAfterSwapOut(n.value.0, substitutes, pc.maxSwapIn, f, maxCommitteeSize);
        assert |n.value.0| == |afterSlash| - offset;
        assert sw.Some? <==> GetSwapInOffset(|afterSlash| - offset, |substitutes|, pc.maxSwapIn, maxCommitteeSize) >= 0;
        assert r.Some? <==> sw.Some?;
      } else {
        assert r.None?;
      }
    } else {
      assert r.None?;
    }
  }

  /** The whole rule, run with the slashing loop. */
  method GenInstructions(shardID: Shard, committees: seq<string>, substitutes: seq<string>, minCommitteeSize: int,
                         maxCommitteeSize: int, typeIns: int, numberOfFixedValidators: nat, penalty: set<string>,
                         pc: Percents)
    returns (r: Option<SwapOutcome>)
    requires ValidPercents(pc)
    ensures r == Rule(shardID, committees, substitutes, minCommitteeSize, maxCommitteeSize, typeIns,
                      numberOfFixedValidators, penalty, pc)
  {
    if numberOfFixedValidators > |committees| {
      return None;
    }
    var newCommittees, slashingCommittees := SlashingSwapOut(committees, penalty, minCommitteeSize,
                                                             numberOfFixedValidators, pc.maxSlash);
    var normal := NormalSwapOut(newCommittees, |substitutes|, |committees|, |slashingCommittees|, pc.maxSwapOut,
                                numberOfFixedValidators, minCommitteeSize);
    if normal.None? {
      return None;
    }
    var (afterSwapOut, normalSwapOutCommittees) := normal.value;
    var swappedOutCommittees := slashingCommittees + normalSwapOutCommittees;
    var swapped := SwapInAfterSwapOut(afterSwapOut, substitutes, pc.maxSwapIn, numberOfFixedValidators, maxCommitteeSize);
    if swapped.None? {
      return None;
    }
    var s := swapped.value;
    var inst := SwapInstructionFor(s.swapIn, swappedOutCommittees, shardID, typeIns);
    r := Some(SwapOutcome(inst, s.committees, s.substitutes, slashingCommittees, normalSwapOutCommittees, s.swapIn));
  }

  /** GenInstructions as written: the swap-in gets the maximum size and the
    * fixed count in each other's places, so the cap is the fixed count, and
    * the normal swap-out list it returns is read from the committee's
    * backing array after both appends have written into it, while the
    * instruction copied that list before the swap-in. A swap-in survives
    * only when it never reached the cap: the substitutes were fewer than the
    * swap-in share, or the committee after swap-out was no larger than the
    * fixed count. `spare` is the capacity the slashing append left beyond
    * the slashed committee's length. */
  method GenInstructionsAsWritten(shardID: Shard, committees: seq<string>, substitutes: seq<string>,
                                  minCommitteeSize: int, maxCommitteeSize: int, typeIns: int,
                                  numberOfFixedValidators: nat, penalty: set<string>, pc: Percents, spare: nat)
    returns (r: Option<SwapOutcome>)
    requires ValidPercents(pc)
    ensures var f := numberOfFixedValidators;
      r.None? <==> (f > |committees| ||
        var (afterSlash, slashed) := Slashing(committees, penalty, minCommitteeSize, f, pc.maxSlash);
        var offset := GetNormalSwapOutOffset(|committees|, |substitutes|, |slashed|, pc.maxSwapOut, f, minCommitteeSize);
        f + offset > |afterSlash| || GetSwapInOffset(|afterSlash| - offset, |substitutes|, pc.maxSwapIn, f) < 0)
    ensures var f := numberOfFixedValidators;
      r.Some? ==> (f <= |committees| &&
        var (afterSlash, slashed) := Slashing(committees, penalty, minCommitteeSize, f, pc.maxSlash);
        var offset := GetNormalSwapOutOffset(|committees|, |substitutes|, |slashed|, pc.maxSwapOut, f, minCommitteeSize);
        && f + offset <= |afterSlash|
        && r.value.slashed == slashed
        && r.value.swapIn == substitutes[..GetSwapInOffset(|afterSlash| - offset, |substitutes|, pc.maxSwapIn, f)]
        && r.value.normalSwapOut == SwappedOutAfterSwapIn(afterSlash, f, offset, r.value.swapIn, spare)
        && r.value.inst == SwapInstructionFor(r.value.swapIn, slashed + AppendedBacking(afterSlash, f, offset)[f..f + offset],
                                              shardID, typeIns)
        && r.value.committees == afterSlash[..f] + afterSlash[f + offset..] + r.value.swapIn)
    ensures r.Some? ==>
      var o := r.value;
      var before := |o.committees| - |o.swapIn|;
      && (|substitutes| < before / pc.maxSwapIn || before <= numberOfFixedValidators)
      && numberOfFixedValidators <= |committees| && numberOfFixedValidators <= |o.committees|
      && o.swapIn + o.substitutes == substitutes
      && o.committees[..numberOfFixedValidators] == committees[..numberOfFixedValidators]
  {
    if numberOfFixedValidators > |committees| {
      return None;
    }
    var newCommittees, slashingCommittees := SlashingSwapOut(committees, penalty, minCommitteeSize,
                                                             numberOfFixedValidators, pc.maxSlash);
    var lenSlashedCommittees := |slashingCommittees|;
    SlashingFacts(committees, penalty, minCommitteeSize, numberOfFixedValidators, pc.maxSlash);
    var normal := NormalSwapOutAsWritten(newCommittees, |substitutes|, |committees|, lenSlashedCommittees,
                                         pc.maxSwapOut, numberOfFixedValidators, minCommitteeSize);
    if normal.None? {
      return None;
    }
    var (afterSwapOut, normalSwapOutCommittees) := normal.value;
    var swappedOutCommittees := slashingCommittees + normalSwapOutCommittees;
    var swapped := SwapInAfterSwapOut(afterSwapOut, substitutes, pc.maxSwapIn, maxCommitteeSize, numberOfFixedValidators);
    if swapped.None? {
      return None;
    }
    var s := swapped.value;
    var inst := SwapInstructionFor(s.swapIn, swappedOutCommittees, shardID, typeIns);
    var offset := |newCommittees| - |afterSwapOut|;
    var returnedSwapOut := SwappedOutAfterSwapIn(newCommittees, numberOfFixedValidators, offset, s.swapIn, spare);
    r := Some(SwapOutcome(inst, s.committees, s.substitutes, slashingCommittees, returnedSwapOut, s.swapIn));
    assert s.committees[..numberOfFixedValidators] == afterSwapOut[..numberOfFixedValidators];
  }
}
