/**
  `assignRanks`: dense ranking over an already ordered leaderboard. A label is
  written only where the total changes from the previous entry; tied followers get
  the empty label. Ranks 1 to 3 are medals, the rest decimal numbers.
*/
module Ranks {
  import opened Wrappers
  import opened Text

  /** An entry with the rank label attached; the entry itself is kept as it was. */
  datatype Ranked<T> = Ranked(entry: T, rank: string)

  const GoldMedal: string := "\U{1F947}"
  const SilverMedal: string := "\U{1F948}"
  const BronzeMedal: string := "\U{1F949}"

  /** The label of the k-th distinct total: a medal for 1 to 3, else the decimal number. */
  function RankLabel(rank: nat): (name: string)
    ensures name != []
    ensures rank == 1 ==> name == GoldMedal
    ensures rank == 2 ==> name == SilverMedal
    ensures rank == 3 ==> name == BronzeMedal
    ensures rank >= 4 ==> AllDigits(name) && ParseInt(name) == Some(rank)
    ensures 1 <= rank <= 3 ==> |name| == 1 && !IsDigit(name[0])
  {
    if rank == 1 then GoldMedal
    else if rank == 2 then SilverMedal
    else if rank == 3 then BronzeMedal
    else
      ParseIntRoundTrip(rank);
      NatToString(rank)
  }

  /** Different ranks get different labels. */
  lemma RankLabelInjective(a: nat, b: nat)
    requires a >= 1 && b >= 1 && RankLabel(a) == RankLabel(b)
    ensures a == b
  {
  }

  /** Entry `i` starts a new rank: it is the first entry or its total differs from its predecessor's. */
  predicate IsNewRank<T>(entries: seq<T>, points: T -> int, i: nat)
    requires i < |entries|
  {
    i == 0 || points(entries[i]) != points(entries[i - 1])
  }

  /** How many of the first `n` entries start a new rank: the rank number reached after them. */
  function RankCount<T>(entries: seq<T>, points: T -> int, n: nat): nat
    requires n <= |entries|
  {
    if n == 0 then 0
    else RankCount(entries, points, n - 1) + (if IsNewRank(entries, points, n - 1) then 1 else 0)
  }

  /** The rank number reached depends only on the entries' totals. */
  lemma {:induction false} RankCountOfTotals<T, U>(a: seq<T>, p: T -> int, b: seq<U>, q: U -> int, n: nat)
    requires |a| == |b| && n <= |a|
    requires forall i :: 0 <= i < |a| ==> p(a[i]) == q(b[i])
    ensures RankCount(a, p, n) == RankCount(b, q, n)
    decreases n
  {
    if n > 0 {
      RankCountOfTotals(a, p, b, q, n - 1);
    }
  }

  /** The fold of `assignRanks` from some point on, carrying the last total seen and the current rank. */
  function AssignRanksFrom<T>(entries: seq<T>, points: T -> int, lastPoints: Option<int>, currentRank: nat): seq<Ranked<T>>
  {
    if entries == [] then []
    else
      var e := entries[0];
      var isNewRank := lastPoints != Some(points(e));
      var rank := if isNewRank then currentRank + 1 else currentRank;
      [Ranked(e, if isNewRank then RankLabel(rank) else "")]
        + AssignRanksFrom(entries[1..], points, Some(points(e)), rank)
  }

  /** The fold state after the first `k` entries. */
  function LastPoints<T>(entries: seq<T>, points: T -> int, k: nat): Option<int>
    requires k <= |entries|
  {
    if k == 0 then None else Some(points(entries[k - 1]))
  }

  /** The label `assignRanks` gives entry `i`. */
  function LabelAt<T>(entries: seq<T>, points: T -> int, i: nat): string
    requires i < |entries|
  {
    if IsNewRank(entries, points, i) then RankLabel(RankCount(entries, points, i + 1)) else ""
  }

  /** One step of the fold state: the carried total says whether entry `k` starts a new rank. */
  lemma FoldStateStep<T>(entries: seq<T>, points: T -> int, k: nat)
    requires k < |entries|
    ensures (LastPoints(entries, points, k) != Some(points(entries[k]))) == IsNewRank(entries, points, k)
    ensures RankCount(entries, points, k + 1)
              == if IsNewRank(entries, points, k) then RankCount(entries, points, k) + 1 else RankCount(entries, points, k)
    ensures LastPoints(entries, points, k + 1) == Some(points(entries[k]))
  {
  }

  /** The labelled entries from position `k` on, each with the label `assignRanks` gives it. */
  function Labelled<T>(entries: seq<T>, points: T -> int, k: nat): (r: seq<Ranked<T>>)
    requires k <= |entries|
    ensures |r| == |entries| - k
  {
    seq(|entries| - k, j requires 0 <= j < |entries| - k => Ranked(entries[k + j], LabelAt(entries, points, k + j)))
  }

  lemma LabelledCons<T>(entries: seq<T>, points: T -> int, k: nat)
    requires k < |entries|
    ensures Labelled(entries, points, k) == [Ranked(entries[k], LabelAt(entries, points, k))] + Labelled(entries, points, k + 1)
  {
    var a := Labelled(entries, points, k);
    var b := [Ranked(entries[k], LabelAt(entries, points, k))] + Labelled(entries, points, k + 1);
    forall j | 0 <= j < |a| ensures a[j] == b[j] {
      if j > 0 {
        assert b[j] == Labelled(entries, points, k + 1)[j - 1];
      }
    }
  }

  /** What the fold produces from position `k`, given the state after the first `k` entries. */
  lemma {:induction false} AssignRanksFromSpec<T>(entries: seq<T>, points: T -> int, k: nat)
    requires k <= |entries|
    ensures AssignRanksFrom(entries[k..], points, LastPoints(entries, points, k), RankCount(entries, points, k))
            == Labelled(entries, points, k)
    decreases |entries| - k
  {
    if k < |entries| {
      var head := Ranked(entries[k], LabelAt(entries, points, k));
      var tail := AssignRanksFrom(entries[k + 1..], points, LastPoints(entries, points, k + 1), RankCount(entries, points, k + 1));
      AssignRanksFromSpec(entries, points, k + 1);
      assert tail == Labelled(entries, points, k + 1);
      AssignRanksFromStep(entries, points, k);
      LabelledCons(entries, points, k);
      assert [head] + tail == [head] + Labelled(entries, points, k + 1);
    } else {
      assert entries[k..] == [];
      assert Labelled(entries, points, k) == [];
    }
  }

  /** One step of the fold from position `k`: entry `k` gets its label, and the fold goes on with the next state. */
  lemma AssignRanksFromStep<T>(entries: seq<T>, points: T -> int, k: nat)
    requires k < |entries|
    ensures AssignRanksFrom(entries[k..], points, LastPoints(entries, points, k), RankCount(entries, points, k))
            == [Ranked(entries[k], LabelAt(entries, points, k))]
               + AssignRanksFrom(entries[k + 1..], points, LastPoints(entries, points, k + 1), RankCount(entries, points, k + 1))
  {
    FoldStateStep(entries, points, k);
    var rest := entries[k..];
    assert rest[0] == entries[k] && rest[1..] == entries[k + 1..];
  }

  /**
    `assignRanks`: same length and entries in the same order; entry i carries a label
    exactly when it starts a new rank, and that label is the one of the number of
    rank changes up to and including it.
  */
  function AssignRanks<T>(entries: seq<T>, points: T -> int): (r: seq<Ranked<T>>)
    ensures |r| == |entries|
    ensures forall i :: 0 <= i < |entries| ==> r[i].entry == entries[i]
    ensures forall i :: 0 <= i < |entries| ==> (r[i].rank != "" <==> IsNewRank(entries, points, i))
    ensures forall i :: 0 <= i < |entries| && IsNewRank(entries, points, i) ==>
              r[i].rank == RankLabel(RankCount(entries, points, i + 1))
  {
    AssignRanksFromSpec(entries, points, 0);
    assert entries[0..] == entries;
    AssignRanksFrom(entries, points, None, 0)
  }

  /** The rank number goes up by exactly one at each change of total and stays put on a tie. */
  lemma RankCountStep<T>(entries: seq<T>, points: T -> int, i: nat)
    requires 0 < i < |entries|
    ensures points(entries[i]) != points(entries[i - 1]) ==>
              RankCount(entries, points, i + 1) == RankCount(entries, points, i) + 1
    ensures points(entries[i]) == points(entries[i - 1]) ==>
              RankCount(entries, points, i + 1) == RankCount(entries, points, i)
  {
  }

  /** The first entry always gets the gold medal. */
  lemma FirstIsGold<T>(entries: seq<T>, points: T -> int)
    requires |entries| >= 1
    ensures AssignRanks(entries, points)[0].rank == GoldMedal
  {
  }

  /** Totals 10, 10, 7, 5, 5, 2 are labelled gold, tie, silver, bronze, tie, "4". */
  lemma AssignRanksExample()
    ensures var r := AssignRanks([10, 10, 7, 5, 5, 2], (x: int) => x);
            && r[0].rank == GoldMedal && r[1].rank == "" && r[2].rank == SilverMedal
            && r[3].rank == BronzeMedal && r[4].rank == "" && r[5].rank == "4"
  {
    var e := [10, 10, 7, 5, 5, 2];
    var p := (x: int) => x;
    assert RankCount(e, p, 1) == 1;
    assert RankCount(e, p, 3) == 2;
    assert RankCount(e, p, 4) == 3;
    assert RankCount(e, p, 6) == 4;
    assert NatToString(4) == "4";
  }
}
