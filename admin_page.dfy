/** The admin dashboard's figures over the loaded users and swaps, and its
    list of recent swaps. */
module AdminPage {
  import opened Common
  import opened Sorting
  import opened ClientApi
  import SwapSchema

  /** The four counters of the overview tab. */
  datatype Stats = Stats(totalUsers: nat, totalSwaps: nat, activeSwaps: nat, completedSwaps: nat)

  predicate IsActiveSwap(s: Swap) {
    s.status == SwapSchema.Accepted
  }

  predicate IsCompletedSwap(s: Swap) {
    s.status == SwapSchema.Completed
  }

  /** The stats `fetchData` sets: the two list lengths, the accepted swaps
      (shown as active) and the completed swaps. */
  function ComputeStats(users: seq<User>, swaps: seq<Swap>): (st: Stats)
    ensures st.totalUsers == |users| && st.totalSwaps == |swaps|
    ensures st.activeSwaps == |Filter(swaps, IsActiveSwap)| && st.completedSwaps == |Filter(swaps, IsCompletedSwap)|
    ensures st.activeSwaps <= st.totalSwaps && st.completedSwaps <= st.totalSwaps
  {
    Stats(|users|, |swaps|, Count(swaps, IsActiveSwap), Count(swaps, IsCompletedSwap))
  }

  /** No swap is both active and completed, so the two counters together
      never exceed the number of swaps. */
  lemma {:induction false} ActivePlusCompletedBounded(users: seq<User>, swaps: seq<Swap>)
    ensures ComputeStats(users, swaps).activeSwaps + ComputeStats(users, swaps).completedSwaps
            <= ComputeStats(users, swaps).totalSwaps
  {
    CountsPartition(swaps, IsActiveSwap, IsCompletedSwap);
  }

  /** A swap's creation time as the sort key. */
  function CreatedAt(s: Swap): real {
    s.createdAt as real
  }

  /** `getRecentSwaps()`: sorts the loaded swaps in place, newest first, and
      returns the first ten. The sort reorders the page's own list as a side
      effect. */
  method GetRecentSwaps(swaps: array<Swap>) returns (recent: seq<Swap>)
    modifies swaps
    ensures swaps[..] == SortDesc(old(swaps[..]), CreatedAt)
    ensures Permutation(swaps[..], old(swaps[..]))
    ensures SortedDesc(swaps[..], CreatedAt)
    ensures recent == Take(swaps[..], 10)
    ensures |recent| <= 10 && SortedDesc(recent, CreatedAt)
    ensures forall i, j :: 0 <= i < |recent| <= j < swaps.Length ==> recent[i].createdAt >= swaps[j].createdAt
  {
    SortInPlaceDesc(swaps, CreatedAt);
    recent := Take(swaps[..], 10);
    SortedPrefix(swaps[..], |recent|, CreatedAt);
    SortedPrefixIsTop(swaps[..], |recent|, CreatedAt);
  }

  /** With ten swaps or fewer, the recent list holds every loaded swap. */
  lemma {:induction false} RecentSwapsComplete(sorted: seq<Swap>, recent: seq<Swap>)
    requires recent == Take(sorted, 10) && |sorted| <= 10
    ensures recent == sorted
  {
    assert sorted[..|sorted|] == sorted;
  }
}
