/** The dashboard: counts by status over the first hundred contents and the
    five most recent of them. */
module Dashboard {
  import opened Wrappers
  import opened Js
  import opened Types
  import Api

  /** The contents the dashboard loads: page 1 of 100, no filter. */
  function Loaded(b: Api.MockBackend): (r: seq<Content>)
    reads b
    ensures r == b.contents[..Min(100, |b.contents|)]
  {
    var p := b.FetchContents(1, 100, None);
    assert p == Api.Paginate(b.contents, 1, 100);
    p.data
  }

  function IsStatus(status: ContentStatus): Content -> bool {
    (c: Content) => c.status == status
  }

  datatype Stats = Stats(total: nat, approved: nat, underReview: nat, rejected: nat)

  /** The four figures: all loaded items, then those of each status. */
  function ComputeStats(contents: seq<Content>): (r: Stats)
    ensures r.total == |contents|
    ensures r.approved <= r.total && r.underReview <= r.total && r.rejected <= r.total
  {
    Stats(|contents|, Count(contents, IsStatus(Approved)), Count(contents, IsStatus(UnderReview)),
      Count(contents, IsStatus(Rejected)))
  }

  /** The statuses split the items: the three shown counts and the submitted
      items add up to the total, so the shown counts never exceed it. */
  lemma {:induction false} StatsPartition(contents: seq<Content>)
    ensures var s := ComputeStats(contents);
            s.approved + s.underReview + s.rejected + Count(contents, IsStatus(Submitted)) == s.total
  {
    if contents != [] {
      StatsPartition(contents[1..]);
      CountFirst(contents, IsStatus(Approved));
      CountFirst(contents, IsStatus(UnderReview));
      CountFirst(contents, IsStatus(Rejected));
      CountFirst(contents, IsStatus(Submitted));
    }
  }

  lemma CountFirst(cs: seq<Content>, p: Content -> bool)
    requires cs != []
    ensures Count(cs, p) == (if p(cs[0]) then 1 else 0) + Count(cs[1..], p)
  {
  }

  /** A loaded item that is approved counts: the figure is zero only when no
      item has that status. */
  lemma {:induction false} CountZero(contents: seq<Content>, status: ContentStatus)
    ensures Count(contents, IsStatus(status)) == 0 <==>
            forall i :: 0 <= i < |contents| ==> contents[i].status != status
  {
    var f := Filter(contents, IsStatus(status));
    if f != [] {
      assert f[0] in f;
    } else {
      assert forall i :: 0 <= i < |contents| ==> contents[i] !in f;
    }
  }

  /** `contents.slice(0, 5)`: the first five loaded items, or all of them
      when fewer. */
  function Recent(contents: seq<Content>): (r: seq<Content>)
    ensures |r| == Min(5, |contents|)
    ensures r == contents[..|r|]
  {
    Slice(contents, 0, 5)
  }

  /** The recent list and the counts come from the newest hundred stored items. */
  lemma RecentAreStored(b: Api.MockBackend)
    ensures forall c :: c in Recent(Loaded(b)) ==> c in b.contents
    ensures ComputeStats(Loaded(b)).total <= 100
  {
    var l := Loaded(b);
    forall c | c in Recent(l) ensures c in b.contents {
      assert c in l;
    }
  }
}
