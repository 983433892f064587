/**
 * The landing page's podium leaderboard (src/app/page.tsx): the first ten guild ids looked up
 * one by one, failed lookups dropped, then three podium cards and a list of ranks four to ten.
 */
module Leaderboard {
  import opened Wrappers
  import opened Api

  /** What became of `GET /api/guilds` (`Threw` also covers the stats request before it throwing). */
  datatype GuildsResponse = Ok(guildIds: Option<seq<string>>) | NotOk | Threw

  /**
   * What became of one `GET /api/guild/{id}`: a guild, `null` (a non-OK answer, or a null body),
   * or a rejection, which rejects the whole `Promise.all`.
   */
  datatype GuildLookup = Found(guild: Guild) | Null | Threw

  const LeaderboardSize := 10
  const PodiumSize := 3

  function Min(a: nat, b: nat): nat {
    if a < b then a else b
  }

  /** `guildIds.slice(0, 10)`: the ids looked up, a prefix of the backend's order. */
  function TopIds(ids: seq<string>): (r: seq<string>)
    ensures |r| == Min(|ids|, LeaderboardSize)
    ensures r <= ids
  {
    if |ids| <= LeaderboardSize then ids else ids[..LeaderboardSize]
  }

  /** `topIds.map(lookup)`: one lookup per id, in the same order. */
  function LookUp(ids: seq<string>, lookup: string -> GuildLookup): (r: seq<GuildLookup>)
    ensures |r| == |ids|
    ensures forall i :: 0 <= i < |ids| ==> r[i] == lookup(ids[i])
  {
    if ids == [] then [] else [lookup(ids[0])] + LookUp(ids[1..], lookup)
  }

  predicate AnyThrew(ls: seq<GuildLookup>) {
    exists i :: 0 <= i < |ls| && ls[i].Threw?
  }

  /** `guildsData.filter(g => g !== null)`: the guilds found, in lookup order. */
  function Survivors(ls: seq<GuildLookup>): (r: seq<Guild>)
    ensures |r| <= |ls|
    ensures forall g :: g in r <==> Found(g) in ls
  {
    if ls == [] then []
    else
      var rest := Survivors(ls[1..]);
      assert forall g :: Found(g) in ls <==> ls[0] == Found(g) || Found(g) in ls[1..];
      if ls[0].Found? then [ls[0].guild] + rest else rest
  }

  /** Dropping failed lookups works piecewise: the survivors of a run keep their relative order. */
  lemma {:induction false} SurvivorsAppend(a: seq<GuildLookup>, b: seq<GuildLookup>)
    ensures Survivors(a + b) == Survivors(a) + Survivors(b)
  {
    if a == [] {
      assert a + b == b;
    } else {
      assert (a + b)[0] == a[0] && (a + b)[1..] == a[1..] + b;
      SurvivorsAppend(a[1..], b);
    }
  }

  /** A lookup on its own: a found guild survives, anything else vanishes. */
  lemma SurvivorsSingle(l: GuildLookup)
    ensures Survivors([l]) == if l.Found? then [l.guild] else []
  {
  }

  /**
   * `topGuilds` once `loadStats` has finished, from its initial empty list: the survivors of the
   * lookups of the first ten ids, or the empty list when the id list is missing, the request
   * failed or any lookup threw.
   */
  function LoadTopGuilds(r: GuildsResponse, lookup: string -> GuildLookup): (gs: seq<Guild>)
    ensures |gs| <= LeaderboardSize
    ensures !(r.Ok? && r.guildIds.Some?) ==> gs == []
    ensures r.Ok? && r.guildIds.Some? ==>
              forall g :: g in gs ==> exists i :: 0 <= i < Min(|r.guildIds.value|, LeaderboardSize) && lookup(r.guildIds.value[i]) == Found(g)
    ensures r.Ok? && r.guildIds.Some? && AnyThrew(LookUp(TopIds(r.guildIds.value), lookup)) ==> gs == []
    ensures r.Ok? && r.guildIds.Some? && !AnyThrew(LookUp(TopIds(r.guildIds.value), lookup)) ==>
              gs == Survivors(LookUp(TopIds(r.guildIds.value), lookup))
  {
    match r
    case Ok(Some(ids)) =>
      var ls := LookUp(TopIds(ids), lookup);
      if AnyThrew(ls) then []
      else
        var gs := Survivors(ls);
        assert forall g :: g in gs ==> exists i :: 0 <= i < |ls| && ls[i] == Found(g);
        gs
    case _ => []
  }

  /** `topGuilds.slice(0, 3)`: the podium cards. */
  function Top3(gs: seq<Guild>): (r: seq<Guild>)
    ensures |r| == Min(|gs|, PodiumSize)
    ensures r <= gs
  {
    if |gs| <= PodiumSize then gs else gs[..PodiumSize]
  }

  /** `topGuilds.slice(3, 10)`: the list rows; empty when there are at most three guilds. */
  function Remaining(gs: seq<Guild>): (r: seq<Guild>)
    ensures |r| == if |gs| <= PodiumSize then 0 else Min(|gs|, LeaderboardSize) - PodiumSize
    ensures forall i :: 0 <= i < |r| ==> r[i] == gs[i + PodiumSize]
  {
    if |gs| <= PodiumSize then [] else gs[PodiumSize..Min(|gs|, LeaderboardSize)]
  }

  /** Podium and list together are the first ten guilds, nothing repeated and nothing skipped. */
  lemma PodiumSplit(gs: seq<Guild>)
    ensures Top3(gs) + Remaining(gs) == gs[..Min(|gs|, LeaderboardSize)]
  {
    var t, rs := Top3(gs), Remaining(gs);
    var whole := gs[..Min(|gs|, LeaderboardSize)];
    assert |t + rs| == |whole|;
    forall i | 0 <= i < |whole| ensures (t + rs)[i] == whole[i] {
      if i >= |t| {
        assert (t + rs)[i] == rs[i - |t|];
      }
    }
  }

  /** The number shown on list row `i` (`i + 4`). */
  function RowRank(i: nat): (rank: nat)
    ensures rank == i + PodiumSize + 1
    ensures rank > PodiumSize
  {
    i + 4
  }

  /** The number on each list row is the guild's 1-based position in the whole leaderboard. */
  lemma RowRankIsPosition(gs: seq<Guild>, i: nat)
    requires i < |Remaining(gs)|
    ensures RowRank(i) - 1 < |gs| && Remaining(gs)[i] == gs[RowRank(i) - 1]
    ensures 4 <= RowRank(i) <= LeaderboardSize
  {
  }

  datatype PodiumBadge = Crown | SilverTrophy | BronzeTrophy

  /** The podium card's badge: a crown for the first, a trophy (silver, then bronze) otherwise. */
  function PodiumBadgeAt(i: nat): (b: PodiumBadge)
    ensures b == Crown <==> i == 0
    ensures b == SilverTrophy <==> i == 1
    ensures b == BronzeTrophy <==> i >= 2
  {
    if i == 0 then Crown else if i == 1 then SilverTrophy else BronzeTrophy
  }

  datatype Board = LoadingNetworks | NoNetworkData | Podium(cards: seq<Guild>, rows: seq<Guild>, showRows: bool)

  /** What the leaderboard section renders; the list is rendered only when it has rows. */
  function BoardView(loading: bool, gs: seq<Guild>): (v: Board)
    ensures v == LoadingNetworks <==> loading
    ensures v == NoNetworkData <==> !loading && gs == []
    ensures v.Podium? ==> v.cards == Top3(gs) && v.rows == Remaining(gs) && (v.showRows <==> |gs| > PodiumSize)
  {
    if loading then LoadingNetworks
    else if |gs| == 0 then NoNetworkData
    else Podium(Top3(gs), Remaining(gs), |Remaining(gs)| > 0)
  }
}
