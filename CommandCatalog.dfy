/**
 * The command explorer page (src/app/commands/page.tsx): the catalogue fetched once,
 * the category tabs derived from it, and the search/category filter applied on every render.
 */
module CommandCatalog {
  import opened Wrappers
  import opened Text
  import opened Sequences

  /** One entry of `GET /api/commands`; `description` and `category` may be absent. */
  datatype Command = Command(name: string, description: Option<string>, category: Option<string>)

  /** The body of `GET /api/commands`, or what became of the request. */
  datatype CatalogResponse = Ok(commands: Option<seq<Command>>) | NotOk | Threw

  const AllTab := "all"
  const MiscBucket := "misc"

  /**
   * The catalogue after the one-shot fetch, starting from the empty list:
   * `data.commands || []` on an OK response, the empty list otherwise.
   */
  function LoadedCatalog(r: CatalogResponse): (cmds: seq<Command>)
    ensures r.Ok? && r.commands.Some? ==> cmds == r.commands.value
    ensures !(r.Ok? && r.commands.Some?) ==> cmds == []
  {
    match r
    case Ok(Some(cs)) => cs
    case _ => []
  }

  /** `c.category || "misc"`: an absent or empty category falls into the misc bucket. */
  function EffectiveCategory(c: Command): (k: string)
    ensures k != ""
    ensures c.category.Some? && c.category.value != "" ==> k == c.category.value
    ensures c.category.None? || c.category.value == "" ==> k == MiscBucket
  {
    match c.category
    case Some(k) => if k == "" then MiscBucket else k
    case None => MiscBucket
  }

  /** Lower-cased name contains the lower-cased search, or the description exists and does. */
  predicate MatchesSearch(c: Command, search: string): (b: bool)
    ensures search == "" ==> b
    ensures c.description.None? ==> (b <==> Contains(Lower(c.name), Lower(search)))
  {
    assert search == "" ==> Contains(Lower(c.name), Lower(search));
    Contains(Lower(c.name), Lower(search))
    || (c.description.Some? && Contains(Lower(c.description.value), Lower(search)))
  }

  /** The "all" tab and the command's own tab match it; every other tab does not. */
  predicate MatchesCategory(c: Command, category: string): (b: bool)
    ensures category == AllTab ==> b
    ensures category == EffectiveCategory(c) ==> b
    ensures category != AllTab && category != EffectiveCategory(c) ==> !b
  {
    category == AllTab || EffectiveCategory(c) == category
  }

  predicate Keep(c: Command, search: string, category: string) {
    MatchesSearch(c, search) && MatchesCategory(c, category)
  }

  /** `filteredCommands`: the commands that match both the search text and the selected tab. */
  function Filter(cmds: seq<Command>, search: string, category: string): (r: seq<Command>)
    ensures IsSubsequence(r, cmds)
    ensures forall c :: c in r <==> c in cmds && Keep(c, search, category)
    ensures forall c :: multiset(r)[c] == if Keep(c, search, category) then multiset(cmds)[c] else 0
  {
    if cmds == [] then []
    else
      var rest := Filter(cmds[1..], search, category);
      assert cmds == [cmds[0]] + cmds[1..];
      if Keep(cmds[0], search, category) then [cmds[0]] + rest
      else
        assert rest != [] ==> IsSubsequence(rest, cmds[1..]);
        rest
  }

  /** Filtering twice with the same search and tab shows the same list. */
  lemma {:induction false} FilterIdempotent(cmds: seq<Command>, search: string, category: string)
    ensures Filter(Filter(cmds, search, category), search, category) == Filter(cmds, search, category)
  {
    if cmds != [] {
      FilterIdempotent(cmds[1..], search, category);
    }
  }

  /** With an empty search on the "all" tab every command is shown, in order. */
  lemma {:induction false} FilterShowsAll(cmds: seq<Command>)
    ensures Filter(cmds, "", AllTab) == cmds
  {
    if cmds != [] {
      assert Contains(Lower(cmds[0].name), Lower(""));
      FilterShowsAll(cmds[1..]);
    }
  }

  /** On a tab other than "all", every shown command belongs to that tab. */
  lemma FilterOnTab(cmds: seq<Command>, search: string, category: string)
    requires category != AllTab
    ensures forall c :: c in Filter(cmds, search, category) ==> EffectiveCategory(c) == category
  {
  }

  /** Two commands, `play` (music) and `ban` (mod): "pl" on the "all" tab finds `play` and not `ban`. */
  lemma ScenarioPlay()
    ensures Filter([Command("play", None, Some("music")), Command("ban", None, Some("mod"))], "pl", AllTab)
         == [Command("play", None, Some("music"))]
  {
    var play := Command("play", None, Some("music"));
    var ban := Command("ban", None, Some("mod"));
    assert Keep(play, "pl", AllTab) by {
      assert Lower("pl") == "pl" && Lower("play") == "play";
      assert "pl" <= "play";
    }
    assert !Keep(ban, "pl", AllTab) by {
      assert Lower("pl") == "pl" && Lower("ban") == "ban";
      assert !Contains("ban", "pl") by {
        assert !("pl" <= "ban");
        assert !("pl" <= "an");
        assert !("pl" <= "n");
        assert !Contains("", "pl");
      }
    }
    assert Filter([ban], "pl", AllTab) == [] by {
      assert [ban][1..] == [];
    }
    assert [play, ban][1..] == [ban];
  }

  // ---------------------------------------------------------------- category tabs

  /** Every pair in order: `s` is sorted and holds no value twice. */
  predicate StrictlySorted(s: seq<string>) {
    forall i, j :: 0 <= i < j < |s| ==> Before(s[i], s[j])
  }

  lemma StrictlySortedIsDistinct(s: seq<string>)
    requires StrictlySorted(s)
    ensures Distinct(s)
  {
    forall i, j | 0 <= i < j < |s| ensures s[i] != s[j] {
      BeforeIrreflexive(s[i]);
    }
  }

  /** Insert `x` into a strictly sorted list, keeping it strictly sorted and duplicate-free. */
  function Insert(x: string, s: seq<string>): (r: seq<string>)
    requires StrictlySorted(s)
    ensures StrictlySorted(r)
    ensures forall k :: k in r <==> k == x || k in s
  {
    if s == [] then [x]
    else if x == s[0] then s
    else if Before(x, s[0]) then
      assert forall j :: 0 < j < |s| ==> Before(x, s[j]) by {
        forall j | 0 < j < |s| ensures Before(x, s[j]) {
          BeforeTransitive(x, s[0], s[j]);
        }
      }
      [x] + s
    else
      BeforeTotal(x, s[0]);
      var tail := Insert(x, s[1..]);
      assert forall k :: k in tail ==> Before(s[0], k);
      [s[0]] + tail
  }

  /** The distinct values of `xs`, sorted (built by repeated insertion). */
  function SortedDistinct(xs: seq<string>): (r: seq<string>)
    ensures StrictlySorted(r)
    ensures forall k :: k in r <==> k in xs
  {
    if xs == [] then [] else Insert(xs[0], SortedDistinct(xs[1..]))
  }

  /** `new Set(xs)` spread into an array: first occurrences, in order of first appearance. */
  function Dedup(xs: seq<string>): (r: seq<string>)
    ensures Distinct(r)
    ensures forall k :: k in r <==> k in xs
  {
    if xs == [] then []
    else
      var d := Dedup(xs[..|xs| - 1]);
      assert xs == xs[..|xs| - 1] + [xs[|xs| - 1]];
      if xs[|xs| - 1] in d then d else d + [xs[|xs| - 1]]
  }

  /** Two strictly sorted lists with the same values are equal. */
  lemma {:induction false} SortedUnique(a: seq<string>, b: seq<string>)
    requires StrictlySorted(a) && StrictlySorted(b)
    requires forall k :: k in a <==> k in b
    ensures a == b
  {
    assert a != [] ==> a[0] in b;
    assert b != [] ==> b[0] in a;
    if a != [] && b != [] {
      if a[0] != b[0] {
        var i :| 0 <= i < |b| && b[i] == a[0];
        var j :| 0 <= j < |a| && a[j] == b[0];
        assert Before(b[0], a[0]);
        assert Before(a[0], b[0]);
        BeforeAsymmetric(a[0], b[0]);
      }
      StrictlySortedIsDistinct(a);
      StrictlySortedIsDistinct(b);
      assert a[0] !in a[1..] && b[0] !in b[1..];
      forall k ensures k in a[1..] <==> k in b[1..] {
        assert k in a[1..] <==> k in a && k != a[0];
        assert k in b[1..] <==> k in b && k != b[0];
      }
      SortedUnique(a[1..], b[1..]);
      assert a == [a[0]] + a[1..] && b == [b[0]] + b[1..];
    }
  }

  /** The category of every command, in catalogue order (`commands.map(c => c.category || "misc")`). */
  function CategoryNames(cmds: seq<Command>): (r: seq<string>)
    ensures |r| == |cmds|
    ensures forall i :: 0 <= i < |cmds| ==> r[i] == EffectiveCategory(cmds[i])
  {
    if cmds == [] then [] else [EffectiveCategory(cmds[0])] + CategoryNames(cmds[1..])
  }

  /**
   * `categories`: "all", then the sorted distinct categories of the catalogue.
   * Every command's category is a tab, and nothing else is.
   */
  function Categories(cmds: seq<Command>): (r: seq<string>)
    ensures |r| >= 1 && r[0] == AllTab
    ensures StrictlySorted(r[1..]) && Distinct(r[1..])
    ensures forall k :: k in r[1..] <==> exists c :: c in cmds && EffectiveCategory(c) == k
  {
    var names := CategoryNames(cmds);
    var tabs := SortedDistinct(names);
    StrictlySortedIsDistinct(tabs);
    assert forall c :: c in cmds ==> EffectiveCategory(c) in names by {
      forall c | c in cmds ensures EffectiveCategory(c) in names {
        var i :| 0 <= i < |cmds| && cmds[i] == c;
        assert names[i] == EffectiveCategory(c);
      }
    }
    [AllTab] + tabs
  }

  /**
   * Whatever sorting algorithm the browser uses, sorting the de-duplicated categories
   * (any sorted permutation of them) yields exactly the tabs after "all".
   */
  lemma SetThenSortIsCategories(cmds: seq<Command>, sorted: seq<string>)
    requires multiset(sorted) == multiset(Dedup(CategoryNames(cmds)))
    requires forall i, j :: 0 <= i < j < |sorted| ==> !Before(sorted[j], sorted[i])
    ensures sorted == Categories(cmds)[1..]
  {
    var d := Dedup(CategoryNames(cmds));
    forall x ensures multiset(sorted)[x] <= 1 {
      DistinctCountsAtMostOne(d, x);
    }
    DistinctFromCounts(sorted);
    forall i, j | 0 <= i < j < |sorted| ensures Before(sorted[i], sorted[j]) {
      BeforeTotal(sorted[i], sorted[j]);
    }
    forall k ensures k in sorted <==> k in d {
      assert k in sorted <==> k in multiset(sorted);
      assert k in d <==> k in multiset(d);
    }
    SortedUnique(sorted, SortedDistinct(CategoryNames(cmds)));
  }
}
