/**
 * The live-player tracker (src/app/live/page.tsx): a search that probes the guild-scoped
 * endpoint and falls back to the user-scoped one, the five-second re-poll of a found
 * session, the error banner, and the `m:ss` time formatter.
 */
module LiveSession {
  import opened Wrappers
  import opened Text

  datatype Track = Track(title: string, author: string, thumbnail: Option<string>, duration: nat)

  /** A `GET /api/player/{id}` or `GET /api/user-player/{id}` body. */
  datatype PlayerData = PlayerData(
    isConnected: bool,
    isPlaying: bool,
    currentTrack: Option<Track>,
    guildId: Option<string>,
    position: nat,
    volume: nat,
    memberCount: nat)

  /**
   * What one probe produced: a decoded body (the page never looks at the HTTP status),
   * or an exception from `fetch`, `res.json()` or reading a field of a null body.
   */
  datatype Probe = Answered(data: PlayerData) | Threw

  /** The endpoints the tracker requests. */
  datatype Endpoint = GuildPlayer(id: string) | UserPlayer(id: string)

  /** The part of the page state a search or re-poll decides. */
  datatype View = View(player: Option<PlayerData>, error: string)

  const NotFoundMessage := "No active music session found for this ID."
  const BackendDownMessage := "Failed to connect to the backend server."
  const SessionEndedMessage := "Music session ended."

  /** `data.isConnected || data.isPlaying || data.currentTrack`: the body describes a live session. */
  predicate HasSession(d: PlayerData) {
    d.isConnected || d.isPlaying || d.currentTrack.Some?
  }

  /** `!data.isConnected && !data.isPlaying`: the guild answer sends the search on to the user endpoint. */
  predicate NeedsUserProbe(d: PlayerData) {
    !d.isConnected && !d.isPlaying
  }

  /** The requests a search for `query` issues, in order. */
  function SearchRequests(query: string, guildProbe: Probe): (r: seq<Endpoint>)
    ensures |r| >= 1 && r[0] == GuildPlayer(query)
    ensures |r| == 2 <==> guildProbe.Answered? && NeedsUserProbe(guildProbe.data)
    ensures |r| == 2 ==> r[1] == UserPlayer(query)
    ensures |r| <= 2
  {
    if guildProbe.Answered? && NeedsUserProbe(guildProbe.data) then [GuildPlayer(query), UserPlayer(query)]
    else [GuildPlayer(query)]
  }

  /** The answer the search settles on: the guild answer, or the user answer when the fallback ran. */
  function SearchAnswer(guildProbe: Probe, userProbe: Probe): (a: Probe)
    ensures guildProbe.Threw? ==> a.Threw?
    ensures guildProbe.Answered? && !NeedsUserProbe(guildProbe.data) ==> a == guildProbe
    ensures guildProbe.Answered? && NeedsUserProbe(guildProbe.data) ==> a == userProbe
  {
    match guildProbe
    case Threw => Threw
    case Answered(d) => if NeedsUserProbe(d) then userProbe else guildProbe
  }

  /** Player and error once a search on a non-empty query has finished. */
  function SearchOutcome(guildProbe: Probe, userProbe: Probe): (v: View)
    ensures v.player.Some? ==> v.error == "" && HasSession(v.player.value)
    ensures v.player.None? ==> v.error in {NotFoundMessage, BackendDownMessage}
    ensures v.error == BackendDownMessage <==> SearchAnswer(guildProbe, userProbe).Threw?
  {
    match SearchAnswer(guildProbe, userProbe)
    case Threw => View(None, BackendDownMessage)
    case Answered(d) => if HasSession(d) then View(Some(d), "") else View(None, NotFoundMessage)
  }

  /** The guild id a re-poll asks for: `player.guildId || query`. */
  function RepollTarget(p: PlayerData, query: string): (id: string)
    ensures p.guildId.Some? && p.guildId.value != "" ==> id == p.guildId.value
    ensures p.guildId.None? || p.guildId.value == "" ==> id == query
  {
    match p.guildId
    case Some(g) => if g == "" then query else g
    case None => query
  }

  /** `error && !loading && !player`: the red banner is on screen. */
  predicate ErrorBannerShown(error: string, loading: bool, player: Option<PlayerData>): (shown: bool)
    ensures shown ==> error != "" && player.None?
    ensures loading || error == "" ==> !shown
  {
    error != "" && !loading && player.None?
  }

  // ---------------------------------------------------------------- search outcomes

  /** A search ends tracking exactly when the answer it settles on describes a session, and then clears the error. */
  lemma SearchTracksIff(guildProbe: Probe, userProbe: Probe)
    ensures SearchOutcome(guildProbe, userProbe).player.Some?
        <==> SearchAnswer(guildProbe, userProbe).Answered? && HasSession(SearchAnswer(guildProbe, userProbe).data)
    ensures SearchOutcome(guildProbe, userProbe).player.Some? ==>
              && SearchOutcome(guildProbe, userProbe).player.value == SearchAnswer(guildProbe, userProbe).data
              && SearchOutcome(guildProbe, userProbe).error == ""
  {
  }

  /** A search always ends with a player or with a message, never with neither or both. */
  lemma SearchOutcomeExclusive(guildProbe: Probe, userProbe: Probe)
    ensures SearchOutcome(guildProbe, userProbe).player.Some? <==> SearchOutcome(guildProbe, userProbe).error == ""
    ensures SearchOutcome(guildProbe, userProbe).error in {"", NotFoundMessage, BackendDownMessage}
  {
  }

  /** When neither endpoint knows a session the search ends idle with the not-found message. */
  lemma SearchNotFound(g: PlayerData, u: PlayerData)
    requires !HasSession(g) && !HasSession(u)
    ensures SearchOutcome(Answered(g), Answered(u)) == View(None, NotFoundMessage)
  {
  }

  /** Any thrown probe that the search waits on ends it with the backend message. */
  lemma SearchThrew(guildProbe: Probe, userProbe: Probe)
    requires guildProbe.Threw? || (NeedsUserProbe(guildProbe.data) && userProbe.Threw?)
    ensures SearchOutcome(guildProbe, userProbe) == View(None, BackendDownMessage)
  {
  }

  /**
   * The fallback ignores the guild's `currentTrack`: a guild answer that is neither connected nor
   * playing is replaced by the user answer even when it carries a track.
   */
  lemma FallbackIgnoresCurrentTrack(g: PlayerData, userProbe: Probe, t: Option<Track>, query: string)
    requires NeedsUserProbe(g)
    ensures SearchOutcome(Answered(g), userProbe) == SearchOutcome(Answered(g.(currentTrack := t)), userProbe)
    ensures SearchRequests(query, Answered(g)) == SearchRequests(query, Answered(g.(currentTrack := t)))
  {
  }

  /** A guild answer that is connected or playing is final: the user endpoint is never asked. */
  lemma GuildAnswerWins(g: PlayerData, userProbe: Probe, query: string)
    requires g.isConnected || g.isPlaying
    ensures SearchRequests(query, Answered(g)) == [GuildPlayer(query)]
    ensures SearchOutcome(Answered(g), userProbe) == View(Some(g), "")
  {
  }

  // ---------------------------------------------------------------- page state

  class LiveTracker {
    var query: string
    var player: Option<PlayerData>
    var loading: bool
    var error: string

    /** A tracked session is a live one, and no error is pending beside it. */
    ghost predicate Valid()
      reads this
    {
      player.Some? ==> HasSession(player.value) && error == ""
    }

    constructor ()
      ensures Valid()
      ensures query == "" && player == None && !loading && error == ""
    {
      query := "";
      player := None;
      loading := false;
      error := "";
    }

    /** The input box's `onChange`. */
    method SetQuery(q: string)
      requires Valid()
      modifies this`query
      ensures Valid() && query == q
    {
      query := q;
    }

    /**
     * `searchPlayer`, with the two probe results supplied as inputs; returns the requests issued.
     * An empty query changes nothing.
     */
    method Search(guildProbe: Probe, userProbe: Probe) returns (requests: seq<Endpoint>)
      requires Valid()
      modifies this
      ensures Valid()
      ensures query == old(query)
      ensures old(query) == "" ==> requests == [] && player == old(player) && loading == old(loading) && error == old(error)
      ensures old(query) != "" ==> requests == SearchRequests(query, guildProbe)
      ensures old(query) != "" ==> !loading && View(player, error) == SearchOutcome(guildProbe, userProbe)
      ensures old(query) != "" ==> (ErrorBannerShown(error, loading, player) <==> player.None?)
    {
      if query == "" {
        return [];
      }
      loading := true;
      error := "";
      player := None;

      requests := [GuildPlayer(query)];
      var answer := guildProbe;
      if answer.Answered? && !answer.data.isConnected && !answer.data.isPlaying {
        requests := requests + [UserPlayer(query)];
        answer := userProbe;
      }

      if answer.Threw? {
        error := BackendDownMessage;
      } else if answer.data.isConnected || answer.data.isPlaying || answer.data.currentTrack.Some? {
        player := Some(answer.data);
      } else {
        error := NotFoundMessage;
      }
      loading := false;
    }

    /**
     * One tick of the five-second interval while a session may be tracked; returns the request issued.
     * Nothing happens without a player; a thrown re-poll changes nothing.
     */
    method Repoll(probe: Probe) returns (request: Option<Endpoint>)
      requires Valid()
      modifies this`player, this`error
      ensures Valid()
      ensures old(player).None? ==> request == None && player == old(player) && error == old(error)
      ensures old(player).Some? ==> request == Some(GuildPlayer(RepollTarget(old(player).value, query)))
      ensures old(player).Some? && probe.Threw? ==> player == old(player) && error == old(error)
      ensures old(player).Some? && probe.Answered? && HasSession(probe.data)
        ==> player == Some(probe.data) && error == old(error)
      ensures old(player).Some? && probe.Answered? && !HasSession(probe.data)
        ==> player == None && error == SessionEndedMessage
    {
      request := None;
      if player.Some? {
        request := Some(GuildPlayer(RepollTarget(player.value, query)));
        if probe.Answered? {
          if HasSession(probe.data) {
            player := Some(probe.data);
          } else {
            player := None;
            error := SessionEndedMessage;
          }
        }
      }
    }

    /** While a session is tracked the banner is hidden; otherwise it shows any message once loading ends. */
    lemma BannerShownIff()
      requires Valid()
      ensures ErrorBannerShown(error, loading, player) <==> error != "" && !loading
    {
    }
  }

  // ---------------------------------------------------------------- time formatting

  /** `s.padStart(2, "0")`. */
  function PadStart2(s: string): (r: string)
    ensures |s| >= 2 ==> r == s
  {
    if |s| >= 2 then s else if |s| == 1 then ['0'] + s else "00"
  }

  /** A string shorter than two characters is padded on the left with zeros to exactly two. */
  lemma PadStart2Short(s: string)
    requires |s| < 2
    ensures |PadStart2(s)| == 2 && PadStart2(s)[2 - |s|..] == s
    ensures forall i :: 0 <= i < 2 - |s| ==> PadStart2(s)[i] == '0'
  {
  }

  /** `formatTime`: milliseconds as minutes, a colon, and two-digit seconds; minutes never roll into hours. */
  function FormatTime(ms: nat): (r: string)
    ensures |r| >= 4 && r[|r| - 3] == ':'
  {
    if ms == 0 then "0:00"
    else
      var totalSeconds := ms / 1000;
      NatToString(totalSeconds / 60) + ":" + PadStart2(NatToString(totalSeconds % 60))
  }

  /** Two decimal digits denote the number below one hundred they spell. */
  lemma TwoDigits(s: nat)
    requires s < 100
    ensures AllDigits(PadStart2(NatToString(s)))
    ensures |PadStart2(NatToString(s))| == 2
    ensures DecimalValue(PadStart2(NatToString(s))) == s
  {
    var t := NatToString(s);
    DecimalRoundTrip(s);
    if s < 10 {
      var p := PadStart2(t);
      assert p == ['0', t[0]];
      assert p[..1] == ['0'];
      assert t[..0] == [];
    } else {
      var q := NatToString(s / 10);
      assert |q| == 1;
      assert t == q + [DigitChar(s % 10)];
    }
  }

  /** Whatever stands before the colon and the two characters after it can be cut back out. */
  lemma SplitAtColon(a: string, b: string)
    requires |b| == 2
    ensures var r := a + ":" + b; |r| == |a| + 3 && r[..|r| - 3] == a && r[|r| - 2..] == b
  {
    var r := a + ":" + b;
    assert r[..|a|] == a;
    assert r[|a| + 1..] == b;
  }

  /** A number, a colon and a two-character number read back as the two numbers. */
  lemma ReadsBackAroundColon(a: string, b: string, m: nat, s: nat)
    requires |a| >= 1 && |b| == 2 && AllDigits(a) && AllDigits(b)
    requires DecimalValue(a) == m && DecimalValue(b) == s
    ensures var r := a + ":" + b;
      && |r| >= 4 && r[..|r| - 3] == a && r[|r| - 2..] == b
      && AllDigits(r[..|r| - 3]) && AllDigits(r[|r| - 2..])
      && DecimalValue(r[..|r| - 3]) == m && DecimalValue(r[|r| - 2..]) == s
  {
    SplitAtColon(a, b);
  }

  /**
   * The formatted time reads back as the whole minutes and the remaining seconds of `ms`:
   * digits, a colon, then exactly two digits. The special case for zero agrees with the rule.
   */
  lemma FormatTimeReadsBack(ms: nat)
    ensures var r := FormatTime(ms);
      && AllDigits(r[..|r| - 3]) && |r[|r| - 2..]| == 2 && AllDigits(r[|r| - 2..])
      && DecimalValue(r[..|r| - 3]) == ms / 1000 / 60
      && DecimalValue(r[|r| - 2..]) == ms / 1000 % 60
      && (|r| == 4 || r[0] != '0')
  {
    var totalSeconds := ms / 1000;
    var m, s := totalSeconds / 60, totalSeconds % 60;
    var minutes, seconds := NatToString(m), PadStart2(NatToString(s));
    TwoDigits(s);
    DecimalRoundTrip(m);
    ReadsBackAroundColon(minutes, seconds, m, s);
    if ms == 0 {
      assert minutes + ":" + seconds == "0:00";
    }
    assert FormatTime(ms) == minutes + ":" + seconds;
    assert FormatTime(ms)[0] == minutes[0];
  }
}
