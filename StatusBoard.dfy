/**
 * The status page (src/app/status/page.tsx): the stats poll repeated every ten seconds, the
 * spinner / outage / dashboard choice, the uptime formatter, and the shard cards.
 */
module StatusBoard {
  import opened Wrappers
  import opened Text

  /** One entry of `shards`; every field may be absent. */
  datatype Shard = Shard(id: Option<int>, ping: Option<int>, servers: Option<nat>, users: Option<nat>, status: Option<int>)

  /** The body of `GET /api/stats`. */
  datatype Stats = Stats(
    uptime: Option<nat>,
    ping: Option<int>,
    servers: Option<nat>,
    users: Option<nat>,
    players: Option<nat>,
    shards: Option<seq<Shard>>)

  /** What became of one poll: a decoded OK body, a non-OK status, or an exception. */
  datatype PollResult = Ok(stats: Stats) | NotOk | Threw

  // ---------------------------------------------------------------- polling

  /** `fetchStats`' effect on `stats`: overwritten on an OK answer, kept otherwise. */
  function Step(current: Option<Stats>, p: PollResult): (next: Option<Stats>)
    ensures p.Ok? ==> next == Some(p.stats)
    ensures !p.Ok? ==> next == current
    ensures current.Some? ==> next.Some?
  {
    if p.Ok? then Some(p.stats) else current
  }

  /** `stats` after a run of polls starting from `start`. */
  function Replay(start: Option<Stats>, ps: seq<PollResult>): (shown: Option<Stats>)
    ensures start.Some? ==> shown.Some?
    ensures (forall i :: 0 <= i < |ps| ==> !ps[i].Ok?) ==> shown == start
    ensures shown.Some? ==> shown == start || exists i :: 0 <= i < |ps| && ps[i] == Ok(shown.value)
    decreases |ps|
  {
    if ps == [] then start
    else
      var shown := Replay(Step(start, ps[0]), ps[1..]);
      assert forall i :: 0 <= i < |ps[1..]| ==> ps[1..][i] == ps[i + 1];
      shown
  }

  /** The body of the last OK poll in `ps`, if any (an independent reading of the update rule). */
  function LastOk(ps: seq<PollResult>): Option<Stats> {
    if ps == [] then None
    else if ps[|ps| - 1].Ok? then Some(ps[|ps| - 1].stats)
    else LastOk(ps[..|ps| - 1])
  }

  /** Without a result, no poll succeeded. */
  lemma {:induction false} LastOkNone(ps: seq<PollResult>)
    requires LastOk(ps).None?
    ensures forall i :: 0 <= i < |ps| ==> !ps[i].Ok?
  {
    if ps != [] {
      var init := ps[..|ps| - 1];
      LastOkNone(init);
      assert forall i :: 0 <= i < |init| ==> init[i] == ps[i];
    }
  }

  /** A result is the body of a successful poll that no later success follows. */
  lemma {:induction false} LastOkFound(ps: seq<PollResult>) returns (k: nat)
    requires LastOk(ps).Some?
    ensures k < |ps| && ps[k] == Ok(LastOk(ps).value)
    ensures forall j :: k < j < |ps| ==> !ps[j].Ok?
  {
    var last := |ps| - 1;
    if ps[last].Ok? {
      k := last;
    } else {
      var init := ps[..last];
      k := LastOkFound(init);
      assert ps[k] == init[k];
      assert forall j :: k < j < |init| ==> init[j] == ps[j];
    }
  }

  /** `LastOk` finds a successful poll exactly when there is one, and no success follows it. */
  lemma LastOkIsLastSuccess(ps: seq<PollResult>)
    ensures LastOk(ps).Some? <==> exists i :: 0 <= i < |ps| && ps[i].Ok?
    ensures LastOk(ps).Some? ==>
              exists i :: 0 <= i < |ps| && ps[i] == Ok(LastOk(ps).value) && forall j :: i < j < |ps| ==> !ps[j].Ok?
  {
    if LastOk(ps).Some? {
      var k := LastOkFound(ps);
      assert ps[k].Ok?;
    } else {
      LastOkNone(ps);
    }
  }

  /** The board shows the last successful poll; failures never clear it; before any success it shows `start`. */
  lemma {:induction false} ReplayIsLastOk(start: Option<Stats>, ps: seq<PollResult>)
    ensures Replay(start, ps) == if LastOk(ps).Some? then LastOk(ps) else start
    decreases |ps|
  {
    if ps != [] {
      var last := ps[|ps| - 1];
      var init := ps[..|ps| - 1];
      ReplaySnoc(start, init, last);
      assert init + [last] == ps;
      ReplayIsLastOk(start, init);
    }
  }

  lemma {:induction false} ReplaySnoc(start: Option<Stats>, ps: seq<PollResult>, p: PollResult)
    ensures Replay(start, ps + [p]) == Step(Replay(start, ps), p)
    decreases |ps|
  {
    if ps == [] {
      assert [] + [p] == [p];
    } else {
      assert (ps + [p])[1..] == ps[1..] + [p];
      ReplaySnoc(Step(start, ps[0]), ps[1..], p);
    }
  }

  datatype Display = Spinner | Outage | Dashboard(stats: Stats)

  /** Spinner while loading, the outage panel when nothing was ever received, the dashboard otherwise. */
  function DisplayFor(loading: bool, stats: Option<Stats>): (d: Display)
    ensures d == Spinner <==> loading
    ensures d == Outage <==> !loading && stats.None?
    ensures d.Dashboard? ==> stats == Some(d.stats)
  {
    if loading then Spinner else if stats.None? then Outage else Dashboard(stats.value)
  }

  class Board {
    var stats: Option<Stats>
    var loading: bool

    /** The first render: no stats, spinner on. */
    constructor ()
      ensures stats == None && loading
      ensures Display() == Spinner
    {
      stats := None;
      loading := true;
    }

    function Display(): Display
      reads this
    {
      DisplayFor(loading, stats)
    }

    /** One run of `fetchStats` (on mount and on every interval tick). */
    method Poll(p: PollResult)
      modifies this
      ensures stats == Step(old(stats), p) && !loading
      ensures old(stats).Some? ==> stats.Some?
      ensures Display() == if stats.None? then Outage else Dashboard(stats.value)
    {
      if p.Ok? {
        stats := Some(p.stats);
      }
      loading := false;
    }
  }

  // ---------------------------------------------------------------- uptime

  datatype Clock = Clock(days: nat, hours: nat, minutes: nat, seconds: nat)

  /** The days, hours, minutes and seconds `formatUptime` computes. */
  function Decompose(total: nat): (c: Clock)
    ensures c.hours < 24 && c.minutes < 60 && c.seconds < 60
    ensures c.days * 86400 + c.hours * 3600 + c.minutes * 60 + c.seconds == total
  {
    var c := Clock(total / 86400, (total % 86400) / 3600, (total % 3600) / 60, total % 60);
    DecomposeSums(total, c);
    c
  }

  lemma DecomposeSums(total: nat, c: Clock)
    requires c == Clock(total / 86400, (total % 86400) / 3600, (total % 3600) / 60, total % 60)
    ensures c.hours < 24 && c.minutes < 60 && c.seconds < 60
    ensures c.days * 86400 + c.hours * 3600 + c.minutes * 60 + c.seconds == total
  {
    HoursOfDay(total);
    MinutesOfHour(total);
  }

  /** Taking the remainder by an hour inside the remainder by a day changes nothing. */
  lemma HoursOfDay(total: nat)
    ensures total % 86400 == (total % 86400) / 3600 * 3600 + total % 3600
  {
    var r1 := total % 86400;
    assert total == 86400 * (total / 86400) + r1;
    assert r1 == 3600 * (r1 / 3600) + r1 % 3600;
    RemainderBy3600(total, 24 * (total / 86400) + r1 / 3600, r1 % 3600);
  }

  lemma RemainderBy3600(x: nat, q: nat, r: nat)
    requires x == 3600 * q + r && r < 3600
    ensures x % 3600 == r
  {
  }

  lemma MinutesOfHour(total: nat)
    ensures total % 3600 == (total % 3600) / 60 * 60 + total % 60
  {
    var r2 := total % 3600;
    assert total == 3600 * (total / 3600) + r2;
    assert r2 == 60 * (r2 / 60) + r2 % 60;
    assert total == 60 * (60 * (total / 3600) + r2 / 60) + r2 % 60;
  }

  /**
   * One component of the uptime text: the number, its unit letter and the separator that follows,
   * or nothing when it is zero.
   */
  function Part(v: nat, unit: char, sep: string): string {
    if v > 0 then NatToString(v) + ([unit] + sep) else ""
  }

  /** `formatUptime`: "0s" for zero, otherwise the non-zero components in d, h, m, s order. */
  function FormatUptime(total: nat): (r: string)
    ensures total > 0 ==> r != ""
  {
    if total == 0 then "0s"
    else
      var c := Decompose(total);
      Part(c.days, 'd', " ") + Part(c.hours, 'h', " ") + Part(c.minutes, 'm', " ") + Part(c.seconds, 's', "")
  }

  /** The uptime card: an absent uptime reads as zero. */
  function UptimeText(st: Stats): (text: string)
    ensures ParseClock(text) == Some(Decompose(st.uptime.GetOr(0)))
    ensures ParseUptime(text) == Some(st.uptime.GetOr(0))
    ensures st.uptime.None? ==> text == "0s"
  {
    FormatUptimeReadsClock(st.uptime.GetOr(0));
    FormatUptimeRoundTrip(st.uptime.GetOr(0));
    FormatUptime(st.uptime.GetOr(0))
  }

  /** How many seconds one unit letter stands for. */
  function Weight(u: char): nat {
    if u == 'd' then 86400 else if u == 'h' then 3600 else if u == 'm' then 60 else 1
  }

  const NoTime := Clock(0, 0, 0, 0)

  /** The clock with the component named by the unit letter `u` set to `v`. */
  function Put(u: char, v: nat, c: Clock): Clock {
    if u == 'd' then c.(days := v)
    else if u == 'h' then c.(hours := v)
    else if u == 'm' then c.(minutes := v)
    else c.(seconds := v)
  }

  function Record(u: char, v: nat, r: Option<Clock>): Option<Clock> {
    match r
    case Some(c) => Some(Put(u, v, c))
    case None => None
  }

  /**
   * Reads the components of a non-zero uptime text: a positive number with no leading zero, a
   * unit letter, and a space after d, h and m, repeated with units strictly in d, h, m, s order;
   * "s" ends the text. `acc` is the value of the digits read so far in the current component
   * (zero when there are none, since a component never starts with '0') and `limit` is the
   * weight every further unit must stay below.
   */
  function Scan(s: string, acc: nat, limit: nat): Option<Clock>
    decreases |s|
  {
    if s == [] then
      if acc > 0 then None else Some(NoTime)
    else if IsDigit(s[0]) && (acc > 0 || s[0] != '0') then
      Scan(s[1..], acc * 10 + DigitValue(s[0]), limit)
    else if acc > 0 && s[0] in "dhms" && Weight(s[0]) < limit && (s[0] == 's' || (|s| > 1 && s[1] == ' ')) then
      var next := if s[0] == 's' then s[1..] else s[2..];
      Record(s[0], acc, Scan(next, 0, Weight(s[0])))
    else None
  }

  /** The components an uptime text shows: "0s" alone for zero, otherwise as `Scan` reads them. */
  function ParseClock(s: string): Option<Clock> {
    if s == "0s" then Some(NoTime)
    else if s == [] then None
    else Scan(s, 0, Weight('d') + 1)
  }

  function TotalSeconds(c: Clock): nat {
    c.days * 86400 + c.hours * 3600 + c.minutes * 60 + c.seconds
  }

  /** The number of seconds an uptime text stands for. */
  function ParseUptime(s: string): Option<nat> {
    match ParseClock(s)
    case Some(c) => Some(TotalSeconds(c))
    case None => None
  }

  /** The value of the digits `ds` read left to right after `acc`. */
  function Accumulate(acc: nat, ds: string): nat
    requires AllDigits(ds)
    decreases |ds|
  {
    if ds == [] then acc else Accumulate(acc * 10 + DigitValue(ds[0]), ds[1..])
  }

  lemma {:induction false} AccumulateSnoc(acc: nat, ds: string, c: char)
    requires AllDigits(ds) && IsDigit(c)
    ensures AllDigits(ds + [c])
    ensures Accumulate(acc, ds + [c]) == Accumulate(acc, ds) * 10 + DigitValue(c)
    decreases |ds|
  {
    if ds != [] {
      assert (ds + [c])[1..] == ds[1..] + [c];
      AccumulateSnoc(acc * 10 + DigitValue(ds[0]), ds[1..], c);
    }
  }

  /** Reading left to right from zero agrees with `DecimalValue`. */
  lemma {:induction false} AccumulateIsDecimalValue(ds: string)
    requires AllDigits(ds)
    ensures Accumulate(0, ds) == DecimalValue(ds)
  {
    if ds != [] {
      var init := ds[..|ds| - 1];
      AccumulateIsDecimalValue(init);
      AccumulateSnoc(0, init, ds[|ds| - 1]);
      assert init + [ds[|ds| - 1]] == ds;
    }
  }

  /** A run of digits is absorbed into the accumulator. */
  lemma {:induction false} ScanDigits(ds: string, tail: string, acc: nat, limit: nat)
    requires AllDigits(ds) && ds != [] && (acc > 0 || ds[0] != '0')
    ensures Scan(ds + tail, acc, limit) == Scan(tail, Accumulate(acc, ds), limit)
  {
    assert (ds + tail)[0] == ds[0];
    assert (ds + tail)[1..] == ds[1..] + tail;
    var acc' := acc * 10 + DigitValue(ds[0]);
    assert acc' > 0 by {
      assert ds[0] != '0' ==> DigitValue(ds[0]) > 0;
    }
    if ds[1..] != [] {
      ScanDigits(ds[1..], tail, acc', limit);
    } else {
      assert ds[1..] + tail == tail;
    }
  }

  /** Which separator follows a unit letter: a space after d, h and m, the end of the text after s. */
  predicate Separated(u: char, sep: string, rest: string) {
    (u != 's' && sep == " ") || (u == 's' && sep == "" && rest == [])
  }

  /** A unit letter below the limit, and its separator, close the component read so far. */
  lemma ScanUnit(u: char, sep: string, rest: string, acc: nat, limit: nat)
    requires u in "dhms" && Weight(u) < limit && acc > 0
    requires Separated(u, sep, rest)
    ensures Scan(([u] + sep) + rest, acc, limit) == Record(u, acc, Scan(rest, 0, Weight(u)))
  {
    var s := ([u] + sep) + rest;
    assert s[0] == u;
    if sep == " " {
      assert s[1] == ' ' && s[2..] == rest;
    } else {
      assert s[1..] == [] == rest;
    }
  }

  /**
   * One component in front of a text that reads back as the clock `c`, whichever of the two
   * limits applies: the component lands in its own field; a zero component is not there to parse.
   */
  lemma ParsePart(v: nat, u: char, sep: string, rest: string, limit: nat, c: Clock)
    requires u in "dhms" && Weight(u) < limit
    requires Separated(u, sep, rest)
    requires Scan(rest, 0, limit) == Some(c) && Scan(rest, 0, Weight(u)) == Some(c)
    requires Put(u, 0, c) == c
    ensures Scan(Part(v, u, sep) + rest, 0, limit) == Some(Put(u, v, c))
  {
    if v > 0 {
      var ds := NatToString(v);
      assert Part(v, u, sep) + rest == ds + (([u] + sep) + rest);
      ScanDigits(ds, ([u] + sep) + rest, 0, limit);
      AccumulateIsDecimalValue(ds);
      DecimalRoundTrip(v);
      ScanUnit(u, sep, rest, v, limit);
    } else {
      assert Part(v, u, sep) + rest == rest;
    }
  }

  /** The trailing seconds component reads back as the seconds. */
  lemma SecondsReadBack(s: nat, limit: nat)
    requires limit > 1
    ensures Scan(Part(s, 's', ""), 0, limit) == Some(Clock(0, 0, 0, s))
  {
    assert Part(s, 's', "") + [] == Part(s, 's', "");
    ParsePart(s, 's', "", [], limit, NoTime);
  }

  lemma ZeroUptimeReadsBack()
    ensures ParseClock(FormatUptime(0)) == Some(NoTime) == Some(Decompose(0))
    ensures ParseUptime(FormatUptime(0)) == Some(0)
  {
    assert Decompose(0) == NoTime by {
      var c := Decompose(0);
      assert c.days * 86400 + c.hours * 3600 + c.minutes * 60 + c.seconds == 0;
    }
  }

  lemma MinutesReadBack(m: nat, s: nat, limit: nat)
    requires limit > 60
    ensures Scan(Part(m, 'm', " ") + Part(s, 's', ""), 0, limit) == Some(Clock(0, 0, m, s))
  {
    SecondsReadBack(s, limit);
    SecondsReadBack(s, Weight('m'));
    ParsePart(m, 'm', " ", Part(s, 's', ""), limit, Clock(0, 0, 0, s));
  }

  lemma HoursReadBack(h: nat, m: nat, s: nat, limit: nat)
    requires limit > 3600
    ensures Scan(Part(h, 'h', " ") + (Part(m, 'm', " ") + Part(s, 's', "")), 0, limit)
         == Some(Clock(0, h, m, s))
  {
    MinutesReadBack(m, s, limit);
    MinutesReadBack(m, s, Weight('h'));
    ParsePart(h, 'h', " ", Part(m, 'm', " ") + Part(s, 's', ""), limit, Clock(0, 0, m, s));
  }

  /** Four components, each present only when non-zero, read back as exactly those components. */
  lemma PartsReadBack(d: nat, h: nat, m: nat, s: nat)
    ensures Scan(Part(d, 'd', " ") + (Part(h, 'h', " ") + (Part(m, 'm', " ") + Part(s, 's', ""))), 0, Weight('d') + 1)
         == Some(Clock(d, h, m, s))
  {
    var rest := Part(h, 'h', " ") + (Part(m, 'm', " ") + Part(s, 's', ""));
    HoursReadBack(h, m, s, Weight('d') + 1);
    HoursReadBack(h, m, s, Weight('d'));
    ParsePart(d, 'd', " ", rest, Weight('d') + 1, Clock(0, h, m, s));
  }

  /** Every uptime text reads back as the days, hours, minutes and seconds it was made from. */
  lemma FormatUptimeReadsClock(total: nat)
    ensures ParseClock(FormatUptime(total)) == Some(Decompose(total))
  {
    if total == 0 {
      ZeroUptimeReadsBack();
    } else {
      ComponentsReadBack(total, Decompose(total));
    }
  }

  lemma ComponentsReadBack(total: nat, c: Clock)
    requires total > 0 && c == Decompose(total)
    ensures ParseClock(FormatUptime(total)) == Some(c)
  {
    var a, b, m, s := Part(c.days, 'd', " "), Part(c.hours, 'h', " "), Part(c.minutes, 'm', " "), Part(c.seconds, 's', "");
    assert FormatUptime(total) == a + b + m + s;
    Associate(a, b, m, s);
    PartsReadBack(c.days, c.hours, c.minutes, c.seconds);
    assert Scan("0s", 0, Weight('d') + 1) == None;
  }

  /** Every uptime text reads back as the number of seconds it was made from. */
  lemma FormatUptimeRoundTrip(total: nat)
    ensures ParseUptime(FormatUptime(total)) == Some(total)
  {
    FormatUptimeReadsClock(total);
  }

  /** Two uptimes that show the same text are the same uptime. */
  lemma FormatUptimeInjective(t1: nat, t2: nat)
    ensures FormatUptime(t1) == FormatUptime(t2) <==> t1 == t2
  {
    FormatUptimeRoundTrip(t1);
    FormatUptimeRoundTrip(t2);
  }

  /**
   * Only the spelling `formatUptime` uses is an uptime text: units out of order, a unit twice, a
   * missing space, a leading zero or a zero component are all rejected.
   */
  lemma OutOfOrderRejected()
    ensures ParseClock("1s 1m") == None
    ensures ParseClock("1m 1m") == None
    ensures ParseClock("1h1m") == None
    ensures ParseClock("01h 1m ") == None
    ensures ParseClock("0h 1m ") == None
  {
    var limit := Weight('d') + 1;
    assert Scan("s 1m", 1, limit) == None by {
      assert "s 1m"[1..] == " 1m";
    }
    assert "1s 1m"[1..] == "s 1m";
    assert Scan("m", 1, 60) == None;
    assert Scan("1m", 0, 60) == None by {
      assert "1m"[1..] == "m";
    }
    assert Scan("m 1m", 1, limit) == None by {
      assert "m 1m"[2..] == "1m";
    }
    assert "1m 1m"[1..] == "m 1m";
    assert "1h1m"[1..] == "h1m";
  }

  lemma Associate(a: string, b: string, m: string, s: string)
    ensures a + b + m + s == a + (b + (m + s))
  {
  }

  /** A letter other than a digit or a space occurs in a component exactly when it is that component's unit. */
  lemma LetterInPart(v: nat, u: char, sep: string, x: char)
    requires !IsDigit(x) && x != ' ' && (sep == "" || sep == " ")
    ensures x in Part(v, u, sep) <==> v > 0 && x == u
  {
    if v > 0 {
      var ds := NatToString(v);
      assert Part(v, u, sep) == ds + ([u] + sep);
      assert x !in ds;
    }
  }

  /** Each unit letter appears in the uptime text exactly when its component is positive. */
  lemma UnitShownIff(total: nat)
    requires total > 0
    ensures var c, r := Decompose(total), FormatUptime(total);
      && ('d' in r <==> c.days > 0) && ('h' in r <==> c.hours > 0)
      && ('m' in r <==> c.minutes > 0) && ('s' in r <==> c.seconds > 0)
  {
    var c := Decompose(total);
    var a, b, m, s := Part(c.days, 'd', " "), Part(c.hours, 'h', " "), Part(c.minutes, 'm', " "), Part(c.seconds, 's', "");
    assert FormatUptime(total) == a + b + m + s;
    forall x | x in "dhms"
      ensures x in a + b + m + s <==>
                || (x == 'd' && c.days > 0) || (x == 'h' && c.hours > 0)
                || (x == 'm' && c.minutes > 0) || (x == 's' && c.seconds > 0)
    {
      LetterInPart(c.days, 'd', " ", x);
      LetterInPart(c.hours, 'h', " ", x);
      LetterInPart(c.minutes, 'm', " ", x);
      LetterInPart(c.seconds, 's', "", x);
    }
  }

  // ---------------------------------------------------------------- shards

  /** `stats.shards || [one shard made from the aggregate fields]`. */
  function ShardsOf(st: Stats): (r: seq<Shard>)
    ensures st.shards.Some? ==> r == st.shards.value
    ensures st.shards.None? ==>
              && |r| == 1 && ShardIdShown(r[0]) == 0 && ShardStatusLabel(r[0].status) == "Online"
              && Heartbeat(r[0]) == st.ping.GetOr(0) && r[0].servers == st.servers && r[0].users == st.users
  {
    match st.shards
    case Some(s) => s
    case None => [Shard(Some(0), st.ping, st.servers, st.users, Some(0))]
  }

  /** `shard.id ?? 0`. */
  function ShardIdShown(s: Shard): (id: int)
    ensures s.id.Some? ==> id == s.id.value
    ensures s.id.None? ==> id == 0
  {
    s.id.GetOr(0)
  }

  /** `shard.ping ?? 0`. */
  function Heartbeat(s: Shard): (ms: int)
    ensures s.ping.Some? ==> ms == s.ping.value
    ensures s.ping.None? ==> ms == 0
  {
    s.ping.GetOr(0)
  }

  /** Status 0 reads "Online", 1 "Connecting", anything else (absent included) "Offline". */
  function ShardStatusLabel(status: Option<int>): (text: string)
    ensures text == "Online" <==> status == Some(0)
    ensures text == "Connecting" <==> status == Some(1)
    ensures text == "Offline" <==> status != Some(0) && status != Some(1)
  {
    if status == Some(0) then "Online" else if status == Some(1) then "Connecting" else "Offline"
  }
}
