/** The warzone control bar: a boss bar per player standing in a warzone, showing who controls it
    and for how long. Bukkit's lookups are oracles (`World`), the bars are opaque handles with the
    view last rendered on them, and the warzone registry is the sequence `zones` in iteration order. */
module ControlBar {
  import opened Wrappers
  import opened Decimal
  import opened WarzoneData
  import opened Warzones

  type PlayerId = nat
  type ChunkId = int

  /** What the server answers about players: whether one is online, the chunk one stands in,
      and the territory a chunk belongs to. */
  datatype World = World(online: PlayerId -> bool, chunkOf: PlayerId -> ChunkId, territoryOf: ChunkId -> Option<TerritoryId>)

  datatype BarColor = Red | Yellow | Blue

  /** The parts of a bar's title; `TitleText` renders them with their chat colours. */
  datatype Title =
    | Untitled
    | Uncontrolled(zoneName: string)
    | Controlled(zoneName: string, controllerName: string, current: string, best: Option<string>)

  /** What a bar shows; its progress is the fraction `progressNum / progressDen`. */
  datatype BarView = BarView(title: Title, color: BarColor, progressNum: nat, progressDen: nat)

  /** A player's boss bar: its identity and what it currently shows. */
  datatype Bar = Bar(handle: nat, view: BarView)

  const MinuteMs: int := 60000

  // ---------------------------------------------------------------------------------------------
  // Durations

  /** A duration in compact form: whole minutes below an hour, else hours and leftover minutes. */
  function FormatDuration(ms: int): (s: string)
    ensures ms < MinuteMs ==> s == "0m"
  {
    if ms <= 0 then "0m"
    else
      var totalMinutes := ms / 60000;
      if totalMinutes < 60 then NatToString(totalMinutes) + "m"
      else
        var hours := totalMinutes / 60;
        var minutes := totalMinutes % 60;
        if minutes == 0 then NatToString(hours) + "h" else NatToString(hours) + "h " + NatToString(minutes) + "m"
  }

  /** A duration shows as "0m" exactly when it is shorter than a minute. */
  lemma FormatDurationZeroIff(ms: int)
    ensures FormatDuration(ms) == "0m" <==> ms < MinuteMs
  {
    if ms >= MinuteMs {
      var m := ms / 60000;
      assert m >= 1;
      if m >= 60 {
        assert m / 60 >= 1;
      }
      assert FormatDuration(ms)[0] != '0';
    }
  }

  lemma FormatDurationExamples()
    ensures FormatDuration(0) == "0m"
    ensures FormatDuration(59000) == "0m"
    ensures FormatDuration(90000) == "1m"
    ensures FormatDuration(3600000) == "1h"
    ensures FormatDuration(5400000) == "1h 30m"
  {
    assert NatToString(30) == NatToString(3) + [DigitChar(0)];
  }

  /** Position of the first `c` in `s`, or `|s|` when there is none. */
  function IndexOf(s: string, c: char): (k: nat)
    ensures k <= |s| && (k < |s| ==> s[k] == c)
    ensures forall i :: 0 <= i < k ==> s[i] != c
    decreases |s|
  {
    if s == [] then 0 else if s[0] == c then 0 else 1 + IndexOf(s[1..], c)
  }

  /** Reads a compact duration back as a number of minutes. Only the forms the formatter can
      produce are accepted: "Mm" with M below 60, "Hh" with H at least 1, and "Hh Mm" with H at
      least 1 and M from 1 to 59, every number without leading zeros. */
  function ParseDuration(s: string): Option<nat> {
    if |s| < 2 then None else ParseWithUnit(s[..|s| - 1], s[|s| - 1])
  }

  /** Reads the text before the final unit letter. */
  function ParseWithUnit(body: string, unit: char): Option<nat> {
    if unit == 'h' then
      if Canonical(body) && ParseNat(body) >= 1 then Some(HoursAndMinutes(ParseNat(body), 0)) else None
    else if unit == 'm' then ParseMinutesBody(body, IndexOf(body, 'h'))
    else None
  }

  /** A minutes text: bare minutes, or hours, "h ", then minutes (`k` is the position of the 'h'). */
  function ParseMinutesBody(body: string, k: nat): Option<nat>
    requires k <= |body|
  {
    if k == |body| then
      if Canonical(body) && ParseNat(body) < 60 then Some(ParseNat(body)) else None
    else if k + 1 < |body| && body[k + 1] == ' ' && Canonical(body[..k]) && Canonical(body[k + 2..])
            && ParseNat(body[..k]) >= 1 && 1 <= ParseNat(body[k + 2..]) < 60 then
      Some(HoursAndMinutes(ParseNat(body[..k]), ParseNat(body[k + 2..])))
    else None
  }

  function HoursAndMinutes(hours: nat, minutes: nat): nat {
    hours * 60 + minutes
  }

  lemma ParseSplitsUnit(body: string, unit: char)
    requires |body| > 0
    ensures ParseDuration(body + [unit]) == ParseWithUnit(body, unit)
  {
    assert (body + [unit])[..|body|] == body;
  }

  lemma IndexOfAfterDigits(d: string, rest: string)
    requires AllDigits(d) && |rest| > 0 && rest[0] == 'h'
    ensures IndexOf(d + rest, 'h') == |d|
  {
    assert (d + rest)[|d|] == 'h';
    assert forall i :: 0 <= i < |d| ==> (d + rest)[i] == d[i] && IsDigit(d[i]);
  }

  lemma IndexOfDigits(d: string)
    requires AllDigits(d)
    ensures IndexOf(d, 'h') == |d|
  {
    assert forall i :: 0 <= i < |d| ==> IsDigit(d[i]);
  }

  lemma ParseMinutesText(m: nat)
    requires m < 60
    ensures ParseDuration(NatToString(m) + "m") == Some(m)
  {
    ParseSplitsUnit(NatToString(m), 'm');
    IndexOfDigits(NatToString(m));
    ParseNatToString(m);
  }

  lemma ParseHoursText(h: nat)
    requires h >= 1
    ensures ParseDuration(NatToString(h) + "h") == Some(h * 60)
  {
    ParseSplitsUnit(NatToString(h), 'h');
    ParseNatToString(h);
  }

  lemma ParseHoursMinutesBody(dh: string, dm: string)
    requires Canonical(dh) && Canonical(dm) && ParseNat(dh) >= 1 && 1 <= ParseNat(dm) < 60
    ensures ParseMinutesBody(dh + "h " + dm, |dh|) == Some(HoursAndMinutes(ParseNat(dh), ParseNat(dm)))
  {
    var body := dh + "h " + dm;
    var k := |dh|;
    assert body[k + 1] == ' ';
    assert body[..k] == dh;
    assert body[k + 2..] == dm;
  }

  lemma ParseHoursMinutesDigits(dh: string, dm: string)
    requires Canonical(dh) && Canonical(dm) && ParseNat(dh) >= 1 && 1 <= ParseNat(dm) < 60
    ensures ParseDuration(dh + "h " + dm + "m") == Some(HoursAndMinutes(ParseNat(dh), ParseNat(dm)))
  {
    MinutesUnitAfterHours(dh, dm);
    ParseHoursMinutesBody(dh, dm);
  }

  /** A text of hour digits, "h ", anything, and "m" is read as a minutes text split at the 'h'. */
  lemma MinutesUnitAfterHours(dh: string, dm: string)
    requires AllDigits(dh)
    ensures ParseDuration(dh + "h " + dm + "m") == ParseMinutesBody(dh + "h " + dm, |dh|)
  {
    var body := dh + "h " + dm;
    ParseSplitsUnit(body, 'm');
    assert body == dh + ("h " + dm);
    IndexOfAfterDigits(dh, "h " + dm);
  }

  lemma ParseHoursMinutesText(h: nat, m: nat)
    requires h >= 1 && 1 <= m < 60
    ensures ParseDuration(NatToString(h) + "h " + NatToString(m) + "m") == Some(h * 60 + m)
  {
    var dh, dm := NatToString(h), NatToString(m);
    ParseNatToString(h);
    ParseNatToString(m);
    ParseHoursMinutesDigits(dh, dm);
    assert HoursAndMinutes(ParseNat(dh), ParseNat(dm)) == h * 60 + m;
  }

  /** The compact form keeps the whole minutes of a positive duration: reading it back gives them. */
  lemma FormatDurationRoundTrip(ms: int)
    ensures ParseDuration(FormatDuration(ms)) == Some(if ms <= 0 then 0 else ms / 60000)
  {
    if ms <= 0 {
      ParseMinutesText(0);
    } else {
      var m := ms / 60000;
      if m < 60 {
        ParseMinutesText(m);
      } else if m % 60 == 0 {
        ParseHoursText(m / 60);
      } else {
        ParseHoursMinutesText(m / 60, m % 60);
      }
    }
  }

  /** A whole number of minutes below an hour is written as bare minutes. */
  lemma FormatWholeMinutes(m: nat)
    requires m < 60
    ensures FormatDuration(m * MinuteMs) == NatToString(m) + "m"
  {
    assert m == 0 ==> NatToString(m) == "0";
    assert (m * 60000) / 60000 == m;
  }

  /** A whole number of hours and leftover minutes is written as hours, then the minutes when
      there are any. */
  lemma FormatWholeHours(h: nat, m: nat)
    requires h >= 1 && m < 60
    ensures m == 0 ==> FormatDuration(HoursAndMinutes(h, m) * MinuteMs) == NatToString(h) + "h"
    ensures m > 0 ==> FormatDuration(HoursAndMinutes(h, m) * MinuteMs) == NatToString(h) + "h " + NatToString(m) + "m"
  {
    var v := HoursAndMinutes(h, m);
    assert (v * 60000) / 60000 == v;
    assert v >= 60 && v / 60 == h && v % 60 == m;
  }

  /** Every text the reader accepts is the compact form of the minutes it reads as. */
  lemma ParsedTextIsFormatted(s: string)
    requires ParseDuration(s).Some?
    ensures s == FormatDuration(ParseDuration(s).value * MinuteMs)
  {
    var body := s[..|s| - 1];
    var unit := s[|s| - 1];
    assert s == body + [unit];
    if unit == 'h' {
      CanonicalParses(body);
      FormatWholeHours(ParseNat(body), 0);
    } else {
      var k := IndexOf(body, 'h');
      if k == |body| {
        CanonicalParses(body);
        FormatWholeMinutes(ParseNat(body));
      } else {
        var dh := body[..k];
        var dm := body[k + 2..];
        assert body == dh + "h " + dm;
        CanonicalParses(dh);
        CanonicalParses(dm);
        FormatWholeHours(ParseNat(dh), ParseNat(dm));
      }
    }
  }

  /** The compact form is the only text that reads back as its minutes: no other spelling of the
      same duration (such as "90m" for "1h 30m", or a leading zero) is accepted. */
  lemma FormatDurationIsOnlyText(ms: int, s: string)
    requires ParseDuration(s) == ParseDuration(FormatDuration(ms))
    ensures s == FormatDuration(ms)
  {
    FormatDurationRoundTrip(ms);
    ParsedTextIsFormatted(s);
    ParsedTextIsFormatted(FormatDuration(ms));
  }

  /** "90m" and "01m" are not read as durations. */
  lemma NonCanonicalRejected()
    ensures ParseDuration("90m") == None
    ensures ParseDuration("01m") == None
  {
    assert "90m"[..2] == "90" && "01m"[..2] == "01";
    IndexOfDigits("90");
    IndexOfDigits("01");
    assert ParseNat("90") == ParseNat("9") * 10 + 0;
    assert "9"[..0] == [];
  }

  // ---------------------------------------------------------------------------------------------
  // Rendering one bar

  function Max(a: int, b: int): int {
    if a >= b then a else b
  }

  function Min(a: int, b: int): int {
    if a <= b then a else b
  }

  /** The controller's longest streak, 0 when it has no statistics. */
  function LongestStreak(h: History, nation: NationId): int {
    if nation in h then h[nation].longestControlStreakMs else 0
  }

  /** What `updateBar` puts on a bar for warzone `w` at time `now`; `BarForRendering` states
      what that is. */
  function BarFor(w: Warzone, nameOf: NationId -> string, now: int): (v: BarView)
    reads w
    ensures v.progressDen > 0 && v.progressNum <= v.progressDen
  {
    if w.controllingNation.None? then BarView(Uncontrolled(w.name), Red, 0, 1)
    else
      var controller := w.controllingNation.value;
      var stats := if controller in w.controlHistory then Some(w.controlHistory[controller]) else None;
      var currentMs := Max(0, now - w.controlStartTime);
      var longestStr := FormatDuration(if stats.Some? then stats.value.longestControlStreakMs else 0);
      var title := Controlled(w.name, nameOf(controller), FormatDuration(currentMs),
                              if longestStr != "0m" then Some(longestStr) else None);
      if stats.Some? && stats.value.longestControlStreakMs > 0 then
        BarView(title, Yellow, Min(currentMs, stats.value.longestControlStreakMs), stats.value.longestControlStreakMs)
      else BarView(title, Yellow, 0, 1)
  }

  /** An uncontrolled warzone shows red with no progress. A controlled one shows yellow, the
      controller's name, the time held so far, the best streak exactly when it lasted a minute,
      and progress towards that streak capped at full. */
  lemma BarForRendering(w: Warzone, nameOf: NationId -> string, now: int)
    ensures var v := BarFor(w, nameOf, now);
      && (w.controllingNation.None? ==> v == BarView(Uncontrolled(w.name), Red, 0, 1))
      && (w.controllingNation.Some? ==>
        var c := w.controllingNation.value;
        var currentMs := Max(0, now - w.controlStartTime);
        var longest := LongestStreak(w.controlHistory, c);
        && v.color == Yellow
        && v.title == Controlled(w.name, nameOf(c), FormatDuration(currentMs),
                                 if longest >= MinuteMs then Some(FormatDuration(longest)) else None)
        && (longest <= 0 ==> v.progressNum == 0)
        && (longest > 0 ==> v.progressDen == longest && v.progressNum == Min(currentMs, longest))
        && (longest > 0 ==> (v.progressNum == v.progressDen <==> currentMs >= longest)))
  {
    if w.controllingNation.Some? {
      FormatDurationZeroIff(LongestStreak(w.controlHistory, w.controllingNation.value));
    }
  }

  /** The title as the chat shows it, colour codes included. */
  function TitleText(t: Title): (s: string)
    ensures s == "" <==> t.Untitled?
  {
    match t
    case Untitled => ""
    case Uncontrolled(name) => "\U{A7}7" + name + " Warzone \U{A7}f- \U{A7}cUncontrolled"
    case Controlled(name, controller, current, best) =>
      "\U{A7}6" + name + " \U{A7}f\U{2022} \U{A7}e" + controller + " \U{A7}f- \U{A7}b" + current
        + (if best.Some? then " \U{A7}7(best " + best.value + ")" else "")
  }

  /** The title text `updateBar` sets: the uncontrolled form, or the controlled form whose
      "(best ...)" part appears exactly when the longest streak lasted at least a minute. */
  lemma BarTitleText(w: Warzone, nameOf: NationId -> string, now: int)
    ensures var text := TitleText(BarFor(w, nameOf, now).title);
      && (w.controllingNation.None? ==> text == "\U{A7}7" + w.name + " Warzone \U{A7}f- \U{A7}cUncontrolled")
      && (w.controllingNation.Some? ==>
        var c := w.controllingNation.value;
        var longest := LongestStreak(w.controlHistory, c);
        text == "\U{A7}6" + w.name + " \U{A7}f\U{2022} \U{A7}e" + nameOf(c) + " \U{A7}f- \U{A7}b"
                + FormatDuration(Max(0, now - w.controlStartTime))
                + (if longest >= MinuteMs then " \U{A7}7(best " + FormatDuration(longest) + ")" else ""))
  {
    BarForRendering(w, nameOf, now);
  }

  // ---------------------------------------------------------------------------------------------
  // Which warzone a player is in

  /** The first warzone in `zones` listing territory `t` (`firstOrNull`). */
  function FindWarzone(zones: seq<Warzone>, t: TerritoryId): (r: Option<Warzone>)
    ensures r.Some? ==> r.value in zones && t in r.value.territories
    decreases |zones|
  {
    if zones == [] then None
    else if t in zones[0].territories then Some(zones[0])
    else FindWarzone(zones[1..], t)
  }

  /** The lookup finds nothing exactly when no warzone lists `t`, and otherwise the first one that does. */
  lemma {:induction false} FindWarzoneFindsFirst(zones: seq<Warzone>, t: TerritoryId)
    ensures var r := FindWarzone(zones, t);
      && (r.None? <==> forall i :: 0 <= i < |zones| ==> t !in zones[i].territories)
      && (r.Some? ==> exists i :: 0 <= i < |zones| && zones[i] == r.value && t in zones[i].territories &&
                                forall j :: 0 <= j < i ==> t !in zones[j].territories)
    decreases |zones|
  {
    if zones != [] && t !in zones[0].territories {
      var r := FindWarzone(zones[1..], t);
      FindWarzoneFindsFirst(zones[1..], t);
      if r.Some? {
        var i :| 0 <= i < |zones[1..]| && zones[1..][i] == r.value && t in zones[1..][i].territories &&
                 forall j :: 0 <= j < i ==> t !in zones[1..][j].territories;
        assert zones[i + 1] == r.value;
        forall j | 0 <= j < i + 1 ensures t !in zones[j].territories {
          if j > 0 { assert zones[j] == zones[1..][j - 1]; }
        }
      } else {
        forall i | 0 <= i < |zones| ensures t !in zones[i].territories {
          if i > 0 { assert zones[i] == zones[1..][i - 1]; }
        }
      }
    }
  }

  /** The territory a player stands in, if any. */
  function TerritoryOf(world: World, p: PlayerId): Option<TerritoryId> {
    world.territoryOf(world.chunkOf(p))
  }

  /** The warzone `getWarzoneForPlayer` returns for `p`. */
  function WarzoneAt(world: World, zones: seq<Warzone>, p: PlayerId): (r: Option<Warzone>)
    ensures TerritoryOf(world, p).None? ==> r.None?
    ensures r.Some? ==> r.value in zones && TerritoryOf(world, p).value in r.value.territories
  {
    var t := TerritoryOf(world, p);
    if t.None? then None else FindWarzone(zones, t.value)
  }

  /** Whether the periodic sweep keeps the bar of `p`. */
  predicate KeepsBar(world: World, zones: seq<Warzone>, p: PlayerId) {
    world.online(p) && WarzoneAt(world, zones, p).Some?
  }

  /** Whether `notifyChange(w)` re-renders the bar of `p`: `p` is online and was last seen in
      `w` or is standing in it now. */
  predicate Rerenders(last: map<PlayerId, Option<Warzone>>, world: World, zones: seq<Warzone>, w: Warzone, p: PlayerId) {
    world.online(p) && ((p in last && last[p] == Some(w)) || WarzoneAt(world, zones, p) == Some(w))
  }

  /** Whether `notifyChange(w)` looks `p` up afresh (and so records where `p` is). */
  predicate LooksUp(last: map<PlayerId, Option<Warzone>>, world: World, w: Warzone, p: PlayerId) {
    world.online(p) && !(p in last && last[p] == Some(w)) && TerritoryOf(world, p).Some?
  }

  /** The bar of `p` after a sweep, given the bars before it: re-rendered with the warzone `p`
      stands in, keeping its handle; a player outside every warzone keeps the bar as it was. */
  function SweptBar(bars: map<PlayerId, Bar>, world: World, zones: seq<Warzone>, nameOf: NationId -> string, now: int,
                    p: PlayerId): (b: Bar)
    reads if WarzoneAt(world, zones, p).Some? then {WarzoneAt(world, zones, p).value} else {}
    requires p in bars
    ensures b.handle == bars[p].handle
  {
    var zone := WarzoneAt(world, zones, p);
    if zone.Some? then Bar(bars[p].handle, BarFor(zone.value, nameOf, now)) else bars[p]
  }

  /** The bar of `p` after a change notification for `w`, given the tables before it: re-rendered
      with `w` when `Rerenders` holds, else as it was. */
  function NotifiedBar(bars: map<PlayerId, Bar>, last: map<PlayerId, Option<Warzone>>, world: World, zones: seq<Warzone>,
                       w: Warzone, nameOf: NationId -> string, now: int, p: PlayerId): Bar
    reads w
    requires p in bars
  {
    if Rerenders(last, world, zones, w, p) then Bar(bars[p].handle, BarFor(w, nameOf, now)) else bars[p]
  }

  /** The last-known warzone of `p` after a change notification for `w`: looked up afresh when
      `LooksUp` holds, else as it was. */
  function NotifiedLast(last: map<PlayerId, Option<Warzone>>, world: World, zones: seq<Warzone>, w: Warzone,
                        p: PlayerId): Option<Warzone>
    requires p in last
  {
    if LooksUp(last, world, w, p) then WarzoneAt(world, zones, p) else last[p]
  }

  // ---------------------------------------------------------------------------------------------
  // The two per-player tables

  class WarzoneControlBar {
    var playerBars: map<PlayerId, Bar>
    var playerLastWarzone: map<PlayerId, Option<Warzone>>
    /** The handle the next created bar gets; every bar in use has a smaller one. */
    var nextHandle: nat

    /** Exactly the players with a bar have a last-known warzone, and bar handles are allocated. */
    ghost predicate Valid()
      reads this
    {
      && playerBars.Keys == playerLastWarzone.Keys
      && forall p :: p in playerBars ==> playerBars[p].handle < nextHandle
    }

    constructor ()
      ensures Valid() && playerBars == map[] && playerLastWarzone == map[]
    {
      playerBars := map[];
      playerLastWarzone := map[];
      nextHandle := 0;
    }

    /** Finds the warzone `p` stands in and records it (possibly none) as the last one seen;
        a player outside every territory is not recorded. */
    method GetWarzoneForPlayer(p: PlayerId, world: World, zones: seq<Warzone>) returns (w: Option<Warzone>)
      modifies this`playerLastWarzone
      ensures w == WarzoneAt(world, zones, p)
      ensures TerritoryOf(world, p).None? ==> playerLastWarzone == old(playerLastWarzone)
      ensures TerritoryOf(world, p).Some? ==> playerLastWarzone == old(playerLastWarzone)[p := w]
    {
      var territory := world.territoryOf(world.chunkOf(p));
      if territory.None? {
        return None;
      }
      w := FindWarzone(zones, territory.value);
      playerLastWarzone := playerLastWarzone[p := w];
    }

    /** Renders `w` on the bar of `p`, keeping the bar itself. */
    method UpdateBar(p: PlayerId, w: Warzone, nameOf: NationId -> string, now: int)
      requires p in playerBars
      modifies this`playerBars
      ensures playerBars == old(playerBars)[p := Bar(old(playerBars)[p].handle, BarFor(w, nameOf, now))]
    {
      playerBars := playerBars[p := Bar(playerBars[p].handle, BarFor(w, nameOf, now))];
    }

    /** A move into another chunk: a player now in a warzone gets (or keeps) a bar showing it,
        any other player loses both entries. A move within one chunk changes nothing. */
    method OnPlayerMove(p: PlayerId, from: ChunkId, to: Option<ChunkId>, world: World, zones: seq<Warzone>,
                        nameOf: NationId -> string, now: int)
      requires Valid()
      modifies this
      ensures Valid()
      ensures to == Some(from) ==> unchanged(this)
      ensures to != Some(from) ==>
        var w := WarzoneAt(world, zones, p);
        if w.Some? then
          && playerBars.Keys == old(playerBars).Keys + {p}
          && playerBars[p] == Bar(if p in old(playerBars) then old(playerBars)[p].handle else old(nextHandle),
                                  BarFor(w.value, nameOf, now))
          && (forall q :: q in old(playerBars) && q != p ==> playerBars[q] == old(playerBars)[q])
          && playerLastWarzone == old(playerLastWarzone)[p := w]
        else
          playerBars == old(playerBars) - {p} && playerLastWarzone == old(playerLastWarzone) - {p}
    {
      if to == Some(from) {
        return;
      }
      var warzone := GetWarzoneForPlayer(p, world, zones);
      if warzone.Some? {
        if p !in playerBars {
          playerBars := playerBars[p := Bar(nextHandle, BarView(Untitled, Blue, 0, 1))];
          nextHandle := nextHandle + 1;
        }
        UpdateBar(p, warzone.value, nameOf, now);
      } else {
        playerBars := playerBars - {p};
        playerLastWarzone := playerLastWarzone - {p};
      }
    }

    /** A player leaving the server loses both entries; nobody else is affected. */
    method OnPlayerQuit(p: PlayerId)
      requires Valid()
      modifies this
      ensures Valid()
      ensures playerBars == old(playerBars) - {p} && playerLastWarzone == old(playerLastWarzone) - {p}
      ensures nextHandle == old(nextHandle)
    {
      playerBars := playerBars - {p};
      playerLastWarzone := playerLastWarzone - {p};
    }

    /** One player of the sweep: an online player standing in a warzone has the bar re-rendered
        (the answer is true), any other keeps the bar as it is for now (the answer is false). */
    method SweepPlayer(p: PlayerId, world: World, zones: seq<Warzone>, nameOf: NationId -> string, now: int)
      returns (keep: bool)
      requires p in playerBars && p in playerLastWarzone
      modifies this`playerBars, this`playerLastWarzone
      ensures keep == KeepsBar(world, zones, p)
      ensures keep ==> playerBars == old(playerBars)[p := SweptBar(old(playerBars), world, zones, nameOf, now, p)]
      ensures keep ==> playerLastWarzone == old(playerLastWarzone)[p := WarzoneAt(world, zones, p)]
      ensures !keep ==> playerBars == old(playerBars)
      ensures !keep ==> playerLastWarzone.Keys == old(playerLastWarzone).Keys
      ensures !keep ==> forall q :: q in playerLastWarzone && q != p ==> playerLastWarzone[q] == old(playerLastWarzone)[q]
    {
      if !world.online(p) {
        return false;
      }
      var warzone := GetWarzoneForPlayer(p, world, zones);
      if warzone.None? {
        return false;
      }
      UpdateBar(p, warzone.value, nameOf, now);
      return true;
    }

    /** Drops the bars and last-known warzones of the players in `toRemove`. */
    method RemovePlayers(toRemove: set<PlayerId>)
      modifies this`playerBars, this`playerLastWarzone
      ensures playerBars == old(playerBars) - toRemove && playerLastWarzone == old(playerLastWarzone) - toRemove
    {
      var rest := toRemove;
      while rest != {}
        invariant rest <= toRemove
        invariant playerBars == old(playerBars) - (toRemove - rest)
        invariant playerLastWarzone == old(playerLastWarzone) - (toRemove - rest)
        decreases rest
      {
        var p :| p in rest;
        playerBars := playerBars - {p};
        playerLastWarzone := playerLastWarzone - {p};
        rest := rest - {p};
      }
    }

    /** The first pass of the sweep: re-renders the bar of every player it keeps and collects
        the players whose bars are to be dropped; no entry is removed yet. */
    method CollectStale(world: World, zones: seq<Warzone>, nameOf: NationId -> string, now: int)
      returns (toRemove: set<PlayerId>)
      requires playerLastWarzone.Keys == playerBars.Keys
      modifies this`playerBars, this`playerLastWarzone
      ensures playerBars.Keys == old(playerBars).Keys && playerLastWarzone.Keys == playerBars.Keys
      ensures toRemove <= playerBars.Keys
      ensures forall p :: p in playerBars ==> (p in toRemove <==> !KeepsBar(world, zones, p))
      ensures forall p :: p in playerBars && !(p in toRemove) ==>
        playerBars[p] == SweptBar(old(playerBars), world, zones, nameOf, now, p) &&
        playerLastWarzone[p] == WarzoneAt(world, zones, p)
    {
      toRemove := {};
      var pending := playerBars.Keys;
      while pending != {}
        invariant pending <= playerBars.Keys
        invariant playerBars.Keys == old(playerBars).Keys && playerLastWarzone.Keys == playerBars.Keys
        invariant forall p :: p in pending ==> playerBars[p] == old(playerBars)[p]
        invariant toRemove <= playerBars.Keys && toRemove !! pending
        invariant forall p :: p in playerBars && p !in pending ==> (p in toRemove <==> !KeepsBar(world, zones, p))
        invariant forall p :: p in playerBars && p !in pending && p !in toRemove ==>
          playerBars[p] == SweptBar(old(playerBars), world, zones, nameOf, now, p) &&
          playerLastWarzone[p] == WarzoneAt(world, zones, p)
        decreases pending
      {
        var p :| p in pending;
        var keep := SweepPlayer(p, world, zones, nameOf, now);
        pending := pending - {p};
        if !keep {
          toRemove := toRemove + {p};
        }
      }
    }

    /** The periodic refresh: every bar of an online player standing in a warzone is re-rendered,
        every other bar is dropped together with its last-known warzone. */
    method Sweep(world: World, zones: seq<Warzone>, nameOf: NationId -> string, now: int)
      requires Valid()
      modifies this
      ensures Valid()
      ensures playerBars.Keys == set p | p in old(playerBars) && KeepsBar(world, zones, p)
      ensures forall p :: p in playerBars ==> playerBars[p] == SweptBar(old(playerBars), world, zones, nameOf, now, p)
      ensures forall p :: p in playerLastWarzone ==> playerLastWarzone[p] == WarzoneAt(world, zones, p)
      ensures nextHandle == old(nextHandle)
    {
      var toRemove := CollectStale(world, zones, nameOf, now);
      RemovePlayers(toRemove);
    }

    /** One player of a change notification for `w`; `bars0` and `last0` are the tables as
        the notification found them, which still hold for `p`. */
    method NotifyPlayer(p: PlayerId, w: Warzone, world: World, zones: seq<Warzone>, nameOf: NationId -> string, now: int,
                        ghost bars0: map<PlayerId, Bar>, ghost last0: map<PlayerId, Option<Warzone>>)
      requires p in playerBars && p in playerLastWarzone && p in bars0 && p in last0
      requires playerBars[p] == bars0[p] && playerLastWarzone[p] == last0[p]
      modifies this`playerBars, this`playerLastWarzone
      ensures playerBars == old(playerBars)[p := NotifiedBar(bars0, last0, world, zones, w, nameOf, now, p)]
      ensures playerLastWarzone == old(playerLastWarzone)[p := NotifiedLast(last0, world, zones, w, p)]
    {
      if world.online(p) {
        var rerender := playerLastWarzone[p] == Some(w);
        if !rerender {
          var current := GetWarzoneForPlayer(p, world, zones);
          rerender := current == Some(w);
        }
        if rerender {
          UpdateBar(p, w, nameOf, now);
        }
      }
    }

    /** A control change of `w`: the bars of online players last seen in `w` or standing in it are
        re-rendered; no entry is added or removed. */
    method NotifyChange(w: Warzone, world: World, zones: seq<Warzone>, nameOf: NationId -> string, now: int)
      requires Valid()
      modifies this
      ensures Valid()
      ensures playerBars.Keys == old(playerBars).Keys && playerLastWarzone.Keys == old(playerLastWarzone).Keys
      ensures nextHandle == old(nextHandle)
      ensures forall p :: p in playerBars ==>
        playerBars[p] == NotifiedBar(old(playerBars), old(playerLastWarzone), world, zones, w, nameOf, now, p)
      ensures forall p :: p in playerLastWarzone ==>
        playerLastWarzone[p] == NotifiedLast(old(playerLastWarzone), world, zones, w, p)
    {
      ghost var bars0 := playerBars;
      ghost var last0 := playerLastWarzone;
      var pending := playerBars.Keys;
      while pending != {}
        invariant pending <= playerBars.Keys
        invariant playerBars.Keys == bars0.Keys && playerLastWarzone.Keys == playerBars.Keys
        invariant nextHandle == old(nextHandle)
        invariant forall p :: p in pending ==> playerBars[p] == bars0[p] && playerLastWarzone[p] == last0[p]
        invariant forall p :: p in playerBars && p !in pending ==>
          playerBars[p] == NotifiedBar(bars0, last0, world, zones, w, nameOf, now, p) &&
          playerLastWarzone[p] == NotifiedLast(last0, world, zones, w, p)
        decreases pending
      {
        var p :| p in pending;
        NotifyPlayer(p, w, world, zones, nameOf, now, bars0, last0);
        pending := pending - {p};
      }
    }

    /** Shutting the bar down empties both tables. */
    method Disable()
      modifies this
      ensures Valid() && playerBars == map[] && playerLastWarzone == map[]
    {
      playerBars := map[];
      playerLastWarzone := map[];
    }
  }

  // ---------------------------------------------------------------------------------------------
  // The lookup as written: the result goes into a ConcurrentHashMap, which refuses null values

  datatype JavaException = NullPointerException

  /** `ConcurrentHashMap.put`: a null value throws instead of being stored. */
  /** `ConcurrentHashMap.put`: a null value throws, anything else is stored. */
  function ConcurrentPut(m: map<PlayerId, Option<Warzone>>, p: PlayerId, v: Option<Warzone>)
    : (r: Result<map<PlayerId, Option<Warzone>>, JavaException>)
    ensures r.Failure? <==> v.None?
    ensures r.Success? ==> r.value == m[p := v]
  {
    if v.None? then Failure(NullPointerException) else Success(m[p := v])
  }

  /** `getWarzoneForPlayer` as written: it throws exactly when the player stands in a territory
      and `firstOrNull` finds no warzone for it; otherwise it returns what was found. */
  function GetWarzoneForPlayerAsWritten(last: map<PlayerId, Option<Warzone>>, world: World, zones: seq<Warzone>, p: PlayerId)
    : (r: Result<(Option<Warzone>, map<PlayerId, Option<Warzone>>), JavaException>)
    ensures r.Failure? <==> TerritoryOf(world, p).Some? && FindWarzone(zones, TerritoryOf(world, p).value).None?
    ensures r.Success? ==> r.value.0 == WarzoneAt(world, zones, p)
  {
    var territory := TerritoryOf(world, p);
    if territory.None? then Success((None, last))
    else
      var w := FindWarzone(zones, territory.value);
      match ConcurrentPut(last, p, w)
      case Success(m) => Success((w, m))
      case Failure(e) => Failure(e)
  }

  /** A player standing in a territory that no warzone lists makes the lookup throw. */
  lemma LookupOutsideWarzonesThrows(last: map<PlayerId, Option<Warzone>>, world: World, zones: seq<Warzone>, p: PlayerId)
    requires TerritoryOf(world, p).Some?
    requires forall i :: 0 <= i < |zones| ==> TerritoryOf(world, p).value !in zones[i].territories
    ensures GetWarzoneForPlayerAsWritten(last, world, zones, p) == Failure(NullPointerException)
  {
    FindWarzoneFindsFirst(zones, TerritoryOf(world, p).value);
  }

  /** Concretely: player 0 stands in territory 5 and there are no warzones. */
  lemma LookupThrowsExample()
    ensures GetWarzoneForPlayerAsWritten(map[], World(q => true, q => 0, c => Some(5)), [], 0).Failure?
  {
  }

  /** Everywhere else the lookup as written does what the model's lookup does. */
  lemma AsWrittenAgreesElsewhere(last: map<PlayerId, Option<Warzone>>, world: World, zones: seq<Warzone>, p: PlayerId)
    requires TerritoryOf(world, p).None? || WarzoneAt(world, zones, p).Some?
    ensures GetWarzoneForPlayerAsWritten(last, world, zones, p) ==
      Success((WarzoneAt(world, zones, p), if TerritoryOf(world, p).None? then last else last[p := WarzoneAt(world, zones, p)]))
  {
  }
}
