/** The value-level part of a warzone: capture progress per territory, the per-nation control
    statistics, and the pure queries and session bookkeeping over them. */
module WarzoneData {
  import opened Wrappers

  type NationId = nat
  type TerritoryId = int

  /** Progress of one territory: chunks captured so far, chunks in all, and the nation capturing
      it. Nothing bounds `capturedChunks` by `totalChunks`. */
  datatype CaptureState = CaptureState(capturedChunks: int, totalChunks: int, capturingNation: Option<NationId>)

  /** Control statistics of one nation on one warzone, all times in milliseconds. */
  datatype NationControlStats = NationControlStats(
    nationUUID: NationId,
    totalControlTimeMs: int,
    currentControlStartTime: Option<int>,
    longestControlStreakMs: int,
    timesControlled: int)

  type Progress = map<TerritoryId, CaptureState>
  type History = map<NationId, NationControlStats>

  function NewStats(nation: NationId): NationControlStats {
    NationControlStats(nation, 0, None, 0, 0)
  }

  // ---------------------------------------------------------------------------------------------
  // Chunk counts and the full-capture predicate

  /** What one territory adds to the total: its entry's total, or 0 when it has no entry. */
  function TotalOf(p: Progress, t: TerritoryId): int {
    if t in p then p[t].totalChunks else 0
  }

  /** What one territory adds to a nation's captured count: 0 unless that nation is capturing it. */
  function CapturedOf(p: Progress, t: TerritoryId, nation: NationId): int {
    if t in p && p[t].capturingNation == Some(nation) then p[t].capturedChunks else 0
  }

  /** The total chunk count of the listed territories; it is never negative when no entry's total is. */
  function TotalChunks(ts: seq<TerritoryId>, p: Progress): (r: int)
    ensures (forall i :: 0 <= i < |ts| ==> TotalOf(p, ts[i]) >= 0) ==> r >= 0
    decreases |ts|
  {
    if ts == [] then 0 else TotalOf(p, ts[0]) + TotalChunks(ts[1..], p)
  }

  /** A nation's captured chunk count over the listed territories; it stays within the total when
      every territory's contribution does (nothing in the source enforces that). */
  function CapturedChunks(ts: seq<TerritoryId>, p: Progress, nation: NationId): (r: int)
    ensures (forall i :: 0 <= i < |ts| ==> CapturedOf(p, ts[i], nation) <= TotalOf(p, ts[i])) ==> r <= TotalChunks(ts, p)
    decreases |ts|
  {
    if ts == [] then 0 else CapturedOf(p, ts[0], nation) + CapturedChunks(ts[1..], p, nation)
  }

  predicate TerritoryCapturedBy(p: Progress, t: TerritoryId, nation: NationId) {
    t in p && p[t].capturingNation == Some(nation) && p[t].capturedChunks == p[t].totalChunks
  }

  /** Whether every listed territory is completely captured by `nation`; evaluated like
      Kotlin's `all`, territory by territory. */
  function IsFullyCaptured(ts: seq<TerritoryId>, p: Progress, nation: NationId): (r: bool)
    ensures r <==> forall i :: 0 <= i < |ts| ==> TerritoryCapturedBy(p, ts[i], nation)
    ensures ts == [] ==> r
    decreases |ts|
  {
    if ts == [] then true else TerritoryCapturedBy(p, ts[0], nation) && IsFullyCaptured(ts[1..], p, nation)
  }

  /** The total depends only on the entries of the listed territories. */
  lemma {:induction false} TotalChunksDependsOnListed(ts: seq<TerritoryId>, p: Progress, q: Progress)
    requires forall i :: 0 <= i < |ts| ==> TotalOf(p, ts[i]) == TotalOf(q, ts[i])
    ensures TotalChunks(ts, p) == TotalChunks(ts, q)
    decreases |ts|
  {
    if ts != [] {
      TotalChunksDependsOnListed(ts[1..], p, q);
    }
  }

  /** The captured count depends only on the entries of the listed territories. */
  lemma {:induction false} CapturedChunksDependsOnListed(ts: seq<TerritoryId>, p: Progress, q: Progress, nation: NationId)
    requires forall i :: 0 <= i < |ts| ==> CapturedOf(p, ts[i], nation) == CapturedOf(q, ts[i], nation)
    ensures CapturedChunks(ts, p, nation) == CapturedChunks(ts, q, nation)
    decreases |ts|
  {
    if ts != [] {
      CapturedChunksDependsOnListed(ts[1..], p, q, nation);
    }
  }

  /** Recording or dropping progress for a territory that is not listed changes neither count. */
  lemma UnlistedProgressIgnored(ts: seq<TerritoryId>, p: Progress, t: TerritoryId, s: CaptureState, nation: NationId)
    requires t !in ts
    ensures TotalChunks(ts, p[t := s]) == TotalChunks(ts, p) == TotalChunks(ts, p - {t})
    ensures CapturedChunks(ts, p[t := s], nation) == CapturedChunks(ts, p, nation) == CapturedChunks(ts, p - {t}, nation)
  {
    TotalChunksDependsOnListed(ts, p[t := s], p);
    TotalChunksDependsOnListed(ts, p - {t}, p);
    CapturedChunksDependsOnListed(ts, p[t := s], p, nation);
    CapturedChunksDependsOnListed(ts, p - {t}, p, nation);
  }

  /** Territories without an entry contribute nothing to the total. */
  lemma {:induction false} TotalChunksWithoutProgress(ts: seq<TerritoryId>, p: Progress)
    requires forall i :: 0 <= i < |ts| ==> ts[i] !in p
    ensures TotalChunks(ts, p) == 0
    decreases |ts|
  {
    if ts != [] {
      TotalChunksWithoutProgress(ts[1..], p);
    }
  }

  /** Territories captured by other nations (or by none) contribute nothing to a nation's count. */
  lemma {:induction false} CapturedChunksOfOthers(ts: seq<TerritoryId>, p: Progress, nation: NationId)
    requires forall i :: 0 <= i < |ts| ==> ts[i] !in p || p[ts[i]].capturingNation != Some(nation)
    ensures CapturedChunks(ts, p, nation) == 0
    decreases |ts|
  {
    if ts != [] {
      CapturedChunksOfOthers(ts[1..], p, nation);
    }
  }

  /** A nation that fully captures the warzone holds every one of its chunks. */
  lemma {:induction false} FullCaptureHoldsAllChunks(ts: seq<TerritoryId>, p: Progress, nation: NationId)
    requires IsFullyCaptured(ts, p, nation)
    ensures CapturedChunks(ts, p, nation) == TotalChunks(ts, p)
    decreases |ts|
  {
    if ts != [] {
      assert TerritoryCapturedBy(p, ts[0], nation);
      FullCaptureHoldsAllChunks(ts[1..], p, nation);
    }
  }

  /** With at least one territory, at most one nation fully captures the warzone. */
  lemma FullCaptureIsExclusive(ts: seq<TerritoryId>, p: Progress, m: NationId, n: NationId)
    requires |ts| > 0 && IsFullyCaptured(ts, p, m) && IsFullyCaptured(ts, p, n)
    ensures m == n
  {
    assert TerritoryCapturedBy(p, ts[0], m) && TerritoryCapturedBy(p, ts[0], n);
  }

  // ---------------------------------------------------------------------------------------------
  // Control sessions

  /** Length of the open session at `now`, or 0 when none is open (the current-hours getter, in ms). */
  function CurrentControlMs(s: NationControlStats, now: int): (r: int)
    ensures s.currentControlStartTime.None? ==> r == 0
    ensures s.currentControlStartTime.Some? && s.currentControlStartTime.value <= now ==> r >= 0
  {
    if s.currentControlStartTime.Some? then now - s.currentControlStartTime.value else 0
  }

  /** Accumulated time plus the open session (the total-with-current-hours getter, in ms). */
  function TotalWithCurrentMs(s: NationControlStats, now: int): (r: int)
    ensures s.currentControlStartTime.None? ==> r == s.totalControlTimeMs
  {
    s.totalControlTimeMs + CurrentControlMs(s, now)
  }

  /** The ranking key grows with the clock by exactly the time elapsed while a session is open,
      and stands still when none is. */
  lemma TotalWithCurrentGrows(s: NationControlStats, t1: int, t2: int)
    requires t1 <= t2
    ensures TotalWithCurrentMs(s, t2) - TotalWithCurrentMs(s, t1) == (if s.currentControlStartTime.Some? then t2 - t1 else 0)
    ensures TotalWithCurrentMs(s, t1) <= TotalWithCurrentMs(s, t2)
  {
  }

  /** Closes the open session of `s` at `now`, folding it into the total and the longest streak. */
  function EndSession(s: NationControlStats, now: int): (r: NationControlStats)
    ensures r.currentControlStartTime.None?
    ensures r.nationUUID == s.nationUUID && r.timesControlled == s.timesControlled
    ensures s.currentControlStartTime.None? ==> r == s
    ensures s.currentControlStartTime.Some? ==>
      var duration := now - s.currentControlStartTime.value;
      && r.totalControlTimeMs == s.totalControlTimeMs + duration
      && r.longestControlStreakMs >= s.longestControlStreakMs
      && r.longestControlStreakMs >= duration
      && (r.longestControlStreakMs == s.longestControlStreakMs || r.longestControlStreakMs == duration)
  {
    if s.currentControlStartTime.None? then s
    else
      var duration := now - s.currentControlStartTime.value;
      s.(totalControlTimeMs := s.totalControlTimeMs + duration,
         longestControlStreakMs := if duration > s.longestControlStreakMs then duration else s.longestControlStreakMs,
         currentControlStartTime := None)
  }

  /** Closing a session moves its time from the open part into the total: the ranking key at the
      moment of closing does not change. */
  lemma EndSessionKeepsTotalWithCurrent(s: NationControlStats, now: int)
    ensures TotalWithCurrentMs(EndSession(s, now), now) == TotalWithCurrentMs(s, now)
    ensures CurrentControlMs(EndSession(s, now), now) == 0
  {
  }

  /** Closing the longest streak never shortens it, whatever the session's length. */
  lemma EndSessionLongestMonotone(s: NationControlStats, now: int)
    ensures EndSession(s, now).longestControlStreakMs >= s.longestControlStreakMs
  {
  }

  /** The history after ending `nation`'s control period: a no-op without an entry or without
      an open session. */
  function EndedPeriod(h: History, nation: NationId, now: int): (r: History)
    ensures r.Keys == h.Keys
    ensures forall k :: k in h && k != nation ==> r[k] == h[k]
    ensures nation in h ==> r[nation] == EndSession(h[nation], now)
    ensures nation !in h || h[nation].currentControlStartTime.None? ==> r == h
  {
    if nation !in h then h
    else if h[nation].currentControlStartTime.Some? then h[nation := EndSession(h[nation], now)]
    else h
  }

  /** How often `nation` has taken control so far, 0 without an entry. */
  function TimesControlled(h: History, nation: NationId): int {
    if nation in h then h[nation].timesControlled else 0
  }

  /** The history after `nation` takes control at `now`: its entry is created if absent, its
      session opened at `now`, and its count raised by one. */
  function BegunPeriod(h: History, nation: NationId, now: int): (r: History)
    ensures r.Keys == h.Keys + {nation}
    ensures r[nation].currentControlStartTime == Some(now)
    ensures r[nation].timesControlled == TimesControlled(h, nation) + 1
    ensures r[nation].nationUUID == (if nation in h then h[nation].nationUUID else nation)
    ensures nation in h ==>
      r[nation].totalControlTimeMs == h[nation].totalControlTimeMs &&
      r[nation].longestControlStreakMs == h[nation].longestControlStreakMs
    ensures nation !in h ==> r[nation].totalControlTimeMs == 0 && r[nation].longestControlStreakMs == 0
    ensures forall k :: k in h && k != nation ==> r[k] == h[k]
  {
    var stats := if nation in h then h[nation] else NewStats(nation);
    h[nation := stats.(currentControlStartTime := Some(now), timesControlled := stats.timesControlled + 1)]
  }

  /** Ending the period of the controller, if there is one. */
  function EndedControllerPeriod(h: History, controller: Option<NationId>, now: int): History {
    if controller.Some? then EndedPeriod(h, controller.value, now) else h
  }

  /** The consistency a warzone keeps: a start time exactly while controlled, only the
      controller with an open session (and the controller with one), and each entry filed
      under its own nation. */
  predicate ControlConsistent(controller: Option<NationId>, controlStartTime: int, h: History) {
    && (controlStartTime == 0 <==> controller.None?)
    && (forall k :: k in h && h[k].currentControlStartTime.Some? ==> controller == Some(k))
    && (controller.Some? ==> controller.value in h && h[controller.value].currentControlStartTime.Some?)
    && (forall k :: k in h ==> h[k].nationUUID == k)
  }

  /** A transfer of control at a positive time keeps the warzone consistent. */
  lemma TransferKeepsConsistency(controller: Option<NationId>, start: int, h: History, nation: NationId, now: int)
    requires ControlConsistent(controller, start, h)
    requires controller != Some(nation) && now > 0
    ensures ControlConsistent(Some(nation), now, BegunPeriod(EndedControllerPeriod(h, controller, now), nation, now))
  {
  }

  /** Losing control keeps the warzone consistent. */
  lemma LossKeepsConsistency(controller: NationId, start: int, h: History, now: int)
    requires ControlConsistent(Some(controller), start, h)
    ensures ControlConsistent(None, 0, EndedPeriod(h, controller, now))
  {
  }

  // ---------------------------------------------------------------------------------------------
  // Iteration over the history map

  /** `order` lists the keys of a map exactly once: the map's iteration order. */
  predicate IsOrderOf<K>(order: seq<K>, keys: set<K>) {
    && (forall i :: 0 <= i < |order| ==> order[i] in keys)
    && (forall k :: k in keys ==> k in order)
    && (forall i, j :: 0 <= i < j < |order| ==> order[i] != order[j])
  }

  /** The entries of `h` in the iteration order `order` (the map's `values` view). */
  function EntriesInOrder(h: History, order: seq<NationId>): (r: seq<NationControlStats>)
    requires forall i :: 0 <= i < |order| ==> order[i] in h
    ensures |r| == |order|
    ensures forall i :: 0 <= i < |order| ==> r[i] == h[order[i]]
    decreases |order|
  {
    if order == [] then [] else [h[order[0]]] + EntriesInOrder(h, order[1..])
  }
}
