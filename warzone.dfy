/** A warzone: a fixed list of territories contested by nations, the control state machine that
    hands the zone to a nation capturing all of it, the control history, attack permissions,
    and the cached save snapshot. */
module Warzones {
  import opened Wrappers
  import opened WarzoneData
  import Ranking

  /** A chunk of a territory as the attack checks see it: the nation of the town occupying it
      and the nation of the town attacking it, each possibly absent. */
  datatype TerritoryChunk = TerritoryChunk(occupierNation: Option<NationId>, attackerNation: Option<NationId>)

  /** What the control bar is shown when a warzone notifies it of a change. The notification is
      sent before the controller fields change, so this is the state it then reads. */
  datatype ControlChange = ControlChange(controller: Option<NationId>, controlStartTime: int, history: History)

  /** An immutable snapshot of a warzone for the persistence layer. */
  class WarzoneSaveState {
    const name: string
    const territories: seq<TerritoryId>
    const controllingNation: Option<NationId>
    const controlStartTime: int
    const nationsAtWar: set<NationId>
    const captureProgress: Progress
    const controlHistory: History

    constructor (name: string, territories: seq<TerritoryId>, controllingNation: Option<NationId>,
                 controlStartTime: int, nationsAtWar: set<NationId>, captureProgress: Progress, controlHistory: History)
      ensures this.name == name && this.territories == territories
      ensures this.controllingNation == controllingNation && this.controlStartTime == controlStartTime
      ensures this.nationsAtWar == nationsAtWar && this.captureProgress == captureProgress
      ensures this.controlHistory == controlHistory
    {
      this.name := name;
      this.territories := territories;
      this.controllingNation := controllingNation;
      this.controlStartTime := controlStartTime;
      this.nationsAtWar := nationsAtWar;
      this.captureProgress := captureProgress;
      this.controlHistory := controlHistory;
    }

    /** The snapshot holds exactly the current data of `w`. */
    ghost predicate Mirrors(w: Warzone)
      reads w
    {
      && name == w.name && territories == w.territories
      && controllingNation == w.controllingNation && controlStartTime == w.controlStartTime
      && nationsAtWar == w.nationsAtWar && captureProgress == w.captureProgress
      && controlHistory == w.controlHistory
    }
  }

  class Warzone {
    const name: string
    const territories: seq<TerritoryId>
    var controllingNation: Option<NationId>
    var captureProgress: Progress
    var controlStartTime: int
    var controlHistory: History
    var nationsAtWar: set<NationId>
    var saveState: WarzoneSaveState
    var needsUpdate: bool
    /** The notifications sent to the control bar, oldest first. */
    ghost var notifications: seq<ControlChange>

    ghost predicate Valid()
      reads this
    {
      ControlConsistent(controllingNation, controlStartTime, controlHistory)
    }

    /** The data-class constructor; the snapshot is taken of the initial data and is not stale. */
    constructor (name: string, territories: seq<TerritoryId>, controllingNation: Option<NationId>,
                 captureProgress: Progress, controlStartTime: int, controlHistory: History)
      ensures this.name == name && this.territories == territories
      ensures this.controllingNation == controllingNation && this.captureProgress == captureProgress
      ensures this.controlStartTime == controlStartTime && this.controlHistory == controlHistory
      ensures nationsAtWar == {} && !needsUpdate && notifications == []
      ensures fresh(saveState) && saveState.Mirrors(this)
      ensures controllingNation.None? && controlStartTime == 0 && controlHistory == map[] ==> Valid()
    {
      this.name := name;
      this.territories := territories;
      this.controllingNation := controllingNation;
      this.captureProgress := captureProgress;
      this.controlStartTime := controlStartTime;
      this.controlHistory := controlHistory;
      this.nationsAtWar := {};
      this.needsUpdate := false;
      this.notifications := [];
      this.saveState := new WarzoneSaveState(name, territories, controllingNation, controlStartTime, {},
                                             captureProgress, controlHistory);
    }

    function GetTotalChunks(): (r: int)
      reads this
      ensures (forall i :: 0 <= i < |territories| ==> TotalOf(captureProgress, territories[i]) >= 0) ==> r >= 0
    {
      TotalChunks(territories, captureProgress)
    }

    /** A nation that fully captures the zone holds every one of its chunks. */
    function GetCapturedChunks(nation: NationId): (r: int)
      reads this
      ensures IsFullyCapturedBy(nation) ==> r == GetTotalChunks()
    {
      if IsFullyCaptured(territories, captureProgress, nation) then
        FullCaptureHoldsAllChunks(territories, captureProgress, nation);
        CapturedChunks(territories, captureProgress, nation)
      else CapturedChunks(territories, captureProgress, nation)
    }

    predicate IsFullyCapturedBy(nation: NationId)
      reads this
      ensures IsFullyCapturedBy(nation) <==>
        forall i :: 0 <= i < |territories| ==> TerritoryCapturedBy(captureProgress, territories[i], nation)
    {
      IsFullyCaptured(territories, captureProgress, nation)
    }

    /** Whether `UpdateControl(nation, _)` transfers control. */
    predicate TransferFires(nation: NationId)
      reads this
    {
      IsFullyCapturedBy(nation) && controllingNation != Some(nation)
    }

    /** Hands the warzone to `nation` if it fully captures every territory and does not already
        control it: the previous controller's session is closed, the bar is notified, and
        `nation`'s session opens at `now`. Otherwise nothing changes. */
    method UpdateControl(nation: NationId, now: int)
      modifies this
      ensures captureProgress == old(captureProgress) && nationsAtWar == old(nationsAtWar)
      ensures saveState == old(saveState) && needsUpdate == old(needsUpdate)
      ensures !old(TransferFires(nation)) ==> unchanged(this)
      ensures old(TransferFires(nation)) ==>
        && controllingNation == Some(nation) && controlStartTime == now
        && controlHistory == BegunPeriod(EndedControllerPeriod(old(controlHistory), old(controllingNation), now), nation, now)
        && notifications == old(notifications) +
             [ControlChange(old(controllingNation), old(controlStartTime),
                            EndedControllerPeriod(old(controlHistory), old(controllingNation), now))]
      ensures old(TransferFires(nation)) ==>
        && controlHistory.Keys == old(controlHistory).Keys + {nation}
        && controlHistory[nation].currentControlStartTime == Some(now)
        && controlHistory[nation].timesControlled == TimesControlled(old(controlHistory), nation) + 1
        && forall k :: k in old(controlHistory) && k != nation && Some(k) != old(controllingNation) ==>
             controlHistory[k] == old(controlHistory)[k]
      ensures old(Valid()) && now > 0 ==> Valid()
    {
      if IsFullyCapturedBy(nation) && controllingNation != Some(nation) {
        Transfer(nation, now);
      }
    }

    /** The transfer branch of `UpdateControl`. */
    method Transfer(nation: NationId, now: int)
      requires controllingNation != Some(nation)
      modifies this`controllingNation, this`controlStartTime, this`controlHistory, this`notifications
      ensures controllingNation == Some(nation) && controlStartTime == now
      ensures controlHistory == BegunPeriod(EndedControllerPeriod(old(controlHistory), old(controllingNation), now), nation, now)
      ensures notifications == old(notifications) +
                [ControlChange(old(controllingNation), old(controlStartTime),
                               EndedControllerPeriod(old(controlHistory), old(controllingNation), now))]
      ensures controlHistory.Keys == old(controlHistory).Keys + {nation}
      ensures controlHistory[nation].currentControlStartTime == Some(now)
      ensures controlHistory[nation].timesControlled == TimesControlled(old(controlHistory), nation) + 1
      ensures forall k :: k in old(controlHistory) && k != nation && Some(k) != old(controllingNation) ==>
                controlHistory[k] == old(controlHistory)[k]
      ensures old(Valid()) && now > 0 ==> Valid()
    {
      ghost var before := controlHistory;
      if controllingNation.Some? {
        EndControlPeriod(controllingNation.value, now);
      }
      notifications := notifications + [ControlChange(controllingNation, controlStartTime, controlHistory)];
      ghost var closed := controlHistory;
      assert closed == EndedControllerPeriod(before, controllingNation, now);
      controllingNation := Some(nation);
      controlStartTime := now;
      var stats := if nation in controlHistory then controlHistory[nation] else NewStats(nation);
      stats := stats.(currentControlStartTime := Some(controlStartTime));
      stats := stats.(timesControlled := stats.timesControlled + 1);
      controlHistory := controlHistory[nation := stats];
      assert controlHistory == BegunPeriod(closed, nation, now);
      if old(Valid()) && now > 0 {
        TransferKeepsConsistency(old(controllingNation), old(controlStartTime), before, nation, now);
      }
    }

    /** Folds `nation`'s open session, if any, into its statistics. */
    method EndControlPeriod(nation: NationId, now: int)
      modifies this`controlHistory
      ensures controlHistory == EndedPeriod(old(controlHistory), nation, now)
    {
      if nation !in controlHistory {
        return;
      }
      var stats := controlHistory[nation];
      if stats.currentControlStartTime.Some? {
        var controlDuration := now - stats.currentControlStartTime.value;
        stats := stats.(totalControlTimeMs := stats.totalControlTimeMs + controlDuration);
        if controlDuration > stats.longestControlStreakMs {
          stats := stats.(longestControlStreakMs := controlDuration);
        }
        stats := stats.(currentControlStartTime := None);
        controlHistory := controlHistory[nation := stats];
      }
    }

    /** Takes the warzone away from its controller: a no-op (no history change, no notification)
        when it is uncontrolled. */
    method LoseControl(now: int)
      modifies this
      ensures captureProgress == old(captureProgress) && nationsAtWar == old(nationsAtWar)
      ensures saveState == old(saveState) && needsUpdate == old(needsUpdate)
      ensures old(controllingNation).None? ==> unchanged(this)
      ensures old(controllingNation).Some? ==>
        && controllingNation.None? && controlStartTime == 0
        && controlHistory == EndedPeriod(old(controlHistory), old(controllingNation).value, now)
        && notifications == old(notifications) + [ControlChange(old(controllingNation), old(controlStartTime), controlHistory)]
      ensures old(Valid()) ==> Valid()
    {
      if controllingNation.Some? {
        EndControlPeriod(controllingNation.value, now);
        notifications := notifications + [ControlChange(controllingNation, controlStartTime, controlHistory)];
        controllingNation := None;
        controlStartTime := 0;
        if old(Valid()) {
          LossKeepsConsistency(old(controllingNation).value, old(controlStartTime), old(controlHistory), now);
        }
      }
    }

    /** Only a declaration of war gives the right to attack; holding control does not take it away. */
    function CanAttack(nation: NationId): (r: bool)
      reads this
      ensures r <==> nation in nationsAtWar
    {
      if nation !in nationsAtWar then false else true
    }

    /** A nation may not attack a chunk its own towns occupy, nor one an ally is attacking. */
    function CanAttackChunk(nation: NationId, allies: set<NationId>, chunk: TerritoryChunk): (r: bool)
      ensures !r <==> chunk.occupierNation == Some(nation) ||
                      (chunk.attackerNation.Some? && chunk.attackerNation.value in allies)
    {
      if chunk.occupierNation == Some(nation) then false
      else if chunk.attackerNation.Some? && chunk.attackerNation.value in allies then false
      else true
    }

    /** The history ranked for the leaderboard, given the history map's iteration order. */
    function RankedHistory(order: seq<NationId>, now: int): (r: seq<NationControlStats>)
      reads this
      requires IsOrderOf(order, controlHistory.Keys)
      ensures multiset(r) == multiset(EntriesInOrder(controlHistory, order))
      ensures Ranking.SortedDescending(r, now)
    {
      Ranking.Leaderboard(EntriesInOrder(controlHistory, order), now)
    }

    /** Marks the snapshot stale. */
    method NeedsUpdate()
      modifies this`needsUpdate
      ensures needsUpdate
    {
      needsUpdate := true;
    }

    /** The cached snapshot, rebuilt first if it was marked stale. */
    method GetSaveState() returns (s: WarzoneSaveState)
      modifies this`saveState, this`needsUpdate
      ensures s == saveState && !needsUpdate
      ensures !old(needsUpdate) ==> s == old(saveState)
      ensures old(needsUpdate) ==> fresh(s) && s.Mirrors(this)
    {
      if needsUpdate {
        saveState := new WarzoneSaveState(name, territories, controllingNation, controlStartTime, nationsAtWar,
                                          captureProgress, controlHistory);
        needsUpdate := false;
      }
      s := saveState;
    }
  }

  /** Two territories A and B: with A at 3/3 and B at 2/3 for the same nation the warzone is not
      fully captured and no transfer happens; once B reaches 3/3 the transfer fires exactly once,
      and repeating it changes nothing. */
  method FullCaptureScenario()
  {
    var x: NationId := 7;
    var w := new Warzone("Zone", [1, 2], None, map[], 0, map[]);
    w.captureProgress := map[1 := CaptureState(3, 3, Some(x)), 2 := CaptureState(2, 3, Some(x))];
    assert !TerritoryCapturedBy(w.captureProgress, w.territories[1], x);
    assert !w.IsFullyCapturedBy(x);
    w.UpdateControl(x, 1000);
    assert w.controllingNation.None? && w.notifications == [];
    w.captureProgress := w.captureProgress[2 := CaptureState(3, 3, Some(x))];
    assert w.IsFullyCapturedBy(x);
    w.UpdateControl(x, 2000);
    assert w.controllingNation == Some(x) && w.controlStartTime == 2000;
    assert w.controlHistory[x].timesControlled == 1 && |w.notifications| == 1;
    w.UpdateControl(x, 3000);
    assert w.controlHistory[x].timesControlled == 1 && |w.notifications| == 1;
  }

  /** Two snapshot reads without a mark in between return the same object; after a mark the next
      read is a new snapshot of the current data. */
  method SnapshotScenario()
  {
    var w := new Warzone("Zone", [1, 2], None, map[], 0, map[]);
    var s1 := w.GetSaveState();
    var s2 := w.GetSaveState();
    assert s1 == s2;
    w.controllingNation := Some(7);
    w.NeedsUpdate();
    var s3 := w.GetSaveState();
    assert s3 != s1 && s3.controllingNation == Some(7);
  }
}
