/** The structure of the JSON object a warzone snapshot serialises to: its seven fields in
    order, absent nations written as `null`, and a decoder showing that the nation and session
    fields carry back exactly what the snapshot holds. */
module SaveJson {
  import opened Wrappers
  import opened Decimal
  import opened WarzoneData
  import opened Warzones

  datatype Json = JNull | JNumber(n: int) | JString(s: string) | JArray(items: seq<Json>) | JObject(members: seq<(string, Json)>)

  const FieldNames: seq<string> := ["name", "territories", "controlling", "controlStart", "atWar", "progress", "history"]
  const StatsFieldNames: seq<string> := ["total", "current", "longest", "times"]

  /** The first member named `key`, as a JSON reader would find it. */
  function Lookup(members: seq<(string, Json)>, key: string): Option<Json>
    decreases |members|
  {
    if members == [] then None
    else if members[0].0 == key then Some(members[0].1)
    else Lookup(members[1..], key)
  }

  lemma {:induction false} LookupFirst(members: seq<(string, Json)>, key: string, i: nat)
    requires i < |members| && members[i].0 == key
    requires forall j :: 0 <= j < i ==> members[j].0 != key
    ensures Lookup(members, key) == Some(members[i].1)
    decreases i
  {
    if i > 0 {
      LookupFirst(members[1..], key, i - 1);
    }
  }

  function Keys(members: seq<(string, Json)>): (r: seq<string>)
    ensures |r| == |members| && forall i :: 0 <= i < |members| ==> r[i] == members[i].0
    decreases |members|
  {
    if members == [] then [] else [members[0].0] + Keys(members[1..])
  }

  /** A nation id as the JSON text of its UUID. */
  function NationText(n: NationId): string {
    NatToString(n)
  }

  function NationJson(n: Option<NationId>): Json {
    if n.Some? then JString(NationText(n.value)) else JNull
  }

  function StatsJson(s: NationControlStats): (j: Json)
    ensures j.JObject? && |j.members| == 4
    ensures forall i :: 0 <= i < 4 ==> j.members[i].0 == StatsFieldNames[i]
  {
    JObject([("total", JNumber(s.totalControlTimeMs)),
             ("current", if s.currentControlStartTime.Some? then JNumber(s.currentControlStartTime.value) else JNull),
             ("longest", JNumber(s.longestControlStreakMs)),
             ("times", JNumber(s.timesControlled))])
  }

  /** A capture state as its JSON object; the capturing nation is `null` when there is none. */
  function CaptureJson(c: CaptureState): (j: Json)
    ensures j.JObject? && Keys(j.members) == ["captured", "total", "nation"]
    ensures Lookup(j.members, "captured") == Some(JNumber(c.capturedChunks))
    ensures Lookup(j.members, "total") == Some(JNumber(c.totalChunks))
    ensures Lookup(j.members, "nation") == Some(NationJson(c.capturingNation))
  {
    var members := [("captured", JNumber(c.capturedChunks)), ("total", JNumber(c.totalChunks)),
                    ("nation", NationJson(c.capturingNation))];
    assert |members[0].0| == 8 && |members[1].0| == 5 && |"nation"| == 6 && members[0].0[0] != members[1].0[0];
    LookupFirst(members, "nation", 2);
    JObject(members)
  }

  function TerritoriesJson(ts: seq<TerritoryId>): (r: seq<Json>)
    ensures |r| == |ts| && forall i :: 0 <= i < |ts| ==> r[i] == JNumber(ts[i])
    decreases |ts|
  {
    if ts == [] then [] else [JNumber(ts[0])] + TerritoriesJson(ts[1..])
  }

  function AtWarJson(order: seq<NationId>): (r: seq<Json>)
    ensures |r| == |order| && forall i :: 0 <= i < |order| ==> r[i] == JString(NationText(order[i]))
    decreases |order|
  {
    if order == [] then [] else [JString(NationText(order[0]))] + AtWarJson(order[1..])
  }

  function ProgressMembers(p: Progress, order: seq<TerritoryId>): (r: seq<(string, Json)>)
    requires forall i :: 0 <= i < |order| ==> order[i] in p
    ensures |r| == |order|
    ensures forall i :: 0 <= i < |order| ==> r[i] == (IntToString(order[i]), CaptureJson(p[order[i]]))
    decreases |order|
  {
    if order == [] then [] else [(IntToString(order[0]), CaptureJson(p[order[0]]))] + ProgressMembers(p, order[1..])
  }

  function HistoryMembers(h: History, order: seq<NationId>): (r: seq<(string, Json)>)
    requires forall i :: 0 <= i < |order| ==> order[i] in h
    ensures |r| == |order|
    ensures forall i :: 0 <= i < |order| ==> r[i] == (NationText(order[i]), StatsJson(h[order[i]]))
    decreases |order|
  {
    if order == [] then [] else [(NationText(order[0]), StatsJson(h[order[0]]))] + HistoryMembers(h, order[1..])
  }

  /** The JSON object of a snapshot, given the iteration orders of its set and maps. */
  function CreateJson(snap: WarzoneSaveState, atWarOrder: seq<NationId>, progressOrder: seq<TerritoryId>,
                      historyOrder: seq<NationId>): (j: Json)
    requires IsOrderOf(atWarOrder, snap.nationsAtWar)
    requires IsOrderOf(progressOrder, snap.captureProgress.Keys)
    requires IsOrderOf(historyOrder, snap.controlHistory.Keys)
    ensures j.JObject? && Keys(j.members) == FieldNames
    ensures Lookup(j.members, "controlling") == Some(NationJson(snap.controllingNation))
    ensures Lookup(j.members, "controlStart") == Some(JNumber(snap.controlStartTime))
    ensures Lookup(j.members, "history") == Some(JObject(HistoryMembers(snap.controlHistory, historyOrder)))
  {
    var members := [("name", JString(snap.name)),
                    ("territories", JArray(TerritoriesJson(snap.territories))),
                    ("controlling", NationJson(snap.controllingNation)),
                    ("controlStart", JNumber(snap.controlStartTime)),
                    ("atWar", JArray(AtWarJson(atWarOrder))),
                    ("progress", JObject(ProgressMembers(snap.captureProgress, progressOrder))),
                    ("history", JObject(HistoryMembers(snap.controlHistory, historyOrder)))];
    FieldLookups(members);
    JObject(members)
  }

  /** Looking up a field of the snapshot object finds the member written under that name. */
  lemma FieldLookups(members: seq<(string, Json)>)
    requires |members| == 7
    requires forall i :: 0 <= i < 7 ==> members[i].0 == FieldNames[i]
    ensures Keys(members) == FieldNames
    ensures Lookup(members, "controlling") == Some(members[2].1)
    ensures Lookup(members, "controlStart") == Some(members[3].1)
    ensures Lookup(members, "history") == Some(members[6].1)
  {
    assert |FieldNames[0]| == 4 && |FieldNames[1]| == 11 && |FieldNames[4]| == 5 && |FieldNames[5]| == 8;
    assert |FieldNames[2]| == 11 && |FieldNames[3]| == 12 && |FieldNames[6]| == 7;
    assert FieldNames[1][0] != FieldNames[2][0];
    LookupFirst(members, "controlling", 2);
    LookupFirst(members, "controlStart", 3);
    LookupFirst(members, "history", 6);
  }

  // ---------------------------------------------------------------------------------------------
  // Reading the fields back

  function DecodeNation(j: Json): Option<Option<NationId>> {
    match j
    case JNull => Some(None)
    case JString(s) => if AllDigits(s) then Some(Some(ParseNat(s))) else None
    case _ => None
  }

  function DecodeNumber(j: Option<Json>): Option<int> {
    if j.Some? && j.value.JNumber? then Some(j.value.n) else None
  }

  /** Rebuilds the statistics of `nation` from their JSON object. */
  function DecodeStats(nation: NationId, j: Json): Option<NationControlStats> {
    if !j.JObject? then None
    else
      var total := DecodeNumber(Lookup(j.members, "total"));
      var longest := DecodeNumber(Lookup(j.members, "longest"));
      var times := DecodeNumber(Lookup(j.members, "times"));
      var current := Lookup(j.members, "current");
      if total.None? || longest.None? || times.None? || current.None? then None
      else if current.value.JNull? then Some(NationControlStats(nation, total.value, None, longest.value, times.value))
      else if current.value.JNumber? then
        Some(NationControlStats(nation, total.value, Some(current.value.n), longest.value, times.value))
      else None
  }

  /** `controlling` is `null` exactly when no nation controls the warzone, and otherwise reads
      back as the controller. */
  lemma ControllingRoundTrip(snap: WarzoneSaveState, atWarOrder: seq<NationId>, progressOrder: seq<TerritoryId>,
                             historyOrder: seq<NationId>)
    requires IsOrderOf(atWarOrder, snap.nationsAtWar)
    requires IsOrderOf(progressOrder, snap.captureProgress.Keys)
    requires IsOrderOf(historyOrder, snap.controlHistory.Keys)
    ensures var j := CreateJson(snap, atWarOrder, progressOrder, historyOrder);
      && (Lookup(j.members, "controlling") == Some(JNull) <==> snap.controllingNation.None?)
      && DecodeNation(Lookup(j.members, "controlling").value) == Some(snap.controllingNation)
  {
    if snap.controllingNation.Some? {
      ParseNatToString(snap.controllingNation.value);
    }
  }

  /** A statistics object reads back as the statistics it was written from; `current` is `null`
      exactly when no session is open. */
  lemma StatsRoundTrip(s: NationControlStats)
    ensures StatsJson(s).JObject?
    ensures Lookup(StatsJson(s).members, "current") == Some(JNull) <==> s.currentControlStartTime.None?
    ensures Keys(StatsJson(s).members) == StatsFieldNames
    ensures DecodeStats(s.nationUUID, StatsJson(s)) == Some(s)
  {
    var ms := StatsJson(s).members;
    assert ms[0].0[0] == 't' && ms[1].0[0] == 'c' && ms[2].0[0] == 'l' && ms[3].0[0] == 't' && ms[0].0[1] != ms[3].0[1];
    LookupFirst(ms, "total", 0);
    LookupFirst(ms, "current", 1);
    LookupFirst(ms, "longest", 2);
    LookupFirst(ms, "times", 3);
  }

  lemma {:induction false} LookupHistoryMember(h: History, order: seq<NationId>, k: NationId)
    requires forall i :: 0 <= i < |order| ==> order[i] in h
    requires k in order
    ensures Lookup(HistoryMembers(h, order), NationText(k)) == Some(StatsJson(h[k]))
    decreases |order|
  {
    var r := HistoryMembers(h, order);
    if order[0] == k {
    } else {
      NatToStringInjective(order[0], k);
      assert r[1..] == HistoryMembers(h, order[1..]);
      LookupHistoryMember(h, order[1..], k);
    }
  }

  /** Every history entry can be found under its nation's id and reads back unchanged. */
  lemma HistoryEntryRoundTrip(snap: WarzoneSaveState, atWarOrder: seq<NationId>, progressOrder: seq<TerritoryId>,
                              historyOrder: seq<NationId>, k: NationId)
    requires IsOrderOf(atWarOrder, snap.nationsAtWar)
    requires IsOrderOf(progressOrder, snap.captureProgress.Keys)
    requires IsOrderOf(historyOrder, snap.controlHistory.Keys)
    requires k in snap.controlHistory && snap.controlHistory[k].nationUUID == k
    ensures var j := CreateJson(snap, atWarOrder, progressOrder, historyOrder);
      var entry := Lookup(Lookup(j.members, "history").value.members, NationText(k));
      && entry == Some(StatsJson(snap.controlHistory[k]))
      && DecodeStats(k, entry.value) == Some(snap.controlHistory[k])
  {
    LookupHistoryMember(snap.controlHistory, historyOrder, k);
    StatsRoundTrip(snap.controlHistory[k]);
  }
}
