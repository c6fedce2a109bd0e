/** The remote copy of the state (src/services/dualSync.js): saving to the
    server, the one-slot outbox kept in the browser's storage, the flush loop that
    empties it, and the merge that keeps local room rates when the remote state is
    loaded. Whether a server call succeeds is an input. */
module DualSync {
  import opened Text
  import opened Json
  import opened Hotel

  // ---------------------------------------------------------------------------
  // Merging remote rooms with local rates

  /** `rooms.find(x => x.number === n)`: the first room with that number. */
  function FindByNumber(rooms: seq<Room>, n: int): (r: Option<Room>)
    ensures r.Some? ==> r.value in rooms && r.value.number == n
    ensures r.None? ==> forall i :: 0 <= i < |rooms| ==> rooms[i].number != n
    ensures |rooms| > 0 && rooms[0].number == n ==> r == Some(rooms[0])
  {
    if |rooms| == 0 then None
    else if rooms[0].number == n then Some(rooms[0])
    else FindByNumber(rooms[1..], n)
  }

  /** `localState.floors[fnum]?.find(...)`: the local room with the same number on the floor with the same key. */
  function LocalMatch(local: seq<Floor>, key: nat, n: int): (r: Option<Room>)
    ensures r.Some? ==> r.value.number == n
  {
    var f := FloorIndex(local, key);
    if f.None? then None else FindByNumber(local[f.value].rooms, n)
  }

  /** `old ? { ...r, rate: old.rate ?? r.rate } : r`. */
  function MergeRoom(r: Room, prior: Option<Room>): (m: Room)
    ensures m == r.(rate := m.rate)
    ensures m.rate == if prior.Some? && prior.value.rate.Some? then prior.value.rate else r.rate
  {
    if prior.Some? then r.(rate := if prior.value.rate.Some? then prior.value.rate else r.rate) else r
  }

  /** The remote floors with each room's rate taken from the matching local room
      when that has one. Nothing but rates changes. */
  function MergeRates(remote: seq<Floor>, local: seq<Floor>): (m: seq<Floor>)
    ensures SameShape(m, remote)
    ensures forall f, i :: 0 <= f < |m| && 0 <= i < |m[f].rooms| ==>
      m[f].rooms[i] == MergeRoom(remote[f].rooms[i], LocalMatch(local, remote[f].key, remote[f].rooms[i].number))
  {
    seq(|remote|, f requires 0 <= f < |remote| =>
      Floor(remote[f].key, seq(|remote[f].rooms|, i requires 0 <= i < |remote[f].rooms| =>
        MergeRoom(remote[f].rooms[i], LocalMatch(local, remote[f].key, remote[f].rooms[i].number)))))
  }

  /** Merging again with the same local state changes nothing more. */
  lemma MergeRatesIdempotent(remote: seq<Floor>, local: seq<Floor>)
    ensures MergeRates(MergeRates(remote, local), local) == MergeRates(remote, local)
  {
    var m := MergeRates(remote, local);
    var m2 := MergeRates(m, local);
    forall f | 0 <= f < |m|
      ensures m2[f] == m[f]
    {
      assert m2[f].rooms == m[f].rooms;
    }
  }

  /** A room whose local counterpart has no rate keeps the remote rate; one without
      a local counterpart is kept exactly. */
  lemma MergeKeepsRemoteWithoutLocalRate(remote: seq<Floor>, local: seq<Floor>, f: nat, i: nat)
    requires f < |remote| && i < |remote[f].rooms|
    requires var prior := LocalMatch(local, remote[f].key, remote[f].rooms[i].number);
      prior.None? || prior.value.rate.None?
    ensures MergeRates(remote, local)[f].rooms[i] == remote[f].rooms[i]
  {
  }

  /** The state the server hands back: its floors (if any) and the rest, kept as it is. */
  datatype RemoteState = RemoteState(floors: Option<seq<Floor>>, rest: Json)

  /** `tryLoadRemoteAndMerge(localState)`: `null` when there is no remote state;
      otherwise the remote state, with local rates merged into its floors when both
      sides have floors. `remote` is what the server gave (`None` also when the call fails). */
  function TryLoadRemoteAndMerge(localFloors: Option<seq<Floor>>, remote: Option<RemoteState>): (r: Option<RemoteState>)
    ensures remote.None? ==> r.None?
    ensures remote.Some? ==> r.Some? && r.value.rest == remote.value.rest && r.value.floors.Some? == remote.value.floors.Some?
    ensures remote.Some? && remote.value.floors.Some? ==>
      (localFloors.Some? ==> r.value.floors == Some(MergeRates(remote.value.floors.value, localFloors.value))) &&
      (localFloors.None? ==> r.value.floors == remote.value.floors)
  {
    if remote.None? then None
    else if localFloors.Some? && remote.value.floors.Some? then
      Some(remote.value.(floors := Some(MergeRates(remote.value.floors.value, localFloors.value))))
    else remote
  }

  // ---------------------------------------------------------------------------
  // Saving, the outbox and the flush loop

  /** What `saveAll` answers. */
  datatype SaveResult = Saved | NotSaved(error: Option<string>)

  const NO_API: string := "no-api-configured"

  /** The module's state: whether a server is configured, the outbox slot
      (`remote_outbox_state`, `None` for null or unreadable), and the flush timer. */
  class SyncService {
    var hasApi: bool
    var outbox: Option<Json>
    var flushTimer: bool
    var timersStarted: nat

    /** At most one flush timer ever runs. */
    predicate Valid()
      reads this
    {
      timersStarted <= 1 && (flushTimer <==> timersStarted == 1)
    }

    /** Module load: the stored outbox is read as it is, and the flush loop is started. */
    constructor (hasApi: bool, stored: Option<Json>)
      ensures Valid()
      ensures this.hasApi == hasApi && outbox == stored
      ensures flushTimer && timersStarted == 1
    {
      this.hasApi := hasApi;
      outbox := stored;
      flushTimer := true;
      timersStarted := 1;
    }

    /** `writeOutbox(payload)`: the slot holds this state and no other. */
    method WriteOutbox(payload: Json)
      modifies this
      requires Valid()
      ensures Valid()
      ensures outbox == Some(payload)
      ensures hasApi == old(hasApi) && flushTimer == old(flushTimer) && timersStarted == old(timersStarted)
    {
      outbox := Some(payload);
    }

    /** `clearOutbox()`. */
    method ClearOutbox()
      modifies this
      requires Valid()
      ensures Valid()
      ensures outbox.None?
      ensures hasApi == old(hasApi) && flushTimer == old(flushTimer) && timersStarted == old(timersStarted)
    {
      outbox := None;
    }

    /** `saveAll(state)`: without a server nothing is attempted and the outbox is
        left alone; a successful save empties the outbox; a failed one leaves it. */
    method SaveAll(state: Json, remoteSucceeds: bool) returns (res: SaveResult)
      modifies this
      requires Valid()
      ensures Valid()
      ensures !hasApi ==> res == NotSaved(Some(NO_API)) && outbox == old(outbox)
      ensures hasApi && remoteSucceeds ==> res == Saved && outbox.None?
      ensures hasApi && !remoteSucceeds ==> res == NotSaved(None) && outbox == old(outbox)
      ensures hasApi == old(hasApi) && flushTimer == old(flushTimer) && timersStarted == old(timersStarted)
    {
      if !hasApi {
        return NotSaved(Some(NO_API));
      }
      if remoteSucceeds {
        ClearOutbox();
        return Saved;
      }
      return NotSaved(None);
    }

    /** `flushOnce()`: an empty outbox, or one without a truthy `state`, sends
        nothing; otherwise its `state` is sent, and the outbox is emptied only when
        that succeeds. */
    method FlushOnce(remoteSucceeds: bool) returns (sent: Option<Json>)
      modifies this
      requires Valid()
      ensures Valid()
      ensures sent.Some? <==> old(outbox).Some? && Truthy(old(outbox).value) && Present(Get(old(outbox).value, "state"))
      ensures sent.Some? ==> Some(sent.value) == Get(old(outbox).value, "state")
      ensures outbox == if sent.Some? && remoteSucceeds then None else old(outbox)
      ensures hasApi == old(hasApi) && flushTimer == old(flushTimer) && timersStarted == old(timersStarted)
    {
      var item := outbox;
      if item.None? || !Truthy(item.value) || !Present(Get(item.value, "state")) {
        return None;
      }
      sent := Get(item.value, "state");
      if remoteSucceeds {
        ClearOutbox();
      }
    }

    /** `startFlushLoop()`: a second start installs no second timer. */
    method StartFlushLoop() returns (installed: bool)
      modifies this
      requires Valid()
      ensures Valid()
      ensures installed <==> !old(flushTimer)
      ensures flushTimer
      ensures timersStarted == old(timersStarted) + (if installed then 1 else 0)
      ensures hasApi == old(hasApi) && outbox == old(outbox)
    {
      if flushTimer {
        return false;
      }
      flushTimer := true;
      timersStarted := timersStarted + 1;
      installed := true;
    }
  }
}
