/** The read-only public live page (src/components/PublicLive.jsx) for a short
    id: where its data comes from, and the state it shows as it polls that
    source. The mapping file's and the source's answers are parameters (`None`
    for a failed request or a body that is not JSON). The room counts and the
    recent list are the ones of `LiveSummary`. */
module PublicLive {
  import opened Text
  import opened Json

  /** Where the page polls from. */
  datatype Source = Mapped(entry: Json) | Stored(address: string) | NoSource

  /** The storage key a public link's address is kept under. */
  function LinkKey(id: string): string {
    "live_public_url_" + id
  }

  /** The mapping file's entry for `id` when the file was read and the entry is
      truthy; otherwise the stored address under `live_public_url_<id>` when it
      is not empty; otherwise no source. */
  function ResolveSource(id: string, mapping: Option<Json>, storage: map<string, string>): (r: Source)
    ensures r.Mapped? <==> mapping.Some? && Present(Get(mapping.value, id))
    ensures r.Mapped? ==> Some(r.entry) == Get(mapping.value, id)
    ensures r.Stored? <==>
      !(mapping.Some? && Present(Get(mapping.value, id))) && LinkKey(id) in storage && storage[LinkKey(id)] != ""
    ensures r.Stored? ==> r.address == storage[LinkKey(id)]
  {
    if mapping.Some? && Present(Get(mapping.value, id)) then Mapped(Get(mapping.value, id).value)
    else if LinkKey(id) in storage && storage[LinkKey(id)] != "" then Stored(storage[LinkKey(id)])
    else NoSource
  }

  /** A deployed mapping file wins over the address saved in the browser. */
  lemma MappingWins(id: string, url: Json, others: seq<(string, Json)>, storage: map<string, string>)
    requires Truthy(url)
    ensures ResolveSource(id, Some(JObj(others + [(id, url)])), storage) == Mapped(url)
  {
    var f := others + [(id, url)];
    assert f[|f| - 1] == (id, url);
  }

  /** A link saved by the owner's page (`live_public_url_<id>` set to the sync
      address) is found when no mapping file answers, unless the address was empty. */
  lemma SavedLinkFound(id: string, url: string, storage: map<string, string>)
    ensures ResolveSource(id, None, storage[LinkKey(id) := url]) == if url != "" then Stored(url) else NoSource
  {
  }

  /** What a poll answer leaves on screen: the answer unwrapped to its `state`,
      when that is truthy. */
  function PolledState(data: Option<Json>): (r: Option<Json>)
    ensures r.Some? ==> Truthy(r.value)
    ensures r.Some? <==> data.Some? && Truthy(Unwrap(data.value))
    ensures r.Some? ==> r.value == Unwrap(data.value)
  {
    if data.Some? && Truthy(Unwrap(data.value)) then Some(Unwrap(data.value)) else None
  }

  /** An envelope around a non-empty state shows that state; an empty answer
      (`null`, `{}` counts as non-empty) changes nothing. */
  lemma PolledEnvelope(state: Json, t: int)
    requires Truthy(state)
    ensures PolledState(Some(Envelope(state, t))) == Some(state)
    ensures PolledState(Some(JNull)).None?
  {
    UnwrapEnvelope(state, t);
  }

  /** The state the page opens on when nothing usable is stored: `{ floors: {}, reservations: [] }`. */
  function OpeningState(): Json {
    JObj([("floors", JObj([])), ("reservations", JArr([]))])
  }

  /** The page's source, the state on screen, and whether polling still runs. */
  class PublicView {
    var source: Source
    var state: Json
    var running: bool

    /** The state on screen is never empty. */
    predicate Valid()
      reads this
    {
      Truthy(state)
    }

    /** The page opens on the stored state, or the opening state, with no source yet. */
    constructor (stored: Option<Json>)
      ensures Valid()
      ensures state == (if Present(stored) then stored.value else OpeningState())
      ensures source == NoSource && running
    {
      state := if Present(stored) then stored.value else OpeningState();
      source := NoSource;
      running := true;
    }

    /** The mapping effect: the source is resolved for `id`. */
    method Resolve(id: string, mapping: Option<Json>, storage: map<string, string>)
      modifies this
      requires Valid()
      ensures Valid()
      ensures source == ResolveSource(id, mapping, storage)
      ensures state == old(state) && running == old(running)
    {
      source := ResolveSource(id, mapping, storage);
    }

    /** `poll()` with the source's answer: while running, a truthy unwrapped
        state replaces the one on screen. */
    method Poll(data: Option<Json>)
      modifies this
      requires Valid()
      ensures Valid()
      ensures state == (if running && PolledState(data).Some? then PolledState(data).value else old(state))
      ensures source == old(source) && running == old(running)
    {
      if !running || data.None? {
        return;
      }
      var remoteState := Unwrap(data.value);
      if Truthy(remoteState) {
        state := remoteState;
      }
    }

    /** Leaving the page stops the polling. */
    method Stop()
      modifies this
      requires Valid()
      ensures Valid()
      ensures !running && state == old(state) && source == old(source)
    {
      running := false;
    }
  }
}
