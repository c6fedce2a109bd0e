/** Where the app's state comes from at start-up (src/services/stateSource.js):
    the connected folder, then the browser's saved copy, then the server, then
    the built-in default. Reading the folder, the saved copy and the server are
    inputs here; `JSON.parse` is given as a function. */
module StateSource {
  import opened Text
  import opened Json

  /** A value or `undefined`, the result of the stubbed `generateDefault()`. */
  type Value = Option<Json>

  /** What `fetch(API_BASE + '/state')` gave: a failure (thrown), or a reply with
      its `ok` flag and its body (`None` when `res.json()` throws). */
  datatype Reply = Unreachable | Reply(ok: bool, body: Option<Json>)

  /** The state each step of the chain settles on, naming the source. */
  datatype Chosen = FromDisk(state: Json) | FromLocal(state: Json) | FromServer(normalized: Value) | FromDefault

  /** `generateDefault()` in this file has an empty body: it returns `undefined`. */
  function GenerateDefault(): (r: Value)
    ensures r.None?
  {
    None
  }

  /** `loadStateFromLocal()`: nothing for a missing or empty entry or for text that
      does not parse; otherwise the parsed value (which may itself be `null`). */
  function LoadStateFromLocal(raw: Option<string>, parse: string -> Option<Json>): (r: Option<Json>)
    ensures raw.None? || raw == Some("") ==> r.None?
    ensures raw.Some? && raw.value != "" ==> r == parse(raw.value)
  {
    if raw.None? || raw.value == "" then None else parse(raw.value)
  }

  /** The six members the app expects and the value each gets when the server leaves it out. */
  const MEMBERS: seq<string> := ["floors", "guests", "reservations", "checkouts", "rentPayments", "expenses"]

  function DefaultFor(key: string): Json {
    if key == "floors" then JObj([]) else JArr([])
  }

  /** `normalizeServerState(server)`: `undefined` for a missing or falsy state;
      otherwise an object with exactly the six members, each the server's value when
      that is truthy and its default otherwise. */
  function NormalizeServerState(server: Option<Json>): (r: Value)
    ensures !Present(server) ==> r.None?
    ensures Present(server) ==> r.Some? && r.value.JObj? && |r.value.fields| == |MEMBERS|
    ensures Present(server) ==> forall i :: 0 <= i < |MEMBERS| ==>
      r.value.fields[i] == (MEMBERS[i], Or(Get(server.value, MEMBERS[i]), DefaultFor(MEMBERS[i])))
  {
    if !Present(server) then GenerateDefault()
    else
      var s := server.value;
      Some(JObj(seq(|MEMBERS|, i requires 0 <= i < |MEMBERS| => (MEMBERS[i], Or(Get(s, MEMBERS[i]), DefaultFor(MEMBERS[i]))))))
  }

  /** Every member of a normalised state is truthy, so no reader's `|| []` fallback is needed. */
  lemma NormalizedMembersPresent(server: Option<Json>, i: nat)
    requires Present(server) && i < |MEMBERS|
    ensures Truthy(NormalizeServerState(server).value.fields[i].1)
  {
  }

  lemma MembersDistinct()
    ensures forall i, j :: 0 <= i < j < |MEMBERS| ==> MEMBERS[i] != MEMBERS[j]
  {
    assert MEMBERS[0][0] == 'f' && MEMBERS[1][0] == 'g' && MEMBERS[2][0] == 'r' && MEMBERS[3][0] == 'c' && MEMBERS[4][0] == 'r' && MEMBERS[5][0] == 'e';
    assert MEMBERS[2][2] == 's' && MEMBERS[4][2] == 'n';
  }

  /** Looking a member up in a normalised state finds the value it was given. */
  lemma NormalizedLookup(server: Option<Json>, i: nat)
    requires Present(server) && i < |MEMBERS|
    ensures Get(NormalizeServerState(server).value, MEMBERS[i]) == Some(Or(Get(server.value, MEMBERS[i]), DefaultFor(MEMBERS[i])))
  {
    var fields := NormalizeServerState(server).value.fields;
    MembersDistinct();
    LookupUnique(fields, i);
  }

  lemma {:induction false} LookupUnique(fields: seq<(string, Json)>, i: nat)
    requires i < |fields|
    requires forall j :: 0 <= j < |fields| && j != i ==> fields[j].0 != fields[i].0
    ensures Lookup(fields, fields[i].0) == Some(fields[i].1)
    decreases |fields|
  {
    var k := |fields| - 1;
    if i < k {
      var init := fields[..k];
      forall j | 0 <= j < |init| && j != i
        ensures init[j].0 != init[i].0
      {
        assert init[j] == fields[j];
      }
      LookupUnique(init, i);
    }
  }

  /** Normalising a normalised state changes nothing. */
  lemma NormalizeIdempotent(server: Option<Json>)
    requires Present(server)
    ensures NormalizeServerState(NormalizeServerState(server)) == NormalizeServerState(server)
  {
    var r := NormalizeServerState(server);
    forall i | 0 <= i < |MEMBERS|
      ensures Or(Get(r.value, MEMBERS[i]), DefaultFor(MEMBERS[i])) == r.value.fields[i].1
    {
      NormalizedLookup(server, i);
      NormalizedMembersPresent(server, i);
    }
    assert Present(r);
    assert NormalizeServerState(r).value.fields == r.value.fields;
  }

  /** `getAuthoritativeState(preloaded)`. `connected` says whether a base folder is
      set; `hydrate` is what reading that folder gives for a starting state (`None`
      when it fails); `raw` is the saved entry; `reply` the server's answer. */
  function AuthoritativeState(
    preloaded: Option<Json>, connected: bool, hydrate: Value -> Option<Json>,
    raw: Option<string>, parse: string -> Option<Json>, reply: Reply): (r: Chosen)
    ensures var seed := if Present(preloaded) then preloaded
                        else if Present(LoadStateFromLocal(raw, parse)) then LoadStateFromLocal(raw, parse)
                        else GenerateDefault();
      (r.FromDisk? <==> connected && Present(hydrate(seed))) &&
      (r.FromDisk? ==> r.state == hydrate(seed).value)
    ensures r.FromLocal? <==> !r.FromDisk? && Present(LoadStateFromLocal(raw, parse))
    ensures r.FromLocal? ==> r.state == LoadStateFromLocal(raw, parse).value
    ensures r.FromServer? <==> !r.FromDisk? && !r.FromLocal? && reply.Reply? && reply.ok && reply.body.Some?
    ensures r.FromServer? ==> r.normalized == NormalizeServerState(Get(reply.body.value, "state"))
  {
    var local := LoadStateFromLocal(raw, parse);
    var seed := if Present(preloaded) then preloaded else if Present(local) then local else GenerateDefault();
    if connected && Present(hydrate(seed)) then FromDisk(hydrate(seed).value)
    else if Present(local) then FromLocal(local.value)
    else if reply.Reply? && reply.ok && reply.body.Some? then FromServer(NormalizeServerState(Get(reply.body.value, "state")))
    else FromDefault
  }

  /** A saved copy is never used while the folder gives a state, and the server is
      asked only when neither does; without any source the result is `undefined`. */
  lemma PriorityOrder(
    preloaded: Option<Json>, connected: bool, hydrate: Value -> Option<Json>,
    raw: Option<string>, parse: string -> Option<Json>, reply: Reply)
    ensures var r := AuthoritativeState(preloaded, connected, hydrate, raw, parse, reply);
      (!connected && Present(LoadStateFromLocal(raw, parse)) ==> r == FromLocal(LoadStateFromLocal(raw, parse).value)) &&
      (!connected && !Present(LoadStateFromLocal(raw, parse)) && reply.Unreachable? ==> r == FromDefault) &&
      ((!connected && !Present(LoadStateFromLocal(raw, parse)) && reply.Reply? && reply.ok && reply.body.Some? &&
        !Present(Get(reply.body.value, "state"))) ==> r == FromServer(None))
  {
  }
}
