/** The owner's Live Updates page (src/components/LiveUpdates.jsx): the stored
    state it shows, kept up to date from a remote JSON endpoint by timestamp,
    the share server's addresses, the live messages it accepts from that
    server, and the answer it expects when a share is registered. Responses
    arrive as parameters: `None` stands for a failed request or a body that is
    not JSON. The room counts and the recent list are the ones of `LiveSummary`. */
module LiveUpdates {
  import opened Text
  import opened Json
  import opened Sorting

  // ---------------------------------------------------------------------------
  // The remote timestamp rule

  /** `data && data.lastUpdated ? Number(data.lastUpdated) : 0`. */
  function RemoteLast(data: Json): JsNum {
    if Truthy(data) && Present(Get(data, "lastUpdated")) then ToNumber(Get(data, "lastUpdated")) else Num(0)
  }

  /** `Number(localStorage.getItem('live_remote_last') || 0)`, with `None` for a missing entry. */
  function LocalLast(lastText: Option<string>): JsNum {
    if lastText.Some? && lastText.value != "" then NumberOf(lastText.value) else Num(0)
  }

  /** `a > b` on numbers: false when either is NaN. */
  predicate Above(a: JsNum, b: JsNum) {
    a.Num? && b.Num? && a.v > b.v
  }

  /** `remoteLast && remoteLast > localLast`: the polled payload replaces the stored state. */
  predicate Applies(data: Json, lastText: Option<string>) {
    NumTruthy(RemoteLast(data)) && Above(RemoteLast(data), LocalLast(lastText))
  }

  /** An envelope `{ state, lastUpdated: t }` is applied exactly when `t` is not
      zero and later than a recorded `l`. */
  lemma EnvelopeApplies(state: Json, t: int, l: int)
    ensures Applies(Envelope(state, t), Some(IntToString(l))) <==> t != 0 && t > l
    ensures Applies(Envelope(state, t), None) <==> t > 0
  {
    var e := Envelope(state, t);
    assert Lookup(e.fields, "lastUpdated") == Some(JNum(t)) by {
      assert e.fields[..1][..0] == [];
    }
    assert RemoteLast(e) == (if t != 0 then Num(t) else Num(0));
    assert LocalLast(Some(IntToString(l))) == Num(l) by {
      NumberOfIntToString(l);
    }
  }

  /** Once a payload is applied, the same payload polled again is not applied again. */
  lemma AppliedOnce(data: Json, lastText: Option<string>)
    requires Applies(data, lastText)
    ensures !Applies(data, Some(IntToString(RemoteLast(data).v)))
  {
    NumberOfIntToString(RemoteLast(data).v);
  }

  /** `{ state: parsed, lastUpdated: Date.now(), source: clientId }`, where `parsed`
      is the stored state or `{}`. */
  function PushPayload(saved: Option<Json>, now: int, clientId: string): Json {
    JObj([("state", Or(saved, JObj([]))), ("lastUpdated", JNum(now)), ("source", JStr(clientId))])
  }

  /** After a successful push, polling back the payload just pushed changes nothing. */
  lemma OwnPushNotApplied(saved: Option<Json>, now: int, clientId: string)
    ensures !Applies(PushPayload(saved, now, clientId), Some(IntToString(now)))
  {
    var p := PushPayload(saved, now, clientId);
    assert Lookup(p.fields, "lastUpdated") == Some(JNum(now)) by {
      assert p.fields[..2][..1][..0] == [];
    }
    assert RemoteLast(p) == (if now != 0 then Num(now) else Num(0));
    assert LocalLast(Some(IntToString(now))) == Num(now) by {
      NumberOfIntToString(now);
    }
  }

  // ---------------------------------------------------------------------------
  // Live messages from the share server

  /** What an SSE message leaves as the new state: the message's `state`, or `{}`,
      for a message of type "init" or "update"; `None` (ignored) for any other
      message and for one that is not JSON. */
  function SseState(msg: Option<Json>): (r: Option<Json>)
    ensures r.Some? <==> msg.Some? && (Get(msg.value, "type") == Some(JStr("init")) || Get(msg.value, "type") == Some(JStr("update")))
    ensures r.Some? ==> r.value == Or(Get(msg.value, "state"), JObj([]))
  {
    if msg.Some? && (Get(msg.value, "type") == Some(JStr("init")) || Get(msg.value, "type") == Some(JStr("update")))
    then Some(Or(Get(msg.value, "state"), JObj([])))
    else None
  }

  /** A message `{ type, state }` as the share server sends it. */
  function ServerMessage(kind: string, state: Json): Json {
    JObj([("type", JStr(kind)), ("state", state)])
  }

  /** An "init" or "update" message delivers its state (an empty one as `{}`);
      a message of any other type is ignored. */
  lemma ServerMessageState(kind: string, state: Json)
    ensures kind == "init" || kind == "update" ==>
      SseState(Some(ServerMessage(kind, state))) == Some(if Truthy(state) then state else JObj([]))
    ensures kind != "init" && kind != "update" ==> SseState(Some(ServerMessage(kind, state))).None?
  {
    var f := ServerMessage(kind, state).fields;
    assert f[..1][..0] == [];
    assert Lookup(f, "type") == Some(JStr(kind));
    assert Lookup(f, "state") == Some(state);
  }

  // ---------------------------------------------------------------------------
  // The share server

  /** The stored share: `{ id, token, publicUrl }`; a member may be missing when
      the entry was read back from storage. */
  datatype ShareInfo = ShareInfo(id: Option<Json>, token: Option<Json>, publicUrl: Option<Json>)

  /** How a registration ends. */
  datatype Registration = Registered(info: ShareInfo) | HttpFailed | InvalidResponse

  /** `registerRemoteShare`'s checks on the server's answer: a failed request is
      an error; an answer without a truthy `id` is an invalid response; otherwise
      the share keeps the id and token, and `publicUrl || netlifyUrl || null`. */
  function RegisterOutcome(ok: bool, data: Option<Json>): (r: Registration)
    ensures !ok ==> r == HttpFailed
    ensures ok && (data.None? || !Present(Get(data.value, "id"))) ==> r == InvalidResponse
    ensures r.Registered? ==> ok && data.Some? && Present(Get(data.value, "id"))
    ensures r.Registered? ==> Present(r.info.id) && r.info.id == Get(data.value, "id") && r.info.token == Get(data.value, "token")
    ensures r.Registered? ==> r.info.publicUrl == Some(Or(Get(data.value, "publicUrl"), Or(Get(data.value, "netlifyUrl"), JNull)))
  {
    if !ok then HttpFailed
    else if data.None? || !Truthy(data.value) || !Present(Get(data.value, "id")) then InvalidResponse
    else
      var d := data.value;
      Registered(ShareInfo(Get(d, "id"), Get(d, "token"), Some(Or(Get(d, "publicUrl"), Or(Get(d, "netlifyUrl"), JNull)))))
  }

  /** `server.replace(/\/$/, '')`: at most one trailing slash is removed. */
  function TrimSlash(server: string): (r: string)
    ensures EndsWith(server, "/") ==> r + "/" == server
    ensures !EndsWith(server, "/") ==> r == server
  {
    if EndsWith(server, "/") then server[..|server| - 1] else server
  }

  /** `base + '/' + endpoint + '/' + encodeURIComponent(id)`, then
      `'?k=' + encodeURIComponent(token)` when the share has a token.
      `encode` stands for `encodeURIComponent`. */
  function ShareUrl(server: string, endpoint: string, id: Json, token: Option<Json>, encode: string -> string): string {
    TrimSlash(server) + "/" + endpoint + "/" + encode(ToText(id)) +
    (if Present(token) then "?k=" + encode(ToText(token.value)) else "")
  }

  /** The address the state is pushed to, `/update/<id>`, for a share with a truthy id. */
  function UpdateUrl(server: string, share: Option<ShareInfo>, encode: string -> string): (r: Option<string>)
    ensures r.Some? <==> share.Some? && Present(share.value.id)
  {
    if share.Some? && Present(share.value.id) then Some(ShareUrl(server, "update", share.value.id.value, share.value.token, encode))
    else None
  }

  /** `startShareSSE`'s address, `/sse/<id>`; `None` where it alerts "No share created yet". */
  function SseUrl(server: string, share: Option<ShareInfo>, encode: string -> string): (r: Option<string>)
    ensures r.Some? <==> share.Some? && Present(share.value.id)
  {
    if share.Some? && Present(share.value.id) then Some(ShareUrl(server, "sse", share.value.id.value, share.value.token, encode))
    else None
  }

  /** The registration address. */
  function RegisterUrl(server: string): string {
    TrimSlash(server) + "/register"
  }

  /** What follows `prefix` in `url`, cut at '?': the encoded id and, after `k=`,
      the encoded token. `None` when the address has another shape. */
  function AddressParts(url: string, prefix: string): Option<(string, Option<string>)> {
    if !(prefix <= url) then None
    else
      var parts := Split(url[|prefix|..], '?');
      if |parts| == 1 then Some((parts[0], None))
      else if |parts| == 2 && "k=" <= parts[1] then Some((parts[0], Some(parts[1][2..])))
      else None
  }

  /** The share address carries the encoded id and the encoded token (when the
      share has one) after the base: both can be read back, since the encoder
      never writes a '?'. */
  lemma ShareUrlParts(server: string, endpoint: string, id: Json, token: Option<Json>, encode: string -> string)
    requires '?' !in encode(ToText(id))
    requires Present(token) ==> '?' !in encode(ToText(token.value))
    ensures AddressParts(ShareUrl(server, endpoint, id, token, encode), TrimSlash(server) + "/" + endpoint + "/") ==
      Some((encode(ToText(id)), if Present(token) then Some(encode(ToText(token.value))) else None))
  {
    var prefix := TrimSlash(server) + "/" + endpoint + "/";
    var a := encode(ToText(id));
    var url := ShareUrl(server, endpoint, id, token, encode);
    if Present(token) {
      var b := encode(ToText(token.value));
      assert url == prefix + (a + ['?'] + ("k=" + b));
      assert url[|prefix|..] == a + ['?'] + ("k=" + b);
      SplitFirst(a, '?', "k=" + b);
      SplitNoSeparator("k=" + b, '?');
      assert ("k=" + b)[2..] == b;
    } else {
      assert url == prefix + a;
      assert url[|prefix|..] == a;
      SplitNoSeparator(a, '?');
    }
  }

  // ---------------------------------------------------------------------------
  // Today's rents and expenses from the folder

  /** The records a day folder's files hold, in listing order: a file whose
      read gives nothing (`None`) or a falsy value is skipped. */
  function Readable(files: seq<Option<Json>>): (r: seq<Json>)
    ensures |r| <= |files|
  {
    if |files| == 0 then []
    else Readable(files[..|files| - 1]) + (if Present(files[|files| - 1]) then [files[|files| - 1].value] else [])
  }

  /** A record is gathered exactly when some file read gives it and it is truthy. */
  lemma {:induction false} ReadableExactly(files: seq<Option<Json>>, d: Json)
    ensures d in Readable(files) <==> exists i :: 0 <= i < |files| && files[i] == Some(d) && Truthy(d)
    decreases |files|
  {
    if |files| > 0 {
      var init := files[..|files| - 1];
      ReadableExactly(init, d);
      assert forall i :: 0 <= i < |init| ==> init[i] == files[i];
      if d in Readable(init) {
        var i :| 0 <= i < |init| && init[i] == Some(d) && Truthy(d);
        assert files[i] == Some(d);
      }
    }
  }

  lemma ReadableSnoc(files: seq<Option<Json>>, i: nat)
    requires i < |files|
    ensures Readable(files[..i + 1]) ==
      Readable(files[..i]) + (if Present(files[i]) then [files[i].value] else [])
  {
    assert files[..i + 1][..i] == files[..i];
  }

  /** `(d._createdTime || 0)` as the sort subtracts it. */
  function CreatedTime(d: Json): int {
    AmountOf(d, "_createdTime")
  }

  /** `(b._createdTime||0) - (a._createdTime||0)` is not positive: `a` may stay ahead of `b`. */
  function NewerFirst(a: Json, b: Json): bool {
    CreatedTime(b) <= CreatedTime(a)
  }

  lemma NewerFirstTotal()
    ensures Total(NewerFirst)
  {
  }

  /** The loop over a day folder's files, then the sort, latest record first. */
  method TodayRecords(files: seq<Option<Json>>) returns (records: seq<Json>)
    ensures multiset(records) == multiset(Readable(files))
    ensures Sorted(records, NewerFirst)
  {
    var arr: seq<Json> := [];
    var i := 0;
    while i < |files|
      invariant 0 <= i <= |files|
      invariant arr == Readable(files[..i])
    {
      ReadableSnoc(files, i);
      var d := files[i];
      if d.Some? && Truthy(d.value) {
        arr := arr + [d.value];
      }
      i := i + 1;
    }
    assert files[..i] == files;
    NewerFirstTotal();
    records := Sort(arr, NewerFirst);
  }

  /** In a sorted list no record was created after one ahead of it. */
  lemma LatestFirst(records: seq<Json>, i: nat, j: nat)
    requires Sorted(records, NewerFirst) && i <= j < |records|
    ensures CreatedTime(records[j]) <= CreatedTime(records[i])
  {
    var times := seq(|records|, k requires 0 <= k < |records| => CreatedTime(records[k]));
    forall k | 0 < k < |times|
      ensures times[k] <= times[k - 1]
    {
      assert NewerFirst(records[k - 1], records[k]);
    }
    NonIncreasing(times, i, j);
  }

  /** Neighbours that never increase make a list that never increases. */
  lemma {:induction false} NonIncreasing(times: seq<int>, i: nat, j: nat)
    requires forall k :: 0 < k < |times| ==> times[k] <= times[k - 1]
    requires i <= j < |times|
    ensures times[j] <= times[i]
    decreases j - i
  {
    if i < j {
      NonIncreasing(times, i, j - 1);
    }
  }

  // ---------------------------------------------------------------------------
  // The page's storage entries

  /** The initial state when nothing usable is stored: `{ floors: {}, reservations: [], guests: [] }`. */
  function EmptyState(): Json {
    JObj([("floors", JObj([])), ("reservations", JArr([])), ("guests", JArr([]))])
  }

  /** The page's browser storage and view: the stored state (`hotel_demo_v2`,
      `None` for missing or not JSON), the remote timestamp (`live_remote_last`),
      the stored share, the state on screen and the sync status text. */
  class LiveStore {
    var saved: Option<Json>
    var lastText: Option<string>
    var share: Option<ShareInfo>
    var shown: Json
    var status: string
    const clientId: string

    /** The page opens on the stored state, or on the empty state. */
    constructor (saved0: Option<Json>, last0: Option<string>, share0: Option<ShareInfo>, clientId: string)
      ensures saved == saved0 && lastText == last0 && share == share0 && this.clientId == clientId
      ensures shown == (if Present(saved0) then saved0.value else EmptyState())
      ensures status == "idle"
    {
      saved := saved0;
      lastText := last0;
      share := share0;
      shown := if Present(saved0) then saved0.value else EmptyState();
      status := "idle";
      this.clientId := clientId;
    }

    /** `reloadLocal()`: the stored state is shown when it is truthy. */
    method ReloadLocal()
      modifies this
      ensures shown == (if Present(old(saved)) then old(saved).value else old(shown))
      ensures saved == old(saved) && lastText == old(lastText) && share == old(share) && status == old(status)
    {
      if saved.Some? && Truthy(saved.value) {
        shown := saved.value;
      }
    }

    /** `pollRemote()` with the answer `data`: a payload newer than the recorded
        timestamp is stored, shown, and its timestamp recorded; any other leaves
        everything as it was. */
    method PollRemote(data: Option<Json>)
      modifies this
      ensures data.Some? && Applies(data.value, old(lastText)) ==>
        saved == Some(Unwrap(data.value)) && shown == Unwrap(data.value) &&
        lastText == Some(IntToString(RemoteLast(data.value).v))
      ensures !(data.Some? && Applies(data.value, old(lastText))) ==>
        saved == old(saved) && shown == old(shown) && lastText == old(lastText)
      ensures share == old(share) && status == old(status)
    {
      if data.None? {
        return;
      }
      var d := data.value;
      var remoteState := Unwrap(d);
      var remoteLast := RemoteLast(d);
      var localLast := LocalLast(lastText);
      if NumTruthy(remoteLast) && Above(remoteLast, localLast) {
        saved := Some(remoteState);
        lastText := Some(IntToString(remoteLast.v));
        shown := remoteState;
      }
    }

    /** `pushLocal()` at time `now`: the payload sent, and on success the recorded
        timestamp becomes `now`. */
    method PushLocal(now: int, ok: bool) returns (payload: Json)
      modifies this
      ensures payload == PushPayload(old(saved), now, clientId)
      ensures lastText == (if ok then Some(IntToString(now)) else old(lastText))
      ensures status == (if ok then "ok" else "error")
      ensures saved == old(saved) && shown == old(shown) && share == old(share)
    {
      payload := PushPayload(saved, now, clientId);
      if ok {
        lastText := Some(IntToString(now));
        status := "ok";
      } else {
        status := "error";
      }
    }

    /** `es.onmessage` with the parsed message `msg`: an accepted message's state
        is stored and shown. */
    method OnSseMessage(msg: Option<Json>)
      modifies this
      ensures SseState(msg).Some? ==> saved == SseState(msg) && shown == SseState(msg).value
      ensures SseState(msg).None? ==> saved == old(saved) && shown == old(shown)
      ensures lastText == old(lastText) && share == old(share) && status == old(status)
    {
      var st := SseState(msg);
      if st.Some? {
        saved := st;
        shown := st.value;
      }
    }

    /** `registerRemoteShare` with the server's answer: a valid answer becomes
        the stored share. */
    method RegisterShare(ok: bool, data: Option<Json>) returns (r: Registration)
      modifies this
      ensures r == RegisterOutcome(ok, data)
      ensures r.Registered? ==> share == Some(r.info) && status == "ok"
      ensures !r.Registered? ==> share == old(share) && status == "error"
      ensures saved == old(saved) && shown == old(shown) && lastText == old(lastText)
    {
      status := "registering";
      r := RegisterOutcome(ok, data);
      if r.Registered? {
        share := Some(r.info);
        status := "ok";
      } else {
        status := "error";
      }
    }
  }
}
