/** The offline policy of public/sw.js: which GET requests are app-shell and
    which are data, cache-first for the shell, stale-while-revalidate for data,
    and pruning of old caches on activation. The network's answer is an input;
    `None` stands for a fetch that throws. */
module ServiceWorker {
  import opened Text

  const APP_SHELL_CACHE: string := "app-shell-v1"
  const DATA_CACHE: string := "hotel-data-v1"
  const SHELL_URLS: seq<string> := ["/", "/index.html", "/manifest.webmanifest"]
  const DATA_FOLDERS: seq<string> := ["Checkins", "Checkouts", "Reservations", "RentCollections", "Expenses"]

  /** `isDataRequest(url)`: same origin, and a path inside one of the data folders
      or ending in `.json`. */
  predicate IsDataRequest(sameOrigin: bool, path: string) {
    sameOrigin &&
    ((exists k :: 0 <= k < |DATA_FOLDERS| && Contains(path, "/" + DATA_FOLDERS[k] + "/")) || EndsWith(path, ".json"))
  }

  /** The shell test: one of the listed URLs or anything under `/assets/`. */
  predicate IsShellRequest(path: string) {
    path in SHELL_URLS || StartsWith(path, "/assets/")
  }

  /** How the fetch handler treats a request. */
  datatype Route = NotIntercepted | Shell | Data

  /** The fetch handler's choice: non-GET requests pass through, the shell test
      comes first, then the data test, and anything else is not intercepted. */
  function RouteOf(httpMethod: string, sameOrigin: bool, path: string): (r: Route)
    ensures httpMethod != "GET" ==> r == NotIntercepted
    ensures r == Shell <==> httpMethod == "GET" && IsShellRequest(path)
    ensures r == Data <==> httpMethod == "GET" && !IsShellRequest(path) && IsDataRequest(sameOrigin, path)
  {
    if httpMethod != "GET" then NotIntercepted
    else if IsShellRequest(path) then Shell
    else if IsDataRequest(sameOrigin, path) then Data
    else NotIntercepted
  }

  /** A JSON file under `/assets/` is served as shell, although it also looks like data. */
  lemma ShellBeforeData()
    ensures IsDataRequest(true, "/assets/a.json") && RouteOf("GET", true, "/assets/a.json") == Shell
  {
    var p := "/assets/a.json";
    assert p[|p| - 5..] == ".json";
    assert "/assets/" <= p;
  }

  /** A file in a data folder is a data request from any page of the app. */
  lemma FolderFilesAreData(folder: nat, prefix: string, rest: string)
    requires folder < |DATA_FOLDERS|
    ensures IsDataRequest(true, prefix + "/" + DATA_FOLDERS[folder] + "/" + rest)
  {
    var needle := "/" + DATA_FOLDERS[folder] + "/";
    var p := prefix + "/" + DATA_FOLDERS[folder] + "/" + rest;
    assert needle <= needle + rest;
    assert Contains(needle + rest, needle);
    ContainsInRight(prefix, needle + rest, needle);
    assert p == prefix + (needle + rest);
    assert Contains(p, "/" + DATA_FOLDERS[folder] + "/");
  }

  /** A network answer. */
  datatype Response = Response(ok: bool, body: string)

  /** The cache storage of the worker: the names of the caches that exist, and the
      entries of the two it uses, keyed by request URL. */
  class CacheStorage {
    var names: set<string>
    var shell: map<string, Response>
    var data: map<string, Response>

    constructor (names: set<string>, shell: map<string, Response>, data: map<string, Response>)
      ensures this.names == names && this.shell == shell && this.data == data
    {
      this.names := names;
      this.shell := shell;
      this.data := data;
    }

    /** Activation deletes every cache not on the keep list and no other. */
    method Activate()
      modifies this
      ensures names == old(names) * {APP_SHELL_CACHE, DATA_CACHE}
      ensures forall n :: n in names ==> n == APP_SHELL_CACHE || n == DATA_CACHE
      ensures shell == old(shell) && data == old(data)
    {
      var keep := {APP_SHELL_CACHE, DATA_CACHE};
      var doomed := names - keep;
      names := names - doomed;
    }

    /** Cache-first: a stored answer is returned and the network is not asked;
        otherwise the network answer is returned, and kept only when ok. */
    method ShellFetch(url: string, network: Option<Response>) returns (resp: Option<Response>, fetched: bool)
      modifies this
      ensures names == old(names) + {APP_SHELL_CACHE}
      ensures url in old(shell) ==> resp == Some(old(shell)[url]) && !fetched && shell == old(shell)
      ensures url !in old(shell) ==> fetched && resp == network
      ensures url !in old(shell) && network.Some? && network.value.ok ==> shell == old(shell)[url := network.value]
      ensures url !in old(shell) && !(network.Some? && network.value.ok) ==> shell == old(shell)
      ensures data == old(data)
    {
      names := names + {APP_SHELL_CACHE};
      if url in shell {
        return Some(shell[url]), false;
      }
      fetched := true;
      resp := network;
      if network.Some? && network.value.ok {
        shell := shell[url := network.value];
      }
    }

    /** Stale-while-revalidate: the stored answer is returned when there is one,
        else the network's; the network is always asked, and an ok answer replaces
        the stored one and is announced. */
    method DataFetch(url: string, network: Option<Response>) returns (resp: Option<Response>, announced: bool)
      modifies this
      ensures names == old(names) + {DATA_CACHE}
      ensures resp == if url in old(data) then Some(old(data)[url]) else network
      ensures announced <==> network.Some? && network.value.ok
      ensures data == if announced then old(data)[url := network.value] else old(data)
      ensures shell == old(shell)
    {
      names := names + {DATA_CACHE};
      var cached := if url in data then Some(data[url]) else None;
      announced := false;
      if network.Some? && network.value.ok {
        data := data[url := network.value];
        announced := true;
      }
      resp := if cached.Some? then cached else network;
    }
  }
}
