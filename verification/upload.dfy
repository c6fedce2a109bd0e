/** The scan download link of src/services/upload.js: the configured API base
    (`/api` when none is set) with one trailing `/api` dropped, then
    `/api/download/<id>`. */
module Upload {
  import opened Text

  const DEFAULT_BASE: string := "/api"
  const DOWNLOAD: string := "/api/download/"

  /** `base.replace(/\/api$/, '')`: one trailing `/api` removed. */
  function StripApi(base: string): (r: string)
    ensures EndsWith(base, "/api") ==> r + "/api" == base
    ensures !EndsWith(base, "/api") ==> r == base
  {
    if EndsWith(base, "/api") then base[..|base| - 4] else base
  }

  /** `downloadUrlForId(id)`; `configured` is the page's API base setting, "" when unset. */
  function DownloadUrlForId(configured: string, id: string): (r: string)
    ensures EndsWith(r, DOWNLOAD + id)
    ensures configured == "" ==> r == DOWNLOAD + id
    ensures configured != "" && !EndsWith(configured, "/api") ==> r == configured + DOWNLOAD + id
    ensures configured != "" && EndsWith(configured, "/api") ==> configured + "/download/" + id == r
  {
    var base := if configured == "" then DEFAULT_BASE else configured;
    var r := StripApi(base) + DOWNLOAD + id;
    assert r[|r| - |DOWNLOAD + id|..] == DOWNLOAD + id;
    if configured == "" then
      assert EndsWith(DEFAULT_BASE, "/api") && DEFAULT_BASE[..0] == "";
      r
    else if EndsWith(configured, "/api") then
      assert StripApi(base) + "/api" == configured;
      assert r == (StripApi(base) + "/api") + "/download/" + id;
      r
    else r
  }

  /** The server root and the same root with `/api` appended give the same link:
      the API segment is not doubled. */
  lemma ApiSuffixNotDoubled(root: string, id: string)
    requires root != "" && !EndsWith(root, "/api")
    ensures DownloadUrlForId(root + "/api", id) == DownloadUrlForId(root, id) == root + DOWNLOAD + id
  {
    var b := root + "/api";
    assert EndsWith(b, "/api") by { assert b[|b| - 4..] == "/api"; }
    assert StripApi(b) == root by { assert b[..|b| - 4] == root; }
  }
}
