/** The status endpoint's decisions: how worker ping replies are classified, when the service
    counts as healthy, and which response format a request gets. */
module Meta {
  import opened Common
  import opened Json

  /** A reply dict: field name to value. */
  type Dict = seq<(string, Json)>

  /** One ping reply: worker name to that worker's reply dict. */
  type Reply = seq<(string, Dict)>

  datatype WorkersInfo = WorkersInfo(totalWorkers: nat, healthyWorkers: seq<string>, unhealthyWorkers: seq<string>, status: string)

  /** A worker answered the ping. */
  predicate Pong(d: Dict) {
    Get(d, "ok") == Some(Str("pong"))
  }

  /** Every worker entry of every reply, in order. */
  function Entries(replies: seq<Reply>): (e: seq<(string, Dict)>)
    ensures forall i, k :: 0 <= i < |replies| && 0 <= k < |replies[i]| ==> replies[i][k] in e
    ensures forall x :: x in e ==> exists i :: 0 <= i < |replies| && x in replies[i]
    decreases |replies|
  {
    if |replies| == 0 then []
    else
      var rest := Entries(replies[1..]);
      assert forall i :: 1 <= i < |replies| ==> replies[i] == replies[1..][i - 1];
      replies[0] + rest
  }

  /** The names of the entries that answered, and of those that did not, in order. */
  function Classify(entries: seq<(string, Dict)>): (r: (seq<string>, seq<string>))
    ensures |r.0| + |r.1| == |entries|
    ensures forall n :: n in r.0 <==> exists j :: 0 <= j < |entries| && entries[j].0 == n && Pong(entries[j].1)
    ensures forall n :: n in r.1 <==> exists j :: 0 <= j < |entries| && entries[j].0 == n && !Pong(entries[j].1)
    decreases |entries|
  {
    if |entries| == 0 then ([], [])
    else
      var (h, u) := Classify(entries[1..]);
      assert forall j :: 1 <= j < |entries| ==> entries[j] == entries[1..][j - 1];
      if Pong(entries[0].1) then ([entries[0].0] + h, u) else (h, [entries[0].0] + u)
  }

  /** `_get_worker_health`. */
  function WorkerHealth(replies: seq<Reply>): (w: WorkersInfo)
    ensures w.totalWorkers == |replies|
    ensures |w.healthyWorkers| + |w.unhealthyWorkers| == |Entries(replies)|
    ensures w.status == "ok" <==> exists j :: 0 <= j < |Entries(replies)| && Pong(Entries(replies)[j].1)
    ensures w.status == "ok" || w.status == "error"
  {
    var (h, u) := Classify(Entries(replies));
    var e := Entries(replies);
    assert |h| > 0 ==> h[0] in h;
    forall j | 0 <= j < |e| && Pong(e[j].1) ensures |h| > 0 {
      assert e[j].0 in h;
    }
    WorkersInfo(|replies|, h, u, if |h| > 0 then "ok" else "error")
  }

  /** Workers that count replies, not entries: one reply naming two workers is one worker. */
  lemma TotalCountsReplies(r: Reply)
    requires |r| == 2
    ensures WorkerHealth([r]).totalWorkers == 1 && |Entries([r])| == 2
  {
    assert Entries([r]) == r + Entries([]);
  }

  /** `needle` occurs in `haystack` starting at index `i`. */
  predicate At(haystack: string, needle: string, i: nat) {
    i + |needle| <= |haystack| && haystack[i..i + |needle|] == needle
  }

  /** `needle in haystack` for strings. */
  function Contains(haystack: string, needle: string): (b: bool)
    ensures b <==> exists i: nat :: At(haystack, needle, i)
    decreases |haystack|
  {
    if |needle| > |haystack| then false
    else if haystack[..|needle|] == needle then
      assert At(haystack, needle, 0);
      true
    else
      var b := Contains(haystack[1..], needle);
      assert forall i: nat :: At(haystack[1..], needle, i) <==> At(haystack, needle, i + 1);
      assert forall i: nat :: At(haystack, needle, i) ==> i >= 1 && At(haystack[1..], needle, i - 1);
      b
  }

  /** The format a request gets: the explicit one, else html when the `accept` header names
      text/html, else json when it names application/json, else none. */
  function Negotiate(format: Option<string>, accept: string): (f: Option<string>)
    ensures format.Some? ==> f == format
    ensures format.None? && Contains(accept, "text/html") ==> f == Some("html")
    ensures format.None? && !Contains(accept, "text/html") && Contains(accept, "application/json") ==> f == Some("json")
    ensures format.None? && !Contains(accept, "text/html") && !Contains(accept, "application/json") ==> f.None?
  {
    if format.Some? then format
    else if Contains(accept, "text/html") then Some("html")
    else if Contains(accept, "application/json") then Some("json")
    else None
  }

  datatype StatusResponse = JsonResponse(statusCode: int) | HtmlResponse(statusCode: int)

  /** `str(format)` in the error detail. */
  function FormatText(f: Option<string>): string {
    if f.Some? then f.value else "None"
  }

  /** `status`: 200 when the service is alive and a worker answered, else 500, in the negotiated
      format; any other format is a 400. */
  function Status(alive: bool, workers: WorkersInfo, format: Option<string>, accept: Option<string>): (r: Result<StatusResponse, HttpError>)
    ensures r.Ok? ==> (r.value.statusCode == 200 <==> alive && workers.status == "ok")
    ensures r.Ok? ==> r.value.statusCode == 200 || r.value.statusCode == 500
    ensures var f := Negotiate(format, if accept.Some? then accept.value else "");
      (r.Ok? <==> f == Some("json") || f == Some("html"))
      && (r.Ok? ==> (r.value.JsonResponse? <==> f == Some("json")))
      && (r.Err? ==> r.error == HttpError(400, "Invalid format `" + FormatText(f) + "`. Use `json` or `html`."))
  {
    var healthy := alive && workers.status == "ok";
    var code := if healthy then 200 else 500;
    var f := Negotiate(format, if accept.Some? then accept.value else "");
    if f == Some("json") then Ok(JsonResponse(code))
    else if f == Some("html") then Ok(HtmlResponse(code))
    else Err(HttpError(400, "Invalid format `" + FormatText(f) + "`. Use `json` or `html`."))
  }

  /** A browser's header, which names both types, gets html. */
  lemma HtmlBeforeJson(accept: string)
    requires Contains(accept, "text/html") && Contains(accept, "application/json")
    ensures Negotiate(None, accept) == Some("html")
  {
  }

  /** An explicit format decides the response whatever `accept` header comes with it: two
      requests that differ only in their headers get the same answer, and `format=json` is
      always answered in JSON. */
  lemma ExplicitFormatIgnoresAccept(alive: bool, workers: WorkersInfo, format: string, a1: Option<string>, a2: Option<string>)
    ensures Status(alive, workers, Some(format), a1) == Status(alive, workers, Some(format), a2)
    ensures Status(alive, workers, Some("json"), a1).Ok? && Status(alive, workers, Some("json"), a1).value.JsonResponse?
  {
  }

  /** Without a format and without an `accept` header the request is refused. */
  lemma NoFormatRefused(alive: bool, workers: WorkersInfo)
    ensures Status(alive, workers, None, None) == Err(HttpError(400, "Invalid format `None`. Use `json` or `html`."))
  {
    assert !Contains("", "text/html") && !Contains("", "application/json");
    assert Negotiate(None, "") == None;
    assert FormatText(None) == "None";
    assert "Invalid format `" + "None" + "`. Use `json` or `html`." == "Invalid format `None`. Use `json` or `html`.";
  }
}
