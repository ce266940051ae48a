/** The key-value store the queue and case data live in, and a transactional session over it:
    writes are buffered until the session commits, reads see only committed data. */
module Store {
  import opened Common
  import opened Json

  /** The committed contents: string values, sets, hashes and queues, each under its key. */
  datatype Data = Data(
    strings: map<string, string>,
    sets: map<string, set<string>>,
    hashes: map<string, map<string, string>>,
    queues: map<string, seq<string>>)

  /** A write waiting in a session's transaction. */
  datatype Write =
    | SetWrite(key: string, value: string)
    | SAddWrite(key: string, members: set<string>)
    | HSetWrite(key: string, mapping: map<string, string>)
    | EnqueueWrite(key: string, value: string)
    | PopWrite(key: string)

  function HashAt(d: Data, key: string): map<string, string> {
    if key in d.hashes then d.hashes[key] else map[]
  }

  function QueueAt(d: Data, key: string): seq<string> {
    if key in d.queues then d.queues[key] else []
  }

  function Apply(d: Data, w: Write): (r: Data)
    ensures w.SetWrite? ==> r.strings == d.strings[w.key := w.value] && r.hashes == d.hashes
    ensures w.HSetWrite? ==> HashAt(r, w.key) == HashAt(d, w.key) + w.mapping && r.strings == d.strings
    ensures w.HSetWrite? ==> forall k :: k != w.key ==> HashAt(r, k) == HashAt(d, k)
    ensures w.EnqueueWrite? ==> QueueAt(r, w.key) == QueueAt(d, w.key) + [w.value]
  {
    match w
    case SetWrite(k, v) => d.(strings := d.strings[k := v])
    case SAddWrite(k, ms) => d.(sets := d.sets[k := (if k in d.sets then d.sets[k] else {}) + ms])
    case HSetWrite(k, m) => d.(hashes := d.hashes[k := HashAt(d, k) + m])
    case EnqueueWrite(k, v) => d.(queues := d.queues[k := QueueAt(d, k) + [v]])
    case PopWrite(k) => if |QueueAt(d, k)| == 0 then d else d.(queues := d.queues[k := QueueAt(d, k)[1..]])
  }

  /** The writes applied in the order they were issued. */
  function ApplyAll(d: Data, ws: seq<Write>): Data
    decreases |ws|
  {
    if |ws| == 0 then d else Apply(ApplyAll(d, ws[..|ws| - 1]), ws[|ws| - 1])
  }

  datatype Status = Created | Opened | Closed

  /** A session: the committed data it reads, the writes it has buffered, and where it is in
      its life cycle. */
  datatype Session = Session(committed: Data, buffer: seq<Write>, status: Status)

  function NewSession(d: Data): Session {
    Session(d, [], Created)
  }

  /** Entering the session's context opens it and yields the session itself. */
  function Enter(s: Session): (r: Session)
    ensures r.status == Opened && r.committed == s.committed && r.buffer == s.buffer
  {
    s.(status := Opened)
  }

  /** Leaving the context commits when the block raised nothing and rolls back otherwise;
      either way the session ends closed with nothing left buffered. */
  function Exit(s: Session, raised: bool): (r: Session)
    ensures r.status == Closed && r.buffer == []
    ensures !raised ==> r.committed == ApplyAll(s.committed, s.buffer)
    ensures raised ==> r.committed == s.committed
  {
    var done := if raised then s.committed else ApplyAll(s.committed, s.buffer);
    Session(done, [], Closed)
  }

  function Buffer(s: Session, w: Write): (r: Session)
    ensures r.committed == s.committed && r.buffer == s.buffer + [w] && r.status == s.status
  {
    s.(buffer := s.buffer + [w])
  }

  function Set(s: Session, key: string, value: string): Session {
    Buffer(s, SetWrite(key, value))
  }

  function SAdd(s: Session, key: string, members: set<string>): Session {
    Buffer(s, SAddWrite(key, members))
  }

  function HSetMapping(s: Session, key: string, mapping: map<string, string>): Session {
    Buffer(s, HSetWrite(key, mapping))
  }

  function Enqueue(s: Session, key: string, value: string): Session {
    Buffer(s, EnqueueWrite(key, value))
  }

  /** `get`: the committed value, not the session's own buffered writes. */
  function Get(s: Session, key: string): (r: Option<string>)
    ensures r.None? <==> key !in s.committed.strings
    ensures r.Some? ==> r.value == s.committed.strings[key]
  {
    if key in s.committed.strings then Some(s.committed.strings[key]) else None
  }

  function HGetAll(s: Session, key: string): map<string, string> {
    HashAt(s.committed, key)
  }

  /** `dequeue`: the committed queue's head, whose removal is buffered with the other writes. */
  function Dequeue(s: Session, key: string): (r: (Option<string>, Session))
    ensures r.0.None? <==> |QueueAt(s.committed, key)| == 0
    ensures r.0.Some? ==> r.0.value == QueueAt(s.committed, key)[0]
    ensures r.1.committed == s.committed
  {
    var q := QueueAt(s.committed, key);
    if |q| == 0 then (None, s) else (Some(q[0]), Buffer(s, PopWrite(key)))
  }

  /** Buffered writes are invisible to reads until the session commits. */
  lemma ReadsIgnoreBuffer(s: Session, w: Write, key: string)
    ensures Get(Buffer(s, w), key) == Get(s, key)
    ensures HGetAll(Buffer(s, w), key) == HGetAll(s, key)
    ensures Dequeue(Buffer(s, w), key).0 == Dequeue(s, key).0
  {
  }

  /** After a commit, a key holds the value of its last buffered `set`. */
  lemma CommitThenGet(s: Session, key: string, value: string)
    ensures Get(Exit(Set(s, key, value), false), key) == Some(value)
  {
    var ws := Set(s, key, value).buffer;
    assert ws[..|ws| - 1] == s.buffer;
  }

  /** A rollback leaves the committed data exactly as it was. */
  lemma RollbackDiscards(s: Session, ws: seq<Write>)
    ensures Exit(s.(buffer := s.buffer + ws), true).committed == s.committed
  {
  }

  // ---------------------------------------------------------------------------
  // JSON-valued helpers
  // ---------------------------------------------------------------------------

  /** `json.loads`; parsing text is not modelled. */
  type Parser = string -> Result<Json, Exception>

  /** `json.loads` of a stored text, where a JSON `null` reads as Python's `None`. */
  function Loads(text: string, parse: Parser): (r: Result<Option<Json>, Exception>)
    ensures r.Err? <==> parse(text).Err?
    ensures r.Err? ==> r.error == parse(text).error
    ensures r == Ok(None) <==> parse(text) == Ok(Null)
    ensures r.Ok? && r.value.Some? ==> parse(text) == Ok(r.value.value) && r.value.value != Null
  {
    var j :- parse(text);
    Ok(if j == Null then None else Some(j))
  }

  /** `getdict`: nothing for an absent key or a stored `null`, else the parsed value. */
  function GetDict(s: Session, key: string, parse: Parser): (r: Result<Option<Json>, Exception>)
    ensures r == Ok(None) <==> key !in s.committed.strings || parse(s.committed.strings[key]) == Ok(Null)
    ensures key in s.committed.strings ==> r == Loads(s.committed.strings[key], parse)
  {
    match Get(s, key)
    case None => Ok(None)
    case Some(v) => Loads(v, parse)
  }

  /** `getmodel`: `getdict` followed by the model's validation; `None` is passed on unvalidated. */
  function GetModel<T>(s: Session, key: string, parse: Parser, validate: Json -> Result<T, Exception>): (r: Result<Option<T>, Exception>)
    ensures r == Ok(None) <==> key !in s.committed.strings || parse(s.committed.strings[key]) == Ok(Null)
    ensures r.Ok? && r.value.Some? ==> exists j :: GetDict(s, key, parse) == Ok(Some(j)) && validate(j) == Ok(r.value.value)
  {
    var d :- GetDict(s, key, parse);
    match d
    case None => Ok(None)
    case Some(j) => var m :- validate(j); Ok(Some(m))
  }

  /** `dequeue_dict`: nothing for an empty queue or a `null` head, else the parsed head. */
  function DequeueDict(s: Session, key: string, parse: Parser): (r: (Result<Option<Json>, Exception>, Session))
    ensures r.0 == Ok(None) <==> |QueueAt(s.committed, key)| == 0 || parse(QueueAt(s.committed, key)[0]) == Ok(Null)
    ensures |QueueAt(s.committed, key)| > 0 ==> r.0 == Loads(QueueAt(s.committed, key)[0], parse)
    ensures r.1 == Dequeue(s, key).1
  {
    var (v, s') := Dequeue(s, key);
    match v
    case None => (Ok(None), s')
    case Some(text) => (Loads(text, parse), s')
  }

  /** `dequeue_model`: `dequeue_dict` followed by the model's validation. */
  function DequeueModel<T>(s: Session, key: string, parse: Parser, validate: Json -> Result<T, Exception>): (r: (Result<Option<T>, Exception>, Session))
    ensures r.0 == Ok(None) <==> |QueueAt(s.committed, key)| == 0 || parse(QueueAt(s.committed, key)[0]) == Ok(Null)
    ensures r.0.Ok? && r.0.value.Some? ==> exists j :: DequeueDict(s, key, parse).0 == Ok(Some(j)) && validate(j) == Ok(r.0.value.value)
    ensures r.1 == Dequeue(s, key).1
  {
    var (d, s') := DequeueDict(s, key, parse);
    match d
    case Err(e) => (Err(e), s')
    case Ok(None) => (Ok(None), s')
    case Ok(Some(j)) => ((var m :- validate(j); Ok(Some(m))), s')
  }

  /** A stored `null` reads as `None`, just like a missing key, and is never validated. */
  lemma StoredNullReadsAsNone<T>(s: Session, key: string, parse: Parser, validate: Json -> Result<T, Exception>)
    requires key in s.committed.strings && parse(s.committed.strings[key]) == Ok(Null)
    ensures GetDict(s, key, parse) == Ok(None)
    ensures GetModel(s, key, parse, validate) == Ok(None)
  {
  }

  /** `json.dumps(value, sort_keys=True)` of a dict. */
  function Serialize(fields: seq<(string, Json)>): string {
    DumpsSorted(Object(fields))
  }

  function SetDict(s: Session, key: string, fields: seq<(string, Json)>): Session {
    Set(s, key, Serialize(fields))
  }

  function SAddDict(s: Session, key: string, fields: seq<(string, Json)>): Session {
    SAdd(s, key, {Serialize(fields)})
  }

  function EnqueueDict(s: Session, key: string, fields: seq<(string, Json)>): Session {
    Enqueue(s, key, Serialize(fields))
  }

  /** Equal dicts, whatever order their entries were built in, are stored as the same text. */
  lemma SerializeOfSameDict(s: Session, key: string, a: seq<(string, Json)>, b: seq<(string, Json)>)
    requires UniqueKeys(a) && SameDict(a, b)
    ensures Serialize(a) == Serialize(b)
    ensures SetDict(s, key, a) == SetDict(s, key, b)
    ensures SAddDict(s, key, a) == SAddDict(s, key, b)
    ensures EnqueueDict(s, key, a) == EnqueueDict(s, key, b)
  {
    CanonOfSameDict(a, b);
  }
}
