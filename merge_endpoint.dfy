/**
 * The merge endpoint `POST /api/kv-merge`: read the shared document from the
 * hosted key-value store, shallow-merge the patch over it, write it back,
 * increment the revision counter, and answer with the merged document and
 * the new revision.
 *
 * The store is a value: documents under string keys and integer counters
 * under string keys. Each store request the handler sends either reaches the
 * store or throws; how each one went is an input.
 */
module MergeEndpoint {
  import opened Wrappers
  import opened Json

  datatype Store = Store(values: map<string, Value>, counters: map<string, int>)

  /** A counter that was never incremented reads as 0. */
  function CounterOf(s: Store, key: string): int {
    if key in s.counters then s.counters[key] else 0
  }

  /** A store request the handler sends, in the order it sends them. */
  datatype StoreCall = Get(key: string) | Set(key: string, value: Value) | Incr(key: string)

  datatype MergeBody = MergeBody(stateKey: string, patch: Value, revKey: string)

  /** An HTTP request; `body` is None when `req.json()` throws. */
  datatype Request = Request(verb: string, body: Option<MergeBody>)

  /** How the read went: the store answered with `result` (the stored value, or
      null for a missing key), answered without `result`, or the call threw. */
  datatype GetOutcome = GetResult | GetNoResult | GetThrew

  /** How the write went: stored; refused with an answer nobody inspects;
      threw before reaching the store; or stored, and then the call threw
      (for instance the connection dropped while the answer came back). */
  datatype SetOutcome = SetStored | SetRefused | SetThrew | SetStoredThenThrew

  /** How the increment went: applied (answering the new value); answered
      without `result`; threw before reaching the store; or applied, and then
      the call or the reading of its answer threw. */
  datatype IncrOutcome = Incremented | IncrNoResult | IncrThrew | IncrementedThenThrew

  /** The write reached the store. */
  predicate Wrote(write: SetOutcome) {
    write == SetStored || write == SetStoredThenThrew
  }

  /** The write request ended the handler with an exception. */
  predicate SetThrows(write: SetOutcome) {
    write == SetThrew || write == SetStoredThenThrew
  }

  /** The increment reached the store. */
  predicate Bumped(bump: IncrOutcome) {
    bump == Incremented || bump == IncrementedThenThrew
  }

  /** The increment request ended the handler with an exception. */
  predicate IncrThrows(bump: IncrOutcome) {
    bump == IncrThrew || bump == IncrementedThenThrew
  }

  datatype Reply =
    | MethodNotAllowed              // 405, plain text
    | Merged(state: Value, rev: int) // 200 { ok: true, state, rev }
    | Failed(error: string)          // 500 { ok: false, error }

  function Status(r: Reply): int {
    match r
    case MethodNotAllowed => 405
    case Merged(_, _) => 200
    case Failed(_) => 500
  }

  /** The JSON body of a reply; None for the plain-text 405. */
  function ReplyJson(r: Reply): Option<Value> {
    match r
    case MethodNotAllowed => None
    case Merged(state, rev) => Some(Obj(map["ok" := Bool(true), "state" := state, "rev" := Num(rev)]))
    case Failed(e) => Some(Obj(map["ok" := Bool(false), "error" := Str(e)]))
  }

  /** What the handler takes as the current document: the stored value when
      the read answered with a result, and null otherwise (the merge then
      starts from an empty object). */
  function CurrentDocument(s: Store, key: string, read: GetOutcome): (v: Value)
    ensures read == GetResult && key in s.values ==> v == s.values[key]
    ensures !(read == GetResult && key in s.values) ==> v == Null && Spread(v) == map[]
  {
    if read == GetResult && key in s.values then s.values[key] else Null
  }

  /** The first merge into a key that holds nothing yields exactly the keys
      the patch spreads: there is no document underneath to keep. */
  lemma FirstMergeIsPatch(s: Store, key: string, read: GetOutcome, patch: Value)
    requires key !in s.values
    ensures SpreadMerge(CurrentDocument(s, key, read), patch) == Spread(patch)
    ensures SpreadMerge(CurrentDocument(s, key, read), patch).Keys == Spread(patch).Keys
  {
  }

  /**
   * The handler. `thrown` is the text of whatever exception ends it early.
   * It sends at most one read, one write and one increment, in that order,
   * and reports success whenever nothing threw. A write or an increment that
   * reached the store stays applied even when the handler then fails.
   */
  method Handle(store: Store, req: Request, read: GetOutcome, write: SetOutcome, bump: IncrOutcome, thrown: string)
    returns (store': Store, calls: seq<StoreCall>, reply: Reply)
    // 405 on every verb but POST, without touching the store
    ensures reply == MethodNotAllowed <==> req.verb != "POST"
    ensures Status(reply) == 405 <==> req.verb != "POST"
    ensures Status(reply) == 200 <==>
      req.verb == "POST" && req.body.Some? && read != GetThrew && !SetThrows(write) && !IncrThrows(bump)
    ensures Status(reply) == 500 <==>
      req.verb == "POST" && (req.body.None? || read == GetThrew || SetThrows(write) || IncrThrows(bump))
    ensures req.verb != "POST" ==> calls == [] && store' == store
    // an unreadable body fails before any store request
    ensures req.verb == "POST" && req.body.None? ==> reply == Failed(thrown) && calls == [] && store' == store
    // success exactly when none of the three requests threw
    ensures reply.Merged? <==>
      req.verb == "POST" && req.body.Some? && read != GetThrew && !SetThrows(write) && !IncrThrows(bump)
    ensures reply.Failed? ==> reply.error == thrown
    // nothing reaches the store unless the body was read and the read answered
    ensures req.body.None? || read == GetThrew ==> store' == store
    ensures req.verb == "POST" && req.body.Some? && read == GetThrew ==> calls == [Get(req.body.value.stateKey)]
    // once the read answered: the merged document and the requests sent
    ensures req.verb == "POST" && req.body.Some? && read != GetThrew ==>
      var b := req.body.value;
      var next := Obj(SpreadMerge(CurrentDocument(store, b.stateKey, read), b.patch));
      && calls == [Get(b.stateKey), Set(b.stateKey, next)] + (if SetThrows(write) then [] else [Incr(b.revKey)])
      // the document is written exactly when the write reached the store
      && store'.values == (if Wrote(write) then store.values[b.stateKey := next] else store.values)
      // the counter moves exactly when the increment was sent and reached the store
      && store'.counters == (if !SetThrows(write) && Bumped(bump)
                             then store.counters[b.revKey := CounterOf(store, b.revKey) + 1]
                             else store.counters)
      && (reply.Merged? ==>
            reply.state == next
            && reply.rev == (if bump == Incremented then CounterOf(store, b.revKey) + 1 else 0))
  {
    store', calls := store, [];
    if req.verb != "POST" {
      reply := MethodNotAllowed;
      return;
    }
    if req.body.None? {
      reply := Failed(thrown);
      return;
    }
    var body := req.body.value;
    // 1) read the current document
    calls := [Get(body.stateKey)];
    if read == GetThrew {
      reply := Failed(thrown);
      return;
    }
    var cur := CurrentDocument(store, body.stateKey, read);
    // 2) shallow merge, last write wins
    var next := Obj(SpreadMerge(cur, body.patch));
    // 3) write it back; the answer is not inspected
    calls := [Get(body.stateKey), Set(body.stateKey, next)];
    var values := if Wrote(write) then store.values[body.stateKey := next] else store.values;
    store' := Store(values, store.counters);
    if SetThrows(write) {
      reply := Failed(thrown);
      return;
    }
    // 4) bump the revision
    calls := calls + [Incr(body.revKey)];
    var counter := CounterOf(store, body.revKey) + 1;
    if Bumped(bump) {
      store' := Store(values, store.counters[body.revKey := counter]);
    }
    if IncrThrows(bump) {
      reply := Failed(thrown);
      return;
    }
    reply := Merged(next, if bump == Incremented then counter else 0);
  }
}
