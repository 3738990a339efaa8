/**
 * The client synchronisation helpers: decoding the answers of the two
 * endpoints the client calls, the polling tick that rehydrates the shared
 * document, and the wrapped `mergeState` that writes through the merge
 * endpoint and falls back to a local merge.
 *
 * An answer is what `await (await fetch(...)).json()` gives: a JSON value,
 * or an exception (network failure, a body that is not JSON).
 */
module MultiUser {
  import opened Wrappers
  import opened Json
  import Decimal
  import MergeEndpoint

  datatype Response = Threw | Body(json: Value)

  /** What a caller's `localMerge` did: the data it left behind, and whether
      its promise resolved or rejected. */
  datatype LocalRun = Resolved(left: Value) | Rejected(left: Value)

  /** The answer's `result`, or null when it has none or the call threw. */
  function KvGet(resp: Response): (r: Value)
    ensures resp.Body? && resp.json.Obj? && "result" in resp.json.fields ==> r == resp.json.fields["result"]
    ensures !(resp.Body? && resp.json.Obj? && "result" in resp.json.fields) ==> r == Null
  {
    match resp
    case Body(Obj(fields)) => if "result" in fields then fields["result"] else Null
    case _ => Null
  }

  /** The answer is an object whose `ok` is truthy. */
  predicate AnsweredOk(resp: Response) {
    resp.Body? && resp.json.Obj? && "ok" in resp.json.fields && Truthy(resp.json.fields["ok"])
  }

  /** The merge answer's `state` when its `ok` is truthy, and null
      otherwise or on any exception. A truthy `ok` without `state` gives undefined, modelled as null. */
  function KvMerge(resp: Response): (r: Value)
    ensures !AnsweredOk(resp) ==> r == Null
    ensures AnsweredOk(resp) ==>
      r == if "state" in resp.json.fields then resp.json.fields["state"] else Null
  {
    match resp
    case Body(Obj(fields)) =>
      if "ok" in fields && Truthy(fields["ok"]) && "state" in fields then fields["state"] else Null
    case _ => Null
  }

  /** What the client receives from the merge endpoint's reply. */
  function Received(reply: MergeEndpoint.Reply): Response {
    match MergeEndpoint.ReplyJson(reply)
    case None => Threw      // the 405 text is not JSON
    case Some(v) => Body(v)
  }

  /** End to end, the client adopts exactly the document the endpoint merged
      and answered with, and treats every other reply as a failure. */
  lemma ReceivedMerge(reply: MergeEndpoint.Reply)
    ensures reply.Merged? ==> KvMerge(Received(reply)) == reply.state
    ensures !reply.Merged? ==> KvMerge(Received(reply)) == Null
  {
  }

  /** `String(r || 0)`. */
  function RevText(r: Value): (s: string)
    ensures r.Num? ==> Decimal.NumberOr0(s) == r.n
    ensures !Truthy(r) ==> s == "0"
    ensures Truthy(r) ==> s == JsString(r)
  {
    var v := if Truthy(r) then r else Num(0);
    Decimal.NumberOr0OfIntToString(if v.Num? then v.n else 0);
    JsString(v)
  }

  /** `String((+v || 0) + 1)`: the previous text read as a number, plus one. */
  function BumpedText(v: string): (s: string)
    ensures Decimal.NumberOr0(s) == Decimal.NumberOr0(v) + 1
    ensures s == Decimal.IntToString(Decimal.NumberOr0(v) + 1)
  {
    Decimal.NumberOr0OfIntToString(Decimal.NumberOr0(v) + 1);
    Decimal.IntToString(Decimal.NumberOr0(v) + 1)
  }

  /**
   * The state one client session keeps through the setters it hands to the
   * helpers, and the `on` flag of the polling effect.
   */
  class SyncEngine {
    var data: Value
    var sessionRevParam: string
    var on: bool

    /** Mounting the polling effect, which starts switched on. */
    constructor (data: Value, sessionRevParam: string)
      ensures this.data == data && this.sessionRevParam == sessionRevParam && on
    {
      this.data := data;
      this.sessionRevParam := sessionRevParam;
      on := true;
    }

    /** The effect's cleanup switches it off (the interval is cleared too). */
    method Cleanup()
      modifies this`on
      ensures !on
    {
      on := false;
    }

    /**
     * One `tick`: read the revision; once the effect is cleaned up nothing
     * changes; on any non-null revision record its text (with no comparison
     * against the previous one), read the document, and adopt it when truthy.
     */
    method Tick(revResp: Response, stateResp: Response)
      modifies this`data, this`sessionRevParam
      ensures !on || KvGet(revResp) == Null ==> data == old(data) && sessionRevParam == old(sessionRevParam)
      ensures on && KvGet(revResp) != Null ==>
        sessionRevParam == JsString(KvGet(revResp)) &&
        data == (if Truthy(KvGet(stateResp)) then KvGet(stateResp) else old(data))
    {
      var r := KvGet(revResp);
      if !on {
        return;
      }
      if r != Null {
        sessionRevParam := JsString(r);
        var st := KvGet(stateResp);
        if Truthy(st) {
          data := st;
        }
      }
    }

    /**
     * The wrapped `mergeState(patch, logMsg)`. On a truthy merged document it
     * adopts it and records `String(rev || 0)` of the revision read next.
     * Otherwise it runs the caller's `localMerge` when one was given, or
     * shallow-merges the patch into the data, and bumps the revision text by
     * one; a `localMerge` that rejects skips the bump, and the rejection
     * propagates to the caller (`rejected`).
     */
    method MergeState(patch: Value, logMsg: string, mergeResp: Response, revResp: Response,
                      localMerge: Option<(Value, Value, string) -> LocalRun>)
      returns (rejected: bool)
      modifies this`data, this`sessionRevParam
      ensures Truthy(KvMerge(mergeResp)) ==>
        data == KvMerge(mergeResp) && sessionRevParam == RevText(KvGet(revResp)) && !rejected
      ensures !Truthy(KvMerge(mergeResp)) && localMerge.None? ==>
        data == Obj(SpreadMerge(old(data), patch)) && sessionRevParam == BumpedText(old(sessionRevParam))
        && !rejected
      ensures !Truthy(KvMerge(mergeResp)) && localMerge.Some? ==>
        var run := localMerge.value(old(data), patch, logMsg);
        data == run.left && rejected == run.Rejected?
        && sessionRevParam == (if run.Rejected? then old(sessionRevParam) else BumpedText(old(sessionRevParam)))
    {
      rejected := false;
      var next := KvMerge(mergeResp);
      if Truthy(next) {
        data := next;
        var r := KvGet(revResp);
        sessionRevParam := RevText(r);
        return;
      }
      // fallback: the merge endpoint gave nothing usable
      if localMerge.Some? {
        var run := localMerge.value(data, patch, logMsg);
        data := run.left;
        if run.Rejected? {
          rejected := true;
          return;
        }
      } else {
        data := Obj(SpreadMerge(data, patch));
      }
      sessionRevParam := BumpedText(sessionRevParam);
    }
  }

  /**
   * A session's first merge into a store that holds no document: the
   * endpoint merges the patch over nothing and the session adopts that
   * object wholesale, so every key of its data that the patch does not
   * carry is gone.
   */
  method FirstMergeDropsOtherKeys(data: Value, patch: Value, stateKey: string, revKey: string)
    returns (adopted: Value, rev: int)
    ensures adopted == Obj(Spread(patch))
    ensures rev == 1
  {
    var session := new SyncEngine(data, "0");
    var store', calls, reply := MergeEndpoint.Handle(
      MergeEndpoint.Store(map[], map[]), MergeEndpoint.Request("POST", Some(MergeEndpoint.MergeBody(stateKey, patch, revKey))),
      MergeEndpoint.GetResult, MergeEndpoint.SetStored, MergeEndpoint.Incremented, "");
    MergeEndpoint.FirstMergeIsPatch(MergeEndpoint.Store(map[], map[]), stateKey, MergeEndpoint.GetResult, patch);
    ReceivedMerge(reply);
    var revAnswer := Body(Obj(map["result" := Num(reply.rev)]));
    var rejected := session.MergeState(patch, "", Received(reply), revAnswer, None);
    adopted := session.data;
    rev := reply.rev;
  }
}
